# Dlink front end: parser, preprocessing, code generation and tree dump

Dlink is a small C-like language whose compiler turns a token sequence into
an abstract syntax tree with a recursive-descent parser, preprocesses the
tree (function objects are created before any body is compiled), generates
LLVM code from it, and can print the tree as indented text. This project
models that core in Dafny:

- `tokens.dfy`, `ast.dfy`, `wrappers.dfy`: the token kinds, the AST nodes
  (expressions, statements, type nodes, variable declarations) with the
  default `is_lvalue` / `is_safe` predicates, and `Option` / `Result`.
- `grammar.dfy` (module `Grammar`): every production of the parser as a
  total function of the tokens and the parser state (cursor plus the
  append-only error list); `grammar_facts.dfy` proves what concrete inputs
  parse to, including the parser's rough edges.
- `parser.dfy` (module `ParserImpl`): the parser object, one method per
  production updating the cursor and the error list in place, each proved to
  reach exactly the state and node of its production.
- `operation.dfy` (modules `Operation`, `Promotion`): `operator_string`,
  the constant evaluator, and the arithmetic promotion table with `type_inf`.
- `codegen.dfy` (module `CodeGen`): preprocessing and code generation as
  functions over a generator state: the chain of symbol tables, the unsafe
  flag, the warnings list, the emitted instructions, the return type of the
  function being generated, and the function objects created so far.
  `codegen_facts.dfy` proves the rules of the language on it.
- `generator.dfy` (module `Generator`): the code generator as an object whose
  methods walk the tree and update that state in place, each proved to end
  with the value, error and state the `CodeGen` functions prescribe.
- `tree.dfy` (module `Tree`): `tree_gen` for every node, with the loops of
  the block, scope, call, list and parameter dumps as methods.

The LLVM backend is abstract: an instruction list whose positions are the
handles of instruction results. A thrown `Error` becomes an `Err` result
carrying the message; the generator state at the throw is not kept, since
compilation stops there.

## Model

| member | source | states |
|---|---|---|
| Ast.IsLvalue | src/ParseStruct/Root.cc:77-80 | only an identifier is an lvalue; every other node keeps the default `false` of Root.cc:38-41 |
| Ast.TypeIsSafe | src/ParseStruct/Root.cc:204-207 | a simple type is safe, the default `true`; that pointer and reference types are unsafe is an assumption about their overrides in `Type.cc`, which is not part of this model |
| Ast.StaticType | src/ParseStruct/Operation.cc:100-102 | the `type` member an expression carries: `int` for an Integer32 constant, none for the other nodes |
| Grammar.Accept | src/Parser.cc:55-66 | the cursor advances by one and the token is handed back exactly when the current token has the requested kind; otherwise nothing changes |
| Grammar.Current | src/Parser.cc:42-45 | the token under the cursor, `current_token` |
| Grammar.AddError | src/Parser.cc:166 | a diagnostic about the current token is appended; the cursor stays |
| Grammar.PBlock | src/Parser.cc:71-94 | the block succeeds exactly when no error was recorded at all, and then yields a Block; the cursor never goes back and errors are only appended |
| Grammar.BlockLoop | src/Parser.cc:77-81 | the scope loop only moves forward and only appends errors |
| Grammar.PScope | src/Parser.cc:96-139 | after `{`, the scope fails exactly when the token after the declarations is not `}`, and then records "Expected '}', but got ..." there; success consumes input |
| Grammar.ScopeLoop | src/Parser.cc:103-107 | the declaration loop only moves forward and only appends errors |
| Grammar.PVarDecl | src/Parser.cc:141-208 | success consumes input and yields a variable declaration, a function declaration, an expression statement or a return carrying an expression; the cursor never goes back and errors are only appended |
| Grammar.DeclAfterType | src/Parser.cc:148-191 | a token other than an identifier after the type records one "Expected identifier, but got ..." about that token and fails; on success the node declares the given type under the identifier's text |
| Grammar.DeclAfterName | src/Parser.cc:151-191 | after the name, `;` gives a declaration without initialiser and consumes one token; `=` gives, on success, a declaration with an initialiser ending just after `;`; `(` gives a function declaration; any other token records "Expected identifier, but got ..." about it and fails |
| Grammar.PFuncDecl | src/Parser.cc:210-270 | success yields a FunctionDeclaration with the given return type and name whose parameters are all `int` parameters without initialiser |
| Grammar.ParamLoop | src/Parser.cc:214-256 | success ends just after `)`, keeps the parameters read so far as a prefix and adds only `int` parameters without initialiser |
| Grammar.ParamsExtend | src/Parser.cc:235-236 | appending an `int` parameter and then more of them extends the list read so far |
| Grammar.PReturnStmt | src/Parser.cc:272-313 | success ends just after `;`; starting at `return` it yields a return carrying an expression, otherwise an expression statement |
| Grammar.PTerminatedExpr | src/Parser.cc:156-176 | success ends just after `;`; a failure records at least one diagnostic |
| Grammar.PExprStmt | src/Parser.cc:315-337 | success yields an expression statement ending just after `;` |
| Grammar.PAssign | src/Parser.cc:347-389 | the result is a chain of assignments nested on their left operand over add/sub operands, so `a = b = c` is `(c = b) = a`; without `=` it is exactly the add/sub expression |
| Grammar.AssignLoop | src/Parser.cc:362-374 | the collected operands extend the ones given and stay add/sub shaped; the loop stops only at a token other than `=`, and without `=` returns the operands untouched |
| Grammar.Reverse | src/Parser.cc:378 | reversing keeps the length |
| Grammar.ReverseReverse | src/Parser.cc:378 | reversing twice gives the original sequence |
| Grammar.ReverseAppend | src/Parser.cc:378 | the reverse of a concatenation is the concatenation of the reverses, swapped |
| Grammar.ReverseElement | src/Parser.cc:378 | element i of the reverse is element n-1-i of the original |
| Grammar.FoldFromShape | src/Parser.cc:380-383 | folding operands onto a result nests one assignment per operand, innermost result kept, right-hand sides in reverse order |
| Grammar.FoldAssign | src/Parser.cc:376-385 | the fold after the operand loop: the last operand is the start, the others, reversed, become the right operands of nested `=` nodes; Grammar.FoldAssignShape states the result |
| Grammar.FoldAssignShape | src/Parser.cc:376-385 | from operands `a0 = ... = ak`: k nested `=` nodes, `ak` innermost on the left and `a0 ... a(k-1)` the right operands from the outermost node inwards, so `a = b = c` becomes `(c = b) = a` |
| Grammar.PAddSub | src/Parser.cc:391-419 | success consumes input and yields a left-leaning chain of `+`/`-` over mul/div operands |
| Grammar.AddSubLoop | src/Parser.cc:401-416 | the add/sub loop keeps the add/sub shape |
| Grammar.PMulDiv | src/Parser.cc:421-449 | success consumes input and yields a left-leaning chain of `*`/`/` |
| Grammar.MulDivLoop | src/Parser.cc:431-446 | after `*` or `/` only a number is accepted; anything else is "Expected expression, but got ..." |
| Grammar.PFuncCall | src/Parser.cc:451-502 | it succeeds only on `identifier (`, and yields a call; a number first records "TODO"; an identifier without `(` fails after consuming it |
| Grammar.ArgLoop | src/Parser.cc:476-498 | a call built by the argument loop keeps the callee, keeps the arguments read so far as a prefix and ends just after `)`; GrammarFacts.LastArgumentRead and ArgumentAppended state each step |
| Grammar.PAtom | src/Parser.cc:504-507 | an atom exists exactly at a number or an identifier, consumes one token and records nothing |
| Grammar.PNumber | src/Parser.cc:512-522 | a decimal literal becomes an Integer32 of its `stoi` value, consuming one token |
| Grammar.Stoi | src/Parser.cc:517 | the decimal value of the literal's leading digits, as `std::stoi` reads them (unbounded) |
| Grammar.PIdentifier | src/Parser.cc:524-534 | an identifier token becomes an Identifier node of its text, consuming one token |
| Grammar.PSimpleType | src/Parser.cc:544-649 | a type never records an error; success consumes input and yields a simple type |
| Grammar.SignTail | src/Parser.cc:546-603 | after `unsigned`/`signed`, the result is always `int` with that signedness, consuming at most one more token |
| GrammarFacts.SimpleTypeSpellings | src/Parser.cc:544-649 | the full case table: `int`, `void`, `unsigned`/`signed` alone or before `int` give a type; `char`, `short`, `long` in either position fail after consuming; anything else fails untouched |
| GrammarFacts.NoExpression | src/Parser.cc:504-507 | no expression starts at a token that is neither a number nor a name, and nothing is recorded |
| GrammarFacts.EmptyCall | src/Parser.cc:475-496 | `f()` parses to a call without arguments and consumes three tokens |
| GrammarFacts.LastArgumentRead | src/Parser.cc:483-491 | an argument followed by `)` closes the call with the callee and the arguments read so far plus this one, in order, ending after `)` |
| GrammarFacts.ArgumentAppended | src/Parser.cc:480-492 | an argument followed by anything else is appended and the loop continues right after it |
| GrammarFacts.CallOperand | src/Parser.cc:421-449 | `f()` not followed by `*`/`/` is a mul/div operand by itself |
| GrammarFacts.AddSubLoopStep | src/Parser.cc:401-416 | one step of the add/sub loop builds the binary node over the accumulated left operand |
| GrammarFacts.AddSubTwoSteps | src/Parser.cc:401-416 | two steps of the loop nest to the left |
| GrammarFacts.AddSubLeftFold | src/Parser.cc:391-419 | `a + b - c` parses as `(a + b) - c` |
| GrammarFacts.AddSubCalls | src/Parser.cc:391-419 | `f() + g() - h();` parses as `(f() + g()) - h()` and stops at `;` |
| GrammarFacts.AddSubStops | src/Parser.cc:401-416 | without `+`/`-` the loop returns its left operand untouched |
| GrammarFacts.LiteralInitialiserRejected | src/Parser.cc:451-470 | `int x = 1;` fails with "TODO" then "Expected expression, but got ";"", because a call parses first and rejects a number |
| GrammarFacts.LiteralOperandRejected | src/Parser.cc:460-470 | an expression starting with a number fails with "TODO" after consuming it |
| GrammarFacts.LiteralArgumentDropped | src/Parser.cc:475-496 | `f(1)` yields a call with no argument and records "TODO" at the `)` |
| GrammarFacts.UnnamedLastParameterDropped | src/Parser.cc:230-245 | `int )` at the end of a parameter list adds no parameter |
| GrammarFacts.TypedStatement | src/Parser.cc:146 | a statement whose type parses is read by the rest of the declaration |
| GrammarFacts.UntypedStatement | src/Parser.cc:193-207 | a statement where no type parses is a `return_stmt` from where `simple_type` stopped |
| GrammarFacts.NameRead | src/Parser.cc:148-150 | the identifier after the type is consumed and its text becomes the name |
| GrammarFacts.TerminatedExpression | src/Parser.cc:156-164 | an expression followed by `;` is that expression, with the cursor past the `;` |
| GrammarFacts.InitialisedAfterName | src/Parser.cc:152-164 | `= e ;` after the name gives a declaration with initialiser `e` |
| GrammarFacts.FunctionParts | src/Parser.cc:210-270 | once `(` is read, the declaration holds the return type, the name, the parameters the list collected in order, and the body scope |
| GrammarFacts.FunctionAfterName | src/Parser.cc:184-187 | `(` after the name hands over to `func_decl` |
| GrammarFacts.DeclarationWithoutInitialiser | src/Parser.cc:177-183 | `T x ;` gives VariableDeclaration(T, x) without initialiser and consumes through the `;` |
| GrammarFacts.UninitialisedAfterType | src/Parser.cc:177-183 | `x ;` after the type gives the declaration without initialiser |
| GrammarFacts.DeclarationWithInitialiser | src/Parser.cc:152-164 | `T x = e ;` gives VariableDeclaration(T, x, e) and ends past the `;` |
| GrammarFacts.InitialisedAfterType | src/Parser.cc:152-164 | `x = e ;` after the type gives the declaration with initialiser `e` |
| GrammarFacts.DeclarationMissingTerminator | src/Parser.cc:188-191 | `T x` followed by anything but `;`, `=` or `(` fails with "Expected identifier, but got ..." about that token |
| GrammarFacts.UnterminatedAfterType | src/Parser.cc:188-191 | the same failure, from the rest of the declaration |
| GrammarFacts.DeclarationMissingName | src/Parser.cc:190-191 | a type not followed by a name fails with "Expected identifier, but got ..." about the token after the type |
| GrammarFacts.FunctionDeclarationForm | src/Parser.cc:184-187 | `T f ( params ) body` gives FunctionDeclaration(T, f, params in order, body) |
| GrammarFacts.FunctionAfterType | src/Parser.cc:184-187 | `f ( params ) body` after the type gives that function declaration |
| GrammarFacts.FunctionAfterNameForm | src/Parser.cc:210-270 | `( params ) body` after the name gives that function declaration |
| GrammarFacts.FunctionBodyRejected | src/Parser.cc:258-264 | a body that does not parse records one "Unexpected ..." about the token where it stopped |
| GrammarFacts.NamedParameterAppended | src/Parser.cc:233-240 | a named parameter is appended after the ones read, with or without its `,`, and the loop goes on |
| GrammarFacts.ParameterListCloses | src/Parser.cc:219-250 | `)` alone, or `void )`, ends the list without adding to it |
| GrammarFacts.TwoParameters | src/Parser.cc:214-256 | `int a , unsigned b )` gives both parameters in source order with their signedness |
| GrammarFacts.IntParameterRead | src/Parser.cc:233-239 | `int x ,` appends a signed `int` parameter named x |
| GrammarFacts.UnsignedParameterRead | src/Parser.cc:233-239 | `unsigned x` appends an unsigned `int` parameter named x |
| GrammarFacts.VoidParameterRejected | src/Parser.cc:219-229 | `void` followed by anything but `)` records the placeholder "TODO" diagnostic at that token and fails |
| GrammarFacts.ParameterRejected | src/Parser.cc:249-255 | an entry starting with neither a type keyword nor `)` records "Unexpected ..." about that token and fails |
| GrammarFacts.ReturnIsUntyped | src/Parser.cc:193-207 | a statement starting with `return` is a `return_stmt` |
| GrammarFacts.ReturnWithValue | src/Parser.cc:272-291 | `return e ;` gives ReturnStatement(e) and ends past the `;` |
| GrammarFacts.ReturnStmtWithValue | src/Parser.cc:272-291 | the same, for `return_stmt` itself |
| GrammarFacts.BareReturnRejected | src/Parser.cc:279-283 | `return ;` fails with "Expected expression, but got ..." about the `;`: the parser never builds a return without expression |
| GrammarFacts.ReturnStmtWithoutValue | src/Parser.cc:279-283 | the same, for `return_stmt` itself |
| GrammarFacts.ExpressionStatementForm | src/Parser.cc:315-331 | `e ;` not starting with a type or `return` gives ExpressionStatement(e) |
| GrammarFacts.ExpressionStatementMissingSemicolon | src/Parser.cc:332-336 | `e` followed by anything but `;` fails with "Expected ';', but got ..." about that token |
| GrammarFacts.AssignLoopChain | src/Parser.cc:362-374 | over a chain of operands separated by `=`, the loop from operand j collects every remaining operand |
| GrammarFacts.ChainEnd | src/Parser.cc:362-374 | the loop stops after the last operand, at a token other than `=` |
| GrammarFacts.ChainStep | src/Parser.cc:362-374 | each accepted `=` appends exactly the next operand |
| GrammarFacts.ChainLink | src/Parser.cc:362-374 | operand j ends on an `=` and operand j+1 starts just past it |
| GrammarFacts.AssignLoopStep | src/Parser.cc:362-374 | one `= operand` step appends the operand and goes on after it |
| GrammarFacts.PrefixExtended | src/Parser.cc:373 | appending the next operand to the first n gives the first n+1 |
| GrammarFacts.AssignChainShape | src/Parser.cc:347-389 | `e0 = e1 = ... = ek`: k `=` tokens give exactly k nested `=` nodes, `ek` innermost on the left and `e0 ... e(k-1)` the right operands from the outermost inwards |
| GrammarFacts.ThreeOperandChain | src/Parser.cc:347-389 | `a = b = c` parses as `(c = b) = a` |
| GrammarFacts.ThreeChain | src/Parser.cc:362-374 | three operands separated by two `=` form a chain |
| GrammarFacts.FoldThree | src/Parser.cc:376-385 | folding `[a, b, c]` gives `(c = b) = a` |
| GrammarFacts.CallBeforeAssign | src/Parser.cc:391-419 | a call `f ( )` followed by `=` is a whole add/sub operand |
| GrammarFacts.AssignCalls | src/Parser.cc:347-389 | `a() = b() = c();` parses as `(c() = b()) = a()` and stops at `;` |
| ParserImpl.ReverseInPlace | src/Parser.cc:378 | the array afterwards is the reverse of the array before |
| ParserImpl.Parser.constructor | src/Parser.cc:10-12 | the cursor starts at the first token with no diagnostics |
| ParserImpl.Parser.Accept | src/Parser.cc:55-66 | the cursor and the accepted token are those of Grammar.Accept |
| ParserImpl.Parser.CurrentToken | src/Parser.cc:42-45 | the token under the object's cursor |
| ParserImpl.Parser.PreviousToken | src/Parser.cc:46-49 | the token just before the object's cursor; only called after a token was accepted |
| ParserImpl.Parser.AddError | src/Parser.cc:166 | the state afterwards is that of Grammar.AddError |
| ParserImpl.Parser.Parse | src/Parser.cc:21-24 | the node and state are those of Grammar.PBlock |
| ParserImpl.Parser.Block | src/Parser.cc:71-94 | the node and state are those of Grammar.PBlock |
| ParserImpl.Parser.Scope | src/Parser.cc:96-139 | the node and state are those of Grammar.PScope |
| ParserImpl.Parser.VarDecl | src/Parser.cc:141-208 | the node and state are those of Grammar.PVarDecl |
| ParserImpl.Parser.DeclAfterType | src/Parser.cc:147-189 | the node and state are those of Grammar.DeclAfterType |
| ParserImpl.Parser.DeclAfterName | src/Parser.cc:151-185 | the node and state are those of Grammar.DeclAfterName |
| ParserImpl.Parser.FuncDecl | src/Parser.cc:210-270 | the node and state are those of Grammar.PFuncDecl |
| ParserImpl.Parser.ParamList | src/Parser.cc:214-257 | the parameters and state are those of Grammar.ParamLoop |
| ParserImpl.Parser.ReturnStmt | src/Parser.cc:272-313 | the node and state are those of Grammar.PReturnStmt |
| ParserImpl.Parser.TerminatedExpr | src/Parser.cc:315-337 | the node and state are those of Grammar.PTerminatedExpr |
| ParserImpl.Parser.ExprStmt | src/Parser.cc:315-337 | the node and state are those of Grammar.PExprStmt |
| ParserImpl.Parser.Assignment | src/Parser.cc:347-389 | the node and state are those of Grammar.PAssign |
| ParserImpl.Parser.AssignOperands | src/Parser.cc:358-373 | the operands and state are those of Grammar.AssignLoop |
| ParserImpl.Parser.Fold | src/Parser.cc:375-386 | the folded expression is Grammar.FoldAssign of the operands |
| ParserImpl.Parser.AddSub | src/Parser.cc:391-419 | the node and state are those of Grammar.PAddSub |
| ParserImpl.Parser.MulDiv | src/Parser.cc:421-449 | the node and state are those of Grammar.PMulDiv |
| ParserImpl.Parser.FuncCall | src/Parser.cc:451-502 | the node and state are those of Grammar.PFuncCall |
| ParserImpl.Parser.Atom | src/Parser.cc:504-507 | the node and state are those of Grammar.PAtom |
| ParserImpl.Parser.Number | src/Parser.cc:512-522 | the node and state are those of Grammar.PNumber |
| ParserImpl.Parser.Identifier | src/Parser.cc:524-534 | the node and state are those of Grammar.PIdentifier |
| ParserImpl.Parser.SimpleType | src/Parser.cc:544-649 | the node and state are those of Grammar.PSimpleType |
| ParserImpl.Parser.SignTail | src/Parser.cc:546-603 | the node and state are those of Grammar.SignTail |
| Operation.OperatorString | src/ParseStruct/Operation.cc:10-92 | an operator has a non-empty spelling of at most three characters; every other token kind has the empty one |
| Operation.OperatorStringRoundTrip | src/ParseStruct/Operation.cc:10-92 | every operator is recovered from its spelling |
| Operation.OperatorNamedSound | src/ParseStruct/Operation.cc:10-92 | a spelling that names an operator is that operator's spelling |
| Operation.OperatorStringInjective | src/ParseStruct/Operation.cc:10-92 | two operators never share a spelling |
| Operation.EvaluatesIffConstant | src/ParseStruct/Operation.cc:433-474 | with total arithmetic, an expression evaluates exactly when it is built from literals by `+ - * /` and unary `+ -` |
| Operation.EvaluatesOnlyConstants | src/ParseStruct/Root.cc:48-51 | whatever the arithmetic, only such constant expressions evaluate; every other node refuses |
| Operation.NamesNeverEvaluate | src/ParseStruct/Root.cc:48-51 | an expression mentioning an identifier or call never evaluates |
| Operation.SignIsZeroOperand | src/ParseStruct/Operation.cc:537-569 | unary `+x` and `-x` evaluate as `0 + x` and `0 - x` |
| Operation.BinaryFolds | src/ParseStruct/Operation.cc:433-474 | on two evaluated operands, `+ - * /` apply the arithmetic; any other operator refuses |
| Operation.Evaluate | src/ParseStruct/Operation.cc:112-116 | the constant evaluator of Integer32, BinaryOperation and UnaryOperation (Operation.cc:433-474, 537-569), refusing every other node; its properties are the lemmas above |
| Promotion.TypeNameRoundTrip | src/ParseStruct/Operation.cc:360-377 | every primitive type is recovered from its printed name |
| Promotion.PrimNamedSound | src/ParseStruct/Operation.cc:360-377 | a name that denotes a primitive type is that type's printed name |
| Promotion.Promote | src/ParseStruct/Operation.cc:187-358 | the promotion table as written, a partial map over pairs of primitive types; its properties are the Promotion lemmas below |
| Promotion.SimpleTypeName | src/ParseStruct/Operation.cc:360-377 | the name `simpletype2string` prints: "unsigned " before an unsigned type, then the type's name; empty for anything but a simple type |
| Promotion.TypeInf | src/ParseStruct/Operation.cc:379-390 | looks the two operand type names up in the table: no type when either name is not a row or column of the table, the `map::at` failure where the pair has no entry; Promotion.TypeInfFollowsTable ties it to the table |
| Promotion.IntegerPromotionIsMaxRank | src/ParseStruct/Operation.cc:187-357 | two integer types promote to the one of higher rank |
| Promotion.IntegerDiagonal | src/ParseStruct/Operation.cc:187-357 | an integer type with itself stays that type |
| Promotion.IntegerPromotionSymmetric | src/ParseStruct/Operation.cc:187-357 | integer promotion does not depend on operand order |
| Promotion.UnsignedLongAbsorbs | src/ParseStruct/Operation.cc:187-357 | `unsigned long` with any integer type is `unsigned long` |
| Promotion.LongAbsorbsNarrower | src/ParseStruct/Operation.cc:187-357 | `long` with any other integer type except `unsigned long` is `long` |
| Promotion.IntDoubleAsymmetric | src/ParseStruct/Operation.cc:187-357 | `int` with `double` is `double`, but `double` with `int` is `int`, as the table is written |
| Promotion.FloatGaps | src/ParseStruct/Operation.cc:187-357 | the table has no entry for a floating type with itself, nor for `long`/`unsigned long` with a floating type |
| Promotion.PromoteChoosesOperand | src/ParseStruct/Operation.cc:187-357 | a promoted type is always one of the two operand types |
| Promotion.PrimTypeNamed | src/ParseStruct/Operation.cc:360-377 | the name `simpletype2string` prints for a primitive type node is its table key |
| Promotion.TypeInfFollowsTable | src/ParseStruct/Operation.cc:379-390 | on two primitive operand types, inference yields the table entry, or fails like `map::at` where there is none |
| Promotion.IntPlusInt | src/ParseStruct/Operation.cc:379-390 | `int` with `int` infers `int` |
| Promotion.UntypedOperand | src/ParseStruct/Operation.cc:379-390 | an operand without a type gives no type, without failing |
| CodeGen.Insert | src/ParseStruct/Declaration.cc:122 | `map.insert` on the current table: an existing binding is kept, a new name is bound; outer tables untouched |
| CodeGen.Find | src/ParseStruct/Root.cc:68 | lookup from the current table outwards; CodeGenFacts.FindInnermost and FindFails state what it returns |
| CodeGen.FindOrNull | src/ParseStruct/Operation.cc:603 | the callee lookup of a call: the binding, or the null handle when there is none |
| CodeGen.LoadedFrom | src/ParseStruct/Operation.cc:415-420 | the address a handle was loaded from, when it is the result of a load, standing for the `LoadInst` cast |
| CodeGen.Erase | src/ParseStruct/Declaration.cc:212-215 | the name is removed from the current table only |
| CodeGen.Push | src/ParseStruct/Root.cc:150-152 | a new empty current table whose parent chain is the old one |
| CodeGen.Pop | src/ParseStruct/Root.cc:161 | drops the current table: the chain is its parent again |
| CodeGen.Current | src/ParseStruct/Root.cc:68 | the innermost table, where `map.insert` and `map.erase` act |
| CodeGen.GenExpr | src/ParseStruct/Root.cc:66-76 | generating an expression only appends straight-line instructions and warnings; tables, flag and return type unchanged. Its body follows the `code_gen` of every expression kind: Operation.cc:104-116, 182-427, 496-532, 596-626, 659-703 |
| CodeGen.GenCall | src/ParseStruct/Operation.cc:596-626 | a call emits only straight-line instructions; its rules are CodeGenFacts.CallNeedsFunction, ArgsLeftToRight and CallEmittedLast |
| CodeGen.GenUnsafeExpr | src/ParseStruct/Operation.cc:685-703 | an unsafe expression leaves the flag as it found it |
| CodeGen.GenArgs | src/ParseStruct/Operation.cc:613-618 | one argument value per argument, emitting only straight-line instructions; the left-to-right order is CodeGenFacts.ArgsLeftToRight |
| CodeGen.GenBinary | src/ParseStruct/Operation.cc:392-426 | the operator step emits only straight-line instructions; what it emits for `+ - * /` and for `=` is CodeGenFacts.ArithmeticTyped, ArithmeticAfterOperands and AssignToVariable |
| CodeGen.GenUnary | src/ParseStruct/Operation.cc:496-532 | the operator step emits only straight-line instructions |
| CodeGen.ArrayHelper | src/ParseStruct/Declaration.cc:47-84 | filling a list emits only straight-line instructions |
| CodeGen.ArrayElements | src/ParseStruct/Declaration.cc:55-83 | the element loop emits only straight-line instructions |
| CodeGen.StoreValue | src/ParseStruct/Declaration.cc:68 | storing one element emits only straight-line instructions |
| CodeGen.FirstElement | src/ParseStruct/Declaration.cc:51-53 | the first GEP is an element address |
| CodeGen.Advance | src/ParseStruct/Declaration.cc:64 | stepping a GEP by one moves to the next position at the same level, same base |
| CodeGen.GenVarDecl | src/ParseStruct/Declaration.cc:85-124 | a declaration appends code and warnings, keeps the flag, the chain's depth and the outer tables |
| CodeGen.BindParams | src/ParseStruct/Declaration.cc:179-185 | binding parameters emits exactly two instructions per parameter |
| CodeGen.BindParam | src/ParseStruct/Declaration.cc:181-184 | one parameter: its storage is allocated, its argument stored there, and its name bound unless already bound |
| CodeGen.EraseParams | src/ParseStruct/Declaration.cc:212-215 | every parameter name is removed from the current table; neither code nor warnings change |
| CodeGen.GenStmt | src/ParseStruct/Root.cc:179-182 | a statement appends code and warnings, keeps the flag, the chain's depth and the outer tables |
| CodeGen.GenReturn | src/ParseStruct/Operation.cc:735-753 | a return statement only appends: code and warnings grow, the flag, the depth and the outer tables stay; its errors and the single return emitted are CodeGenFacts.ReturnRules |
| CodeGen.GenScope | src/ParseStruct/Root.cc:148-164 | a scope keeps the chain's depth and the outer tables |
| CodeGen.GenUnsafeStmt | src/ParseStruct/Operation.cc:773-791 | an unsafe statement leaves the flag as it found it |
| CodeGen.GenSeq | src/ParseStruct/Root.cc:104-114 | a statement sequence appends code and warnings, keeps the flag and the outer tables |
| CodeGen.GenFuncDecl | src/ParseStruct/Declaration.cc:171-220 | a function declaration keeps the chain's depth, the outer tables and the flag; the entry, exit and implicit-return rules are CodeGenFacts.FunctionImplicitReturn and the parameter lemmas |
| CodeGen.ImplicitReturn | src/ParseStruct/Declaration.cc:187-208 | a body value that is a return adds nothing; otherwise a void function gets `ret void` and no warning, a non-void one returns the null value with exactly one warning; tables and return type untouched |
| CodeGen.IsReturn | src/ParseStruct/Declaration.cc:190-193 | the body's value is a return instruction, standing for the `dyn_cast<ReturnInst>` succeeding |
| CodeGen.IsVoid | src/ParseStruct/Operation.cc:739 | the function being generated returns `void`, the comparison with `getVoidTy()` of Operation.cc:739, 747 and Declaration.cc:197 |
| CodeGen.PreStmt | src/ParseStruct/Declaration.cc:221-249 | preprocessing emits no code and no warning, keeps the outer tables, and only adds function objects |
| CodeGen.PreSeq | src/ParseStruct/Root.cc:115-121 | preprocessing a sequence emits nothing and only adds function objects |
| CodeGenFacts.FindInnermost | src/ParseStruct/Root.cc:68 | lookup returns the binding of the innermost table that binds the name |
| CodeGenFacts.FindFails | src/ParseStruct/Root.cc:68-73 | lookup fails exactly when no table in the chain binds the name |
| CodeGenFacts.IdentifierLookup | src/ParseStruct/Root.cc:66-76 | an unbound identifier raises "Unbound symbol "x""; a bound one emits a load of its storage |
| CodeGenFacts.AddressOfIdentifier | src/ParseStruct/Operation.cc:513-526 | `&x` of a bound identifier is the storage the load came from, typed as a pointer, with nothing emitted beyond the load |
| CodeGenFacts.AddressOfNonLvalue | src/ParseStruct/Operation.cc:513-526 | `&e` of a non-lvalue raises "Expected lvalue for operand of reference operator" once `e` generates, or `e`'s error |
| CodeGenFacts.CallNeedsFunction | src/ParseStruct/Operation.cc:601-625 | a callee name unbound or bound to anything but a function object raises "Expected callable function expression" |
| CodeGenFacts.ArgsLeftToRight | src/ParseStruct/Operation.cc:615-618 | the arguments are generated left to right: a split list is its first part, then the rest from where that ended |
| CodeGenFacts.CallEmittedLast | src/ParseStruct/Operation.cc:611-620 | a call that generates ends with one call instruction on one value per argument, after the arguments' code, and that instruction is its value |
| CodeGenFacts.CallOfLiterals | src/ParseStruct/Operation.cc:596-626 | `add(1, 2)` with `add` bound to its function emits one call of `add` on 1 then 2 |
| CodeGenFacts.ArithmeticTyped | src/ParseStruct/Operation.cc:394-405 | `+ - * /` on operands of primitive types emits one arithmetic instruction on the two values, typed by the promotion table; a pair the table lacks raises "map::at" and emits nothing |
| CodeGenFacts.ArithmeticAfterOperands | src/ParseStruct/Operation.cc:182-405 | for any operands: the left operand is generated first, then the right one; either failure is the result; then it fails exactly when `type_inf` meets a missing pair, and otherwise appends one arithmetic instruction that is its value, with no warning |
| CodeGenFacts.AssignToVariable | src/ParseStruct/Operation.cc:407-420 | `x = e` with `x` bound: `x` is loaded, `e` generated after the load, and the value of `e` stored into the storage `x` is bound to, for any `e` |
| CodeGenFacts.AssignStoresIntoSlot | src/ParseStruct/Operation.cc:407-420 | `x = 5`: exactly the load of `x`'s storage, then the store of 5 into it |
| CodeGenFacts.ReturnRules | src/ParseStruct/Operation.cc:735-753 | value return in a void function and bare return in a non-void one raise their errors; a bare void return emits `ret void`; on success exactly one return is emitted, last, and it is the value |
| CodeGenFacts.RedundantUnsafe | src/ParseStruct/Operation.cc:685-703 | inside an unsafe region either wrapper adds its "Unnecessary unsafe" warning and runs the inner node with the flag still set |
| CodeGenFacts.OpensUnsafeRegion | src/ParseStruct/Operation.cc:773-791 | outside a region either wrapper runs the inner node with the flag set and clears it afterwards |
| CodeGenFacts.NestedUnsafeWarnsOnce | src/ParseStruct/Operation.cc:773-791 | `unsafe { unsafe s }` warns exactly once and runs `s` in a region |
| CodeGenFacts.UnsafeDeclarationGating | src/ParseStruct/Declaration.cc:85-124 | a pointer declaration outside `unsafe` raises "Unsafe declaration outside of unsafe statement"; inside it allocates, binds, warns nothing and clears the flag after |
| CodeGenFacts.ScopeRestoresChain | src/ParseStruct/Root.cc:148-164 | after a scope the symbol table chain is exactly the one before |
| CodeGenFacts.ScopeRunsInFreshTable | src/ParseStruct/Root.cc:148-164 | a scope's statements run against a new empty table whose parent is the old chain |
| CodeGenFacts.BlockInOrder | src/ParseStruct/Root.cc:104-114 | a block generates its statements in order and its value is the last one's |
| CodeGenFacts.EmptyBlock | src/ParseStruct/Root.cc:104-114 | an empty block changes nothing and has no value |
| CodeGenFacts.PreprocessInOrder | src/ParseStruct/Root.cc:115-121 | preprocessing visits a block's statements in order, and a scope exactly like a block |
| CodeGenFacts.UnsafeDeclarationFirst | src/ParseStruct/Declaration.cc:87-90 | an unsafe type outside a region is refused before anything else, whatever its initialiser |
| CodeGenFacts.ReferenceDeclaration | src/ParseStruct/Declaration.cc:95-106 | a reference without initialiser raises its error; with one only its storage is allocated, the initialiser is not generated and the name is not bound |
| CodeGenFacts.RedeclarationKeepsFirst | src/ParseStruct/Declaration.cc:122 | redeclaring a name of the current table leaves the chain unchanged |
| CodeGenFacts.DeclarationBinds | src/ParseStruct/Declaration.cc:92-123 | a new name is bound in the current table to the storage allocated first, and that storage is the declaration's value |
| CodeGenFacts.StoreLeavesAppend | src/ParseStruct/Declaration.cc:55-83 | storing the leaves of a concatenation stores the first part, then, unless that failed, the second |
| CodeGenFacts.StoreLeaves | src/ParseStruct/Declaration.cc:47-84 | the flat reference for filling an array: each leaf in source order is generated and stored at its element; the first error ends it |
| CodeGenFacts.HelperStoresLeaves | src/ParseStruct/Declaration.cc:47-84 | on any list whose nested lists are non-empty, `array_helper` does exactly what storing every leaf in source order into its element slot does, whatever expressions the leaves are, and fails with the first failing leaf |
| CodeGenFacts.ElementsStoreLeaves | src/ParseStruct/Declaration.cc:55-83 | the element loop from position k stores the leaves of the remaining elements into slots k, k+1, ... in order |
| CodeGenFacts.ElementStores | src/ParseStruct/Declaration.cc:58-83 | one element: a nested list fills the slots under its position, any other expression is generated and stored at it |
| CodeGenFacts.ArrayDeclarationLayout | src/ParseStruct/Declaration.cc:85-124 | a declaration initialised by any well-formed list allocates its storage, stores every leaf in order into its element, and binds its name to the storage; a failing leaf is the declaration's error |
| CodeGenFacts.LiteralLeavesStored | src/ParseStruct/Declaration.cc:68-82 | leaves that are integer literals are stored with one store each, and nothing else is emitted |
| CodeGenFacts.FlatListSlots | src/ParseStruct/Declaration.cc:55-83 | a list without nested lists puts element i at position k+i: consecutive slots in source order |
| CodeGenFacts.NestedListSlots | src/ParseStruct/Declaration.cc:47-84 | `{1, {2, 3}, 4}` has its leaves at slots [0], [1,0], [1,1] and [2] |
| CodeGenFacts.ParametersUnboundAfter | src/ParseStruct/Declaration.cc:212-215 | after a function declaration no parameter name is bound in the current table |
| CodeGenFacts.ParameterErasesOuterBinding | src/ParseStruct/Declaration.cc:184-214 | a parameter named like an existing binding is not bound on entry, yet that outer binding is erased on exit |
| CodeGenFacts.ParametersBound | src/ParseStruct/Declaration.cc:179-185 | with distinct, unbound names, parameter i gets storage at instruction 2i, its argument stored right after, and its name bound to it |
| CodeGenFacts.ParameterBound | src/ParseStruct/Declaration.cc:179-185 | the same fact for one parameter |
| CodeGenFacts.BindKeeps | src/ParseStruct/Declaration.cc:184 | binding parameters keeps the binding of any name no parameter has |
| CodeGenFacts.TailStillFree | src/ParseStruct/Declaration.cc:179-185 | with distinct parameter names, binding the first leaves the others unbound in the current table |
| CodeGenFacts.CodeKept | src/ParseStruct/Declaration.cc:179-185 | binding parameters keeps every instruction emitted before |
| CodeGenFacts.VoidFunctionImplicitReturn | src/ParseStruct/Declaration.cc:195-207 | a void function with an empty body gets `ret void` and no warning |
| CodeGenFacts.NonVoidFunctionImplicitReturn | src/ParseStruct/Declaration.cc:195-202 | a non-void function with an empty body returns the null value, with exactly one warning |
| CodeGenFacts.ExplicitReturnKept | src/ParseStruct/Declaration.cc:187-195 | a body ending in a return gets no implicit return and no warning |
| CodeGenFacts.FunctionImplicitReturn | src/ParseStruct/Declaration.cc:171-220 | for any function whose body generates: a body value that is a return gets nothing more; otherwise a void function gets `ret void` with the body's warnings, a non-void one `ret null` plus exactly one warning; parameter names are erased and nothing else changes |
| CodeGenFacts.PreprocessFunction | src/ParseStruct/Declaration.cc:221-249 | the body is preprocessed first, then the function object is created after the body's, with its parameters in order, and its name registered first-binding-wins |
| CodeGenFacts.PreprocessSiblings | src/ParseStruct/Root.cc:115-121 | two sibling functions create their objects in source order |
| CodeGenFacts.PreprocessBareReturn | src/ParseStruct/Operation.cc:754-757 | a return statement without an expression cannot be preprocessed |
| Generator.CodeGenerator.constructor | src/ParseStruct/Root.cc:148-152 | the generator starts in the given state |
| Generator.CodeGenerator.Emit | src/ParseStruct/Declaration.cc:92 | the instruction is appended and its handle is its position |
| Generator.CodeGenerator.Warn | src/ParseStruct/Operation.cc:691 | the warning is appended |
| Generator.CodeGenerator.Lookup | src/ParseStruct/Root.cc:68 | the loop from the innermost table outwards returns the binding CodeGen.Find specifies |
| Generator.CodeGenerator.Insert | src/ParseStruct/Declaration.cc:122 | the state afterwards is CodeGen.Insert of the state before |
| Generator.CodeGenerator.Erase | src/ParseStruct/Declaration.cc:214 | the state afterwards is CodeGen.Erase of the state before |
| Generator.CodeGenerator.GenExpr | src/ParseStruct/Root.cc:66-76 | value or error, and state, are those of CodeGen.GenExpr |
| Generator.CodeGenerator.GenBinaryOperation | src/ParseStruct/Operation.cc:182-427 | value or error, and state, are those of CodeGen.GenExpr on the binary node, so the operands come left then right, `+ - * /` emit one arithmetic instruction typed by the promotion table or fail with "map::at", and `=` stores into the storage the left operand was loaded from (CodeGenFacts.ArithmeticAfterOperands, ArithmeticTyped, AssignToVariable) |
| Generator.CodeGenerator.Binary | src/ParseStruct/Operation.cc:392-426 | the operator step agrees with CodeGen.GenBinary: for primitive operand types one arithmetic instruction typed by the promotion table, or "map::at" where the table has no entry (CodeGenFacts.ArithmeticTyped); `=` a store through the loaded-from address |
| Generator.CodeGenerator.Unary | src/ParseStruct/Operation.cc:496-532 | the operator step agrees with CodeGen.GenUnary |
| Generator.CodeGenerator.GenCall | src/ParseStruct/Operation.cc:596-626 | the argument loop and the call agree with CodeGen.GenExpr |
| Generator.CodeGenerator.GenUnsafeExpr | src/ParseStruct/Operation.cc:685-703 | agrees with CodeGen.GenExpr on the unsafe expression |
| Generator.CodeGenerator.StoreAt | src/ParseStruct/Declaration.cc:68 | the error or state is that of CodeGen.StoreValue |
| Generator.CodeGenerator.ArrayHelper | src/ParseStruct/Declaration.cc:47-84 | the element loop reaches the error or state of CodeGen.ArrayHelper |
| Generator.CodeGenerator.ArrayElement | src/ParseStruct/Declaration.cc:58-70 | one element reaches the error or state of CodeGen.ArrayHelper or CodeGen.StoreValue |
| Generator.CodeGenerator.GenVarDecl | src/ParseStruct/Declaration.cc:85-124 | agrees with CodeGen.GenVarDecl |
| Generator.CodeGenerator.GenStmt | src/ParseStruct/Root.cc:179-182 | agrees with CodeGen.GenStmt |
| Generator.CodeGenerator.GenSeq | src/ParseStruct/Root.cc:104-114 | the statement loop agrees with CodeGen.GenSeq |
| Generator.CodeGenerator.GenScope | src/ParseStruct/Root.cc:148-164 | agrees with CodeGen.GenStmt on the scope |
| Generator.CodeGenerator.GenUnsafeStmt | src/ParseStruct/Operation.cc:773-791 | agrees with CodeGen.GenStmt on the unsafe statement |
| Generator.CodeGenerator.GenReturn | src/ParseStruct/Operation.cc:735-753 | agrees with CodeGen.GenStmt on the return statement |
| Generator.CodeGenerator.GenFuncDecl | src/ParseStruct/Declaration.cc:171-220 | agrees with CodeGen.GenStmt on the function declaration |
| Generator.CodeGenerator.BindParams | src/ParseStruct/Declaration.cc:179-185 | the parameter loop reaches CodeGen.BindParams of the state before |
| Generator.CodeGenerator.EraseParams | src/ParseStruct/Declaration.cc:212-215 | the erase loop reaches CodeGen.EraseParams of the state before |
| Generator.CodeGenerator.ImplicitReturn | src/ParseStruct/Declaration.cc:190-208 | reaches CodeGen.ImplicitReturn of the state before |
| Generator.CodeGenerator.PreStmt | src/ParseStruct/Declaration.cc:221-249 | reaches the error or state of CodeGen.PreStmt |
| Generator.CodeGenerator.PreSeq | src/ParseStruct/Root.cc:115-121 | the preprocessing loop reaches the error or state of CodeGen.PreSeq |
| Tree.NatString | src/ParseStruct/Operation.cc:104-107 | the decimal text of a number is non-empty and all digits |
| Tree.NatStringRoundTrip | src/ParseStruct/Operation.cc:104-107 | reading back the decimal text of a natural number gives that number |
| Tree.IntStringRoundTrip | src/ParseStruct/Operation.cc:104-107 | reading back the text of a possibly negative Integer32 gives its value |
| Tree.IntString | src/ParseStruct/Operation.cc:104-107 | `std::to_string` of a 32-bit value: a minus sign before the digits of a negative one; Tree.IntStringRoundTrip reads it back |
| Tree.BlockTree | src/ParseStruct/Root.cc:91-147 | the accumulating loop of the Block and Scope dumps produces Tree.StmtTree of the node |
| Tree.Lines | src/ParseStruct/Operation.cc:587-592 | the line loop produces Tree.ExprLines |
| Tree.CallTree | src/ParseStruct/Operation.cc:580-595 | the call dump produces Tree.ExprTree of the call |
| Tree.ArrayInitListTree | src/ParseStruct/Operation.cc:645-658 | the list dump produces Tree.ExprTree of the list |
| Tree.Parameters | src/ParseStruct/Declaration.cc:150-166 | the parameter loop produces Tree.ParamLines |
| Tree.FunctionTree | src/ParseStruct/Declaration.cc:144-170 | the function dump produces Tree.StmtTree of the declaration |
| Tree.StmtLinesAppend | src/ParseStruct/Root.cc:95-98 | the statement lines of a concatenation are the concatenated lines |
| Tree.DeclarationExpressionLine | src/ParseStruct/Declaration.cc:33-46 | a declaration dump ends with "expression: empty" without initialiser, or with the initialiser's tree two levels deeper |
| Tree.BareReturnTree | src/ParseStruct/Operation.cc:721-734 | a bare return prints its header and "empty" one level deeper |
| Tree.ExprTree | src/ParseStruct/Operation.cc:104-684 | the `tree_gen` of every expression kind, each child at depth+2 under its label |
| Tree.VarDeclTree | src/ParseStruct/Declaration.cc:33-46 | the `tree_gen` of a declaration: type, identifier, then the initialiser or "expression: empty" |
| Tree.StmtTree | src/ParseStruct/Root.cc:91-147 | the `tree_gen` of every statement kind; the Block dump is Block Start, each statement at depth+1 on its own line, then Block End at the original depth |
| Tree.ParameterLine | src/ParseStruct/Declaration.cc:151-167 | a function without parameters prints "parameter: empty" just before its body; one with parameters prints "parameter:" and each parameter two levels deeper, one per line |

## Left out

- The LLVM backend itself: types, alignment (`setAlignment`), the function pass manager, name uniquing and constant folding by the IR builder are not modelled; instructions are recorded as an abstract list and a GEP is an element address.
- `Type.cc` (type nodes' `get_type`, `is_const`, `tree_gen`, `is_safe` overrides beyond pointer / reference) is not part of this model; `Type::tree_gen` is a parameter of the tree dump and the `is_const` check of assignment is not modelled.
- The null-type dereference in assignment (`lhs_value.type()` of an untyped value) is not modelled: an untyped left-hand side is treated as assignable.
- `std::find` over the promotion map in `type_inf` does not compile as written (it compares map entries with a string); the model reads it as key lookup, and a missing pair fails like `map::at` throwing.
- `Any` and the eval helpers are a parameter `Arith` of `Evaluate`; 32-bit overflow of the folded arithmetic is left to that parameter.
- `std::stoi` overflow on huge literals is not modelled: a literal's value is its unbounded digit value.
- The parser requires a final end-of-input token: the source reads past the cursor with no end check, so token sequences without that sentinel are outside the model.
- Grammar.ArgLoop: the argument loop of `func_call` never accepts `,`, and an iteration that makes no progress repeats forever in the source; the model fails that iteration instead, so non-terminating parses are not captured.
- Start tokens of nodes (`assign_token`, the `Token*` out-parameters) are not modelled; only diagnostics carry a token.
- `tree_prefix`, `token_map` and `Type::tree_gen` come from files outside the model and are parameters (`Printer`); `token_map.at` throwing on an unmapped kind is not modelled.
- `current_func` of `FunctionDeclaration::code_gen` is marked dummy in the source and never read; it is left out.
- The `String` and `Character` nodes (`Operation.cc:128-154`) are not produced by the parser and are left out.
- `array_helper` on an empty initialiser list underflows `size() - 1` in the source (undefined behaviour); the model reports it as an error.
- `ReturnStatement::preprocess` on a bare return dereferences a null expression; the model reports it as an error.
- A thrown error does not restore the unsafe flag or the symbol table in the source; since compilation stops there, the model's errors carry no state.
- `FunctionDeclaration::preprocess`'s parameter type list and `setName` loop are summarised by recording a `FunctionSig` with the parameters in order.
- CodeGen.GenExpr, CodeGen.GenStmt and the other CodeGen functions: their own contracts state only what a step may change; the language rules are the CodeGenFacts lemmas about them.
- CodeGen.GenBinary: the `default` branch ("TODO" for an operator the parser never builds here) is in its body and not stated by a lemma; the `is_const` refusal of assignment is not modelled (see the `Type.cc` line above).
- Grammar.PVarDecl: its contract names the kinds of statement it can build and that the cursor advances; which statement each form yields and each of its errors are stated by GrammarFacts.TypedStatement, UntypedStatement, the Declaration*, Function* and Return* lemmas and ExpressionStatementForm / ExpressionStatementMissingSemicolon.
- Grammar.DeclAfterType: its contract states the missing-name error and what a success declares; the forms after the name are DeclAfterName's contract.
- Grammar.PFuncDecl: its contract states the shape of a success; the parameters in order and the body are GrammarFacts.FunctionParts, a failing body GrammarFacts.FunctionBodyRejected.
- Grammar.ParamLoop: its contract states what a success adds; the entries it reads and its two errors are GrammarFacts.NamedParameterAppended, ParameterListCloses, UnnamedLastParameterDropped, VoidParameterRejected and ParameterRejected.
- Grammar.PReturnStmt: its contract states the kind of a success; the returned expression and the errors are GrammarFacts.ReturnStmtWithValue and ReturnStmtWithoutValue.
- Grammar.PTerminatedExpr: its contract states where a success ends and that a failure records something; the exact result is GrammarFacts.TerminatedExpression.
- Grammar.PExprStmt: its contract states the kind of a success; the statement and the missing-`;` error are GrammarFacts.ExpressionStatementForm and ExpressionStatementMissingSemicolon.
- CodeGen.GenCall: a callee name with no binding is modelled as the "Expected callable function expression" error; in the source `symbol_table->find` returns null there and `dyn_cast` of a null pointer is undefined behaviour (`Operation.cc:603`), so the model gives that case the outcome of a non-function binding.
- CodeGenFacts.HelperStoresLeaves: stated for lists whose nested lists are all non-empty (`WellFormedList`); an empty nested list makes `elements.size() - 1` underflow in `array_helper`, which the model reports as an error instead.
