/**
 * Consequences of the grammar on concrete token sequences, showing the
 * parser's behaviour as written: left-associative `+`/`-`, initialisers that
 * are not calls rejected, unnamed parameters dropped.
 */
module GrammarFacts {
  import opened Wrappers
  import opened Tokens
  import opened Ast
  import opened Grammar

  /**
   * The spellings `simple_type` accepts: `int`, `signed`, `signed int` give
   * signed int; `unsigned`, `unsigned int` give unsigned int; `void` gives
   * void; `char`, `short`, `long`, alone or after a sign, are consumed and
   * fail without a diagnostic; any other token fails without moving.
   */
  lemma SimpleTypeSpellings(ts: seq<Token>, st: PState)
    requires Valid(ts, st)
    ensures var r := PSimpleType(ts, st); var c := st.cursor; var k := ts[c].kind;
      (k == Int ==> r == Reply(Some(SimpleType("int", false)), st.(cursor := c + 1))) &&
      (k == Void ==> r == Reply(Some(SimpleType("void", false)), st.(cursor := c + 1))) &&
      (k == Char || k == Short || k == Long ==> r == Reply(None, st.(cursor := c + 1))) &&
      (k == Unsigned || k == Signed ==>
        var after := ts[c + 1].kind;
        var ty := SimpleType("int", k == Unsigned);
        (after == Int ==> r == Reply(Some(ty), st.(cursor := c + 2))) &&
        (after == Char || after == Short || after == Long ==> r == Reply(None, st.(cursor := c + 2))) &&
        (after != Char && after != Short && after != Int && after != Long ==> r == Reply(Some(ty), st.(cursor := c + 1)))) &&
      (k != Unsigned && k != Signed && k != Char && k != Short && k != Int && k != Long && k != Void ==> r == Reply(None, st))
  {
  }

  /** The node of a call `name ( )` with no arguments. */
  function Call(name: string): Expr { FunctionCallOperation(Identifier(name), []) }

  /** No expression starts at a token that is neither a literal nor a name: the atom fails there without a diagnostic. */
  lemma NoExpression(ts: seq<Token>, st: PState)
    requires Valid(ts, st) && ts[st.cursor].kind != DecInteger && ts[st.cursor].kind != Ident
    ensures PAssign(ts, st) == Reply(None, st)
  {
    assert PAtom(ts, st) == Reply(None, st);
    assert PFuncCall(ts, st) == Reply(None, st);
    assert PMulDiv(ts, st) == Reply(None, st);
    assert PAddSub(ts, st) == Reply(None, st);
  }

  /** `name ( )` parses as a call with no arguments and moves the cursor past it. */
  lemma EmptyCall(ts: seq<Token>, st: PState)
    requires Valid(ts, st) && st.cursor + 2 < |ts|
    requires ts[st.cursor].kind == Ident && ts[st.cursor + 1].kind == LParen && ts[st.cursor + 2].kind == RParen
    ensures PFuncCall(ts, st) ==
      Reply(Some(Call(ts[st.cursor].data)), st.(cursor := st.cursor + 3))
  {
    var inner := st.(cursor := st.cursor + 2);
    NoExpression(ts, inner);
    assert ArgLoop(ts, inner, Identifier(ts[st.cursor].data), []) ==
      Reply(Some(Call(ts[st.cursor].data)), st.(cursor := st.cursor + 3));
  }

  /** A call `name ( )` followed by a token that is neither `*` nor `/` is a whole `muldiv`. */
  lemma CallOperand(ts: seq<Token>, st: PState)
    requires Valid(ts, st) && st.cursor + 3 < |ts|
    requires ts[st.cursor].kind == Ident && ts[st.cursor + 1].kind == LParen && ts[st.cursor + 2].kind == RParen
    requires !IsMulOp(ts[st.cursor + 3].kind)
    ensures PMulDiv(ts, st) ==
      Reply(Some(Call(ts[st.cursor].data)), st.(cursor := st.cursor + 3))
  {
    EmptyCall(ts, st);
  }

  /**
   * One step of the `addsub` loop: after `+` or `-` and a right operand, the
   * loop goes on with the node joining the accumulated left side and that
   * operand, which is what makes the grouping left-associative.
   */
  lemma AddSubLoopStep(ts: seq<Token>, st: PState, lhs: Expr)
    requires Valid(ts, st) && IsAddOp(ts[st.cursor].kind)
    requires PMulDiv(ts, st.(cursor := st.cursor + 1)).node.Some?
    ensures var rhs := PMulDiv(ts, st.(cursor := st.cursor + 1));
      AddSubLoop(ts, st, lhs) == AddSubLoop(ts, rhs.st, BinaryOperation(ts[st.cursor].kind, lhs, rhs.node.value))
  {
  }

  /** The `addsub` loop over `op1 b op2 c` after a left side `a`. */
  lemma AddSubTwoSteps(ts: seq<Token>, s1: PState, a: Expr, b: Expr, s2: PState, c: Expr, s3: PState)
    requires Valid(ts, s1) && Valid(ts, s2) && Valid(ts, s3)
    requires IsAddOp(ts[s1.cursor].kind) && PMulDiv(ts, s1.(cursor := s1.cursor + 1)) == Reply(Some(b), s2)
    requires IsAddOp(ts[s2.cursor].kind) && PMulDiv(ts, s2.(cursor := s2.cursor + 1)) == Reply(Some(c), s3)
    requires !IsAddOp(ts[s3.cursor].kind)
    ensures AddSubLoop(ts, s1, a) ==
      Reply(Some(BinaryOperation(ts[s2.cursor].kind, BinaryOperation(ts[s1.cursor].kind, a, b), c)), s3)
  {
    var ab := BinaryOperation(ts[s1.cursor].kind, a, b);
    AddSubLoopStep(ts, s1, a);
    AddSubLoopStep(ts, s2, ab);
  }

  /**
   * `a op1 b op2 c`, for any three `muldiv` operands and any choice of
   * `+`/`-` in the two operator positions, groups as `(a op1 b) op2 c`.
   */
  lemma AddSubLeftFold(ts: seq<Token>, st: PState, a: Expr, s1: PState, b: Expr, s2: PState, c: Expr, s3: PState)
    requires Valid(ts, st) && PMulDiv(ts, st) == Reply(Some(a), s1)
    requires IsAddOp(ts[s1.cursor].kind) && PMulDiv(ts, s1.(cursor := s1.cursor + 1)) == Reply(Some(b), s2)
    requires IsAddOp(ts[s2.cursor].kind) && PMulDiv(ts, s2.(cursor := s2.cursor + 1)) == Reply(Some(c), s3)
    requires !IsAddOp(ts[s3.cursor].kind)
    ensures PAddSub(ts, st) ==
      Reply(Some(BinaryOperation(ts[s2.cursor].kind, BinaryOperation(ts[s1.cursor].kind, a, b), c)), s3)
  {
    AddSubTwoSteps(ts, s1, a, b, s2, c, s3);
  }

  /** With three calls `x ( ) + y ( ) - z ( )` as the operands. */
  lemma AddSubCalls(ts: seq<Token>, st: PState)
    requires Valid(ts, st)
    requires var c := st.cursor;
      c + 11 < |ts| &&
      ts[c].kind == Ident && ts[c + 1].kind == LParen && ts[c + 2].kind == RParen && ts[c + 3].kind == Operator(Plus) &&
      ts[c + 4].kind == Ident && ts[c + 5].kind == LParen && ts[c + 6].kind == RParen && ts[c + 7].kind == Operator(Minus) &&
      ts[c + 8].kind == Ident && ts[c + 9].kind == LParen && ts[c + 10].kind == RParen && ts[c + 11].kind == Semicolon
    ensures var c := st.cursor;
      PAddSub(ts, st) ==
        Reply(Some(BinaryOperation(Operator(Minus),
                     BinaryOperation(Operator(Plus), Call(ts[c].data), Call(ts[c + 4].data)),
                     Call(ts[c + 8].data))),
              st.(cursor := c + 11))
  {
    var c := st.cursor;
    CallOperand(ts, st);
    CallOperand(ts, st.(cursor := c + 4));
    CallOperand(ts, st.(cursor := c + 8));
    AddSubLeftFold(ts, st, Call(ts[c].data), st.(cursor := c + 3), Call(ts[c + 4].data), st.(cursor := c + 7),
      Call(ts[c + 8].data), st.(cursor := c + 11));
  }

  /** The `addsub` loop ends at the first token that is neither `+` nor `-`. */
  lemma AddSubStops(ts: seq<Token>, st: PState, lhs: Expr)
    requires Valid(ts, st) && !IsAddOp(ts[st.cursor].kind)
    ensures AddSubLoop(ts, st, lhs) == Reply(Some(lhs), st)
  {
  }

  /**
   * `int x = 1 ;`: the initialiser goes through `func_call`, which rejects
   * the literal, so the declaration fails with two diagnostics, both naming
   * the `;`.
   */
  lemma LiteralInitialiserRejected(ts: seq<Token>, st: PState)
    requires Valid(ts, st)
    requires var c := st.cursor;
      c + 4 < |ts| && ts[c].kind == Int && ts[c + 1].kind == Ident && ts[c + 2].kind == Operator(Assign) &&
      ts[c + 3].kind == DecInteger && ts[c + 4].kind == Semicolon
    ensures var semi := ts[st.cursor + 4];
      PVarDecl(ts, st) ==
        Reply(None, PState(st.cursor + 4, st.errors + [Diagnostic(semi, Todo), Diagnostic(semi, ButGot(ExpectedExpression, semi))]))
  {
    var c := st.cursor;
    var semi := ts[c + 4];
    var failed := PState(c + 4, st.errors + [Diagnostic(semi, Todo), Diagnostic(semi, ButGot(ExpectedExpression, semi))]);
    assert PSimpleType(ts, st) == Reply(Some(IntType), st.(cursor := c + 1)) by {
      SimpleTypeSpellings(ts, st);
    }
    assert DeclAfterName(ts, st.(cursor := c + 2), IntType, ts[c + 1].data) == Reply(None, failed) by {
      LiteralOperandRejected(ts, st.(cursor := c + 3));
    }
  }

  /** An expression starting with a literal is rejected by `func_call`: one Todo diagnostic, cursor past the literal. */
  lemma LiteralOperandRejected(ts: seq<Token>, st: PState)
    requires Valid(ts, st) && ts[st.cursor].kind == DecInteger
    ensures PAssign(ts, st) == Reply(None, AddError(ts, st.(cursor := st.cursor + 1), Todo))
  {
    var failed := AddError(ts, st.(cursor := st.cursor + 1), Todo);
    assert PFuncCall(ts, st) == Reply(None, failed);
    assert PMulDiv(ts, st) == Reply(None, failed);
    assert PAddSub(ts, st) == Reply(None, failed);
  }

  /**
   * `f ( 1 )`: the literal argument is rejected by `func_call`, after which
   * the `)` closes the call, which succeeds with no arguments and one
   * diagnostic naming the `)`.
   */
  lemma LiteralArgumentDropped(ts: seq<Token>, st: PState)
    requires Valid(ts, st)
    requires var c := st.cursor;
      c + 3 < |ts| && ts[c].kind == Ident && ts[c + 1].kind == LParen &&
      ts[c + 2].kind == DecInteger && ts[c + 3].kind == RParen
    ensures PFuncCall(ts, st) ==
      Reply(Some(Call(ts[st.cursor].data)),
            PState(st.cursor + 4, st.errors + [Diagnostic(ts[st.cursor + 3], Todo)]))
  {
    var c := st.cursor;
    var at := st.(cursor := c + 2);
    var failed := AddError(ts, at.(cursor := c + 3), Todo);
    LiteralOperandRejected(ts, at);
    assert ArgLoop(ts, at, Identifier(ts[c].data), []) ==
      Reply(Some(Call(ts[c].data)), failed.(cursor := c + 4));
  }

  /** An argument followed by `)` closes the call: the callee with the arguments read so far and this one, in order. */
  lemma LastArgumentRead(ts: seq<Token>, st: PState, callee: Expr, args: seq<Expr>, e: Expr, s1: PState)
    requires Valid(ts, st) && PAssign(ts, st) == Reply(Some(e), s1) && ts[s1.cursor].kind == RParen
    ensures ArgLoop(ts, st, callee, args) == Reply(Some(FunctionCallOperation(callee, args + [e])), s1.(cursor := s1.cursor + 1))
  {
  }

  /** An argument followed by anything but `)` is appended and the loop goes on right after it. */
  lemma ArgumentAppended(ts: seq<Token>, st: PState, callee: Expr, args: seq<Expr>, e: Expr, s1: PState)
    requires Valid(ts, st) && PAssign(ts, st) == Reply(Some(e), s1) && ts[s1.cursor].kind != RParen
    ensures Valid(ts, s1)
    ensures ArgLoop(ts, st, callee, args) == ArgLoop(ts, s1, callee, args + [e])
  {
  }

  /** `( int )`: a parameter type followed by neither a name nor a comma is dropped from the list. */
  lemma UnnamedLastParameterDropped(ts: seq<Token>, st: PState, params: seq<VarDecl>)
    requires Valid(ts, st)
    requires st.cursor + 1 < |ts| && ts[st.cursor].kind == Int && ts[st.cursor + 1].kind == RParen
    ensures ParamLoop(ts, st, params) == Reply(Some(params), st.(cursor := st.cursor + 2))
  {
    var next := st.(cursor := st.cursor + 1);
    assert PSimpleType(ts, st) == Reply(Some(IntType), next) by {
      SimpleTypeSpellings(ts, st);
    }
    assert ParamLoop(ts, next, params) == Reply(Some(params), st.(cursor := st.cursor + 2)) by {
      SimpleTypeSpellings(ts, next);
    }
  }

  /** `void` followed by anything but `)` in a parameter list: the placeholder "TODO" diagnostic, at that token. */
  lemma VoidParameterRejected(ts: seq<Token>, st: PState, params: seq<VarDecl>)
    requires Valid(ts, st) && st.cursor + 1 < |ts|
    requires ts[st.cursor].kind == Void && ts[st.cursor + 1].kind != RParen
    ensures ParamLoop(ts, st, params) == Reply(None, AddError(ts, st.(cursor := st.cursor + 1), Todo))
  {
    SimpleTypeSpellings(ts, st);
  }

  /** A parameter list entry that starts with neither a type keyword nor `)`: one "Unexpected" diagnostic about it. */
  lemma ParameterRejected(ts: seq<Token>, st: PState, params: seq<VarDecl>)
    requires Valid(ts, st)
    requires var k := ts[st.cursor].kind;
      k != Unsigned && k != Signed && k != Char && k != Short && k != Int && k != Long && k != Void && k != RParen
    ensures ParamLoop(ts, st, params) == Reply(None, AddError(ts, st, Unexpected(ts[st.cursor])))
  {
    SimpleTypeSpellings(ts, st);
  }

  // ---------------------------------------------------------------------------
  // Statements
  // ---------------------------------------------------------------------------

  /** `var_decl` after a type: the rest is read by the declaration productions. */
  lemma {:induction false} TypedStatement(ts: seq<Token>, st: PState, ty: TypeNode, s1: PState)
    requires Valid(ts, st) && PSimpleType(ts, st) == Reply(Some(ty), s1)
    ensures PVarDecl(ts, st) == DeclAfterType(ts, s1, ty)
  {
  }

  /** `var_decl` where no type starts: the statement is a `return_stmt` from where `simple_type` stopped. */
  lemma {:induction false} UntypedStatement(ts: seq<Token>, st: PState, s1: PState)
    requires Valid(ts, st) && PSimpleType(ts, st) == Reply(None, s1)
    ensures PVarDecl(ts, st) == PReturnStmt(ts, s1)
  {
  }

  /** The name after the type is read and the declaration goes on after it. */
  lemma {:induction false} NameRead(ts: seq<Token>, s1: PState, ty: TypeNode)
    requires Valid(ts, s1) && ts[s1.cursor].kind == Ident
    ensures DeclAfterType(ts, s1, ty) == DeclAfterName(ts, s1.(cursor := s1.cursor + 1), ty, ts[s1.cursor].data)
  {
    assert Accept(ts, s1, Ident) == Step(Some(ts[s1.cursor]), s1.(cursor := s1.cursor + 1));
  }

  /** An expression followed by `;`: the expression, with the cursor past the `;`. */
  lemma {:induction false} TerminatedExpression(ts: seq<Token>, st: PState, e: Expr, s1: PState)
    requires Valid(ts, st) && PAssign(ts, st) == Reply(Some(e), s1) && ts[s1.cursor].kind == Semicolon
    ensures PTerminatedExpr(ts, st) == Reply(Some(e), s1.(cursor := s1.cursor + 1))
  {
  }

  /** `x = e ;` after the type. */
  lemma {:induction false} InitialisedAfterName(ts: seq<Token>, at: PState, ty: TypeNode, name: string, e: Expr, s2: PState)
    requires Valid(ts, at) && ts[at.cursor].kind == Operator(Assign)
    requires PAssign(ts, at.(cursor := at.cursor + 1)) == Reply(Some(e), s2) && ts[s2.cursor].kind == Semicolon
    ensures DeclAfterName(ts, at, ty, name) ==
      Reply(Some(VariableDeclaration(VarDecl(ty, name, Some(e)))), s2.(cursor := s2.cursor + 1))
  {
    var next := at.(cursor := at.cursor + 1);
    TerminatedExpression(ts, next, e, s2);
    var r := PTerminatedExpr(ts, next);
    assert r.node == Some(e) && r.st == s2.(cursor := s2.cursor + 1);
  }

  /** The parameter list and the body `scope` of a function, once `(` is read. */
  lemma {:induction false} FunctionParts(ts: seq<Token>, st: PState, ty: TypeNode, name: string,
                      ps: seq<VarDecl>, s2: PState, body: Stmt, s3: PState)
    requires Valid(ts, st) && ParamLoop(ts, st, []) == Reply(Some(ps), s2)
    requires PScope(ts, s2) == Reply(Some(body), s3)
    ensures PFuncDecl(ts, st, ty, name) == Reply(Some(FunctionDeclaration(ty, name, ps, body)), s3)
  {
  }

  /** `x (` after the type starts a function declaration. */
  lemma {:induction false} FunctionAfterName(ts: seq<Token>, at: PState, ty: TypeNode, name: string)
    requires Valid(ts, at) && ts[at.cursor].kind == LParen
    ensures DeclAfterName(ts, at, ty, name) == PFuncDecl(ts, at.(cursor := at.cursor + 1), ty, name)
  {
  }

  /** `T x ;`: for any type `T` that `simple_type` reads, a declaration without initialiser. */
  lemma {:induction false} DeclarationWithoutInitialiser(ts: seq<Token>, st: PState, ty: TypeNode, s1: PState)
    requires Valid(ts, st) && PSimpleType(ts, st) == Reply(Some(ty), s1)
    requires s1.cursor + 1 < |ts| && ts[s1.cursor].kind == Ident && ts[s1.cursor + 1].kind == Semicolon
    ensures PVarDecl(ts, st) ==
      Reply(Some(VariableDeclaration(VarDecl(ty, ts[s1.cursor].data, None))), s1.(cursor := s1.cursor + 2))
  {
    TypedStatement(ts, st, ty, s1);
    UninitialisedAfterType(ts, s1, ty);
  }

  /** `x ;` after the type. */
  lemma {:induction false} UninitialisedAfterType(ts: seq<Token>, s1: PState, ty: TypeNode)
    requires Valid(ts, s1) && s1.cursor + 1 < |ts| && ts[s1.cursor].kind == Ident && ts[s1.cursor + 1].kind == Semicolon
    ensures DeclAfterType(ts, s1, ty) ==
      Reply(Some(VariableDeclaration(VarDecl(ty, ts[s1.cursor].data, None))), s1.(cursor := s1.cursor + 2))
  {
    var at := s1.(cursor := s1.cursor + 1);
    assert at.(cursor := at.cursor + 1) == s1.(cursor := s1.cursor + 2);
    NameRead(ts, s1, ty);
  }

  /** `T x = e ;`: the initialiser is the whole `assign` expression, and the cursor ends past the `;`. */
  lemma {:induction false} DeclarationWithInitialiser(ts: seq<Token>, st: PState, ty: TypeNode, s1: PState, e: Expr, s2: PState)
    requires Valid(ts, st) && PSimpleType(ts, st) == Reply(Some(ty), s1)
    requires s1.cursor + 2 < |ts| && ts[s1.cursor].kind == Ident && ts[s1.cursor + 1].kind == Operator(Assign)
    requires PAssign(ts, s1.(cursor := s1.cursor + 2)) == Reply(Some(e), s2) && ts[s2.cursor].kind == Semicolon
    ensures PVarDecl(ts, st) ==
      Reply(Some(VariableDeclaration(VarDecl(ty, ts[s1.cursor].data, Some(e)))), s2.(cursor := s2.cursor + 1))
  {
    TypedStatement(ts, st, ty, s1);
    InitialisedAfterType(ts, s1, ty, e, s2);
  }

  /** `x = e ;` after the type. */
  lemma {:induction false} InitialisedAfterType(ts: seq<Token>, s1: PState, ty: TypeNode, e: Expr, s2: PState)
    requires Valid(ts, s1) && s1.cursor + 2 < |ts| && ts[s1.cursor].kind == Ident && ts[s1.cursor + 1].kind == Operator(Assign)
    requires PAssign(ts, s1.(cursor := s1.cursor + 2)) == Reply(Some(e), s2) && ts[s2.cursor].kind == Semicolon
    ensures DeclAfterType(ts, s1, ty) ==
      Reply(Some(VariableDeclaration(VarDecl(ty, ts[s1.cursor].data, Some(e)))), s2.(cursor := s2.cursor + 1))
  {
    var at := s1.(cursor := s1.cursor + 1);
    assert at.(cursor := at.cursor + 1) == s1.(cursor := s1.cursor + 2);
    NameRead(ts, s1, ty);
    InitialisedAfterName(ts, at, ty, ts[s1.cursor].data, e, s2);
  }

  /** `T x` followed by anything but `;`, `=` or `(` fails with one diagnostic about that token. */
  lemma {:induction false} DeclarationMissingTerminator(ts: seq<Token>, st: PState, ty: TypeNode, s1: PState)
    requires Valid(ts, st) && PSimpleType(ts, st) == Reply(Some(ty), s1)
    requires s1.cursor + 1 < |ts| && ts[s1.cursor].kind == Ident
    requires var k := ts[s1.cursor + 1].kind; k != Semicolon && k != Operator(Assign) && k != LParen
    ensures var at := s1.(cursor := s1.cursor + 1);
      PVarDecl(ts, st) == Reply(None, AddError(ts, at, ButGot(ExpectedIdentifier, ts[at.cursor])))
  {
    TypedStatement(ts, st, ty, s1);
    UnterminatedAfterType(ts, s1, ty);
  }

  /** `x` followed by anything but `;`, `=` or `(` after the type. */
  lemma {:induction false} UnterminatedAfterType(ts: seq<Token>, s1: PState, ty: TypeNode)
    requires Valid(ts, s1) && s1.cursor + 1 < |ts| && ts[s1.cursor].kind == Ident
    requires var k := ts[s1.cursor + 1].kind; k != Semicolon && k != Operator(Assign) && k != LParen
    ensures var at := s1.(cursor := s1.cursor + 1);
      DeclAfterType(ts, s1, ty) == Reply(None, AddError(ts, at, ButGot(ExpectedIdentifier, ts[at.cursor])))
  {
    NameRead(ts, s1, ty);
  }

  /** `T` followed by something other than a name: the diagnostic names that token and the cursor stays on it. */
  lemma {:induction false} DeclarationMissingName(ts: seq<Token>, st: PState, ty: TypeNode, s1: PState)
    requires Valid(ts, st) && PSimpleType(ts, st) == Reply(Some(ty), s1) && ts[s1.cursor].kind != Ident
    ensures PVarDecl(ts, st) == Reply(None, AddError(ts, s1, ButGot(ExpectedIdentifier, ts[s1.cursor])))
  {
    TypedStatement(ts, st, ty, s1);
  }

  /**
   * `T f ( params ) body`: a function declaration with the return type, the
   * name, the parameters the parameter list collected and the body `scope`.
   */
  lemma {:induction false} FunctionDeclarationForm(ts: seq<Token>, st: PState, ty: TypeNode, s1: PState,
                                ps: seq<VarDecl>, s2: PState, body: Stmt, s3: PState)
    requires Valid(ts, st) && PSimpleType(ts, st) == Reply(Some(ty), s1)
    requires s1.cursor + 2 < |ts| && ts[s1.cursor].kind == Ident && ts[s1.cursor + 1].kind == LParen
    requires ParamLoop(ts, s1.(cursor := s1.cursor + 2), []) == Reply(Some(ps), s2)
    requires PScope(ts, s2) == Reply(Some(body), s3)
    ensures PVarDecl(ts, st) == Reply(Some(FunctionDeclaration(ty, ts[s1.cursor].data, ps, body)), s3)
    ensures forall i :: 0 <= i < |ps| ==> IntParameter(ps[i])
  {
    TypedStatement(ts, st, ty, s1);
    FunctionAfterType(ts, s1, ty, ps, s2, body, s3);
  }

  /** `f ( params ) body` after the type. */
  lemma {:induction false} FunctionAfterType(ts: seq<Token>, s1: PState, ty: TypeNode,
                                             ps: seq<VarDecl>, s2: PState, body: Stmt, s3: PState)
    requires Valid(ts, s1) && s1.cursor + 2 < |ts| && ts[s1.cursor].kind == Ident && ts[s1.cursor + 1].kind == LParen
    requires ParamLoop(ts, s1.(cursor := s1.cursor + 2), []) == Reply(Some(ps), s2)
    requires PScope(ts, s2) == Reply(Some(body), s3)
    ensures DeclAfterType(ts, s1, ty) == Reply(Some(FunctionDeclaration(ty, ts[s1.cursor].data, ps, body)), s3)
    ensures forall i :: 0 <= i < |ps| ==> IntParameter(ps[i])
  {
    var at := s1.(cursor := s1.cursor + 1);
    assert at.(cursor := at.cursor + 1) == s1.(cursor := s1.cursor + 2);
    NameRead(ts, s1, ty);
    FunctionAfterNameForm(ts, at, ty, ts[s1.cursor].data, ps, s2, body, s3);
  }

  /** `x ( params ) body` after the type. */
  lemma {:induction false} FunctionAfterNameForm(ts: seq<Token>, at: PState, ty: TypeNode, name: string,
                                                 ps: seq<VarDecl>, s2: PState, body: Stmt, s3: PState)
    requires Valid(ts, at) && ts[at.cursor].kind == LParen
    requires ParamLoop(ts, at.(cursor := at.cursor + 1), []) == Reply(Some(ps), s2)
    requires PScope(ts, s2) == Reply(Some(body), s3)
    ensures DeclAfterName(ts, at, ty, name) == Reply(Some(FunctionDeclaration(ty, name, ps, body)), s3)
    ensures forall i :: 0 <= i < |ps| ==> IntParameter(ps[i])
  {
    FunctionAfterName(ts, at, ty, name);
    FunctionParts(ts, at.(cursor := at.cursor + 1), ty, name, ps, s2, body, s3);
  }

  /** A function whose body `scope` fails: one "Unexpected" diagnostic about the token where the body stopped. */
  lemma {:induction false} FunctionBodyRejected(ts: seq<Token>, st: PState, ty: TypeNode, name: string, ps: seq<VarDecl>, s2: PState, s3: PState)
    requires Valid(ts, st) && ParamLoop(ts, st, []) == Reply(Some(ps), s2)
    requires PScope(ts, s2) == Reply(None, s3)
    ensures PFuncDecl(ts, st, ty, name) == Reply(None, AddError(ts, s3, Unexpected(ts[s3.cursor])))
  {
  }

  /**
   * One named parameter `T x`, with or without the `,` after it: it is
   * appended after the parameters read so far and the loop goes on.
   */
  lemma {:induction false} NamedParameterAppended(ts: seq<Token>, st: PState, params: seq<VarDecl>, ty: TypeNode, s1: PState)
    requires Valid(ts, st) && PSimpleType(ts, st) == Reply(Some(ty), s1) && ty.identifier != "void"
    requires ts[s1.cursor].kind == Ident
    ensures var after := s1.(cursor := s1.cursor + 1);
      var next := if ts[after.cursor].kind == Comma then after.(cursor := after.cursor + 1) else after;
      ParamLoop(ts, st, params) == ParamLoop(ts, next, params + [VarDecl(ty, ts[s1.cursor].data, None)])
  {
  }

  /** `)` alone, or `void )`, ends the parameter list without adding to it. */
  lemma {:induction false} ParameterListCloses(ts: seq<Token>, st: PState, params: seq<VarDecl>)
    requires Valid(ts, st) && st.cursor + 1 < |ts|
    requires ts[st.cursor].kind == RParen || (ts[st.cursor].kind == Void && ts[st.cursor + 1].kind == RParen)
    ensures var n := if ts[st.cursor].kind == RParen then 1 else 2;
      ParamLoop(ts, st, params) == Reply(Some(params), st.(cursor := st.cursor + n))
  {
    SimpleTypeSpellings(ts, st);
  }

  /** `int a , unsigned b )`: both parameters, in source order, with their signedness. */
  lemma {:induction false} TwoParameters(ts: seq<Token>, st: PState)
    requires Valid(ts, st)
    requires var c := st.cursor;
      c + 5 < |ts| && ts[c].kind == Int && ts[c + 1].kind == Ident && ts[c + 2].kind == Comma &&
      ts[c + 3].kind == Unsigned && ts[c + 4].kind == Ident && ts[c + 5].kind == RParen
    ensures var c := st.cursor;
      ParamLoop(ts, st, []) ==
        Reply(Some([VarDecl(IntType, ts[st.cursor + 1].data, None), VarDecl(SimpleType("int", true), ts[c + 4].data, None)]),
              st.(cursor := c + 6))
  {
    var c := st.cursor;
    var a := VarDecl(IntType, ts[c + 1].data, None);
    var b := VarDecl(SimpleType("int", true), ts[c + 4].data, None);
    IntParameterRead(ts, st, []);
    assert [] + [a] == [a];
    UnsignedParameterRead(ts, st.(cursor := c + 3), [a]);
    assert [a] + [b] == [a, b];
    assert ts[|ts| - 1].kind == EndOfInput && c + 6 < |ts|;
    ParameterListCloses(ts, st.(cursor := c + 5), [a, b]);
  }

  /** `int x ,` in a parameter list. */
  lemma {:induction false} IntParameterRead(ts: seq<Token>, st: PState, params: seq<VarDecl>)
    requires Valid(ts, st) && st.cursor + 2 < |ts|
    requires ts[st.cursor].kind == Int && ts[st.cursor + 1].kind == Ident && ts[st.cursor + 2].kind == Comma
    ensures ParamLoop(ts, st, params) ==
      ParamLoop(ts, st.(cursor := st.cursor + 3), params + [VarDecl(IntType, ts[st.cursor + 1].data, None)])
  {
    SimpleTypeSpellings(ts, st);
    NamedParameterAppended(ts, st, params, IntType, st.(cursor := st.cursor + 1));
  }

  /** `unsigned x` followed by a token other than `,` in a parameter list. */
  lemma {:induction false} UnsignedParameterRead(ts: seq<Token>, st: PState, params: seq<VarDecl>)
    requires Valid(ts, st) && st.cursor + 2 < |ts|
    requires ts[st.cursor].kind == Unsigned && ts[st.cursor + 1].kind == Ident && ts[st.cursor + 2].kind != Comma
    ensures ParamLoop(ts, st, params) ==
      ParamLoop(ts, st.(cursor := st.cursor + 2), params + [VarDecl(SimpleType("int", true), ts[st.cursor + 1].data, None)])
  {
    SimpleTypeSpellings(ts, st);
    NamedParameterAppended(ts, st, params, SimpleType("int", true), st.(cursor := st.cursor + 1));
  }

  /** A statement starting with `return` is a `return_stmt`: no type starts there. */
  lemma {:induction false} ReturnIsUntyped(ts: seq<Token>, st: PState)
    requires Valid(ts, st) && ts[st.cursor].kind == Return
    ensures PVarDecl(ts, st) == PReturnStmt(ts, st)
  {
    SimpleTypeSpellings(ts, st);
    UntypedStatement(ts, st, st);
  }

  /** `return e ;`: a return carrying the whole `assign` expression. */
  lemma {:induction false} ReturnWithValue(ts: seq<Token>, st: PState, e: Expr, s1: PState)
    requires Valid(ts, st) && ts[st.cursor].kind == Return
    requires PAssign(ts, st.(cursor := st.cursor + 1)) == Reply(Some(e), s1) && ts[s1.cursor].kind == Semicolon
    ensures PVarDecl(ts, st) == Reply(Some(ReturnStatement(Some(e))), s1.(cursor := s1.cursor + 1))
  {
    ReturnIsUntyped(ts, st);
    ReturnStmtWithValue(ts, st, e, s1);
  }

  /** `return e ;` as a `return_stmt`. */
  lemma {:induction false} ReturnStmtWithValue(ts: seq<Token>, st: PState, e: Expr, s1: PState)
    requires Valid(ts, st) && ts[st.cursor].kind == Return
    requires PAssign(ts, st.(cursor := st.cursor + 1)) == Reply(Some(e), s1) && ts[s1.cursor].kind == Semicolon
    ensures PReturnStmt(ts, st) == Reply(Some(ReturnStatement(Some(e))), s1.(cursor := s1.cursor + 1))
  {
    TerminatedExpression(ts, st.(cursor := st.cursor + 1), e, s1);
  }

  /**
   * `return ;` is not a statement: the expression after `return` is
   * required, so the parser never builds a return without one.
   */
  lemma {:induction false} BareReturnRejected(ts: seq<Token>, st: PState)
    requires Valid(ts, st) && ts[st.cursor].kind == Return && ts[st.cursor + 1].kind == Semicolon
    ensures var at := st.(cursor := st.cursor + 1);
      PVarDecl(ts, st) == Reply(None, AddError(ts, at, ButGot(ExpectedExpression, ts[at.cursor])))
  {
    ReturnIsUntyped(ts, st);
    ReturnStmtWithoutValue(ts, st);
  }

  /** `return ;` as a `return_stmt`. */
  lemma {:induction false} ReturnStmtWithoutValue(ts: seq<Token>, st: PState)
    requires Valid(ts, st) && ts[st.cursor].kind == Return && ts[st.cursor + 1].kind == Semicolon
    ensures var at := st.(cursor := st.cursor + 1);
      PReturnStmt(ts, st) == Reply(None, AddError(ts, at, ButGot(ExpectedExpression, ts[at.cursor])))
  {
    var at := st.(cursor := st.cursor + 1);
    NoExpression(ts, at);
    assert PTerminatedExpr(ts, at) == Reply(None, AddError(ts, at, ButGot(ExpectedExpression, ts[at.cursor])));
  }

  /** `e ;` where `e` starts with no type keyword and no `return`: an expression statement. */
  lemma {:induction false} ExpressionStatementForm(ts: seq<Token>, st: PState, e: Expr, s1: PState)
    requires Valid(ts, st) && PSimpleType(ts, st) == Reply(None, st) && ts[st.cursor].kind != Return
    requires PAssign(ts, st) == Reply(Some(e), s1) && ts[s1.cursor].kind == Semicolon
    ensures PVarDecl(ts, st) == Reply(Some(ExpressionStatement(e)), s1.(cursor := s1.cursor + 1))
  {
    UntypedStatement(ts, st, st);
    assert PReturnStmt(ts, st) == PExprStmt(ts, st);
  }

  /** `e` followed by anything but `;`: one ExpectedSemicolon diagnostic about that token. */
  lemma {:induction false} ExpressionStatementMissingSemicolon(ts: seq<Token>, st: PState, e: Expr, s1: PState)
    requires Valid(ts, st) && PSimpleType(ts, st) == Reply(None, st) && ts[st.cursor].kind != Return
    requires PAssign(ts, st) == Reply(Some(e), s1) && ts[s1.cursor].kind != Semicolon
    ensures PVarDecl(ts, st) == Reply(None, AddError(ts, s1, ButGot(ExpectedSemicolon, ts[s1.cursor])))
  {
    UntypedStatement(ts, st, st);
    assert PReturnStmt(ts, st) == PExprStmt(ts, st);
  }

  // ---------------------------------------------------------------------------
  // Assignment chains
  // ---------------------------------------------------------------------------

  /** Where operand `i` of an assignment chain starts: at `st`, or just past the `=` after operand `i - 1`. */
  function OperandStart(st: PState, ends: seq<PState>, i: nat): PState
    requires i <= |ends|
  {
    if i == 0 then st else ends[i - 1].(cursor := ends[i - 1].cursor + 1)
  }

  /** `ends` and `es` describe a chain `e0 = e1 = ... = ek` of `addsub` operands starting at `st`. */
  ghost predicate AssignChain(ts: seq<Token>, st: PState, es: seq<Expr>, ends: seq<PState>)
  {
    |es| >= 1 && |ends| == |es|
    && (forall i {:trigger OperandStart(st, ends, i)} :: 0 <= i < |es| ==>
          Valid(ts, OperandStart(st, ends, i)) && PAddSub(ts, OperandStart(st, ends, i)) == Reply(Some(es[i]), ends[i]))
    && (forall i :: 0 <= i < |es| ==> ends[i].cursor < |ts|)
    && (forall i :: 0 <= i < |es| - 1 ==> ts[ends[i].cursor].kind == Operator(Assign))
    && ts[ends[|es| - 1].cursor].kind != Operator(Assign)
  }

  /** The `assign` loop over the rest of a chain, from operand `j` on: it collects every remaining operand. */
  lemma {:induction false} AssignLoopChain(ts: seq<Token>, st: PState, es: seq<Expr>, ends: seq<PState>, j: nat)
    requires AssignChain(ts, st, es, ends) && j < |es|
    ensures Valid(ts, ends[j])
    ensures AssignLoop(ts, ends[j], es[..j + 1]) == Reply(Some(es), ends[|es| - 1])
    decreases |es| - j
  {
    if j == |es| - 1 {
      ChainEnd(ts, st, es, ends);
      assert es[..j + 1] == es;
    } else {
      ChainStep(ts, st, es, ends, j);
      AssignLoopChain(ts, st, es, ends, j + 1);
    }
  }

  /** The last operand of a chain is followed by a token other than `=`, where the `assign` loop stops. */
  lemma {:induction false} ChainEnd(ts: seq<Token>, st: PState, es: seq<Expr>, ends: seq<PState>)
    requires AssignChain(ts, st, es, ends)
    ensures Valid(ts, ends[|es| - 1])
    ensures AssignLoop(ts, ends[|es| - 1], es) == Reply(Some(es), ends[|es| - 1])
  {
    var j := |es| - 1;
    assert Valid(ts, OperandStart(st, ends, j)) && PAddSub(ts, OperandStart(st, ends, j)) == Reply(Some(es[j]), ends[j]);
  }

  /** Operand `j + 1` of a chain is the next one the `assign` loop appends. */
  lemma {:induction false} ChainStep(ts: seq<Token>, st: PState, es: seq<Expr>, ends: seq<PState>, j: nat)
    requires AssignChain(ts, st, es, ends) && j + 1 < |es|
    ensures Valid(ts, ends[j])
    ensures AssignLoop(ts, ends[j], es[..j + 1]) == AssignLoop(ts, ends[j + 1], es[..j + 2])
  {
    ChainLink(ts, st, es, ends, j);
    PrefixExtended(es, j + 1);
    AssignLoopStep(ts, ends[j], es[..j + 1], es[j + 1], ends[j + 1]);
  }

  /** Operand `j` of a chain ends on an `=`, and operand `j + 1` starts just past it. */
  lemma {:induction false} ChainLink(ts: seq<Token>, st: PState, es: seq<Expr>, ends: seq<PState>, j: nat)
    requires AssignChain(ts, st, es, ends) && j + 1 < |es|
    ensures Valid(ts, ends[j]) && ts[ends[j].cursor].kind == Operator(Assign)
    ensures var eq := ends[j].(cursor := ends[j].cursor + 1);
      Valid(ts, eq) && PAddSub(ts, eq) == Reply(Some(es[j + 1]), ends[j + 1])
  {
    assert Valid(ts, OperandStart(st, ends, j)) && PAddSub(ts, OperandStart(st, ends, j)) == Reply(Some(es[j]), ends[j]);
    var eq := ends[j].(cursor := ends[j].cursor + 1);
    assert OperandStart(st, ends, j + 1) == eq;
    assert Valid(ts, eq) && PAddSub(ts, eq) == Reply(Some(es[j + 1]), ends[j + 1]);
  }

  lemma PrefixExtended(es: seq<Expr>, n: nat)
    requires n < |es|
    ensures es[..n] + [es[n]] == es[..n + 1]
  {
  }

  /** One `= operand` step of the `assign` loop: the operand is appended and the loop goes on after it. */
  lemma {:induction false} AssignLoopStep(ts: seq<Token>, s: PState, ops: seq<Expr>, x: Expr, s2: PState)
    requires Valid(ts, s) && |ops| >= 1 && ts[s.cursor].kind == Operator(Assign)
    requires Valid(ts, s.(cursor := s.cursor + 1)) && PAddSub(ts, s.(cursor := s.cursor + 1)) == Reply(Some(x), s2)
    ensures Valid(ts, s2)
    ensures AssignLoop(ts, s, ops) == AssignLoop(ts, s2, ops + [x])
  {
    assert Accept(ts, s, Operator(Assign)) == Step(Some(ts[s.cursor]), s.(cursor := s.cursor + 1));
  }

  /**
   * `e0 = e1 = ... = ek`: k `=` tokens give exactly k nested `=` nodes, `ek`
   * innermost on the left and `e0, ..., e(k-1)` as the right operands from
   * the outermost node inwards, so `a = b = c` is `(c = b) = a`.
   */
  lemma {:induction false} AssignChainShape(ts: seq<Token>, st: PState, es: seq<Expr>, ends: seq<PState>)
    requires Valid(ts, st) && AssignChain(ts, st, es, ends)
    ensures PAssign(ts, st) == Reply(Some(FoldAssign(es)), ends[|es| - 1])
    ensures AssignDepth(FoldAssign(es)) == |es| - 1
    ensures Innermost(FoldAssign(es)) == es[|es| - 1]
    ensures RhsChain(FoldAssign(es)) == es[..|es| - 1]
  {
    assert OperandStart(st, ends, 0) == st;
    assert PAddSub(ts, st) == Reply(Some(es[0]), ends[0]);
    assert es[..1] == [es[0]];
    AssignLoopChain(ts, st, es, ends, 0);
    forall i | 0 <= i < |es|
      ensures AddSubShape(es[i])
    {
      assert PAddSub(ts, OperandStart(st, ends, i)) == Reply(Some(es[i]), ends[i]);
    }
    FoldAssignShape(es);
  }

  /** Three operands `a = b = c`: `(c = b) = a`. */
  lemma {:induction false} ThreeOperandChain(ts: seq<Token>, st: PState, a: Expr, e0: PState, b: Expr, e1: PState, c: Expr, e2: PState)
    requires Valid(ts, st) && PAddSub(ts, st) == Reply(Some(a), e0)
    requires Valid(ts, e0) && ts[e0.cursor].kind == Operator(Assign)
    requires Valid(ts, e0.(cursor := e0.cursor + 1)) && PAddSub(ts, e0.(cursor := e0.cursor + 1)) == Reply(Some(b), e1)
    requires Valid(ts, e1) && ts[e1.cursor].kind == Operator(Assign)
    requires Valid(ts, e1.(cursor := e1.cursor + 1)) && PAddSub(ts, e1.(cursor := e1.cursor + 1)) == Reply(Some(c), e2)
    requires Valid(ts, e2) && ts[e2.cursor].kind != Operator(Assign)
    ensures PAssign(ts, st) == Reply(Some(BinaryOperation(Operator(Assign), BinaryOperation(Operator(Assign), c, b), a)), e2)
  {
    ThreeChain(ts, st, a, e0, b, e1, c, e2);
    AssignChainShape(ts, st, [a, b, c], [e0, e1, e2]);
    FoldThree(a, b, c);
  }

  lemma {:induction false} ThreeChain(ts: seq<Token>, st: PState, a: Expr, e0: PState, b: Expr, e1: PState, c: Expr, e2: PState)
    requires Valid(ts, st) && PAddSub(ts, st) == Reply(Some(a), e0)
    requires Valid(ts, e0) && ts[e0.cursor].kind == Operator(Assign)
    requires Valid(ts, e0.(cursor := e0.cursor + 1)) && PAddSub(ts, e0.(cursor := e0.cursor + 1)) == Reply(Some(b), e1)
    requires Valid(ts, e1) && ts[e1.cursor].kind == Operator(Assign)
    requires Valid(ts, e1.(cursor := e1.cursor + 1)) && PAddSub(ts, e1.(cursor := e1.cursor + 1)) == Reply(Some(c), e2)
    requires Valid(ts, e2) && ts[e2.cursor].kind != Operator(Assign)
    ensures AssignChain(ts, st, [a, b, c], [e0, e1, e2])
  {
    var es := [a, b, c];
    var ends := [e0, e1, e2];
    forall i | 0 <= i < 3
      ensures Valid(ts, OperandStart(st, ends, i)) && PAddSub(ts, OperandStart(st, ends, i)) == Reply(Some(es[i]), ends[i])
    {
      if i == 1 {
        assert OperandStart(st, ends, 1) == e0.(cursor := e0.cursor + 1);
      } else if i == 2 {
        assert OperandStart(st, ends, 2) == e1.(cursor := e1.cursor + 1);
      }
    }
    forall i | 0 <= i < 3
      ensures ends[i].cursor < |ts|
    {
    }
    forall i | 0 <= i < 2
      ensures ts[ends[i].cursor].kind == Operator(Assign)
    {
    }
  }

  lemma FoldThree(a: Expr, b: Expr, c: Expr)
    ensures FoldAssign([a, b, c]) == BinaryOperation(Operator(Assign), BinaryOperation(Operator(Assign), c, b), a)
  {
    assert [a, b, c][..2] == [a, b];
    assert Reverse([a, b]) == [b, a] by {
      assert [a, b][1..] == [b];
      assert Reverse([b]) == [b] by { assert [b][1..] == []; }
    }
    assert FoldFrom(c, [b, a]) == FoldFrom(BinaryOperation(Operator(Assign), c, b), [a]) by { assert [b, a][1..] == [a]; }
    assert [a][1..] == [];
  }

  /** A call `name ( )` followed by `=` is a whole `addsub` operand. */
  lemma {:induction false} CallBeforeAssign(ts: seq<Token>, at: PState)
    requires Valid(ts, at) && at.cursor + 3 < |ts|
    requires ts[at.cursor].kind == Ident && ts[at.cursor + 1].kind == LParen && ts[at.cursor + 2].kind == RParen
    requires ts[at.cursor + 3].kind == Operator(Assign)
    ensures PAddSub(ts, at) == Reply(Some(Call(ts[at.cursor].data)), at.(cursor := at.cursor + 3))
  {
    CallOperand(ts, at);
    AddSubStops(ts, at.(cursor := at.cursor + 3), Call(ts[at.cursor].data));
  }

  /** `a ( ) = b ( ) = c ( ) ;` parses as `(c() = b()) = a()`. */
  lemma {:induction false} AssignCalls(ts: seq<Token>, st: PState)
    requires Valid(ts, st)
    requires var c := st.cursor;
      c + 11 < |ts| &&
      ts[c].kind == Ident && ts[c + 1].kind == LParen && ts[c + 2].kind == RParen && ts[c + 3].kind == Operator(Assign) &&
      ts[c + 4].kind == Ident && ts[c + 5].kind == LParen && ts[c + 6].kind == RParen && ts[c + 7].kind == Operator(Assign) &&
      ts[c + 8].kind == Ident && ts[c + 9].kind == LParen && ts[c + 10].kind == RParen && ts[c + 11].kind == Semicolon
    ensures var c := st.cursor;
      PAssign(ts, st) ==
        Reply(Some(BinaryOperation(Operator(Assign),
                     BinaryOperation(Operator(Assign), Call(ts[c + 8].data), Call(ts[c + 4].data)),
                     Call(ts[c].data))),
              st.(cursor := c + 11))
  {
    var c := st.cursor;
    CallBeforeAssign(ts, st);
    CallBeforeAssign(ts, st.(cursor := c + 4));
    CallOperand(ts, st.(cursor := c + 8));
    AddSubStops(ts, st.(cursor := c + 11), Call(ts[c + 8].data));
    ThreeOperandChain(ts, st, Call(ts[c].data), st.(cursor := c + 3), Call(ts[c + 4].data), st.(cursor := c + 7),
      Call(ts[c + 8].data), st.(cursor := c + 11));
  }
}
