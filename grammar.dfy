/**
 * The recursive-descent grammar of the parser, one function per production.
 *
 * Every production is a total function of the token sequence and the parser
 * state (the cursor and the append-only error list). A production either
 * succeeds with a node, or fails; on failure the cursor stays wherever the
 * tokens it already accepted left it, exactly as the parser's member cursor
 * does. The class in parser.dfy runs the same productions imperatively and is
 * proved equal to these functions.
 *
 * `type` and `expr` in the parser only forward to `simple_type` and `assign`;
 * the model calls those two directly.
 */
module Grammar {
  import opened Wrappers
  import opened Tokens
  import opened Ast

  datatype PState = PState(cursor: nat, errors: seq<Diagnostic>)

  /** Result of a production: the node on success, and the state afterwards. */
  datatype Reply<T> = Reply(node: Option<T>, st: PState)

  /** Result of a loop that collects nodes until a production fails. */
  datatype Many<T> = Many(items: seq<T>, st: PState)

  /** Result of `accept`: the accepted token, if any, and the state afterwards. */
  datatype Step = Step(tok: Option<Token>, st: PState)

  ghost predicate Valid(ts: seq<Token>, st: PState)
  {
    WellFormed(ts) && st.cursor < |ts|
  }

  /** `st'` is a later valid state than `st`: the cursor never goes back and errors are only appended. */
  ghost predicate Follows(ts: seq<Token>, st: PState, st': PState)
  {
    Valid(ts, st') && st.cursor <= st'.cursor && st.errors <= st'.errors
  }

  /** The operators of `addsub`. */
  predicate IsAddOp(k: TokenType) { k == Operator(Plus) || k == Operator(Minus) }

  /** The operators of `muldiv`. */
  predicate IsMulOp(k: TokenType) { k == Operator(Multiply) || k == Operator(Divide) }

  /** `current_token`. */
  function Current(ts: seq<Token>, st: PState): Token
    requires Valid(ts, st)
  {
    ts[st.cursor]
  }

  /** Appends one diagnostic about the current token. */
  function AddError(ts: seq<Token>, st: PState, message: string): (st': PState)
    requires Valid(ts, st)
    ensures st'.cursor == st.cursor
    ensures st'.errors == st.errors + [Diagnostic(ts[st.cursor], message)]
  {
    st.(errors := st.errors + [Diagnostic(ts[st.cursor], message)])
  }

  /** The messages of the parser's diagnostics. */
  const ExpectedRBrace := "Expected '}'"
  const ExpectedIdentifier := "Expected identifier"
  const ExpectedExpression := "Expected expression"
  const ExpectedSemicolon := "Expected ';'"
  const Todo := "TODO"
  const ButGotText := ", but got \""
  const UnexpectedText := "Unexpected \""
  const Quote := "\""

  /** The text of the parser's "Expected X, but got "t"" messages. */
  function ButGot(expected: string, t: Token): string
  {
    expected + ButGotText + t.data + Quote
  }

  /** The text of the parser's "Unexpected "t"" messages. */
  function Unexpected(t: Token): string
  {
    UnexpectedText + t.data + Quote
  }

  /**
   * `accept`: moves the cursor forward by one and hands back that token
   * exactly when the current token has the requested type; otherwise nothing
   * changes.
   */
  function Accept(ts: seq<Token>, st: PState, k: TokenType): (r: Step)
    requires Valid(ts, st) && k != EndOfInput
    ensures Valid(ts, r.st)
    ensures r.tok.Some? <==> ts[st.cursor].kind == k
    ensures r.tok.Some? ==> r.tok.value == ts[st.cursor] && r.st == st.(cursor := st.cursor + 1)
    ensures r.tok.None? ==> r.st == st
  {
    if ts[st.cursor].kind == k then Step(Some(ts[st.cursor]), st.(cursor := st.cursor + 1))
    else Step(None, st)
  }

  /** `std::stoi` on a decimal literal: the value of its leading run of digits. */
  function Stoi(s: string): nat
  {
    DigitsValue(s, 0)
  }

  function DigitsValue(s: string, acc: nat): nat
    decreases |s|
  {
    if s == [] || !('0' <= s[0] <= '9') then acc
    else DigitsValue(s[1..], acc * 10 + (s[0] as int - '0' as int))
  }

  // ---------------------------------------------------------------------------
  // Statements
  // ---------------------------------------------------------------------------

  /** `s` declares `name` with type `ty`: a variable, or a function returning `ty`. */
  predicate Declares(s: Stmt, ty: TypeNode, name: string)
  {
    (s.VariableDeclaration? && s.decl.ty == ty && s.decl.identifier == name)
    || (s.FunctionDeclaration? && s.returnType == ty && s.identifier == name)
  }

  /** The statements `var_decl` can build: a return always carries its expression. */
  predicate ParsedStatement(s: Stmt)
  {
    s.VariableDeclaration? || s.FunctionDeclaration? || s.ExpressionStatement?
    || (s.ReturnStatement? && s.returnExpr.Some?)
  }

  /** The token just before the cursor has kind `k`. */
  ghost predicate After(ts: seq<Token>, st: PState, k: TokenType)
  {
    0 < st.cursor <= |ts| && ts[st.cursor - 1].kind == k
  }

  /** A parameter as the parameter list builds it: an `int` type, signed or not, and no initialiser. */
  predicate IntParameter(p: VarDecl)
  {
    p.ty.SimpleType? && p.ty.identifier == "int" && p.expression.None?
  }

  /** `block`: collects scopes while they succeed; succeeds iff no error was recorded at all. */
  function PBlock(ts: seq<Token>, st: PState): (r: Reply<Stmt>)
    requires Valid(ts, st)
    decreases |ts| - st.cursor, 18
    ensures Follows(ts, st, r.st)
    ensures r.node.Some? <==> r.st.errors == []
    ensures r.node.Some? ==> r.node.value.Block?
  {
    var l := BlockLoop(ts, st, []);
    if l.st.errors == [] then Reply(Some(Block(l.items)), l.st) else Reply(None, l.st)
  }

  function BlockLoop(ts: seq<Token>, st: PState, acc: seq<Stmt>): (r: Many<Stmt>)
    requires Valid(ts, st)
    decreases |ts| - st.cursor, 17
    ensures Follows(ts, st, r.st)
  {
    var s := PScope(ts, st);
    if s.node.Some? then BlockLoop(ts, s.st, acc + [s.node.value]) else Many(acc, s.st)
  }

  /** `scope`: either `{ var_decl* }` or a single `var_decl`. */
  function PScope(ts: seq<Token>, st: PState): (r: Reply<Stmt>)
    requires Valid(ts, st)
    decreases |ts| - st.cursor, 16
    ensures Follows(ts, st, r.st)
    ensures r.node.Some? ==> st.cursor < r.st.cursor
    ensures ts[st.cursor].kind == LBrace ==>
      var body := ScopeLoop(ts, st.(cursor := st.cursor + 1), []);
      (r.node.None? <==> ts[body.st.cursor].kind != RBrace) &&
      (r.node.None? ==> r.st == AddError(ts, body.st, ButGot(ExpectedRBrace, ts[body.st.cursor])))
  {
    if ts[st.cursor].kind == LBrace then
      var body := ScopeLoop(ts, st.(cursor := st.cursor + 1), []);
      var rb := Accept(ts, body.st, RBrace);
      if rb.tok.Some? then Reply(Some(Scope(body.items)), rb.st)
      else Reply(None, AddError(ts, body.st, ButGot(ExpectedRBrace, Current(ts, body.st))))
    else
      PVarDecl(ts, st)
  }

  function ScopeLoop(ts: seq<Token>, st: PState, acc: seq<Stmt>): (r: Many<Stmt>)
    requires Valid(ts, st)
    decreases |ts| - st.cursor, 15
    ensures Follows(ts, st, r.st)
  {
    var d := PVarDecl(ts, st);
    if d.node.Some? then ScopeLoop(ts, d.st, acc + [d.node.value]) else Many(acc, d.st)
  }

  /** `var_decl`: `type ident ;`, `type ident = expr ;`, `type ident ( params ) scope`, or a `return_stmt`. */
  function PVarDecl(ts: seq<Token>, st: PState): (r: Reply<Stmt>)
    requires Valid(ts, st)
    decreases |ts| - st.cursor, 14
    ensures Follows(ts, st, r.st)
    ensures r.node.Some? ==> st.cursor < r.st.cursor
    ensures r.node.Some? ==> ParsedStatement(r.node.value)
  {
    var t := PSimpleType(ts, st);
    if t.node.None? then PReturnStmt(ts, t.st) else DeclAfterType(ts, t.st, t.node.value)
  }

  /** The rest of `var_decl` once the type is read: the name must follow. */
  function DeclAfterType(ts: seq<Token>, st: PState, ty: TypeNode): (r: Reply<Stmt>)
    requires Valid(ts, st)
    decreases |ts| - st.cursor, 14
    ensures Follows(ts, st, r.st)
    ensures r.node.Some? ==> st.cursor < r.st.cursor
    ensures ts[st.cursor].kind != Ident ==>
      r == Reply(None, AddError(ts, st, ButGot(ExpectedIdentifier, ts[st.cursor])))
    ensures r.node.Some? ==> Declares(r.node.value, ty, ts[st.cursor].data)
  {
    var id := Accept(ts, st, Ident);
    if id.tok.Some? then DeclAfterName(ts, id.st, ty, id.tok.value.data)
    else Reply(None, AddError(ts, st, ButGot(ExpectedIdentifier, Current(ts, st))))
  }

  /** The rest of `var_decl` once the type and the name are read. */
  function DeclAfterName(ts: seq<Token>, st: PState, ty: TypeNode, name: string): (r: Reply<Stmt>)
    requires Valid(ts, st)
    decreases |ts| - st.cursor, 14
    ensures Follows(ts, st, r.st)
    ensures r.node.Some? ==> st.cursor < r.st.cursor
    ensures r.node.Some? ==> Declares(r.node.value, ty, name)
    ensures var k := ts[st.cursor].kind; var next := st.(cursor := st.cursor + 1);
      (k == Semicolon ==> r == Reply(Some(VariableDeclaration(VarDecl(ty, name, None))), next)) &&
      (k == Operator(Assign) && r.node.Some? ==> r.node.value.VariableDeclaration? && r.node.value.decl.expression.Some? && After(ts, r.st, Semicolon)) &&
      (k == LParen && r.node.Some? ==> r.node.value.FunctionDeclaration?) &&
      (k != Semicolon && k != Operator(Assign) && k != LParen ==>
        r == Reply(None, AddError(ts, st, ButGot(ExpectedIdentifier, ts[st.cursor]))))
  {
    var k := ts[st.cursor].kind;
    var next := st.(cursor := st.cursor + 1);
    if k == Operator(Assign) then
      var e := PTerminatedExpr(ts, next);
      if e.node.Some? then Reply(Some(VariableDeclaration(VarDecl(ty, name, e.node))), e.st) else Reply(None, e.st)
    else if k == Semicolon then Reply(Some(VariableDeclaration(VarDecl(ty, name, None))), next)
    else if k == LParen then PFuncDecl(ts, next, ty, name)
    else Reply(None, AddError(ts, st, ButGot(ExpectedIdentifier, Current(ts, st))))
  }

  /** `func_decl`, entered after `type ident (`: the parameter list, then the body as a `scope`. */
  function PFuncDecl(ts: seq<Token>, st: PState, returnType: TypeNode, name: string): (r: Reply<Stmt>)
    requires Valid(ts, st)
    decreases |ts| - st.cursor, 13
    ensures Follows(ts, st, r.st)
    ensures r.node.Some? ==> st.cursor < r.st.cursor
    ensures r.node.Some? ==>
      var f := r.node.value;
      f.FunctionDeclaration? && f.returnType == returnType && f.identifier == name &&
      forall i :: 0 <= i < |f.parameter| ==> IntParameter(f.parameter[i])
  {
    var p := ParamLoop(ts, st, []);
    if p.node.None? then Reply(None, p.st)
    else
      var b := PScope(ts, p.st);
      if b.node.None? then Reply(None, AddError(ts, b.st, Unexpected(Current(ts, b.st))))
      else Reply(Some(FunctionDeclaration(returnType, name, p.node.value, b.node.value)), b.st)
  }

  /**
   * The `while (true)` loop of `func_decl` over the parameter list, up to and
   * including the closing `)`. A parameter whose type is not followed by an
   * identifier or a comma is dropped, as in the source.
   */
  function ParamLoop(ts: seq<Token>, st: PState, params: seq<VarDecl>): (r: Reply<seq<VarDecl>>)
    requires Valid(ts, st)
    decreases |ts| - st.cursor, 12
    ensures Follows(ts, st, r.st)
    ensures r.node.Some? ==> st.cursor < r.st.cursor
    ensures r.node.Some? ==> After(ts, r.st, RParen)
    ensures r.node.Some? ==> |params| <= |r.node.value| && r.node.value[..|params|] == params
    ensures r.node.Some? ==> forall i :: |params| <= i < |r.node.value| ==> IntParameter(r.node.value[i])
  {
    var t := PSimpleType(ts, st);
    if t.node.Some? then
      var ty := t.node.value;
      if ty.identifier == "void" then
        var rp := Accept(ts, t.st, RParen);
        if rp.tok.Some? then Reply(Some(params), rp.st)
        else Reply(None, AddError(ts, t.st, Todo))
      else
        var id := Accept(ts, t.st, Ident);
        if id.tok.Some? then
          var cm := Accept(ts, id.st, Comma);
          var p := VarDecl(ty, id.tok.value.data, None);
          var r := ParamLoop(ts, cm.st, params + [p]);
          if r.node.Some? then ParamsExtend(r.node.value, params, p); r else r
        else
          var cm := Accept(ts, t.st, Comma);
          if cm.tok.Some? then
            var p := VarDecl(ty, "", None);
            var r := ParamLoop(ts, cm.st, params + [p]);
            if r.node.Some? then ParamsExtend(r.node.value, params, p); r else r
          else ParamLoop(ts, t.st, params)
    else
      var rp := Accept(ts, t.st, RParen);
      if rp.tok.Some? then Reply(Some(params), rp.st)
      else Reply(None, AddError(ts, t.st, Unexpected(Current(ts, t.st))))
  }

  /** A parameter list that extends `params + [p]` with `int` parameters also extends `params` with them. */
  lemma ParamsExtend(r: seq<VarDecl>, params: seq<VarDecl>, p: VarDecl)
    requires IntParameter(p)
    requires |params| + 1 <= |r| && r[..|params| + 1] == params + [p]
    requires forall i :: |params| + 1 <= i < |r| ==> IntParameter(r[i])
    ensures r[..|params|] == params
    ensures forall i :: |params| <= i < |r| ==> IntParameter(r[i])
  {
    assert r[..|params|] == r[..|params| + 1][..|params|];
    assert r[|params|] == r[..|params| + 1][|params|];
  }

  /** `return_stmt`: `return expr ;`, or an `expr_stmt`. */
  function PReturnStmt(ts: seq<Token>, st: PState): (r: Reply<Stmt>)
    requires Valid(ts, st)
    decreases |ts| - st.cursor, 11
    ensures Follows(ts, st, r.st)
    ensures r.node.Some? ==> st.cursor < r.st.cursor
    ensures r.node.Some? ==> After(ts, r.st, Semicolon)
    ensures r.node.Some? ==>
      if ts[st.cursor].kind == Return then r.node.value.ReturnStatement? && r.node.value.returnExpr.Some?
      else r.node.value.ExpressionStatement?
  {
    if ts[st.cursor].kind == Return then
      var e := PTerminatedExpr(ts, st.(cursor := st.cursor + 1));
      if e.node.Some? then Reply(Some(ReturnStatement(e.node)), e.st) else Reply(None, e.st)
    else
      PExprStmt(ts, st)
  }

  /**
   * An expression that must be followed by `;`, as in `var_decl` after `=`
   * and in `return_stmt`: a missing expression and a missing `;` each record
   * one diagnostic about the current token.
   */
  function PTerminatedExpr(ts: seq<Token>, st: PState): (r: Reply<Expr>)
    requires Valid(ts, st)
    decreases |ts| - st.cursor, 10
    ensures Follows(ts, st, r.st)
    ensures r.node.Some? ==> st.cursor < r.st.cursor
    ensures r.node.Some? ==> After(ts, r.st, Semicolon)
    ensures r.node.None? ==> |st.errors| < |r.st.errors|
  {
    var e := PAssign(ts, st);
    if e.node.None? then Reply(None, AddError(ts, e.st, ButGot(ExpectedExpression, Current(ts, e.st))))
    else if ts[e.st.cursor].kind == Semicolon then Reply(e.node, e.st.(cursor := e.st.cursor + 1))
    else Reply(None, AddError(ts, e.st, ButGot(ExpectedSemicolon, Current(ts, e.st))))
  }

  /** `expr_stmt`: `expr ;`. A missing expression fails without a diagnostic. */
  function PExprStmt(ts: seq<Token>, st: PState): (r: Reply<Stmt>)
    requires Valid(ts, st)
    decreases |ts| - st.cursor, 10
    ensures Follows(ts, st, r.st)
    ensures r.node.Some? ==> st.cursor < r.st.cursor
    ensures r.node.Some? ==> r.node.value.ExpressionStatement? && After(ts, r.st, Semicolon)
  {
    var e := PAssign(ts, st);
    if e.node.None? then Reply(None, e.st)
    else
      var semi := Accept(ts, e.st, Semicolon);
      if semi.tok.Some? then Reply(Some(ExpressionStatement(e.node.value)), semi.st)
      else Reply(None, AddError(ts, e.st, ButGot(ExpectedSemicolon, Current(ts, e.st))))
  }

  // ---------------------------------------------------------------------------
  // Expressions
  // ---------------------------------------------------------------------------

  /** `assign`: `addsub ( = addsub )*`, folded by FoldAssign. */
  function PAssign(ts: seq<Token>, st: PState): (r: Reply<Expr>)
    requires Valid(ts, st)
    decreases |ts| - st.cursor, 9
    ensures Follows(ts, st, r.st)
    ensures r.node.Some? ==> st.cursor < r.st.cursor
    ensures r.node.Some? ==> AssignShape(r.node.value)
    ensures var l := PAddSub(ts, st);
      l.node.Some? && ts[l.st.cursor].kind != Operator(Assign) ==> r == l
  {
    var l := PAddSub(ts, st);
    if l.node.None? then Reply(None, l.st)
    else
      var ops := AssignLoop(ts, l.st, [l.node.value]);
      if ops.node.None? then Reply(None, ops.st)
      else
        FoldAssignShape(ops.node.value);
        Reply(Some(FoldAssign(ops.node.value)), ops.st)
  }

  /** The `while (accept(assign))` loop of `assign`: collects every operand. */
  function AssignLoop(ts: seq<Token>, st: PState, operands: seq<Expr>): (r: Reply<seq<Expr>>)
    requires Valid(ts, st) && |operands| >= 1
    decreases |ts| - st.cursor, 8
    ensures Follows(ts, st, r.st)
    ensures r.node.Some? ==> |r.node.value| >= |operands| && r.node.value[..|operands|] == operands
    ensures r.node.Some? ==> ts[r.st.cursor].kind != Operator(Assign)
    ensures ts[st.cursor].kind != Operator(Assign) ==> r == Reply(Some(operands), st)
    ensures r.node.Some? && (forall i :: 0 <= i < |operands| ==> AddSubShape(operands[i])) ==>
      forall i :: 0 <= i < |r.node.value| ==> AddSubShape(r.node.value[i])
  {
    var eq := Accept(ts, st, Operator(Assign));
    if eq.tok.None? then Reply(Some(operands), st)
    else
      var rhs := PAddSub(ts, eq.st);
      if rhs.node.None? then Reply(None, AddError(ts, rhs.st, ButGot(ExpectedExpression, Current(ts, rhs.st))))
      else AssignLoop(ts, rhs.st, operands + [rhs.node.value])
  }

  /**
   * How `assign` builds its node: the last operand becomes the result, the
   * remaining operands are reversed, and each in turn becomes the right-hand
   * side of a new assignment whose left-hand side is the result so far.
   */
  function FoldAssign(operands: seq<Expr>): Expr
    requires |operands| >= 1
  {
    FoldFrom(operands[|operands| - 1], Reverse(operands[..|operands| - 1]))
  }

  function FoldFrom(result: Expr, rest: seq<Expr>): Expr
    decreases |rest|
  {
    if rest == [] then result else FoldFrom(BinaryOperation(Operator(Assign), result, rest[0]), rest[1..])
  }

  function Reverse<T>(s: seq<T>): (r: seq<T>)
    ensures |r| == |s|
  {
    if s == [] then [] else Reverse(s[1..]) + [s[0]]
  }

  lemma {:induction false} ReverseAppend<T>(s: seq<T>, t: seq<T>)
    ensures Reverse(s + t) == Reverse(t) + Reverse(s)
    decreases |s|
  {
    if s == [] {
      assert s + t == t;
    } else {
      assert (s + t)[1..] == s[1..] + t;
      ReverseAppend(s[1..], t);
    }
  }

  lemma {:induction false} ReverseReverse<T>(s: seq<T>)
    ensures Reverse(Reverse(s)) == s
    decreases |s|
  {
    if s != [] {
      ReverseAppend(Reverse(s[1..]), [s[0]]);
      ReverseReverse(s[1..]);
      assert Reverse([s[0]]) == [s[0]];
    }
  }

  /**
   * What FoldFrom builds: every element of `rest` is stacked as the right
   * operand of a new `=` node above `result`, so the first one ends up
   * innermost and the last one outermost.
   */
  lemma {:induction false} FoldFromShape(result: Expr, rest: seq<Expr>)
    requires AssignShape(result)
    requires forall i :: 0 <= i < |rest| ==> AddSubShape(rest[i])
    ensures AssignShape(FoldFrom(result, rest))
    ensures AssignDepth(FoldFrom(result, rest)) == AssignDepth(result) + |rest|
    ensures Innermost(FoldFrom(result, rest)) == Innermost(result)
    ensures RhsChain(FoldFrom(result, rest)) == Reverse(rest) + RhsChain(result)
    decreases |rest|
  {
    if rest != [] {
      var next := BinaryOperation(Operator(Assign), result, rest[0]);
      assert AddSubShape(rest[0]);
      FoldFromShape(next, rest[1..]);
    }
  }

  /**
   * The tree `assign` builds from operands `a0 = a1 = ... = ak`: exactly k
   * nested `=` nodes, the last operand `ak` innermost on the left, and the
   * right operands `a0, ..., a(k-1)` from the outermost node inwards.
   */
  lemma FoldAssignShape(operands: seq<Expr>)
    requires |operands| >= 1
    requires forall i :: 0 <= i < |operands| ==> AddSubShape(operands[i])
    ensures AssignShape(FoldAssign(operands))
    ensures AssignDepth(FoldAssign(operands)) == |operands| - 1
    ensures Innermost(FoldAssign(operands)) == operands[|operands| - 1]
    ensures RhsChain(FoldAssign(operands)) == operands[..|operands| - 1]
  {
    var last := operands[|operands| - 1];
    var rest := Reverse(operands[..|operands| - 1]);
    assert AddSubShape(last);
    assert !IsAssignNode(last);
    forall i | 0 <= i < |rest|
      ensures AddSubShape(rest[i])
    {
      ReverseElement(operands[..|operands| - 1], i);
    }
    FoldFromShape(last, rest);
    ReverseReverse(operands[..|operands| - 1]);
  }

  lemma {:induction false} ReverseElement<T>(s: seq<T>, i: int)
    requires 0 <= i < |s|
    ensures Reverse(s)[i] == s[|s| - 1 - i]
    decreases |s|
  {
    if i < |s| - 1 {
      ReverseElement(s[1..], i);
    }
  }

  /** `addsub`: `muldiv ( (+|-) muldiv )*`, folded to the left. */
  function PAddSub(ts: seq<Token>, st: PState): (r: Reply<Expr>)
    requires Valid(ts, st)
    decreases |ts| - st.cursor, 7
    ensures Follows(ts, st, r.st)
    ensures r.node.Some? ==> st.cursor < r.st.cursor
    ensures r.node.Some? ==> AddSubShape(r.node.value)
  {
    var l := PMulDiv(ts, st);
    if l.node.None? then Reply(None, l.st) else AddSubLoop(ts, l.st, l.node.value)
  }

  function AddSubLoop(ts: seq<Token>, st: PState, lhs: Expr): (r: Reply<Expr>)
    requires Valid(ts, st)
    decreases |ts| - st.cursor, 6
    ensures Follows(ts, st, r.st)
    ensures AddSubShape(lhs) && r.node.Some? ==> AddSubShape(r.node.value)
  {
    var op := ts[st.cursor].kind;
    if !IsAddOp(op) then Reply(Some(lhs), st)
    else
      var rhs := PMulDiv(ts, st.(cursor := st.cursor + 1));
      if rhs.node.None? then Reply(None, AddError(ts, rhs.st, ButGot(ExpectedExpression, Current(ts, rhs.st))))
      else AddSubLoop(ts, rhs.st, BinaryOperation(op, lhs, rhs.node.value))
  }

  /** `muldiv`: `func_call ( (*|/) number )*`; the right operand must be a decimal literal. */
  function PMulDiv(ts: seq<Token>, st: PState): (r: Reply<Expr>)
    requires Valid(ts, st)
    decreases |ts| - st.cursor, 5
    ensures Follows(ts, st, r.st)
    ensures r.node.Some? ==> st.cursor < r.st.cursor
    ensures r.node.Some? ==> MulDivShape(r.node.value)
  {
    var l := PFuncCall(ts, st);
    if l.node.None? then Reply(None, l.st) else MulDivLoop(ts, l.st, l.node.value)
  }

  function MulDivLoop(ts: seq<Token>, st: PState, lhs: Expr): (r: Reply<Expr>)
    requires Valid(ts, st)
    decreases |ts| - st.cursor, 4
    ensures Follows(ts, st, r.st)
    ensures MulDivShape(lhs) && r.node.Some? ==> MulDivShape(r.node.value)
    ensures IsMulOp(ts[st.cursor].kind) && ts[st.cursor + 1].kind != DecInteger ==>
      r == Reply(None, AddError(ts, st.(cursor := st.cursor + 1), ButGot(ExpectedExpression, ts[st.cursor + 1])))
  {
    var op := ts[st.cursor].kind;
    if !IsMulOp(op) then Reply(Some(lhs), st)
    else
      var rhs := PNumber(ts, st.(cursor := st.cursor + 1));
      if rhs.node.None? then Reply(None, AddError(ts, rhs.st, ButGot(ExpectedExpression, Current(ts, rhs.st))))
      else MulDivLoop(ts, rhs.st, BinaryOperation(op, lhs, rhs.node.value))
  }

  /**
   * `func_call`: an atom that must be an identifier followed by `( args )`.
   * A numeric atom records an error; an identifier without `(` fails silently.
   */
  function PFuncCall(ts: seq<Token>, st: PState): (r: Reply<Expr>)
    requires Valid(ts, st)
    decreases |ts| - st.cursor, 3
    ensures Follows(ts, st, r.st)
    ensures r.node.Some? ==> st.cursor < r.st.cursor
    ensures r.node.Some? ==>
      ts[st.cursor].kind == Ident && ts[st.cursor + 1].kind == LParen && r.node.value.FunctionCallOperation?
    ensures ts[st.cursor].kind == DecInteger ==>
      r == Reply(None, AddError(ts, st.(cursor := st.cursor + 1), Todo))
    ensures ts[st.cursor].kind == Ident && ts[st.cursor + 1].kind != LParen ==>
      r == Reply(None, st.(cursor := st.cursor + 1))
  {
    var a := PAtom(ts, st);
    if a.node.None? then Reply(None, a.st)
    else if !a.node.value.Identifier? then Reply(None, AddError(ts, a.st, Todo))
    else
      var lp := Accept(ts, a.st, LParen);
      if lp.tok.Some? then ArgLoop(ts, lp.st, a.node.value, [])
      else Reply(None, a.st)
  }

  /**
   * The argument loop of `func_call`. It never accepts `,`; an iteration in
   * which neither an expression nor `)` moves the cursor would repeat forever
   * in the source, and fails here instead.
   */
  function ArgLoop(ts: seq<Token>, st: PState, callee: Expr, args: seq<Expr>): (r: Reply<Expr>)
    requires Valid(ts, st)
    decreases |ts| - st.cursor + 1, 0
    ensures Follows(ts, st, r.st)
    ensures r.node.Some? ==> st.cursor < r.st.cursor && r.node.value.FunctionCallOperation?
    ensures r.node.Some? ==> r.node.value.funcExpr == callee && args <= r.node.value.argument && After(ts, r.st, RParen)
  {
    var e := PAssign(ts, st);
    if e.node.Some? then
      var rp := Accept(ts, e.st, RParen);
      if rp.tok.Some? then Reply(Some(FunctionCallOperation(callee, args + [e.node.value])), rp.st)
      else ArgLoop(ts, e.st, callee, args + [e.node.value])
    else
      var rp := Accept(ts, e.st, RParen);
      if rp.tok.Some? then Reply(Some(FunctionCallOperation(callee, args)), rp.st)
      else if e.st.cursor == st.cursor then Reply(None, e.st)
      else ArgLoop(ts, e.st, callee, args)
  }

  /** `atom`: a number, else an identifier. */
  function PAtom(ts: seq<Token>, st: PState): (r: Reply<Expr>)
    requires Valid(ts, st)
    decreases |ts| - st.cursor, 2
    ensures Follows(ts, st, r.st) && r.st.errors == st.errors
    ensures r.node.Some? <==> ts[st.cursor].kind == DecInteger || ts[st.cursor].kind == Ident
    ensures r.node.Some? ==> r.st.cursor == st.cursor + 1
    ensures r.node.None? ==> r.st == st
  {
    var n := PNumber(ts, st);
    if n.node.Some? then n else PIdentifier(ts, st)
  }

  function PNumber(ts: seq<Token>, st: PState): (r: Reply<Expr>)
    requires Valid(ts, st)
    decreases |ts| - st.cursor, 1
    ensures Valid(ts, r.st) && r.st.errors == st.errors
    ensures r.node.Some? <==> ts[st.cursor].kind == DecInteger
    ensures r.node.Some? ==> r.node == Some(Integer32(Stoi(ts[st.cursor].data))) && r.st.cursor == st.cursor + 1
    ensures r.node.None? ==> r.st == st
  {
    var a := Accept(ts, st, DecInteger);
    if a.tok.Some? then Reply(Some(Integer32(Stoi(a.tok.value.data))), a.st) else Reply(None, st)
  }

  function PIdentifier(ts: seq<Token>, st: PState): (r: Reply<Expr>)
    requires Valid(ts, st)
    decreases |ts| - st.cursor, 1
    ensures Valid(ts, r.st) && r.st.errors == st.errors
    ensures r.node.Some? <==> ts[st.cursor].kind == Ident
    ensures r.node.Some? ==> r.node == Some(Identifier(ts[st.cursor].data)) && r.st.cursor == st.cursor + 1
    ensures r.node.None? ==> r.st == st
  {
    var a := Accept(ts, st, Ident);
    if a.tok.Some? then Reply(Some(Identifier(a.tok.value.data)), a.st) else Reply(None, st)
  }

  // ---------------------------------------------------------------------------
  // Shapes of the expression trees the productions build
  // ---------------------------------------------------------------------------

  /** A `muldiv` tree: a call, or a `*`/`/` node whose right operand is a literal, nested to the left. */
  predicate MulDivShape(e: Expr)
  {
    e.FunctionCallOperation? ||
    (e.BinaryOperation? && IsMulOp(e.op) && MulDivShape(e.lhs) && e.rhs.Integer32?)
  }

  /**
   * An `addsub` tree: a `muldiv` tree, or a `+`/`-` node whose right operand
   * is a `muldiv` tree. The right operand of `+`/`-` is never itself a `+`/`-`
   * node, so the operators associate to the left.
   */
  predicate AddSubShape(e: Expr)
  {
    MulDivShape(e) ||
    (e.BinaryOperation? && IsAddOp(e.op) && AddSubShape(e.lhs) && MulDivShape(e.rhs))
  }

  predicate IsAssignNode(e: Expr)
  {
    e.BinaryOperation? && e.op == Operator(Assign)
  }

  /** An `assign` tree: `addsub` trees joined by `=` nodes nested on their left operand. */
  predicate AssignShape(e: Expr)
  {
    AddSubShape(e) || (IsAssignNode(e) && AssignShape(e.lhs) && AddSubShape(e.rhs))
  }

  /** How many `=` nodes are stacked along the left spine. */
  function AssignDepth(e: Expr): nat
  {
    if IsAssignNode(e) then 1 + AssignDepth(e.lhs) else 0
  }

  /** The node at the bottom of the left spine of `=` nodes. */
  function Innermost(e: Expr): Expr
  {
    if IsAssignNode(e) then Innermost(e.lhs) else e
  }

  /** The right operands along the left spine of `=` nodes, outermost first. */
  function RhsChain(e: Expr): seq<Expr>
  {
    if IsAssignNode(e) then [e.rhs] + RhsChain(e.lhs) else []
  }

  // ---------------------------------------------------------------------------
  // Types
  // ---------------------------------------------------------------------------

  /**
   * `simple_type`. `int`, `signed`, `signed int` give signed int; `unsigned`
   * and `unsigned int` give unsigned int; `void` gives void. The `char`,
   * `short` and `long` spellings are consumed and fail without a diagnostic.
   */
  function PSimpleType(ts: seq<Token>, st: PState): (r: Reply<TypeNode>)
    requires Valid(ts, st)
    decreases |ts| - st.cursor, 0
    ensures Valid(ts, r.st) && st.cursor <= r.st.cursor && r.st.errors == st.errors
    ensures r.node.Some? ==> st.cursor < r.st.cursor
    ensures r.node.Some? ==> r.node.value.SimpleType?
    ensures r.node.Some? ==> r.node.value.identifier == "int" || r.node.value == SimpleType("void", false)
  {
    var k := ts[st.cursor].kind;
    var next := st.(cursor := st.cursor + 1);
    if k == Unsigned then SignTail(ts, next, true)
    else if k == Signed then SignTail(ts, next, false)
    else if k == Int then Reply(Some(SimpleType("int", false)), next)
    else if k == Void then Reply(Some(SimpleType("void", false)), next)
    else if k == Char || k == Short || k == Long then Reply(None, next)
    else Reply(None, st)
  }

  /** What follows `unsigned` or `signed`: `char`/`short`/`long` fail, `int` or nothing give int. */
  function SignTail(ts: seq<Token>, st: PState, isUnsigned: bool): (r: Reply<TypeNode>)
    requires Valid(ts, st)
    ensures Valid(ts, r.st) && st.cursor <= r.st.cursor <= st.cursor + 1 && r.st.errors == st.errors
    ensures r.node.Some? ==> r.node.value == SimpleType("int", isUnsigned)
  {
    var k := ts[st.cursor].kind;
    var next := st.(cursor := st.cursor + 1);
    if k == Int then Reply(Some(SimpleType("int", isUnsigned)), next)
    else if k == Char || k == Short || k == Long then Reply(None, next)
    else Reply(Some(SimpleType("int", isUnsigned)), st)
  }
}
