/**
 * The textual tree dump of the AST (`tree_gen`). Every node prints its own
 * lines at its indentation depth and its children deeper. The indentation
 * string of a depth, the names the token map gives operator kinds and the
 * dump of a type node come from outside the modelled files, so they are
 * parameters, gathered in a `Printer`.
 */
module Tree {
  import opened Wrappers
  import opened Tokens
  import opened Ast
  import Operation

  datatype Printer = Printer(
    prefix: nat -> string,                // `tree_prefix(depth)`
    tokenName: TokenType -> string,       // `token_map.at(kind)`
    typeTree: (TypeNode, nat) -> string)  // `Type::tree_gen(depth)`

  // ---------------------------------------------------------------------
  // Decimal text of an integer (`std::to_string`)
  // ---------------------------------------------------------------------

  predicate IsDigit(c: char)
  {
    '0' <= c <= '9'
  }

  function NatString(n: nat): (s: string)
    ensures |s| > 0 && forall i :: 0 <= i < |s| ==> IsDigit(s[i])
  {
    var d := ['0' + (n % 10) as char];
    if n < 10 then d else NatString(n / 10) + d
  }

  function IntString(n: int): string
  {
    if n < 0 then "-" + NatString(-n) else NatString(n)
  }

  /** Reads back a string of decimal digits. */
  function ParseNat(s: string): nat
  {
    if s == [] then 0 else 10 * ParseNat(s[..|s| - 1]) + (s[|s| - 1] as int - '0' as int) % 10
  }

  function ParseInt(s: string): int
  {
    if |s| > 0 && s[0] == '-' then -(ParseNat(s[1..]) as int) else ParseNat(s)
  }

  lemma {:induction false} NatStringRoundTrip(n: nat)
    ensures ParseNat(NatString(n)) == n
  {
    var s := NatString(n);
    if n >= 10 {
      NatStringRoundTrip(n / 10);
      assert s[..|s| - 1] == NatString(n / 10);
    }
  }

  /** The decimal text of an integer reads back as that integer. */
  lemma IntStringRoundTrip(n: int)
    ensures ParseInt(IntString(n)) == n
  {
    if n < 0 {
      NatStringRoundTrip(-n);
      assert IntString(n)[1..] == NatString(-n);
    } else {
      NatStringRoundTrip(n);
      assert IsDigit(NatString(n)[0]);
    }
  }

  // ---------------------------------------------------------------------
  // Expressions
  // ---------------------------------------------------------------------

  const BinaryHeader := "BinaryOperation:\n"
  const UnaryHeader := "UnaryOperation:\n"
  const LhsLabel := "lhs:\n"
  const RhsLabel := "rhs:\n"
  const OpLabel := "op:\n"
  const CallHeader := "FunctionCallOperation:\n"
  const FuncExprLabel := "func_expr:\n"
  const ArgumentLabel := "argument:\n"
  const ArrayHeader := "ArrayInitList:\n"
  const ElementsLabel := "elements:\n"
  const UnsafeExprHeader := "UnsafeExpression:\n"
  const ExpressionLabel := "expression:\n"
  const VarDeclHeader := "VariableDeclaration:\n"
  const TypeLabel := "type:\n"
  const IdentifierLabel := "identifier: "
  const InitLabel := "expression: \n"
  const NoInitLine := "expression: empty"
  const FuncHeader := "FunctionDeclaration:\n"
  const ReturnTypeLabel := "return_type:\n"
  const ParameterLabel := "parameter:"
  const NoParametersLine := " empty\n"
  const BodyLabel := "body:\n"
  const ReturnHeader := "ReturnStatement:\n"
  const EmptyLine := "empty"
  const BlockStart := "Block Start\n"
  const BlockEnd := "Block End"
  const ScopeStart := "Scope Start\n"
  const ScopeEnd := "Scope End"
  const UnsafeStmtHeader := "UnsafeStatement:\n"
  const StatementLabel := "statement:\n"
  const IntegerOpen := "Integer32("
  const IdentifierOpen := "Identifier(\""
  const IdentifierClose := "\")"

  /** The line naming an operator: its spelling, then its token-map name in parentheses. */
  function OperatorLine(op: TokenType, d: nat, p: Printer): string
  {
    p.prefix(d) + Operation.OperatorString(op) + "(" + p.tokenName(op) + ")"
  }

  function ExprTree(e: Expr, d: nat, p: Printer): string
    decreases e, 1
  {
    match e
    case Integer32(data) =>
      p.prefix(d) + IntegerOpen + IntString(data) + ")"
    case Identifier(id) =>
      p.prefix(d) + IdentifierOpen + id + IdentifierClose
    case BinaryOperation(op, lhs, rhs) =>
      p.prefix(d) + BinaryHeader
      + p.prefix(d + 1) + LhsLabel + ExprTree(lhs, d + 2, p) + "\n"
      + p.prefix(d + 1) + RhsLabel + ExprTree(rhs, d + 2, p) + "\n"
      + p.prefix(d + 1) + OpLabel + OperatorLine(op, d + 2, p)
    case UnaryOperation(op, rhs) =>
      p.prefix(d) + UnaryHeader
      + p.prefix(d + 1) + RhsLabel + ExprTree(rhs, d + 2, p) + "\n"
      + p.prefix(d + 1) + OpLabel + OperatorLine(op, d + 2, p)
    case FunctionCallOperation(funcExpr, argument) =>
      p.prefix(d) + CallHeader
      + p.prefix(d + 1) + FuncExprLabel + ExprTree(funcExpr, d + 2, p) + "\n"
      + p.prefix(d + 1) + ArgumentLabel + ExprLines(argument, d + 2, p)
    case ArrayInitList(elements) =>
      p.prefix(d) + ArrayHeader
      + p.prefix(d + 1) + ElementsLabel + ExprLines(elements, d + 2, p)
    case UnsafeExpression(expression) =>
      p.prefix(d) + UnsafeExprHeader
      + p.prefix(d + 1) + ExpressionLabel + ExprTree(expression, d + 2, p)
  }

  /** The dumps of a list of expressions, each followed by a line break. */
  function ExprLines(es: seq<Expr>, d: nat, p: Printer): string
    decreases es, 0
  {
    if es == [] then "" else ExprLines(es[..|es| - 1], d, p) + (ExprTree(es[|es| - 1], d, p) + "\n")
  }

  // ---------------------------------------------------------------------
  // Statements
  // ---------------------------------------------------------------------

  function VarDeclTree(v: VarDecl, d: nat, p: Printer): string
  {
    p.prefix(d) + VarDeclHeader
    + p.prefix(d + 1) + TypeLabel + p.typeTree(v.ty, d + 2) + "\n"
    + p.prefix(d + 1) + IdentifierLabel + v.identifier + "\n"
    + (if v.expression.Some? then p.prefix(d + 1) + InitLabel + ExprTree(v.expression.value, d + 2, p)
       else p.prefix(d + 1) + NoInitLine)
  }

  /** The dumps of a parameter list, each followed by a line break. */
  function ParamLines(params: seq<VarDecl>, d: nat, p: Printer): string
  {
    if params == [] then "" else ParamLines(params[..|params| - 1], d, p) + (VarDeclTree(params[|params| - 1], d, p) + "\n")
  }

  function StmtTree(s: Stmt, d: nat, p: Printer): string
    decreases s, 1
  {
    match s
    case VariableDeclaration(decl) =>
      VarDeclTree(decl, d, p)
    case FunctionDeclaration(returnType, identifier, parameter, body) =>
      p.prefix(d) + FuncHeader
      + p.prefix(d + 1) + ReturnTypeLabel + p.typeTree(returnType, d + 2) + "\n"
      + p.prefix(d + 1) + IdentifierLabel + identifier + "\n"
      + p.prefix(d + 1) + ParameterLabel + (if parameter == [] then NoParametersLine else "\n" + ParamLines(parameter, d + 2, p))
      + p.prefix(d + 1) + BodyLabel + StmtTree(body, d + 2, p)
    case ReturnStatement(returnExpr) =>
      p.prefix(d) + ReturnHeader
      + (if returnExpr.Some? then ExprTree(returnExpr.value, d + 1, p) else p.prefix(d + 1) + EmptyLine)
    case ExpressionStatement(expression) =>
      ExprTree(expression, d, p)
    case Block(statements) =>
      p.prefix(d) + BlockStart + StmtLines(statements, d + 1, p) + p.prefix(d) + BlockEnd
    case Scope(statements) =>
      p.prefix(d) + ScopeStart + StmtLines(statements, d + 1, p) + p.prefix(d) + ScopeEnd
    case UnsafeStatement(statement) =>
      p.prefix(d) + UnsafeStmtHeader
      + p.prefix(d + 1) + StatementLabel + StmtTree(statement, d + 2, p)
  }

  /** The dumps of a list of statements, each followed by a line break. */
  function StmtLines(ss: seq<Stmt>, d: nat, p: Printer): string
    decreases ss, 0
  {
    if ss == [] then "" else StmtLines(ss[..|ss| - 1], d, p) + (StmtTree(ss[|ss| - 1], d, p) + "\n")
  }

  // ---------------------------------------------------------------------
  // The dumps that build their text in a loop
  // ---------------------------------------------------------------------

  /** `Block::tree_gen` and `Scope::tree_gen`: the header, one entry per statement, the footer. */
  method BlockTree(s: Stmt, d: nat, p: Printer) returns (tree: string)
    requires s.Block? || s.Scope?
    ensures tree == StmtTree(s, d, p)
  {
    var header, footer := if s.Block? then BlockStart else ScopeStart, if s.Block? then BlockEnd else ScopeEnd;
    var entries := "";
    var i := 0;
    while i < |s.statements|
      invariant 0 <= i <= |s.statements|
      invariant entries == StmtLines(s.statements[..i], d + 1, p)
    {
      assert s.statements[..i + 1][..i] == s.statements[..i];
      entries := entries + (StmtTree(s.statements[i], d + 1, p) + "\n");
      i := i + 1;
    }
    assert s.statements[..i] == s.statements;
    tree := p.prefix(d) + header + entries + p.prefix(d) + footer;
  }

  /** The element loop shared by `FunctionCallOperation::tree_gen` and `ArrayInitList::tree_gen`. */
  method Lines(es: seq<Expr>, d: nat, p: Printer) returns (text: string)
    ensures text == ExprLines(es, d, p)
  {
    text := "";
    var i := 0;
    while i < |es|
      invariant 0 <= i <= |es|
      invariant text == ExprLines(es[..i], d, p)
    {
      assert es[..i + 1][..i] == es[..i];
      text := text + (ExprTree(es[i], d, p) + "\n");
      i := i + 1;
    }
    assert es[..i] == es;
  }

  method CallTree(e: Expr, d: nat, p: Printer) returns (tree: string)
    requires e.FunctionCallOperation?
    ensures tree == ExprTree(e, d, p)
  {
    var args := Lines(e.argument, d + 2, p);
    tree := p.prefix(d) + CallHeader
      + p.prefix(d + 1) + FuncExprLabel + ExprTree(e.funcExpr, d + 2, p) + "\n"
      + p.prefix(d + 1) + ArgumentLabel + args;
  }

  method ArrayInitListTree(e: Expr, d: nat, p: Printer) returns (tree: string)
    requires e.ArrayInitList?
    ensures tree == ExprTree(e, d, p)
  {
    var elements := Lines(e.elements, d + 2, p);
    tree := p.prefix(d) + ArrayHeader + p.prefix(d + 1) + ElementsLabel + elements;
  }

  /** The parameter loop of `FunctionDeclaration::tree_gen`. */
  method Parameters(params: seq<VarDecl>, d: nat, p: Printer) returns (text: string)
    ensures text == ParamLines(params, d, p)
  {
    text := "";
    var i := 0;
    while i < |params|
      invariant 0 <= i <= |params|
      invariant text == ParamLines(params[..i], d, p)
    {
      assert params[..i + 1][..i] == params[..i];
      text := text + (VarDeclTree(params[i], d, p) + "\n");
      i := i + 1;
    }
    assert params[..i] == params;
  }

  /** `FunctionDeclaration::tree_gen`. */
  method FunctionTree(s: Stmt, d: nat, p: Printer) returns (tree: string)
    requires s.FunctionDeclaration?
    ensures tree == StmtTree(s, d, p)
  {
    var params := NoParametersLine;
    if |s.parameter| != 0 {
      var lines := Parameters(s.parameter, d + 2, p);
      params := "\n" + lines;
    }
    tree := p.prefix(d) + FuncHeader
      + p.prefix(d + 1) + ReturnTypeLabel + p.typeTree(s.returnType, d + 2) + "\n"
      + p.prefix(d + 1) + IdentifierLabel + s.identifier + "\n"
      + p.prefix(d + 1) + ParameterLabel + params
      + p.prefix(d + 1) + BodyLabel + StmtTree(s.body, d + 2, p);
  }

  // ---------------------------------------------------------------------
  // Properties of the dump
  // ---------------------------------------------------------------------

  /** The dump of a list is the dump of its parts, in order. */
  lemma {:induction false} StmtLinesAppend(a: seq<Stmt>, b: seq<Stmt>, d: nat, p: Printer)
    ensures StmtLines(a + b, d, p) == StmtLines(a, d, p) + StmtLines(b, d, p)
  {
    if b == [] {
      assert a + b == a;
    } else {
      var n := |b| - 1;
      assert (a + b)[..|a + b| - 1] == a + b[..n];
      assert (a + b)[|a + b| - 1] == b[n];
      StmtLinesAppend(a, b[..n], d, p);
      var last := StmtTree(b[n], d, p) + "\n";
      assert StmtLines(a + b, d, p) == StmtLines(a + b[..n], d, p) + last;
      Associative(StmtLines(a, d, p), StmtLines(b[..n], d, p), last);
    }
  }

  lemma Associative(a: string, b: string, c: string)
    ensures a + (b + c) == (a + b) + c
  {
  }

  predicate EndsWith(s: string, t: string)
  {
    |t| <= |s| && s[|s| - |t|..] == t
  }

  /** A declaration without initialiser ends in "expression: empty"; one with an initialiser ends in its dump, two levels deeper. */
  lemma DeclarationExpressionLine(v: VarDecl, d: nat, p: Printer)
    ensures v.expression.None? ==> EndsWith(VarDeclTree(v, d, p), p.prefix(d + 1) + NoInitLine)
    ensures v.expression.Some? ==> EndsWith(VarDeclTree(v, d, p), InitLabel + ExprTree(v.expression.value, d + 2, p))
  {
  }

  /**
   * A function without parameters prints "parameter: empty" just before its
   * body; one with parameters prints "parameter:" and then each parameter,
   * two levels deeper, one per line.
   */
  lemma ParameterLine(rt: TypeNode, f: string, params: seq<VarDecl>, body: Stmt, d: nat, p: Printer)
    ensures var t := StmtTree(FunctionDeclaration(rt, f, params, body), d, p);
      var tail := p.prefix(d + 1) + BodyLabel + StmtTree(body, d + 2, p);
      (params == [] ==> EndsWith(t, p.prefix(d + 1) + ParameterLabel + NoParametersLine + tail))
      && (params != [] ==> EndsWith(t, p.prefix(d + 1) + ParameterLabel + ("\n" + ParamLines(params, d + 2, p)) + tail))
  {
    var q := p.prefix(d + 1);
    var head := p.prefix(d) + FuncHeader + q + ReturnTypeLabel + p.typeTree(rt, d + 2) + "\n" + q + IdentifierLabel + f + "\n";
    var lines := if params == [] then NoParametersLine else "\n" + ParamLines(params, d + 2, p);
    var b := StmtTree(body, d + 2, p);
    var t := StmtTree(FunctionDeclaration(rt, f, params, body), d, p);
    assert t == head + q + ParameterLabel + lines + q + BodyLabel + b;
    SectionsEnd(t, head, q, ParameterLabel, lines, BodyLabel, b);
  }

  /** A dump made of a head and labelled sections ends with those sections. */
  lemma SectionsEnd(t: string, h: string, q: string, a: string, lines: string, c: string, b: string)
    requires t == h + q + a + lines + q + c + b
    ensures EndsWith(t, q + a + lines + (q + c + b))
  {
    var x := q + a + lines;
    var tail := q + c + b;
    assert t == h + x + q + c + b;
    Associative(h + x, q + c, b);
    Associative(h, x, tail);
    SuffixOf(h, x + tail);
  }

  /** A string ends with any string appended to it. */
  lemma SuffixOf(h: string, x: string)
    ensures EndsWith(h + x, x)
  {
    assert (h + x)[|h + x| - |x|..] == x;
  }

  /** A bare return prints "empty" one level deeper. */
  lemma BareReturnTree(d: nat, p: Printer)
    ensures StmtTree(ReturnStatement(None), d, p) == p.prefix(d) + ReturnHeader + p.prefix(d + 1) + EmptyLine
  {
  }
}
