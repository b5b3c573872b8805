/**
 * The abstract syntax tree: type nodes, expressions and statements, with the
 * default node predicates of the AST root classes.
 */
module Ast {
  import opened Wrappers
  import opened Tokens

  /** Type nodes. A pointer made by the `&` operator may have no pointee type. */
  datatype TypeNode =
    | SimpleType(identifier: string, isUnsigned: bool)
    | Pointer(pointee: Option<TypeNode>)
    | LValueReference(referent: TypeNode)

  datatype Expr =
    | Integer32(data: int)
    | Identifier(id: string)
    | BinaryOperation(op: TokenType, lhs: Expr, rhs: Expr)
    | UnaryOperation(op: TokenType, rhs: Expr)
    | FunctionCallOperation(funcExpr: Expr, argument: seq<Expr>)
    | ArrayInitList(elements: seq<Expr>)
    | UnsafeExpression(expression: Expr)

  /** A variable declaration; also the element type of a function's parameter list. */
  datatype VarDecl = VarDecl(ty: TypeNode, identifier: string, expression: Option<Expr>)

  datatype Stmt =
    | VariableDeclaration(decl: VarDecl)
    | FunctionDeclaration(returnType: TypeNode, identifier: string, parameter: seq<VarDecl>, body: Stmt)
    | ReturnStatement(returnExpr: Option<Expr>)
    | ExpressionStatement(expression: Expr)
    | Block(statements: seq<Stmt>)
    | Scope(statements: seq<Stmt>)
    | UnsafeStatement(statement: Stmt)

  const IntType := SimpleType("int", false)
  const VoidType := SimpleType("void", false)

  /** Only an identifier denotes storage; every other node keeps the default `false`. */
  predicate IsLvalue(e: Expr)
  {
    e.Identifier?
  }

  /**
   * A type is safe by default; pointer and reference types are the unsafe
   * ones (their overrides live outside the modelled files).
   */
  predicate TypeIsSafe(t: TypeNode)
  {
    t.SimpleType?
  }

  /** The `type` member an expression node carries: only constants set it. */
  function StaticType(e: Expr): Option<TypeNode>
  {
    if e.Integer32? then Some(IntType) else None
  }
}
