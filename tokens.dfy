/**
 * Tokens as the lexer hands them to the parser, and the diagnostics the
 * parser records. Only the token categories the core distinguishes are named;
 * every other category of the lexer is `OtherToken`.
 */
module Tokens {

  datatype TokenType =
    | Ident | DecInteger
    | LBrace | RBrace | LParen | RParen | Semicolon | Comma
    | Return | Unsigned | Signed | Char | Short | Int | Long | Void
    /** The operator and punctuation tokens that `operator_string` spells. */
    | Operator(op: Op)
    | OtherToken
    /** Sentinel closing every token sequence; no production ever accepts it. */
    | EndOfInput

  datatype Op =
    | Plus | Increment | PlusAssign
    | Minus | Decrement | MinusAssign
    | Multiply | MultiplyAssign
    | Divide | DivideAssign
    | Modulo | ModuloAssign
    | Assign | Equal | NotEq | Greater | EqGreater | Less | EqLess
    | LogicAnd | LogicOr
    | BitNot | BitAnd | BitAndAssign | BitOr | BitOrAssign | BitXor | BitXorAssign
    | BitLShift | BitLShiftAssign | BitRShift | BitRShiftAssign
    | Dot

  /** A token: its category and its literal text (source positions are not modelled). */
  datatype Token = Token(kind: TokenType, data: string)

  /** A diagnostic names the token it is about and carries a message. */
  datatype Diagnostic = Diagnostic(token: Token, message: string)

  /** A token sequence the parser may run over: it ends with the sentinel. */
  predicate WellFormed(ts: seq<Token>)
  {
    |ts| > 0 && ts[|ts| - 1].kind == EndOfInput
  }
}
