/**
 * The pure parts of the operation nodes: the spelling of operator tokens,
 * compile-time evaluation of constant expressions, and the arithmetic
 * promotion table that gives a binary operation its result type.
 */
module Operation {
  import opened Wrappers
  import opened Tokens
  import opened Ast

  // ---------------------------------------------------------------------
  // operator_string
  // ---------------------------------------------------------------------

  /** The source spelling of an operator token; every other token spells as "". */
  function OperatorString(k: TokenType): (s: string)
    ensures s == "" <==> !k.Operator?
    ensures k.Operator? ==> 1 <= |s| <= 3
  {
    match k
    case Operator(op) => (
      match op
      case Plus => "+"
      case Increment => "++"
      case PlusAssign => "+="
      case Minus => "-"
      case Decrement => "--"
      case MinusAssign => "-="
      case Multiply => "*"
      case MultiplyAssign => "*="
      case Divide => "/"
      case DivideAssign => "/="
      case Modulo => "%"
      case ModuloAssign => "%="
      case Assign => "="
      case Equal => "=="
      case NotEq => "!="
      case Greater => ">"
      case EqGreater => ">="
      case Less => "<"
      case EqLess => "<="
      case LogicAnd => "&&"
      case LogicOr => "||"
      case BitNot => "~"
      case BitAnd => "&"
      case BitAndAssign => "&="
      case BitOr => "|"
      case BitOrAssign => "|="
      case BitXor => "^"
      case BitXorAssign => "^="
      case BitLShift => "<<"
      case BitLShiftAssign => "<<="
      case BitRShift => ">>"
      case BitRShiftAssign => ">>="
      case Dot => ".")
    case _ => ""
  }

  /** The operator a spelling denotes, if any: the inverse of `OperatorString`. */
  function OperatorNamed(s: string): Option<Op>
  {
    match s
    case "+" => Some(Plus)
    case "++" => Some(Increment)
    case "+=" => Some(PlusAssign)
    case "-" => Some(Minus)
    case "--" => Some(Decrement)
    case "-=" => Some(MinusAssign)
    case "*" => Some(Multiply)
    case "*=" => Some(MultiplyAssign)
    case "/" => Some(Divide)
    case "/=" => Some(DivideAssign)
    case "%" => Some(Modulo)
    case "%=" => Some(ModuloAssign)
    case "=" => Some(Assign)
    case "==" => Some(Equal)
    case "!=" => Some(NotEq)
    case ">" => Some(Greater)
    case ">=" => Some(EqGreater)
    case "<" => Some(Less)
    case "<=" => Some(EqLess)
    case "&&" => Some(LogicAnd)
    case "||" => Some(LogicOr)
    case "~" => Some(BitNot)
    case "&" => Some(BitAnd)
    case "&=" => Some(BitAndAssign)
    case "|" => Some(BitOr)
    case "|=" => Some(BitOrAssign)
    case "^" => Some(BitXor)
    case "^=" => Some(BitXorAssign)
    case "<<" => Some(BitLShift)
    case "<<=" => Some(BitLShiftAssign)
    case ">>" => Some(BitRShift)
    case ">>=" => Some(BitRShiftAssign)
    case "." => Some(Dot)
    case _ => None
  }

  /** Reading back the spelling of an operator gives the operator. */
  lemma OperatorStringRoundTrip(op: Op)
    ensures OperatorNamed(OperatorString(Operator(op))) == Some(op)
  {
  }

  /** Every spelling that names an operator is that operator's spelling. */
  lemma OperatorNamedSound(s: string)
    ensures OperatorNamed(s).Some? ==> OperatorString(Operator(OperatorNamed(s).value)) == s
  {
  }

  /** No two operators share a spelling. */
  lemma OperatorStringInjective(a: Op, b: Op)
    ensures OperatorString(Operator(a)) == OperatorString(Operator(b)) ==> a == b
  {
    OperatorStringRoundTrip(a);
    OperatorStringRoundTrip(b);
  }

  // ---------------------------------------------------------------------
  // evaluate
  // ---------------------------------------------------------------------

  /**
   * One arithmetic step on the values `evaluate` computes with; it may fail
   * (division is the case that can). The helpers that perform it are not
   * part of this model, so the step is a parameter.
   */
  type Arith = (Op, int, int) -> Option<int>

  /** The four operators `BinaryOperation::evaluate` folds. */
  predicate IsFoldedOp(k: TokenType)
  {
    k == Operator(Plus) || k == Operator(Minus) || k == Operator(Multiply) || k == Operator(Divide)
  }

  /** The two operators `UnaryOperation::evaluate` folds. */
  predicate IsSignOp(k: TokenType)
  {
    k == Operator(Plus) || k == Operator(Minus)
  }

  /**
   * Compile-time evaluation: the value the node's `evaluate` writes to its
   * out-parameter, or `None` when it returns false and leaves it untouched.
   * An `Integer32` yields its value (widening to 64 bits keeps it); operations
   * fold only when every operand folds; every other node keeps the default
   * of the expression base class and fails.
   */
  function Evaluate(e: Expr, arith: Arith): (r: Option<int>)
  {
    match e
    case Integer32(data) => Some(data)
    case BinaryOperation(op, lhs, rhs) =>
      var l := Evaluate(lhs, arith);
      var r := Evaluate(rhs, arith);
      if l.Some? && r.Some? && IsFoldedOp(op) then arith(op.op, l.value, r.value) else None
    case UnaryOperation(op, rhs) =>
      var v := Evaluate(rhs, arith);
      if v.Some? && IsSignOp(op) then arith(op.op, 0, v.value) else None
    case _ => None
  }

  /**
   * The expressions built only from integer literals with `+ - * /` and the
   * signs `+ -`: an independent, syntactic description of the constants.
   */
  predicate IsConstant(e: Expr)
  {
    match e
    case Integer32(_) => true
    case BinaryOperation(op, lhs, rhs) => IsFoldedOp(op) && IsConstant(lhs) && IsConstant(rhs)
    case UnaryOperation(op, rhs) => IsSignOp(op) && IsConstant(rhs)
    case _ => false
  }

  /** An arithmetic step that never fails. */
  ghost predicate Total(arith: Arith)
  {
    forall op, a, b :: arith(op, a, b).Some?
  }

  /** When no arithmetic step fails, exactly the constant expressions evaluate. */
  lemma {:induction false} EvaluatesIffConstant(e: Expr, arith: Arith)
    requires Total(arith)
    ensures Evaluate(e, arith).Some? <==> IsConstant(e)
  {
    match e
    case Integer32(_) =>
    case BinaryOperation(op, lhs, rhs) =>
      EvaluatesIffConstant(lhs, arith);
      EvaluatesIffConstant(rhs, arith);
      if IsFoldedOp(op) && IsConstant(lhs) && IsConstant(rhs) {
        var a, b := Evaluate(lhs, arith).value, Evaluate(rhs, arith).value;
        assert arith(op.op, a, b).Some?;
      }
    case UnaryOperation(op, rhs) =>
      EvaluatesIffConstant(rhs, arith);
      if IsSignOp(op) && IsConstant(rhs) {
        var v := Evaluate(rhs, arith).value;
        assert arith(op.op, 0, v).Some?;
      }
    case _ =>
  }

  /** Whatever the arithmetic, only constant expressions can evaluate. */
  lemma {:induction false} EvaluatesOnlyConstants(e: Expr, arith: Arith)
    ensures Evaluate(e, arith).Some? ==> IsConstant(e)
  {
    match e
    case BinaryOperation(op, lhs, rhs) =>
      EvaluatesOnlyConstants(lhs, arith);
      EvaluatesOnlyConstants(rhs, arith);
    case UnaryOperation(op, rhs) =>
      EvaluatesOnlyConstants(rhs, arith);
    case _ =>
  }

  /** A tree that reaches an identifier or a call through operations. */
  predicate MentionsName(e: Expr)
  {
    match e
    case Identifier(_) => true
    case FunctionCallOperation(_, _) => true
    case BinaryOperation(_, lhs, rhs) => MentionsName(lhs) || MentionsName(rhs)
    case UnaryOperation(_, rhs) => MentionsName(rhs)
    case _ => false
  }

  /** Identifiers and calls are never compile-time constants, nor is anything built on one. */
  lemma {:induction false} NamesNeverEvaluate(e: Expr, arith: Arith)
    requires MentionsName(e)
    ensures Evaluate(e, arith).None?
  {
    match e
    case BinaryOperation(_, lhs, rhs) =>
      if MentionsName(lhs) { NamesNeverEvaluate(lhs, arith); } else { NamesNeverEvaluate(rhs, arith); }
    case UnaryOperation(_, rhs) =>
      NamesNeverEvaluate(rhs, arith);
    case _ =>
  }

  /** A sign folds as the binary operation with a zero left operand. */
  lemma SignIsZeroOperand(op: Op, x: Expr, arith: Arith)
    requires op == Plus || op == Minus
    ensures Evaluate(UnaryOperation(Operator(op), x), arith)
         == Evaluate(BinaryOperation(Operator(op), Integer32(0), x), arith)
  {
  }

  /** The result of a folded operation is exactly the arithmetic step on the folded operands. */
  lemma BinaryFolds(op: Op, lhs: Expr, rhs: Expr, arith: Arith, a: int, b: int)
    requires Evaluate(lhs, arith) == Some(a) && Evaluate(rhs, arith) == Some(b)
    ensures Evaluate(BinaryOperation(Operator(op), lhs, rhs), arith)
         == if IsFoldedOp(Operator(op)) then arith(op, a, b) else None
  {
  }
}

/**
 * The arithmetic promotion table of `BinaryOperation::code_gen` and the
 * `type_inf` lookup that gives an arithmetic result its type.
 */
module Promotion {
  import opened Wrappers
  import opened Ast

  // ---------------------------------------------------------------------
  // The promotion table and type_inf
  // ---------------------------------------------------------------------

  /** The arithmetic type names of the promotion table. */
  datatype Prim =
    | Char | Byte | SignedByte | Short | UnsignedShort | Int | UnsignedInt | Long | UnsignedLong
    | Half | Single | Double

  predicate IsInteger(p: Prim)
  {
    !(p.Half? || p.Single? || p.Double?)
  }

  /** The name under which the table lists a type. */
  function TypeName(p: Prim): string
  {
    match p
    case Char => "char"
    case Byte => "byte"
    case SignedByte => "signed byte"
    case Short => "short"
    case UnsignedShort => "unsigned short"
    case Int => "int"
    case UnsignedInt => "unsigned int"
    case Long => "long"
    case UnsignedLong => "unsigned long"
    case Half => "half"
    case Single => "single"
    case Double => "double"
  }

  /** The type a table name denotes, if it is one. */
  function PrimNamed(s: string): Option<Prim>
  {
    match s
    case "char" => Some(Char)
    case "byte" => Some(Byte)
    case "signed byte" => Some(SignedByte)
    case "short" => Some(Short)
    case "unsigned short" => Some(UnsignedShort)
    case "int" => Some(Int)
    case "unsigned int" => Some(UnsignedInt)
    case "long" => Some(Long)
    case "unsigned long" => Some(UnsignedLong)
    case "half" => Some(Half)
    case "single" => Some(Single)
    case "double" => Some(Double)
    case _ => None
  }

  lemma TypeNameRoundTrip(p: Prim)
    ensures PrimNamed(TypeName(p)) == Some(p)
  {
  }

  lemma PrimNamedSound(s: string)
    ensures PrimNamed(s).Some? ==> TypeName(PrimNamed(s).value) == s
  {
  }

  /**
   * The promotion table: the result type of an arithmetic operation on a
   * left operand of type `a` and a right operand of type `b`, or `None`
   * for a pair the table does not list.
   */
  function Promote(a: Prim, b: Prim): Option<Prim>
  {
    match a
    case Char =>
      Some(b)
    case Byte =>
      Some(if b == Char || b == SignedByte then Byte else b)
    case SignedByte =>
      Some(if b == Char then SignedByte else b)
    case Short =>
      if b == Half then None
      else Some(if b == Char || b == Byte || b == SignedByte then Short else b)
    case UnsignedShort =>
      if b == Half then None
      else Some(if b == Char || b == Byte || b == Short || b == SignedByte then UnsignedShort else b)
    case Int =>
      if b == Half || b == Single then None
      else Some(if b == UnsignedInt || b == Long || b == UnsignedLong || b == Double then b else Int)
    case UnsignedInt =>
      if b == Half || b == Single then None
      else Some(if b == Long || b == UnsignedLong || b == Double then b else UnsignedInt)
    case Long =>
      if !IsInteger(b) then None
      else Some(if b == UnsignedLong then UnsignedLong else Long)
    case UnsignedLong =>
      if !IsInteger(b) then None else Some(UnsignedLong)
    case Half =>
      if b == Char || b == Byte || b == SignedByte then Some(Half) else None
    case Single =>
      if b == Char || b == Byte || b == Short || b == SignedByte || b == UnsignedShort then Some(Single)
      else None
    case Double =>
      if b == Int then Some(Int)
      else if b == Char || b == Byte || b == Short || b == SignedByte || b == UnsignedShort || b == UnsignedInt
      then Some(Double)
      else None
  }

  /** The order in which integer types absorb one another. */
  function IntegerRank(p: Prim): nat
    requires IsInteger(p)
  {
    match p
    case Char => 0
    case SignedByte => 1
    case Byte => 2
    case Short => 3
    case UnsignedShort => 4
    case Int => 5
    case UnsignedInt => 6
    case Long => 7
    case UnsignedLong => 8
  }

  /** The higher-ranked of two integer types. */
  function MaxRank(a: Prim, b: Prim): Prim
    requires IsInteger(a) && IsInteger(b)
  {
    if IntegerRank(a) >= IntegerRank(b) then a else b
  }

  /** On integer types the table is defined everywhere and picks the higher-ranked operand type. */
  lemma IntegerPromotionIsMaxRank(a: Prim, b: Prim)
    requires IsInteger(a) && IsInteger(b)
    ensures Promote(a, b) == Some(MaxRank(a, b))
  {
  }

  /** Every integer type paired with itself maps to itself. */
  lemma IntegerDiagonal(a: Prim)
    requires IsInteger(a)
    ensures Promote(a, a) == Some(a)
  {
    IntegerPromotionIsMaxRank(a, a);
  }

  /** On integer types the table is symmetric. */
  lemma IntegerPromotionSymmetric(a: Prim, b: Prim)
    requires IsInteger(a) && IsInteger(b)
    ensures Promote(a, b) == Promote(b, a)
  {
    IntegerPromotionIsMaxRank(a, b);
    IntegerPromotionIsMaxRank(b, a);
  }

  /** `unsigned long` absorbs every integer type, on either side. */
  lemma UnsignedLongAbsorbs(a: Prim)
    requires IsInteger(a)
    ensures Promote(a, UnsignedLong) == Some(UnsignedLong)
    ensures Promote(UnsignedLong, a) == Some(UnsignedLong)
  {
    IntegerPromotionIsMaxRank(a, UnsignedLong);
    IntegerPromotionIsMaxRank(UnsignedLong, a);
  }

  /** `long` absorbs every narrower integer type, signed or unsigned, on either side. */
  lemma LongAbsorbsNarrower(a: Prim)
    requires IsInteger(a) && a != UnsignedLong
    ensures Promote(a, Long) == Some(Long)
    ensures Promote(Long, a) == Some(Long)
  {
    IntegerPromotionIsMaxRank(a, Long);
    IntegerPromotionIsMaxRank(Long, a);
  }

  /** The table is not symmetric once a floating type is involved: `int`×`double` and `double`×`int` differ. */
  lemma IntDoubleAsymmetric()
    ensures Promote(Int, Double) == Some(Double)
    ensures Promote(Double, Int) == Some(Int)
  {
  }

  /** No floating type is listed with itself, and `long`/`unsigned long` with no floating type. */
  lemma FloatGaps(f: Prim)
    requires !IsInteger(f)
    ensures Promote(f, f).None?
    ensures Promote(Long, f).None? && Promote(UnsignedLong, f).None?
  {
  }

  /** Every listed result is the type of one of the two operands. */
  lemma PromoteChoosesOperand(a: Prim, b: Prim)
    ensures Promote(a, b).Some? ==> Promote(a, b).value == a || Promote(a, b).value == b
  {
  }

  /** The type node a table result stands for: the name split into its identifier and `unsigned` flag. */
  function PrimType(p: Prim): TypeNode
  {
    match p
    case UnsignedShort => SimpleType("short", true)
    case UnsignedInt => SimpleType("int", true)
    case UnsignedLong => SimpleType("long", true)
    case _ => SimpleType(TypeName(p), false)
  }

  /** The name a value's type is looked up under: "unsigned " marks an unsigned simple type; anything else is "". */
  function SimpleTypeName(t: Option<TypeNode>): string
  {
    if t.Some? && t.value.SimpleType? then
      (if t.value.isUnsigned then "unsigned " else "") + t.value.identifier
    else ""
  }

  lemma PrimTypeNamed(p: Prim)
    ensures SimpleTypeName(Some(PrimType(p))) == TypeName(p)
  {
  }

  /**
   * The outcome of `type_inf`: a result type; no type (`nullptr`) when an
   * operand's type is not an arithmetic type; or a lookup of a pair the table
   * does not list, for which the map lookup throws.
   */
  datatype Inference = Inferred(ty: TypeNode) | Untyped | MissingPair

  function TypeInf(lhs: Option<TypeNode>, rhs: Option<TypeNode>): Inference
  {
    var a := PrimNamed(SimpleTypeName(lhs));
    var b := PrimNamed(SimpleTypeName(rhs));
    if a.None? || b.None? then Untyped
    else if Promote(a.value, b.value).None? then MissingPair
    else Inferred(PrimType(Promote(a.value, b.value).value))
  }

  /** `type_inf` agrees with the table on the types the table's results denote. */
  lemma TypeInfFollowsTable(a: Prim, b: Prim)
    ensures TypeInf(Some(PrimType(a)), Some(PrimType(b)))
         == if Promote(a, b).None? then MissingPair else Inferred(PrimType(Promote(a, b).value))
  {
    PrimTypeNamed(a);
    PrimTypeNamed(b);
    TypeNameRoundTrip(a);
    TypeNameRoundTrip(b);
  }

  /** Two `int` operands give an `int` result, as for `1 + 2`. */
  lemma IntPlusInt()
    ensures TypeInf(Some(IntType), Some(IntType)) == Inferred(IntType)
  {
    TypeInfFollowsTable(Int, Int);
  }

  /** An operand with no simple type makes the result untyped. */
  lemma UntypedOperand(t: Option<TypeNode>)
    ensures TypeInf(None, t) == Untyped && TypeInf(t, None) == Untyped
  {
  }
}
