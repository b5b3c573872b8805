/**
 * Preprocessing and code generation of the AST against an abstract backend.
 *
 * The backend is an append-only list of instructions; the handle of an
 * instruction's result is its position in that list, so a value "carries the
 * address it was loaded from" by being a handle to a `Load`. The symbol table
 * chain is a sequence of tables whose last element is the current table.
 * Every operation is a total function of the node and the generator state;
 * a thrown error ends compilation, so an error result carries only its
 * message. The class in generator.dfy performs the same steps in place and
 * is proved equal to these functions.
 */
module CodeGen {
  import opened Wrappers
  import opened Tokens
  import opened Ast
  import opened Promotion
  import Operation

  /** A backend value handle. */
  datatype Ir =
    | Null                               // no value, and the null constant of a type
    | Const(n: int)                      // a 32-bit integer constant
    | Inst(index: nat)                   // the result of the instruction at this position of the code
    | Element(base: Ir, path: seq<nat>)  // the address of an element inside the array stored at `base`
    | Argument(name: string)             // an incoming argument of the function being emitted
    | Function(name: string)             // a function object

  datatype Instr =
    | Entry(name: string)                // the entry block of a function starts here
    | Alloca(name: string, ty: TypeNode)
    | Store(value: Ir, addr: Ir)
    | Load(addr: Ir)
    | Arith(op: Op, lhs: Ir, rhs: Ir)    // add, sub, mul and signed div
    | Call(callee: string, args: seq<Ir>)
    | Ret(value: Ir)
    | RetVoid

  /** A generated value paired with the language type it carries, if any. */
  datatype Value = Value(ir: Ir, ty: Option<TypeNode>)

  /** A function object created by preprocessing, with its parameters in declaration order. */
  datatype FunctionSig = FunctionSig(name: string, returnType: TypeNode, params: seq<VarDecl>)

  datatype GenState = GenState(
    tables: seq<map<string, Ir>>,
    unsafe: bool,
    warnings: seq<string>,
    code: seq<Instr>,
    returnType: TypeNode,
    functions: seq<FunctionSig>)

  /** Result of generating a node: its value and the state afterwards. */
  datatype Gen = Gen(value: Value, st: GenState)

  /** Result of generating an argument list: the argument values in order and the state afterwards. */
  datatype Args = Args(irs: seq<Ir>, st: GenState)

  const NoValue := Value(Null, None)

  const ValueReturnInVoid := "Unexpected value return statement in void function"
  const BareReturnInNonVoid := "Expected value return statement in non-void returning function"
  const UnsafeDeclaration := "Unsafe declaration outside of unsafe statement"
  const UninitializedReference := "Expected initialization value in declaration of reference varaible"
  const NotCallable := "Expected callable function expression"
  const NotLvalue := "Expected lvalue for operand of reference operator"
  const RedundantUnsafeExpression := "Unnecessary unsafe expression"
  const RedundantUnsafeStatement := "Unnecessary unsafe statement"
  const NotAnExpression := "Expected expression"
  const NullReturnWarning := "Expected return statement at the end of non-void returning function declaration; null value will be returned"

  /** There is a current table. */
  predicate Valid(st: GenState)
  {
    |st.tables| > 0
  }

  /** Every table of the chain but the current one. */
  function Outer(st: GenState): seq<map<string, Ir>>
    requires Valid(st)
  {
    st.tables[..|st.tables| - 1]
  }

  function Current(st: GenState): map<string, Ir>
    requires Valid(st)
  {
    st.tables[|st.tables| - 1]
  }

  /**
   * What every successful step keeps: code and warnings only grow, the
   * unsafe flag is as before, no function object is created, and only the
   * current table of the chain may change.
   */
  ghost predicate Extends(a: GenState, b: GenState)
  {
    Valid(a) && Valid(b) && a.code <= b.code && a.warnings <= b.warnings && a.unsafe == b.unsafe
    && a.functions == b.functions && |a.tables| == |b.tables| && Outer(a) == Outer(b)
  }

  /** The instructions an expression may emit: it never allocates, returns or opens a function. */
  predicate Straight(i: Instr)
  {
    i.Load? || i.Arith? || i.Store? || i.Call?
  }

  /**
   * What an expression additionally keeps: the whole chain and the function
   * being emitted into; and everything it emits is straight-line code.
   */
  ghost predicate ExprExtends(a: GenState, b: GenState)
  {
    Extends(a, b) && a.tables == b.tables && a.returnType == b.returnType
    && forall k :: |a.code| <= k < |b.code| ==> Straight(b.code[k])
  }

  // ---------------------------------------------------------------------
  // Symbol tables
  // ---------------------------------------------------------------------

  /** Lookup through the chain, from the current table outwards. */
  function Find(tables: seq<map<string, Ir>>, name: string): Option<Ir>
  {
    if |tables| == 0 then None
    else if name in tables[|tables| - 1] then Some(tables[|tables| - 1][name])
    else Find(tables[..|tables| - 1], name)
  }

  /** `map.insert` on the current table: a name already bound there keeps its binding. */
  function Insert(st: GenState, name: string, v: Ir): (st': GenState)
    requires Valid(st)
    ensures Valid(st') && Outer(st') == Outer(st)
    ensures name in Current(st) ==> st' == st
    ensures name !in Current(st) ==> Current(st') == Current(st)[name := v]
  {
    if name in Current(st) then st
    else st.(tables := Outer(st) + [Current(st)[name := v]])
  }

  /** `map.erase` on the current table. */
  function Erase(st: GenState, name: string): (st': GenState)
    requires Valid(st)
    ensures Valid(st') && Outer(st') == Outer(st) && Current(st') == Current(st) - {name}
  {
    st.(tables := Outer(st) + [Current(st) - {name}])
  }

  /** A fresh current table whose parent is the old current table. */
  function Push(st: GenState): (st': GenState)
    ensures Valid(st') && Outer(st') == st.tables && Current(st') == map[]
  {
    st.(tables := st.tables + [map[]])
  }

  /** Makes the parent of the current table current again. */
  function Pop(st: GenState): GenState
    requires Valid(st)
  {
    st.(tables := Outer(st))
  }

  function Emit(st: GenState, i: Instr): GenState
  {
    st.(code := st.code + [i])
  }

  /** The handle of the next instruction emitted. */
  function Next(st: GenState): Ir
  {
    Inst(|st.code|)
  }

  function Warn(st: GenState, message: string): GenState
  {
    st.(warnings := st.warnings + [message])
  }

  /** The address a handle was loaded from, when it is the result of a load. */
  function LoadedFrom(v: Ir, code: seq<Instr>): Option<Ir>
  {
    if v.Inst? && v.index < |code| && code[v.index].Load? then Some(code[v.index].addr) else None
  }

  /** The handle is the result of a return instruction. */
  predicate IsReturn(v: Ir, code: seq<Instr>)
  {
    v.Inst? && v.index < |code| && (code[v.index].Ret? || code[v.index].RetVoid?)
  }

  predicate IsVoid(t: TypeNode)
  {
    t.SimpleType? && t.identifier == "void"
  }

  // ---------------------------------------------------------------------
  // Expressions
  // ---------------------------------------------------------------------

  function GenExpr(e: Expr, st: GenState): (r: Result<Gen>)
    requires Valid(st)
    decreases e, 1
    ensures r.Ok? ==> ExprExtends(st, r.value.st)
  {
    match e
    case Integer32(data) =>
      Ok(Gen(Value(Const(data), Some(IntType)), st))
    case Identifier(id) =>
      var slot := Find(st.tables, id);
      if slot.None? then Err("Unbound symbol \"" + id + "\"")
      else Ok(Gen(Value(Next(st), None), Emit(st, Load(slot.value))))
    case BinaryOperation(op, lhs, rhs) =>
      var l := GenExpr(lhs, st);
      if l.Err? then Err(l.message)
      else
        var r := GenExpr(rhs, l.value.st);
        if r.Err? then Err(r.message)
        else GenBinary(op, lhs, l.value.value, r.value.value, r.value.st)
    case UnaryOperation(op, rhs) =>
      var v := GenExpr(rhs, st);
      if v.Err? then Err(v.message) else GenUnary(op, rhs, v.value.value, v.value.st)
    case FunctionCallOperation(_, _) =>
      GenCall(e, st)
    case ArrayInitList(_) =>
      Err(NotAnExpression)
    case UnsafeExpression(_) =>
      GenUnsafeExpr(e, st)
  }

  /**
   * `FunctionCallOperation::code_gen`: a callee named by an identifier is
   * looked up without being loaded; any other callee is generated. Only a
   * function object can be called; its arguments are generated left to right.
   */
  function GenCall(e: Expr, st: GenState): (r: Result<Gen>)
    requires Valid(st) && e.FunctionCallOperation?
    decreases e, 0
    ensures r.Ok? ==> ExprExtends(st, r.value.st)
  {
    var callee :=
      if e.funcExpr.Identifier? then Ok(Gen(Value(FindOrNull(st.tables, e.funcExpr.id), None), st))
      else GenExpr(e.funcExpr, st);
    if callee.Err? then Err(callee.message)
    else if !callee.value.value.ir.Function? then Err(NotCallable)
    else
      var args := GenArgs(e.argument, callee.value.st, []);
      if args.Err? then Err(args.message)
      else
        var st' := args.value.st;
        Ok(Gen(Value(Next(st'), None), Emit(st', Call(callee.value.value.ir.name, args.value.irs))))
  }

  /**
   * `UnsafeExpression::code_gen`: inside an unsafe region the wrapper only
   * warns; outside one it opens a region for the inner expression and
   * closes it afterwards.
   */
  function GenUnsafeExpr(e: Expr, st: GenState): (r: Result<Gen>)
    requires Valid(st) && e.UnsafeExpression?
    decreases e, 0
    ensures r.Ok? ==> ExprExtends(st, r.value.st)
  {
    if st.unsafe then GenExpr(e.expression, Warn(st, RedundantUnsafeExpression))
    else
      var r := GenExpr(e.expression, st.(unsafe := true));
      if r.Err? then r else Ok(Gen(r.value.value, r.value.st.(unsafe := false)))
  }

  function FindOrNull(tables: seq<map<string, Ir>>, name: string): Ir
  {
    var v := Find(tables, name);
    if v.Some? then v.value else Null
  }

  /** The arguments of a call, generated left to right. */
  function GenArgs(args: seq<Expr>, st: GenState, irs: seq<Ir>): (r: Result<Args>)
    requires Valid(st)
    decreases args, 0
    ensures r.Ok? ==> ExprExtends(st, r.value.st) && |r.value.irs| == |irs| + |args|
  {
    if args == [] then Ok(Args(irs, st))
    else
      var a := GenExpr(args[0], st);
      if a.Err? then Err(a.message) else GenArgs(args[1..], a.value.st, irs + [a.value.value.ir])
  }

  /** The operator step of `BinaryOperation::code_gen`, once both operands are generated. */
  function GenBinary(op: TokenType, lhs: Expr, l: Value, r: Value, st: GenState): (res: Result<Gen>)
    requires Valid(st)
    ensures res.Ok? ==> ExprExtends(st, res.value.st)
  {
    if Operation.IsFoldedOp(op) then
      var ty := TypeInf(l.ty, r.ty);
      if ty.MissingPair? then Err("map::at")
      else Ok(Gen(Value(Next(st), if ty.Inferred? then Some(ty.ty) else None), Emit(st, Arith(op.op, l.ir, r.ir))))
    else if op == Operator(Assign) then
      var from := LoadedFrom(l.ir, st.code);
      var addr := if from.Some? then from.value else l.ir;
      Ok(Gen(Value(Next(st), StaticType(lhs)), Emit(st, Store(r.ir, addr))))
    else Err("TODO")
  }

  /** The operator step of `UnaryOperation::code_gen`, once the operand is generated. */
  function GenUnary(op: TokenType, rhs: Expr, v: Value, st: GenState): (res: Result<Gen>)
    requires Valid(st)
    ensures res.Ok? ==> ExprExtends(st, res.value.st)
  {
    if op == Operator(Plus) then
      Ok(Gen(Value(Next(st), StaticType(rhs)), Emit(st, Arith(Multiply, Const(1), v.ir))))
    else if op == Operator(Minus) then
      Ok(Gen(Value(Next(st), StaticType(rhs)), Emit(st, Arith(Multiply, Const(-1), v.ir))))
    else if op == Operator(Multiply) then
      Ok(Gen(Value(Next(st), None), Emit(st, Load(v.ir))))
    else if op == Operator(BitAnd) then
      var from := LoadedFrom(v.ir, st.code);
      if IsLvalue(rhs) && from.Some? then Ok(Gen(Value(from.value, Some(Pointer(StaticType(rhs)))), st))
      else Err(NotLvalue)
    else Err("TODO")
  }

  // ---------------------------------------------------------------------
  // Declarations
  // ---------------------------------------------------------------------

  /** `array_helper`: a non-empty list continues at the first element of the storage at `addr`. */
  function ArrayHelper(elements: seq<Expr>, addr: Ir, st: GenState): (r: Result<GenState>)
    requires Valid(st)
    decreases elements, 1
    ensures r.Ok? ==> ExprExtends(st, r.value)
  {
    if elements == [] then Err("empty initializer list")
    else ArrayElements(elements, FirstElement(addr), st)
  }

  /** The element loop of `array_helper`, from the element at `at` on: every element but the last advances `at`. */
  function ArrayElements(elements: seq<Expr>, at: Ir, st: GenState): (r: Result<GenState>)
    requires Valid(st) && elements != [] && at.Element? && at.path != []
    decreases elements, 0
    ensures r.Ok? ==> ExprExtends(st, r.value)
  {
    var e := elements[0];
    var here :=
      if e.ArrayInitList? then ArrayHelper(e.elements, at, st)
      else StoreValue(e, at, st);
    if here.Err? || |elements| == 1 then here
    else ArrayElements(elements[1..], Advance(at), here.value)
  }

  /** Generates `e` and stores its value at `addr`. */
  function StoreValue(e: Expr, addr: Ir, st: GenState): (r: Result<GenState>)
    requires Valid(st)
    ensures r.Ok? ==> ExprExtends(st, r.value)
  {
    var v := GenExpr(e, st);
    if v.Err? then Err(v.message) else Ok(Emit(v.value.st, Store(v.value.value.ir, addr)))
  }

  /** The address of the first element inside the array at `addr` (a `[0, 0]` element-pointer step). */
  function FirstElement(addr: Ir): (r: Ir)
    ensures r.Element? && r.path != []
  {
    if addr.Element? then Element(addr.base, addr.path + [0]) else Element(addr, [0])
  }

  /** The address one element further on (a `1` element-pointer step). */
  function Advance(at: Ir): (r: Ir)
    requires at.Element? && at.path != []
    ensures r.Element? && r.base == at.base && |r.path| == |at.path|
    ensures r.path[..|r.path| - 1] == at.path[..|at.path| - 1] && r.path[|r.path| - 1] == at.path[|at.path| - 1] + 1
  {
    var n := |at.path| - 1;
    Element(at.base, at.path[..n] + [at.path[n] + 1])
  }

  /** `VariableDeclaration::code_gen`. */
  function GenVarDecl(d: VarDecl, st: GenState): (r: Result<Gen>)
    requires Valid(st)
    ensures r.Ok? ==> Extends(st, r.value.st) && r.value.st.returnType == st.returnType
  {
    if !st.unsafe && !TypeIsSafe(d.ty) then Err(UnsafeDeclaration)
    else
      var slot := Next(st);
      var st1 := Emit(st, Alloca(d.identifier, d.ty));
      if d.ty.LValueReference? then
        if d.expression.None? then Err(UninitializedReference)
        else Ok(Gen(NoValue, st1))
      else
        var init :=
          if d.expression.None? then Ok(st1)
          else if d.expression.value.ArrayInitList? then ArrayHelper(d.expression.value.elements, slot, st1)
          else StoreValue(d.expression.value, slot, st1);
        if init.Err? then Err(init.message)
        else Ok(Gen(Value(slot, None), Insert(init.value, d.identifier, slot)))
  }

  /** On entry to a function: storage for each parameter, the incoming argument stored in it, and the name bound to it. */
  function BindParams(params: seq<VarDecl>, st: GenState): (st': GenState)
    requires Valid(st)
    ensures Extends(st, st') && st'.returnType == st.returnType
    ensures |st'.code| == |st.code| + 2 * |params|
  {
    if params == [] then st else BindParams(params[1..], BindParam(params[0], st))
  }

  /** One parameter: its storage, the incoming argument stored in it, and its name bound to it unless already bound. */
  function BindParam(p: VarDecl, st: GenState): (st': GenState)
    requires Valid(st)
    ensures Extends(st, st') && st'.returnType == st.returnType
    ensures st'.code == st.code + [Alloca(p.identifier, p.ty), Store(Argument(p.identifier), Next(st))]
    ensures p.identifier !in Current(st) ==> Current(st') == Current(st)[p.identifier := Next(st)]
    ensures p.identifier in Current(st) ==> Current(st') == Current(st)
  {
    var slot := Next(st);
    Insert(Emit(Emit(st, Alloca(p.identifier, p.ty)), Store(Argument(p.identifier), slot)), p.identifier, slot)
  }

  /** The parameter names of a function. */
  function ParamNames(params: seq<VarDecl>): set<string>
  {
    if params == [] then {} else {params[0].identifier} + ParamNames(params[1..])
  }

  /** On exit from a function: every parameter name erased from the current table. */
  function EraseParams(params: seq<VarDecl>, st: GenState): (st': GenState)
    requires Valid(st)
    ensures Extends(st, st') && st'.code == st.code && st'.returnType == st.returnType
    ensures st'.warnings == st.warnings
    ensures Current(st') == Current(st) - ParamNames(params)
  {
    if params == [] then st
    else EraseParams(params[1..], Erase(st, params[0].identifier))
  }

  // ---------------------------------------------------------------------
  // Statements
  // ---------------------------------------------------------------------

  function GenStmt(s: Stmt, st: GenState): (r: Result<Gen>)
    requires Valid(st)
    decreases s, 1
    ensures r.Ok? ==> Extends(st, r.value.st)
  {
    match s
    case VariableDeclaration(d) =>
      GenVarDecl(d, st)
    case FunctionDeclaration(_, _, _, _) =>
      GenFuncDecl(s, st)
    case ReturnStatement(_) =>
      GenReturn(s, st)
    case ExpressionStatement(e) =>
      GenExpr(e, st)
    case Block(statements) =>
      GenSeq(statements, st, NoValue)
    case Scope(_) =>
      GenScope(s, st)
    case UnsafeStatement(_) =>
      GenUnsafeStmt(s, st)
  }

  /**
   * `ReturnStatement::code_gen`: a value return in a void function and a
   * bare return in a non-void function are errors; otherwise one return
   * instruction is emitted.
   */
  function GenReturn(s: Stmt, st: GenState): (r: Result<Gen>)
    requires Valid(st) && s.ReturnStatement?
    ensures r.Ok? ==> Extends(st, r.value.st)
  {
    if s.returnExpr.Some? then
      if IsVoid(st.returnType) then Err(ValueReturnInVoid)
      else
        var v := GenExpr(s.returnExpr.value, st);
        if v.Err? then Err(v.message)
        else Ok(Gen(Value(Next(v.value.st), None), Emit(v.value.st, Ret(v.value.value.ir))))
    else if !IsVoid(st.returnType) then Err(BareReturnInNonVoid)
    else Ok(Gen(Value(Next(st), None), Emit(st, RetVoid)))
  }

  /** `Scope::code_gen`: the statements run against a fresh table, whose parent is current again afterwards. */
  function GenScope(s: Stmt, st: GenState): (r: Result<Gen>)
    requires Valid(st) && s.Scope?
    decreases s, 0
    ensures r.Ok? ==> Extends(st, r.value.st)
  {
    var r := GenSeq(s.statements, Push(st), NoValue);
    if r.Err? then r else Ok(Gen(r.value.value, Pop(r.value.st)))
  }

  /** `UnsafeStatement::code_gen`, as `UnsafeExpression` for a statement. */
  function GenUnsafeStmt(s: Stmt, st: GenState): (r: Result<Gen>)
    requires Valid(st) && s.UnsafeStatement?
    decreases s, 0
    ensures r.Ok? ==> Extends(st, r.value.st)
  {
    if st.unsafe then GenStmt(s.statement, Warn(st, RedundantUnsafeStatement))
    else
      var r := GenStmt(s.statement, st.(unsafe := true));
      if r.Err? then r else Ok(Gen(r.value.value, r.value.st.(unsafe := false)))
  }

  /** The statements of a block, in order; the value is the last statement's, or `last` when there are none. */
  function GenSeq(statements: seq<Stmt>, st: GenState, last: Value): (r: Result<Gen>)
    requires Valid(st)
    decreases statements, 0
    ensures r.Ok? ==> Extends(st, r.value.st)
  {
    if statements == [] then Ok(Gen(last, st))
    else
      var g := GenStmt(statements[0], st);
      if g.Err? then g else GenSeq(statements[1..], g.value.st, g.value.value)
  }

  /**
   * `FunctionDeclaration::code_gen`: emission moves to the function's entry
   * block, the parameters are bound, the body is generated, a return is
   * added when the body's value is not one, and the parameter names are
   * erased. The return rule consults the function emission is in after the
   * body, as the backend's insertion point does.
   */
  function GenFuncDecl(s: Stmt, st: GenState): (r: Result<Gen>)
    requires Valid(st) && s.FunctionDeclaration?
    decreases s, 0
    ensures r.Ok? ==> Extends(st, r.value.st)
  {
    var entered := Emit(st, Entry(s.identifier)).(returnType := s.returnType);
    var body := GenStmt(s.body, BindParams(s.parameter, entered));
    if body.Err? then Err(body.message)
    else
      var st' := ImplicitReturn(body.value.value, body.value.st);
      Ok(Gen(Value(Function(s.identifier), None), EraseParams(s.parameter, st')))
  }

  /**
   * The end of a function whose body's value is not a return: a non-void
   * function returns the null value, with a warning; a void function returns.
   */
  function ImplicitReturn(body: Value, st: GenState): (st': GenState)
    ensures Valid(st) ==> Extends(st, st')
    ensures st'.tables == st.tables && st'.returnType == st.returnType
    ensures IsReturn(body.ir, st.code) ==> st' == st
    ensures !IsReturn(body.ir, st.code) && IsVoid(st.returnType) ==>
      st'.code == st.code + [RetVoid] && st'.warnings == st.warnings
    ensures !IsReturn(body.ir, st.code) && !IsVoid(st.returnType) ==>
      st'.code == st.code + [Ret(Null)] && st'.warnings == st.warnings + [NullReturnWarning]
  {
    if IsReturn(body.ir, st.code) then st
    else if IsVoid(st.returnType) then Emit(st, RetVoid)
    else Warn(Emit(st, Ret(Null)), NullReturnWarning)
  }

  // ---------------------------------------------------------------------
  // Preprocessing
  // ---------------------------------------------------------------------

  /**
   * The preprocessing walk. Expressions have nothing to do; a function
   * declaration preprocesses its body, creates its function object and then
   * registers its name. A return statement without an expression has no
   * expression to visit and fails.
   */
  function PreStmt(s: Stmt, st: GenState): (r: Result<GenState>)
    requires Valid(st)
    decreases s, 1
    ensures r.Ok? ==> Valid(r.value) && |r.value.tables| == |st.tables| && Outer(r.value) == Outer(st)
    ensures r.Ok? ==> r.value.code == st.code && r.value.warnings == st.warnings && st.functions <= r.value.functions
  {
    match s
    case FunctionDeclaration(returnType, identifier, parameter, body) =>
      var b := PreStmt(body, st);
      if b.Err? then b
      else
        var created := b.value.(functions := b.value.functions + [FunctionSig(identifier, returnType, parameter)]);
        Ok(Insert(created, identifier, Function(identifier)))
    case ReturnStatement(e) =>
      if e.None? then Err("null return expression") else Ok(st)
    case Block(statements) =>
      PreSeq(statements, st)
    case Scope(statements) =>
      PreSeq(statements, st)
    case UnsafeStatement(inner) =>
      PreStmt(inner, st)
    case _ =>
      Ok(st)
  }

  function PreSeq(statements: seq<Stmt>, st: GenState): (r: Result<GenState>)
    requires Valid(st)
    decreases statements, 0
    ensures r.Ok? ==> Valid(r.value) && |r.value.tables| == |st.tables| && Outer(r.value) == Outer(st)
    ensures r.Ok? ==> r.value.code == st.code && r.value.warnings == st.warnings && st.functions <= r.value.functions
  {
    if statements == [] then Ok(st)
    else
      var p := PreStmt(statements[0], st);
      if p.Err? then p else PreSeq(statements[1..], p.value)
  }
}
