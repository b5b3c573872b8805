/**
 * The code generator as the compiler runs it: one object holding the symbol
 * table chain, the unsafe flag, the warnings list and the backend's code,
 * whose methods walk the AST and update that state in place. Every method is
 * proved to end in the state, and with the value or error, that the
 * functions of module CodeGen prescribe.
 */
module Generator {
  import opened Wrappers
  import opened Tokens
  import opened Ast
  import opened CodeGen
  import Promotion
  import Operation

  /** A node's outcome agrees with the functional one: the same error, or the same value and the same state. */
  predicate Agrees(r: Result<Value>, st: GenState, spec: Result<Gen>)
  {
    if spec.Err? then r == Err(spec.message) else r == Ok(spec.value.value) && st == spec.value.st
  }

  /** The same, for a step that produces no value: the same error, or no error and the same state. */
  predicate Reaches(err: Option<string>, st: GenState, spec: Result<GenState>)
  {
    if spec.Err? then err == Some(spec.message) else err.None? && st == spec.value
  }

  class CodeGenerator {
    var tables: seq<map<string, Ir>>
    var unsafe: bool
    var warnings: seq<string>
    var code: seq<Instr>
    var returnType: TypeNode
    var functions: seq<FunctionSig>

    function State(): GenState
      reads this
    {
      GenState(tables, unsafe, warnings, code, returnType, functions)
    }

    constructor (st: GenState)
      ensures State() == st
    {
      tables := st.tables;
      unsafe := st.unsafe;
      warnings := st.warnings;
      code := st.code;
      returnType := st.returnType;
      functions := st.functions;
    }

    // -------------------------------------------------------------------
    // Backend and symbol tables
    // -------------------------------------------------------------------

    /** Appends an instruction and returns the handle of its result. */
    method Emit(i: Instr) returns (h: Ir)
      modifies this
      ensures State() == CodeGen.Emit(old(State()), i) && h == Next(old(State()))
    {
      h := Inst(|code|);
      code := code + [i];
    }

    method Warn(message: string)
      modifies this
      ensures State() == CodeGen.Warn(old(State()), message)
    {
      warnings := warnings + [message];
    }

    /** `SymbolTable::find`: walks the chain from the current table outwards. */
    method Lookup(name: string) returns (v: Option<Ir>)
      ensures v == Find(tables, name)
    {
      var i := |tables|;
      assert tables[..i] == tables;
      while i > 0
        invariant 0 <= i <= |tables|
        invariant Find(tables, name) == Find(tables[..i], name)
      {
        if name in tables[i - 1] {
          return Some(tables[i - 1][name]);
        }
        assert tables[..i][..i - 1] == tables[..i - 1];
        i := i - 1;
      }
      return None;
    }

    method Insert(name: string, v: Ir)
      requires Valid(State())
      modifies this
      ensures State() == CodeGen.Insert(old(State()), name, v)
    {
      var n := |tables| - 1;
      if name !in tables[n] {
        tables := tables[..n] + [tables[n][name := v]];
      }
    }

    method Erase(name: string)
      requires Valid(State())
      modifies this
      ensures State() == CodeGen.Erase(old(State()), name)
    {
      var n := |tables| - 1;
      tables := tables[..n] + [tables[n] - {name}];
    }

    // -------------------------------------------------------------------
    // Expressions
    // -------------------------------------------------------------------

    method GenExpr(e: Expr) returns (r: Result<Value>)
      requires Valid(State())
      modifies this
      decreases e, 1
      ensures Agrees(r, State(), CodeGen.GenExpr(e, old(State())))
    {
      match e
      case Integer32(data) =>
        r := Ok(Value(Const(data), Some(IntType)));
      case Identifier(id) =>
        var slot := Lookup(id);
        if slot.None? {
          r := Err("Unbound symbol \"" + id + "\"");
        } else {
          var h := Emit(Load(slot.value));
          r := Ok(Value(h, None));
        }
      case BinaryOperation(op, lhs, rhs) =>
        r := GenBinaryOperation(e);
      case UnaryOperation(op, rhs) =>
        var v := GenExpr(rhs);
        if v.Err? {
          return Err(v.message);
        }
        r := Unary(op, rhs, v.value);
      case FunctionCallOperation(_, _) =>
        r := GenCall(e);
      case ArrayInitList(_) =>
        r := Err(NotAnExpression);
      case UnsafeExpression(_) =>
        r := GenUnsafeExpr(e);
    }

    /** Both operands, left first, then the operator step. */
    method GenBinaryOperation(e: Expr) returns (r: Result<Value>)
      requires Valid(State()) && e.BinaryOperation?
      modifies this
      decreases e, 0
      ensures Agrees(r, State(), CodeGen.GenExpr(e, old(State())))
    {
      var l := GenExpr(e.lhs);
      if l.Err? {
        return Err(l.message);
      }
      var rv := GenExpr(e.rhs);
      if rv.Err? {
        return Err(rv.message);
      }
      r := Binary(e.op, e.lhs, l.value, rv.value);
    }

    method Binary(op: TokenType, lhs: Expr, l: Value, rv: Value) returns (r: Result<Value>)
      requires Valid(State())
      modifies this
      ensures Agrees(r, State(), GenBinary(op, lhs, l, rv, old(State())))
    {
      if Operation.IsFoldedOp(op) {
        var ty := Promotion.TypeInf(l.ty, rv.ty);
        if ty.MissingPair? {
          r := Err("map::at");
        } else {
          var h := Emit(Arith(op.op, l.ir, rv.ir));
          r := Ok(Value(h, if ty.Inferred? then Some(ty.ty) else None));
        }
      } else if op == Operator(Assign) {
        var from := LoadedFrom(l.ir, code);
        var h := Emit(Store(rv.ir, if from.Some? then from.value else l.ir));
        r := Ok(Value(h, StaticType(lhs)));
      } else {
        r := Err("TODO");
      }
    }

    method Unary(op: TokenType, rhs: Expr, v: Value) returns (r: Result<Value>)
      requires Valid(State())
      modifies this
      ensures Agrees(r, State(), GenUnary(op, rhs, v, old(State())))
    {
      if op == Operator(Plus) || op == Operator(Minus) {
        var h := Emit(Arith(Multiply, Const(if op == Operator(Plus) then 1 else -1), v.ir));
        r := Ok(Value(h, StaticType(rhs)));
      } else if op == Operator(Multiply) {
        var h := Emit(Load(v.ir));
        r := Ok(Value(h, None));
      } else if op == Operator(BitAnd) {
        var from := LoadedFrom(v.ir, code);
        if IsLvalue(rhs) && from.Some? {
          r := Ok(Value(from.value, Some(Pointer(StaticType(rhs)))));
        } else {
          r := Err(NotLvalue);
        }
      } else {
        r := Err("TODO");
      }
    }

    /** The callee, then the argument loop, then the call. */
    method GenCall(e: Expr) returns (r: Result<Value>)
      requires Valid(State()) && e.FunctionCallOperation?
      modifies this
      decreases e, 0
      ensures Agrees(r, State(), CodeGen.GenExpr(e, old(State())))
    {
      var callee: Result<Value>;
      if e.funcExpr.Identifier? {
        var f := Lookup(e.funcExpr.id);
        callee := Ok(Value(if f.Some? then f.value else Null, None));
      } else {
        callee := GenExpr(e.funcExpr);
      }
      if callee.Err? {
        return Err(callee.message);
      }
      if !callee.value.ir.Function? {
        return Err(NotCallable);
      }
      ghost var before := State();
      var irs := [];
      var i := 0;
      while i < |e.argument|
        invariant 0 <= i <= |e.argument| && Valid(State())
        invariant GenArgs(e.argument, before, []) == GenArgs(e.argument[i..], State(), irs)
      {
        assert e.argument[i..][1..] == e.argument[i + 1..];
        var a := GenExpr(e.argument[i]);
        if a.Err? {
          return Err(a.message);
        }
        irs := irs + [a.value.ir];
        i := i + 1;
      }
      var h := Emit(Call(callee.value.ir.name, irs));
      r := Ok(Value(h, None));
    }

    method GenUnsafeExpr(e: Expr) returns (r: Result<Value>)
      requires Valid(State()) && e.UnsafeExpression?
      modifies this
      decreases e, 0
      ensures Agrees(r, State(), CodeGen.GenExpr(e, old(State())))
    {
      if unsafe {
        Warn(RedundantUnsafeExpression);
        r := GenExpr(e.expression);
      } else {
        unsafe := true;
        r := GenExpr(e.expression);
        if r.Ok? {
          unsafe := false;
        }
      }
    }

    // -------------------------------------------------------------------
    // Declarations
    // -------------------------------------------------------------------

    /** Generates `e` and stores its value at `addr`. */
    method StoreAt(e: Expr, addr: Ir) returns (err: Option<string>)
      requires Valid(State())
      modifies this
      ensures Reaches(err, State(), StoreValue(e, addr, old(State())))
    {
      var v := GenExpr(e);
      if v.Err? {
        return Some(v.message);
      }
      var _ := Emit(Store(v.value.ir, addr));
      err := None;
    }

    /**
     * `array_helper`: the element address starts at the first element and
     * advances after every element but the last; a nested list is filled
     * from its own element address.
     */
    method ArrayHelper(elements: seq<Expr>, addr: Ir) returns (err: Option<string>)
      requires Valid(State())
      modifies this
      decreases elements, 1
      ensures Reaches(err, State(), CodeGen.ArrayHelper(elements, addr, old(State())))
    {
      if elements == [] {
        return Some("empty initializer list");
      }
      var at := FirstElement(addr);
      var i := 0;
      while i < |elements| - 1
        invariant 0 <= i < |elements| && at.Element? && at.path != [] && Valid(State())
        invariant CodeGen.ArrayHelper(elements, addr, old(State())) == ArrayElements(elements[i..], at, State())
      {
        assert elements[i..][0] == elements[i] && elements[i..][1..] == elements[i + 1..];
        err := ArrayElement(elements[i], at);
        if err.Some? {
          return;
        }
        at := Advance(at);
        i := i + 1;
      }
      assert elements[i..] == [elements[i]];
      err := ArrayElement(elements[i], at);
    }

    /** One element of a list: a nested list, or a value stored at `at`. */
    method ArrayElement(e: Expr, at: Ir) returns (err: Option<string>)
      requires Valid(State())
      modifies this
      decreases e, 0
      ensures Reaches(err, State(), if e.ArrayInitList? then CodeGen.ArrayHelper(e.elements, at, old(State())) else StoreValue(e, at, old(State())))
    {
      if e.ArrayInitList? {
        err := ArrayHelper(e.elements, at);
      } else {
        err := StoreAt(e, at);
      }
    }

    /** `VariableDeclaration::code_gen`. */
    method GenVarDecl(d: VarDecl) returns (r: Result<Value>)
      requires Valid(State())
      modifies this
      ensures Agrees(r, State(), CodeGen.GenVarDecl(d, old(State())))
    {
      if !unsafe && !TypeIsSafe(d.ty) {
        return Err(UnsafeDeclaration);
      }
      var slot := Emit(Alloca(d.identifier, d.ty));
      if d.ty.LValueReference? {
        if d.expression.None? {
          return Err(UninitializedReference);
        }
        return Ok(NoValue);
      }
      if d.expression.Some? {
        var err;
        if d.expression.value.ArrayInitList? {
          err := ArrayHelper(d.expression.value.elements, slot);
        } else {
          err := StoreAt(d.expression.value, slot);
        }
        if err.Some? {
          return Err(err.value);
        }
      }
      Insert(d.identifier, slot);
      r := Ok(Value(slot, None));
    }

    // -------------------------------------------------------------------
    // Statements
    // -------------------------------------------------------------------

    method GenStmt(s: Stmt) returns (r: Result<Value>)
      requires Valid(State())
      modifies this
      decreases s, 1
      ensures Agrees(r, State(), CodeGen.GenStmt(s, old(State())))
    {
      match s
      case VariableDeclaration(d) =>
        r := GenVarDecl(d);
      case FunctionDeclaration(_, _, _, _) =>
        r := GenFuncDecl(s);
      case ReturnStatement(_) =>
        r := GenReturn(s);
      case ExpressionStatement(e) =>
        r := GenExpr(e);
      case Block(statements) =>
        r := GenSeq(statements);
      case Scope(_) =>
        r := GenScope(s);
      case UnsafeStatement(_) =>
        r := GenUnsafeStmt(s);
    }

    /** `Block::code_gen`: the statements in order; the value is the last one's. */
    method GenSeq(statements: seq<Stmt>) returns (r: Result<Value>)
      requires Valid(State())
      modifies this
      decreases statements, 0
      ensures Agrees(r, State(), CodeGen.GenSeq(statements, old(State()), NoValue))
    {
      var last := NoValue;
      var i := 0;
      while i < |statements|
        invariant 0 <= i <= |statements| && Valid(State())
        invariant CodeGen.GenSeq(statements, old(State()), NoValue) == CodeGen.GenSeq(statements[i..], State(), last)
      {
        assert statements[i..][1..] == statements[i + 1..];
        var g := GenStmt(statements[i]);
        if g.Err? {
          return Err(g.message);
        }
        last := g.value;
        i := i + 1;
      }
      r := Ok(last);
    }

    /** `Scope::code_gen`: a fresh table whose parent is the current one, made current for the statements. */
    method GenScope(s: Stmt) returns (r: Result<Value>)
      requires Valid(State()) && s.Scope?
      modifies this
      decreases s, 0
      ensures Agrees(r, State(), CodeGen.GenStmt(s, old(State())))
    {
      tables := tables + [map[]];
      r := GenSeq(s.statements);
      if r.Ok? {
        tables := tables[..|tables| - 1];
      }
    }

    method GenUnsafeStmt(s: Stmt) returns (r: Result<Value>)
      requires Valid(State()) && s.UnsafeStatement?
      modifies this
      decreases s, 0
      ensures Agrees(r, State(), CodeGen.GenStmt(s, old(State())))
    {
      if unsafe {
        Warn(RedundantUnsafeStatement);
        r := GenStmt(s.statement);
      } else {
        unsafe := true;
        r := GenStmt(s.statement);
        if r.Ok? {
          unsafe := false;
        }
      }
    }

    method GenReturn(s: Stmt) returns (r: Result<Value>)
      requires Valid(State()) && s.ReturnStatement?
      modifies this
      ensures Agrees(r, State(), CodeGen.GenStmt(s, old(State())))
    {
      if s.returnExpr.Some? {
        if IsVoid(returnType) {
          return Err(ValueReturnInVoid);
        }
        var v := GenExpr(s.returnExpr.value);
        if v.Err? {
          return Err(v.message);
        }
        var h := Emit(Ret(v.value.ir));
        r := Ok(Value(h, None));
      } else if !IsVoid(returnType) {
        r := Err(BareReturnInNonVoid);
      } else {
        var h := Emit(RetVoid);
        r := Ok(Value(h, None));
      }
    }

    /** `FunctionDeclaration::code_gen`. */
    method GenFuncDecl(s: Stmt) returns (r: Result<Value>)
      requires Valid(State()) && s.FunctionDeclaration?
      modifies this
      decreases s, 0
      ensures Agrees(r, State(), CodeGen.GenStmt(s, old(State())))
    {
      var _ := Emit(Entry(s.identifier));
      returnType := s.returnType;
      BindParams(s.parameter);
      var body := GenStmt(s.body);
      if body.Err? {
        return Err(body.message);
      }
      ImplicitReturn(body.value);
      EraseParams(s.parameter);
      r := Ok(Value(Function(s.identifier), None));
    }

    /** The parameter loop on entry: storage, the stored argument, and the binding, one parameter at a time. */
    method BindParams(params: seq<VarDecl>)
      requires Valid(State())
      modifies this
      ensures State() == CodeGen.BindParams(params, old(State()))
    {
      var i := 0;
      while i < |params|
        invariant 0 <= i <= |params| && Valid(State())
        invariant CodeGen.BindParams(params, old(State())) == CodeGen.BindParams(params[i..], State())
      {
        assert params[i..][1..] == params[i + 1..];
        var slot := Emit(Alloca(params[i].identifier, params[i].ty));
        var _ := Emit(Store(Argument(params[i].identifier), slot));
        Insert(params[i].identifier, slot);
        i := i + 1;
      }
    }

    /** The parameter loop on exit: every parameter name is erased from the current table. */
    method EraseParams(params: seq<VarDecl>)
      requires Valid(State())
      modifies this
      ensures State() == CodeGen.EraseParams(params, old(State()))
    {
      var i := 0;
      while i < |params|
        invariant 0 <= i <= |params| && Valid(State())
        invariant CodeGen.EraseParams(params, old(State())) == CodeGen.EraseParams(params[i..], State())
      {
        assert params[i..][1..] == params[i + 1..];
        Erase(params[i].identifier);
        i := i + 1;
      }
    }

    method ImplicitReturn(body: Value)
      modifies this
      ensures State() == CodeGen.ImplicitReturn(body, old(State()))
    {
      if IsReturn(body.ir, code) {
      } else if IsVoid(returnType) {
        var _ := Emit(RetVoid);
      } else {
        var _ := Emit(Ret(Null));
        Warn(NullReturnWarning);
      }
    }

    // -------------------------------------------------------------------
    // Preprocessing
    // -------------------------------------------------------------------

    method PreStmt(s: Stmt) returns (err: Option<string>)
      requires Valid(State())
      modifies this
      decreases s, 1
      ensures Reaches(err, State(), CodeGen.PreStmt(s, old(State())))
    {
      match s
      case FunctionDeclaration(rt, identifier, parameter, body) =>
        err := PreStmt(body);
        if err.None? {
          functions := functions + [FunctionSig(identifier, rt, parameter)];
          Insert(identifier, Function(identifier));
        }
      case ReturnStatement(e) =>
        err := if e.None? then Some("null return expression") else None;
      case Block(statements) =>
        err := PreSeq(statements);
      case Scope(statements) =>
        err := PreSeq(statements);
      case UnsafeStatement(inner) =>
        err := PreStmt(inner);
      case _ =>
        err := None;
    }

    /** `Block::preprocess`: the statements in order. */
    method PreSeq(statements: seq<Stmt>) returns (err: Option<string>)
      requires Valid(State())
      modifies this
      decreases statements, 0
      ensures Reaches(err, State(), CodeGen.PreSeq(statements, old(State())))
    {
      var i := 0;
      while i < |statements|
        invariant 0 <= i <= |statements| && Valid(State())
        invariant CodeGen.PreSeq(statements, old(State())) == CodeGen.PreSeq(statements[i..], State())
      {
        assert statements[i..][1..] == statements[i + 1..];
        err := PreStmt(statements[i]);
        if err.Some? {
          return;
        }
        i := i + 1;
      }
      err := None;
    }
  }
}
