/**
 * Properties of preprocessing and code generation: symbol lookup, the
 * safety and return rules, scoping, block order, declarations, the element
 * layout of array initialisers, and function entry and exit.
 */
module CodeGenFacts {
  import opened Wrappers
  import opened Tokens
  import opened Ast
  import opened CodeGen
  import opened Promotion
  import Operation

  // ---------------------------------------------------------------------
  // Lookup
  // ---------------------------------------------------------------------

  /** Lookup finds the binding of the innermost table that binds the name. */
  lemma {:induction false} FindInnermost(tables: seq<map<string, Ir>>, name: string, i: nat)
    requires i < |tables| && name in tables[i]
    requires forall j :: i < j < |tables| ==> name !in tables[j]
    ensures Find(tables, name) == Some(tables[i][name])
  {
    if i < |tables| - 1 {
      FindInnermost(tables[..|tables| - 1], name, i);
    }
  }

  /** Lookup fails exactly when no table of the chain binds the name. */
  lemma {:induction false} FindFails(tables: seq<map<string, Ir>>, name: string)
    ensures Find(tables, name).None? <==> forall j :: 0 <= j < |tables| ==> name !in tables[j]
  {
    if |tables| > 0 {
      FindFails(tables[..|tables| - 1], name);
      assert forall j :: 0 <= j < |tables| - 1 ==> tables[..|tables| - 1][j] == tables[j];
    }
  }

  /** An identifier is loaded from its binding; an unbound one raises "Unbound symbol". */
  lemma IdentifierLookup(x: string, st: GenState)
    requires Valid(st)
    ensures Find(st.tables, x).None? ==> GenExpr(Identifier(x), st) == Err("Unbound symbol \"" + x + "\"")
    ensures Find(st.tables, x).Some? ==>
      GenExpr(Identifier(x), st) == Ok(Gen(Value(Next(st), None), Emit(st, Load(Find(st.tables, x).value))))
  {
  }

  // ---------------------------------------------------------------------
  // The `&` operator
  // ---------------------------------------------------------------------

  /** `&x` on a bound identifier is the storage `x` is bound to, typed as a pointer; only the load of `x` is emitted. */
  lemma AddressOfIdentifier(x: string, st: GenState)
    requires Valid(st) && Find(st.tables, x).Some?
    ensures GenExpr(UnaryOperation(Operator(BitAnd), Identifier(x)), st)
         == Ok(Gen(Value(Find(st.tables, x).value, Some(Pointer(None))), Emit(st, Load(Find(st.tables, x).value))))
  {
    var a := Find(st.tables, x).value;
    var st1 := Emit(st, Load(a));
    assert GenExpr(Identifier(x), st) == Ok(Gen(Value(Next(st), None), st1));
    assert LoadedFrom(Next(st), st1.code) == Some(a);
    assert GenUnary(Operator(BitAnd), Identifier(x), Value(Next(st), None), st1)
        == Ok(Gen(Value(a, Some(Pointer(None))), st1));
  }

  /** `&e` on anything but an identifier is an error, raised once `e` is generated. */
  lemma AddressOfNonLvalue(e: Expr, st: GenState)
    requires Valid(st) && !IsLvalue(e)
    ensures GenExpr(e, st).Ok? ==> GenExpr(UnaryOperation(Operator(BitAnd), e), st) == Err(NotLvalue)
    ensures GenExpr(e, st).Err? ==> GenExpr(UnaryOperation(Operator(BitAnd), e), st) == Err(GenExpr(e, st).message)
  {
  }

  // ---------------------------------------------------------------------
  // Calls
  // ---------------------------------------------------------------------

  /** A callee name that is unbound, or bound to anything but a function object, is "Expected callable function expression". */
  lemma CallNeedsFunction(e: Expr, st: GenState)
    requires Valid(st) && e.FunctionCallOperation? && e.funcExpr.Identifier?
    requires var v := Find(st.tables, e.funcExpr.id); v.None? || !v.value.Function?
    ensures GenExpr(e, st) == Err(NotCallable)
  {
  }

  /** The arguments are generated left to right: a split list is its first part, then the rest from there. */
  lemma {:induction false} ArgsLeftToRight(a: seq<Expr>, b: seq<Expr>, st: GenState, irs: seq<Ir>)
    requires Valid(st)
    ensures var r := GenArgs(a, st, irs);
      GenArgs(a + b, st, irs) == if r.Err? then r else GenArgs(b, r.value.st, r.value.irs)
  {
    if a == [] {
      assert a + b == b;
    } else {
      assert (a + b)[0] == a[0];
      assert (a + b)[1..] == a[1..] + b;
      var x := GenExpr(a[0], st);
      if x.Ok? {
        ArgsLeftToRight(a[1..], b, x.value.st, irs + [x.value.value.ir]);
      }
    }
  }

  /**
   * A call that generates ends with one call instruction, on one value per
   * argument, after the arguments' code; the call's value is that instruction.
   */
  lemma CallEmittedLast(e: Expr, st: GenState)
    requires Valid(st) && e.FunctionCallOperation?
    ensures var r := GenExpr(e, st);
      r.Ok? ==>
        var c := r.value.st.code;
        |st.code| < |c| && c[|c| - 1].Call? && |c[|c| - 1].args| == |e.argument| && r.value.value.ir == Inst(|c| - 1)
  {
  }

  /** `add(1, 2)` with `add` bound to its function object: one call of `add` on 1 and 2, in that order. */
  lemma CallOfLiterals(st: GenState)
    requires Valid(st) && Find(st.tables, "add") == Some(Function("add"))
    ensures GenExpr(FunctionCallOperation(Identifier("add"), [Integer32(1), Integer32(2)]), st)
         == Ok(Gen(Value(Next(st), None), Emit(st, Call("add", [Const(1), Const(2)]))))
  {
    var args := [Integer32(1), Integer32(2)];
    assert GenExpr(Integer32(1), st) == Ok(Gen(Value(Const(1), Some(IntType)), st));
    assert GenExpr(Integer32(2), st) == Ok(Gen(Value(Const(2), Some(IntType)), st));
    assert args[1..] == [Integer32(2)] && args[1..][1..] == [];
    assert [] + [Const(1)] == [Const(1)] && [Const(1)] + [Const(2)] == [Const(1), Const(2)];
    assert GenArgs(args, st, []) == GenArgs([Integer32(2)], st, [Const(1)]);
    assert GenArgs([Integer32(2)], st, [Const(1)]) == GenArgs([], st, [Const(1), Const(2)]);
    assert GenArgs(args, st, []) == Ok(Args([Const(1), Const(2)], st));
  }

  // ---------------------------------------------------------------------
  // Binary operations
  // ---------------------------------------------------------------------

  /**
   * `+ - * /` on operands of primitive types: one arithmetic instruction on
   * the two values, typed by the promotion table; a pair the table lacks
   * raises "map::at" and emits nothing.
   */
  lemma ArithmeticTyped(op: TokenType, lhs: Expr, a: Prim, b: Prim, li: Ir, ri: Ir, st: GenState)
    requires Valid(st) && Operation.IsFoldedOp(op)
    ensures var res := GenBinary(op, lhs, Value(li, Some(PrimType(a))), Value(ri, Some(PrimType(b))), st);
      (Promote(a, b).None? ==> res == Err("map::at")) &&
      (Promote(a, b).Some? ==>
        res == Ok(Gen(Value(Next(st), Some(PrimType(Promote(a, b).value))), Emit(st, Arith(op.op, li, ri)))))
  {
    TypeInfFollowsTable(a, b);
  }

  /**
   * `l op r` for `+ - * /`: the left operand is generated first, then the
   * right one from where it ended; a failure of either is the result. Then
   * the operation fails exactly when `type_inf` meets a missing pair, and
   * otherwise emits one arithmetic instruction on the two values, which is
   * its value.
   */
  lemma ArithmeticAfterOperands(op: TokenType, lhs: Expr, rhs: Expr, st: GenState)
    requires Valid(st) && Operation.IsFoldedOp(op)
    ensures var l := GenExpr(lhs, st); var res := GenExpr(BinaryOperation(op, lhs, rhs), st);
      (l.Err? ==> res == Err(l.message)) &&
      (l.Ok? ==>
        var r := GenExpr(rhs, l.value.st);
        (r.Err? ==> res == Err(r.message)) &&
        (r.Ok? ==>
          var ty := TypeInf(l.value.value.ty, r.value.value.ty);
          (res.Err? <==> ty.MissingPair?) &&
          (res.Err? ==> res.message == "map::at") &&
          (res.Ok? ==>
            res.value.st.code == r.value.st.code + [Arith(op.op, l.value.value.ir, r.value.value.ir)] &&
            res.value.st.warnings == r.value.st.warnings &&
            res.value.value.ir == Inst(|r.value.st.code|))))
  {
  }

  /**
   * `x = e` with `x` bound to the storage `a`: `x` is loaded first, `e` is
   * generated after that load, and the value of `e` is stored into `a`
   * itself, the address the load of `x` read.
   */
  lemma AssignToVariable(x: string, rhs: Expr, st: GenState)
    requires Valid(st) && Find(st.tables, x).Some?
    ensures var a := Find(st.tables, x).value; var st1 := Emit(st, Load(a));
      var r := GenExpr(rhs, st1); var res := GenExpr(BinaryOperation(Operator(Assign), Identifier(x), rhs), st);
      (r.Err? ==> res == Err(r.message)) &&
      (r.Ok? ==> res == Ok(Gen(Value(Next(r.value.st), None), Emit(r.value.st, Store(r.value.value.ir, a)))))
  {
    var a := Find(st.tables, x).value;
    var st1 := Emit(st, Load(a));
    assert GenExpr(Identifier(x), st) == Ok(Gen(Value(Next(st), None), st1));
    var r := GenExpr(rhs, st1);
    if r.Ok? {
      assert r.value.st.code[..|st1.code|] == st1.code;
      assert r.value.st.code[|st.code|] == Load(a);
      assert LoadedFrom(Next(st), r.value.st.code) == Some(a);
    }
  }

  /** `x = 5` with `x` bound to `a`: exactly a load of `a`, then the store of 5 into `a`. */
  lemma AssignStoresIntoSlot(x: string, n: int, st: GenState)
    requires Valid(st) && Find(st.tables, x).Some?
    ensures var a := Find(st.tables, x).value;
      GenExpr(BinaryOperation(Operator(Assign), Identifier(x), Integer32(n)), st)
        == Ok(Gen(Value(Inst(|st.code| + 1), None), st.(code := st.code + [Load(a), Store(Const(n), a)])))
  {
    var a := Find(st.tables, x).value;
    AssignToVariable(x, Integer32(n), st);
    assert Emit(Emit(st, Load(a)), Store(Const(n), a)).code == st.code + [Load(a), Store(Const(n), a)];
  }

  // ---------------------------------------------------------------------
  // Return statements
  // ---------------------------------------------------------------------

  predicate IsRetInstr(i: Instr)
  {
    i.Ret? || i.RetVoid?
  }

  /**
   * A value return in a void function and a bare return in a non-void
   * function raise the matching error; otherwise exactly one return
   * instruction is emitted, it is the last instruction, and it is the value.
   */
  lemma ReturnRules(e: Option<Expr>, st: GenState)
    requires Valid(st)
    ensures e.Some? && IsVoid(st.returnType) ==> GenStmt(ReturnStatement(e), st) == Err(ValueReturnInVoid)
    ensures e.None? && !IsVoid(st.returnType) ==> GenStmt(ReturnStatement(e), st) == Err(BareReturnInNonVoid)
    ensures e.None? && IsVoid(st.returnType) ==> GenStmt(ReturnStatement(e), st) == Ok(Gen(Value(Next(st), None), Emit(st, RetVoid)))
    ensures GenStmt(ReturnStatement(e), st).Ok? ==>
      var st' := GenStmt(ReturnStatement(e), st).value.st;
      var n := |st'.code| - 1;
      |st.code| <= n && IsRetInstr(st'.code[n]) && GenStmt(ReturnStatement(e), st).value.value.ir == Inst(n)
      && forall k :: |st.code| <= k < n ==> !IsRetInstr(st'.code[k])
  {
    if e.Some? && !IsVoid(st.returnType) {
      var v := GenExpr(e.value, st);
      if v.Ok? {
        assert forall k :: |st.code| <= k < |v.value.st.code| ==> Straight(v.value.st.code[k]);
      }
    }
  }

  // ---------------------------------------------------------------------
  // Unsafe regions
  // ---------------------------------------------------------------------

  /** Closes the unsafe region an outer wrapper opened, as every wrapper does on the way out. */
  function Closed(r: Result<Gen>): Result<Gen>
  {
    if r.Err? then r else Ok(Gen(r.value.value, r.value.st.(unsafe := false)))
  }

  /** Inside an unsafe region a wrapper adds exactly one warning and leaves the flag set. */
  lemma RedundantUnsafe(s: Stmt, e: Expr, st: GenState)
    requires Valid(st) && st.unsafe
    ensures GenStmt(UnsafeStatement(s), st) == GenStmt(s, Warn(st, RedundantUnsafeStatement))
    ensures GenExpr(UnsafeExpression(e), st) == GenExpr(e, Warn(st, RedundantUnsafeExpression))
    ensures GenStmt(UnsafeStatement(s), st).Ok? ==> GenStmt(UnsafeStatement(s), st).value.st.unsafe
  {
  }

  /** Outside an unsafe region a wrapper runs the inner node with the flag set and clears it afterwards. */
  lemma OpensUnsafeRegion(s: Stmt, e: Expr, st: GenState)
    requires Valid(st) && !st.unsafe
    ensures GenStmt(UnsafeStatement(s), st) == Closed(GenStmt(s, st.(unsafe := true)))
    ensures GenExpr(UnsafeExpression(e), st) == Closed(GenExpr(e, st.(unsafe := true)))
    ensures GenStmt(UnsafeStatement(s), st).Ok? ==> !GenStmt(UnsafeStatement(s), st).value.st.unsafe
  {
  }

  /** Two nested wrappers outside any region: the inner node runs in a region, after exactly one redundancy warning. */
  lemma NestedUnsafeWarnsOnce(s: Stmt, st: GenState)
    requires Valid(st) && !st.unsafe
    ensures GenStmt(UnsafeStatement(UnsafeStatement(s)), st)
         == Closed(GenStmt(s, Warn(st.(unsafe := true), RedundantUnsafeStatement)))
  {
    var st1 := st.(unsafe := true);
    assert GenStmt(UnsafeStatement(s), st1) == GenStmt(s, Warn(st1, RedundantUnsafeStatement));
    assert GenStmt(UnsafeStatement(UnsafeStatement(s)), st) == Closed(GenStmt(UnsafeStatement(s), st1));
  }

  /**
   * A pointer variable without initialiser: refused outside an unsafe region,
   * and inside `unsafe` it is allocated and bound, with no warning and the
   * flag cleared afterwards.
   */
  lemma UnsafeDeclarationGating(x: string, pointee: Option<TypeNode>, st: GenState)
    requires Valid(st) && !st.unsafe && x !in Current(st)
    ensures GenStmt(VariableDeclaration(VarDecl(Pointer(pointee), x, None)), st) == Err(UnsafeDeclaration)
    ensures
      var r := GenStmt(UnsafeStatement(VariableDeclaration(VarDecl(Pointer(pointee), x, None))), st);
      r.Ok? && !r.value.st.unsafe && r.value.st.warnings == st.warnings
      && r.value.st.code == st.code + [Alloca(x, Pointer(pointee))]
      && Current(r.value.st) == Current(st)[x := Next(st)]
  {
    var d := VarDecl(Pointer(pointee), x, None);
    var st1 := st.(unsafe := true);
    var a := Emit(st1, Alloca(x, Pointer(pointee)));
    assert Current(a) == Current(st);
    assert GenVarDecl(d, st1) == Ok(Gen(Value(Next(st), None), Insert(a, x, Next(st))));
    assert GenStmt(UnsafeStatement(VariableDeclaration(d)), st) == Closed(GenStmt(VariableDeclaration(d), st1));
  }

  // ---------------------------------------------------------------------
  // Scopes and blocks
  // ---------------------------------------------------------------------

  /** After a scope the chain is exactly as before: nothing declared inside remains visible. */
  lemma ScopeRestoresChain(statements: seq<Stmt>, st: GenState)
    requires Valid(st)
    ensures GenStmt(Scope(statements), st).Ok? ==> GenStmt(Scope(statements), st).value.st.tables == st.tables
  {
    var r := GenSeq(statements, Push(st), NoValue);
    if r.Ok? {
      assert Outer(r.value.st) == st.tables;
    }
  }

  /** The statements of a scope run against a fresh, empty current table whose parent is the old chain. */
  lemma ScopeRunsInFreshTable(statements: seq<Stmt>, st: GenState)
    requires Valid(st)
    ensures GenStmt(Scope(statements), st).Ok? <==> GenSeq(statements, Push(st), NoValue).Ok?
    ensures Push(st).tables == st.tables + [map[]]
  {
  }

  /** The generation of `ss` followed by a statement. */
  function Then(r: Result<Gen>, s: Stmt): Result<Gen>
  {
    if r.Err? || !Valid(r.value.st) then r else GenStmt(s, r.value.st)
  }

  /** A block generates its statements in order, and its value is the last statement's. */
  lemma {:induction false} BlockInOrder(statements: seq<Stmt>, s: Stmt, st: GenState, last: Value)
    requires Valid(st)
    ensures GenSeq(statements + [s], st, last) == Then(GenSeq(statements, st, last), s)
  {
    if statements == [] {
      assert [] + [s] == [s];
    } else {
      assert (statements + [s])[1..] == statements[1..] + [s];
      var g := GenStmt(statements[0], st);
      if g.Ok? {
        BlockInOrder(statements[1..], s, g.value.st, g.value.value);
      }
    }
  }

  /** An empty block leaves everything as it is and has no value. */
  lemma EmptyBlock(st: GenState)
    requires Valid(st)
    ensures GenStmt(Block([]), st) == Ok(Gen(NoValue, st))
  {
  }

  /** The preprocessing of `ss` followed by a statement. */
  function ThenPre(r: Result<GenState>, s: Stmt): Result<GenState>
  {
    if r.Err? || !Valid(r.value) then r else PreStmt(s, r.value)
  }

  /** Preprocessing visits the statements of a block, and of a scope, in order. */
  lemma {:induction false} PreprocessInOrder(statements: seq<Stmt>, s: Stmt, st: GenState)
    requires Valid(st)
    ensures PreSeq(statements + [s], st) == ThenPre(PreSeq(statements, st), s)
    ensures PreStmt(Scope(statements), st) == PreStmt(Block(statements), st)
  {
    if statements == [] {
      assert [] + [s] == [s];
    } else {
      assert (statements + [s])[1..] == statements[1..] + [s];
      var p := PreStmt(statements[0], st);
      if p.Ok? {
        PreprocessInOrder(statements[1..], s, p.value);
      }
    }
  }

  // ---------------------------------------------------------------------
  // Variable declarations
  // ---------------------------------------------------------------------

  /** An unsafe type outside an unsafe region is refused before anything else, whatever the initialiser. */
  lemma UnsafeDeclarationFirst(d: VarDecl, st: GenState)
    requires Valid(st) && !st.unsafe && !TypeIsSafe(d.ty)
    ensures GenStmt(VariableDeclaration(d), st) == Err(UnsafeDeclaration)
  {
  }

  /**
   * A reference without initialiser is an error; with one, only its storage
   * is allocated: the initialiser is not generated and the name is not bound.
   */
  lemma ReferenceDeclaration(d: VarDecl, st: GenState)
    requires Valid(st) && d.ty.LValueReference? && st.unsafe
    ensures d.expression.None? ==> GenStmt(VariableDeclaration(d), st) == Err(UninitializedReference)
    ensures d.expression.Some? ==>
      GenStmt(VariableDeclaration(d), st) == Ok(Gen(NoValue, Emit(st, Alloca(d.identifier, d.ty))))
  {
  }

  /** A name already bound in the current table keeps its binding: the chain is unchanged. */
  lemma RedeclarationKeepsFirst(d: VarDecl, st: GenState)
    requires Valid(st) && d.identifier in Current(st)
    ensures GenStmt(VariableDeclaration(d), st).Ok? ==> GenStmt(VariableDeclaration(d), st).value.st.tables == st.tables
  {
    if GenVarDecl(d, st).Ok? && !d.ty.LValueReference? {
      var slot := Next(st);
      var st1 := Emit(st, Alloca(d.identifier, d.ty));
      var init :=
        if d.expression.None? then Ok(st1)
        else if d.expression.value.ArrayInitList? then ArrayHelper(d.expression.value.elements, slot, st1)
        else StoreValue(d.expression.value, slot, st1);
      assert init.value.tables == st.tables;
      assert GenVarDecl(d, st).value.st == Insert(init.value, d.identifier, slot);
    }
  }

  /** A new name is bound, in the current table only, to the storage allocated first. */
  lemma DeclarationBinds(d: VarDecl, st: GenState)
    requires Valid(st) && d.identifier !in Current(st) && !d.ty.LValueReference?
    ensures
      var r := GenStmt(VariableDeclaration(d), st);
      r.Ok? ==> (Current(r.value.st) == Current(st)[d.identifier := Next(st)]
                 && r.value.st.code[|st.code|] == Alloca(d.identifier, d.ty) && r.value.value == Value(Next(st), None))
  {
    if GenVarDecl(d, st).Ok? {
      var slot := Next(st);
      var st1 := Emit(st, Alloca(d.identifier, d.ty));
      var init :=
        if d.expression.None? then Ok(st1)
        else if d.expression.value.ArrayInitList? then ArrayHelper(d.expression.value.elements, slot, st1)
        else StoreValue(d.expression.value, slot, st1);
      assert init.value.tables == st.tables && st1.code <= init.value.code;
      assert GenVarDecl(d, st).value == Gen(Value(slot, None), Insert(init.value, d.identifier, slot));
    }
  }

  // ---------------------------------------------------------------------
  // Array initialisers
  // ---------------------------------------------------------------------

  /** A leaf of an initialiser list: the element path where it goes and the expression stored there. */
  datatype Leaf = Leaf(path: seq<nat>, e: Expr)

  /**
   * An initialiser list `array_helper` can walk: non-empty, and so is every
   * list nested in it (an empty one underflows `size() - 1`).
   */
  predicate WellFormedList(elements: seq<Expr>)
    decreases elements, 1
  {
    elements != [] && WellFormedElement(elements[0]) && (|elements| == 1 || WellFormedList(elements[1..]))
  }

  predicate WellFormedElement(e: Expr)
    decreases e, 0
  {
    !e.ArrayInitList? || WellFormedList(e.elements)
  }

  /**
   * The leaves of a list, in source order, where the element at position
   * `k + i` of the list at `path` sits at `path + [k + i]`: consecutive
   * slots, nested lists at the slot of their position.
   */
  function Leaves(elements: seq<Expr>, path: seq<nat>, k: nat): seq<Leaf>
    decreases elements, 0
  {
    if elements == [] then [] else ElementLeaves(elements[0], path + [k]) + Leaves(elements[1..], path, k + 1)
  }

  function ElementLeaves(e: Expr, path: seq<nat>): seq<Leaf>
    decreases e, 1
  {
    if e.ArrayInitList? then Leaves(e.elements, path, 0) else [Leaf(path, e)]
  }

  /**
   * The flat reference for filling an array: each leaf in turn is generated
   * and stored into its element of the storage at `base`; the first error
   * ends the walk.
   */
  function StoreLeaves(base: Ir, leaves: seq<Leaf>, st: GenState): (r: Result<GenState>)
    requires Valid(st)
    ensures r.Ok? ==> ExprExtends(st, r.value)
  {
    if leaves == [] then Ok(st)
    else
      var r := StoreValue(leaves[0].e, Element(base, leaves[0].path), st);
      if r.Err? then r else StoreLeaves(base, leaves[1..], r.value)
  }

  /** Storing `a + b` stores `a`, then, unless that failed, `b`. */
  lemma {:induction false} StoreLeavesAppend(base: Ir, a: seq<Leaf>, b: seq<Leaf>, st: GenState)
    requires Valid(st)
    ensures var r := StoreLeaves(base, a, st);
      StoreLeaves(base, a + b, st) == if r.Err? then r else StoreLeaves(base, b, r.value)
  {
    if a == [] {
      assert a + b == b;
    } else {
      assert (a + b)[0] == a[0];
      assert (a + b)[1..] == a[1..] + b;
      var r := StoreValue(a[0].e, Element(base, a[0].path), st);
      if r.Ok? {
        StoreLeavesAppend(base, a[1..], b, r.value);
      }
    }
  }

  /**
   * `array_helper` at an element address stores the leaves of the list, in
   * source order, each into its slot, for elements of any kind.
   */
  lemma {:induction false} HelperStoresLeaves(elements: seq<Expr>, base: Ir, path: seq<nat>, st: GenState)
    requires Valid(st) && WellFormedList(elements)
    decreases elements, 1
    ensures ArrayHelper(elements, Element(base, path), st) == StoreLeaves(base, Leaves(elements, path, 0), st)
  {
    ElementsStoreLeaves(elements, base, path, 0, st);
  }

  /** The element loop from position `k` on stores the leaves of the remaining elements. */
  lemma {:induction false} ElementsStoreLeaves(elements: seq<Expr>, base: Ir, path: seq<nat>, k: nat, st: GenState)
    requires Valid(st) && WellFormedList(elements)
    decreases elements, 0
    ensures ArrayElements(elements, Element(base, path + [k]), st) == StoreLeaves(base, Leaves(elements, path, k), st)
  {
    var at := Element(base, path + [k]);
    var first := ElementLeaves(elements[0], path + [k]);
    var rest := Leaves(elements[1..], path, k + 1);
    ElementStores(elements[0], base, path + [k], st);
    StoreLeavesAppend(base, first, rest, st);
    var here := StoreLeaves(base, first, st);
    if here.Ok? && |elements| > 1 {
      assert Advance(at) == Element(base, path + [k + 1]);
      ElementsStoreLeaves(elements[1..], base, path, k + 1, here.value);
    } else if here.Ok? {
      assert rest == [];
    }
  }

  /** One element of a list: a nested list goes through `array_helper`, anything else is stored at its slot. */
  lemma {:induction false} ElementStores(e: Expr, base: Ir, path: seq<nat>, st: GenState)
    requires Valid(st) && WellFormedElement(e) && path != []
    decreases e, 0
    ensures (if e.ArrayInitList? then ArrayHelper(e.elements, Element(base, path), st) else StoreValue(e, Element(base, path), st))
         == StoreLeaves(base, ElementLeaves(e, path), st)
  {
    if e.ArrayInitList? {
      HelperStoresLeaves(e.elements, base, path, st);
    } else {
      var r := StoreValue(e, Element(base, path), st);
      assert ElementLeaves(e, path) == [Leaf(path, e)];
      if r.Ok? {
        assert StoreLeaves(base, [Leaf(path, e)][1..], r.value) == Ok(r.value);
      }
    }
  }

  /**
   * A declaration initialised by a list allocates its storage, stores every
   * leaf in order into its element of that storage, and binds its name;
   * the first failing element is the declaration's error.
   */
  lemma ArrayDeclarationLayout(ty: TypeNode, x: string, elements: seq<Expr>, st: GenState)
    requires Valid(st) && (st.unsafe || TypeIsSafe(ty)) && !ty.LValueReference? && WellFormedList(elements)
    ensures
      var st1 := Emit(st, Alloca(x, ty));
      var filled := StoreLeaves(Next(st), Leaves(elements, [], 0), st1);
      var r := GenStmt(VariableDeclaration(VarDecl(ty, x, Some(ArrayInitList(elements)))), st);
      (filled.Err? ==> r == Err(filled.message))
      && (filled.Ok? ==> r == Ok(Gen(Value(Next(st), None), Insert(filled.value, x, Next(st)))))
  {
    var st1 := Emit(st, Alloca(x, ty));
    assert FirstElement(Next(st)) == Element(Next(st), [] + [0]);
    ElementsStoreLeaves(elements, Next(st), [], 0, st1);
  }

  /** The store of every leaf, when each leaf is an integer literal. */
  function Stores(base: Ir, leaves: seq<Leaf>): seq<Instr>
  {
    if leaves == [] then []
    else [Store(Const(if leaves[0].e.Integer32? then leaves[0].e.data else 0), Element(base, leaves[0].path))]
         + Stores(base, leaves[1..])
  }

  /** Leaves that are integer literals are stored with one store each, and nothing else is emitted. */
  lemma {:induction false} LiteralLeavesStored(base: Ir, leaves: seq<Leaf>, st: GenState)
    requires Valid(st) && forall i :: 0 <= i < |leaves| ==> leaves[i].e.Integer32?
    ensures StoreLeaves(base, leaves, st) == Ok(st.(code := st.code + Stores(base, leaves)))
  {
    if leaves == [] {
      assert st.code + Stores(base, leaves) == st.code;
    } else {
      var l := leaves[0];
      assert GenExpr(l.e, st) == Ok(Gen(Value(Const(l.e.data), Some(IntType)), st));
      var mid := Emit(st, Store(Const(l.e.data), Element(base, l.path)));
      assert StoreValue(l.e, Element(base, l.path), st) == Ok(mid);
      assert StoreLeaves(base, leaves, st) == StoreLeaves(base, leaves[1..], mid);
      assert forall i :: 0 <= i < |leaves[1..]| ==> leaves[1..][i] == leaves[i + 1];
      LiteralLeavesStored(base, leaves[1..], mid);
      assert st.code + Stores(base, leaves) == mid.code + Stores(base, leaves[1..]);
    }
  }

  /** A list without nested lists puts element `i` at position `k + i`: consecutive slots in source order. */
  lemma {:induction false} FlatListSlots(elements: seq<Expr>, path: seq<nat>, k: nat)
    requires forall i :: 0 <= i < |elements| ==> !elements[i].ArrayInitList?
    ensures |Leaves(elements, path, k)| == |elements|
    ensures forall i :: 0 <= i < |elements| ==> Leaves(elements, path, k)[i] == Leaf(path + [k + i], elements[i])
  {
    if elements != [] {
      FlatListSlots(elements[1..], path, k + 1);
      var rest := Leaves(elements[1..], path, k + 1);
      assert Leaves(elements, path, k) == [Leaf(path + [k], elements[0])] + rest;
      forall i | 1 <= i < |elements|
        ensures Leaves(elements, path, k)[i] == Leaf(path + [k + i], elements[i])
      {
        assert rest[i - 1] == Leaf(path + [k + 1 + (i - 1)], elements[1..][i - 1]);
      }
    }
  }

  /** `{1, {2, 3}, 4}`: the nested list fills the slots under position 1, and 4 goes to position 2. */
  lemma NestedListSlots()
    ensures Leaves([Integer32(1), ArrayInitList([Integer32(2), Integer32(3)]), Integer32(4)], [], 0)
         == [Leaf([0], Integer32(1)), Leaf([1, 0], Integer32(2)), Leaf([1, 1], Integer32(3)), Leaf([2], Integer32(4))]
  {
    var inner := [Integer32(2), Integer32(3)];
    var outer := [Integer32(1), ArrayInitList(inner), Integer32(4)];
    assert [] + [0] == [0] && [] + [1] == [1] && [] + [2] == [2] && [1] + [0] == [1, 0] && [1] + [1] == [1, 1];
    assert Leaves(inner[1..], [1], 1) == [Leaf([1, 1], Integer32(3))] + Leaves([], [1], 2);
    assert Leaves(inner, [1], 0) == [Leaf([1, 0], Integer32(2)), Leaf([1, 1], Integer32(3))];
    assert Leaves(outer[2..], [], 2) == [Leaf([2], Integer32(4))] + Leaves([], [], 3);
    assert Leaves(outer[1..], [], 1) == Leaves(inner, [1], 0) + Leaves(outer[2..], [], 2);
    assert Leaves(outer, [], 0) == [Leaf([0], Integer32(1))] + Leaves(outer[1..], [], 1);
  }

  // ---------------------------------------------------------------------
  // Function declarations
  // ---------------------------------------------------------------------

  lemma {:induction false} ParamNamesHas(params: seq<VarDecl>, i: nat)
    requires i < |params|
    ensures params[i].identifier in ParamNames(params)
  {
    if i > 0 {
      ParamNamesHas(params[1..], i - 1);
    }
  }

  /** After a function declaration no parameter name remains in the current table. */
  lemma ParametersUnboundAfter(s: Stmt, st: GenState)
    requires Valid(st) && s.FunctionDeclaration?
    ensures GenStmt(s, st).Ok? ==>
      forall i :: 0 <= i < |s.parameter| ==> s.parameter[i].identifier !in Current(GenStmt(s, st).value.st)
  {
    forall i | 0 <= i < |s.parameter| {
      ParamNamesHas(s.parameter, i);
    }
  }

  /**
   * A parameter named like a binding of the current table is not bound on
   * entry (the first binding wins), yet it is erased on exit: the outer
   * binding is gone afterwards.
   */
  lemma ParameterErasesOuterBinding(s: Stmt, st: GenState)
    requires Valid(st) && s.FunctionDeclaration? && |s.parameter| > 0 && s.parameter[0].identifier in Current(st)
    ensures GenStmt(s, st).Ok? ==> s.parameter[0].identifier !in Current(GenStmt(s, st).value.st)
  {
    ParametersUnboundAfter(s, st);
  }

  /** Parameter names are pairwise distinct. */
  predicate DistinctNames(params: seq<VarDecl>)
  {
    forall i, j :: 0 <= i < j < |params| ==> params[i].identifier != params[j].identifier
  }

  /**
   * On entry, with distinct parameter names not yet bound in the current
   * table, each parameter gets its own storage, holding its argument, and
   * its name is bound to that storage.
   */
  lemma ParametersBound(params: seq<VarDecl>, st: GenState)
    requires Valid(st) && DistinctNames(params)
    requires forall i :: 0 <= i < |params| ==> params[i].identifier !in Current(st)
    ensures
      var st' := BindParams(params, st);
      forall i :: 0 <= i < |params| ==> ParameterAt(params[i], |st.code| + 2 * i, st')
  {
    forall i | 0 <= i < |params|
      ensures ParameterAt(params[i], |st.code| + 2 * i, BindParams(params, st))
    {
      ParameterBound(params, st, i);
    }
  }

  /** The parameter's storage is allocated at `slot`, its argument stored right after, and its name bound to it. */
  predicate ParameterAt(p: VarDecl, slot: nat, st: GenState)
    requires Valid(st)
  {
    p.identifier in Current(st) && Current(st)[p.identifier] == Inst(slot)
    && slot + 1 < |st.code|
    && st.code[slot] == Alloca(p.identifier, p.ty) && st.code[slot + 1] == Store(Argument(p.identifier), Inst(slot))
  }

  lemma {:induction false} ParameterBound(params: seq<VarDecl>, st: GenState, i: nat)
    requires Valid(st) && DistinctNames(params) && i < |params|
    requires forall j :: 0 <= j < |params| ==> params[j].identifier !in Current(st)
    ensures ParameterAt(params[i], |st.code| + 2 * i, BindParams(params, st))
  {
    var p := params[0];
    var st1 := BindParam(p, st);
    var fin := BindParams(params[1..], st1);
    assert BindParams(params, st) == fin;
    TailStillFree(params, st);
    if i == 0 {
      var n := |st.code|;
      assert Current(st1)[p.identifier] == Inst(n);
      BindKeeps(params[1..], st1, p.identifier);
      CodeKept(params[1..], st1, n);
      CodeKept(params[1..], st1, n + 1);
      assert fin.code[n] == Alloca(p.identifier, p.ty) && fin.code[n + 1] == Store(Argument(p.identifier), Inst(n));
    } else {
      ParameterBound(params[1..], st1, i - 1);
      assert params[1..][i - 1] == params[i];
      assert |st1.code| + 2 * (i - 1) == |st.code| + 2 * i;
    }
  }

  /** After the first parameter is bound, the others are still distinct and still unbound. */
  lemma TailStillFree(params: seq<VarDecl>, st: GenState)
    requires Valid(st) && DistinctNames(params) && params != []
    requires forall j :: 0 <= j < |params| ==> params[j].identifier !in Current(st)
    ensures DistinctNames(params[1..])
    ensures forall j :: 0 <= j < |params[1..]| ==> params[1..][j].identifier != params[0].identifier
    ensures forall j :: 0 <= j < |params[1..]| ==> params[1..][j].identifier !in Current(BindParam(params[0], st))
  {
    var tail := params[1..];
    assert forall j :: 0 <= j < |tail| ==> tail[j] == params[j + 1];
  }

  /** Binding parameters keeps every instruction already emitted. */
  lemma CodeKept(params: seq<VarDecl>, st: GenState, n: nat)
    requires Valid(st) && n < |st.code|
    ensures n < |BindParams(params, st).code| && BindParams(params, st).code[n] == st.code[n]
  {
    assert st.code <= BindParams(params, st).code;
  }

  /** Binding parameters keeps a binding of a name no parameter has. */
  lemma {:induction false} BindKeeps(params: seq<VarDecl>, st: GenState, name: string)
    requires Valid(st) && name in Current(st)
    requires forall i :: 0 <= i < |params| ==> params[i].identifier != name
    ensures name in Current(BindParams(params, st)) && Current(BindParams(params, st))[name] == Current(st)[name]
  {
    if params != [] {
      BindKeeps(params[1..], BindParam(params[0], st), name);
    }
  }

  /** A void function whose body is empty gets a bare return and no warning. */
  lemma VoidFunctionImplicitReturn(f: string, st: GenState)
    requires Valid(st)
    ensures
      var r := GenStmt(FunctionDeclaration(VoidType, f, [], Block([])), st);
      r == Ok(Gen(Value(Function(f), None), st.(code := st.code + [Entry(f), RetVoid], returnType := VoidType)))
  {
    var entered := Emit(st, Entry(f)).(returnType := VoidType);
    assert BindParams([], entered) == entered;
    assert GenStmt(Block([]), entered) == Ok(Gen(NoValue, entered));
    var done := Emit(entered, RetVoid);
    assert ImplicitReturn(NoValue, entered) == done;
    assert EraseParams([], done) == done;
    assert done == st.(code := st.code + [Entry(f), RetVoid], returnType := VoidType);
  }

  /** A non-void function whose body is empty returns the null value, with exactly one warning. */
  lemma NonVoidFunctionImplicitReturn(f: string, st: GenState)
    requires Valid(st)
    ensures
      var r := GenStmt(FunctionDeclaration(IntType, f, [], Block([])), st);
      r == Ok(Gen(Value(Function(f), None),
                  st.(code := st.code + [Entry(f), Ret(Null)], returnType := IntType, warnings := st.warnings + [NullReturnWarning])))
  {
    var entered := Emit(st, Entry(f)).(returnType := IntType);
    assert BindParams([], entered) == entered;
    assert GenStmt(Block([]), entered) == Ok(Gen(NoValue, entered));
    var done := Warn(Emit(entered, Ret(Null)), NullReturnWarning);
    assert ImplicitReturn(NoValue, entered) == done;
    assert EraseParams([], done) == done;
    assert done == st.(code := st.code + [Entry(f), Ret(Null)], returnType := IntType, warnings := st.warnings + [NullReturnWarning]);
  }

  /** A function whose body ends in a return gets no implicit return and no warning. */
  lemma ExplicitReturnKept(f: string, st: GenState)
    requires Valid(st)
    ensures
      var r := GenStmt(FunctionDeclaration(IntType, f, [], Block([ReturnStatement(Some(Integer32(0)))])), st);
      r == Ok(Gen(Value(Function(f), None), st.(code := st.code + [Entry(f), Ret(Const(0))], returnType := IntType)))
  {
    var entered := Emit(st, Entry(f)).(returnType := IntType);
    assert BindParams([], entered) == entered;
    var ret := ReturnStatement(Some(Integer32(0)));
    var done := Emit(entered, Ret(Const(0)));
    var v := Value(Next(entered), None);
    assert GenExpr(Integer32(0), entered) == Ok(Gen(Value(Const(0), Some(IntType)), entered));
    assert GenStmt(ret, entered) == Ok(Gen(v, done));
    assert [ret][1..] == [];
    assert GenSeq([ret], entered, NoValue) == GenSeq([], done, v);
    assert GenStmt(Block([ret]), entered) == Ok(Gen(v, done));
    assert IsReturn(v.ir, done.code);
    assert ImplicitReturn(v, done) == done;
    assert EraseParams([], done) == done;
    assert done == st.(code := st.code + [Entry(f), Ret(Const(0))], returnType := IntType);
  }

  /**
   * The implicit return, for any function whose body generates: a body whose
   * value is a return instruction gets nothing more; otherwise a void function
   * gets a bare return and a non-void one returns the null value with one
   * warning. Parameter erasure then changes neither the code nor the warnings.
   */
  lemma FunctionImplicitReturn(s: Stmt, st: GenState)
    requires Valid(st) && s.FunctionDeclaration?
    ensures
      var entered := Emit(st, Entry(s.identifier)).(returnType := s.returnType);
      var body := GenStmt(s.body, BindParams(s.parameter, entered));
      var r := GenStmt(s, st);
      (r.Ok? <==> body.Ok?)
      && (body.Ok? ==>
        var b := body.value.st;
        var fin := r.value.st;
        var ret := IsReturn(body.value.value.ir, b.code);
        r.value.value == Value(Function(s.identifier), None)
        && Current(fin) == Current(b) - ParamNames(s.parameter)
        && (ret ==> fin.code == b.code && fin.warnings == b.warnings)
        && (!ret && IsVoid(b.returnType) ==> fin.code == b.code + [RetVoid] && fin.warnings == b.warnings)
        && (!ret && !IsVoid(b.returnType) ==>
              fin.code == b.code + [Ret(Null)] && fin.warnings == b.warnings + [NullReturnWarning]))
  {
    var entered := Emit(st, Entry(s.identifier)).(returnType := s.returnType);
    var body := GenStmt(s.body, BindParams(s.parameter, entered));
    assert GenStmt(s, st) == GenFuncDecl(s, st);
    if body.Ok? {
      var st' := ImplicitReturn(body.value.value, body.value.st);
      assert GenFuncDecl(s, st) == Ok(Gen(Value(Function(s.identifier), None), EraseParams(s.parameter, st')));
    }
  }

  // ---------------------------------------------------------------------
  // Preprocessing of function declarations
  // ---------------------------------------------------------------------

  /**
   * A function declaration preprocesses its body first, then creates its
   * function object after every object the body created, with its parameters
   * in declaration order, and registers its name last.
   */
  lemma PreprocessFunction(rt: TypeNode, f: string, params: seq<VarDecl>, body: Stmt, st: GenState)
    requires Valid(st)
    ensures PreStmt(FunctionDeclaration(rt, f, params, body), st).Ok? <==> PreStmt(body, st).Ok?
    ensures PreStmt(body, st).Ok? ==>
      var b := PreStmt(body, st).value;
      var r := PreStmt(FunctionDeclaration(rt, f, params, body), st).value;
      r.functions == b.functions + [FunctionSig(f, rt, params)]
      && Find(r.tables, f).Some?
      && (f !in Current(b) ==> Current(r) == Current(b)[f := Function(f)])
      && (f in Current(b) ==> r.tables == b.tables)
  {
  }

  /** Two sibling function declarations create their objects in source order. */
  lemma PreprocessSiblings(f: string, g: string, st: GenState)
    requires Valid(st)
    ensures
      var fd := FunctionDeclaration(VoidType, f, [], Block([]));
      var gd := FunctionDeclaration(VoidType, g, [], Block([]));
      var r := PreStmt(Block([fd, gd]), st);
      r.Ok? && r.value.functions == st.functions + [FunctionSig(f, VoidType, []), FunctionSig(g, VoidType, [])]
  {
    var fd := FunctionDeclaration(VoidType, f, [], Block([]));
    var gd := FunctionDeclaration(VoidType, g, [], Block([]));
    assert PreStmt(Block([]), st) == Ok(st);
    var st1 := Insert(st.(functions := st.functions + [FunctionSig(f, VoidType, [])]), f, Function(f));
    assert PreStmt(fd, st) == Ok(st1);
    assert PreStmt(Block([]), st1) == Ok(st1);
    var st2 := Insert(st1.(functions := st1.functions + [FunctionSig(g, VoidType, [])]), g, Function(g));
    assert PreStmt(gd, st1) == Ok(st2);
    assert [fd, gd][1..] == [gd] && [gd][1..] == [];
    assert PreSeq([gd], st1) == PreSeq([], st2);
    assert PreSeq([fd, gd], st) == PreSeq([gd], st1);
  }

  /** A return statement without an expression cannot be preprocessed. */
  lemma PreprocessBareReturn(st: GenState)
    requires Valid(st)
    ensures PreStmt(ReturnStatement(None), st).Err?
  {
  }
}
