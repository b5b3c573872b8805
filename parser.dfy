/**
 * The parser object: a cursor over a fixed token sequence and an
 * append-only list of diagnostics, updated in place by one method per
 * production. Each method is proved to leave the object exactly in the state
 * the corresponding production of module Grammar computes, and to return the
 * node that production returns.
 */
module ParserImpl {
  import opened Wrappers
  import opened Tokens
  import Ast
  import G = Grammar

  /** `std::reverse` on the operand vector of `assign`: reverses `a` in place. */
  method ReverseInPlace<T>(a: array<T>)
    modifies a
    ensures a[..] == G.Reverse(old(a[..]))
  {
    ghost var s := a[..];
    var lo, hi := 0, a.Length;
    while lo + 1 < hi
      invariant 0 <= lo && hi == a.Length - lo && lo <= hi
      invariant forall i :: 0 <= i < lo ==> a[i] == s[a.Length - 1 - i] && a[a.Length - 1 - i] == s[i]
      invariant forall i :: lo <= i < hi ==> a[i] == s[i]
      decreases hi - lo
    {
      a[lo], a[hi - 1] := a[hi - 1], a[lo];
      lo, hi := lo + 1, hi - 1;
    }
    forall i | 0 <= i < a.Length
      ensures a[i] == G.Reverse(s)[i]
    {
      G.ReverseElement(s, i);
    }
  }

  class Parser {
    const tokens: seq<Token>
    var cursor: nat
    var errors: seq<Diagnostic>

    function State(): G.PState
      reads this
    {
      G.PState(cursor, errors)
    }

    ghost predicate Valid()
      reads this
    {
      G.Valid(tokens, State())
    }

    /** A parser at the first token with no diagnostics. */
    constructor (input: seq<Token>)
      requires WellFormed(input)
      ensures Valid() && tokens == input && cursor == 0 && errors == []
    {
      tokens := input;
      cursor := 0;
      errors := [];
    }

    function CurrentToken(): Token
      reads this
      requires Valid()
    {
      tokens[cursor]
    }

    function PreviousToken(): Token
      reads this
      requires Valid() && cursor > 0
    {
      tokens[cursor - 1]
    }

    /** `accept`: consumes the current token iff it has type `k`, and hands it back. */
    method Accept(k: TokenType) returns (tok: Option<Token>)
      requires Valid() && k != EndOfInput
      modifies this
      ensures Valid() && G.Step(tok, State()) == G.Accept(tokens, old(State()), k)
    {
      if tokens[cursor].kind == k {
        cursor := cursor + 1;
        tok := Some(PreviousToken());
      } else {
        tok := None;
      }
    }

    /** `errors_.add_error` for a diagnostic about the current token. */
    method AddError(message: string)
      requires Valid()
      modifies this
      ensures Valid() && State() == G.AddError(tokens, old(State()), message)
    {
      errors := errors + [Diagnostic(tokens[cursor], message)];
    }

    /** `parse`: the whole input is one `block`. */
    method Parse() returns (node: Option<Ast.Stmt>)
      requires Valid()
      modifies this
      ensures Valid() && G.Reply(node, State()) == G.PBlock(tokens, old(State()))
    {
      node := Block();
    }

    method Block() returns (node: Option<Ast.Stmt>)
      requires Valid()
      modifies this
      decreases |tokens| - cursor, 18
      ensures Valid() && G.Reply(node, State()) == G.PBlock(tokens, old(State()))
    {
      ghost var st0 := State();
      var statements: seq<Ast.Stmt> := [];
      while true
        invariant Valid() && st0.cursor <= cursor
        invariant G.BlockLoop(tokens, st0, []) == G.BlockLoop(tokens, State(), statements)
        decreases |tokens| - cursor
      {
        ghost var pre := State();
        var s := Scope();
        assert G.BlockLoop(tokens, pre, statements) ==
          if s.None? then G.Many(statements, State()) else G.BlockLoop(tokens, State(), statements + [s.value]);
        if s.None? {
          break;
        }
        statements := statements + [s.value];
      }
      if errors == [] {
        node := Some(Ast.Block(statements));
      } else {
        node := None;
      }
    }

    method Scope() returns (node: Option<Ast.Stmt>)
      requires Valid()
      modifies this
      decreases |tokens| - cursor, 16
      ensures Valid() && G.Reply(node, State()) == G.PScope(tokens, old(State()))
    {
      ghost var st0 := State();
      var lb := Accept(LBrace);
      if lb.None? {
        node := VarDecl();
        return;
      }
      ghost var bodyStart := State();
      var statements: seq<Ast.Stmt> := [];
      while true
        invariant Valid() && bodyStart.cursor <= cursor
        invariant G.ScopeLoop(tokens, bodyStart, []) == G.ScopeLoop(tokens, State(), statements)
        decreases |tokens| - cursor
      {
        ghost var pre := State();
        var d := VarDecl();
        assert G.ScopeLoop(tokens, pre, statements) ==
          if d.None? then G.Many(statements, State()) else G.ScopeLoop(tokens, State(), statements + [d.value]);
        if d.None? {
          break;
        }
        statements := statements + [d.value];
      }
      ghost var bodyEnd := State();
      var rb := Accept(RBrace);
      if rb.Some? {
        node := Some(Ast.Scope(statements));
      } else {
        AddError(G.ButGot(G.ExpectedRBrace, CurrentToken()));
        node := None;
      }
    }

    method VarDecl() returns (node: Option<Ast.Stmt>)
      requires Valid()
      modifies this
      decreases |tokens| - cursor, 14
      ensures Valid() && G.Reply(node, State()) == G.PVarDecl(tokens, old(State()))
    {
      var ty := SimpleType();
      if ty.None? {
        node := ReturnStmt();
      } else {
        node := DeclAfterType(ty.value);
      }
    }

    /** The part of `var_decl` after the type. */
    method DeclAfterType(ty: Ast.TypeNode) returns (node: Option<Ast.Stmt>)
      requires Valid()
      modifies this
      decreases |tokens| - cursor, 14
      ensures Valid() && G.Reply(node, State()) == G.DeclAfterType(tokens, old(State()), ty)
    {
      var id := Accept(Ident);
      if id.None? {
        AddError(G.ButGot(G.ExpectedIdentifier, CurrentToken()));
        return None;
      }
      node := DeclAfterName(ty, id.value.data);
    }

    /** The part of `var_decl` after the type and the name. */
    method DeclAfterName(ty: Ast.TypeNode, name: string) returns (node: Option<Ast.Stmt>)
      requires Valid()
      modifies this
      decreases |tokens| - cursor, 14
      ensures Valid() && G.Reply(node, State()) == G.DeclAfterName(tokens, old(State()), ty, name)
    {
      var eq := Accept(Operator(Assign));
      if eq.Some? {
        var e := TerminatedExpr();
        node := if e.Some? then Some(Ast.VariableDeclaration(Ast.VarDecl(ty, name, e))) else None;
        return;
      }
      var semi := Accept(Semicolon);
      if semi.Some? {
        return Some(Ast.VariableDeclaration(Ast.VarDecl(ty, name, None)));
      }
      var lp := Accept(LParen);
      if lp.Some? {
        node := FuncDecl(ty, name);
        return;
      }
      AddError(G.ButGot(G.ExpectedIdentifier, CurrentToken()));
      return None;
    }

    method FuncDecl(returnType: Ast.TypeNode, name: string) returns (node: Option<Ast.Stmt>)
      requires Valid()
      modifies this
      decreases |tokens| - cursor, 13
      ensures Valid() && G.Reply(node, State()) == G.PFuncDecl(tokens, old(State()), returnType, name)
    {
      ghost var st0 := State();
      var params := ParamList();
      if params.None? {
        return None;
      }
      ghost var afterParams := State();
      var body := Scope();
      ghost var afterBody := State();
      assert G.PFuncDecl(tokens, st0, returnType, name) ==
        if body.None? then G.Reply(None, G.AddError(tokens, afterBody, G.Unexpected(tokens[afterBody.cursor])))
        else G.Reply(Some(Ast.FunctionDeclaration(returnType, name, params.value, body.value)), afterBody);
      if body.None? {
        AddError(G.Unexpected(CurrentToken()));
        return None;
      }
      node := Some(Ast.FunctionDeclaration(returnType, name, params.value, body.value));
    }

    /** The `while (true)` parameter loop of `func_decl`, up to and including `)`. */
    method ParamList() returns (params: Option<seq<Ast.VarDecl>>)
      requires Valid()
      modifies this
      decreases |tokens| - cursor, 12
      ensures Valid() && G.Reply(params, State()) == G.ParamLoop(tokens, old(State()), [])
    {
      ghost var st0 := State();
      var list: seq<Ast.VarDecl> := [];
      while true
        invariant Valid() && st0.cursor <= cursor
        invariant G.ParamLoop(tokens, st0, []) == G.ParamLoop(tokens, State(), list)
        decreases |tokens| - cursor
      {
        ghost var pre := State();
        var ty := SimpleType();
        ghost var afterType := State();
        if ty.Some? {
          if ty.value.identifier == "void" {
            var rp := Accept(RParen);
            if rp.Some? {
              return Some(list);
            }
            AddError(G.Todo);
            return None;
          }
          var id := Accept(Ident);
          if id.Some? {
            list := list + [Ast.VarDecl(ty.value, id.value.data, None)];
            var _ := Accept(Comma);
          } else {
            var comma := Accept(Comma);
            if comma.Some? {
              list := list + [Ast.VarDecl(ty.value, "", None)];
            }
          }
        } else {
          var rp := Accept(RParen);
          if rp.Some? {
            return Some(list);
          }
          AddError(G.Unexpected(CurrentToken()));
          return None;
        }
      }
    }

    method ReturnStmt() returns (node: Option<Ast.Stmt>)
      requires Valid()
      modifies this
      decreases |tokens| - cursor, 11
      ensures Valid() && G.Reply(node, State()) == G.PReturnStmt(tokens, old(State()))
    {
      var ret := Accept(Return);
      if ret.None? {
        node := ExprStmt();
        return;
      }
      var e := TerminatedExpr();
      node := if e.Some? then Some(Ast.ReturnStatement(e)) else None;
    }

    /** An expression followed by `;`, with the diagnostics `var_decl` and `return_stmt` record. */
    method TerminatedExpr() returns (node: Option<Ast.Expr>)
      requires Valid()
      modifies this
      decreases |tokens| - cursor, 10
      ensures Valid() && G.Reply(node, State()) == G.PTerminatedExpr(tokens, old(State()))
    {
      var e := Assignment();
      if e.None? {
        AddError(G.ButGot(G.ExpectedExpression, CurrentToken()));
        return None;
      }
      var semi := Accept(Semicolon);
      if semi.Some? {
        node := e;
      } else {
        AddError(G.ButGot(G.ExpectedSemicolon, CurrentToken()));
        node := None;
      }
    }

    method ExprStmt() returns (node: Option<Ast.Stmt>)
      requires Valid()
      modifies this
      decreases |tokens| - cursor, 10
      ensures Valid() && G.Reply(node, State()) == G.PExprStmt(tokens, old(State()))
    {
      var e := Assignment();
      if e.None? {
        return None;
      }
      var semi := Accept(Semicolon);
      if semi.Some? {
        node := Some(Ast.ExpressionStatement(e.value));
      } else {
        AddError(G.ButGot(G.ExpectedSemicolon, CurrentToken()));
        node := None;
      }
    }

    /** `assign` (and `expr`, which only forwards to it). */
    method Assignment() returns (node: Option<Ast.Expr>)
      requires Valid()
      modifies this
      decreases |tokens| - cursor, 9
      ensures Valid() && G.Reply(node, State()) == G.PAssign(tokens, old(State()))
    {
      var first := AddSub();
      if first.None? {
        return None;
      }
      var operands := AssignOperands(first.value);
      if operands.None? {
        return None;
      }
      var result := Fold(operands.value);
      node := Some(result);
    }

    /** The `while (accept(assign))` loop of `assign`, which collects the operands. */
    method AssignOperands(first: Ast.Expr) returns (operands: Option<seq<Ast.Expr>>)
      requires Valid()
      modifies this
      decreases |tokens| - cursor, 8
      ensures Valid() && G.Reply(operands, State()) == G.AssignLoop(tokens, old(State()), [first])
    {
      ghost var loopStart := State();
      var list := [first];
      while true
        invariant Valid() && loopStart.cursor <= cursor && |list| >= 1
        invariant G.AssignLoop(tokens, loopStart, [first]) == G.AssignLoop(tokens, State(), list)
        decreases |tokens| - cursor
      {
        ghost var pre := State();
        var eq := Accept(Operator(Assign));
        if eq.None? {
          return Some(list);
        }
        var rhs := AddSub();
        ghost var post := State();
        assert G.AssignLoop(tokens, pre, list) ==
          if rhs.None? then G.Reply(None, G.AddError(tokens, post, G.ButGot(G.ExpectedExpression, tokens[post.cursor])))
          else G.AssignLoop(tokens, post, list + [rhs.value]);
        if rhs.None? {
          AddError(G.ButGot(G.ExpectedExpression, CurrentToken()));
          return None;
        }
        list := list + [rhs.value];
      }
    }

    /**
     * The end of `assign`: the last operand is the result so far; the other
     * operands, reversed in place, each become the right-hand side of a new
     * assignment node over it.
     */
    static method Fold(operands: seq<Ast.Expr>) returns (result: Ast.Expr)
      requires |operands| >= 1
      ensures result == G.FoldAssign(operands)
    {
      result := operands[|operands| - 1];
      var rest := new Ast.Expr[|operands| - 1](i => if 0 <= i < |operands| - 1 then operands[i] else result);
      assert rest[..] == operands[..|operands| - 1];
      ReverseInPlace(rest);
      var i := 0;
      while i < rest.Length
        invariant 0 <= i <= rest.Length
        invariant G.FoldFrom(result, rest[i..]) == G.FoldAssign(operands)
      {
        assert rest[i..][1..] == rest[i + 1..];
        result := Ast.BinaryOperation(Operator(Assign), result, rest[i]);
        i := i + 1;
      }
    }

    method AddSub() returns (node: Option<Ast.Expr>)
      requires Valid()
      modifies this
      decreases |tokens| - cursor, 7
      ensures Valid() && G.Reply(node, State()) == G.PAddSub(tokens, old(State()))
    {
      var first := MulDiv();
      if first.None? {
        return None;
      }
      ghost var loopStart := State();
      var lhs := first.value;
      while true
        invariant Valid() && loopStart.cursor <= cursor
        invariant G.AddSubLoop(tokens, loopStart, first.value) == G.AddSubLoop(tokens, State(), lhs)
        decreases |tokens| - cursor
      {
        ghost var pre := State();
        var op := Accept(Operator(Plus));
        if op.None? {
          op := Accept(Operator(Minus));
        }
        if op.None? {
          return Some(lhs);
        }
        assert State() == pre.(cursor := pre.cursor + 1) && op.value.kind == tokens[pre.cursor].kind;
        var rhs := MulDiv();
        ghost var post := State();
        assert G.AddSubLoop(tokens, pre, lhs) ==
          if rhs.None? then G.Reply(None, G.AddError(tokens, post, G.ButGot(G.ExpectedExpression, tokens[post.cursor])))
          else G.AddSubLoop(tokens, post, Ast.BinaryOperation(op.value.kind, lhs, rhs.value));
        if rhs.None? {
          AddError(G.ButGot(G.ExpectedExpression, CurrentToken()));
          return None;
        }
        lhs := Ast.BinaryOperation(op.value.kind, lhs, rhs.value);
      }
    }

    method MulDiv() returns (node: Option<Ast.Expr>)
      requires Valid()
      modifies this
      decreases |tokens| - cursor, 5
      ensures Valid() && G.Reply(node, State()) == G.PMulDiv(tokens, old(State()))
    {
      var first := FuncCall();
      if first.None? {
        return None;
      }
      ghost var loopStart := State();
      var lhs := first.value;
      while true
        invariant Valid() && loopStart.cursor <= cursor
        invariant G.MulDivLoop(tokens, loopStart, first.value) == G.MulDivLoop(tokens, State(), lhs)
        decreases |tokens| - cursor
      {
        ghost var pre := State();
        var op := Accept(Operator(Multiply));
        if op.None? {
          op := Accept(Operator(Divide));
        }
        if op.None? {
          return Some(lhs);
        }
        assert State() == pre.(cursor := pre.cursor + 1) && op.value.kind == tokens[pre.cursor].kind;
        var rhs := Number();
        ghost var post := State();
        assert G.MulDivLoop(tokens, pre, lhs) ==
          if rhs.None? then G.Reply(None, G.AddError(tokens, post, G.ButGot(G.ExpectedExpression, tokens[post.cursor])))
          else G.MulDivLoop(tokens, post, Ast.BinaryOperation(op.value.kind, lhs, rhs.value));
        if rhs.None? {
          AddError(G.ButGot(G.ExpectedExpression, CurrentToken()));
          return None;
        }
        lhs := Ast.BinaryOperation(op.value.kind, lhs, rhs.value);
      }
    }

    /**
     * `func_call`. Its argument loop never accepts `,`; an iteration that
     * moves neither past an expression nor past `)` stops the loop with a
     * failure, where the source would repeat it forever.
     */
    method FuncCall() returns (node: Option<Ast.Expr>)
      requires Valid()
      modifies this
      decreases |tokens| - cursor, 3
      ensures Valid() && G.Reply(node, State()) == G.PFuncCall(tokens, old(State()))
    {
      var callee := Atom();
      if callee.None? {
        return None;
      }
      if !callee.value.Identifier? {
        AddError(G.Todo);
        return None;
      }
      var lp := Accept(LParen);
      if lp.None? {
        return None;
      }
      ghost var loopStart := State();
      var args: seq<Ast.Expr> := [];
      while true
        invariant Valid() && loopStart.cursor <= cursor
        invariant G.ArgLoop(tokens, loopStart, callee.value, []) == G.ArgLoop(tokens, State(), callee.value, args)
        decreases |tokens| - cursor
      {
        var before := cursor;
        var arg := Assignment();
        ghost var post := State();
        if arg.Some? {
          args := args + [arg.value];
          var rp := Accept(RParen);
          if rp.Some? {
            return Some(Ast.FunctionCallOperation(callee.value, args));
          }
        } else {
          var rp := Accept(RParen);
          if rp.Some? {
            return Some(Ast.FunctionCallOperation(callee.value, args));
          }
          if cursor == before {
            return None;
          }
        }
      }
    }

    /** `atom`: `number || identifier`. */
    method Atom() returns (node: Option<Ast.Expr>)
      requires Valid()
      modifies this
      decreases |tokens| - cursor, 2
      ensures Valid() && G.Reply(node, State()) == G.PAtom(tokens, old(State()))
    {
      node := Number();
      if node.None? {
        node := Identifier();
      }
    }

    method Number() returns (node: Option<Ast.Expr>)
      requires Valid()
      modifies this
      decreases |tokens| - cursor, 1
      ensures Valid() && G.Reply(node, State()) == G.PNumber(tokens, old(State()))
    {
      var t := Accept(DecInteger);
      node := if t.Some? then Some(Ast.Integer32(G.Stoi(t.value.data))) else None;
    }

    method Identifier() returns (node: Option<Ast.Expr>)
      requires Valid()
      modifies this
      decreases |tokens| - cursor, 1
      ensures Valid() && G.Reply(node, State()) == G.PIdentifier(tokens, old(State()))
    {
      var t := Accept(Ident);
      node := if t.Some? then Some(Ast.Identifier(t.value.data)) else None;
    }

    /** `simple_type` (and `type`, which only forwards to it). */
    method SimpleType() returns (node: Option<Ast.TypeNode>)
      requires Valid()
      modifies this
      decreases |tokens| - cursor, 0
      ensures Valid() && G.Reply(node, State()) == G.PSimpleType(tokens, old(State()))
    {
      var u := Accept(Unsigned);
      if u.Some? {
        node := SignTail(true);
        return;
      }
      var s := Accept(Signed);
      if s.Some? {
        node := SignTail(false);
        return;
      }
      var c := Accept(Char);
      if c.Some? {
        return None;
      }
      var sh := Accept(Short);
      if sh.Some? {
        return None;
      }
      var i := Accept(Int);
      if i.Some? {
        return Some(Ast.SimpleType("int", false));
      }
      var l := Accept(Long);
      if l.Some? {
        return None;
      }
      var v := Accept(Void);
      if v.Some? {
        return Some(Ast.SimpleType("void", false));
      }
      return None;
    }

    /** What `simple_type` reads after `unsigned` or `signed`. */
    method SignTail(isUnsigned: bool) returns (node: Option<Ast.TypeNode>)
      requires Valid()
      modifies this
      ensures Valid() && G.Reply(node, State()) == G.SignTail(tokens, old(State()), isUnsigned)
    {
      var c := Accept(Char);
      if c.Some? {
        return None;
      }
      var sh := Accept(Short);
      if sh.Some? {
        return None;
      }
      var i := Accept(Int);
      if i.Some? {
        return Some(Ast.SimpleType("int", isUnsigned));
      }
      var l := Accept(Long);
      if l.Some? {
        return None;
      }
      return Some(Ast.SimpleType("int", isUnsigned));
    }
  }
}
