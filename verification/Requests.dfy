/** When a `state` statement takes effect. */
module Requests {
  import opened Values
  import opened Ast
  import opened Semantics

  /** No `state` statement occurs in the statement itself. */
  predicate StateFree(s: Stmt) {
    match s
    case SNull => true
    case S(_, k) =>
      match k
      case StateChange(_) => false
      case If(_, thn, els) => StateFree(thn) && StateFree(els)
      case While(_, body) => StateFree(body)
      case Do(body, _) => StateFree(body)
      case For(_, _, _, body) => StateFree(body)
      case Block(stmts) => forall i :: 0 <= i < |stmts| ==> StateFree(stmts[i])
      case _ => true
  }

  /** `state` statements sit in event handlers only, state_exit among them. */
  predicate HandlersOnly(p: Program) {
    forall k :: 0 <= k < |p.funcs| ==> StateFree(p.funcs[k].body)
  }

  /** Then no expression asks for a state change: one is asked for only by a `state`
      statement of the handler that is running. */
  lemma {:induction false} ExpressionsDoNotAsk(p: Program, h: Host, e: Expr, st: Store, fuel: nat)
    requires Fits(p, st) && HandlersOnly(p)
    ensures var r := Eval(p, h, e, st, fuel); r.Done? ==> r.st.pending == st.pending
    decreases fuel, e, 1
  {
    hide EvalBinary, EvalUnary, Resolve, FloatOf, MemberOf, CurrentOf, BindFrom, Exec;
    if e.E? {
      match e.kind
      case VecLit(_, _, _) => TuplesDoNotAsk(p, h, e, st, fuel);
      case RotLit(_, _, _, _) => TuplesDoNotAsk(p, h, e, st, fuel);
      case ListLit(items) => ItemsDoNotAsk(p, h, items, 0, [], st, fuel);
      case CallExpr(_, _) => CallsDoNotAsk(p, h, e, st, fuel);
      case Member(b, _) => ExpressionsDoNotAsk(p, h, b, st, fuel);
      case Cast(_, inner) => ExpressionsDoNotAsk(p, h, inner, st, fuel);
      case Unary(_, inner) => ExpressionsDoNotAsk(p, h, inner, st, fuel);
      case Binary(_, l, r) =>
        ExpressionsDoNotAsk(p, h, l, st, fuel);
        var a := Eval(p, h, l, st, fuel);
        if a.Done? { ExpressionsDoNotAsk(p, h, r, a.st, fuel); }
      case Assign(_, _, r) => ExpressionsDoNotAsk(p, h, r, st, fuel);
      case _ =>
    }
  }

  lemma {:induction false} TuplesDoNotAsk(p: Program, h: Host, e: Expr, st: Store, fuel: nat)
    requires Fits(p, st) && HandlersOnly(p) && e.E? && (e.kind.VecLit? || e.kind.RotLit?)
    ensures var r := Eval(p, h, e, st, fuel); r.Done? ==> r.st.pending == st.pending
    decreases fuel, e, 0
  {
    var k := e.kind;
    ExpressionsDoNotAsk(p, h, k.x, st, fuel);
    var a := Eval(p, h, k.x, st, fuel);
    if a.Done? {
      ExpressionsDoNotAsk(p, h, k.y, a.st, fuel);
      var b := Eval(p, h, k.y, a.st, fuel);
      if b.Done? {
        ExpressionsDoNotAsk(p, h, k.z, b.st, fuel);
        var c := Eval(p, h, k.z, b.st, fuel);
        if c.Done? && k.RotLit? { ExpressionsDoNotAsk(p, h, k.w, c.st, fuel); }
      }
    }
  }

  lemma {:induction false} CallsDoNotAsk(p: Program, h: Host, e: Expr, st: Store, fuel: nat)
    requires Fits(p, st) && HandlersOnly(p) && e.E? && e.kind.CallExpr?
    ensures var r := Eval(p, h, e, st, fuel); r.Done? ==> r.st.pending == st.pending
    decreases fuel, e, 0
  {
    hide BindFrom, EvalFrom, Exec;
    var args := e.kind.args;
    var k := FindFunc(p.funcs, e.kind.fn);
    if k >= 0 {
      ArgsDoNotAsk(p, h, p.funcs[k].params, args, 0, [], st, fuel);
      var a := BindFrom(p, h, p.funcs[k].params, args, 0, [], st, fuel);
      if a.Done? && fuel > 0 {
        StatementsDoNotAsk(p, h, p.funcs[k].body, a.st.(locals := a.v), fuel - 1);
      }
    } else {
      ItemsDoNotAsk(p, h, args, 0, [], st, fuel);
    }
  }

  lemma {:induction false} ItemsDoNotAsk(p: Program, h: Host, es: seq<Expr>, i: nat, acc: seq<SValue>, st: Store,
                                         fuel: nat)
    requires Fits(p, st) && HandlersOnly(p) && i <= |es| && |acc| == i
    ensures var r := EvalFrom(p, h, es, i, acc, st, fuel); r.Done? ==> r.st.pending == st.pending
    decreases fuel, es, |es| - i
  {
    if i < |es| {
      ExpressionsDoNotAsk(p, h, es[i], st, fuel);
      var a := Eval(p, h, es[i], st, fuel);
      if a.Done? { ItemsDoNotAsk(p, h, es, i + 1, acc + [a.v], a.st, fuel); }
    }
  }

  lemma {:induction false} ArgsDoNotAsk(p: Program, h: Host, ps: seq<Param>, es: seq<Expr>, i: nat, acc: seq<Var>,
                                        st: Store, fuel: nat)
    requires Fits(p, st) && HandlersOnly(p) && i <= |es|
    ensures var r := BindFrom(p, h, ps, es, i, acc, st, fuel); r.Done? ==> r.st.pending == st.pending
    decreases fuel, es, |es| - i
  {
    if i < |ps| && i < |es| {
      ExpressionsDoNotAsk(p, h, es[i], st, fuel);
      var a := Eval(p, h, es[i], st, fuel);
      if a.Done? {
        ArgsDoNotAsk(p, h, ps, es, i + 1, acc + [Var(ps[i].name, Coerce(a.v, ps[i].ty))], a.st, fuel);
      }
    }
  }

  lemma {:induction false} StatementsDoNotAsk(p: Program, h: Host, s: Stmt, st: Store, fuel: nat)
    requires Fits(p, st) && HandlersOnly(p) && StateFree(s)
    ensures var r := Exec(p, h, s, st, fuel); r.Done? ==> r.st.pending == st.pending
    decreases fuel, s, LOOP_CAP + 1
  {
    hide Eval;
    if s.S? {
      match s.kind
      case ExprStmt(e) => ExpressionsDoNotAsk(p, h, e, st, fuel);
      case Decl(_, _, init) => ExpressionsDoNotAsk(p, h, init, st, fuel);
      case Return(_, e) => ExpressionsDoNotAsk(p, h, e, st, fuel);
      case Block(stmts) => SequencesDoNotAsk(p, h, stmts, 0, st, fuel);
      case If(cond, thn, els) =>
        ExpressionsDoNotAsk(p, h, cond, st, fuel);
        var c := Eval(p, h, cond, st, fuel);
        if c.Done? { StatementsDoNotAsk(p, h, if Truthy(c.v) then thn else els, c.st, fuel); }
      case While(_, _) => LoopsDoNotAsk(p, h, s, LOOP_CAP, st, fuel);
      case Do(_, _) => DoLoopsDoNotAsk(p, h, s, LOOP_CAP, st, fuel);
      case For(init, _, _, _) =>
        ItemsDoNotAsk(p, h, init, 0, [], st, fuel);
        var a := EvalFrom(p, h, init, 0, [], st, fuel);
        if a.Done? { LoopsDoNotAsk(p, h, s, LOOP_CAP, a.st, fuel); }
      case _ =>
    }
  }

  lemma {:induction false} SequencesDoNotAsk(p: Program, h: Host, blk: seq<Stmt>, i: nat, st: Store, fuel: nat)
    requires Fits(p, st) && HandlersOnly(p) && i <= |blk|
    requires forall j :: 0 <= j < |blk| ==> StateFree(blk[j])
    ensures var r := ExecSeq(p, h, blk, i, st, fuel); r.Done? ==> r.st.pending == st.pending
    decreases fuel, blk, |blk| - i
  {
    hide Eval, Exec;
    if i < |blk| {
      StatementsDoNotAsk(p, h, blk[i], st, fuel);
      var a := Exec(p, h, blk[i], st, fuel);
      if a.Done? {
        if a.v.Normal? {
          SequencesDoNotAsk(p, h, blk, i + 1, a.st, fuel);
        } else if a.v.Jumping? && FindLabel(blk, a.v.target) >= 0 {
          var k := FindLabel(blk, a.v.target);
          if k >= i {
            SequencesDoNotAsk(p, h, blk, k + 1, a.st, fuel);
          } else if fuel > 0 {
            SequencesDoNotAsk(p, h, blk, k + 1, a.st, fuel - 1);
          }
        }
      }
    }
  }

  lemma {:induction false} LoopsDoNotAsk(p: Program, h: Host, s: Stmt, n: nat, st: Store, fuel: nat)
    requires s.S? && (s.kind.While? || s.kind.For?) && Fits(p, st) && n <= LOOP_CAP
    requires HandlersOnly(p) && StateFree(s)
    ensures var r := ExecLoop(p, h, s, n, st, fuel); r.Done? ==> r.st.pending == st.pending
    decreases fuel, s, n
  {
    hide Eval, Exec;
    if n > 0 {
      ExpressionsDoNotAsk(p, h, s.kind.cond, st, fuel);
      var c := Eval(p, h, s.kind.cond, st, fuel);
      if c.Done? {
        StatementsDoNotAsk(p, h, s.kind.body, c.st, fuel);
        var b := Exec(p, h, s.kind.body, c.st, fuel);
        if b.Done? && s.kind.While? {
          LoopsDoNotAsk(p, h, s, n - 1, b.st, fuel);
        } else if b.Done? {
          ItemsDoNotAsk(p, h, s.kind.post, 0, [], b.st, fuel);
          var d := EvalFrom(p, h, s.kind.post, 0, [], b.st, fuel);
          if d.Done? { LoopsDoNotAsk(p, h, s, n - 1, d.st, fuel); }
        }
      }
    }
  }

  lemma {:induction false} DoLoopsDoNotAsk(p: Program, h: Host, s: Stmt, n: nat, st: Store, fuel: nat)
    requires s.S? && s.kind.Do? && Fits(p, st) && n <= LOOP_CAP
    requires HandlersOnly(p) && StateFree(s)
    ensures var r := ExecDo(p, h, s, n, st, fuel); r.Done? ==> r.st.pending == st.pending
    decreases fuel, s, n
  {
    hide Eval, Exec;
    if n > 0 {
      StatementsDoNotAsk(p, h, s.kind.body, st, fuel);
      var b := Exec(p, h, s.kind.body, st, fuel);
      if b.Done? {
        ExpressionsDoNotAsk(p, h, s.kind.cond, b.st, fuel);
        var c := Eval(p, h, s.kind.cond, b.st, fuel);
        if c.Done? { DoLoopsDoNotAsk(p, h, s, n - 1, c.st, fuel); }
      }
    }
  }

  /** So in a program that keeps `state` to its handlers, a statement that runs while no
      change is requested ends up switching only through a `state` statement of its own. */
  lemma SwitchingComesFromState(p: Program, h: Host, s: Stmt, st: Store, fuel: nat)
    requires Fits(p, st) && HandlersOnly(p) && st.pending < 0
    requires Exec(p, h, s, st, fuel).Done? && Exec(p, h, s, st, fuel).v.Switching?
    ensures !StateFree(s)
  {
    if StateFree(s) { StatementsDoNotAsk(p, h, s, st, fuel); }
  }

  // ----- a `state` statement in a user function -----

  /** f() { state default; }   g() { built-in(); }   and a handler that runs f() + g(); */
  function StateInFunction(): Program {
    Program(0, ["default", "f", "g", "llSay"], [],
            [FuncDecl(1, 0, 0, 0, [], S(0, Block([S(0, StateChange(0))]))),
             FuncDecl(2, 0, 0, 0, [], S(0, Block([S(0, ExprStmt(E(0, 0, CallExpr(3, []))))])))],
            [StateDecl(0, 0, 1, [])])
  }

  function SumOfCalls(): Stmt {
    S(0, ExprStmt(E(0, 0, Binary(OP_PLUS, E(0, 0, CallExpr(1, [])), E(0, 0, CallExpr(2, []))))))
  }

  /** The code of g still runs after f has asked for the state change: outside handlers a
      `state` statement does not end the event. */
  lemma StateInFunctionGoesOn(h: Host)
    ensures !HandlersOnly(StateInFunction())
    ensures var r := Exec(StateInFunction(), h, SumOfCalls(), Store([], -1, [], []), 1);
            r.Done? && r.v == Switching && r.st.calls == [Call("llSay", [])]
  {
    hide Eval, Exec, HandlersOnly, SumOfCalls, StateInFunction;
    SumText();
    NotHandlersOnly();
    CallOfF(h);
    CallOfG(h);
    var p, e := StateInFunction(), SumOfCalls().kind.e;
    var said := Store([], 0, [], [Call("llSay", [])]);
    SumOfVoids(p, h, e, Store([], -1, [], []), Store([], 0, [], []), said, 1);
    ExprStmtSwitches(p, h, e, 1);
  }

  lemma NotHandlersOnly()
    ensures !HandlersOnly(StateInFunction())
  {
    var body := StateInFunction().funcs[0].body;
    assert !StateFree(body.kind.stmts[0]);
    assert !StateFree(body);
  }

  lemma SumText()
    ensures StateInFunction().globals == [] && SumOfCalls() == S(0, ExprStmt(SumOfCalls().kind.e))
    ensures SumOfCalls().kind.e ==
            E(0, 0, Binary(OP_PLUS, E(0, 0, CallExpr(1, [])), E(0, 0, CallExpr(2, []))))
  {
  }

  /** A sum of two calls that give nothing: one after the other. */
  lemma SumOfVoids(p: Program, h: Host, e: Expr, a: Store, b: Store, c: Store, fuel: nat)
    requires e.E? && e.kind.Binary? && e.kind.op == OP_PLUS && Fits(p, a) && Fits(p, b)
    requires Eval(p, h, e.kind.l, a, fuel) == Done(Void, b) && Eval(p, h, e.kind.r, b, fuel) == Done(Void, c)
    ensures Eval(p, h, e, a, fuel) == Done(Void, c)
  {
  }

  lemma ExprStmtSwitches(p: Program, h: Host, e: Expr, fuel: nat)
    requires p.globals == []
    requires Eval(p, h, e, Store([], -1, [], []), fuel) == Done(Void, Store([], 0, [], [Call("llSay", [])]))
    ensures Exec(p, h, S(0, ExprStmt(e)), Store([], -1, [], []), fuel)
        == Done(Switching, Store([], 0, [], [Call("llSay", [])]))
  {
    hide Eval;
  }

  lemma CallOfF(h: Host)
    ensures Eval(StateInFunction(), h, E(0, 0, CallExpr(1, [])), Store([], -1, [], []), 1)
         == Done(Void, Store([], 0, [], []))
  {
    var p := StateInFunction();
    var st := Store([], -1, [], []);
    RunOfF(h);
    assert BindFrom(p, h, [], [], 0, [], st, 1) == Done([], st);
    hide Exec, FindFunc, FindState;
  }

  lemma CallOfG(h: Host)
    ensures Eval(StateInFunction(), h, E(0, 0, CallExpr(2, [])), Store([], 0, [], []), 1)
         == Done(Void, Store([], 0, [], [Call("llSay", [])]))
  {
    var p := StateInFunction();
    var st := Store([], 0, [], []);
    RunOfG(h);
    assert BindFrom(p, h, [], [], 0, [], st, 1) == Done([], st);
    hide Exec, FindFunc, FindState;
  }

  lemma RunOfF(h: Host)
    ensures var p := StateInFunction();
            FindFunc(p.funcs, 1) == 0 &&
            Exec(p, h, p.funcs[0].body, Store([], -1, [], []), 0) == Done(Switching, Store([], 0, [], []))
  {
    var p := StateInFunction();
    var st := Store([], -1, [], []);
    assert FindState(p, "default") == 0;
    assert Exec(p, h, S(0, StateChange(0)), st, 0) == Done(Switching, st.(pending := 0));
    assert ExecSeq(p, h, [S(0, StateChange(0))], 0, st, 0) == Done(Switching, st.(pending := 0));
  }

  lemma RunOfG(h: Host)
    ensures var p := StateInFunction();
            FindFunc(p.funcs, 2) == 1 &&
            Exec(p, h, p.funcs[1].body, Store([], 0, [], []), 0)
                == Done(Switching, Store([], 0, [], [Call("llSay", [])]))
  {
    var p := StateInFunction();
    var st := Store([], 0, [], []);
    var said := st.(calls := [Call("llSay", [])]);
    var call := E(0, 0, CallExpr(3, []));
    assert FindFunc(p.funcs, 2) == 1 && FindFunc(p.funcs, 3) == -1;
    assert EvalFrom(p, h, [], 0, [], st, 0) == Done([], st);
    assert Eval(p, h, call, st, 0).st == said;
    assert Exec(p, h, S(0, ExprStmt(call)), st, 0) == Done(Switching, said);
    assert ExecSeq(p, h, [S(0, ExprStmt(call))], 0, st, 0) == Done(Switching, said);
  }
}
