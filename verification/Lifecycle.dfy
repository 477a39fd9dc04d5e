/** A script's handlers one after the other, each followed by the state change it may have
    asked for: dispatch_event of src/region.c and the code behind it, for one script. */
module Lifecycle {
  import opened Values
  import opened Ast
  import opened Semantics
  import opened Requests
  import Outcomes

  /** An event as it comes off the queue. */
  datatype Happening = Happening(name: string, args: seq<SValue>)

  const EXIT := "state_exit"

  /** The first handler for an event, among those from i on, or -1. */
  function FindEvent(p: Program, evs: seq<EventDecl>, name: string, i: nat): (k: int)
    requires i <= |evs|
    ensures k == -1 || i <= k < |evs|
    ensures k >= 0 ==> PoolStr(p, evs[k].name) == name
    decreases |evs| - i
  {
    if i == |evs| then -1 else if PoolStr(p, evs[i].name) == name then i else FindEvent(p, evs, name, i + 1)
  }

  datatype Handler = NoHandler | Handles(ev: EventDecl)

  /** The handler that a state has for an event. */
  function HandlerOf(p: Program, state: int, name: string): Handler {
    if 0 <= state < |p.states| then
      var evs := p.states[state].events;
      var k := FindEvent(p, evs, name, 0);
      if k >= 0 then Handles(evs[k]) else NoHandler
    else NoHandler
  }

  // ----- with the request in the store -----

  function RunHandler(p: Program, h: Host, hd: Handler, args: seq<SValue>, st: Store, fuel: nat): R<Outcome>
    requires Fits(p, st)
  {
    if hd.NoHandler? then Done(Normal, st) else Dispatch(p, h, hd.ev, args, st, fuel)
  }

  /** One event, and the state change asked for by then: the request is taken off before
      state_exit of the old state runs. Gives the state afterwards. */
  function Turn(p: Program, h: Host, cur: int, ev: Happening, st: Store, fuel: nat): R<int>
    requires Fits(p, st)
  {
    var (_, s1) :- RunHandler(p, h, HandlerOf(p, cur, ev.name), ev.args, st, fuel);
    if s1.pending < 0 then Done(cur, s1)
    else
      var (_, s2) :- RunHandler(p, h, HandlerOf(p, cur, EXIT), [], s1.(pending := -1), fuel);
      Done(s1.pending, s2)
  }

  function Turns(p: Program, h: Host, cur: int, evs: seq<Happening>, st: Store, fuel: nat): R<int>
    requires Fits(p, st)
    decreases |evs|
  {
    if evs == [] then Done(cur, st)
    else
      var (next, s1) :- Turn(p, h, cur, evs[0], st, fuel);
      TurnFits(p, h, cur, evs[0], st, fuel);
      Turns(p, h, next, evs[1..], s1, fuel)
  }

  lemma TurnFits(p: Program, h: Host, cur: int, ev: Happening, st: Store, fuel: nat)
    requires Fits(p, st)
    ensures var r := Turn(p, h, cur, ev, st, fuel); r.Done? ==> Fits(p, r.st)
  {
    hide Exec, HandlerOf;
  }

  // ----- with outcomes alone -----

  function RunByOutcome(p: Program, h: Host, hd: Handler, args: seq<SValue>, m: Outcomes.Memory, fuel: nat)
    : (r: Outcomes.R<Outcomes.Outcome>)
    requires Outcomes.FitsIn(p, m)
    ensures r.Ended? ==> Outcomes.FitsIn(p, r.mem)
  {
    if hd.NoHandler? then Outcomes.Ended(Outcomes.Next, m) else Outcomes.Dispatch(p, h, hd.ev, args, m, fuel)
  }

  /** One event, when the outcome of its handler decides: a switch runs state_exit of the
      old state and goes on in the new one. Besides that state, gives the one state_exit
      itself switched to, or -1: the request that is left over. */
  function TurnByOutcome(p: Program, h: Host, cur: int, ev: Happening, m: Outcomes.Memory, fuel: nat)
    : (r: Outcomes.R<(int, int)>)
    requires Outcomes.FitsIn(p, m)
    ensures r.Ended? ==> Outcomes.FitsIn(p, r.mem)
  {
    var (o, m1) :- RunByOutcome(p, h, HandlerOf(p, cur, ev.name), ev.args, m, fuel);
    if !o.SwitchTo? then Outcomes.Ended((cur, -1), m1)
    else
      var (x, m2) :- RunByOutcome(p, h, HandlerOf(p, cur, EXIT), [], m1, fuel);
      Outcomes.Ended((o.state, if x.SwitchTo? then x.state else -1), m2)
  }

  function TurnsByOutcome(p: Program, h: Host, cur: int, evs: seq<Happening>, m: Outcomes.Memory, fuel: nat)
    : Outcomes.R<int>
    requires Outcomes.FitsIn(p, m)
    decreases |evs|
  {
    if evs == [] then Outcomes.Ended(cur, m)
    else
      var (next, m1) :- TurnByOutcome(p, h, cur, evs[0], m, fuel);
      TurnsByOutcome(p, h, next.0, evs[1..], m1, fuel)
  }

  // ----- agreement -----

  /** A turn shown with the request that is left over in the store. */
  function LeftOver(r: Outcomes.R<(int, int)>): R<int> {
    match r
    case Ended(v, m) => Done(v.0, Outcomes.Full(m).(pending := v.1))
    case Exhausted => Halt
    case Failed(w) => Fault(w)
  }

  lemma RunAgrees(p: Program, h: Host, hd: Handler, args: seq<SValue>, m: Outcomes.Memory, fuel: nat)
    requires Outcomes.FitsIn(p, m) && HandlersOnly(p)
    ensures RunHandler(p, h, hd, args, Outcomes.Full(m), fuel) ==
            Outcomes.Flagged(RunByOutcome(p, h, hd, args, m, fuel))
  {
    hide Dispatch, Outcomes.Dispatch, HandlersOnly;
    if hd.Handles? { Outcomes.DispatchAgrees(p, h, hd.ev, args, m, fuel); }
  }

  /** A turn that starts with nothing asked for. With `state` in handlers only, it goes as
      outcomes decide, and a request is left for the next handler exactly when state_exit
      of the old state ends in a switch of its own. */
  lemma TurnAgrees(p: Program, h: Host, cur: int, ev: Happening, m: Outcomes.Memory, fuel: nat)
    requires Outcomes.FitsIn(p, m) && HandlersOnly(p)
    ensures Turn(p, h, cur, ev, Outcomes.Full(m), fuel) == LeftOver(TurnByOutcome(p, h, cur, ev, m, fuel))
  {
    hide RunHandler, RunByOutcome, HandlerOf, HandlersOnly;
    var hd, exit := HandlerOf(p, cur, ev.name), HandlerOf(p, cur, EXIT);
    RunAgrees(p, h, hd, ev.args, m, fuel);
    var a := RunByOutcome(p, h, hd, ev.args, m, fuel);
    if a.Ended? && a.v.SwitchTo? {
      RunAgrees(p, h, exit, [], a.mem, fuel);
      assert Outcomes.Full(a.mem).(pending := a.v.state).(pending := -1) == Outcomes.Full(a.mem);
    }
  }

  predicate ExitStays(p: Program, evs: seq<EventDecl>) {
    forall k :: 0 <= k < |evs| ==> PoolStr(p, evs[k].name) == EXIT ==> StateFree(evs[k].body)
  }

  /** No user function and no state_exit handler holds a `state` statement. */
  predicate QuietExits(p: Program) {
    && HandlersOnly(p)
    && forall s :: 0 <= s < |p.states| ==> ExitStays(p, p.states[s].events)
  }

  /** Then nothing is left over after any turn. */
  lemma TurnLeavesNothing(p: Program, h: Host, cur: int, ev: Happening, m: Outcomes.Memory, fuel: nat)
    requires Outcomes.FitsIn(p, m) && QuietExits(p)
    ensures var r := TurnByOutcome(p, h, cur, ev, m, fuel); r.Ended? ==> r.v.1 == -1
  {
    hide Outcomes.Exec, HandlersOnly;
    var a := RunByOutcome(p, h, HandlerOf(p, cur, ev.name), ev.args, m, fuel);
    if a.Ended? && a.v.SwitchTo? { ExitsAreQuiet(p, cur); }
  }

  lemma ExitsAreQuiet(p: Program, cur: int)
    requires QuietExits(p)
    ensures var hd := HandlerOf(p, cur, EXIT); hd.Handles? ==> StateFree(hd.ev.body)
  {
    hide HandlersOnly, StateFree;
  }

  /** So every handler of such a script, in any run, starts with nothing asked for, and the
      flags compute what outcomes alone decide: the same states, memories and failures. */
  lemma {:induction false} TurnsAgree(p: Program, h: Host, cur: int, evs: seq<Happening>, m: Outcomes.Memory,
                                      fuel: nat)
    requires Outcomes.FitsIn(p, m) && QuietExits(p)
    ensures Turns(p, h, cur, evs, Outcomes.Full(m), fuel) == Outcomes.Kept(TurnsByOutcome(p, h, cur, evs, m, fuel))
    decreases |evs|
  {
    hide Turn, TurnByOutcome, HandlersOnly;
    if evs != [] {
      TurnAgrees(p, h, cur, evs[0], m, fuel);
      TurnLeavesNothing(p, h, cur, evs[0], m, fuel);
      var r := TurnByOutcome(p, h, cur, evs[0], m, fuel);
      if r.Ended? { TurnsAgree(p, h, r.v.0, evs[1..], r.mem, fuel); }
    }
  }

  // ----- a handler that starts late -----

  /** No expression takes a request off, in any program. */
  lemma {:induction false} LateExpr(p: Program, h: Host, e: Expr, st: Store, fuel: nat)
    requires Fits(p, st) && st.pending >= 0
    ensures var r := Eval(p, h, e, st, fuel); r.Done? ==> r.st.pending >= 0
    decreases fuel, e, 1
  {
    hide EvalBinary, EvalUnary, Resolve, FloatOf, MemberOf, CurrentOf, BindFrom, EvalFrom, Exec;
    if e.E? {
      match e.kind
      case VecLit(_, _, _) => LateTuple(p, h, e, st, fuel);
      case RotLit(_, _, _, _) => LateTuple(p, h, e, st, fuel);
      case ListLit(items) => LateItems(p, h, items, 0, [], st, fuel);
      case CallExpr(_, _) => LateCall(p, h, e, st, fuel);
      case Member(b, _) => LateExpr(p, h, b, st, fuel);
      case Cast(_, inner) => LateExpr(p, h, inner, st, fuel);
      case Unary(_, inner) => LateExpr(p, h, inner, st, fuel);
      case Binary(_, l, r) =>
        LateExpr(p, h, l, st, fuel);
        var a := Eval(p, h, l, st, fuel);
        if a.Done? { LateExpr(p, h, r, a.st, fuel); }
      case Assign(_, _, r) => LateExpr(p, h, r, st, fuel);
      case _ =>
    }
  }

  lemma {:induction false} LateTuple(p: Program, h: Host, e: Expr, st: Store, fuel: nat)
    requires Fits(p, st) && e.E? && (e.kind.VecLit? || e.kind.RotLit?) && st.pending >= 0
    ensures var r := Eval(p, h, e, st, fuel); r.Done? ==> r.st.pending >= 0
    decreases fuel, e, 0
  {
    var k := e.kind;
    LateExpr(p, h, k.x, st, fuel);
    var a := Eval(p, h, k.x, st, fuel);
    if a.Done? {
      LateExpr(p, h, k.y, a.st, fuel);
      var b := Eval(p, h, k.y, a.st, fuel);
      if b.Done? {
        LateExpr(p, h, k.z, b.st, fuel);
        var c := Eval(p, h, k.z, b.st, fuel);
        if c.Done? && k.RotLit? { LateExpr(p, h, k.w, c.st, fuel); }
      }
    }
  }

  lemma {:induction false} LateCall(p: Program, h: Host, e: Expr, st: Store, fuel: nat)
    requires Fits(p, st) && e.E? && e.kind.CallExpr? && st.pending >= 0
    ensures var r := Eval(p, h, e, st, fuel); r.Done? ==> r.st.pending >= 0
    decreases fuel, e, 0
  {
    hide BindFrom, EvalFrom, Exec;
    var args := e.kind.args;
    var k := FindFunc(p.funcs, e.kind.fn);
    if k >= 0 {
      LateArgs(p, h, p.funcs[k].params, args, 0, [], st, fuel);
      var a := BindFrom(p, h, p.funcs[k].params, args, 0, [], st, fuel);
      if a.Done? && fuel > 0 { LateEnds(p, h, p.funcs[k].body, a.st.(locals := a.v), fuel - 1); }
    } else {
      LateItems(p, h, args, 0, [], st, fuel);
    }
  }

  lemma {:induction false} LateItems(p: Program, h: Host, es: seq<Expr>, i: nat, acc: seq<SValue>, st: Store,
                                     fuel: nat)
    requires Fits(p, st) && i <= |es| && |acc| == i && st.pending >= 0
    ensures var r := EvalFrom(p, h, es, i, acc, st, fuel); r.Done? ==> r.st.pending >= 0
    decreases fuel, es, |es| - i
  {
    hide Eval;
    if i < |es| {
      LateExpr(p, h, es[i], st, fuel);
      var a := Eval(p, h, es[i], st, fuel);
      if a.Done? { LateItems(p, h, es, i + 1, acc + [a.v], a.st, fuel); }
    }
  }

  lemma {:induction false} LateArgs(p: Program, h: Host, ps: seq<Param>, es: seq<Expr>, i: nat, acc: seq<Var>,
                                    st: Store, fuel: nat)
    requires Fits(p, st) && i <= |es| && st.pending >= 0
    ensures var r := BindFrom(p, h, ps, es, i, acc, st, fuel); r.Done? ==> r.st.pending >= 0
    decreases fuel, es, |es| - i
  {
    hide Eval;
    if i < |ps| && i < |es| {
      LateExpr(p, h, es[i], st, fuel);
      var a := Eval(p, h, es[i], st, fuel);
      if a.Done? { LateArgs(p, h, ps, es, i + 1, acc + [Var(ps[i].name, Coerce(a.v, ps[i].ty))], a.st, fuel); }
    }
  }

  /** With a request pending from the start, every statement of every program ends in a
      return or a switch, with a request pending still. */
  lemma {:induction false} LateEnds(p: Program, h: Host, s: Stmt, st: Store, fuel: nat)
    requires Fits(p, st) && st.pending >= 0
    ensures var r := Exec(p, h, s, st, fuel); r.Done? ==> r.st.pending >= 0 && (r.v.Returned? || r.v.Switching?)
    decreases fuel, s, 1
  {
    hide Eval, EvalFrom;
    if s.S? {
      match s.kind
      case ExprStmt(e) => LateExpr(p, h, e, st, fuel);
      case Decl(_, _, init) => LateExpr(p, h, init, st, fuel);
      case Return(_, e) => LateExpr(p, h, e, st, fuel);
      case Block(stmts) => if stmts != [] { LateEnds(p, h, stmts[0], st, fuel); }
      case If(cond, thn, els) =>
        LateExpr(p, h, cond, st, fuel);
        var c := Eval(p, h, cond, st, fuel);
        if c.Done? { LateEnds(p, h, if Truthy(c.v) then thn else els, c.st, fuel); }
      case While(_, _) => LateLoop(p, h, s, st, fuel);
      case Do(body, cond) => LateEnds(p, h, body, st, fuel);
      case For(init, _, _, _) =>
        LateItems(p, h, init, 0, [], st, fuel);
        var a := EvalFrom(p, h, init, 0, [], st, fuel);
        if a.Done? { LateLoop(p, h, s, a.st, fuel); }
      case _ =>
    }
  }

  lemma {:induction false} LateLoop(p: Program, h: Host, s: Stmt, st: Store, fuel: nat)
    requires s.S? && (s.kind.While? || s.kind.For?) && Fits(p, st) && st.pending >= 0
    ensures var r := ExecLoop(p, h, s, LOOP_CAP, st, fuel);
            r.Done? ==> r.st.pending >= 0 && (r.v.Returned? || r.v.Switching?)
    decreases fuel, s, 0
  {
    hide Eval, Exec, EvalFrom;
    LateExpr(p, h, s.kind.cond, st, fuel);
    var c := Eval(p, h, s.kind.cond, st, fuel);
    if c.Done? { LateEnds(p, h, s.kind.body, c.st, fuel); }
  }

  /** So a block that starts late runs its first statement and no other. */
  lemma LateBlock(p: Program, h: Host, line: int, stmts: seq<Stmt>, st: Store, fuel: nat)
    requires Fits(p, st) && st.pending >= 0 && stmts != []
    ensures Exec(p, h, S(line, Block(stmts)), st, fuel) == Exec(p, h, S(line, Block(stmts[..1])), st, fuel)
  {
    hide Eval;
    LateEnds(p, h, stmts[0], st, fuel);
    var r := Exec(p, h, stmts[0], st, fuel);
    assert stmts[..1][0] == stmts[0];
  }

  /** And a turn that starts late always changes state: the next event, handled or not, takes
      the request. Without a handler it is the request that was left over; with one it may
      be one that the handler's first statement makes. */
  lemma LateTurn(p: Program, h: Host, cur: int, ev: Happening, st: Store, fuel: nat)
    requires Fits(p, st) && st.pending >= 0
    ensures var a := RunHandler(p, h, HandlerOf(p, cur, ev.name), ev.args, st, fuel);
            a.Done? ==> Fits(p, a.st) && a.st.pending >= 0
    ensures var a := RunHandler(p, h, HandlerOf(p, cur, ev.name), ev.args, st, fuel);
            var t := Turn(p, h, cur, ev, st, fuel);
            t.Done? ==>
              var x := RunHandler(p, h, HandlerOf(p, cur, EXIT), [], a.st.(pending := -1), fuel);
              a.Done? && x.Done? && t == Done(a.st.pending, x.st)
    ensures HandlerOf(p, cur, ev.name).NoHandler? ==>
              RunHandler(p, h, HandlerOf(p, cur, ev.name), ev.args, st, fuel) == Done(Normal, st)
  {
    hide Exec, HandlerOf;
    var hd := HandlerOf(p, cur, ev.name);
    if hd.Handles? { LateEnds(p, h, hd.ev.body, st.(locals := BindArgs(hd.ev.params, ev.args)), fuel); }
  }

  // ----- a state_exit that asks -----

  function Say(): Stmt { S(0, ExprStmt(E(0, 0, CallExpr(4, [])))) }
  const SAID := Call("llSay", [])
  const ENTRY := "state_entry"

  /** default { touch { state other; } state_exit { state default; } }
      other { state_entry { llSay(); llSay(); } } */
  function ExitAsks(): Program {
    Program(0, ["default", "other", "touch", EXIT, "llSay", ENTRY], [], [],
            [StateDecl(0, 0, 1, [EventDecl(2, 0, [], S(0, Block([S(0, StateChange(1))]))),
                                 EventDecl(3, 0, [], S(0, Block([S(0, StateChange(0))])))]),
             StateDecl(1, 0, 0, [EventDecl(5, 0, [], S(0, Block([Say(), Say()])))])])
  }

  /** A touch of this script switches it to the other state, and state_entry comes next. With
      the request of state_exit left over, it runs one of its two statements and the script
      is back in its default state; by outcomes alone it runs both, and the script stays. */
  lemma LateRequest(h: Host)
    ensures var p, evs, m := ExitAsks(), [Happening("touch", []), Happening(ENTRY, [])], Outcomes.Memory([], [], []);
            && HandlersOnly(p) && !QuietExits(p)
            && Turns(p, h, 0, evs, Outcomes.Full(m), 0) == Done(0, Store([], -1, [], [SAID]))
            && TurnsByOutcome(p, h, 0, evs, m, 0) == Outcomes.Ended(1, Outcomes.Memory([], [], [SAID, SAID]))
  {
    hide HandlersOnly, QuietExits, Turn, TurnByOutcome, ExitAsks;
    ExitIsNotQuiet();
    FirstTouch(h);
    EntryLate(h);
    EntryInTime(h);
    var evs := [Happening("touch", []), Happening(ENTRY, [])];
    assert evs[1..] == [Happening(ENTRY, [])];
    OneTurn(ExitAsks(), h, 1, evs[1..], Store([], 0, [], []), 0);
    OneTurnByOutcome(ExitAsks(), h, 1, evs[1..], Outcomes.Memory([], [], []), 0);
  }

  lemma OneTurn(p: Program, h: Host, cur: int, evs: seq<Happening>, st: Store, fuel: nat)
    requires Fits(p, st) && |evs| == 1
    ensures Turns(p, h, cur, evs, st, fuel) == Turn(p, h, cur, evs[0], st, fuel)
  {
    hide Turn;
  }

  lemma OneTurnByOutcome(p: Program, h: Host, cur: int, evs: seq<Happening>, m: Outcomes.Memory, fuel: nat)
    requires Outcomes.FitsIn(p, m) && |evs| == 1
    ensures var t := TurnByOutcome(p, h, cur, evs[0], m, fuel);
            t.Ended? ==> TurnsByOutcome(p, h, cur, evs, m, fuel) == Outcomes.Ended(t.v.0, t.mem)
  {
    hide TurnByOutcome;
  }

  lemma ExitIsNotQuiet()
    ensures HandlersOnly(ExitAsks()) && !QuietExits(ExitAsks())
  {
    var p := ExitAsks();
    var exit := p.states[0].events[1];
    assert !StateFree(exit.body) by { assert !StateFree(exit.body.kind.stmts[0]); }
    assert !ExitStays(p, p.states[0].events) by { assert PoolStr(p, exit.name) == EXIT; }
  }

  lemma FirstTouch(h: Host)
    ensures var p, touch, m := ExitAsks(), Happening("touch", []), Outcomes.Memory([], [], []);
            && TurnByOutcome(p, h, 0, touch, m, 0) == Outcomes.Ended((1, 0), m)
            && Turn(p, h, 0, touch, Outcomes.Full(m), 0) == Done(1, Store([], 0, [], []))
  {
    hide RunByOutcome, HandlerOf, Turn;
    var p, m := ExitAsks(), Outcomes.Memory([], [], []);
    AskingHandler(h, "touch", 1);
    AskingHandler(h, EXIT, 0);
    ExitIsNotQuiet();
    TurnAgrees(p, h, 0, Happening("touch", []), m, 0);
  }

  /** The two handlers of the default state. */
  lemma AskingHandler(h: Host, name: string, k: nat)
    requires (name == "touch" && k == 1) || (name == EXIT && k == 0)
    ensures var p, m := ExitAsks(), Outcomes.Memory([], [], []);
            && RunByOutcome(p, h, HandlerOf(p, 0, name), [], m, 0) == Outcomes.Ended(Outcomes.SwitchTo(k), m)
            && RunHandler(p, h, HandlerOf(p, 0, name), [], Outcomes.Full(m), 0)
               == Done(Switching, Store([], k, [], []))
  {
    hide Outcomes.Exec, HandlerOf, RunHandler;
    var p, m := ExitAsks(), Outcomes.Memory([], [], []);
    Handlers();
    ExitIsNotQuiet();
    AskingBlock(h, k, k);
    RunAgrees(p, h, HandlerOf(p, 0, name), [], m, 0);
  }

  lemma EntryLate(h: Host)
    ensures var p, late := ExitAsks(), Store([], 0, [], []);
            && RunHandler(p, h, HandlerOf(p, 1, ENTRY), [], late, 0)
               == Done(Switching, late.(calls := [SAID]))
            && Turn(p, h, 1, Happening(ENTRY, []), late, 0) == Done(0, Store([], -1, [], [SAID]))
  {
    hide Exec, HandlerOf, Say;
    Handlers();
    SayLate(h);
  }

  lemma EntryInTime(h: Host)
    ensures TurnByOutcome(ExitAsks(), h, 1, Happening(ENTRY, []), Outcomes.Memory([], [], []), 0) ==
            Outcomes.Ended((1, -1), Outcomes.Memory([], [], [SAID, SAID]))
  {
    hide Outcomes.Exec, HandlerOf, Say;
    Handlers();
    BothSaid(h);
  }

  lemma Handlers()
    ensures var p := ExitAsks();
            && HandlerOf(p, 0, "touch") == Handles(p.states[0].events[0])
            && HandlerOf(p, 0, EXIT) == Handles(p.states[0].events[1])
            && HandlerOf(p, 1, ENTRY) == Handles(p.states[1].events[0])
            && HandlerOf(p, 1, EXIT) == NoHandler && HandlerOf(p, 0, ENTRY) == NoHandler
            && FindState(p, "default") == 0 && FindState(p, "other") == 1
  {
    var p := ExitAsks();
    assert FindEvent(p, p.states[0].events, "touch", 0) == 0;
    assert FindEvent(p, p.states[0].events, EXIT, 1) == 1;
    assert FindEvent(p, p.states[0].events, ENTRY, 2) == -1;
    assert FindEvent(p, p.states[0].events, ENTRY, 1) == -1;
    assert FindEvent(p, p.states[1].events, ENTRY, 0) == 0;
    assert FindEvent(p, p.states[1].events, EXIT, 1) == -1;
  }

  lemma AskingBlock(h: Host, n: int, k: nat)
    requires FindState(ExitAsks(), PoolStr(ExitAsks(), n)) == k
    ensures var m := Outcomes.Memory([], [], []);
            Outcomes.Exec(ExitAsks(), h, S(0, Block([S(0, StateChange(n))])), m, 0)
            == Outcomes.Ended(Outcomes.SwitchTo(k), m)
  {
    var m := Outcomes.Memory([], [], []);
    assert Outcomes.ExecSeq(ExitAsks(), h, [S(0, StateChange(n))], 0, m, 0) == Outcomes.Ended(Outcomes.SwitchTo(k), m);
  }

  lemma SayOnce(h: Host, calls: seq<Call>)
    ensures var m := Outcomes.Memory([], [], calls);
            Outcomes.Exec(ExitAsks(), h, Say(), m, 0) == Outcomes.Ended(Outcomes.Next, m.(calls := calls + [SAID]))
  {
    var m := Outcomes.Memory([], [], calls);
    assert Outcomes.EvalFrom(ExitAsks(), h, [], 0, [], m, 0) == Outcomes.Ended([], m);
  }

  lemma BothSaid(h: Host)
    ensures var m := Outcomes.Memory([], [], []);
            Outcomes.Exec(ExitAsks(), h, S(0, Block([Say(), Say()])), m, 0)
            == Outcomes.Ended(Outcomes.Next, m.(calls := [SAID, SAID]))
  {
    hide Outcomes.Eval, Outcomes.ExecSeq, Say;
    OneAfterOther(h);
  }

  lemma OneAfterOther(h: Host)
    ensures var m := Outcomes.Memory([], [], []);
            Outcomes.ExecSeq(ExitAsks(), h, [Say(), Say()], 0, m, 0)
            == Outcomes.Ended(Outcomes.Next, m.(calls := [SAID, SAID]))
  {
    hide Outcomes.Exec, Outcomes.Eval, Say;
    var p, m, blk := ExitAsks(), Outcomes.Memory([], [], []), [Say(), Say()];
    var both := Outcomes.Ended(Outcomes.Next, m.(calls := [SAID, SAID]));
    SayOnce(h, []);
    SayOnce(h, [SAID]);
    assert [] + [SAID] == [SAID] && [SAID] + [SAID] == [SAID, SAID];
    assert Outcomes.ExecSeq(p, h, blk, 2, m.(calls := [SAID, SAID]), 0) == both;
    assert Outcomes.ExecSeq(p, h, blk, 1, m.(calls := [SAID]), 0) == both;
  }

  lemma SayLate(h: Host)
    ensures var st := Store([], 0, [], []);
            Exec(ExitAsks(), h, S(0, Block([Say(), Say()])), st, 0) == Done(Switching, st.(calls := [SAID]))
  {
    var p, st := ExitAsks(), Store([], 0, [], []);
    assert EvalFrom(p, h, [], 0, [], st, 0) == Done([], st);
    assert Exec(p, h, Say(), st, 0) == Done(Switching, st.(calls := [SAID]));
    assert ExecSeq(p, h, [Say(), Say()], 0, st, 0) == Done(Switching, st.(calls := [SAID]));
  }
}
