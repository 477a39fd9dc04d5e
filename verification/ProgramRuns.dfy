/** The event loop over scripts that are programs: what the interpreter makes of the events
    that the loop dispatches. */
module ProgramRuns {
  import opened Values
  import opened Ast
  import opened Semantics
  import opened Scheduler
  import opened SchedulerLaws
  import opened SchedulerRuns
  import opened SchedulerRequests
  import Lifecycle
  import Outcomes
  import Requests

  /** The program of every script, the built-ins, and fuel for every handler. */
  datatype World = World(progs: nat -> Program, host: Host, fuel: nat)

  function Happened(ev: Event): Lifecycle.Happening { Lifecycle.Happening(ev.name, ev.args) }

  /** The events a history says were dispatched. */
  function Events(log: seq<Entry>): (evs: seq<Lifecycle.Happening>)
    ensures |evs| == |DispatchedOf(log)|
  {
    seq(|DispatchedOf(log)|, k requires 0 <= k < |DispatchedOf(log)| => Happened(DispatchedOf(log)[k]))
  }

  // ----- handlers that do what programs do -----

  predicate NoReset(acts: seq<Action>) { forall j :: 0 <= j < |acts| ==> !acts[j].Reset? }

  /** The program's handler for an event, from a store. */
  function Handled(w: World, i: nat, state: int, ev: Event, st: Store): R<Outcome>
    requires Fits(w.progs(i), st)
  {
    var p := w.progs(i);
    Lifecycle.RunHandler(p, w.host, Lifecycle.HandlerOf(p, state, ev.name), ev.args, st, w.fuel)
  }

  /** What the loop sees a script do on an event is what its program does: the handler ends,
      and asks for the state that the actions ask for; and there is no reset. */
  predicate Plays(w: World, env: Env, r: RegionS, i: nat, state: int, ev: Event, st: Store)
    requires i < |r.scripts| && Fits(w.progs(i), st)
  {
    var acts, x := HandlerActions(env, r, i, state, ev), Handled(w, i, state, ev, st);
    x.Done? && Fits(w.progs(i), x.st) && NoReset(acts) && LastAsked(acts, st.pending) == x.st.pending
  }

  /** The region behind the handler of the event at the head of a queue. */
  function Behind(env: Env, r: RegionS, i: nat): (b: RegionS)
    requires i < |r.scripts| && r.scripts[i].queue != []
    ensures |b.scripts| == |r.scripts|
  {
    var s := r.scripts[i];
    RunHandler(env, Put(r, i, Popped(s)), i, s.cur, s.queue[0])
  }

  /** The same for a whole dispatch: the event's handler, and state_exit if a state is asked
      for by then. */
  predicate TurnPlays(w: World, env: Env, r: RegionS, i: nat, st: Store)
    requires i < |r.scripts| && r.scripts[i].queue != [] && Fits(w.progs(i), st)
  {
    var s := r.scripts[i];
    Plays(w, env, r, i, s.cur, s.queue[0], st) &&
    var x := Handled(w, i, s.cur, s.queue[0], st).st;
    x.pending >= 0 ==> Plays(w, env, Behind(env, r, i), i, s.cur, STATE_EXIT, x.(pending := -1))
  }

  function TurnOf(w: World, r: RegionS, i: nat, st: Store): R<int>
    requires i < |r.scripts| && r.scripts[i].queue != [] && Fits(w.progs(i), st)
  {
    var s := r.scripts[i];
    Lifecycle.Turn(w.progs(i), w.host, s.cur, Happened(s.queue[0]), st, w.fuel)
  }

  // ----- runs of the loop -----

  /** The stores of the programs, as long as the loop sees them do what they do. */
  datatype Played = Off | On(stores: seq<Store>)

  predicate FitAll(w: World, sts: seq<Store>) { forall i :: 0 <= i < |sts| ==> Fits(w.progs(i), sts[i]) }

  predicate Fine(w: World, r: RegionS, x: Played) { x.On? ==> |x.stores| == |r.scripts| && FitAll(w, x.stores) }

  function PlayOne(w: World, env: Env, r: RegionS, i: nat, sts: seq<Store>): (x: Played)
    requires i < |r.scripts| == |sts| && FitAll(w, sts)
    ensures Fine(w, r, x)
  {
    if r.scripts[i].queue == [] then On(sts)
    else
      var t := TurnOf(w, r, i, sts[i]);
      Lifecycle.TurnFits(w.progs(i), w.host, r.scripts[i].cur, Happened(r.scripts[i].queue[0]), sts[i], w.fuel);
      if TurnPlays(w, env, r, i, sts[i]) && t.Done? then On(sts[i := t.st]) else Off
  }

  function PlayDrain(w: World, env: Env, r: RegionS, i: nat, sts: seq<Store>): (x: Played)
    requires i <= |r.scripts| == |sts| && FitAll(w, sts)
    ensures Fine(w, r, x)
    decreases |r.scripts| - i
  {
    if i == |r.scripts| then On(sts)
    else
      match PlayOne(w, env, r, i, sts)
      case Off => Off
      case On(sts1) => PlayDrain(w, env, DrainOne(env, r, i), i + 1, sts1)
  }

  function PlayIterate(w: World, env: Env, r: RegionS, sts: seq<Store>): (x: Played)
    requires |sts| == |r.scripts| && FitAll(w, sts)
    ensures Fine(w, r, x)
  {
    if OutOfBudget(env, r) then On(sts) else PlayDrain(w, env, Tick(r), 0, sts)
  }

  function PlayAfter(w: World, env: Env, r: RegionS, n: nat, sts: seq<Store>): (x: Played)
    requires |sts| == |r.scripts| && FitAll(w, sts)
    ensures Fine(w, r, x)
    decreases n
  {
    if n == 0 then On(sts)
    else
      match PlayIterate(w, env, r, sts)
      case Off => Off
      case On(sts1) =>
        var (more, r1) := Iterate(env, r);
        if more then PlayAfter(w, env, r1, n - 1, sts1) else On(sts1)
  }

  /** Every script is where its program is after the events dispatched to it, with the same
      request pending. */
  predicate InStep(w: World, curs: seq<int>, sts0: seq<Store>, r: RegionS, sts: seq<Store>) {
    && |curs| == |sts0| == |r.scripts| == |sts| && FitAll(w, sts0) && FitAll(w, sts)
    && forall i :: 0 <= i < |sts| ==> ScriptInStep(w, curs[i], sts0[i], i, r.scripts[i], sts[i])
  }

  predicate ScriptInStep(w: World, cur: int, st0: Store, i: nat, s: ScriptS, st: Store)
    requires Fits(w.progs(i), st0)
  {
    && Lifecycle.Turns(w.progs(i), w.host, cur, Events(s.log), st0, w.fuel) == Done(s.cur, st)
    && s.pending == st.pending
  }

  // ----- what changes a script -----

  lemma DispatchedSnoc(log: seq<Entry>, e: Entry)
    ensures DispatchedOf(log + [e]) == DispatchedOf(log) + (if e.Dispatched? then [e.ev] else [])
  {
    assert (log + [e])[..|log|] == log;
  }

  /** Nothing that Turns depends on. */
  predicate SameTurns(s: ScriptS, s': ScriptS) { s'.cur == s.cur && DispatchedOf(s'.log) == DispatchedOf(s.log) }

  predicate SameAll(r: RegionS, r': RegionS) {
    |r'.scripts| == |r.scripts| && forall j :: 0 <= j < |r.scripts| ==> SameTurns(r.scripts[j], r'.scripts[j])
  }

  lemma ApplySame(env: Env, r: RegionS, i: nat, a: Action)
    requires i < |r.scripts| && !a.Reset?
    ensures SameAll(r, Apply(env, r, i, a))
  {
    hide DispatchedOf;
    var s := r.scripts[i];
    match a
    case Push(t, ev) => if t < |r.scripts| { DispatchedSnoc(r.scripts[t].log, Pushed(ev)); }
    case SetTimer(x) => DispatchedSnoc(s.log, Armed(r.now, x));
    case Die =>
      DispatchedSnoc(s.log, Dropped(s.queue));
      DispatchedSnoc(s.log + [Dropped(s.queue)], Armed(r.now, 0.0));
    case _ =>
  }

  lemma {:induction false} ApplyAllSame(env: Env, r: RegionS, i: nat, acts: seq<Action>)
    requires i < |r.scripts| && NoReset(acts)
    ensures SameAll(r, ApplyAll(env, r, i, acts))
    decreases |acts|
  {
    hide Apply, DispatchedOf;
    if acts != [] {
      ApplySame(env, r, i, acts[0]);
      ApplyAllSame(env, Apply(env, r, i, acts[0]), i, acts[1..]);
    }
  }

  lemma RunHandlerSame(env: Env, r: RegionS, i: nat, state: int, ev: Event)
    requires i < |r.scripts| && NoReset(HandlerActions(env, r, i, state, ev))
    ensures SameAll(r, RunHandler(env, r, i, state, ev))
  {
    hide DispatchedOf, ApplyAll;
    if state >= 0 && env.handles(i, state, ev.name) {
      ApplyAllSame(env, r.(runs := r.runs + 1), i, env.run(i, state, ev, r.runs));
    }
  }

  /** A dispatch: the event goes on the record, and the script's state and request are those
      of its program's turn. */
  lemma DispatchIsTurn(w: World, env: Env, r: RegionS, i: nat, st: Store)
    requires i < |r.scripts| && r.scripts[i].queue != [] && Fits(w.progs(i), st)
    requires r.scripts[i].pending == st.pending && TurnPlays(w, env, r, i, st)
    ensures var s, s', t := r.scripts[i], DrainOne(env, r, i).scripts[i], TurnOf(w, r, i, st);
            && t == Done(s'.cur, t.st) && s'.pending == t.st.pending
            && DispatchedOf(s'.log) == DispatchedOf(s.log) + [s.queue[0]]
    ensures forall j :: 0 <= j < |r.scripts| && j != i ==> SameTurns(r.scripts[j], DrainOne(env, r, i).scripts[j])
  {
    hide DispatchedOf, RunHandler, HandlerActions, Lifecycle.RunHandler, Lifecycle.HandlerOf, SwitchState;
    var s := r.scripts[i];
    var r0, b := Put(r, i, Popped(s)), Behind(env, r, i);
    SameActions(env, r, r0, i, s.cur, s.queue[0]);
    RunHandlerSame(env, r0, i, s.cur, s.queue[0]);
    RunHandlerAsks(env, r0, i, s.cur, s.queue[0]);
    DispatchedSnoc(s.log, Dispatched(s.queue[0]));
    var b1 := b.(steps := b.steps + 1);
    var x := Handled(w, i, s.cur, s.queue[0], st);
    assert b1.scripts[i].pending == x.st.pending && b1.scripts[i].cur == s.cur;
    if x.st.pending >= 0 {
      SwitchIsExit(w, env, b, i, x.st);
    } else {
      NoSwitch(env, b1, i);
    }
    forall j | 0 <= j < |r.scripts| && j != i ensures SameTurns(r.scripts[j], DrainOne(env, r, i).scripts[j]) {
      assert r0.scripts[j] == r.scripts[j];
      assert SameTurns(r0.scripts[j], b.scripts[j]);
      assert SameTurns(b.scripts[j], SwitchState(env, b1, i).scripts[j]);
    }
  }

  lemma SameActions(env: Env, r: RegionS, r': RegionS, i: nat, state: int, ev: Event)
    requires r'.runs == r.runs
    ensures HandlerActions(env, r', i, state, ev) == HandlerActions(env, r, i, state, ev)
  {
  }

  lemma NoSwitch(env: Env, r: RegionS, i: nat)
    requires i < |r.scripts| && r.scripts[i].pending < 0
    ensures SwitchState(env, r, i) == r
  {
  }

  /** The switch behind a dispatch. */
  lemma SwitchIsExit(w: World, env: Env, b: RegionS, i: nat, st: Store)
    requires i < |b.scripts| && Fits(w.progs(i), st) && b.scripts[i].pending == st.pending >= 0
    requires Plays(w, env, b, i, b.scripts[i].cur, STATE_EXIT, st.(pending := -1))
    ensures var s, s' := b.scripts[i], SwitchState(env, b.(steps := b.steps + 1), i).scripts[i];
            && s'.cur == s.pending && DispatchedOf(s'.log) == DispatchedOf(s.log)
            && s'.pending == Handled(w, i, s.cur, STATE_EXIT, st.(pending := -1)).st.pending
    ensures forall j :: 0 <= j < |b.scripts| && j != i ==>
              SameTurns(b.scripts[j], SwitchState(env, b.(steps := b.steps + 1), i).scripts[j])
  {
    hide DispatchedOf, RunHandler, HandlerActions, Handled;
    var s, b1 := b.scripts[i], b.(steps := b.steps + 1);
    var r1 := Put(b1, i, Flushed(s.(cur := s.pending, pending := -1)));
    DispatchedSnoc(s.log, Dropped(s.queue));
    SameActions(env, b, r1, i, s.cur, STATE_EXIT);
    RunHandlerSame(env, r1, i, s.cur, STATE_EXIT);
    RunHandlerAsks(env, r1, i, s.cur, STATE_EXIT);
    var r2 := RunHandler(env, r1, i, s.cur, STATE_EXIT);
    DispatchedSnoc(r2.scripts[i].log, Pushed(STATE_ENTRY));
  }

  // ----- one script's turns -----

  lemma {:induction false} TurnsSnoc(p: Program, h: Host, cur: int, evs: seq<Lifecycle.Happening>,
                                     ev: Lifecycle.Happening, st: Store, fuel: nat)
    requires Fits(p, st) && Lifecycle.Turns(p, h, cur, evs, st, fuel).Done?
    ensures var a := Lifecycle.Turns(p, h, cur, evs, st, fuel);
            Fits(p, a.st) && Lifecycle.Turns(p, h, cur, evs + [ev], st, fuel) ==
                             Lifecycle.Turn(p, h, a.v, ev, a.st, fuel)
    decreases |evs|
  {
    hide Lifecycle.Turn;
    if evs == [] {
      assert [] + [ev] == [ev];
      Lifecycle.OneTurn(p, h, cur, [ev], st, fuel);
    } else {
      var t := Lifecycle.Turn(p, h, cur, evs[0], st, fuel);
      Lifecycle.TurnFits(p, h, cur, evs[0], st, fuel);
      assert (evs + [ev])[0] == evs[0] && (evs + [ev])[1..] == evs[1..] + [ev];
      TurnsSnoc(p, h, t.v, evs[1..], ev, t.st, fuel);
    }
  }

  lemma EventsSnoc(log: seq<Entry>, log': seq<Entry>, ev: Event)
    requires DispatchedOf(log') == DispatchedOf(log) + [ev]
    ensures Events(log') == Events(log) + [Happened(ev)]
  {
    hide DispatchedOf;
  }

  lemma EventsSame(s: ScriptS, s': ScriptS)
    requires SameTurns(s, s')
    ensures Events(s'.log) == Events(s.log)
  {
    hide DispatchedOf;
  }

  /** Scripts of which nothing changes that Turns depends on stay in step. */
  lemma StaysInStep(w: World, curs: seq<int>, sts0: seq<Store>, r: RegionS, r': RegionS, sts: seq<Store>)
    requires InStep(w, curs, sts0, r, sts) && SameAll(r, r')
    requires forall j :: 0 <= j < |r.scripts| ==> r'.scripts[j].pending == r.scripts[j].pending
    ensures InStep(w, curs, sts0, r', sts)
  {
    hide Events, SameTurns, Lifecycle.Turns;
    forall i | 0 <= i < |sts| ensures ScriptInStep(w, curs[i], sts0[i], i, r'.scripts[i], sts[i]) {
      EventsSame(r.scripts[i], r'.scripts[i]);
      assert ScriptInStep(w, curs[i], sts0[i], i, r.scripts[i], sts[i]);
      CurSame(r.scripts[i], r'.scripts[i]);
    }
  }

  lemma CurSame(s: ScriptS, s': ScriptS)
    requires SameTurns(s, s')
    ensures s'.cur == s.cur
  {
  }

  // ----- every step of the loop -----

  lemma DrainOneInStep(w: World, env: Env, curs: seq<int>, sts0: seq<Store>, r: RegionS, i: nat, sts: seq<Store>)
    requires i < |r.scripts| && InStep(w, curs, sts0, r, sts) && PlayOne(w, env, r, i, sts).On?
    ensures InStep(w, curs, sts0, DrainOne(env, r, i), PlayOne(w, env, r, i, sts).stores)
  {
    hide TurnPlays, DrainOne, TurnOf, SameTurns, Lifecycle.Turns, Events;
    var r' := DrainOne(env, r, i);
    if r.scripts[i].queue == [] {
      EmptyDrain(env, r, i);
    } else {
      assert ScriptInStep(w, curs[i], sts0[i], i, r.scripts[i], sts[i]);
      DispatchIsTurn(w, env, r, i, sts[i]);
      DrainOneFrame(env, r, i);
      var sts' := PlayOne(w, env, r, i, sts).stores;
      DispatchedInStep(w, curs[i], sts0[i], i, r, r'.scripts[i], sts[i]);
      forall j | 0 <= j < |sts'| ensures ScriptInStep(w, curs[j], sts0[j], j, r'.scripts[j], sts'[j]) {
        if j != i {
          assert ScriptInStep(w, curs[j], sts0[j], j, r.scripts[j], sts[j]);
          EventsSame(r.scripts[j], r'.scripts[j]);
          CurSame(r.scripts[j], r'.scripts[j]);
        }
      }
    }
  }

  lemma EmptyDrain(env: Env, r: RegionS, i: nat)
    requires i < |r.scripts| && r.scripts[i].queue == []
    ensures DrainOne(env, r, i) == r
  {
  }

  lemma DispatchedInStep(w: World, cur: int, st0: Store, i: nat, r: RegionS, s': ScriptS, st: Store)
    requires i < |r.scripts| && r.scripts[i].queue != [] && Fits(w.progs(i), st0) && Fits(w.progs(i), st)
    requires ScriptInStep(w, cur, st0, i, r.scripts[i], st)
    requires var t := TurnOf(w, r, i, st); t.Done? && t.v == s'.cur && s'.pending == t.st.pending
    requires DispatchedOf(s'.log) == DispatchedOf(r.scripts[i].log) + [r.scripts[i].queue[0]]
    ensures ScriptInStep(w, cur, st0, i, s', TurnOf(w, r, i, st).st)
  {
    hide Lifecycle.Turns, Lifecycle.Turn, DispatchedOf, Events;
    var s := r.scripts[i];
    EventsSnoc(s.log, s'.log, s.queue[0]);
    TurnsSnoc(w.progs(i), w.host, cur, Events(s.log), Happened(s.queue[0]), st0, w.fuel);
  }

  lemma {:induction false} DrainInStep(w: World, env: Env, curs: seq<int>, sts0: seq<Store>, r: RegionS, i: nat,
                                       sts: seq<Store>)
    requires i <= |r.scripts| && InStep(w, curs, sts0, r, sts) && PlayDrain(w, env, r, i, sts).On?
    ensures InStep(w, curs, sts0, Drain(env, r, i), PlayDrain(w, env, r, i, sts).stores)
    decreases |r.scripts| - i
  {
    hide PlayOne, DrainOne, InStep, FitAll;
    if i < |r.scripts| {
      Lengths(w, curs, sts0, r, sts);
      DrainOneInStep(w, env, curs, sts0, r, i, sts);
      var sts1 := PlayOne(w, env, r, i, sts).stores;
      DrainInStep(w, env, curs, sts0, DrainOne(env, r, i), i + 1, sts1);
    }
  }

  lemma Lengths(w: World, curs: seq<int>, sts0: seq<Store>, r: RegionS, sts: seq<Store>)
    requires InStep(w, curs, sts0, r, sts)
    ensures |sts| == |r.scripts| && FitAll(w, sts)
  {
  }

  lemma TickInStep(w: World, curs: seq<int>, sts0: seq<Store>, r: RegionS, sts: seq<Store>)
    requires InStep(w, curs, sts0, r, sts)
    ensures InStep(w, curs, sts0, Tick(r), sts)
  {
    hide InStep, DispatchedOf;
    var k := Earliest(r.scripts, r.offset, |r.scripts|);
    if k >= 0 {
      var s := r.scripts[k];
      DispatchedSnoc(s.log, Fired(s.due));
      DispatchedSnoc(s.log + [Fired(s.due)], Pushed(TIMER));
    }
    StaysInStep(w, curs, sts0, r, Tick(r), sts);
  }

  lemma {:induction false} DeliverSame(r: RegionS, ps: seq<(nat, Event)>)
    ensures SameAll(r, DeliverAll(r, ps))
    ensures forall j :: 0 <= j < |r.scripts| ==> DeliverAll(r, ps).scripts[j].pending == r.scripts[j].pending
    decreases |ps|
  {
    hide DispatchedOf;
    if ps != [] {
      if ps[0].0 < |r.scripts| { DispatchedSnoc(r.scripts[ps[0].0].log, Pushed(ps[0].1)); }
      DeliverSame(PushTo(r, ps[0].0, ps[0].1), ps[1..]);
    }
  }

  lemma PumpInStep(w: World, env: Env, curs: seq<int>, sts0: seq<Store>, r: RegionS, sts: seq<Store>)
    requires r.cmds != [] && InStep(w, curs, sts0, r, sts)
    ensures InStep(w, curs, sts0, Pump(env, r), sts)
  {
    hide InStep, DispatchedOf, DeliverAll;
    if r.cmds[0].Deliver? { DeliverSame(r.(cmds := r.cmds[1..]), r.cmds[0].pushes); }
    StaysInStep(w, curs, sts0, r, Pump(env, r), sts);
  }

  lemma IterateInStep(w: World, env: Env, curs: seq<int>, sts0: seq<Store>, r: RegionS, sts: seq<Store>)
    requires InStep(w, curs, sts0, r, sts) && PlayIterate(w, env, r, sts).On?
    ensures InStep(w, curs, sts0, Iterate(env, r).1, PlayIterate(w, env, r, sts).stores)
  {
    hide InStep, FitAll, Tick, Drain, Pump, PlayDrain, DispatchedOf;
    Lengths(w, curs, sts0, r, sts);
    if !OutOfBudget(env, r) {
      var t := Tick(r);
      var d := Drain(env, t, 0);
      var r1, sts1 := d.(rounds := d.rounds + 1), PlayDrain(w, env, t, 0, sts).stores;
      TickInStep(w, curs, sts0, r, sts);
      DrainInStep(w, env, curs, sts0, t, 0, sts);
      StaysInStep(w, curs, sts0, d, r1, sts1);
      if r1.cmds != [] { PumpInStep(w, env, curs, sts0, r1, sts1); }
    }
  }

  lemma {:induction false} AfterInStep(w: World, env: Env, curs: seq<int>, sts0: seq<Store>, r: RegionS, n: nat,
                                       sts: seq<Store>)
    requires InStep(w, curs, sts0, r, sts) && PlayAfter(w, env, r, n, sts).On?
    ensures InStep(w, curs, sts0, After(env, r, n), PlayAfter(w, env, r, n, sts).stores)
    decreases n
  {
    hide InStep, FitAll, Iterate, PlayIterate;
    Lengths(w, curs, sts0, r, sts);
    if n > 0 {
      IterateInStep(w, env, curs, sts0, r, sts);
      var (more, r1) := Iterate(env, r);
      if more { AfterInStep(w, env, curs, sts0, r1, n - 1, PlayIterate(w, env, r, sts).stores); }
    }
  }

  // ----- whole runs -----

  /** The state in which each script starts. */
  function FirstStates(r: RegionS): (curs: seq<int>)
    ensures |curs| == |r.scripts|
  {
    seq(|r.scripts|, i requires 0 <= i < |r.scripts| => r.scripts[i].cur)
  }

  predicate Undispatched(r: RegionS) {
    forall i :: 0 <= i < |r.scripts| ==> DispatchedOf(r.scripts[i].log) == [] && r.scripts[i].pending == -1
  }

  lemma {:induction false} StartedUndispatched(env: Env, r: RegionS, i: nat, hasStates: nat -> bool)
    requires i <= |r.scripts| && Undispatched(r)
    ensures Undispatched(Started(env, r, i, hasStates))
    decreases |r.scripts| - i
  {
    hide DispatchedOf;
    if i < |r.scripts| {
      var d, s := env.defaultState(i), r.scripts[i];
      var cur := if d >= 0 then d else if s.cur < 0 && hasStates(i) then 0 else s.cur;
      DispatchedSnoc(s.log, Pushed(STATE_ENTRY));
      StartedUndispatched(env, Put(r, i, Pushing(s.(cur := cur), STATE_ENTRY)), i + 1, hasStates);
    }
  }

  lemma StartInStep(w: World, r: RegionS, sts: seq<Store>)
    requires Undispatched(r) && |sts| == |r.scripts| && FitAll(w, sts)
    requires forall i :: 0 <= i < |sts| ==> sts[i].pending == -1
    ensures InStep(w, FirstStates(r), sts, r, sts)
  {
    hide DispatchedOf;
    forall i | 0 <= i < |sts| ensures ScriptInStep(w, FirstStates(r)[i], sts[i], i, r.scripts[i], sts[i]) {
      assert Events(r.scripts[i].log) == [];
    }
  }

  /** However long the loop runs scripts that do what their programs do, every script is in
      the state, with the store and with the request that its program comes to when it takes
      the events dispatched to the script one after the other. */
  lemma RunsAreTurns(w: World, env: Env, r: RegionS, hasStates: nat -> bool, n: nat, sts: seq<Store>)
    requires Fresh(r) && |sts| == |r.scripts| && FitAll(w, sts)
    requires forall i :: 0 <= i < |sts| ==> sts[i].pending == -1
    requires PlayAfter(w, env, Started(env, r, 0, hasStates), n, sts).On?
    ensures var r0 := Started(env, r, 0, hasStates);
            InStep(w, FirstStates(r0), sts, After(env, r0, n), PlayAfter(w, env, r0, n, sts).stores)
  {
    hide InStep, PlayAfter, After, Started, FitAll;
    var r0 := Started(env, r, 0, hasStates);
    StartedUndispatched(env, r, 0, hasStates);
    StartInStep(w, r0, sts);
    AfterInStep(w, env, FirstStates(r0), sts, r0, n, sts);
  }

  /** Where in addition no user function and no state_exit handler of a script holds a `state`
      statement, outcomes alone decide its state and memory, and no request is pending. */
  lemma RunsGoByOutcome(w: World, env: Env, r: RegionS, hasStates: nat -> bool, n: nat, sts: seq<Store>, i: nat)
    requires Fresh(r) && i < |sts| == |r.scripts| && FitAll(w, sts)
    requires forall j :: 0 <= j < |sts| ==> sts[j].pending == -1
    requires PlayAfter(w, env, Started(env, r, 0, hasStates), n, sts).On?
    requires Lifecycle.QuietExits(w.progs(i))
    ensures var r0 := Started(env, r, 0, hasStates);
            i < |After(env, r0, n).scripts| && i < |PlayAfter(w, env, r0, n, sts).stores|
    ensures var r0 := Started(env, r, 0, hasStates);
            var s, m := After(env, r0, n).scripts[i], Outcomes.Bare(PlayAfter(w, env, r0, n, sts).stores[i]);
            && Lifecycle.TurnsByOutcome(w.progs(i), w.host, r0.scripts[i].cur, Events(s.log), Outcomes.Bare(sts[i]),
                                        w.fuel)
               == Outcomes.Ended(s.cur, m)
            && s.pending == -1
  {
    hide Fresh, Events, PlayAfter, After, Started, Lifecycle.QuietExits, Lifecycle.Turns, Lifecycle.TurnsByOutcome;
    var r0 := Started(env, r, 0, hasStates);
    RunsAreTurns(w, env, r, hasStates, n, sts);
    var s, st := After(env, r0, n).scripts[i], PlayAfter(w, env, r0, n, sts).stores[i];
    assert ScriptInStep(w, FirstStates(r0)[i], sts[i], i, s, st);
    assert Outcomes.Full(Outcomes.Bare(sts[i])) == sts[i];
    Lifecycle.TurnsAgree(w.progs(i), w.host, r0.scripts[i].cur, Events(s.log), Outcomes.Bare(sts[i]), w.fuel);
  }

  // ----- the two conditions on state_exit -----

  /** The k-th handler run, should it be state_exit of a state, asks for what that handler
      of the program asks for, from some store in which nothing is asked for. */
  ghost predicate ExitPlays(w: World, env: Env, i: nat, state: int, k: nat) {
    exists st: Store :: ExitFrom(w, env, i, state, k, st)
  }

  predicate ExitFrom(w: World, env: Env, i: nat, state: int, k: nat, st: Store) {
    && Fits(w.progs(i), st) && st.pending < 0
    && var x := Handled(w, i, state, STATE_EXIT, st);
       x.Done? && LastAsked(env.run(i, state, STATE_EXIT, k), st.pending) == x.st.pending
  }

  /** Programs whose state_exit handlers hold no `state` make a loop in which no state_exit
      asks for a state. */
  lemma QuietProgramsAreSilent(w: World, env: Env)
    requires forall i, state, k :: ExitPlays(w, env, i, state, k)
    requires forall i :: Lifecycle.QuietExits(w.progs(i))
    ensures SilentExits(env)
  {
    forall i: nat, state, k: nat ensures !Asks(env.run(i, state, STATE_EXIT, k)) {
      assert ExitPlays(w, env, i, state, k);
      var st: Store :| ExitFrom(w, env, i, state, k, st);
      assert Lifecycle.QuietExits(w.progs(i));
      ExitAsksNothing(w, i, state, st);
      AsksIff(env.run(i, state, STATE_EXIT, k), st.pending);
    }
  }

  lemma ExitAsksNothing(w: World, i: nat, state: int, st: Store)
    requires Fits(w.progs(i), st) && Lifecycle.QuietExits(w.progs(i))
    ensures var x := Handled(w, i, state, STATE_EXIT, st); x.Done? ==> x.st.pending == st.pending
  {
    hide Exec, Requests.HandlersOnly, Lifecycle.HandlerOf;
    var p := w.progs(i);
    var hd := Lifecycle.HandlerOf(p, state, STATE_EXIT.name);
    Lifecycle.ExitsAreQuiet(p, state);
    if hd.Handles? {
      Requests.StatementsDoNotAsk(p, w.host, hd.ev.body, st.(locals := BindArgs(hd.ev.params, [])), w.fuel);
    }
  }
}
