/** Progress, the step budget and the queue at a state switch. */
module SchedulerRuns {
  import opened Values
  import opened Scheduler
  import opened SchedulerLaws

  // ----- a handler and the other scripts -----

  /** Other scripts only have events added to their queues. */
  predicate OthersOnlyQueue(r: RegionS, r': RegionS, i: nat) {
    && |r'.scripts| == |r.scripts|
    && forall j :: 0 <= j < |r.scripts| && j != i ==>
         && r.scripts[j].queue <= r'.scripts[j].queue
         && r'.scripts[j] == r.scripts[j].(queue := r'.scripts[j].queue, log := r'.scripts[j].log)
  }

  lemma {:induction false} ApplyAllFrame(env: Env, r: RegionS, i: nat, acts: seq<Action>)
    requires i < |r.scripts|
    ensures OthersOnlyQueue(r, ApplyAll(env, r, i, acts), i)
    ensures ApplyAll(env, r, i, acts).steps == r.steps && ApplyAll(env, r, i, acts).cmds == r.cmds
    decreases |acts|
  {
    if acts != [] { ApplyAllFrame(env, Apply(env, r, i, acts[0]), i, acts[1..]); }
  }

  lemma RunHandlerFrame(env: Env, r: RegionS, i: nat, state: int, ev: Event)
    requires i < |r.scripts|
    ensures var r' := RunHandler(env, r, i, state, ev);
            OthersOnlyQueue(r, r', i) && r'.steps == r.steps && r'.cmds == r.cmds
  {
    ApplyAllFrame(env, r.(runs := r.runs + 1), i, env.run(i, state, ev, r.runs));
  }

  /** A dispatch counts one step and touches the other scripts' queues only, at the end. */
  lemma DrainOneFrame(env: Env, r: RegionS, i: nat)
    requires i < |r.scripts|
    ensures var r' := DrainOne(env, r, i);
            && OthersOnlyQueue(r, r', i) && r'.cmds == r.cmds
            && r'.steps == r.steps + if r.scripts[i].queue != [] then 1 else 0
  {
    hide RunHandler;
    var s := r.scripts[i];
    if s.queue != [] {
      var r0 := Put(r, i, Popped(s));
      RunHandlerFrame(env, r0, i, s.cur, s.queue[0]);
      var r1 := RunHandler(env, r0, i, s.cur, s.queue[0]);
      var t := r1.scripts[i];
      if t.pending >= 0 {
        var r2 := Put(r1.(steps := r1.steps + 1), i, Flushed(t.(cur := t.pending, pending := -1)));
        RunHandlerFrame(env, r2, i, t.cur, STATE_EXIT);
      }
    }
  }

  /** A round dispatches at most one event per script, and at least one when any script
      still to come has something queued. */
  lemma {:induction false} DrainSteps(env: Env, r: RegionS, i: nat)
    requires i <= |r.scripts|
    ensures var r' := Drain(env, r, i);
            && r.steps <= r'.steps <= r.steps + |r.scripts| - i && r'.cmds == r.cmds
            && (r'.steps > r.steps <==> exists j :: i <= j < |r.scripts| && r.scripts[j].queue != [])
    decreases |r.scripts| - i
  {
    hide DrainOne;
    if i < |r.scripts| {
      DrainOneFrame(env, r, i);
      var r1 := DrainOne(env, r, i);
      DrainSteps(env, r1, i + 1);
      if r.scripts[i].queue == [] { DrainNothing(env, r, i); }
    }
  }

  lemma DrainNothing(env: Env, r: RegionS, i: nat)
    requires i < |r.scripts| && r.scripts[i].queue == []
    ensures DrainOne(env, r, i) == r
  {
  }

  // ----- progress -----

  predicate Busy(r: RegionS) {
    Earliest(r.scripts, r.offset, |r.scripts|) >= 0 || exists i :: 0 <= i < |r.scripts| && r.scripts[i].queue != []
  }

  /** A fired timer is dispatched in the iteration it fires in, so an iteration makes
      progress on events exactly when a timer is due or a queue is not empty, and then it
      dispatches at least one event. */
  lemma BusyMeansDispatch(env: Env, r: RegionS)
    ensures var t := Tick(r); var r1 := Drain(env, t, 0);
            && (Busy(r) <==> r1.steps > r.steps)
            && (Busy(r) <==> t.fires != r.fires || r1.steps != r.steps)
            && r.steps <= r1.steps <= r.steps + |r.scripts| && r1.cmds == r.cmds
  {
    var t := Tick(r);
    DrainSteps(env, t, 0);
    var k := Earliest(r.scripts, r.offset, |r.scripts|);
    if k >= 0 {
      assert t.scripts[k].queue[|t.scripts[k].queue| - 1] == TIMER;
    } else {
      assert t.scripts == r.scripts;
    }
  }

  /** Within a positive budget every iteration that goes on has counted a step, and without
      EXIT it counts at most one per script, or one for a command. */
  lemma IterationCounts(env: Env, r: RegionS)
    requires env.maxSteps > 0
    ensures var (more, r') := Iterate(env, r);
            && (more ==> r.steps < env.maxSteps && r'.steps > r.steps)
            && (!(more && r.cmds != [] && r'.cmds != r.cmds && r.cmds[0].Exit?)
                ==> r.steps <= r'.steps <= r.steps + Max1(|r.scripts|))
            && (r'.cmds == r.cmds || (r.cmds != [] && r'.cmds == r.cmds[1..]))
  {
    hide Tick, Drain;
    BusyMeansDispatch(env, r);
    if !OutOfBudget(env, r) {
      var d := Drain(env, Tick(r), 0);
      var r1 := d.(rounds := d.rounds + 1);
      if !Busy(r) && r1.cmds != [] { PumpSteps(env, r1); }
    }
  }

  function Max1(n: nat): nat { if n == 0 then 1 else n }

  lemma PumpSteps(env: Env, r: RegionS)
    requires r.cmds != []
    ensures Pump(env, r).steps == if r.cmds[0].Exit? then env.maxSteps + 2 else r.steps + 1
  {
    match r.cmds[0]
    case Deliver(ps) => DeliverAllSteps(r.(cmds := r.cmds[1..]), ps);
    case _ =>
  }

  lemma {:induction false} DeliverAllSteps(r: RegionS, ps: seq<(nat, Event)>)
    ensures DeliverAll(r, ps).steps == r.steps
    decreases |ps|
  {
    if ps != [] { DeliverAllSteps(PushTo(r, ps[0].0, ps[0].1), ps[1..]); }
  }

  // ----- whole runs -----

  /** The state in which the main loop ends; it ends because steps run out. */
  function LoopEnd(env: Env, r: RegionS): (r': RegionS)
    requires env.maxSteps > 0
    ensures |r'.scripts| == |r.scripts|
    decreases if r.steps < env.maxSteps then env.maxSteps - r.steps else 0
  {
    IterationCounts(env, r);
    var (more, r1) := Iterate(env, r);
    if more then LoopEnd(env, r1) else r1
  }

  /** The commands left when the loop ends are still carried out. */
  function PumpRest(env: Env, r: RegionS): (r': RegionS)
    ensures r'.cmds == [] && |r'.scripts| == |r.scripts|
    decreases |r.cmds|
  {
    if r.cmds == [] then r else PumpRest(env, Pump(env, r))
  }

  /** region_run */
  function RunRegion(env: Env, r: RegionS, hasStates: nat -> bool): RegionS
    requires env.maxSteps > 0
  {
    PumpRest(env, LoopEnd(env, Started(env, r, 0, hasStates)))
  }

  /** The loop ends within n iterations; After(env, r, n) is then the state it ends in. */
  predicate EndsIn(env: Env, r: RegionS, n: nat)
    decreases n
  {
    n > 0 && var (more, r1) := Iterate(env, r); more ==> EndsIn(env, r1, n - 1)
  }

  /** With a step limit the loop ends, after some number of iterations. */
  lemma {:induction false} LoopEndIsReached(env: Env, r: RegionS) returns (n: nat)
    requires env.maxSteps > 0
    ensures EndsIn(env, r, n) && After(env, r, n) == LoopEnd(env, r)
    decreases if r.steps < env.maxSteps then env.maxSteps - r.steps else 0
  {
    hide Iterate;
    IterationCounts(env, r);
    var (more, r1) := Iterate(env, r);
    if more {
      var m := LoopEndIsReached(env, r1);
      n := m + 1;
    } else {
      n := 1;
    }
  }

  /** However many more iterations one allows, the loop ends in the same state. */
  lemma {:induction false} EndIsUnique(env: Env, r: RegionS, n: nat, m: nat)
    requires EndsIn(env, r, n) && n <= m
    ensures EndsIn(env, r, m) && After(env, r, m) == After(env, r, n)
    decreases n
  {
    hide Iterate;
    var (more, r1) := Iterate(env, r);
    if more { EndIsUnique(env, r1, n - 1, m - 1); }
  }

  /** With a step limit, the state in which the loop ends within any bound. */
  lemma SameEnd(env: Env, r: RegionS, n: nat)
    requires env.maxSteps > 0 && EndsIn(env, r, n)
    ensures After(env, r, n) == LoopEnd(env, r)
  {
    hide LoopEnd;
    var m := LoopEndIsReached(env, r);
    EndIsUnique(env, r, n, if n <= m then m else n);
    EndIsUnique(env, r, m, if n <= m then m else n);
  }

  // ----- a run without end -----

  const NOTE := Event("link_message", [Int(0), Int(0), Str(""), Key("")])

  /** Scripts whose handlers for state_entry and link_message send themselves a message, as
      llMessageLinked does; and no limit. */
  function Echo(): Env {
    Env((i: nat, state: int, name: string) => name == STATE_ENTRY.name || name == NOTE.name,
        (i: nat, state: int, ev: Event, k: nat) => [Push(i, NOTE)],
        (i: nat) => 0, (k: nat) => false, 0)
  }

  predicate Answered(ev: Event) { ev.name == STATE_ENTRY.name || ev.name == NOTE.name }

  /** One script that is waiting for an event to answer, and has no timer. */
  predicate Echoing(r: RegionS) {
    |r.scripts| == 1 && var s := r.scripts[0];
    s.cur >= 0 && s.pending < 0 && s.interval == 0.0 && s.queue != [] && forall ev :: ev in s.queue ==> Answered(ev)
  }

  lemma EchoGoesOn(r: RegionS)
    requires Echoing(r)
    ensures Iterate(Echo(), r).0 && Echoing(Iterate(Echo(), r).1)
  {
    var t := Tick(r);
    var s := t.scripts[0];
    assert Echoing(t);
    BusyMeansDispatch(Echo(), r);
    var d := DrainOne(Echo(), t, 0);
    EchoTurn(t);
    assert Drain(Echo(), t, 0) == Drain(Echo(), d, 1) == d;
  }

  lemma EchoTurn(r: RegionS)
    requires Echoing(r)
    ensures Echoing(DrainOne(Echo(), r, 0))
  {
    var s := r.scripts[0];
    var acts := [Push(0, NOTE)];
    var r1 := Put(r, 0, Popped(s));
    var r2 := r1.(runs := r1.runs + 1);
    assert acts[1..] == [];
    assert Answered(s.queue[0]);
    assert ApplyAll(Echo(), r2, 0, acts) == PushTo(r2, 0, NOTE);
    assert RunHandler(Echo(), r1, 0, s.cur, s.queue[0]) == PushTo(r2, 0, NOTE);
  }

  lemma {:induction false} EchoingNeverEnds(r: RegionS, n: nat)
    requires Echoing(r)
    ensures !EndsIn(Echo(), r, n)
    decreases n
  {
    hide Iterate, Echoing;
    if n > 0 {
      EchoGoesOn(r);
      EchoingNeverEnds(Iterate(Echo(), r).1, n - 1);
    }
  }

  /** Without a step limit, one such script keeps the loop going for ever from its start. */
  lemma EchoNeverEnds(r: RegionS, hasStates: nat -> bool, n: nat)
    requires Fresh(r) && |r.scripts| == 1
    ensures !EndsIn(Echo(), Started(Echo(), r, 0, hasStates), n)
  {
    var s := r.scripts[0].(cur := 0);
    var r1 := Put(r, 0, Pushing(s, STATE_ENTRY));
    assert Started(Echo(), r, 0, hasStates) == Started(Echo(), r1, 1, hasStates) == r1;
    EchoingNeverEnds(r1, n);
  }

  /** Without EXIT the loop overshoots its budget by less than one round. */
  lemma {:induction false} StepBudget(env: Env, r: RegionS)
    requires env.maxSteps > 0
    requires forall i :: 0 <= i < |r.cmds| ==> !r.cmds[i].Exit?
    requires r.steps <= env.maxSteps - 1 + Max1(|r.scripts|)
    ensures LoopEnd(env, r).steps <= env.maxSteps - 1 + Max1(|r.scripts|)
    decreases if r.steps < env.maxSteps then env.maxSteps - r.steps else 0
  {
    hide Iterate;
    IterationCounts(env, r);
    var (more, r1) := Iterate(env, r);
    if r.steps >= env.maxSteps { OverBudgetStops(env, r); }
    if more { StepBudget(env, r1); }
  }

  lemma OverBudgetStops(env: Env, r: RegionS)
    requires env.maxSteps > 0 && r.steps >= env.maxSteps
    ensures Iterate(env, r) == (false, r)
  {
  }

  lemma {:induction false} PumpRestKeeps(env: Env, r: RegionS)
    requires Inv(r) && WaitsForward(r)
    ensures Inv(PumpRest(env, r))
    decreases |r.cmds|
  {
    hide Inv, Pump;
    if r.cmds != [] {
      PumpKeeps(env, r);
      PumpRestKeeps(env, Pump(env, r));
    }
  }

  /** A whole run ends with every script on its ledger and schedule, and with every command
      carried out, those after EXIT included. */
  lemma WholeRun(env: Env, r: RegionS, hasStates: nat -> bool)
    requires env.maxSteps > 0 && Fresh(r) && Forward(env) && WaitsForward(r)
    ensures Inv(RunRegion(env, r, hasStates)) && RunRegion(env, r, hasStates).cmds == []
  {
    hide Inv;
    FreshInv(r);
    StartedKeeps(env, r, 0, hasStates);
    var r1 := Started(env, r, 0, hasStates);
    var n := LoopEndIsReached(env, r1);
    AfterKeeps(env, r1, n);
    PumpRestKeeps(env, LoopEnd(env, r1));
  }

  /** A loop that ends within its budget has nothing queued, nothing due and no command
      left. */
  lemma LoopEndsQuiet(env: Env, r: RegionS)
    requires !OutOfBudget(env, r) && !Iterate(env, r).0
    ensures var r' := Iterate(env, r).1;
            Idle(r') && r'.cmds == [] && forall i :: 0 <= i < |r'.scripts| ==> r'.scripts[i].queue == []
  {
    BusyMeansDispatch(env, r);
    QuietTickIsIdle(r);
    DrainQuiet(env, Tick(r), 0);
  }

  lemma {:induction false} DrainQuiet(env: Env, r: RegionS, i: nat)
    requires i <= |r.scripts| && forall j :: i <= j < |r.scripts| ==> r.scripts[j].queue == []
    ensures Drain(env, r, i) == r
    decreases |r.scripts| - i
  {
    if i < |r.scripts| { DrainQuiet(env, r, i + 1); }
  }

  // ----- a state switch -----

  /** A script's own queue after some actions of its own. */
  function QueueAfter(i: nat, acts: seq<Action>, q: seq<Event>): seq<Event>
    decreases |acts|
  {
    if acts == [] then q
    else
      var a := acts[0];
      QueueAfter(i, acts[1..],
        if a.Push? && a.target == i then q + [a.ev]
        else if a.Die? then []
        else if a.Reset? then [STATE_ENTRY]
        else q)
  }

  lemma {:induction false} ApplyAllQueue(env: Env, r: RegionS, i: nat, acts: seq<Action>)
    requires i < |r.scripts|
    ensures ApplyAll(env, r, i, acts).scripts[i].queue == QueueAfter(i, acts, r.scripts[i].queue)
    decreases |acts|
  {
    if acts != [] {
      ApplyQueue(env, r, i, acts[0]);
      assert [acts[0]][1..] == [];
      ApplyAllQueue(env, Apply(env, r, i, acts[0]), i, acts[1..]);
    }
  }

  lemma ApplyQueue(env: Env, r: RegionS, i: nat, a: Action)
    requires i < |r.scripts|
    ensures Apply(env, r, i, a).scripts[i].queue == QueueAfter(i, [a], r.scripts[i].queue)
  {
    assert [a][1..] == [];
    assert a.Reset? ==> Apply(env, r, i, a).scripts[i].queue == [STATE_ENTRY];
  }

  /** What state_exit of the old state does. */
  function ExitActions(env: Env, r: RegionS, i: nat): seq<Action>
    requires i < |r.scripts|
  {
    var was := r.scripts[i].cur;
    if was >= 0 && env.handles(i, was, STATE_EXIT.name) then env.run(i, was, STATE_EXIT, r.runs) else []
  }

  /** Right after a switch the queue holds what state_exit of the old state left in it,
      and then state_entry; nothing queued before the switch survives. */
  lemma SwitchQueue(env: Env, r: RegionS, i: nat)
    requires i < |r.scripts| && r.scripts[i].pending >= 0
    ensures SwitchState(env, r, i).scripts[i].queue == QueueAfter(i, ExitActions(env, r, i), []) + [STATE_ENTRY]
  {
    var s := r.scripts[i];
    var r1 := Put(r, i, Flushed(s.(cur := s.pending, pending := -1)));
    var acts := ExitActions(env, r, i);
    ApplyAllQueue(env, r1.(runs := r.runs + 1), i, acts);
  }

  /** state_exit that neither dies nor resets leaves exactly the events it queued to its
      own script. */
  function OwnPushes(i: nat, acts: seq<Action>): seq<Event>
    decreases |acts|
  {
    if acts == [] then []
    else (if acts[0].Push? && acts[0].target == i then [acts[0].ev] else []) + OwnPushes(i, acts[1..])
  }

  lemma {:induction false} PlainQueueAfter(i: nat, acts: seq<Action>, q: seq<Event>)
    requires forall j :: 0 <= j < |acts| ==> !acts[j].Die? && !acts[j].Reset?
    ensures QueueAfter(i, acts, q) == q + OwnPushes(i, acts)
    decreases |acts|
  {
    if acts != [] {
      var a := acts[0];
      PlainQueueAfter(i, acts[1..], if a.Push? && a.target == i then q + [a.ev] else q);
    }
  }
}
