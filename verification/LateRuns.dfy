/** A run of the loop in which a handler starts with a request pending. */
module LateRuns {
  import opened Values
  import opened Semantics
  import opened Scheduler
  import opened SchedulerLaws
  import opened SchedulerRuns
  import opened SchedulerRequests
  import opened ProgramRuns
  import Lifecycle

  const TOUCH := Event("touch", [])

  /** A loop that runs the script whose state_exit asks. */
  function LateEnv(): Env {
    Env((i, state, name) => Lifecycle.HandlerOf(Lifecycle.ExitAsks(), state, name).Handles?,
        (i, state, ev, k) => if state == 0 then [RequestState(if ev == TOUCH then 1 else 0)] else [],
        i => 0, k => false, 0)
  }

  function LateWorld(h: Host): World { World(i => Lifecycle.ExitAsks(), h, 0) }

  /** The region of that script between dispatches. */
  function LateRegion(s: ScriptS, cmds: seq<Command>, steps: nat, runs: nat, rounds: nat): RegionS {
    RegionS([s], 0.0, 0.0, steps, cmds, runs, rounds, [])
  }

  function LateScript(cur: int, pending: int, queue: seq<Event>, log: seq<Entry>): ScriptS {
    ScriptS(cur, pending, queue, 0.0, 0.0, log)
  }

  const TOUCHED := [Deliver([(0, TOUCH)])]

  /** An iteration with an event in the queue. */
  lemma LateStep(h: Host, s: ScriptS, cmds: seq<Command>, steps: nat, runs: nat, rounds: nat, st: Store)
    requires s.queue != [] && s.interval == 0.0 && Fits(Lifecycle.ExitAsks(), st)
    ensures var r := LateRegion(s, cmds, steps, runs, rounds);
            var d := DrainOne(LateEnv(), r, 0);
            && Iterate(LateEnv(), r) == (true, d.(rounds := d.rounds + 1))
            && PlayIterate(LateWorld(h), LateEnv(), r, [st]) == PlayOne(LateWorld(h), LateEnv(), r, 0, [st])
  {
    hide PlayOne, DrainOne;
    var env, r := LateEnv(), LateRegion(s, cmds, steps, runs, rounds);
    DrainOneFrame(env, r, 0);
    assert Earliest(r.scripts, r.offset, 1) == Earliest(r.scripts, r.offset, 0);
    assert Tick(r) == r;
    var d := DrainOne(env, r, 0);
    assert Drain(env, d, 1) == d;
    assert Drain(env, r, 0) == d;
    match PlayOne(LateWorld(h), env, r, 0, [st])
    case Off =>
    case On(sts1) => assert PlayDrain(LateWorld(h), env, d, 1, sts1) == On(sts1);
  }

  lemma LateHandlers()
    ensures LateEnv().handles(0, 0, TOUCH.name) && LateEnv().handles(0, 0, STATE_EXIT.name)
    ensures LateEnv().handles(0, 1, STATE_ENTRY.name)
    ensures !LateEnv().handles(0, 0, STATE_ENTRY.name) && !LateEnv().handles(0, 1, STATE_EXIT.name)
  {
    hide Lifecycle.HandlerOf, Lifecycle.ExitAsks;
    Lifecycle.Handlers();
  }

  const NOTHING := Store([], -1, [], [])

  lemma NoGlobals()
    ensures Lifecycle.ExitAsks().globals == []
  {
  }

  lemma PutOnly(r: RegionS, s: ScriptS)
    requires |r.scripts| == 1
    ensures Put(r, 0, s) == r.(scripts := [s])
  {
  }

  /** A handler of the default state asks for state k, once. */
  lemma RunsAsking(r: RegionS, ev: Event, k: nat)
    requires |r.scripts| == 1 && ((ev == TOUCH && k == 1) || (ev == STATE_EXIT && k == 0))
    ensures var asking := [RequestState(k)];
            && HandlerActions(LateEnv(), r, 0, 0, ev) == asking && NoReset(asking) && LastAsked(asking, -1) == k
            && RunHandler(LateEnv(), r, 0, 0, ev) ==
               r.(runs := r.runs + 1, scripts := [r.scripts[0].(pending := k)])
  {
    hide Lifecycle.HandlerOf, Lifecycle.ExitAsks;
    LateHandlers();
    var r1, a := r.(runs := r.runs + 1), RequestState(k);
    assert [a][1..] == [];
    PutOnly(r1, r.scripts[0].(pending := k));
    assert ApplyAll(LateEnv(), r1, 0, [a]) == ApplyAll(LateEnv(), Apply(LateEnv(), r1, 0, a), 0, []);
  }

  /** The other handlers that are looked for do not exist, or do nothing that the loop sees. */
  lemma RunsSilently(r: RegionS, state: int, ev: Event)
    requires |r.scripts| == 1
    requires (state == 0 && ev == STATE_ENTRY) || (state == 1 && (ev == STATE_ENTRY || ev == STATE_EXIT))
    ensures HandlerActions(LateEnv(), r, 0, state, ev) == []
    ensures RunHandler(LateEnv(), r, 0, state, ev) ==
            r.(runs := r.runs + if state == 1 && ev == STATE_ENTRY then 1 else 0)
  {
    hide Lifecycle.HandlerOf, Lifecycle.ExitAsks;
    LateHandlers();
  }

  lemma HeadOnly(ev: Event)
    ensures [ev][1..] == [] && [] + [ev] == [ev]
  {
  }

  /** state_entry of the default state, which does not handle it. */
  lemma DrainsEntry(h: Host, log: seq<Entry>, cmds: seq<Command>, steps: nat, runs: nat, rounds: nat)
    ensures var r := LateRegion(LateScript(0, -1, [STATE_ENTRY], log), cmds, steps, runs, rounds);
            && DrainOne(LateEnv(), r, 0) ==
               LateRegion(LateScript(0, -1, [], log + [Dispatched(STATE_ENTRY)]), cmds, steps + 1, runs, rounds)
            && PlayOne(LateWorld(h), LateEnv(), r, 0, [NOTHING]) == On([NOTHING])
  {
    hide Lifecycle.HandlerOf, Lifecycle.ExitAsks, LateEnv, RunHandler, HandlerActions;
    Lifecycle.Handlers();
    NoGlobals();
    HeadOnly(STATE_ENTRY);
    var r := LateRegion(LateScript(0, -1, [STATE_ENTRY], log), cmds, steps, runs, rounds);
    PutOnly(r, Popped(r.scripts[0]));
    RunsSilently(Put(r, 0, Popped(r.scripts[0])), 0, STATE_ENTRY);
    RunsSilently(r, 0, STATE_ENTRY);
  }

  /** A touch there: the switch runs state_exit, which asks again. */
  lemma DrainsTouch(log: seq<Entry>, cmds: seq<Command>, steps: nat, runs: nat, rounds: nat)
    ensures var r := LateRegion(LateScript(0, -1, [TOUCH], log), cmds, steps, runs, rounds);
            var log' := log + [Dispatched(TOUCH)] + [Dropped([])] + [Pushed(STATE_ENTRY)];
            DrainOne(LateEnv(), r, 0) == LateRegion(LateScript(1, 0, [STATE_ENTRY], log'), cmds, steps + 1, runs + 2,
                                                    rounds)
  {
    hide LateEnv, RunHandler, HandlerActions;
    HeadOnly(TOUCH);
    HeadOnly(STATE_ENTRY);
    var r := LateRegion(LateScript(0, -1, [TOUCH], log), cmds, steps, runs, rounds);
    var r0 := r.(scripts := [Popped(r.scripts[0])]);
    PutOnly(r, Popped(r.scripts[0]));
    RunsAsking(r0, TOUCH, 1);
    var b := r0.(runs := runs + 1, steps := steps + 1, scripts := [r0.scripts[0].(pending := 1)]);
    var s := Flushed(b.scripts[0].(cur := 1, pending := -1));
    PutOnly(b, s);
    var r1 := b.(scripts := [s]);
    RunsAsking(r1, STATE_EXIT, 0);
    var r2 := r1.(runs := runs + 2, scripts := [s.(pending := 0)]);
    PutOnly(r2, Pushing(r2.scripts[0], STATE_ENTRY));
  }

  lemma PlaysTouch(h: Host, log: seq<Entry>, cmds: seq<Command>, steps: nat, runs: nat, rounds: nat)
    ensures var r := LateRegion(LateScript(0, -1, [TOUCH], log), cmds, steps, runs, rounds);
            PlayOne(LateWorld(h), LateEnv(), r, 0, [NOTHING]) == On([NOTHING.(pending := 0)])
  {
    hide Lifecycle.HandlerOf, Lifecycle.ExitAsks, Lifecycle.RunHandler, LateEnv, HandlerActions, Behind;
    var r := LateRegion(LateScript(0, -1, [TOUCH], log), cmds, steps, runs, rounds);
    NoGlobals();
    Lifecycle.AskingHandler(h, "touch", 1);
    Lifecycle.AskingHandler(h, Lifecycle.EXIT, 0);
    RunsAsking(r, TOUCH, 1);
    RunsAsking(Behind(LateEnv(), r, 0), STATE_EXIT, 0);
  }

  /** state_entry of the other state, which starts late and goes back. */
  lemma DrainsLate(log: seq<Entry>, cmds: seq<Command>, steps: nat, runs: nat, rounds: nat)
    ensures var r := LateRegion(LateScript(1, 0, [STATE_ENTRY], log), cmds, steps, runs, rounds);
            var log' := log + [Dispatched(STATE_ENTRY)] + [Dropped([])] + [Pushed(STATE_ENTRY)];
            DrainOne(LateEnv(), r, 0) == LateRegion(LateScript(0, -1, [STATE_ENTRY], log'), cmds, steps + 1, runs + 1,
                                                    rounds)
  {
    hide LateEnv, RunHandler, HandlerActions;
    HeadOnly(STATE_ENTRY);
    var r := LateRegion(LateScript(1, 0, [STATE_ENTRY], log), cmds, steps, runs, rounds);
    var r0 := r.(scripts := [Popped(r.scripts[0])]);
    PutOnly(r, Popped(r.scripts[0]));
    RunsSilently(r0, 1, STATE_ENTRY);
    var b := r0.(runs := runs + 1, steps := steps + 1);
    var s := Flushed(b.scripts[0].(cur := 0, pending := -1));
    PutOnly(b, s);
    var r1 := b.(scripts := [s]);
    RunsSilently(r1, 1, STATE_EXIT);
    PutOnly(r1, Pushing(s, STATE_ENTRY));
  }

  lemma PlaysLate(h: Host, log: seq<Entry>, cmds: seq<Command>, steps: nat, runs: nat, rounds: nat)
    ensures var r := LateRegion(LateScript(1, 0, [STATE_ENTRY], log), cmds, steps, runs, rounds);
            PlayOne(LateWorld(h), LateEnv(), r, 0, [NOTHING.(pending := 0)]) ==
            On([NOTHING.(calls := [Lifecycle.SAID])])
  {
    hide Lifecycle.HandlerOf, Lifecycle.ExitAsks, Lifecycle.RunHandler, LateEnv, HandlerActions, Behind;
    var r := LateRegion(LateScript(1, 0, [STATE_ENTRY], log), cmds, steps, runs, rounds);
    NoGlobals();
    Lifecycle.Handlers();
    Lifecycle.EntryLate(h);
    NoHandlerRuns(h, NOTHING.(calls := [Lifecycle.SAID]));
    RunsSilently(r, 1, STATE_ENTRY);
    RunsSilently(Behind(LateEnv(), r, 0), 1, STATE_EXIT);
  }

  lemma NoHandlerRuns(h: Host, st: Store)
    requires Fits(Lifecycle.ExitAsks(), st)
    ensures Lifecycle.RunHandler(Lifecycle.ExitAsks(), h, Lifecycle.NoHandler, [], st, 0) == Done(Normal, st)
  {
  }

  /** The iteration that delivers the touch. */
  lemma LatePump(h: Host, log: seq<Entry>)
    ensures var r := LateRegion(LateScript(0, -1, [], log), TOUCHED, 1, 0, 1);
            && Iterate(LateEnv(), r) ==
               (true, LateRegion(LateScript(0, -1, [TOUCH], log + [Pushed(TOUCH)]), [], 2, 0, 2))
            && PlayIterate(LateWorld(h), LateEnv(), r, [NOTHING]) == On([NOTHING])
  {
    hide LateEnv;
    NoGlobals();
    LateNeverStops();
    var env, r := LateEnv(), LateRegion(LateScript(0, -1, [], log), TOUCHED, 1, 0, 1);
    assert Earliest(r.scripts, r.offset, 1) == Earliest(r.scripts, r.offset, 0);
    assert Tick(r) == r;
    assert Drain(env, r, 0) == Drain(env, r, 1) == r;
    assert TOUCHED[1..] == [] && [(0, TOUCH)][1..] == [];
    HeadOnly(TOUCH);
    var r1 := r.(rounds := 2, cmds := []);
    PutOnly(r1, Pushing(r1.scripts[0], TOUCH));
    assert DeliverAll(r1, TOUCHED[0].pushes) == DeliverAll(PushTo(r1, 0, TOUCH), []);
    assert PlayOne(LateWorld(h), env, r, 0, [NOTHING]) == On([NOTHING]);
    assert PlayDrain(LateWorld(h), env, r, 1, [NOTHING]) == On([NOTHING]);
  }

  lemma LateNeverStops()
    ensures forall r :: !OutOfBudget(LateEnv(), r)
    ensures LateEnv().maxSteps == 0
  {
  }

  /** The run of Lifecycle.LateRequest is one the loop makes: a touch of the started script
      is followed by the state_entry that the switch queues, which runs one of two
      statements and takes the request. */
  lemma LateRun(h: Host, hasStates: nat -> bool)
    ensures var r := LateRegion(LateScript(-1, -1, [], []), TOUCHED, 0, 0, 0);
            var r0 := Started(LateEnv(), r, 0, hasStates);
            var r4 := After(LateEnv(), r0, 4);
            && Fresh(r) && Fits(Lifecycle.ExitAsks(), NOTHING)
            && |r4.scripts| == 1 && r4.scripts[0].cur == 0 && r4.scripts[0].pending == -1
            && DispatchedOf(r4.scripts[0].log) == [STATE_ENTRY, TOUCH, STATE_ENTRY]
            && PlayAfter(LateWorld(h), LateEnv(), r0, 4, [NOTHING]) == On([NOTHING.(calls := [Lifecycle.SAID])])
  {
    hide DrainOne, Iterate, PlayOne, PlayIterate, Lifecycle.ExitAsks, DispatchedOf, After, PlayAfter, LateEnv;
    NoGlobals();
    var env, w := LateEnv(), LateWorld(h);
    var l0 := [Pushed(STATE_ENTRY)];
    var l1 := l0 + [Dispatched(STATE_ENTRY)];
    var l2 := l1 + [Pushed(TOUCH)];
    var l3 := l2 + [Dispatched(TOUCH)] + [Dropped([])] + [Pushed(STATE_ENTRY)];
    var l4 := l3 + [Dispatched(STATE_ENTRY)] + [Dropped([])] + [Pushed(STATE_ENTRY)];
    var r0 := LateRegion(LateScript(0, -1, [STATE_ENTRY], l0), TOUCHED, 0, 0, 0);
    var r1 := LateRegion(LateScript(0, -1, [], l1), TOUCHED, 1, 0, 1);
    var r2 := LateRegion(LateScript(0, -1, [TOUCH], l2), [], 2, 0, 2);
    var r3 := LateRegion(LateScript(1, 0, [STATE_ENTRY], l3), [], 3, 2, 3);
    var r4 := LateRegion(LateScript(0, -1, [STATE_ENTRY], l4), [], 4, 3, 4);
    LateStarted(hasStates);
    LateStep(h, r0.scripts[0], TOUCHED, 0, 0, 0, NOTHING);
    DrainsEntry(h, l0, TOUCHED, 0, 0, 0);
    LatePump(h, l1);
    LateStep(h, r2.scripts[0], [], 2, 0, 2, NOTHING);
    DrainsTouch(l2, [], 2, 0, 2);
    PlaysTouch(h, l2, [], 2, 0, 2);
    LateStep(h, r3.scripts[0], [], 3, 2, 3, NOTHING.(pending := 0));
    DrainsLate(l3, [], 3, 2, 3);
    PlaysLate(h, l3, [], 3, 2, 3);
    var late, said := NOTHING.(pending := 0), NOTHING.(calls := [Lifecycle.SAID]);
    OnceMore(w, env, r3, r4, 0, late, said);
    OnceMore(w, env, r2, r3, 1, NOTHING, late);
    OnceMore(w, env, r1, r2, 2, NOTHING, NOTHING);
    OnceMore(w, env, r0, r1, 3, NOTHING, NOTHING);
    NoMore(w, env, r4, said);
    LateLog();
  }

  lemma OnceMore(w: World, env: Env, r: RegionS, r': RegionS, n: nat, st: Store, st': Store)
    requires |r.scripts| == |r'.scripts| == 1 && Fits(w.progs(0), st) && Fits(w.progs(0), st')
    requires Iterate(env, r) == (true, r') && PlayIterate(w, env, r, [st]) == On([st'])
    ensures After(env, r, n + 1) == After(env, r', n)
    ensures PlayAfter(w, env, r, n + 1, [st]) == PlayAfter(w, env, r', n, [st'])
  {
    hide Iterate, PlayIterate;
  }

  lemma NoMore(w: World, env: Env, r: RegionS, st: Store)
    requires |r.scripts| == 1 && Fits(w.progs(0), st)
    ensures After(env, r, 0) == r && PlayAfter(w, env, r, 0, [st]) == On([st])
  {
  }

  lemma LateStarted(hasStates: nat -> bool)
    ensures Started(LateEnv(), LateRegion(LateScript(-1, -1, [], []), TOUCHED, 0, 0, 0), 0, hasStates) ==
            LateRegion(LateScript(0, -1, [STATE_ENTRY], [Pushed(STATE_ENTRY)]), TOUCHED, 0, 0, 0)
  {
    var r := LateRegion(LateScript(-1, -1, [], []), TOUCHED, 0, 0, 0);
    HeadOnly(STATE_ENTRY);
    var s := Pushing(r.scripts[0].(cur := 0), STATE_ENTRY);
    PutOnly(r, s);
    assert s.log == [Pushed(STATE_ENTRY)];
    var r' := r.(scripts := [s]);
    assert Started(LateEnv(), r, 0, hasStates) == Started(LateEnv(), r', 1, hasStates) == r';
  }

  lemma LateLog()
    ensures var l2 := [Pushed(STATE_ENTRY)] + [Dispatched(STATE_ENTRY)] + [Pushed(TOUCH)];
            var l3 := l2 + [Dispatched(TOUCH)] + [Dropped([])] + [Pushed(STATE_ENTRY)];
            var l4 := l3 + [Dispatched(STATE_ENTRY)] + [Dropped([])] + [Pushed(STATE_ENTRY)];
            DispatchedOf(l4) == [STATE_ENTRY, TOUCH, STATE_ENTRY]
  {
    hide DispatchedOf;
    var none: seq<Entry> := [];
    NoneDispatched();
    DispatchedSnoc(none, Pushed(STATE_ENTRY));
    assert none + [Pushed(STATE_ENTRY)] == [Pushed(STATE_ENTRY)];
    var l1 := [Pushed(STATE_ENTRY)] + [Dispatched(STATE_ENTRY)];
    DispatchedSnoc([Pushed(STATE_ENTRY)], Dispatched(STATE_ENTRY));
    var l2 := l1 + [Pushed(TOUCH)];
    DispatchedSnoc(l1, Pushed(TOUCH));
    DispatchedSnoc(l2, Dispatched(TOUCH));
    DispatchedSnoc(l2 + [Dispatched(TOUCH)], Dropped([]));
    DispatchedSnoc(l2 + [Dispatched(TOUCH)] + [Dropped([])], Pushed(STATE_ENTRY));
    var l3 := l2 + [Dispatched(TOUCH)] + [Dropped([])] + [Pushed(STATE_ENTRY)];
    DispatchedSnoc(l3, Dispatched(STATE_ENTRY));
    DispatchedSnoc(l3 + [Dispatched(STATE_ENTRY)], Dropped([]));
    DispatchedSnoc(l3 + [Dispatched(STATE_ENTRY)] + [Dropped([])], Pushed(STATE_ENTRY));
  }

  lemma NoneDispatched()
    ensures DispatchedOf([]) == []
  {
  }
}
