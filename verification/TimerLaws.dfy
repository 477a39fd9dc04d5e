/** llSetTimerEvent from the call to the events: what a handler's actions make of its script's
    timer, and how many events that timer has queued whenever the loop is idle. */
module TimerLaws {
  import opened Scheduler
  import opened SchedulerLaws
  import opened SchedulerRuns

  // ----- what actions make of a timer -----

  datatype TimerAsk = Keep | Set(interval: real) | Stop

  /** The last thing actions do to the timer: llSetTimerEvent sets it, llDie stops it. */
  function LastTimer(acts: seq<Action>): TimerAsk {
    if acts == [] then Keep
    else
      var t := LastTimer(acts[1..]);
      if !t.Keep? then t else if acts[0].SetTimer? then Set(acts[0].interval) else if acts[0].Die? then Stop else Keep
  }

  /** What became of a timer at time t. */
  predicate TimerIs(ask: TimerAsk, t: real, was: ScriptS, s: ScriptS) {
    match ask
    case Keep => s.interval == was.interval && s.due == was.due && Since(s.log) == Since(was.log)
    case Set(x) =>
      && s.interval == x && s.due == (if x > 0.0 then t + x else 0.0) && Since(s.log) == Timer(t, x, [])
    case Stop => s.interval == 0.0 && Since(s.log) == Timer(t, 0.0, [])
  }

  lemma LastOfOne(a: Action)
    ensures LastTimer([a]) == if a.SetTimer? then Set(a.interval) else if a.Die? then Stop else Keep
  {
    assert [a][1..] == [];
  }

  lemma ApplyTimer(env: Env, r: RegionS, i: nat, a: Action)
    requires i < |r.scripts|
    ensures TimerIs(LastTimer([a]), r.now, r.scripts[i], Apply(env, r, i, a).scripts[i])
    ensures Apply(env, r, i, a).now == r.now
  {
    hide Since, Pushes, Removed, LastTimer;
    LastOfOne(a);
    var s := r.scripts[i];
    match a
    case Push(t, ev) => Snoc(s.log, Pushed(ev));
    case SetTimer(x) => Snoc(s.log, Armed(r.now, x));
    case Sleep(_) =>
    case Die =>
      Snoc(s.log, Dropped(s.queue));
      Snoc(s.log + [Dropped(s.queue)], Armed(r.now, 0.0));
    case Reset =>
      Snoc(s.log, Dropped(s.queue));
      Snoc(s.log + [Dropped(s.queue)], Pushed(STATE_ENTRY));
    case RequestState(_) =>
  }

  /** After a handler's actions its script's timer is as the last of them that concerns timers
      has set it, from the time of the handler on; without one it is as before. */
  lemma {:induction false} ApplyAllTimer(env: Env, r: RegionS, i: nat, acts: seq<Action>)
    requires i < |r.scripts|
    ensures TimerIs(LastTimer(acts), r.now, r.scripts[i], ApplyAll(env, r, i, acts).scripts[i])
    ensures ApplyAll(env, r, i, acts).now == r.now
    decreases |acts|
  {
    hide Apply, Since;
    if acts != [] {
      ApplyTimer(env, r, i, acts[0]);
      assert [acts[0]][1..] == [];
      ApplyAllTimer(env, Apply(env, r, i, acts[0]), i, acts[1..]);
    }
  }

  lemma RunHandlerTimer(env: Env, r: RegionS, i: nat, state: int, ev: Event)
    requires i < |r.scripts|
    ensures var acts := if state >= 0 && env.handles(i, state, ev.name) then env.run(i, state, ev, r.runs) else [];
            TimerIs(LastTimer(acts), r.now, r.scripts[i], RunHandler(env, r, i, state, ev).scripts[i])
  {
    hide Since;
    if state >= 0 && env.handles(i, state, ev.name) {
      ApplyAllTimer(env, r.(runs := r.runs + 1), i, env.run(i, state, ev, r.runs));
    }
  }

  // ----- a timer that is left alone -----

  /** Every firing is followed at once by the timer event it queues. */
  predicate FiresQueued(log: seq<Entry>) {
    forall k :: 0 <= k < |log| && log[k].Fired? ==> k + 1 < |log| && log[k + 1] == Pushed(TIMER)
  }

  predicate AllQueued(r: RegionS) { forall i :: 0 <= i < |r.scripts| ==> FiresQueued(r.scripts[i].log) }

  /** Set at the same time to the same interval. */
  predicate SameTimer(s: ScriptS, s': ScriptS) {
    s'.interval == s.interval && Since(s'.log).at == Since(s.log).at && Since(s'.log).interval == Since(s.log).interval
  }

  /** Nothing happens to the timer of script i but that it fires, and what fires is queued. */
  predicate Undisturbed(r: RegionS, r': RegionS, i: nat) {
    && |r'.scripts| == |r.scripts| && r.runs <= r'.runs
    && (i < |r.scripts| ==> SameTimer(r.scripts[i], r'.scripts[i]))
    && (AllQueued(r) ==> AllQueued(r'))
  }

  /** From handler run k on, no handler of script i sets or stops its timer. */
  ghost predicate LeftAlone(env: Env, i: nat, k: nat) {
    forall state, ev, n: nat :: n >= k ==> LastTimer(env.run(i, state, ev, n)).Keep?
  }

  ghost predicate Alone(env: Env, r: RegionS, i: nat, k: nat) {
    i < |r.scripts| ==> LeftAlone(env, i, k) && k <= r.runs
  }

  lemma UndisturbedTwice(r: RegionS, r1: RegionS, r2: RegionS, i: nat)
    requires Undisturbed(r, r1, i) && Undisturbed(r1, r2, i)
    ensures Undisturbed(r, r2, i)
  {
    hide SameTimer, AllQueued;
    if i < |r.scripts| { SameTimerTwice(r.scripts[i], r1.scripts[i], r2.scripts[i]); }
  }

  lemma SameTimerTwice(s: ScriptS, s1: ScriptS, s2: ScriptS)
    requires SameTimer(s, s1) && SameTimer(s1, s2)
    ensures SameTimer(s, s2)
  {
  }

  lemma Logged(log: seq<Entry>, e: Entry)
    requires !e.Fired? && FiresQueued(log)
    ensures FiresQueued(log + [e])
  {
  }

  lemma PutQueued(r: RegionS, r': RegionS, j: nat, s: ScriptS)
    requires AllQueued(r) && j < |r.scripts| && r'.scripts == r.scripts[j := s] && FiresQueued(s.log)
    ensures AllQueued(r')
  {
    hide FiresQueued;
  }

  lemma PushTimer(r: RegionS, j: nat, ev: Event, i: nat)
    ensures Undisturbed(r, PushTo(r, j, ev), i)
  {
    hide Since, FiresQueued, AllQueued;
    if j < |r.scripts| {
      var s := r.scripts[j];
      Snoc(s.log, Pushed(ev));
      if AllQueued(r) {
        OneQueued(r, j);
        Logged(s.log, Pushed(ev));
        PutQueued(r, PushTo(r, j, ev), j, Pushing(s, ev));
      }
    }
  }

  lemma OneQueued(r: RegionS, j: nat)
    requires AllQueued(r) && j < |r.scripts|
    ensures FiresQueued(r.scripts[j].log)
  {
  }

  /** Actions of other scripts leave a timer alone; and no action fires one. */
  lemma ApplyUndisturbed(env: Env, r: RegionS, j: nat, a: Action, i: nat)
    requires j < |r.scripts| && (i == j ==> LastTimer([a]).Keep?)
    ensures Undisturbed(r, Apply(env, r, j, a), i)
  {
    hide Since, FiresQueued, AllQueued;
    assert [a][1..] == [];
    var s := r.scripts[j];
    var r' := Apply(env, r, j, a);
    if a.Push? { PushTimer(r, a.target, a.ev, i); }
    if i == j { ApplyTimer(env, r, i, a); }
    if AllQueued(r) && !a.Push? && !a.Sleep? {
      OneQueued(r, j);
      ActionLogged(env, r, j, a);
      PutQueued(r, r', j, r'.scripts[j]);
    }
    assert a.Sleep? && AllQueued(r) ==> AllQueued(r') by { hide *; SameScripts(r, r'); }
  }

  lemma SameScripts(r: RegionS, r': RegionS)
    ensures r'.scripts == r.scripts && AllQueued(r) ==> AllQueued(r')
  {
  }

  lemma ActionLogged(env: Env, r: RegionS, j: nat, a: Action)
    requires j < |r.scripts| && !a.Push? && !a.Sleep? && FiresQueued(r.scripts[j].log)
    ensures var r' := Apply(env, r, j, a);
            r'.scripts == r.scripts[j := r'.scripts[j]] && FiresQueued(r'.scripts[j].log)
  {
    hide FiresQueued;
    var s := r.scripts[j];
    match a
    case SetTimer(x) => Logged(s.log, Armed(r.now, x));
    case Die =>
      Logged(s.log, Dropped(s.queue));
      Logged(s.log + [Dropped(s.queue)], Armed(r.now, 0.0));
    case Reset =>
      Logged(s.log, Dropped(s.queue));
      Logged(s.log + [Dropped(s.queue)], Pushed(STATE_ENTRY));
    case RequestState(_) =>
  }

  lemma {:induction false} ApplyAllUndisturbed(env: Env, r: RegionS, j: nat, acts: seq<Action>, i: nat)
    requires j < |r.scripts| && (i == j ==> LastTimer(acts).Keep?)
    ensures Undisturbed(r, ApplyAll(env, r, j, acts), i)
    decreases |acts|
  {
    hide Apply, Undisturbed;
    if acts == [] {
      UndisturbedNothing(r, r, i);
    } else {
      assert [acts[0]][1..] == [];
      var r1 := Apply(env, r, j, acts[0]);
      ApplyUndisturbed(env, r, j, acts[0], i);
      ApplyAllUndisturbed(env, r1, j, acts[1..], i);
      UndisturbedTwice(r, r1, ApplyAll(env, r1, j, acts[1..]), i);
    }
  }

  /** Where no script changes, no timer does. */
  lemma UndisturbedNothing(r: RegionS, r': RegionS, i: nat)
    requires r'.scripts == r.scripts && r'.runs >= r.runs
    ensures Undisturbed(r, r', i)
  {
    hide Since, FiresQueued;
  }

  lemma RunHandlerUndisturbed(env: Env, r: RegionS, j: nat, state: int, ev: Event, i: nat, k: nat)
    requires j < |r.scripts| && Alone(env, r, i, k)
    ensures Undisturbed(r, RunHandler(env, r, j, state, ev), i)
  {
    hide Undisturbed;
    var r1 := r.(runs := r.runs + 1);
    UndisturbedNothing(r, r, i);
    UndisturbedNothing(r, r1, i);
    if state >= 0 && env.handles(j, state, ev.name) {
      var acts := env.run(j, state, ev, r.runs);
      ApplyAllUndisturbed(env, r1, j, acts, i);
      UndisturbedTwice(r, r1, ApplyAll(env, r1, j, acts), i);
    }
  }

  /** Taking events off a queue. */
  lemma EntryUndisturbed(r: RegionS, j: nat, s: ScriptS, e: Entry, i: nat)
    requires j < |r.scripts| && (e.Dispatched? || e.Dropped?)
    requires var was := r.scripts[j];
             s == was.(cur := s.cur, pending := s.pending, queue := s.queue, log := was.log + [e])
    ensures Undisturbed(r, Put(r, j, s), i)
  {
    hide Since, FiresQueued, AllQueued;
    Snoc(r.scripts[j].log, e);
    if AllQueued(r) {
      OneQueued(r, j);
      Logged(r.scripts[j].log, e);
      PutQueued(r, Put(r, j, s), j, s);
    }
  }

  lemma RunsGrow(r: RegionS, r': RegionS, i: nat)
    requires Undisturbed(r, r', i)
    ensures r.runs <= r'.runs && |r'.scripts| == |r.scripts|
  {
  }

  lemma SwitchUndisturbed(env: Env, r: RegionS, j: nat, i: nat, k: nat)
    requires j < |r.scripts| && Alone(env, r, i, k)
    ensures Undisturbed(r, SwitchState(env, r, j), i)
  {
    hide Undisturbed, RunHandler, LeftAlone;
    var s := r.scripts[j];
    UndisturbedNothing(r, r, i);
    if s.pending >= 0 {
      var r1 := Put(r, j, Flushed(s.(cur := s.pending, pending := -1)));
      EntryUndisturbed(r, j, Flushed(s.(cur := s.pending, pending := -1)), Dropped(s.queue), i);
      RunHandlerUndisturbed(env, r1, j, s.cur, STATE_EXIT, i, k);
      var r2 := RunHandler(env, r1, j, s.cur, STATE_EXIT);
      PushTimer(r2, j, STATE_ENTRY, i);
      UndisturbedTwice(r, r1, r2, i);
      UndisturbedTwice(r, r2, PushTo(r2, j, STATE_ENTRY), i);
    }
  }

  lemma DrainOneUndisturbed(env: Env, r: RegionS, j: nat, i: nat, k: nat)
    requires j < |r.scripts| && Alone(env, r, i, k)
    ensures Undisturbed(r, DrainOne(env, r, j), i)
  {
    hide Undisturbed, RunHandler, SwitchState, LeftAlone;
    var s := r.scripts[j];
    UndisturbedNothing(r, r, i);
    if s.queue != [] {
      var r0 := Put(r, j, Popped(s));
      EntryUndisturbed(r, j, Popped(s), Dispatched(s.queue[0]), i);
      var r1 := RunHandler(env, r0, j, s.cur, s.queue[0]);
      RunHandlerUndisturbed(env, r0, j, s.cur, s.queue[0], i, k);
      UndisturbedTwice(r, r0, r1, i);
      RunsGrow(r, r1, i);
      RestUndisturbed(env, r, r1, j, i, k);
    }
  }

  /** From the end of a handler to the end of the turn. */
  lemma RestUndisturbed(env: Env, r: RegionS, r1: RegionS, j: nat, i: nat, k: nat)
    requires j < |r.scripts| && Alone(env, r1, i, k) && Undisturbed(r, r1, i)
    ensures j < |r1.scripts| && Undisturbed(r, SwitchState(env, r1.(steps := r1.steps + 1), j), i)
  {
    hide Undisturbed, SwitchState, LeftAlone;
    RunsGrow(r, r1, i);
    var r2 := r1.(steps := r1.steps + 1);
    UndisturbedNothing(r1, r2, i);
    UndisturbedTwice(r, r1, r2, i);
    SwitchUndisturbed(env, r2, j, i, k);
    UndisturbedTwice(r, r2, SwitchState(env, r2, j), i);
  }

  lemma {:induction false} DrainUndisturbed(env: Env, r: RegionS, j: nat, i: nat, k: nat)
    requires j <= |r.scripts| && Alone(env, r, i, k)
    ensures Undisturbed(r, Drain(env, r, j), i)
    decreases |r.scripts| - j
  {
    hide Undisturbed, DrainOne, LeftAlone;
    if j == |r.scripts| {
      UndisturbedNothing(r, r, i);
    } else {
      var r1 := DrainOne(env, r, j);
      DrainOneUndisturbed(env, r, j, i, k);
      RunsGrow(r, r1, i);
      DrainUndisturbed(env, r1, j + 1, i, k);
      UndisturbedTwice(r, r1, Drain(env, r1, j + 1), i);
    }
  }

  /** Firing changes neither the interval nor when it was set, and queues its event. */
  lemma TickUndisturbed(r: RegionS, i: nat)
    ensures Undisturbed(r, Tick(r), i)
  {
    hide Since, FiresQueued, AllQueued;
    var k := Earliest(r.scripts, r.offset, |r.scripts|);
    if k >= 0 {
      var s := r.scripts[k];
      FiringLog(s);
      if AllQueued(r) {
        OneQueued(r, k);
        FiringLogged(s);
        PutQueued(r, Tick(r), k, Firing(s));
      }
    } else {
      SameScripts(r, Tick(r));
    }
  }

  lemma FiringLogged(s: ScriptS)
    requires FiresQueued(s.log)
    ensures FiresQueued(Firing(s).log)
  {
    assert Firing(s).log == s.log + [Fired(s.due)] + [Pushed(TIMER)];
  }

  lemma {:induction false} DeliverUndisturbed(r: RegionS, ps: seq<(nat, Event)>, i: nat)
    ensures Undisturbed(r, DeliverAll(r, ps), i)
    decreases |ps|
  {
    hide Undisturbed;
    if ps == [] {
      UndisturbedNothing(r, r, i);
    } else {
      var r1 := PushTo(r, ps[0].0, ps[0].1);
      PushTimer(r, ps[0].0, ps[0].1, i);
      DeliverUndisturbed(r1, ps[1..], i);
      UndisturbedTwice(r, r1, DeliverAll(r1, ps[1..]), i);
    }
  }

  lemma PumpUndisturbed(env: Env, r: RegionS, i: nat)
    requires r.cmds != []
    ensures Undisturbed(r, Pump(env, r), i)
  {
    hide Undisturbed, DeliverAll;
    var r0 := r.(cmds := r.cmds[1..]);
    match r.cmds[0]
    case Deliver(ps) =>
      var r1 := DeliverAll(r0, ps);
      UndisturbedNothing(r, r0, i);
      DeliverUndisturbed(r0, ps, i);
      UndisturbedTwice(r, r0, r1, i);
      UndisturbedNothing(r1, Pump(env, r), i);
      UndisturbedTwice(r, r1, Pump(env, r), i);
    case _ => UndisturbedNothing(r, Pump(env, r), i);
  }

  /** The rest of an iteration, behind a round. */
  lemma FallBackUndisturbed(env: Env, r: RegionS, d: RegionS, i: nat)
    requires Undisturbed(r, d, i)
    ensures var r1 := d.(rounds := d.rounds + 1);
            Undisturbed(r, r1, i) && (r1.cmds != [] ==> Undisturbed(r, Pump(env, r1), i))
  {
    hide Undisturbed, Pump;
    var r1 := d.(rounds := d.rounds + 1);
    UndisturbedNothing(d, r1, i);
    UndisturbedTwice(r, d, r1, i);
    if r1.cmds != [] {
      PumpUndisturbed(env, r1, i);
      UndisturbedTwice(r, r1, Pump(env, r1), i);
    }
  }

  lemma IterateUndisturbed(env: Env, r: RegionS, i: nat, k: nat)
    requires Alone(env, r, i, k)
    ensures Undisturbed(r, Iterate(env, r).1, i)
  {
    hide Undisturbed, Tick, Drain, Pump, LeftAlone, OutOfBudget;
    UndisturbedNothing(r, r, i);
    var t := Tick(r);
    TickUndisturbed(r, i);
    RunsGrow(r, t, i);
    DrainUndisturbed(env, t, 0, i, k);
    UndisturbedTwice(r, t, Drain(env, t, 0), i);
    FallBackUndisturbed(env, r, Drain(env, t, 0), i);
  }

  lemma {:induction false} AfterUndisturbed(env: Env, r: RegionS, n: nat, i: nat, k: nat)
    requires Alone(env, r, i, k)
    ensures Undisturbed(r, After(env, r, n), i)
    decreases n
  {
    hide Undisturbed, Iterate, LeftAlone;
    if n == 0 {
      UndisturbedNothing(r, r, i);
    } else {
      var (more, r1) := Iterate(env, r);
      IterateUndisturbed(env, r, i, k);
      RunsGrow(r, r1, i);
      if more {
        AfterUndisturbed(env, r1, n - 1, i, k);
        UndisturbedTwice(r, r1, After(env, r1, n - 1), i);
      }
    }
  }

  // ----- from the call to the events -----

  /** The first i scripts of a round have had their turns. */
  function DrainedTo(env: Env, r: RegionS, i: nat): (r': RegionS)
    requires i <= |r.scripts|
    ensures |r'.scripts| == |r.scripts|
  {
    if i == 0 then r else DrainOne(env, DrainedTo(env, r, i - 1), i - 1)
  }

  lemma {:induction false} DrainInTwo(env: Env, r: RegionS, i: nat)
    requires i <= |r.scripts|
    ensures Drain(env, r, 0) == Drain(env, DrainedTo(env, r, i), i)
  {
    hide DrainOne;
    if i > 0 { DrainInTwo(env, r, i - 1); }
  }

  lemma {:induction false} DrainedToKeeps(env: Env, r: RegionS, i: nat)
    requires i <= |r.scripts| && Inv(r) && Forward(env)
    ensures var b := DrainedTo(env, r, i); Inv(b) && b.now == r.now && b.offset >= r.offset && b.cmds == r.cmds
  {
    hide Inv, DrainOne;
    if i > 0 {
      DrainedToKeeps(env, r, i - 1);
      DrainOneKeeps(env, DrainedTo(env, r, i - 1), i - 1);
    }
  }

  /** In this iteration script i is dispatched an event whose handler, at its end, leaves the
      timer set to the interval x. */
  predicate SetsTimer(env: Env, r: RegionS, i: nat, x: real) {
    && i < |r.scripts| && !OutOfBudget(env, r)
    && var b := DrainedTo(env, Tick(r), i);
       var s := b.scripts[i];
       && s.queue != [] && s.cur >= 0 && env.handles(i, s.cur, s.queue[0].name)
       && LastTimer(env.run(i, s.cur, s.queue[0], b.runs)) == Set(x)
  }

  /** When that handler runs: which run of a handler it is, and at what time. */
  function SettingRun(env: Env, r: RegionS, i: nat): nat
    requires i <= |r.scripts|
  {
    DrainedTo(env, Tick(r), i).runs
  }

  /** The turn in which the timer is set. */
  lemma SettingTurn(env: Env, b: RegionS, i: nat, x: real)
    requires i < |b.scripts| && b.scripts[i].queue != [] && b.scripts[i].cur >= 0
    requires var s := b.scripts[i];
             && env.handles(i, s.cur, s.queue[0].name)
             && LastTimer(env.run(i, s.cur, s.queue[0], b.runs)) == Set(x) && LeftAlone(env, i, b.runs + 1)
    ensures var r' := DrainOne(env, b, i); var s' := r'.scripts[i];
            && s'.interval == x && Since(s'.log).at == b.now && Since(s'.log).interval == x && r'.runs > b.runs
  {
    hide Since, RunHandler, SwitchState, LeftAlone, Undisturbed;
    var s := b.scripts[i];
    var r0 := Put(b, i, Popped(s));
    var r1 := RunHandler(env, r0, i, s.cur, s.queue[0]);
    RunHandlerTimer(env, r0, i, s.cur, s.queue[0]);
    OneMoreRun(env, r0, i, s.cur, s.queue[0]);
    UndisturbedNothing(r1, r1, i);
    RestUndisturbed(env, r1, r1, i, i, b.runs + 1);
    TimerStays(r1, DrainOne(env, b, i), i);
  }

  lemma TimerStays(r: RegionS, r': RegionS, i: nat)
    requires Undisturbed(r, r', i) && i < |r.scripts|
    ensures |r'.scripts| == |r.scripts| && SameTimer(r.scripts[i], r'.scripts[i]) && r'.runs >= r.runs
  {
  }

  lemma OneMoreRun(env: Env, r: RegionS, i: nat, state: int, ev: Event)
    requires i < |r.scripts| && state >= 0 && env.handles(i, state, ev.name)
    ensures RunHandler(env, r, i, state, ev).runs == r.runs + 1
  {
    RunsAfter(env, r.(runs := r.runs + 1), i, env.run(i, state, ev, r.runs));
  }

  lemma {:induction false} RunsAfter(env: Env, r: RegionS, i: nat, acts: seq<Action>)
    requires i < |r.scripts|
    ensures ApplyAll(env, r, i, acts).runs == r.runs
    decreases |acts|
  {
    if acts != [] { RunsAfter(env, Apply(env, r, i, acts[0]), i, acts[1..]); }
  }

  /** The iteration in which the timer is set. */
  lemma SettingIteration(env: Env, r: RegionS, i: nat, x: real)
    requires SetsTimer(env, r, i, x) && LeftAlone(env, i, SettingRun(env, r, i) + 1)
    requires Inv(r) && Forward(env)
    ensures var r' := Iterate(env, r).1; var s' := r'.scripts[i];
            && s'.interval == x && Since(s'.log).at == Tick(r).now && Since(s'.log).interval == x
            && r'.runs > SettingRun(env, r, i)
  {
    hide Since, Tick, DrainOne, Pump, LeftAlone, Undisturbed, Inv, DrainedTo, Drain;
    var t := Tick(r);
    var k := SettingRun(env, r, i) + 1;
    TickKeeps(r);
    DrainedToKeeps(env, t, i);
    DrainInTwo(env, t, i);
    var b := DrainedTo(env, t, i);
    var c := DrainOne(env, b, i);
    SettingTurn(env, b, i, x);
    DrainFrom(env, b, i);
    DrainUndisturbed(env, c, i + 1, i, k);
    var d := Drain(env, t, 0);
    FallBackUndisturbed(env, c, d, i);
    var r1 := d.(rounds := d.rounds + 1);
    TimerStays(c, r1, i);
    if r1.cmds != [] { TimerStays(c, Pump(env, r1), i); }
  }

  lemma DrainFrom(env: Env, r: RegionS, i: nat)
    requires i < |r.scripts|
    ensures Drain(env, r, i) == Drain(env, DrainOne(env, r, i), i + 1)
  {
    hide DrainOne;
  }

  /** A handler sets its script's timer to I > 0 at time t0, and no handler of the script sets
      or stops it afterwards. Then, whenever the loop is idle, at some time T, the timer has
      queued exactly floor((T - t0) / I) events since, the k-th at t0 + k * I. */
  lemma TimerEvents(env: Env, r: RegionS, i: nat, x: real, n: nat)
    requires Inv(r) && Forward(env) && WaitsForward(r) && AllQueued(r) && x > 0.0
    requires SetsTimer(env, r, i, x) && LeftAlone(env, i, SettingRun(env, r, i) + 1)
    requires n > 0 && Idle(After(env, r, n))
    ensures var r' := After(env, r, n);
            && i < |r'.scripts| && FiresQueued(r'.scripts[i].log)
            && var fires := Since(r'.scripts[i].log).fires;
            && |fires| == ((r'.now - Tick(r).now) / x).Floor
            && (forall k :: 1 <= k <= |fires| ==> fires[k - 1] == Tick(r).now + Times(k, x))
  {
    hide Since, Tick, Iterate, Inv, Forward, WaitsForward, SetsTimer, LeftAlone, Undisturbed, Idle, FiresQueued;
    var (more, r1) := Iterate(env, r);
    var r' := After(env, r, n);
    SetsNow(env, r, i, x);
    SettingIteration(env, r, i, x);
    IterateQueued(env, r);
    var k := SettingRun(env, r, i) + 1;
    if more { AfterUndisturbed(env, r1, n - 1, i, k); } else { UndisturbedNothing(r1, r1, i); }
    assert Undisturbed(r1, r', i);
    TimerStays(r1, r', i);
    StillQueued(r1, r', i);
    AfterKeeps(env, r, n);
    IdleTimerCount(r', i);
    OneQueued(r', i);
  }

  lemma SetsNow(env: Env, r: RegionS, i: nat, x: real)
    requires SetsTimer(env, r, i, x)
    ensures i < |r.scripts|
  {
  }

  lemma StillQueued(r: RegionS, r': RegionS, i: nat)
    requires Undisturbed(r, r', i) && AllQueued(r)
    ensures AllQueued(r')
  {
  }

  /** No run fires a timer without queueing its event, whatever the handlers do. */
  lemma IterateQueued(env: Env, r: RegionS)
    requires AllQueued(r)
    ensures AllQueued(Iterate(env, r).1)
  {
    hide Undisturbed, AllQueued, Iterate;
    IterateUndisturbed(env, r, |r.scripts|, 0);
    StillQueued(r, Iterate(env, r).1, |r.scripts|);
  }

  lemma {:induction false} StartedQueued(env: Env, r: RegionS, i: nat, hasStates: nat -> bool)
    requires AllQueued(r) && i <= |r.scripts|
    ensures AllQueued(Started(env, r, i, hasStates))
    decreases |r.scripts| - i
  {
    hide FiresQueued, AllQueued;
    if i < |r.scripts| {
      var d := env.defaultState(i);
      var s := r.scripts[i];
      var t := Pushing(s.(cur := if d >= 0 then d else if s.cur < 0 && hasStates(i) then 0 else s.cur), STATE_ENTRY);
      OneQueued(r, i);
      Logged(s.log, Pushed(STATE_ENTRY));
      PutQueued(r, Put(r, i, t), i, t);
      StartedQueued(env, Put(r, i, t), i + 1, hasStates);
    }
  }

  lemma {:induction false} AfterQueued(env: Env, r: RegionS, n: nat)
    requires AllQueued(r)
    ensures AllQueued(After(env, r, n))
    decreases n
  {
    hide AllQueued, Iterate;
    if n > 0 {
      IterateQueued(env, r);
      var (more, r1) := Iterate(env, r);
      if more { AfterQueued(env, r1, n - 1); }
    }
  }

  /** In every state of every run, whatever the handlers do, what has fired has been queued. */
  lemma RunsQueue(env: Env, r: RegionS, hasStates: nat -> bool, n: nat)
    requires Fresh(r)
    ensures AllQueued(After(env, Started(env, r, 0, hasStates), n))
  {
    StartedQueued(env, r, 0, hasStates);
    AfterQueued(env, Started(env, r, 0, hasStates), n);
  }
}
