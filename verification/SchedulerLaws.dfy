/** What every run of the event loop keeps. */
module SchedulerLaws {
  import opened Scheduler

  // ----- histories -----

  /** Every event queued so far, in order. */
  function Pushes(log: seq<Entry>): seq<Event> {
    if log == [] then []
    else
      var e := log[|log| - 1];
      Pushes(log[..|log| - 1]) + (if e.Pushed? then [e.ev] else [])
  }

  /** Every event taken off the queue so far, dispatched or dropped, in order. */
  function Removed(log: seq<Entry>): seq<Event> {
    if log == [] then []
    else
      var e := log[|log| - 1];
      Removed(log[..|log| - 1]) + (if e.Dispatched? then [e.ev] else if e.Dropped? then e.evs else [])
  }

  /** The timer as last set: when, its interval, and when it has fired since. */
  datatype Timer = Timer(at: real, interval: real, fires: seq<real>)

  function Since(log: seq<Entry>): Timer {
    if log == [] then Timer(0.0, 0.0, [])
    else
      var e := log[|log| - 1];
      var t := Since(log[..|log| - 1]);
      if e.Armed? then Timer(e.at, e.interval, [])
      else if e.Fired? then t.(fires := t.fires + [e.at])
      else t
  }

  lemma Snoc(log: seq<Entry>, e: Entry)
    ensures Pushes(log + [e]) == Pushes(log) + (if e.Pushed? then [e.ev] else [])
    ensures Removed(log + [e]) == Removed(log) + (if e.Dispatched? then [e.ev] else if e.Dropped? then e.evs else [])
    ensures Since(log + [e]) ==
            if e.Armed? then Timer(e.at, e.interval, [])
            else if e.Fired? then Since(log).(fires := Since(log).fires + [e.at])
            else Since(log)
  {
    var l := log + [e];
    assert l[..|l| - 1] == log;
  }

  // ----- the invariant of a script -----

  /** Queue ledger: the events taken off, followed by those still waiting, are the events
      queued, in the order they were queued. */
  predicate Ledger(s: ScriptS) { Removed(s.log) + s.queue == Pushes(s.log) }

  /** Events handed to a handler, in order. */
  function DispatchedOf(log: seq<Entry>): seq<Event> {
    if log == [] then []
    else
      var e := log[|log| - 1];
      DispatchedOf(log[..|log| - 1]) + (if e.Dispatched? then [e.ev] else [])
  }

  /** Without a flush, the events dispatched are the first events queued, in order: none
      is lost, repeated or overtaken. */
  lemma FifoWithoutFlush(s: ScriptS)
    requires Ledger(s) && forall k :: 0 <= k < |s.log| ==> !s.log[k].Dropped?
    ensures DispatchedOf(s.log) <= Pushes(s.log)
    ensures DispatchedOf(s.log) + s.queue == Pushes(s.log)
  {
    OnlyDispatched(s.log);
  }

  lemma {:induction false} OnlyDispatched(log: seq<Entry>)
    requires forall k :: 0 <= k < |log| ==> !log[k].Dropped?
    ensures Removed(log) == DispatchedOf(log)
  {
    if log != [] { OnlyDispatched(log[..|log| - 1]); }
  }

  /** k intervals */
  function Times(k: nat, x: real): real { (k as real) * x }

  /** The timer has fired at the first k multiples of its interval since it was set, and
      is due at the next one. */
  predicate OnSchedule(s: ScriptS) {
    var t := Since(s.log);
    && t.interval == s.interval
    && s.due == t.at + Times(|t.fires| + 1, t.interval)
    && forall j :: 0 <= j < |t.fires| ==> t.fires[j] == t.at + Times(j + 1, t.interval)
  }

  predicate ScriptInv(s: ScriptS, now: real) {
    && Ledger(s)
    && (s.interval > 0.0 ==> now <= s.due <= now + s.interval && OnSchedule(s))
  }

  lemma PushingKeeps(s: ScriptS, now: real, ev: Event)
    requires ScriptInv(s, now)
    ensures ScriptInv(Pushing(s, ev), now)
  {
    Snoc(s.log, Pushed(ev));
  }

  lemma PoppedKeeps(s: ScriptS, now: real)
    requires ScriptInv(s, now) && s.queue != []
    ensures ScriptInv(Popped(s), now)
  {
    Snoc(s.log, Dispatched(s.queue[0]));
    assert s.queue == [s.queue[0]] + s.queue[1..];
  }

  lemma FlushedKeeps(s: ScriptS, now: real)
    requires ScriptInv(s, now)
    ensures ScriptInv(Flushed(s), now)
  {
    Snoc(s.log, Dropped(s.queue));
  }

  lemma ArmingKeeps(s: ScriptS, now: real, x: real)
    requires ScriptInv(s, now)
    ensures ScriptInv(Arming(s, now, x), now)
  {
    Snoc(s.log, Armed(now, x));
  }

  lemma DisarmedKeeps(s: ScriptS, now: real)
    requires ScriptInv(s, now)
    ensures ScriptInv(Disarmed(s, now), now)
  {
    Snoc(s.log, Armed(now, 0.0));
  }

  /** Firing keeps the schedule: the next due time is one interval later. */
  lemma FiringKeeps(s: ScriptS, now: real)
    requires ScriptInv(s, now) && s.interval > 0.0
    ensures ScriptInv(Firing(s), s.due)
  {
    hide Times, Since, Removed, Pushes;
    FiringLog(s);
    OneMoreTime(|Since(s.log).fires| + 1, s.interval);
  }

  lemma FiringLog(s: ScriptS)
    ensures var log := Firing(s).log;
            && Pushes(log) == Pushes(s.log) + [TIMER] && Removed(log) == Removed(s.log)
            && Since(log) == Since(s.log).(fires := Since(s.log).fires + [s.due])
  {
    hide Pushes, Removed, Since;
    Snoc(s.log, Fired(s.due));
    Snoc(s.log + [Fired(s.due)], Pushed(TIMER));
  }

  lemma OneMoreTime(k: nat, x: real)
    ensures Times(k + 1, x) == Times(k, x) + x
  {
  }

  /** Time passing up to the next due time changes nothing for a script. */
  lemma WaitingKeeps(s: ScriptS, now: real, later: real)
    requires ScriptInv(s, now) && now <= later && (s.interval > 0.0 ==> later <= s.due)
    ensures ScriptInv(s, later)
  {
  }

  // ----- the invariant of a region -----

  predicate Ascending(xs: seq<real>) { forall i, j :: 0 <= i <= j < |xs| ==> xs[i] <= xs[j] }

  /** Virtual time is within the offset, no armed timer is overdue, timers have fired in
      order of their due times, and every script keeps its ledger and schedule. */
  predicate Inv(r: RegionS) {
    && 0.0 <= r.now <= r.offset
    && Ascending(r.fires) && (forall i :: 0 <= i < |r.fires| ==> r.fires[i] <= r.now)
    && forall i :: 0 <= i < |r.scripts| ==> ScriptInv(r.scripts[i], r.now)
  }

  /** llSleep and WAIT are never negative. */
  ghost predicate Forward(env: Env) {
    forall i, st, ev, k, j :: 0 <= j < |env.run(i, st, ev, k)| && env.run(i, st, ev, k)[j].Sleep? ==>
      env.run(i, st, ev, k)[j].secs >= 0.0
  }

  predicate WaitsForward(r: RegionS) { forall i :: 0 <= i < |r.cmds| && r.cmds[i].Wait? ==> r.cmds[i].secs >= 0.0 }

  /** What a handler leaves alone. */
  predicate Meanwhile(r: RegionS, r': RegionS) {
    && r'.now == r.now && r'.offset >= r.offset && r'.fires == r.fires && r'.cmds == r.cmds
    && |r'.scripts| == |r.scripts|
  }

  lemma ApplyKeeps(env: Env, r: RegionS, i: nat, a: Action)
    requires Inv(r) && i < |r.scripts| && (a.Sleep? ==> a.secs >= 0.0)
    ensures Inv(Apply(env, r, i, a)) && Meanwhile(r, Apply(env, r, i, a))
    ensures Apply(env, r, i, a).steps == r.steps
  {
    hide ScriptInv;
    var s := r.scripts[i];
    match a
    case Push(t, ev) => if t < |r.scripts| { PushingKeeps(r.scripts[t], r.now, ev); }
    case SetTimer(x) => ArmingKeeps(s, r.now, x);
    case Sleep(_) =>
    case Die => FlushedKeeps(s, r.now); DisarmedKeeps(Flushed(s), r.now);
    case Reset =>
      FlushedKeeps(s, r.now);
      var t := Flushed(s);
      var d := env.defaultState(i);
      OtherFieldsKeep(t, t.(cur := d), r.now);
      PushingKeeps(if d >= 0 then t.(cur := d) else t, r.now, STATE_ENTRY);
    case RequestState(k) => OtherFieldsKeep(s, s.(pending := k), r.now);
  }

  lemma OtherFieldsKeep(s: ScriptS, t: ScriptS, now: real)
    requires ScriptInv(s, now) && t == s.(cur := t.cur, pending := t.pending)
    ensures ScriptInv(t, now)
  {
  }

  lemma {:induction false} ApplyAllKeeps(env: Env, r: RegionS, i: nat, acts: seq<Action>)
    requires Inv(r) && i < |r.scripts|
    requires forall j :: 0 <= j < |acts| && acts[j].Sleep? ==> acts[j].secs >= 0.0
    ensures Inv(ApplyAll(env, r, i, acts)) && Meanwhile(r, ApplyAll(env, r, i, acts))
    ensures ApplyAll(env, r, i, acts).steps == r.steps
    decreases |acts|
  {
    hide Inv, Apply;
    if acts != [] {
      ApplyKeeps(env, r, i, acts[0]);
      ApplyAllKeeps(env, Apply(env, r, i, acts[0]), i, acts[1..]);
    }
  }

  lemma RunHandlerKeeps(env: Env, r: RegionS, i: nat, state: int, ev: Event)
    requires Inv(r) && Forward(env) && i < |r.scripts|
    ensures var r' := RunHandler(env, r, i, state, ev); Inv(r') && Meanwhile(r, r') && r'.steps == r.steps
  {
    if state >= 0 && env.handles(i, state, ev.name) {
      ApplyAllKeeps(env, r.(runs := r.runs + 1), i, env.run(i, state, ev, r.runs));
    }
  }

  lemma SwitchStateKeeps(env: Env, r: RegionS, i: nat)
    requires Inv(r) && Forward(env) && i < |r.scripts|
    ensures var r' := SwitchState(env, r, i); Inv(r') && Meanwhile(r, r') && r'.steps == r.steps
  {
    hide ScriptInv;
    var s := r.scripts[i];
    if s.pending >= 0 {
      var t := s.(cur := s.pending, pending := -1);
      OtherFieldsKeep(s, t, r.now);
      FlushedKeeps(t, r.now);
      var r1 := Put(r, i, Flushed(t));
      RunHandlerKeeps(env, r1, i, s.cur, STATE_EXIT);
      var r2 := RunHandler(env, r1, i, s.cur, STATE_EXIT);
      PushingKeeps(r2.scripts[i], r2.now, STATE_ENTRY);
    }
  }

  lemma DrainOneKeeps(env: Env, r: RegionS, i: nat)
    requires Inv(r) && Forward(env) && i < |r.scripts|
    ensures var r' := DrainOne(env, r, i);
            Inv(r') && Meanwhile(r, r') && r'.steps == r.steps + if r.scripts[i].queue != [] then 1 else 0
  {
    hide ScriptInv, RunHandler, SwitchState;
    var s := r.scripts[i];
    if s.queue != [] {
      PoppedKeeps(s, r.now);
      var r0 := Put(r, i, Popped(s));
      RunHandlerKeeps(env, r0, i, s.cur, s.queue[0]);
      var r1 := RunHandler(env, r0, i, s.cur, s.queue[0]);
      SwitchStateKeeps(env, r1.(steps := r1.steps + 1), i);
    }
  }

  lemma {:induction false} DrainKeeps(env: Env, r: RegionS, i: nat)
    requires Inv(r) && Forward(env) && i <= |r.scripts|
    ensures var r' := Drain(env, r, i); Inv(r') && Meanwhile(r, r')
    decreases |r.scripts| - i
  {
    hide Inv, DrainOne;
    if i < |r.scripts| {
      DrainOneKeeps(env, r, i);
      DrainKeeps(env, DrainOne(env, r, i), i + 1);
    }
  }

  /** Virtual time moves forward to the earliest due time, never past the offset, and a
      timer fires at its due time. */
  lemma TickKeeps(r: RegionS)
    requires Inv(r)
    ensures Inv(Tick(r)) && r.now <= Tick(r).now <= Tick(r).offset == r.offset
    ensures Tick(r).cmds == r.cmds && Tick(r).steps == r.steps
    ensures Tick(r).fires == r.fires || Tick(r).fires == r.fires + [Tick(r).now]
  {
    hide OnSchedule, Ledger;
    var k := Earliest(r.scripts, r.offset, |r.scripts|);
    if k < 0 {
      forall i | 0 <= i < |r.scripts| ensures ScriptInv(r.scripts[i], r.offset) {
        assert !IsDue(r.scripts[i], r.offset);
        WaitingKeeps(r.scripts[i], r.now, r.offset);
      }
    } else {
      var s := r.scripts[k];
      forall i | 0 <= i < |r.scripts| ensures ScriptInv(r.scripts[i], s.due) {
        WaitingKeeps(r.scripts[i], r.now, s.due);
      }
      FiringKeeps(s, r.now);
    }
  }

  lemma {:induction false} DeliverAllKeeps(r: RegionS, ps: seq<(nat, Event)>)
    requires Inv(r)
    ensures Inv(DeliverAll(r, ps)) && Meanwhile(r, DeliverAll(r, ps)) && DeliverAll(r, ps).steps == r.steps
    decreases |ps|
  {
    hide ScriptInv;
    if ps != [] {
      if ps[0].0 < |r.scripts| { PushingKeeps(r.scripts[ps[0].0], r.now, ps[0].1); }
      DeliverAllKeeps(PushTo(r, ps[0].0, ps[0].1), ps[1..]);
    }
  }

  lemma PumpKeeps(env: Env, r: RegionS)
    requires Inv(r) && r.cmds != [] && WaitsForward(r)
    ensures Inv(Pump(env, r)) && WaitsForward(Pump(env, r)) && Pump(env, r).now == r.now
    ensures !r.cmds[0].Exit? ==> Pump(env, r).steps == r.steps + 1
    ensures r.cmds[0].Exit? ==> Pump(env, r).steps == env.maxSteps + 2
  {
    hide ScriptInv;
    match r.cmds[0]
    case Deliver(ps) => DeliverAllKeeps(r.(cmds := r.cmds[1..]), ps);
    case _ =>
  }

  /** Every iteration keeps the invariant, and virtual time never decreases. */
  lemma IterateKeeps(env: Env, r: RegionS)
    requires Inv(r) && Forward(env) && WaitsForward(r)
    ensures var r' := Iterate(env, r).1; Inv(r') && WaitsForward(r') && r.now <= r'.now
  {
    hide Drain, Tick, Pump, ScriptInv;
    if !OutOfBudget(env, r) {
      TickKeeps(r);
      DrainKeeps(env, Tick(r), 0);
      var d := Drain(env, Tick(r), 0);
      var r1 := d.(rounds := d.rounds + 1);
      if r1.cmds != [] { PumpKeeps(env, r1); }
    }
  }

  lemma {:induction false} StartedKeeps(env: Env, r: RegionS, i: nat, hasStates: nat -> bool)
    requires Inv(r) && i <= |r.scripts|
    ensures Inv(Started(env, r, i, hasStates)) && Started(env, r, i, hasStates).cmds == r.cmds
    decreases |r.scripts| - i
  {
    hide ScriptInv;
    if i < |r.scripts| {
      var d := env.defaultState(i);
      var s := r.scripts[i];
      var t := s.(cur := if d >= 0 then d else if s.cur < 0 && hasStates(i) then 0 else s.cur);
      OtherFieldsKeep(s, t, r.now);
      PushingKeeps(t, r.now, STATE_ENTRY);
      StartedKeeps(env, Put(r, i, Pushing(t, STATE_ENTRY)), i + 1, hasStates);
    }
  }

  lemma FreshInv(r: RegionS)
    requires Fresh(r)
    ensures Inv(r)
  {
  }

  /** Every state any run reaches satisfies the invariant: whatever the handlers do, and
      whatever commands come, as long as time is never asked to go backward. */
  lemma {:induction false} RunsKeep(env: Env, r: RegionS, hasStates: nat -> bool, n: nat)
    requires Fresh(r) && Forward(env) && WaitsForward(r)
    ensures Inv(After(env, Started(env, r, 0, hasStates), n))
  {
    FreshInv(r);
    StartedKeeps(env, r, 0, hasStates);
    AfterKeeps(env, Started(env, r, 0, hasStates), n);
  }

  lemma {:induction false} AfterKeeps(env: Env, r: RegionS, n: nat)
    requires Inv(r) && Forward(env) && WaitsForward(r)
    ensures Inv(After(env, r, n)) && WaitsForward(After(env, r, n)) && r.now <= After(env, r, n).now
    decreases n
  {
    hide Inv, Iterate;
    if n > 0 {
      IterateKeeps(env, r);
      var (more, r1) := Iterate(env, r);
      if more { AfterKeeps(env, r1, n - 1); }
    }
  }

  // ----- timers -----

  /** The loop has nothing left to fire: virtual time has caught up with the offset. */
  predicate Idle(r: RegionS) {
    r.now == r.offset && forall i :: 0 <= i < |r.scripts| ==> !IsDue(r.scripts[i], r.offset)
  }

  /** Whenever the loop is idle at time T, a timer set to interval I at time t0 and not set
      again since has fired exactly floor((T - t0) / I) times, the k-th time at t0 + k * I. */
  lemma IdleTimerCount(r: RegionS, i: nat)
    requires Inv(r) && Idle(r) && i < |r.scripts| && r.scripts[i].interval > 0.0
    ensures var t := Since(r.scripts[i].log);
            && |t.fires| == ((r.now - t.at) / t.interval).Floor
            && forall k :: 1 <= k <= |t.fires| ==> t.fires[k - 1] == t.at + Times(k, t.interval)
  {
    var s := r.scripts[i];
    assert ScriptInv(s, r.now) && !IsDue(s, r.offset);
    var t := Since(s.log);
    var n := |t.fires|;
    var q := (r.now - t.at) / t.interval;
    assert Times(n + 1, t.interval) == Times(n, t.interval) + t.interval;
    assert Times(n, t.interval) <= r.now - t.at < Times(n + 1, t.interval);
    QuotientBounds(r.now - t.at, t.interval, n);
  }

  lemma QuotientBounds(x: real, d: real, n: nat)
    requires d > 0.0 && Times(n, d) <= x < Times(n + 1, d)
    ensures (x / d).Floor == n
  {
    var q := x / d;
    assert q * d == x;
    ScaleOrder(q, n as real, d);
    ScaleOrder(q, (n + 1) as real, d);
  }

  lemma ScaleOrder(a: real, b: real, d: real)
    requires d > 0.0
    ensures a < b <==> a * d < b * d
  {
    assert (b - a) * d == b * d - a * d;
  }

  /** An iteration that fires no timer leaves the clock at the offset it started with. */
  lemma QuietTickIsIdle(r: RegionS)
    requires Tick(r).fires == r.fires
    ensures Idle(Tick(r))
  {
  }
}
