/** The event loop of src/region.c as a step machine over values: queues, timers against
    virtual time, state switches, the step budget and the command file. Each script
    carries the history of its queue and timer. */
module Scheduler {
  import opened Values

  datatype Event = Event(name: string, args: seq<SValue>)

  const STATE_ENTRY := Event("state_entry", [])
  const STATE_EXIT := Event("state_exit", [])
  const TIMER := Event("timer", [])

  /** What running code can do to the scheduler. */
  datatype Action =
    | Push(target: nat, ev: Event)     // any built-in that queues an event
    | SetTimer(interval: real)         // llSetTimerEvent
    | Sleep(secs: real)                // llSleep
    | Die                              // llDie
    | Reset                            // llResetScript
    | RequestState(state: nat)         // a `state` statement

  /** One line of the command file, by its effect on the scheduler. */
  datatype Command =
    | Wait(secs: real)
    | Exit
    | Deliver(pushes: seq<(nat, Event)>)  // TOUCH, LISTEN, ON_REZ, ...
    | Remark                              // ECHO, SNAPSHOT, ASSERT_*, blank

  /** What the loop cannot see into: which handlers a script has, what they do (they may
      behave differently at each of their runs), the default state of each script, and
      when the wall clock runs out. */
  datatype Env = Env(
    handles: (nat, int, string) -> bool,
    run: (nat, int, Event, nat) -> seq<Action>,
    defaultState: nat -> int,
    timeout: nat -> bool,
    maxSteps: int)

  datatype Entry =
    | Pushed(ev: Event)
    | Dispatched(ev: Event)
    | Dropped(evs: seq<Event>)
    | Armed(at: real, interval: real)
    | Fired(at: real)

  datatype ScriptS = ScriptS(cur: int, pending: int, queue: seq<Event>, interval: real, due: real, log: seq<Entry>)

  datatype RegionS = RegionS(
    scripts: seq<ScriptS>,
    now: real,
    offset: real,
    steps: int,
    cmds: seq<Command>,
    runs: nat,            // handler runs so far
    rounds: nat,          // loop iterations so far
    fires: seq<real>)     // when timers fired, over all scripts

  // ----- one script -----

  function Pushing(s: ScriptS, ev: Event): ScriptS {
    s.(queue := s.queue + [ev], log := s.log + [Pushed(ev)])
  }

  function Popped(s: ScriptS): ScriptS
    requires s.queue != []
  {
    s.(queue := s.queue[1..], log := s.log + [Dispatched(s.queue[0])])
  }

  function Flushed(s: ScriptS): ScriptS {
    s.(queue := [], log := s.log + [Dropped(s.queue)])
  }

  function Arming(s: ScriptS, now: real, x: real): ScriptS {
    s.(interval := x, due := if x > 0.0 then now + x else 0.0, log := s.log + [Armed(now, x)])
  }

  /** llDie disarms without touching the due time. */
  function Disarmed(s: ScriptS, now: real): ScriptS {
    s.(interval := 0.0, log := s.log + [Armed(now, 0.0)])
  }

  function Firing(s: ScriptS): ScriptS {
    var t := s.(log := s.log + [Fired(s.due)]);
    Pushing(t, TIMER).(due := s.due + s.interval)
  }

  // ----- actions of a handler -----

  function Put(r: RegionS, i: nat, s: ScriptS): RegionS
    requires i < |r.scripts|
  {
    r.(scripts := r.scripts[i := s])
  }

  function PushTo(r: RegionS, i: nat, ev: Event): RegionS {
    if i < |r.scripts| then Put(r, i, Pushing(r.scripts[i], ev)) else r
  }

  function Apply(env: Env, r: RegionS, i: nat, a: Action): (r': RegionS)
    requires i < |r.scripts|
    ensures |r'.scripts| == |r.scripts|
  {
    var s := r.scripts[i];
    match a
    case Push(t, ev) => PushTo(r, t, ev)
    case SetTimer(x) => Put(r, i, Arming(s, r.now, x))
    case Sleep(d) => r.(offset := r.offset + d)
    case Die => Put(r, i, Disarmed(Flushed(s), r.now))
    case Reset =>
      var t := Flushed(s);
      var d := env.defaultState(i);
      Put(r, i, Pushing(if d >= 0 then t.(cur := d) else t, STATE_ENTRY))
    case RequestState(k) => Put(r, i, s.(pending := k))
  }

  function ApplyAll(env: Env, r: RegionS, i: nat, acts: seq<Action>): (r': RegionS)
    requires i < |r.scripts|
    ensures |r'.scripts| == |r.scripts|
    decreases |acts|
  {
    if acts == [] then r else ApplyAll(env, Apply(env, r, i, acts[0]), i, acts[1..])
  }

  /** Runs the handler a state has for an event, if any. */
  function RunHandler(env: Env, r: RegionS, i: nat, state: int, ev: Event): (r': RegionS)
    requires i < |r.scripts|
    ensures |r'.scripts| == |r.scripts|
  {
    if state < 0 || !env.handles(i, state, ev.name) then r
    else ApplyAll(env, r.(runs := r.runs + 1), i, env.run(i, state, ev, r.runs))
  }

  /** A requested state change: the queue is dropped, state_exit of the old state runs at
      once, and state_entry is queued. */
  function SwitchState(env: Env, r: RegionS, i: nat): (r': RegionS)
    requires i < |r.scripts|
    ensures |r'.scripts| == |r.scripts|
  {
    var s := r.scripts[i];
    if s.pending < 0 then r
    else
      var r1 := Put(r, i, Flushed(s.(cur := s.pending, pending := -1)));
      PushTo(RunHandler(env, r1, i, s.cur, STATE_EXIT), i, STATE_ENTRY)
  }

  /** Dispatches the head of one script's queue. */
  function DrainOne(env: Env, r: RegionS, i: nat): (r': RegionS)
    requires i < |r.scripts|
    ensures |r'.scripts| == |r.scripts|
  {
    var s := r.scripts[i];
    if s.queue == [] then r
    else
      var r1 := RunHandler(env, Put(r, i, Popped(s)), i, s.cur, s.queue[0]);
      SwitchState(env, r1.(steps := r1.steps + 1), i)
  }

  /** One event per script, from script i on. */
  function Drain(env: Env, r: RegionS, i: nat): (r': RegionS)
    requires i <= |r.scripts|
    ensures |r'.scripts| == |r.scripts|
    decreases |r.scripts| - i
  {
    if i == |r.scripts| then r else Drain(env, DrainOne(env, r, i), i + 1)
  }

  // ----- timers -----

  predicate IsDue(s: ScriptS, el: real) { s.interval > 0.0 && s.due <= el }

  /** The first script, among the first n, whose timer is due earliest; or -1. */
  function Earliest(ss: seq<ScriptS>, el: real, n: nat): (k: int)
    requires n <= |ss|
    ensures -1 <= k < n
    ensures k >= 0 ==> IsDue(ss[k], el) && forall j :: 0 <= j < n && IsDue(ss[j], el) ==> ss[k].due <= ss[j].due
    ensures k >= 0 ==> forall j :: 0 <= j < k && IsDue(ss[j], el) ==> ss[k].due < ss[j].due
    ensures k < 0 ==> forall j :: 0 <= j < n ==> !IsDue(ss[j], el)
  {
    if n == 0 then -1
    else
      var k := Earliest(ss, el, n - 1);
      if IsDue(ss[n - 1], el) && (k < 0 || ss[n - 1].due < ss[k].due) then n - 1 else k
  }

  /** Advances virtual time to the earliest due timer and fires it, or to the offset. */
  function Tick(r: RegionS): (r': RegionS)
    ensures |r'.scripts| == |r.scripts|
  {
    var k := Earliest(r.scripts, r.offset, |r.scripts|);
    if k < 0 then r.(now := r.offset)
    else
      var s := r.scripts[k];
      Put(r.(now := s.due, fires := r.fires + [s.due]), k, Firing(s))
  }

  // ----- commands -----

  function DeliverAll(r: RegionS, ps: seq<(nat, Event)>): (r': RegionS)
    ensures |r'.scripts| == |r.scripts|
    decreases |ps|
  {
    if ps == [] then r else DeliverAll(PushTo(r, ps[0].0, ps[0].1), ps[1..])
  }

  /** commands_pump on a non-empty command file, and the step it counts for. */
  function Pump(env: Env, r: RegionS): (r': RegionS)
    requires r.cmds != []
    ensures |r'.scripts| == |r.scripts| && r'.cmds == r.cmds[1..]
  {
    var c := r.cmds[0];
    var r0 := r.(cmds := r.cmds[1..]);
    var r1 :=
      match c
      case Wait(d) => r0.(offset := r0.offset + d)
      case Exit => r0.(steps := env.maxSteps + 1)
      case Deliver(ps) => DeliverAll(r0, ps).(cmds := r0.cmds)
      case Remark => r0;
    r1.(steps := r1.steps + 1)
  }

  // ----- the loop -----

  predicate OutOfBudget(env: Env, r: RegionS) {
    (env.maxSteps > 0 && r.steps >= env.maxSteps) || env.timeout(r.rounds)
  }

  /** One iteration: whether the loop goes on, and the state behind it. Without a timer
      fired or an event dispatched it falls back on the next command, and without one of
      those it ends. */
  function Iterate(env: Env, r: RegionS): (res: (bool, RegionS))
    ensures |res.1.scripts| == |r.scripts|
  {
    if OutOfBudget(env, r) then (false, r)
    else
      var t := Tick(r);
      var d := Drain(env, t, 0);
      var r1 := d.(rounds := d.rounds + 1);
      if t.fires != r.fires || r1.steps != r.steps then (true, r1)
      else if r1.cmds == [] then (false, r1)
      else (true, Pump(env, r1))
  }

  // ----- start -----

  /** init_script: the default state, or the first, and a first state_entry. */
  function Started(env: Env, r: RegionS, i: nat, hasStates: nat -> bool): (r': RegionS)
    requires i <= |r.scripts|
    ensures |r'.scripts| == |r.scripts|
    decreases |r.scripts| - i
  {
    if i == |r.scripts| then r
    else
      var d := env.defaultState(i);
      var s := r.scripts[i];
      var cur := if d >= 0 then d else if s.cur < 0 && hasStates(i) then 0 else s.cur;
      Started(env, Put(r, i, Pushing(s.(cur := cur), STATE_ENTRY)), i + 1, hasStates)
  }

  /** A region before its scripts are started. */
  predicate Fresh(r: RegionS) {
    && r.now == 0.0 && r.offset == 0.0 && r.steps == 0 && r.runs == 0 && r.rounds == 0 && r.fires == []
    && forall i :: 0 <= i < |r.scripts| ==> r.scripts[i] == ScriptS(-1, -1, [], 0.0, 0.0, [])
  }

  /** n iterations, or as many as the loop makes. */
  function After(env: Env, r: RegionS, n: nat): RegionS
    decreases n
  {
    if n == 0 then r
    else
      var (more, r1) := Iterate(env, r);
      if more then After(env, r1, n - 1) else r1
  }
}
