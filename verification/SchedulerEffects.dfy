/** What each action and command changes, in numbers and queues. */
module SchedulerEffects {
  import opened Values
  import opened Scheduler
  import opened SchedulerLaws
  import opened SchedulerRuns

  // ----- time -----

  function SleepTime(acts: seq<Action>): real {
    if acts == [] then 0.0 else (if acts[0].Sleep? then acts[0].secs else 0.0) + SleepTime(acts[1..])
  }

  /** llSleep moves the virtual offset on by what it is given, and nothing else does. */
  lemma {:induction false} OffsetAfter(env: Env, r: RegionS, i: nat, acts: seq<Action>)
    requires i < |r.scripts|
    ensures ApplyAll(env, r, i, acts).offset == r.offset + SleepTime(acts)
    decreases |acts|
  {
    if acts != [] { OffsetAfter(env, Apply(env, r, i, acts[0]), i, acts[1..]); }
  }

  // ----- other scripts' queues -----

  /** A script that is not running gets exactly the events pushed to it, in order. */
  lemma {:induction false} OthersGet(env: Env, r: RegionS, i: nat, acts: seq<Action>, j: nat)
    requires i < |r.scripts| && j < |r.scripts| && i != j
    ensures ApplyAll(env, r, i, acts).scripts[j].queue == r.scripts[j].queue + OwnPushes(j, acts)
    decreases |acts|
  {
    if acts != [] {
      var a := acts[0];
      var r1 := Apply(env, r, i, a);
      assert r1.scripts[j].queue == r.scripts[j].queue + (if a.Push? && a.target == j then [a.ev] else []);
      OthersGet(env, r1, i, acts[1..], j);
    }
  }

  /** What a handler leaves of its own queue when it dies or is reset: only what was pushed
      behind that, and behind a reset state_entry before it. */
  lemma {:induction false} OwnQueueCut(i: nat, before: seq<Action>, a: Action, behind: seq<Action>, q: seq<Event>)
    requires a.Die? || a.Reset?
    requires forall k :: 0 <= k < |behind| ==> !behind[k].Die? && !behind[k].Reset?
    ensures QueueAfter(i, before + [a] + behind, q) ==
            (if a.Reset? then [Event("state_entry", [])] else []) + OwnPushes(i, behind)
    decreases |before|
  {
    var acts := before + [a] + behind;
    if before == [] {
      assert acts[0] == a && acts[1..] == behind;
      PlainQueueAfter(i, behind, if a.Reset? then [STATE_ENTRY] else []);
    } else {
      var b := before[0];
      assert acts[0] == b && acts[1..] == before[1..] + [a] + behind;
      OwnQueueCut(i, before[1..], a, behind,
        if b.Push? && b.target == i then q + [b.ev] else if b.Die? then [] else if b.Reset? then [STATE_ENTRY] else q);
    }
  }

  // ----- states -----

  /** llResetScript puts the script back into its default state, if it has one; nothing else
      that a handler does changes the state it is in. */
  lemma {:induction false} StateAfter(env: Env, r: RegionS, i: nat, acts: seq<Action>)
    requires i < |r.scripts|
    ensures ApplyAll(env, r, i, acts).scripts[i].cur ==
            if (exists k :: 0 <= k < |acts| && acts[k].Reset?) && env.defaultState(i) >= 0 then env.defaultState(i)
            else r.scripts[i].cur
    decreases |acts|
  {
    if acts != [] {
      StateAfter(env, Apply(env, r, i, acts[0]), i, acts[1..]);
      assert forall k :: 1 <= k < |acts| ==> acts[k] == acts[1..][k - 1];
      assert forall k :: 0 <= k < |acts| - 1 ==> acts[1..][k] == acts[k + 1];
    }
  }

  /** A started script is in its default state, or else its first, and has state_entry to do. */
  lemma {:induction false} StartedIs(env: Env, r: RegionS, i: nat, hasStates: nat -> bool, j: nat)
    requires i <= |r.scripts| && j < |r.scripts|
    ensures var s, s' := r.scripts[j], Started(env, r, i, hasStates).scripts[j];
            if j < i then s' == s
            else
              && s'.queue == s.queue + [Event("state_entry", [])]
              && s'.cur == if env.defaultState(j) >= 0 then env.defaultState(j)
                           else if s.cur < 0 && hasStates(j) then 0 else s.cur
    decreases |r.scripts| - i
  {
    if i < |r.scripts| {
      var d := env.defaultState(i);
      var s := r.scripts[i];
      var t := Pushing(s.(cur := if d >= 0 then d else if s.cur < 0 && hasStates(i) then 0 else s.cur), STATE_ENTRY);
      StartedIs(env, Put(r, i, t), i + 1, hasStates, j);
    }
  }

  // ----- commands -----

  function PushedTo(j: nat, ps: seq<(nat, Event)>): seq<Event> {
    if ps == [] then [] else (if ps[0].0 == j then [ps[0].1] else []) + PushedTo(j, ps[1..])
  }

  lemma {:induction false} DeliveredTo(r: RegionS, ps: seq<(nat, Event)>, j: nat)
    requires j < |r.scripts|
    ensures DeliverAll(r, ps).scripts[j].queue == r.scripts[j].queue + PushedTo(j, ps)
    ensures var r' := DeliverAll(r, ps); r'.offset == r.offset && r'.steps == r.steps && r'.now == r.now
    decreases |ps|
  {
    if ps != [] {
      var r1 := PushTo(r, ps[0].0, ps[0].1);
      assert r1.scripts[j].queue == r.scripts[j].queue + (if ps[0].0 == j then [ps[0].1] else []);
      DeliveredTo(r1, ps[1..], j);
    }
  }

  /** WAIT moves the offset on by what it is given; other commands queue exactly their events;
      each counts one step, and EXIT uses up all of them. */
  lemma PumpDoes(env: Env, r: RegionS, j: nat)
    requires r.cmds != [] && j < |r.scripts|
    ensures var c, r' := r.cmds[0], Pump(env, r);
            && r'.offset == r.offset + (if c.Wait? then c.secs else 0.0)
            && r'.steps == (if c.Exit? then env.maxSteps + 1 else r.steps) + 1
            && r'.scripts[j].queue == r.scripts[j].queue + (if c.Deliver? then PushedTo(j, c.pushes) else [])
            && r'.cmds == r.cmds[1..] && r'.now == r.now
  {
    var c := r.cmds[0];
    if c.Deliver? { DeliveredTo(r.(cmds := r.cmds[1..]), c.pushes, j); }
  }

  // ----- one round -----

  /** The names by which the loop's own events find their handlers. */
  lemma EventNames()
    ensures STATE_ENTRY == Event("state_entry", []) && STATE_EXIT == Event("state_exit", [])
    ensures TIMER == Event("timer", [])
  {
  }
}
