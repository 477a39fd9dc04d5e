/** State requests in the event loop: when a handler can start with one pending. */
module SchedulerRequests {
  import opened Scheduler
  import opened SchedulerLaws
  import opened SchedulerRuns

  /** The state asked for after some actions: the last one they ask for, if any. */
  function LastAsked(acts: seq<Action>, pending: int): int {
    if acts == [] then pending
    else LastAsked(acts[1..], if acts[0].RequestState? then acts[0].state else pending)
  }

  predicate Asks(acts: seq<Action>) { exists j :: 0 <= j < |acts| && acts[j].RequestState? }

  lemma {:induction false} AsksIff(acts: seq<Action>, pending: int)
    requires pending < 0
    ensures LastAsked(acts, pending) >= 0 <==> Asks(acts)
  {
    if acts != [] {
      if acts[0].RequestState? {
        StillAsked(acts[1..], acts[0].state);
      } else {
        AsksIff(acts[1..], pending);
        if Asks(acts) {
          var j :| 0 <= j < |acts| && acts[j].RequestState?;
          assert acts[1..][j - 1].RequestState?;
        }
        if Asks(acts[1..]) {
          var j :| 0 <= j < |acts[1..]| && acts[1..][j].RequestState?;
          assert acts[j + 1].RequestState?;
        }
      }
    }
  }

  lemma {:induction false} StillAsked(acts: seq<Action>, pending: int)
    requires pending >= 0
    ensures LastAsked(acts, pending) >= 0
  {
    if acts != [] { StillAsked(acts[1..], if acts[0].RequestState? then acts[0].state else pending); }
  }

  lemma {:induction false} ApplyAllAsks(env: Env, r: RegionS, i: nat, acts: seq<Action>)
    requires i < |r.scripts|
    ensures ApplyAll(env, r, i, acts).scripts[i].pending == LastAsked(acts, r.scripts[i].pending)
    decreases |acts|
  {
    if acts != [] { ApplyAllAsks(env, Apply(env, r, i, acts[0]), i, acts[1..]); }
  }

  /** What the handler for an event does. */
  function HandlerActions(env: Env, r: RegionS, i: nat, state: int, ev: Event): seq<Action> {
    if state < 0 || !env.handles(i, state, ev.name) then [] else env.run(i, state, ev, r.runs)
  }

  lemma RunHandlerAsks(env: Env, r: RegionS, i: nat, state: int, ev: Event)
    requires i < |r.scripts|
    ensures RunHandler(env, r, i, state, ev).scripts[i].pending ==
            LastAsked(HandlerActions(env, r, i, state, ev), r.scripts[i].pending)
  {
    if state >= 0 && env.handles(i, state, ev.name) {
      ApplyAllAsks(env, r.(runs := r.runs + 1), i, env.run(i, state, ev, r.runs));
    }
  }

  /** What a state switch leaves pending is what state_exit of the old state asked for. */
  lemma SwitchAsks(env: Env, r: RegionS, i: nat)
    requires i < |r.scripts|
    ensures var p := SwitchState(env, r, i).scripts[i].pending;
            if r.scripts[i].pending < 0 then p == r.scripts[i].pending
            else p == LastAsked(ExitActions(env, r, i), -1)
  {
    hide RunHandler;
    var s := r.scripts[i];
    if s.pending >= 0 {
      var r1 := Put(r, i, Flushed(s.(cur := s.pending, pending := -1)));
      RunHandlerAsks(env, r1, i, s.cur, STATE_EXIT);
    }
  }

  /** A request is pending behind a switch exactly when state_exit of the old state asked
      for a state. */
  lemma SwitchLeavesIff(env: Env, r: RegionS, i: nat)
    requires i < |r.scripts| && r.scripts[i].pending >= 0
    ensures SwitchState(env, r, i).scripts[i].pending >= 0 <==> Asks(ExitActions(env, r, i))
  {
    hide SwitchState;
    SwitchAsks(env, r, i);
    AsksIff(ExitActions(env, r, i), -1);
  }

  // ----- over whole runs -----

  predicate NothingAsked(r: RegionS) { forall i :: 0 <= i < |r.scripts| ==> r.scripts[i].pending < 0 }

  /** No run of a state_exit handler asks for a state. */
  ghost predicate SilentExits(env: Env) {
    forall i, state, k :: !Asks(env.run(i, state, STATE_EXIT, k))
  }

  lemma DrainOneAsks(env: Env, r: RegionS, i: nat)
    requires i < |r.scripts| && NothingAsked(r) && SilentExits(env)
    ensures NothingAsked(DrainOne(env, r, i))
  {
    hide RunHandler, SwitchState;
    DrainOneFrame(env, r, i);
    var s := r.scripts[i];
    if s.queue != [] {
      var r1 := RunHandler(env, Put(r, i, Popped(s)), i, s.cur, s.queue[0]);
      var r2 := r1.(steps := r1.steps + 1);
      SwitchAsks(env, r2, i);
      if r2.scripts[i].pending >= 0 { SwitchLeavesIff(env, r2, i); }
    }
  }

  lemma {:induction false} DrainAsks(env: Env, r: RegionS, i: nat)
    requires i <= |r.scripts| && NothingAsked(r) && SilentExits(env)
    ensures NothingAsked(Drain(env, r, i))
    decreases |r.scripts| - i
  {
    hide DrainOne, SilentExits, NothingAsked;
    if i < |r.scripts| {
      DrainOneAsks(env, r, i);
      DrainAsks(env, DrainOne(env, r, i), i + 1);
    }
  }

  lemma {:induction false} DeliverAllAsks(r: RegionS, ps: seq<(nat, Event)>)
    requires NothingAsked(r)
    ensures NothingAsked(DeliverAll(r, ps))
    decreases |ps|
  {
    if ps != [] { DeliverAllAsks(PushTo(r, ps[0].0, ps[0].1), ps[1..]); }
  }

  /** Every iteration keeps it. */
  lemma IterateAsks(env: Env, r: RegionS)
    requires NothingAsked(r) && SilentExits(env)
    ensures NothingAsked(Iterate(env, r).1)
  {
    hide Drain, SilentExits;
    var t := Tick(r);
    DrainAsks(env, t, 0);
    var d := Drain(env, t, 0);
    var r1 := d.(rounds := d.rounds + 1);
    if r1.cmds != [] && r1.cmds[0].Deliver? { DeliverAllAsks(r1.(cmds := r1.cmds[1..]), r1.cmds[0].pushes); }
  }

  lemma {:induction false} AfterAsks(env: Env, r: RegionS, n: nat)
    requires NothingAsked(r) && SilentExits(env)
    ensures NothingAsked(After(env, r, n))
    decreases n
  {
    hide Iterate, SilentExits, NothingAsked;
    if n > 0 {
      IterateAsks(env, r);
      AfterAsks(env, Iterate(env, r).1, n - 1);
    }
  }

  lemma {:induction false} StartedAsks(env: Env, r: RegionS, i: nat, hasStates: nat -> bool)
    requires i <= |r.scripts| && NothingAsked(r)
    ensures NothingAsked(Started(env, r, i, hasStates))
    decreases |r.scripts| - i
  {
    if i < |r.scripts| {
      var d := env.defaultState(i);
      var s := r.scripts[i];
      var cur := if d >= 0 then d else if s.cur < 0 && hasStates(i) then 0 else s.cur;
      StartedAsks(env, Put(r, i, Pushing(s.(cur := cur), STATE_ENTRY)), i + 1, hasStates);
    }
  }

  /** Where no state_exit asks for a state, no script has a request pending at any point of
      any run between dispatches: every handler starts with nothing asked for. */
  lemma RunsAskNothing(env: Env, r: RegionS, hasStates: nat -> bool, n: nat)
    requires Fresh(r) && SilentExits(env)
    ensures NothingAsked(After(env, Started(env, r, 0, hasStates), n))
  {
    hide SilentExits;
    StartedAsks(env, r, 0, hasStates);
    AfterAsks(env, Started(env, r, 0, hasStates), n);
  }
}
