/** region_run of src/region.c over its own data: linked event queues with head and tail
    pointers, and regions and scripts updated in place. Each method is proved to take the
    step the value model takes. */
module RegionLoop {
  import opened Scheduler
  import opened SchedulerRuns

  /** struct Event, owned by one script's queue. */
  class EventNode {
    const ev: Event
    var next: EventNode?
    ghost const owner: Script

    constructor (ev: Event, ghost owner: Script)
      ensures this.ev == ev && this.owner == owner && next == null
    {
      this.ev, this.owner, next := ev, owner, null;
    }
  }

  ghost function EventsOf(nodes: seq<EventNode>): (evs: seq<Event>)
    ensures |evs| == |nodes| && forall i :: 0 <= i < |nodes| ==> evs[i] == nodes[i].ev
  {
    seq(|nodes|, i requires 0 <= i < |nodes| => nodes[i].ev)
  }

  /** The scheduler's part of struct Script. */
  class Script {
    var cur: int
    var pending: int
    var head: EventNode?
    var tail: EventNode?
    var interval: real
    var due: real
    ghost var spine: seq<EventNode>
    ghost var log: seq<Entry>

    ghost predicate Valid()
      reads this, spine
    {
      && (spine == [] ==> head == null && tail == null)
      && (spine != [] ==> head == spine[0] && tail == spine[|spine| - 1] && tail.next == null)
      && (forall i :: 0 <= i < |spine| ==> spine[i].owner == this)
      && (forall i, j :: 0 <= i && j == i + 1 < |spine| ==> spine[i].next == spine[j])
    }

    ghost function View(): ScriptS
      reads this
    {
      ScriptS(cur, pending, EventsOf(spine), interval, due, log)
    }

    constructor ()
      ensures Valid() && View() == ScriptS(-1, -1, [], 0.0, 0.0, []) && spine == []
    {
      cur, pending, head, tail, interval, due := -1, -1, null, null, 0.0, 0.0;
      spine, log := [], [];
    }

    /** script_push_event */
    method PushEvent(ev: Event)
      requires Valid()
      modifies this, tail
      ensures Valid() && View() == Pushing(old(View()), ev)
      ensures |spine| == |old(spine)| + 1 && spine[..|old(spine)|] == old(spine) && fresh(spine[|old(spine)|])
    {
      var node := new EventNode(ev, this);
      if tail != null {
        tail.next := node;
        tail := node;
      } else {
        head, tail := node, node;
      }
      spine := spine + [node];
      log := log + [Pushed(ev)];
      assert View().queue == old(View()).queue + [ev];
    }

    /** Takes the head off the queue. */
    method PopEvent() returns (ev: Event)
      requires Valid() && head != null
      modifies this
      ensures Valid() && old(View()).queue != [] && ev == old(View()).queue[0]
      ensures View() == Popped(old(View())) && spine == old(spine)[1..]
    {
      ev := head.ev;
      head := head.next;
      if head == null { tail := null; }
      spine := spine[1..];
      log := log + [Dispatched(ev)];
      assert View().queue == old(View()).queue[1..];
    }

    /** Walks the queue to free it, then empties it. */
    method FlushQueue()
      requires Valid()
      modifies this
      ensures Valid() && View() == Flushed(old(View())) && spine == []
    {
      var q := head;
      ghost var k := 0;
      while q != null
        invariant 0 <= k <= |spine|
        invariant q == if k < |spine| then spine[k] else null
        decreases |spine| - k
      {
        q := q.next;
        k := k + 1;
      }
      head, tail := null, null;
      log := log + [Dropped(EventsOf(spine))];
      spine := [];
    }

    method SetState(cur: int, pending: int)
      requires Valid()
      modifies this`cur, this`pending
      ensures Valid() && View() == old(View()).(cur := cur, pending := pending)
    {
      this.cur, this.pending := cur, pending;
    }

    method StopTimer(now: real)
      requires Valid()
      modifies this`interval, this`log
      ensures Valid() && View() == Disarmed(old(View()), now)
    {
      interval := 0.0;
      log := log + [Armed(now, 0.0)];
    }

    ghost method NoteFire()
      requires Valid()
      modifies this`log
      ensures Valid() && View() == old(View()).(log := old(View()).log + [Fired(old(View()).due)])
    {
      log := log + [Fired(due)];
    }

    /** The due time moves on by one interval. */
    method Rearm()
      requires Valid()
      modifies this`due
      ensures Valid() && View() == old(View()).(due := old(View()).due + old(View()).interval)
    {
      due := due + interval;
    }

    /** llSetTimerEvent */
    method SetTimer(now: real, x: real)
      requires Valid()
      modifies this`interval, this`due, this`log
      ensures Valid() && View() == Arming(old(View()), now, x)
    {
      interval := x;
      if interval > 0.0 { due := now + interval; } else { due := 0.0; }
      log := log + [Armed(now, x)];
    }
  }

  class Region {
    const env: Env
    const scripts: seq<Script>
    const cmds: seq<Command>
    var now: real
    var offset: real
    var steps: int
    var next: nat
    var runs: nat
    var rounds: nat
    ghost var model: RegionS

    ghost var nodes: set<EventNode>

    ghost predicate Valid()
      reads this, scripts, nodes
    {
      && next <= |cmds|
      && model.now == now && model.offset == offset && model.steps == steps
      && model.cmds == cmds[next..] && model.runs == runs && model.rounds == rounds
      && |model.scripts| == |scripts| && Linked(model.scripts)
    }

    /** The scripts stand for those of the machine. */
    ghost predicate Linked(ss: seq<ScriptS>)
      reads this`nodes, scripts, nodes
    {
      && |ss| == |scripts|
      && (forall i, j :: 0 <= i < j < |scripts| ==> scripts[i] != scripts[j])
      && (forall i, k :: 0 <= i < |scripts| && 0 <= k < |scripts[i].spine| ==> scripts[i].spine[k] in nodes)
      && (forall i :: 0 <= i < |scripts| ==> Stands(i, ss[i]))
    }

    ghost predicate Stands(i: nat, s: ScriptS)
      requires i < |scripts|
      reads scripts[i], scripts[i].spine
    {
      scripts[i].Valid() && scripts[i].View() == s
    }

    lemma ViewOf(i: nat)
      requires Valid() && i < |scripts|
      ensures scripts[i].Valid() && scripts[i].View() == model.scripts[i]
    {
      assert Stands(i, model.scripts[i]);
    }

    lemma Standing(i: nat)
      requires i < |scripts| && scripts[i].Valid()
      ensures Stands(i, scripts[i].View())
    {
    }

    lemma OwnNodes(i: nat, s: ScriptS)
      requires i < |scripts| && Stands(i, s)
      ensures forall k :: 0 <= k < |scripts[i].spine| ==> scripts[i].spine[k].owner == scripts[i]
    {
    }

    lemma LastOwned(i: nat)
      requires Valid() && i < |scripts|
      ensures var last := scripts[i].tail; last != null ==> last in nodes && last.owner == scripts[i]
    {
      ViewOf(i);
    }

    constructor (env: Env, scripts: seq<Script>, cmds: seq<Command>)
      requires forall i, j :: 0 <= i < j < |scripts| ==> scripts[i] != scripts[j]
      requires forall i :: 0 <= i < |scripts| ==>
        scripts[i].Valid() && scripts[i].spine == [] && scripts[i].View() == ScriptS(-1, -1, [], 0.0, 0.0, [])
      ensures Valid() && Fresh(model) && model.cmds == cmds
      ensures this.env == env && this.scripts == scripts && this.cmds == cmds
    {
      this.env, this.scripts, this.cmds := env, scripts, cmds;
      now, offset, steps, next, runs, rounds := 0.0, 0.0, 0, 0, 0, 0;
      nodes := {};
      model := RegionS(seq(|scripts|, i => ScriptS(-1, -1, [], 0.0, 0.0, [])), 0.0, 0.0, 0, cmds, 0, 0, []);
    }

    method Push(i: nat, ev: Event)
      requires Valid() && i < |scripts|
      modifies this`model, this`nodes, scripts[i], nodes
      ensures Valid() && model == PushTo(old(model), i, ev)
      ensures fresh(nodes - old(nodes))
    {
      hide Linked, Pushing;
      Link(i, ev);
      model := PushTo(model, i, ev);
    }

    /** Puts an event on a script's queue. */
    method Link(i: nat, ev: Event)
      requires Valid() && i < |scripts|
      modifies this`nodes, scripts[i], nodes
      ensures Linked(model.scripts[i := Pushing(model.scripts[i], ev)])
      ensures fresh(nodes - old(nodes)) && old(nodes) <= nodes
    {
      hide Stands, Pushing, EventsOf;
      ViewOf(i);
      LastOwned(i);
      forall j | 0 <= j < |scripts|
        ensures forall k :: 0 <= k < |scripts[j].spine| ==> scripts[j].spine[k].owner == scripts[j]
      {
        OwnNodes(j, model.scripts[j]);
      }
      scripts[i].PushEvent(ev);
      nodes := nodes + {scripts[i].spine[|scripts[i].spine| - 1]};
      Standing(i);
    }

    // Updates of one script in place; each takes the model along.

    method Flush(i: nat)
      requires Valid() && i < |scripts|
      modifies this`model, scripts[i]
      ensures Valid() && model == Put(old(model), i, Flushed(old(model).scripts[i]))
    {
      hide Stands;
      ViewOf(i);
      scripts[i].FlushQueue();
      Standing(i);
      model := Put(model, i, Flushed(model.scripts[i]));
    }

    method Pop(i: nat) returns (ev: Event)
      requires Valid() && i < |scripts| && scripts[i].head != null
      modifies this`model, scripts[i]
      ensures Valid() && old(model).scripts[i].queue != [] && ev == old(model).scripts[i].queue[0]
      ensures model == Put(old(model), i, Popped(old(model).scripts[i]))
    {
      hide Stands;
      ViewOf(i);
      ghost var s0 := model.scripts[i];
      ev := scripts[i].PopEvent();
      Standing(i);
      model := Put(model, i, Popped(s0));
    }

    method SetState(i: nat, cur: int, pending: int)
      requires Valid() && i < |scripts|
      modifies this`model, scripts[i]
      ensures Valid() && model == Put(old(model), i, old(model).scripts[i].(cur := cur, pending := pending))
    {
      hide Stands;
      ViewOf(i);
      scripts[i].SetState(cur, pending);
      Standing(i);
      model := Put(model, i, model.scripts[i].(cur := cur, pending := pending));
    }

    method SetTimer(i: nat, x: real)
      requires Valid() && i < |scripts|
      modifies this`model, scripts[i]
      ensures Valid() && model == Put(old(model), i, Arming(old(model).scripts[i], now, x))
    {
      hide Stands;
      ghost var s0 := model.scripts[i];
      ViewOf(i);
      scripts[i].SetTimer(now, x);
      Standing(i);
      model := Put(model, i, Arming(s0, now, x));
    }

    method StopTimer(i: nat)
      requires Valid() && i < |scripts|
      modifies this`model, scripts[i]
      ensures Valid() && model == Put(old(model), i, Disarmed(old(model).scripts[i], now))
    {
      hide Stands;
      ghost var s0 := model.scripts[i];
      ViewOf(i);
      scripts[i].StopTimer(now);
      Standing(i);
      model := Put(model, i, Disarmed(s0, now));
    }

    ghost method NoteFire(i: nat)
      requires Valid() && i < |scripts|
      modifies this`model, scripts[i]
      ensures Valid()
      ensures var s := old(model).scripts[i];
              model == Put(old(model), i, s.(log := s.log + [Fired(s.due)]))
    {
      hide Stands;
      ghost var s0 := model.scripts[i];
      ViewOf(i);
      scripts[i].NoteFire();
      Standing(i);
      model := Put(model, i, s0.(log := s0.log + [Fired(s0.due)]));
    }

    method Rearm(i: nat)
      requires Valid() && i < |scripts|
      modifies this`model, scripts[i]
      ensures Valid()
      ensures var s0 := old(model).scripts[i]; model == Put(old(model), i, s0.(due := s0.due + s0.interval))
    {
      hide Stands;
      ghost var s0 := model.scripts[i];
      ViewOf(i);
      scripts[i].Rearm();
      Standing(i);
      model := Put(model, i, s0.(due := s0.due + s0.interval));
    }

    method FireTimer(i: nat)
      requires Valid() && i < |scripts|
      modifies this`model, this`nodes, scripts[i], nodes
      ensures Valid() && model == Put(old(model), i, Firing(old(model).scripts[i]))
      ensures fresh(nodes - old(nodes))
    {
      hide Linked;
      NoteFire(i);
      Push(i, TIMER);
      Rearm(i);
      assert model.scripts == old(model).scripts[i := Firing(old(model).scripts[i])];
    }

    /** One thing a handler does. */
    method Perform(i: nat, a: Action)
      requires Valid() && i < |scripts|
      modifies this, scripts, nodes
      ensures Valid() && model == Apply(env, old(model), i, a)
      ensures fresh(nodes - old(nodes))
    {
      hide Linked;
      match a {
        case Push(t, ev) => if t < |scripts| { Push(t, ev); }
        case SetTimer(x) => SetTimer(i, x);
        case Sleep(d) => PassTime(d);
        case Die =>
          Flush(i);
          StopTimer(i);
        case Reset => ResetScript(i);
        case RequestState(k) =>
          ViewOf(i);
          SetState(i, scripts[i].cur, k);
      }
    }

    method PassTime(d: real)
      requires Valid()
      modifies this`offset, this`model
      ensures Valid() && model == old(model).(offset := old(model).offset + d)
    {
      hide Linked;
      offset := offset + d;
      model := model.(offset := model.offset + d);
    }

    /** llResetScript, as far as the scheduler goes. */
    method ResetScript(i: nat)
      requires Valid() && i < |scripts|
      modifies this`model, this`nodes, scripts[i], nodes
      ensures Valid() && model == Apply(env, old(model), i, Reset)
      ensures fresh(nodes - old(nodes))
    {
      hide Linked;
      Flush(i);
      var d := env.defaultState(i);
      ViewOf(i);
      if d >= 0 { SetState(i, d, scripts[i].pending); }
      Push(i, STATE_ENTRY);
    }

    /** dispatch_event and vm_dispatch: runs the handler of a state, if it has one. */
    method Dispatch(i: nat, state: int, ev: Event)
      requires Valid() && i < |scripts|
      modifies this, scripts, nodes
      ensures Valid() && model == RunHandler(env, old(model), i, state, ev)
      ensures fresh(nodes - old(nodes))
    {
      hide Linked;
      if state < 0 { return; }
      if !env.handles(i, state, ev.name) { return; }
      var acts := env.run(i, state, ev, runs);
      runs := runs + 1;
      model := model.(runs := model.runs + 1);
      var j := 0;
      while j < |acts|
        invariant 0 <= j <= |acts| && Valid() && fresh(nodes - old(nodes))
        invariant ApplyAll(env, old(model).(runs := old(model).runs + 1), i, acts) == ApplyAll(env, model, i, acts[j..])
      {
        assert acts[j..][1..] == acts[j + 1..];
        Perform(i, acts[j]);
        j := j + 1;
      }
    }

    /** Handles a pending state change after a dispatch. */
    method HandlePending(i: nat)
      requires Valid() && i < |scripts|
      modifies this, scripts, nodes
      ensures Valid() && model == SwitchState(env, old(model), i)
      ensures fresh(nodes - old(nodes))
    {
      hide Linked, RunHandler;
      var s := scripts[i];
      ViewOf(i);
      if s.pending < 0 { return; }
      var was := s.cur;
      SetState(i, s.pending, -1);
      Flush(i);
      ghost var s0 := old(model).scripts[i];
      assert model == Put(old(model), i, Flushed(s0.(cur := s0.pending, pending := -1)));
      Dispatch(i, was, STATE_EXIT);
      Push(i, STATE_ENTRY);
    }

    method CountStep()
      requires Valid()
      modifies this`steps, this`model
      ensures Valid() && model == old(model).(steps := old(model).steps + 1)
    {
      hide Linked;
      steps := steps + 1;
      model := model.(steps := model.steps + 1);
    }

    /** One script's turn in a round. */
    method TakeTurn(i: nat) returns (dispatched: bool)
      requires Valid() && i < |scripts|
      modifies this, scripts, nodes
      ensures Valid() && model == DrainOne(env, old(model), i)
      ensures dispatched <==> old(model).scripts[i].queue != []
      ensures fresh(nodes - old(nodes))
    {
      hide Linked, RunHandler, SwitchState, Popped, Put;
      ViewOf(i);
      if scripts[i].head == null { return false; }
      var state := scripts[i].cur;
      var ev := Pop(i);
      Dispatch(i, state, ev);
      CountStep();
      HandlePending(i);
      dispatched := true;
    }

    /** The script whose timer is due first, or -1. */
    method FindEarliest(el: real) returns (fire: int, earliest: real)
      requires Valid()
      ensures fire == Earliest(model.scripts, el, |scripts|)
      ensures fire >= 0 ==> earliest == model.scripts[fire].due
    {
      hide Linked;
      earliest := el + 1.0;
      fire := -1;
      var i := 0;
      while i < |scripts|
        invariant 0 <= i <= |scripts|
        invariant fire == Earliest(model.scripts, el, i)
        invariant earliest == if fire < 0 then el + 1.0 else model.scripts[fire].due
      {
        var s := scripts[i];
        ViewOf(i);
        if s.interval > 0.0 && s.due <= el && s.due < earliest {
          earliest := s.due;
          fire := i;
        }
        i := i + 1;
      }
    }

    /** Finds the earliest due timer, advances virtual time and fires it. */
    method AdvanceTime() returns (fired: bool)
      requires Valid()
      modifies this, scripts, nodes
      ensures Valid() && model == Tick(old(model))
      ensures (fired <==> model.fires != old(model).fires) && model.steps == old(model).steps
      ensures fresh(nodes - old(nodes))
    {
      hide Linked, Firing;
      var fire, earliest := FindEarliest(offset);
      fired := fire >= 0;
      if fired {
        MoveTo(earliest, model.fires + [earliest]);
        FireTimer(fire);
      } else {
        MoveTo(offset, model.fires);
      }
    }

    method MoveTo(t: real, ghost fires: seq<real>)
      requires Valid()
      modifies this`now, this`model
      ensures Valid() && model == old(model).(now := t, fires := fires)
    {
      hide Linked;
      now := t;
      model := model.(now := t, fires := fires);
    }

    /** commands_pump: carries out the next command, if there is one. */
    method PumpCommand() returns (some: bool)
      requires Valid()
      modifies this, scripts, nodes
      ensures Valid() && fresh(nodes - old(nodes))
      ensures some <==> old(model).cmds != []
      ensures some ==> model.(steps := model.steps + 1) == Pump(env, old(model))
      ensures !some ==> model == old(model)
    {
      hide Linked, DeliverAll;
      if next >= |cmds| { return false; }
      var c := NextCommand();
      some := true;
      match c {
        case Wait(d) => PassTime(d);
        case Exit => SetSteps(env.maxSteps + 1);
        case Deliver(ps) => DeliverEvents(ps);
        case Remark =>
      }
    }

    method NextCommand() returns (c: Command)
      requires Valid() && next < |cmds|
      modifies this`next, this`model
      ensures Valid() && old(model).cmds != [] && c == old(model).cmds[0]
      ensures model == old(model).(cmds := old(model).cmds[1..])
    {
      hide Linked;
      c := cmds[next];
      assert cmds[next..][0] == c && cmds[next..][1..] == cmds[next + 1..];
      next := next + 1;
      model := model.(cmds := model.cmds[1..]);
    }

    method SetSteps(n: int)
      requires Valid()
      modifies this`steps, this`model
      ensures Valid() && model == old(model).(steps := n)
    {
      hide Linked;
      steps := n;
      model := model.(steps := n);
    }

    method DeliverEvents(ps: seq<(nat, Event)>)
      requires Valid()
      modifies this`model, this`nodes, scripts, nodes
      ensures Valid() && model == DeliverAll(old(model), ps) && model.cmds == old(model).cmds
      ensures fresh(nodes - old(nodes))
    {
      hide Linked;
      var j := 0;
      while j < |ps|
        invariant 0 <= j <= |ps| && Valid() && fresh(nodes - old(nodes))
        invariant model.cmds == old(model).cmds
        invariant DeliverAll(old(model), ps) == DeliverAll(model, ps[j..])
      {
        assert ps[j..][1..] == ps[j + 1..];
        if ps[j].0 < |scripts| { Push(ps[j].0, ps[j].1); }
        j := j + 1;
      }
    }

    /** One event per script, round-robin. */
    method DrainRound() returns (any: bool)
      requires Valid()
      modifies this, scripts, nodes
      ensures Valid() && model == Drain(env, old(model), 0)
      ensures any <==> model.steps != old(model).steps
      ensures fresh(nodes - old(nodes))
    {
      hide Linked, DrainOne;
      any := false;
      var i := 0;
      while i < |scripts|
        invariant 0 <= i <= |scripts| && Valid() && fresh(nodes - old(nodes))
        invariant Drain(env, old(model), 0) == Drain(env, model, i)
        invariant model.steps >= old(model).steps && (any <==> model.steps != old(model).steps)
      {
        DrainOneFrame(env, model, i);
        var d := TakeTurn(i);
        any := any || d;
        i := i + 1;
      }
    }

    /** One iteration of the main loop. */
    method Round() returns (more: bool)
      requires Valid()
      modifies this, scripts, nodes
      ensures Valid() && (more, model) == Iterate(env, old(model))
      ensures fresh(nodes - old(nodes))
    {
      hide Linked, Drain, Tick, Pump;
      if env.maxSteps > 0 && steps >= env.maxSteps { return false; }
      if env.timeout(rounds) { return false; }
      var fired := AdvanceTime();
      var any := DrainRound();
      CountRound();
      if fired || any { return true; }
      more := PumpCommand();
      if more { CountStep(); }
    }

    method CountRound()
      requires Valid()
      modifies this`rounds, this`model
      ensures Valid() && model == old(model).(rounds := old(model).rounds + 1)
    {
      hide Linked;
      rounds := rounds + 1;
      model := model.(rounds := model.rounds + 1);
    }

    /** The start of every script, the main loop, and the commands left over; whenever the
        loop ends at all, within some number of iterations. */
    method Run(hasStates: nat -> bool, ghost bound: nat)
      requires Valid() && EndsIn(env, Started(env, model, 0, hasStates), bound)
      modifies this, scripts, nodes
      ensures Valid() && model == PumpRest(env, After(env, Started(env, old(model), 0, hasStates), bound))
      ensures env.maxSteps > 0 ==> model == RunRegion(env, old(model), hasStates)
    {
      hide Linked, Iterate, Pump, Started;
      StartScripts(hasStates);
      ghost var r0, left := model, bound;
      if env.maxSteps > 0 { SameEnd(env, r0, bound); }
      var more := true;
      while more
        invariant Valid() && fresh(nodes - old(nodes))
        invariant more ==> EndsIn(env, model, left)
        invariant After(env, r0, bound) == if more then After(env, model, left) else model
        decreases more, left
      {
        more := Round();
        left := left - 1;
      }
      ghost var r1 := model;
      var some := true;
      while some
        invariant Valid() && fresh(nodes - old(nodes))
        invariant PumpRest(env, r1) == PumpRest(env, model)
        invariant !some ==> model.cmds == []
        decreases some, |cmds| - next
      {
        some := PumpCommand();
        if some { CountStep(); }
      }
    }

    /** init_script */
    method StartScript(i: nat, hasStates: bool)
      requires Valid() && i < |scripts|
      modifies this`model, this`nodes, scripts[i], nodes
      ensures Valid() && fresh(nodes - old(nodes))
      ensures var s := old(model).scripts[i];
              var d := env.defaultState(i);
              var cur := if d >= 0 then d else if s.cur < 0 && hasStates then 0 else s.cur;
              model == Put(old(model), i, Pushing(s.(cur := cur), STATE_ENTRY))
    {
      hide Linked;
      ViewOf(i);
      var cur := scripts[i].cur;
      var d := env.defaultState(i);
      if d >= 0 {
        cur := d;
      } else if cur < 0 && hasStates {
        cur := 0;
      }
      SetState(i, cur, scripts[i].pending);
      Push(i, STATE_ENTRY);
      assert model.scripts == old(model).scripts[i := Pushing(old(model).scripts[i].(cur := cur), STATE_ENTRY)];
    }

    method StartScripts(hasStates: nat -> bool)
      requires Valid()
      modifies this, scripts, nodes
      ensures Valid() && model == Started(env, old(model), 0, hasStates)
      ensures fresh(nodes - old(nodes))
    {
      hide Linked;
      var i := 0;
      while i < |scripts|
        invariant 0 <= i <= |scripts| && Valid() && fresh(nodes - old(nodes))
        invariant Started(env, old(model), 0, hasStates) == Started(env, model, i, hasStates)
      {
        StartScript(i, hasStates(i));
        i := i + 1;
      }
    }
  }
}
