/** Type soundness over whole runs of a script: its handlers one after the other, state
    changes included. */
module TypedRuns {
  import opened Values
  import opened Ast
  import opened Semantics
  import opened Requests
  import opened Typing
  import opened Soundness
  import opened Lifecycle

  function Strict(h: Host): Host { h.(strict := true) }

  /** Every global has its declared type. */
  predicate GlobalsTyped(p: Program, st: Store) {
    Fits(p, st) && SameTypes(GlobalShape(p), st.(locals := []))
  }

  /** The arguments coerce to the parameter types of the handler. */
  predicate ArgsFit(ev: EventDecl, args: seq<SValue>) {
    && |args| == |ev.params|
    && forall i :: 0 <= i < |args| ==> CoerceTag(Tag(args[i]), ev.params[i].ty) == ev.params[i].ty
  }

  /** Every handler for the event takes its arguments. */
  ghost predicate Taken(p: Program, ev: Happening) {
    forall cur :: HandlerOf(p, cur, ev.name).Handles? ==> ArgsFit(HandlerOf(p, cur, ev.name).ev, ev.args)
  }

  ghost predicate HandlersOk(p: Program, h: Host, sig: Sig) {
    forall cur, name :: HandlerOf(p, cur, name).Handles? ==> HandlerOk(p, h, sig, HandlerOf(p, cur, name).ev)
  }

  /** A script whose user functions and handlers are well-typed, and with no `state` in user
      functions and state_exit; state_exit takes no parameters. */
  ghost predicate ScriptOk(p: Program, h: Host, sig: Sig) {
    ProgOk(p, h, sig) && HandlersOk(p, h, sig) && QuietExits(p) && Taken(p, Happening(EXIT, []))
  }

  /** One handler, if the state has it. */
  lemma RunTyped(p: Program, h: Host, sig: Sig, hd: Handler, args: seq<SValue>, st: Store, f: nat)
    requires !h.strict && ProgOk(p, Strict(h), sig) && GlobalsTyped(p, st) && st.pending < 0
    requires hd.Handles? ==> HandlerOk(p, Strict(h), sig, hd.ev) && ArgsFit(hd.ev, args)
    requires Clean(RunHandler(p, Strict(h), hd, args, st, f))
    ensures var r := RunHandler(p, h, hd, args, st, f);
            && r == RunHandler(p, Strict(h), hd, args, st, f) && !r.Fault?
            && (r.Done? ==> GlobalsTyped(p, r.st))
  {
    hide Exec, ProgOk, HandlerOk, SameTypes, BindArgs;
    if hd.Handles? {
      HandlersKeepTypes(p, h, sig, hd.ev, args, st, f);
      ExecLax(p, Strict(h), hd.ev.body, st.(locals := BindArgs(hd.ev.params, args)), f);
      assert Lax(Strict(h)) == h;
    }
  }

  /** One event and the state change behind it. */
  lemma TurnTyped(p: Program, h: Host, sig: Sig, cur: int, ev: Happening, st: Store, f: nat)
    requires !h.strict && ScriptOk(p, Strict(h), sig) && Taken(p, ev) && GlobalsTyped(p, st) && st.pending < 0
    requires Clean(Turn(p, Strict(h), cur, ev, st, f))
    ensures var r := Turn(p, h, cur, ev, st, f);
            && r == Turn(p, Strict(h), cur, ev, st, f) && !r.Fault?
            && (r.Done? ==> GlobalsTyped(p, r.st) && r.st.pending < 0)
  {
    hide RunHandler, HandlerOf, ProgOk, HandlerOk, SameTypes, QuietExits, ArgsFit;
    RunTyped(p, h, sig, HandlerOf(p, cur, ev.name), ev.args, st, f);
    var a := RunHandler(p, h, HandlerOf(p, cur, ev.name), ev.args, st, f);
    if a.Done? && a.st.pending >= 0 {
      var s1 := a.st.(pending := -1);
      RequestTakenOff(p, a.st);
      RunTyped(p, h, sig, HandlerOf(p, cur, EXIT), [], s1, f);
      ExitAsksNothing(p, h, cur, s1, f);
    }
  }

  /** A request has no part in types. */
  lemma RequestTakenOff(p: Program, st: Store)
    requires GlobalsTyped(p, st)
    ensures GlobalsTyped(p, st.(pending := -1))
  {
  }

  lemma ExitAsksNothing(p: Program, h: Host, cur: int, st: Store, f: nat)
    requires QuietExits(p) && Fits(p, st)
    ensures var r := RunHandler(p, h, HandlerOf(p, cur, EXIT), [], st, f); r.Done? ==> r.st.pending == st.pending
  {
    hide Exec, HandlersOnly, HandlerOf;
    ExitsAreQuiet(p, cur);
    var hd := HandlerOf(p, cur, EXIT);
    if hd.Handles? { StatementsDoNotAsk(p, h, hd.ev.body, st.(locals := BindArgs(hd.ev.params, [])), f); }
  }

  /** Over a whole run of a well-typed script, whatever events come, every global keeps its
      declared type and nothing is written through a null cell, unless the run divides an
      integer by zero. */
  lemma {:induction false} RunsKeepTypes(p: Program, h: Host, sig: Sig, cur: int, evs: seq<Happening>, st: Store,
                                         f: nat)
    requires !h.strict && ScriptOk(p, Strict(h), sig) && GlobalsTyped(p, st) && st.pending < 0
    requires forall i :: 0 <= i < |evs| ==> Taken(p, evs[i])
    requires Clean(Turns(p, Strict(h), cur, evs, st, f))
    ensures var r := Turns(p, h, cur, evs, st, f);
            && r == Turns(p, Strict(h), cur, evs, st, f) && !r.Fault?
            && (r.Done? ==> GlobalsTyped(p, r.st) && r.st.pending < 0)
    decreases |evs|
  {
    hide Turn, ScriptOk, Taken, SameTypes;
    if evs != [] {
      TurnTyped(p, h, sig, cur, evs[0], st, f);
      var r := Turn(p, h, cur, evs[0], st, f);
      if r.Done? { RunsKeepTypes(p, h, sig, r.v, evs[1..], r.st, f); }
    }
  }
}
