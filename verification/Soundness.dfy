/** From the strict semantics, where an integer division by zero is a fault, to the
    emulator itself: until such a division happens the two agree, so well-typed handlers
    keep the type of every global. */
module Soundness {
  import opened Values
  import opened Ast
  import opened Semantics
  import opened Scoping
  import opened Typing

  function Lax(h: Host): Host { h.(strict := false) }

  /** The strict run did not stop at a division by zero. */
  predicate Clean<T>(r: R<T>) { r.Fault? ==> r.why != ZeroDivision }

  lemma {:induction false} EvalLax(p: Program, h: Host, e: Expr, st: Store, f: nat)
    requires Fits(p, st) && Clean(Eval(p, h, e, st, f))
    ensures Eval(p, Lax(h), e, st, f) == Eval(p, h, e, st, f)
    decreases f, e, 1
  {
    hide EvalBinary, EvalUnary, Resolve, StoreTo, PrefixStep, PostfixStep, FloatOf, MemberOf, CurrentOf, BindFrom, Exec;
    if e.E? {
      match e.kind
      case VecLit(_, _, _) => TupleLax(p, h, e, st, f);
      case RotLit(_, _, _, _) => TupleLax(p, h, e, st, f);
      case ListLit(items) => ItemsLax(p, h, items, 0, [], st, f);
      case CallExpr(_, _) => CallLax(p, h, e, st, f);
      case Member(b, _) => EvalLax(p, h, b, st, f);
      case Cast(_, inner) => EvalLax(p, h, inner, st, f);
      case Unary(op, inner) => if op != OP_INC && op != OP_DEC { EvalLax(p, h, inner, st, f); }
      case Binary(op, l, r) =>
        EvalLax(p, h, l, st, f);
        var a := Eval(p, h, l, st, f);
        if a.Done? && !(op == OP_LAND && !Truthy(a.v)) && !(op == OP_LOR && Truthy(a.v)) {
          EvalLax(p, h, r, a.st, f);
        }
      case Assign(_, _, r) => EvalLax(p, h, r, st, f);
      case _ =>
    }
  }

  lemma {:induction false} TupleLax(p: Program, h: Host, e: Expr, st: Store, f: nat)
    requires Fits(p, st) && e.E? && (e.kind.VecLit? || e.kind.RotLit?) && Clean(Eval(p, h, e, st, f))
    ensures Eval(p, Lax(h), e, st, f) == Eval(p, h, e, st, f)
    decreases f, e, 0
  {
    var k := e.kind;
    EvalLax(p, h, k.x, st, f);
    var a := Eval(p, h, k.x, st, f);
    if a.Done? {
      EvalLax(p, h, k.y, a.st, f);
      var b := Eval(p, h, k.y, a.st, f);
      if b.Done? {
        EvalLax(p, h, k.z, b.st, f);
        var c := Eval(p, h, k.z, b.st, f);
        if c.Done? && k.RotLit? { EvalLax(p, h, k.w, c.st, f); }
      }
    }
  }

  lemma {:induction false} CallLax(p: Program, h: Host, e: Expr, st: Store, f: nat)
    requires Fits(p, st) && e.E? && e.kind.CallExpr? && Clean(Eval(p, h, e, st, f))
    ensures Eval(p, Lax(h), e, st, f) == Eval(p, h, e, st, f)
    decreases f, e, 0
  {
    hide BindFrom, EvalFrom, Exec;
    var args := e.kind.args;
    var k := FindFunc(p.funcs, e.kind.fn);
    if k >= 0 {
      ArgsLax(p, h, p.funcs[k].params, args, 0, [], st, f);
      var a := BindFrom(p, h, p.funcs[k].params, args, 0, [], st, f);
      if a.Done? && f > 0 { ExecLax(p, h, p.funcs[k].body, a.st.(locals := a.v), f - 1); }
    } else {
      ItemsLax(p, h, args, 0, [], st, f);
    }
  }

  lemma {:induction false} ItemsLax(p: Program, h: Host, es: seq<Expr>, i: nat, acc: seq<SValue>, st: Store, f: nat)
    requires Fits(p, st) && i <= |es| && |acc| == i && Clean(EvalFrom(p, h, es, i, acc, st, f))
    ensures EvalFrom(p, Lax(h), es, i, acc, st, f) == EvalFrom(p, h, es, i, acc, st, f)
    decreases f, es, |es| - i
  {
    if i < |es| {
      EvalLax(p, h, es[i], st, f);
      var a := Eval(p, h, es[i], st, f);
      if a.Done? { ItemsLax(p, h, es, i + 1, acc + [a.v], a.st, f); }
    }
  }

  lemma {:induction false} ArgsLax(p: Program, h: Host, ps: seq<Param>, es: seq<Expr>, i: nat, acc: seq<Var>,
                                   st: Store, f: nat)
    requires Fits(p, st) && i <= |es| && Clean(BindFrom(p, h, ps, es, i, acc, st, f))
    ensures BindFrom(p, Lax(h), ps, es, i, acc, st, f) == BindFrom(p, h, ps, es, i, acc, st, f)
    decreases f, es, |es| - i
  {
    if i < |ps| && i < |es| {
      EvalLax(p, h, es[i], st, f);
      var a := Eval(p, h, es[i], st, f);
      if a.Done? { ArgsLax(p, h, ps, es, i + 1, acc + [Var(ps[i].name, Coerce(a.v, ps[i].ty))], a.st, f); }
    }
  }

  lemma {:induction false} ExecLax(p: Program, h: Host, s: Stmt, st: Store, f: nat)
    requires Fits(p, st) && Clean(Exec(p, h, s, st, f))
    ensures Exec(p, Lax(h), s, st, f) == Exec(p, h, s, st, f)
    decreases f, s, LOOP_CAP + 1
  {
    hide Eval;
    if s.S? {
      match s.kind
      case ExprStmt(e) => EvalLax(p, h, e, st, f);
      case Decl(_, _, init) => EvalLax(p, h, init, st, f);
      case Return(has, e) => if has != 0 { EvalLax(p, h, e, st, f); }
      case Block(stmts) => SeqLax(p, h, stmts, 0, st, f);
      case If(cond, thn, els) =>
        EvalLax(p, h, cond, st, f);
        var c := Eval(p, h, cond, st, f);
        if c.Done? { ExecLax(p, h, if Truthy(c.v) then thn else els, c.st, f); }
      case While(_, _) => LoopLax(p, h, s, LOOP_CAP, st, f);
      case Do(_, _) => DoLax(p, h, s, LOOP_CAP, st, f);
      case For(init, _, _, _) =>
        ItemsLax(p, h, init, 0, [], st, f);
        var a := EvalFrom(p, h, init, 0, [], st, f);
        if a.Done? { LoopLax(p, h, s, LOOP_CAP, a.st, f); }
      case _ =>
    }
  }

  lemma {:induction false} SeqLax(p: Program, h: Host, blk: seq<Stmt>, i: nat, st: Store, f: nat)
    requires Fits(p, st) && i <= |blk| && Clean(ExecSeq(p, h, blk, i, st, f))
    ensures ExecSeq(p, Lax(h), blk, i, st, f) == ExecSeq(p, h, blk, i, st, f)
    decreases f, blk, |blk| - i
  {
    hide Eval, Exec;
    if i < |blk| {
      ExecLax(p, h, blk[i], st, f);
      var a := Exec(p, h, blk[i], st, f);
      if a.Done? {
        if a.v.Normal? {
          SeqLax(p, h, blk, i + 1, a.st, f);
        } else if a.v.Jumping? && FindLabel(blk, a.v.target) >= 0 {
          var k := FindLabel(blk, a.v.target);
          if k >= i { SeqLax(p, h, blk, k + 1, a.st, f); } else if f > 0 { SeqLax(p, h, blk, k + 1, a.st, f - 1); }
        }
      }
    }
  }

  lemma {:induction false} LoopLax(p: Program, h: Host, s: Stmt, n: nat, st: Store, f: nat)
    requires s.S? && (s.kind.While? || s.kind.For?) && Fits(p, st) && n <= LOOP_CAP
    requires Clean(ExecLoop(p, h, s, n, st, f))
    ensures ExecLoop(p, Lax(h), s, n, st, f) == ExecLoop(p, h, s, n, st, f)
    decreases f, s, n
  {
    hide Eval, Exec;
    if n > 0 {
      EvalLax(p, h, s.kind.cond, st, f);
      var c := Eval(p, h, s.kind.cond, st, f);
      if c.Done? && (Truthy(c.v) || (s.kind.For? && s.kind.cond.ENull?)) {
        ExecLax(p, h, s.kind.body, c.st, f);
        var b := Exec(p, h, s.kind.body, c.st, f);
        if b.Done? && b.v.Normal? {
          if s.kind.While? {
            LoopLax(p, h, s, n - 1, b.st, f);
          } else {
            ItemsLax(p, h, s.kind.post, 0, [], b.st, f);
            var d := EvalFrom(p, h, s.kind.post, 0, [], b.st, f);
            if d.Done? { LoopLax(p, h, s, n - 1, d.st, f); }
          }
        }
      }
    }
  }

  lemma {:induction false} DoLax(p: Program, h: Host, s: Stmt, n: nat, st: Store, f: nat)
    requires s.S? && s.kind.Do? && Fits(p, st) && n <= LOOP_CAP
    requires Clean(ExecDo(p, h, s, n, st, f))
    ensures ExecDo(p, Lax(h), s, n, st, f) == ExecDo(p, h, s, n, st, f)
    decreases f, s, n
  {
    hide Eval, Exec;
    if n > 0 {
      ExecLax(p, h, s.kind.body, st, f);
      var b := Exec(p, h, s.kind.body, st, f);
      if b.Done? && b.v.Normal? {
        EvalLax(p, h, s.kind.cond, b.st, f);
        var c := Eval(p, h, s.kind.cond, b.st, f);
        if c.Done? && Truthy(c.v) { DoLax(p, h, s, n - 1, c.st, f); }
      }
    }
  }

  // ----- handlers of the emulator -----

  /** The handler divides no integer by zero on this run. */
  predicate NoZeroDivision(p: Program, h: Host, ev: EventDecl, args: seq<SValue>, st: Store, f: nat)
    requires Fits(p, st)
  {
    Clean(Dispatch(p, h.(strict := true), ev, args, st, f))
  }

  ghost predicate HandlerOk(p: Program, h: Host, sig: Sig, ev: EventDecl) {
    && (forall i :: 0 <= i < |ev.params| ==> IsCellTy(ev.params[i].ty))
    && SOk(p, h, sig, ParamShape(p, ev.params), ev.body, VOID)
  }

  /** Type preservation for the emulator: a well-typed handler, given arguments of its
      parameter types, never writes through a null cell, and every global keeps its
      declared type unless the run divides an integer by zero. */
  lemma HandlersKeepTypes(p: Program, h: Host, sig: Sig, ev: EventDecl, args: seq<SValue>, st: Store, f: nat)
    requires !h.strict && ProgOk(p, h.(strict := true), sig)
    requires HandlerOk(p, h.(strict := true), sig, ev)
    requires Fits(p, st) && st.pending < 0 && SameTypes(GlobalShape(p), st.(locals := []))
    requires |args| == |ev.params|
    requires forall i :: 0 <= i < |args| ==> CoerceTag(Tag(args[i]), ev.params[i].ty) == ev.params[i].ty
    requires NoZeroDivision(p, h, ev, args, st, f)
    ensures var r := Dispatch(p, h, ev, args, st, f);
            !r.Fault? && (r.Done? ==> SameTypes(GlobalShape(p), r.st.(locals := [])))
  {
    hide SOk, Exec, ProgOk, SameTypes, Shape, BindArgs;
    var h' := h.(strict := true);
    var st0 := st.(locals := BindArgs(ev.params, args));
    ProperGlobals(p, h', sig);
    HandlerEntry(p, ev, args, st);
    ExecTyped(p, h', sig, ParamShape(p, ev.params), ev.body, VOID, st0, f);
    ExecLax(p, h', ev.body, st0, f);
    assert Lax(h') == h;
    var r := Exec(p, h', ev.body, st0, f);
    if r.Done? { GlobalsOnly(p, ev, r.st); }
  }

  lemma ProperGlobals(p: Program, h: Host, sig: Sig)
    requires ProgOk(p, h, sig)
    ensures forall i :: 0 <= i < |p.globals| ==> IsCellTy(p.globals[i].ty)
  {
  }

  lemma HandlerEntry(p: Program, ev: EventDecl, args: seq<SValue>, st: Store)
    requires Fits(p, st) && SameTypes(GlobalShape(p), st.(locals := []))
    requires forall i :: 0 <= i < |p.globals| ==> IsCellTy(p.globals[i].ty)
    requires forall i :: 0 <= i < |ev.params| ==> IsCellTy(ev.params[i].ty)
    requires |args| == |ev.params|
    requires forall i :: 0 <= i < |args| ==> CoerceTag(Tag(args[i]), ev.params[i].ty) == ev.params[i].ty
    ensures EnvOf(p, ParamShape(p, ev.params))
    ensures SameTypes(ParamShape(p, ev.params), st.(locals := BindArgs(ev.params, args)))
  {
    var vars := BindArgs(ev.params, args);
    forall i | 0 <= i < |args|
      ensures vars[i].name == ev.params[i].name && Tag(vars[i].val) == ev.params[i].ty
    {
      CoerceHasTag(args[i], ev.params[i].ty);
    }
  }

  lemma GlobalsOnly(p: Program, ev: EventDecl, st: Store)
    requires SameTypes(After(ParamShape(p, ev.params), ev.body), st)
    ensures SameTypes(GlobalShape(p), st.(locals := []))
  {
  }

  /** The condition is needed: `x = 1 / 0` leaves a float in the integer variable x. */
  lemma ZeroDivisionChangesType(p: Program, h: Host, n: int, st: Store, c: Loc)
    requires Fits(p, st) && !h.strict
    requires Resolve(p, Named(n), st) == Cell(c) && Read(st, c).Int?
    ensures var one, zero := E(0, 0, IntLit(1)), E(0, 0, IntLit(0));
            var e := E(0, 0, Assign(OP_ASSIGN, Named(n), E(0, 0, Binary(OP_SLASH, one, zero))));
            var r := Eval(p, h, e, st, 0);
            r.Done? && Read(r.st, c) == Float(0.0)
  {
    var one, zero := E(0, 0, IntLit(1)), E(0, 0, IntLit(0));
    var q := E(0, 0, Binary(OP_SLASH, one, zero));
    assert Eval(p, h, q, st, 0) == Done(Float(0.0), st);
  }
}
