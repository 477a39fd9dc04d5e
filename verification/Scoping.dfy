/** What running code can and cannot do to a frame, to lvalue cells and to the
    requested state. */
module Scoping {
  import opened Values
  import opened Ast
  import opened Semantics

  // ----- cells -----

  /** Lookup depends on the names of the bindings only. */
  lemma {:induction false} FindLocalByNames(a: seq<Var>, b: seq<Var>, name: int)
    requires |a| == |b| && Keeps(a, b)
    ensures FindLocal(a, name) == FindLocal(b, name)
  {
    if a != [] && a[|a| - 1].name != name {
      FindLocalByNames(a[..|a| - 1], b[..|b| - 1], name);
    }
  }

  /** A cell resolved in one store is the cell of the same variable in every store with
      the same layout. */
  lemma {:induction false} ResolveStable(p: Program, e: Expr, a: Store, b: Store)
    requires Fits(p, a) && SameLayout(a, b)
    ensures Resolve(p, e, a) == Resolve(p, e, b)
    decreases e
  {
    match e
    case E(_, _, Ident(n)) => FindLocalByNames(a.locals, b.locals, n);
    case E(_, _, Member(base, _)) => ResolveStable(p, base, a, b);
    case _ =>
  }

  function Named(n: int): Expr { E(0, 1, Ident(n)) }

  /** After `n = r`, whatever `r` ran, the variable n reads as the value assigned. */
  lemma AssignThenRead(p: Program, h: Host, ty: int, lv: int, n: int, r: Expr, st: Store, fuel: nat)
    requires Fits(p, st) && !Resolve(p, Named(n), st).NoCell?
    requires Eval(p, h, E(ty, lv, Assign(OP_ASSIGN, Named(n), r)), st, fuel).Done?
    ensures var d := Eval(p, h, E(ty, lv, Assign(OP_ASSIGN, Named(n), r)), st, fuel);
            ReadName(p, h, n, d.st) == d.v
  {
    var rhs := Eval(p, h, r, st, fuel);
    var d := Eval(p, h, E(ty, lv, Assign(OP_ASSIGN, Named(n), r)), st, fuel);
    ResolveStable(p, Named(n), st, rhs.st);
    ResolveStable(p, Named(n), st, d.st);
  }

  /** No cell but the one assigned to is changed by the store itself: the others are as
      the right-hand side left them. */
  lemma AssignChangesOneCell(p: Program, h: Host, e: Expr, st: Store, fuel: nat, c: Loc)
    requires Fits(p, st) && e.E? && e.kind.Assign? && Eval(p, h, e, st, fuel).Done?
    requires LocOk(st, c) && (Resolve(p, e.kind.l, st).NoCell? || Resolve(p, e.kind.l, st).loc != c)
    ensures Eval(p, h, e.kind.r, st, fuel).Done?
    ensures Read(Eval(p, h, e, st, fuel).st, c) == Read(Eval(p, h, e.kind.r, st, fuel).st, c)
  {
    var lv := Resolve(p, e.kind.l, st);
    var rhs := Eval(p, h, e.kind.r, st, fuel);
    assert LocOk(rhs.st, c);
  }

  // ----- a callee and its caller's variables -----

  /** No assignment, `++` or `--` occurs in the expression itself. */
  predicate WriteFree(e: Expr) {
    match e
    case ENull => true
    case E(_, _, k) =>
      match k
      case IntLit(_) => true
      case FloatLit(_) => true
      case StrLit(_) => true
      case Ident(_) => true
      case VecLit(x, y, z) => WriteFree(x) && WriteFree(y) && WriteFree(z)
      case RotLit(x, y, z, w) => WriteFree(x) && WriteFree(y) && WriteFree(z) && WriteFree(w)
      case ListLit(items) => forall i :: 0 <= i < |items| ==> WriteFree(items[i])
      case CallExpr(_, args) => forall i :: 0 <= i < |args| ==> WriteFree(args[i])
      case Member(b, _) => WriteFree(b)
      case Cast(_, inner) => WriteFree(inner)
      case Unary(op, inner) => op != OP_INC && op != OP_DEC && WriteFree(inner)
      case Postfix(_, _) => false
      case Binary(_, l, r) => WriteFree(l) && WriteFree(r)
      case Assign(_, _, _) => false
  }

  /** Whatever the functions it calls do, such an expression leaves every local of the
      calling frame as it was. */
  lemma {:induction false} CalleesCannotWriteLocals(p: Program, h: Host, e: Expr, st: Store, fuel: nat)
    requires Fits(p, st) && WriteFree(e)
    ensures var r := Eval(p, h, e, st, fuel); r.Done? ==> r.st.locals == st.locals
    decreases e, 0
  {
    if e.E? {
      match e.kind
      case VecLit(x, y, z) =>
        CalleesCannotWriteLocals(p, h, x, st, fuel);
        var a := Eval(p, h, x, st, fuel);
        if a.Done? {
          CalleesCannotWriteLocals(p, h, y, a.st, fuel);
          var b := Eval(p, h, y, a.st, fuel);
          if b.Done? { CalleesCannotWriteLocals(p, h, z, b.st, fuel); }
        }
      case RotLit(x, y, z, w) =>
        CalleesCannotWriteLocals(p, h, x, st, fuel);
        var a := Eval(p, h, x, st, fuel);
        if a.Done? {
          CalleesCannotWriteLocals(p, h, y, a.st, fuel);
          var b := Eval(p, h, y, a.st, fuel);
          if b.Done? {
            CalleesCannotWriteLocals(p, h, z, b.st, fuel);
            var c := Eval(p, h, z, b.st, fuel);
            if c.Done? { CalleesCannotWriteLocals(p, h, w, c.st, fuel); }
          }
        }
      case ListLit(items) => ItemsCannotWriteLocals(p, h, items, 0, [], st, fuel);
      case CallExpr(fn, args) =>
        var k := FindFunc(p.funcs, fn);
        if k >= 0 {
          ArgsCannotWriteLocals(p, h, p.funcs[k].params, args, 0, [], st, fuel);
        } else {
          ItemsCannotWriteLocals(p, h, args, 0, [], st, fuel);
        }
      case Member(b, _) => CalleesCannotWriteLocals(p, h, b, st, fuel);
      case Cast(_, inner) => CalleesCannotWriteLocals(p, h, inner, st, fuel);
      case Unary(_, inner) => CalleesCannotWriteLocals(p, h, inner, st, fuel);
      case Binary(_, l, r) =>
        CalleesCannotWriteLocals(p, h, l, st, fuel);
        var a := Eval(p, h, l, st, fuel);
        if a.Done? { CalleesCannotWriteLocals(p, h, r, a.st, fuel); }
      case _ =>
    }
  }

  lemma {:induction false} ItemsCannotWriteLocals(p: Program, h: Host, es: seq<Expr>, i: nat, acc: seq<SValue>,
                                                  st: Store, fuel: nat)
    requires Fits(p, st) && i <= |es| && |acc| == i
    requires forall j :: 0 <= j < |es| ==> WriteFree(es[j])
    ensures var r := EvalFrom(p, h, es, i, acc, st, fuel); r.Done? ==> r.st.locals == st.locals
    decreases es, |es| - i
  {
    if i < |es| {
      CalleesCannotWriteLocals(p, h, es[i], st, fuel);
      var a := Eval(p, h, es[i], st, fuel);
      if a.Done? { ItemsCannotWriteLocals(p, h, es, i + 1, acc + [a.v], a.st, fuel); }
    }
  }

  lemma {:induction false} ArgsCannotWriteLocals(p: Program, h: Host, ps: seq<Param>, es: seq<Expr>, i: nat,
                                                 acc: seq<Var>, st: Store, fuel: nat)
    requires Fits(p, st) && i <= |es|
    requires forall j :: 0 <= j < |es| ==> WriteFree(es[j])
    ensures var r := BindFrom(p, h, ps, es, i, acc, st, fuel); r.Done? ==> r.st.locals == st.locals
    decreases es, |es| - i
  {
    if i < |ps| && i < |es| {
      CalleesCannotWriteLocals(p, h, es[i], st, fuel);
      var a := Eval(p, h, es[i], st, fuel);
      if a.Done? {
        ArgsCannotWriteLocals(p, h, ps, es, i + 1, acc + [Var(ps[i].name, Coerce(a.v, ps[i].ty))], a.st, fuel);
      }
    }
  }

  // ----- jumps -----

  /** The statement may be left by a jump to the label. */
  predicate MayJump(s: Stmt, l: int) {
    match s
    case SNull => false
    case S(_, k) =>
      match k
      case Jump(t) => t == l
      case If(_, thn, els) => MayJump(thn, l) || MayJump(els, l)
      case While(_, body) => MayJump(body, l)
      case Do(body, _) => MayJump(body, l)
      case For(_, _, _, body) => MayJump(body, l)
      case Block(stmts) => FindLabel(stmts, l) < 0 && exists i :: 0 <= i < |stmts| && MayJump(stmts[i], l)
      case _ => false
  }

  /** A jump leaves a statement only toward a label the statement names in a `jump` and
      does not itself hold: the nearest enclosing block with the label catches it. */
  lemma {:induction false} JumpsLeaveByName(p: Program, h: Host, s: Stmt, st: Store, fuel: nat)
    requires Fits(p, st)
    ensures var r := Exec(p, h, s, st, fuel); r.Done? && r.v.Jumping? ==> MayJump(s, r.v.target)
    decreases fuel, s, LOOP_CAP + 1
  {
    hide Eval;
    if s.S? {
      match s.kind
      case Block(stmts) => SeqJumpsLeaveByName(p, h, stmts, 0, st, fuel);
      case If(cond, thn, els) =>
        var c := Eval(p, h, cond, st, fuel);
        if c.Done? { JumpsLeaveByName(p, h, if Truthy(c.v) then thn else els, c.st, fuel); }
      case While(_, _) => LoopJumpsLeaveByName(p, h, s, LOOP_CAP, st, fuel);
      case Do(_, _) => DoJumpsLeaveByName(p, h, s, LOOP_CAP, st, fuel);
      case For(init, _, _, _) =>
        var a := EvalFrom(p, h, init, 0, [], st, fuel);
        if a.Done? { LoopJumpsLeaveByName(p, h, s, LOOP_CAP, a.st, fuel); }
      case _ =>
    }
  }

  lemma {:induction false} SeqJumpsLeaveByName(p: Program, h: Host, blk: seq<Stmt>, i: nat, st: Store, fuel: nat)
    requires Fits(p, st) && i <= |blk|
    ensures var r := ExecSeq(p, h, blk, i, st, fuel);
            r.Done? && r.v.Jumping? ==>
              FindLabel(blk, r.v.target) < 0 && exists j :: 0 <= j < |blk| && MayJump(blk[j], r.v.target)
    decreases fuel, blk, |blk| - i
  {
    hide Eval, Exec;
    if i < |blk| {
      JumpsLeaveByName(p, h, blk[i], st, fuel);
      var a := Exec(p, h, blk[i], st, fuel);
      if a.Done? {
        if a.v.Normal? {
          SeqJumpsLeaveByName(p, h, blk, i + 1, a.st, fuel);
        } else if a.v.Jumping? && FindLabel(blk, a.v.target) >= 0 {
          var k := FindLabel(blk, a.v.target);
          if k >= i {
            SeqJumpsLeaveByName(p, h, blk, k + 1, a.st, fuel);
          } else if fuel > 0 {
            SeqJumpsLeaveByName(p, h, blk, k + 1, a.st, fuel - 1);
          }
        }
      }
    }
  }

  lemma {:induction false} LoopJumpsLeaveByName(p: Program, h: Host, s: Stmt, n: nat, st: Store, fuel: nat)
    requires s.S? && (s.kind.While? || s.kind.For?) && Fits(p, st) && n <= LOOP_CAP
    ensures var r := ExecLoop(p, h, s, n, st, fuel); r.Done? && r.v.Jumping? ==> MayJump(s.kind.body, r.v.target)
    decreases fuel, s, n
  {
    hide Eval, Exec;
    if n > 0 {
      var c := Eval(p, h, s.kind.cond, st, fuel);
      if c.Done? {
        JumpsLeaveByName(p, h, s.kind.body, c.st, fuel);
        var b := Exec(p, h, s.kind.body, c.st, fuel);
        if b.Done? && s.kind.While? {
          LoopJumpsLeaveByName(p, h, s, n - 1, b.st, fuel);
        } else if b.Done? {
          var d := EvalFrom(p, h, s.kind.post, 0, [], b.st, fuel);
          if d.Done? { LoopJumpsLeaveByName(p, h, s, n - 1, d.st, fuel); }
        }
      }
    }
  }

  lemma {:induction false} DoJumpsLeaveByName(p: Program, h: Host, s: Stmt, n: nat, st: Store, fuel: nat)
    requires s.S? && s.kind.Do? && Fits(p, st) && n <= LOOP_CAP
    ensures var r := ExecDo(p, h, s, n, st, fuel); r.Done? && r.v.Jumping? ==> MayJump(s.kind.body, r.v.target)
    decreases fuel, s, n
  {
    hide Eval, Exec;
    if n > 0 {
      JumpsLeaveByName(p, h, s.kind.body, st, fuel);
      var b := Exec(p, h, s.kind.body, st, fuel);
      if b.Done? {
        var c := Eval(p, h, s.kind.cond, b.st, fuel);
        if c.Done? { DoJumpsLeaveByName(p, h, s, n - 1, c.st, fuel); }
      }
    }
  }
}
