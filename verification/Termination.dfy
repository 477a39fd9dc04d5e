/** Fuel is only a depth: more of it never changes a result, and programs whose user calls
    are acyclic and whose jumps all go forward never run out of it. */
module Termination {
  import opened Values
  import opened Ast
  import opened Semantics
  import opened Scoping

  // ----- a ranking of the user functions -----

  /** Every user function called in the expression has a rank below n. */
  predicate ECalls(p: Program, rank: seq<nat>, e: Expr, n: nat)
    requires |rank| == |p.funcs|
  {
    match e
    case ENull => true
    case E(_, _, k) =>
      match k
      case IntLit(_) => true
      case FloatLit(_) => true
      case StrLit(_) => true
      case Ident(_) => true
      case VecLit(x, y, z) => ECalls(p, rank, x, n) && ECalls(p, rank, y, n) && ECalls(p, rank, z, n)
      case RotLit(x, y, z, w) =>
        ECalls(p, rank, x, n) && ECalls(p, rank, y, n) && ECalls(p, rank, z, n) && ECalls(p, rank, w, n)
      case ListLit(items) => forall i :: 0 <= i < |items| ==> ECalls(p, rank, items[i], n)
      case CallExpr(fn, args) =>
        && (FindFunc(p.funcs, fn) >= 0 ==> rank[FindFunc(p.funcs, fn)] < n)
        && forall i :: 0 <= i < |args| ==> ECalls(p, rank, args[i], n)
      case Member(b, _) => ECalls(p, rank, b, n)
      case Cast(_, inner) => ECalls(p, rank, inner, n)
      case Unary(_, inner) => ECalls(p, rank, inner, n)
      case Postfix(_, inner) => ECalls(p, rank, inner, n)
      case Binary(_, l, r) => ECalls(p, rank, l, n) && ECalls(p, rank, r, n)
      case Assign(_, l, r) => ECalls(p, rank, l, n) && ECalls(p, rank, r, n)
  }

  predicate SCalls(p: Program, rank: seq<nat>, s: Stmt, n: nat)
    requires |rank| == |p.funcs|
  {
    match s
    case SNull => true
    case S(_, k) =>
      match k
      case ExprStmt(e) => ECalls(p, rank, e, n)
      case Decl(_, _, init) => ECalls(p, rank, init, n)
      case Block(stmts) => forall i :: 0 <= i < |stmts| ==> SCalls(p, rank, stmts[i], n)
      case If(cond, thn, els) => ECalls(p, rank, cond, n) && SCalls(p, rank, thn, n) && SCalls(p, rank, els, n)
      case While(cond, body) => ECalls(p, rank, cond, n) && SCalls(p, rank, body, n)
      case Do(body, cond) => ECalls(p, rank, cond, n) && SCalls(p, rank, body, n)
      case For(init, cond, post, body) =>
        && (forall i :: 0 <= i < |init| ==> ECalls(p, rank, init[i], n))
        && ECalls(p, rank, cond, n) && SCalls(p, rank, body, n)
        && (forall i :: 0 <= i < |post| ==> ECalls(p, rank, post[i], n))
      case Return(_, e) => ECalls(p, rank, e, n)
      case _ => true
  }

  /** In every block, a statement that may jump to a label of the block precedes it. */
  predicate ForwardOnly(s: Stmt) {
    match s
    case SNull => true
    case S(_, k) =>
      match k
      case Block(stmts) => ForwardBlock(stmts) && forall i :: 0 <= i < |stmts| ==> ForwardOnly(stmts[i])
      case If(_, thn, els) => ForwardOnly(thn) && ForwardOnly(els)
      case While(_, body) => ForwardOnly(body)
      case Do(body, _) => ForwardOnly(body)
      case For(_, _, _, body) => ForwardOnly(body)
      case _ => true
  }

  predicate ForwardBlock(stmts: seq<Stmt>) {
    forall i, k :: 0 <= k < i < |stmts| && stmts[k].S? && stmts[k].kind.Label? ==>
      !(MayJump(stmts[i], stmts[k].kind.target) && FindLabel(stmts, stmts[k].kind.target) == k)
  }

  /** No user function can reach itself: calls strictly lower the rank. */
  predicate Acyclic(p: Program, rank: seq<nat>) {
    |rank| == |p.funcs| &&
    forall k :: 0 <= k < |p.funcs| ==>
      SCalls(p, rank, p.funcs[k].body, rank[k]) && ForwardOnly(p.funcs[k].body)
  }

  // ----- termination -----

  /** The measure is (call rank, syntax, iterations left): with fuel above the rank of
      every function called, evaluation never runs out. */
  lemma {:induction false} EvalTerminates(p: Program, h: Host, rank: seq<nat>, e: Expr, st: Store, fuel: nat)
    requires Fits(p, st) && Acyclic(p, rank) && ECalls(p, rank, e, fuel)
    ensures !Eval(p, h, e, st, fuel).Halt?
    decreases fuel, e, 1
  {
    hide Acyclic, EvalBinary, EvalUnary, Resolve, StoreTo, Write, Bump, PostfixStep, FloatOf, MemberOf, CurrentOf,
         BindFrom, Exec;
    if e.E? {
      match e.kind
      case VecLit(_, _, _) => TupleTerminates(p, h, rank, e, st, fuel);
      case RotLit(_, _, _, _) => TupleTerminates(p, h, rank, e, st, fuel);
      case ListLit(items) => ItemsTerminate(p, h, rank, items, 0, [], st, fuel);
      case CallExpr(_, _) => CallTerminates(p, h, rank, e, st, fuel);
      case Member(b, _) => EvalTerminates(p, h, rank, b, st, fuel);
      case Cast(_, inner) => EvalTerminates(p, h, rank, inner, st, fuel);
      case Unary(_, inner) => EvalTerminates(p, h, rank, inner, st, fuel);
      case Binary(_, l, r) =>
        EvalTerminates(p, h, rank, l, st, fuel);
        var a := Eval(p, h, l, st, fuel);
        if a.Done? { EvalTerminates(p, h, rank, r, a.st, fuel); }
      case Assign(_, _, r) => EvalTerminates(p, h, rank, r, st, fuel);
      case _ =>
    }
  }

  lemma {:induction false} TupleTerminates(p: Program, h: Host, rank: seq<nat>, e: Expr, st: Store, fuel: nat)
    requires Fits(p, st) && Acyclic(p, rank) && ECalls(p, rank, e, fuel)
    requires e.E? && (e.kind.VecLit? || e.kind.RotLit?)
    ensures !Eval(p, h, e, st, fuel).Halt?
    decreases fuel, e, 0
  {
    hide Acyclic, FloatOf;
    var k := e.kind;
    EvalTerminates(p, h, rank, k.x, st, fuel);
    var a := Eval(p, h, k.x, st, fuel);
    if a.Done? {
      EvalTerminates(p, h, rank, k.y, a.st, fuel);
      var b := Eval(p, h, k.y, a.st, fuel);
      if b.Done? {
        EvalTerminates(p, h, rank, k.z, b.st, fuel);
        var c := Eval(p, h, k.z, b.st, fuel);
        if c.Done? && k.RotLit? { EvalTerminates(p, h, rank, k.w, c.st, fuel); }
      }
    }
  }

  lemma {:induction false} CallTerminates(p: Program, h: Host, rank: seq<nat>, e: Expr, st: Store, fuel: nat)
    requires Fits(p, st) && Acyclic(p, rank) && ECalls(p, rank, e, fuel) && e.E? && e.kind.CallExpr?
    ensures !Eval(p, h, e, st, fuel).Halt?
    decreases fuel, e, 0
  {
    hide BindFrom, EvalFrom, Exec;
    var args := e.kind.args;
    var k := FindFunc(p.funcs, e.kind.fn);
    if k >= 0 {
      ArgsTerminate(p, h, rank, p.funcs[k].params, args, 0, [], st, fuel);
      var a := BindFrom(p, h, p.funcs[k].params, args, 0, [], st, fuel);
      if a.Done? {
        SCallsUp(p, rank, p.funcs[k].body, rank[k], fuel - 1);
        ExecTerminates(p, h, rank, p.funcs[k].body, a.st.(locals := a.v), fuel - 1);
      }
    } else {
      ItemsTerminate(p, h, rank, args, 0, [], st, fuel);
    }
  }

  lemma {:induction false} ECallsUp(p: Program, rank: seq<nat>, e: Expr, n: nat, m: nat)
    requires |rank| == |p.funcs| && ECalls(p, rank, e, n) && n <= m
    ensures ECalls(p, rank, e, m)
  {
    if e.E? {
      match e.kind
      case VecLit(x, y, z) => ECallsUp(p, rank, x, n, m); ECallsUp(p, rank, y, n, m); ECallsUp(p, rank, z, n, m);
      case RotLit(x, y, z, w) =>
        ECallsUp(p, rank, x, n, m); ECallsUp(p, rank, y, n, m); ECallsUp(p, rank, z, n, m); ECallsUp(p, rank, w, n, m);
      case ListLit(items) => forall i | 0 <= i < |items| { ECallsUp(p, rank, items[i], n, m); }
      case CallExpr(_, args) => forall i | 0 <= i < |args| { ECallsUp(p, rank, args[i], n, m); }
      case Member(b, _) => ECallsUp(p, rank, b, n, m);
      case Cast(_, inner) => ECallsUp(p, rank, inner, n, m);
      case Unary(_, inner) => ECallsUp(p, rank, inner, n, m);
      case Postfix(_, inner) => ECallsUp(p, rank, inner, n, m);
      case Binary(_, l, r) => ECallsUp(p, rank, l, n, m); ECallsUp(p, rank, r, n, m);
      case Assign(_, l, r) => ECallsUp(p, rank, l, n, m); ECallsUp(p, rank, r, n, m);
      case _ =>
    }
  }

  lemma {:induction false} SCallsUp(p: Program, rank: seq<nat>, s: Stmt, n: nat, m: nat)
    requires |rank| == |p.funcs| && SCalls(p, rank, s, n) && n <= m
    ensures SCalls(p, rank, s, m)
  {
    if s.S? {
      match s.kind
      case ExprStmt(e) => ECallsUp(p, rank, e, n, m);
      case Decl(_, _, init) => ECallsUp(p, rank, init, n, m);
      case Block(stmts) => forall i | 0 <= i < |stmts| { SCallsUp(p, rank, stmts[i], n, m); }
      case If(cond, thn, els) =>
        ECallsUp(p, rank, cond, n, m);
        SCallsUp(p, rank, thn, n, m);
        SCallsUp(p, rank, els, n, m);
      case While(cond, body) => ECallsUp(p, rank, cond, n, m); SCallsUp(p, rank, body, n, m);
      case Do(body, cond) => ECallsUp(p, rank, cond, n, m); SCallsUp(p, rank, body, n, m);
      case For(init, cond, post, body) =>
        forall i | 0 <= i < |init| { ECallsUp(p, rank, init[i], n, m); }
        forall i | 0 <= i < |post| { ECallsUp(p, rank, post[i], n, m); }
        ECallsUp(p, rank, cond, n, m);
        SCallsUp(p, rank, body, n, m);
      case Return(_, e) => ECallsUp(p, rank, e, n, m);
      case _ =>
    }
  }

  lemma {:induction false} ItemsTerminate(p: Program, h: Host, rank: seq<nat>, es: seq<Expr>, i: nat,
                                          acc: seq<SValue>, st: Store, fuel: nat)
    requires Fits(p, st) && Acyclic(p, rank) && i <= |es| && |acc| == i
    requires forall j :: 0 <= j < |es| ==> ECalls(p, rank, es[j], fuel)
    ensures !EvalFrom(p, h, es, i, acc, st, fuel).Halt?
    decreases fuel, es, |es| - i
  {
    if i < |es| {
      EvalTerminates(p, h, rank, es[i], st, fuel);
      var a := Eval(p, h, es[i], st, fuel);
      if a.Done? { ItemsTerminate(p, h, rank, es, i + 1, acc + [a.v], a.st, fuel); }
    }
  }

  lemma {:induction false} ArgsTerminate(p: Program, h: Host, rank: seq<nat>, ps: seq<Param>, es: seq<Expr>, i: nat,
                                         acc: seq<Var>, st: Store, fuel: nat)
    requires Fits(p, st) && Acyclic(p, rank) && i <= |es|
    requires forall j :: 0 <= j < |es| ==> ECalls(p, rank, es[j], fuel)
    ensures !BindFrom(p, h, ps, es, i, acc, st, fuel).Halt?
    decreases fuel, es, |es| - i
  {
    if i < |ps| && i < |es| {
      EvalTerminates(p, h, rank, es[i], st, fuel);
      var a := Eval(p, h, es[i], st, fuel);
      if a.Done? {
        ArgsTerminate(p, h, rank, ps, es, i + 1, acc + [Var(ps[i].name, Coerce(a.v, ps[i].ty))], a.st, fuel);
      }
    }
  }

  lemma {:induction false} ExecTerminates(p: Program, h: Host, rank: seq<nat>, s: Stmt, st: Store, fuel: nat)
    requires Fits(p, st) && Acyclic(p, rank) && SCalls(p, rank, s, fuel) && ForwardOnly(s)
    ensures !Exec(p, h, s, st, fuel).Halt?
    decreases fuel, s, LOOP_CAP + 1
  {
    hide Eval;
    if s.S? {
      match s.kind
      case ExprStmt(e) => EvalTerminates(p, h, rank, e, st, fuel);
      case Decl(_, _, init) => EvalTerminates(p, h, rank, init, st, fuel);
      case Return(_, e) => EvalTerminates(p, h, rank, e, st, fuel);
      case Block(stmts) => SeqTerminates(p, h, rank, stmts, 0, st, fuel);
      case If(cond, thn, els) =>
        EvalTerminates(p, h, rank, cond, st, fuel);
        var c := Eval(p, h, cond, st, fuel);
        if c.Done? { ExecTerminates(p, h, rank, if Truthy(c.v) then thn else els, c.st, fuel); }
      case While(_, _) => LoopTerminates(p, h, rank, s, LOOP_CAP, st, fuel);
      case Do(_, _) => DoTerminates(p, h, rank, s, LOOP_CAP, st, fuel);
      case For(init, _, _, _) =>
        ItemsTerminate(p, h, rank, init, 0, [], st, fuel);
        var a := EvalFrom(p, h, init, 0, [], st, fuel);
        if a.Done? { LoopTerminates(p, h, rank, s, LOOP_CAP, a.st, fuel); }
      case _ =>
    }
  }

  lemma {:induction false} SeqTerminates(p: Program, h: Host, rank: seq<nat>, blk: seq<Stmt>, i: nat, st: Store,
                                         fuel: nat)
    requires Fits(p, st) && Acyclic(p, rank) && i <= |blk| && ForwardBlock(blk)
    requires forall j :: 0 <= j < |blk| ==> SCalls(p, rank, blk[j], fuel) && ForwardOnly(blk[j])
    ensures !ExecSeq(p, h, blk, i, st, fuel).Halt?
    decreases fuel, blk, |blk| - i
  {
    hide Eval, Exec;
    if i < |blk| {
      ExecTerminates(p, h, rank, blk[i], st, fuel);
      JumpsLeaveByName(p, h, blk[i], st, fuel);
      var a := Exec(p, h, blk[i], st, fuel);
      if a.Done? && a.v.Normal? {
        SeqTerminates(p, h, rank, blk, i + 1, a.st, fuel);
      } else if a.Done? && a.v.Jumping? && FindLabel(blk, a.v.target) >= 0 {
        var k := FindLabel(blk, a.v.target);
        assert IsLabel(blk[k], a.v.target);
        SeqTerminates(p, h, rank, blk, k + 1, a.st, fuel);
      }
    }
  }

  lemma {:induction false} LoopTerminates(p: Program, h: Host, rank: seq<nat>, s: Stmt, n: nat, st: Store, fuel: nat)
    requires s.S? && (s.kind.While? || s.kind.For?) && Fits(p, st) && n <= LOOP_CAP
    requires Acyclic(p, rank) && SCalls(p, rank, s, fuel) && ForwardOnly(s)
    ensures !ExecLoop(p, h, s, n, st, fuel).Halt?
    decreases fuel, s, n
  {
    hide Eval, Exec;
    if n > 0 {
      EvalTerminates(p, h, rank, s.kind.cond, st, fuel);
      var c := Eval(p, h, s.kind.cond, st, fuel);
      if c.Done? {
        ExecTerminates(p, h, rank, s.kind.body, c.st, fuel);
        var b := Exec(p, h, s.kind.body, c.st, fuel);
        if b.Done? && s.kind.While? {
          LoopTerminates(p, h, rank, s, n - 1, b.st, fuel);
        } else if b.Done? {
          ItemsTerminate(p, h, rank, s.kind.post, 0, [], b.st, fuel);
          var d := EvalFrom(p, h, s.kind.post, 0, [], b.st, fuel);
          if d.Done? { LoopTerminates(p, h, rank, s, n - 1, d.st, fuel); }
        }
      }
    }
  }

  lemma {:induction false} DoTerminates(p: Program, h: Host, rank: seq<nat>, s: Stmt, n: nat, st: Store, fuel: nat)
    requires s.S? && s.kind.Do? && Fits(p, st) && n <= LOOP_CAP
    requires Acyclic(p, rank) && SCalls(p, rank, s, fuel) && ForwardOnly(s)
    ensures !ExecDo(p, h, s, n, st, fuel).Halt?
    decreases fuel, s, n
  {
    hide Eval, Exec;
    if n > 0 {
      ExecTerminates(p, h, rank, s.kind.body, st, fuel);
      var b := Exec(p, h, s.kind.body, st, fuel);
      if b.Done? {
        EvalTerminates(p, h, rank, s.kind.cond, b.st, fuel);
        var c := Eval(p, h, s.kind.cond, b.st, fuel);
        if c.Done? { DoTerminates(p, h, rank, s, n - 1, c.st, fuel); }
      }
    }
  }

  // ----- fuel does not matter -----

  /** A run that ends with some fuel ends in the same way with any larger amount. */
  lemma {:induction false} EvalFuel(p: Program, h: Host, e: Expr, st: Store, f: nat, g: nat)
    requires Fits(p, st) && f <= g && !Eval(p, h, e, st, f).Halt?
    ensures Eval(p, h, e, st, g) == Eval(p, h, e, st, f)
    decreases f, e, 1
  {
    hide EvalBinary, EvalUnary, Resolve, StoreTo, PrefixStep, PostfixStep, FloatOf, MemberOf, CurrentOf, BindFrom, Exec;
    if e.E? {
      match e.kind
      case VecLit(_, _, _) => TupleFuel(p, h, e, st, f, g);
      case RotLit(_, _, _, _) => TupleFuel(p, h, e, st, f, g);
      case ListLit(items) => ItemsFuel(p, h, items, 0, [], st, f, g);
      case CallExpr(_, _) => CallFuel(p, h, e, st, f, g);
      case Member(b, _) => EvalFuel(p, h, b, st, f, g);
      case Cast(_, inner) => EvalFuel(p, h, inner, st, f, g);
      case Unary(op, inner) => if op != OP_INC && op != OP_DEC { EvalFuel(p, h, inner, st, f, g); }
      case Binary(op, l, r) =>
        EvalFuel(p, h, l, st, f, g);
        var a := Eval(p, h, l, st, f);
        if a.Done? && !(op == OP_LAND && !Truthy(a.v)) && !(op == OP_LOR && Truthy(a.v)) {
          EvalFuel(p, h, r, a.st, f, g);
        }
      case Assign(_, _, r) => EvalFuel(p, h, r, st, f, g);
      case _ =>
    }
  }

  lemma {:induction false} TupleFuel(p: Program, h: Host, e: Expr, st: Store, f: nat, g: nat)
    requires Fits(p, st) && f <= g && !Eval(p, h, e, st, f).Halt? && e.E? && (e.kind.VecLit? || e.kind.RotLit?)
    ensures Eval(p, h, e, st, g) == Eval(p, h, e, st, f)
    decreases f, e, 0
  {
    hide FloatOf;
    var k := e.kind;
    EvalFuel(p, h, k.x, st, f, g);
    var a := Eval(p, h, k.x, st, f);
    if a.Done? {
      EvalFuel(p, h, k.y, a.st, f, g);
      var b := Eval(p, h, k.y, a.st, f);
      if b.Done? {
        EvalFuel(p, h, k.z, b.st, f, g);
        var c := Eval(p, h, k.z, b.st, f);
        if c.Done? && k.RotLit? { EvalFuel(p, h, k.w, c.st, f, g); }
      }
    }
  }

  lemma {:induction false} CallFuel(p: Program, h: Host, e: Expr, st: Store, f: nat, g: nat)
    requires Fits(p, st) && f <= g && !Eval(p, h, e, st, f).Halt? && e.E? && e.kind.CallExpr?
    ensures Eval(p, h, e, st, g) == Eval(p, h, e, st, f)
    decreases f, e, 0
  {
    hide BindFrom, EvalFrom, Exec;
    var args := e.kind.args;
    var k := FindFunc(p.funcs, e.kind.fn);
    if k >= 0 {
      ArgsFuel(p, h, p.funcs[k].params, args, 0, [], st, f, g);
      var a := BindFrom(p, h, p.funcs[k].params, args, 0, [], st, f);
      if a.Done? { ExecFuel(p, h, p.funcs[k].body, a.st.(locals := a.v), f - 1, g - 1); }
    } else {
      ItemsFuel(p, h, args, 0, [], st, f, g);
    }
  }

  lemma {:induction false} ItemsFuel(p: Program, h: Host, es: seq<Expr>, i: nat, acc: seq<SValue>, st: Store, f: nat,
                                     g: nat)
    requires Fits(p, st) && f <= g && i <= |es| && |acc| == i && !EvalFrom(p, h, es, i, acc, st, f).Halt?
    ensures EvalFrom(p, h, es, i, acc, st, g) == EvalFrom(p, h, es, i, acc, st, f)
    decreases f, es, |es| - i
  {
    if i < |es| {
      EvalFuel(p, h, es[i], st, f, g);
      var a := Eval(p, h, es[i], st, f);
      if a.Done? { ItemsFuel(p, h, es, i + 1, acc + [a.v], a.st, f, g); }
    }
  }

  lemma {:induction false} ArgsFuel(p: Program, h: Host, ps: seq<Param>, es: seq<Expr>, i: nat, acc: seq<Var>,
                                    st: Store, f: nat, g: nat)
    requires Fits(p, st) && f <= g && i <= |es| && !BindFrom(p, h, ps, es, i, acc, st, f).Halt?
    ensures BindFrom(p, h, ps, es, i, acc, st, g) == BindFrom(p, h, ps, es, i, acc, st, f)
    decreases f, es, |es| - i
  {
    if i < |ps| && i < |es| {
      EvalFuel(p, h, es[i], st, f, g);
      var a := Eval(p, h, es[i], st, f);
      if a.Done? { ArgsFuel(p, h, ps, es, i + 1, acc + [Var(ps[i].name, Coerce(a.v, ps[i].ty))], a.st, f, g); }
    }
  }

  lemma {:induction false} ExecFuel(p: Program, h: Host, s: Stmt, st: Store, f: nat, g: nat)
    requires Fits(p, st) && f <= g && !Exec(p, h, s, st, f).Halt?
    ensures Exec(p, h, s, st, g) == Exec(p, h, s, st, f)
    decreases f, s, LOOP_CAP + 1
  {
    hide Eval;
    if s.S? {
      match s.kind
      case ExprStmt(e) => EvalFuel(p, h, e, st, f, g);
      case Decl(_, _, init) => EvalFuel(p, h, init, st, f, g);
      case Return(has, e) => if has != 0 { EvalFuel(p, h, e, st, f, g); }
      case Block(stmts) => SeqFuel(p, h, stmts, 0, st, f, g);
      case If(cond, thn, els) =>
        EvalFuel(p, h, cond, st, f, g);
        var c := Eval(p, h, cond, st, f);
        if c.Done? { ExecFuel(p, h, if Truthy(c.v) then thn else els, c.st, f, g); }
      case While(_, _) => LoopFuel(p, h, s, LOOP_CAP, st, f, g);
      case Do(_, _) => DoFuel(p, h, s, LOOP_CAP, st, f, g);
      case For(init, _, _, _) =>
        ItemsFuel(p, h, init, 0, [], st, f, g);
        var a := EvalFrom(p, h, init, 0, [], st, f);
        if a.Done? { LoopFuel(p, h, s, LOOP_CAP, a.st, f, g); }
      case _ =>
    }
  }

  lemma {:induction false} SeqFuel(p: Program, h: Host, blk: seq<Stmt>, i: nat, st: Store, f: nat, g: nat)
    requires Fits(p, st) && f <= g && i <= |blk| && !ExecSeq(p, h, blk, i, st, f).Halt?
    ensures ExecSeq(p, h, blk, i, st, g) == ExecSeq(p, h, blk, i, st, f)
    decreases f, blk, |blk| - i
  {
    hide Eval, Exec;
    if i < |blk| {
      ExecFuel(p, h, blk[i], st, f, g);
      var a := Exec(p, h, blk[i], st, f);
      if a.Done? {
        if a.v.Normal? {
          SeqFuel(p, h, blk, i + 1, a.st, f, g);
        } else if a.v.Jumping? && FindLabel(blk, a.v.target) >= 0 {
          var k := FindLabel(blk, a.v.target);
          if k >= i { SeqFuel(p, h, blk, k + 1, a.st, f, g); } else { SeqFuel(p, h, blk, k + 1, a.st, f - 1, g - 1); }
        }
      }
    }
  }

  lemma {:induction false} LoopFuel(p: Program, h: Host, s: Stmt, n: nat, st: Store, f: nat, g: nat)
    requires s.S? && (s.kind.While? || s.kind.For?) && Fits(p, st) && n <= LOOP_CAP
    requires f <= g && !ExecLoop(p, h, s, n, st, f).Halt?
    ensures ExecLoop(p, h, s, n, st, g) == ExecLoop(p, h, s, n, st, f)
    decreases f, s, n
  {
    hide Eval, Exec;
    if n > 0 {
      EvalFuel(p, h, s.kind.cond, st, f, g);
      var c := Eval(p, h, s.kind.cond, st, f);
      if c.Done? && (Truthy(c.v) || (s.kind.For? && s.kind.cond.ENull?)) {
        ExecFuel(p, h, s.kind.body, c.st, f, g);
        var b := Exec(p, h, s.kind.body, c.st, f);
        if b.Done? && b.v.Normal? {
          if s.kind.While? {
            LoopFuel(p, h, s, n - 1, b.st, f, g);
          } else {
            ItemsFuel(p, h, s.kind.post, 0, [], b.st, f, g);
            var d := EvalFrom(p, h, s.kind.post, 0, [], b.st, f);
            if d.Done? { LoopFuel(p, h, s, n - 1, d.st, f, g); }
          }
        }
      }
    }
  }

  lemma {:induction false} DoFuel(p: Program, h: Host, s: Stmt, n: nat, st: Store, f: nat, g: nat)
    requires s.S? && s.kind.Do? && Fits(p, st) && n <= LOOP_CAP
    requires f <= g && !ExecDo(p, h, s, n, st, f).Halt?
    ensures ExecDo(p, h, s, n, st, g) == ExecDo(p, h, s, n, st, f)
    decreases f, s, n
  {
    hide Eval, Exec;
    if n > 0 {
      ExecFuel(p, h, s.kind.body, st, f, g);
      var b := Exec(p, h, s.kind.body, st, f);
      if b.Done? && b.v.Normal? {
        EvalFuel(p, h, s.kind.cond, b.st, f, g);
        var c := Eval(p, h, s.kind.cond, b.st, f);
        if c.Done? && Truthy(c.v) { DoFuel(p, h, s, n - 1, c.st, f, g); }
      }
    }
  }

  // ----- whole handlers -----

  /** Every handler of such a program terminates, and with one result however much fuel
      above the ranks it is given. */
  lemma HandlersTerminate(p: Program, h: Host, rank: seq<nat>, ev: EventDecl, args: seq<SValue>, st: Store, f: nat,
                          g: nat)
    requires Fits(p, st) && Acyclic(p, rank) && f <= g
    requires SCalls(p, rank, ev.body, f) && ForwardOnly(ev.body)
    ensures !Dispatch(p, h, ev, args, st, f).Halt?
    ensures Dispatch(p, h, ev, args, st, g) == Dispatch(p, h, ev, args, st, f)
  {
    var st0 := st.(locals := BindArgs(ev.params, args));
    ExecTerminates(p, h, rank, ev.body, st0, f);
    ExecFuel(p, h, ev.body, st0, f, g);
  }
}
