/** A semantics of LSL programs in which outcomes alone decide what runs next. No request
    for a state change is stored anywhere: a `state` statement yields the outcome SwitchTo,
    and like a return it leaves every block and loop around it at once. Where no user
    function holds a `state` statement, and nothing is asked for at the start, the
    interpreter computes the same outcomes and stores; Lifecycle says when every handler
    of a run starts so. */
module Outcomes {
  import opened Values
  import opened Ast
  import opened Semantics
  import opened Requests

  /** What programs read and write. */
  datatype Memory = Memory(globals: seq<SValue>, locals: seq<Var>, calls: seq<Call>)

  datatype Outcome = Next | ReturnWith(v: SValue) | JumpTo(target: int) | SwitchTo(state: nat)

  datatype R<+T> = Ended(v: T, mem: Memory) | Exhausted | Failed(why: Why) {
    predicate IsFailure() { !Ended? }
    function PropagateFailure<U>(): R<U>
      requires !Ended?
    {
      if Exhausted? then Exhausted else Failed(why)
    }
    function Extract(): (T, Memory)
      requires Ended?
    {
      (v, mem)
    }
  }

  /** The memory as a store in which nothing is asked for. */
  function Full(m: Memory): Store { Store(m.globals, -1, m.locals, m.calls) }
  function Bare(st: Store): Memory { Memory(st.globals, st.locals, st.calls) }

  /** A step of the store that has nothing to do with state changes. */
  function Freed<T>(r: Semantics.R<T>): R<T> {
    match r
    case Done(v, st) => Ended(v, Bare(st))
    case Halt => Exhausted
    case Fault(w) => Failed(w)
  }

  predicate FitsIn(p: Program, m: Memory) { Fits(p, Full(m)) }

  // ----- expressions -----

  function Eval(p: Program, h: Host, e: Expr, m: Memory, fuel: nat): (r: R<SValue>)
    requires FitsIn(p, m)
    ensures r.Ended? ==> SameLayout(Full(m), Full(r.mem))
    decreases fuel, e, 0
  {
    match e
    case ENull => Ended(Void, m)
    case E(ty, _, k) =>
      match k
      case IntLit(i) => Ended(Int(i), m)
      case FloatLit(b) => Ended(Float(h.ofBits(b)), m)
      case StrLit(idx) => Ended(if ty == KEY then Key(PoolStr(p, idx)) else Str(PoolStr(p, idx)), m)
      case Ident(n) => Ended(ReadName(p, h, n, Full(m)), m)
      case VecLit(x, y, z) =>
        var (a, m1) :- Eval(p, h, x, m, fuel);
        var (b, m2) :- Eval(p, h, y, m1, fuel);
        var (c, m3) :- Eval(p, h, z, m2, fuel);
        Ended(Vec(FloatOf(h, a), FloatOf(h, b), FloatOf(h, c)), m3)
      case RotLit(x, y, z, w) =>
        var (a, m1) :- Eval(p, h, x, m, fuel);
        var (b, m2) :- Eval(p, h, y, m1, fuel);
        var (c, m3) :- Eval(p, h, z, m2, fuel);
        var (d, m4) :- Eval(p, h, w, m3, fuel);
        Ended(Rot(FloatOf(h, a), FloatOf(h, b), FloatOf(h, c), FloatOf(h, d)), m4)
      case ListLit(items) =>
        var (vs, m1) :- EvalFrom(p, h, items, 0, [], m, fuel);
        Ended(List(vs), m1)
      case CallExpr(fn, args) =>
        var k := FindFunc(p.funcs, fn);
        if k >= 0 then
          var fd := p.funcs[k];
          var (vars, m1) :- BindFrom(p, h, fd.params, args, 0, [], m, fuel);
          if fuel == 0 then Exhausted
          else
            var (o, m2) :- Exec(p, h, fd.body, m1.(locals := vars), fuel - 1);
            Ended(if o.ReturnWith? then o.v else Void, m2.(locals := m1.locals))
        else
          var (vs, m1) :- EvalFrom(p, h, args, 0, [], m, fuel);
          var calls := m1.calls + [Call(PoolStr(p, fn), vs)];
          Ended(h.builtin(calls), m1.(calls := calls))
      case Member(b, axis) =>
        var (v, m1) :- Eval(p, h, b, m, fuel);
        Ended(Float(MemberOf(v, axis)), m1)
      case Cast(to, inner) =>
        var (v, m1) :- Eval(p, h, inner, m, fuel);
        Ended(DoCast(h, v, to), m1)
      case Unary(op, inner) =>
        if op == OP_INC || op == OP_DEC then Freed(PrefixStep(op, Resolve(p, inner, Full(m)), Full(m)))
        else
          var (v, m1) :- Eval(p, h, inner, m, fuel);
          Ended(EvalUnary(op, v), m1)
      case Postfix(op, inner) =>
        var (v, s1) := PostfixStep(op, Resolve(p, inner, Full(m)), Full(m));
        Ended(v, Bare(s1))
      case Binary(op, l, r) =>
        var (a, m1) :- Eval(p, h, l, m, fuel);
        if op == OP_LAND && !Truthy(a) then Ended(Int(0), m1)
        else if op == OP_LOR && Truthy(a) then Ended(Int(1), m1)
        else
          var (b, m2) :- Eval(p, h, r, m1, fuel);
          if op == OP_LAND || op == OP_LOR then Ended(Bool(Truthy(b)), m2)
          else Freed(Binary2(h, op, a, b, Full(m2)))
      case Assign(op, l, r) =>
        var lv := Resolve(p, l, Full(m));
        var (v, m1) :- Eval(p, h, r, m, fuel);
        Freed(AssignTo(h, op, lv, v, Full(m1)))
  }

  function EvalFrom(p: Program, h: Host, es: seq<Expr>, i: nat, acc: seq<SValue>, m: Memory, fuel: nat)
    : (r: R<seq<SValue>>)
    requires FitsIn(p, m) && i <= |es| && |acc| == i
    ensures r.Ended? ==> SameLayout(Full(m), Full(r.mem)) && |r.v| == |es|
    decreases fuel, es, |es| - i
  {
    if i == |es| then Ended(acc, m)
    else
      var (v, m1) :- Eval(p, h, es[i], m, fuel);
      EvalFrom(p, h, es, i + 1, acc + [v], m1, fuel)
  }

  function BindFrom(p: Program, h: Host, ps: seq<Param>, es: seq<Expr>, i: nat, acc: seq<Var>, m: Memory, fuel: nat)
    : (r: R<seq<Var>>)
    requires FitsIn(p, m) && i <= |es|
    ensures r.Ended? ==> SameLayout(Full(m), Full(r.mem))
    decreases fuel, es, |es| - i
  {
    if i >= |ps| || i == |es| then Ended(acc, m)
    else
      var (v, m1) :- Eval(p, h, es[i], m, fuel);
      BindFrom(p, h, ps, es, i + 1, acc + [Var(ps[i].name, Coerce(v, ps[i].ty))], m1, fuel)
  }

  // ----- statements -----

  function Exec(p: Program, h: Host, s: Stmt, m: Memory, fuel: nat): (r: R<Outcome>)
    requires FitsIn(p, m)
    ensures r.Ended? ==> FitsIn(p, r.mem) && Keeps(m.locals, r.mem.locals)
    ensures r.Ended? && StateFree(s) ==> !r.v.SwitchTo?
    decreases fuel, s, LOOP_CAP + 1
  {
    match s
    case SNull => Ended(Next, m)
    case S(_, k) =>
      match k
      case Empty => Ended(Next, m)
      case Label(_) => Ended(Next, m)
      case ExprStmt(e) =>
        var (_, m1) :- Eval(p, h, e, m, fuel);
        Ended(Next, m1)
      case Decl(ty, name, init) =>
        var (v, m1) :- Eval(p, h, init, m, fuel);
        var v' := if v.Void? then DefaultOf(ty) else Coerce(v, ty);
        Ended(Next, m1.(locals := m1.locals + [Var(name, v')]))
      case Block(stmts) =>
        var (o, m1) :- ExecSeq(p, h, stmts, 0, m, fuel);
        Ended(o, m1.(locals := m1.locals[..|m.locals|]))
      case If(cond, thn, els) =>
        var (c, m1) :- Eval(p, h, cond, m, fuel);
        Exec(p, h, if Truthy(c) then thn else els, m1, fuel)
      case While(cond, body) => ExecLoop(p, h, s, LOOP_CAP, m, fuel)
      case Do(body, cond) => ExecDo(p, h, s, LOOP_CAP, m, fuel)
      case For(init, cond, post, body) =>
        var (_, m1) :- EvalFrom(p, h, init, 0, [], m, fuel);
        var (o, m2) :- ExecLoop(p, h, s, LOOP_CAP, m1, fuel);
        Ended(o, m2.(locals := m2.locals[..|m.locals|]))
      case Return(has, e) =>
        if has != 0 then
          var (v, m1) :- Eval(p, h, e, m, fuel);
          Ended(ReturnWith(v), m1)
        else Ended(ReturnWith(Void), m)
      case Jump(l) => Ended(JumpTo(l), m)
      case StateChange(n) =>
        var k := FindState(p, PoolStr(p, n));
        Ended(if k >= 0 then SwitchTo(k) else Next, m)
  }

  function ExecSeq(p: Program, h: Host, blk: seq<Stmt>, i: nat, m: Memory, fuel: nat): (r: R<Outcome>)
    requires FitsIn(p, m) && i <= |blk|
    ensures r.Ended? ==> FitsIn(p, r.mem) && Keeps(m.locals, r.mem.locals)
    ensures r.Ended? && (forall j :: 0 <= j < |blk| ==> StateFree(blk[j])) ==> !r.v.SwitchTo?
    decreases fuel, blk, |blk| - i
  {
    if i == |blk| then Ended(Next, m)
    else
      var (o, m1) :- Exec(p, h, blk[i], m, fuel);
      if o.Next? then ExecSeq(p, h, blk, i + 1, m1, fuel)
      else if o.JumpTo? && FindLabel(blk, o.target) >= 0 then
        var k := FindLabel(blk, o.target);
        if k >= i then ExecSeq(p, h, blk, k + 1, m1, fuel)
        else if fuel == 0 then Exhausted
        else ExecSeq(p, h, blk, k + 1, m1, fuel - 1)
      else Ended(o, m1)
  }

  function ExecLoop(p: Program, h: Host, s: Stmt, n: nat, m: Memory, fuel: nat): (r: R<Outcome>)
    requires s.S? && (s.kind.While? || s.kind.For?)
    requires FitsIn(p, m) && n <= LOOP_CAP
    ensures r.Ended? ==> FitsIn(p, r.mem) && Keeps(m.locals, r.mem.locals)
    ensures r.Ended? && StateFree(s) ==> !r.v.SwitchTo?
    decreases fuel, s, n
  {
    if n == 0 then Ended(Next, m)
    else
      var (c, m1) :- Eval(p, h, s.kind.cond, m, fuel);
      if !Truthy(c) && !(s.kind.For? && s.kind.cond.ENull?) then Ended(Next, m1)
      else
        var (o, m2) :- Exec(p, h, s.kind.body, m1, fuel);
        if !o.Next? then Ended(o, m2)
        else if s.kind.While? then ExecLoop(p, h, s, n - 1, m2, fuel)
        else
          var (_, m3) :- EvalFrom(p, h, s.kind.post, 0, [], m2, fuel);
          ExecLoop(p, h, s, n - 1, m3, fuel)
  }

  function ExecDo(p: Program, h: Host, s: Stmt, n: nat, m: Memory, fuel: nat): (r: R<Outcome>)
    requires s.S? && s.kind.Do?
    requires FitsIn(p, m) && n <= LOOP_CAP
    ensures r.Ended? ==> FitsIn(p, r.mem) && Keeps(m.locals, r.mem.locals)
    ensures r.Ended? && StateFree(s) ==> !r.v.SwitchTo?
    decreases fuel, s, n
  {
    if n == 0 then Ended(Next, m)
    else
      var (o, m1) :- Exec(p, h, s.kind.body, m, fuel);
      if !o.Next? then Ended(o, m1)
      else
        var (c, m2) :- Eval(p, h, s.kind.cond, m1, fuel);
        if Truthy(c) then ExecDo(p, h, s, n - 1, m2, fuel) else Ended(Next, m2)
  }

  function Dispatch(p: Program, h: Host, ev: EventDecl, args: seq<SValue>, m: Memory, fuel: nat): (r: R<Outcome>)
    requires FitsIn(p, m)
  {
    var (o, m1) :- Exec(p, h, ev.body, m.(locals := BindArgs(ev.params, args)), fuel);
    Ended(o, m1.(locals := m.locals))
  }

  // ----- agreement -----

  /** A result of an expression in the semantics that stores requests: nothing asked for. */
  function Kept<T>(r: R<T>): Semantics.R<T> {
    match r
    case Ended(v, m) => Done(v, Full(m))
    case Exhausted => Halt
    case Failed(w) => Fault(w)
  }

  /** A result of a statement there: SwitchTo(k) is Switching with k asked for, and with
      every other outcome nothing is. */
  function Flagged(r: R<Outcome>): Semantics.R<Semantics.Outcome> {
    match r
    case Ended(Next, m) => Done(Normal, Full(m))
    case Ended(ReturnWith(v), m) => Done(Returned(v), Full(m))
    case Ended(JumpTo(l), m) => Done(Jumping(l), Full(m))
    case Ended(SwitchTo(k), m) => Done(Switching, Full(m).(pending := k))
    case Exhausted => Halt
    case Failed(w) => Fault(w)
  }

  lemma {:induction false} EvalAgrees(p: Program, h: Host, e: Expr, m: Memory, fuel: nat)
    requires FitsIn(p, m) && HandlersOnly(p)
    ensures Semantics.Eval(p, h, e, Full(m), fuel) == Kept(Eval(p, h, e, m, fuel))
    decreases fuel, e, 1
  {
    if e.E? {
      match e.kind
      case VecLit(_, _, _) => TupleAgrees(p, h, e, m, fuel);
      case RotLit(_, _, _, _) => TupleAgrees(p, h, e, m, fuel);
      case ListLit(items) => ItemsAgree(p, h, items, 0, [], m, fuel);
      case CallExpr(_, _) => CallAgrees(p, h, e, m, fuel);
      case Member(b, _) => EvalAgrees(p, h, b, m, fuel);
      case Cast(_, inner) => EvalAgrees(p, h, inner, m, fuel);
      case Unary(_, _) => UnaryAgrees(p, h, e, m, fuel);
      case Binary(_, _, _) => BinaryAgrees(p, h, e, m, fuel);
      case Assign(_, _, _) => AssignAgrees(p, h, e, m, fuel);
      case _ =>
    }
  }

  lemma {:induction false} TupleAgrees(p: Program, h: Host, e: Expr, m: Memory, fuel: nat)
    requires FitsIn(p, m) && HandlersOnly(p) && e.E? && (e.kind.VecLit? || e.kind.RotLit?)
    ensures Semantics.Eval(p, h, e, Full(m), fuel) == Kept(Eval(p, h, e, m, fuel))
    decreases fuel, e, 0
  {
    hide FloatOf, HandlersOnly;
    var k := e.kind;
    EvalAgrees(p, h, k.x, m, fuel);
    var a := Eval(p, h, k.x, m, fuel);
    if a.Ended? {
      EvalAgrees(p, h, k.y, a.mem, fuel);
      var b := Eval(p, h, k.y, a.mem, fuel);
      if b.Ended? {
        EvalAgrees(p, h, k.z, b.mem, fuel);
        var c := Eval(p, h, k.z, b.mem, fuel);
        if c.Ended? && k.RotLit? { EvalAgrees(p, h, k.w, c.mem, fuel); }
      }
    }
  }

  /** A function body asks for nothing, so its outcome is never a switch. */
  lemma {:induction false} CallAgrees(p: Program, h: Host, e: Expr, m: Memory, fuel: nat)
    requires FitsIn(p, m) && HandlersOnly(p) && e.E? && e.kind.CallExpr?
    ensures Semantics.Eval(p, h, e, Full(m), fuel) == Kept(Eval(p, h, e, m, fuel))
    decreases fuel, e, 0
  {
    hide Exec, Semantics.Exec, BindFrom, Semantics.BindFrom, EvalFrom, Semantics.EvalFrom;
    var fn, args := e.kind.fn, e.kind.args;
    var k := FindFunc(p.funcs, fn);
    if k >= 0 {
      var fd := p.funcs[k];
      ArgsAgree(p, h, fd.params, args, 0, [], m, fuel);
      var a := BindFrom(p, h, fd.params, args, 0, [], m, fuel);
      if a.Ended? && fuel > 0 {
        var inner := a.mem.(locals := a.v);
        ExecAgrees(p, h, fd.body, inner, fuel - 1);
        StatementsDoNotAsk(p, h, fd.body, Full(inner), fuel - 1);
      }
    } else {
      ItemsAgree(p, h, args, 0, [], m, fuel);
    }
  }

  lemma {:induction false} UnaryAgrees(p: Program, h: Host, e: Expr, m: Memory, fuel: nat)
    requires FitsIn(p, m) && HandlersOnly(p) && e.E? && e.kind.Unary?
    ensures Semantics.Eval(p, h, e, Full(m), fuel) == Kept(Eval(p, h, e, m, fuel))
    decreases fuel, e, 0
  {
    hide HandlersOnly, Resolve, EvalUnary, Bump, Write;
    if e.kind.op != OP_INC && e.kind.op != OP_DEC { EvalAgrees(p, h, e.kind.inner, m, fuel); }
  }

  lemma {:induction false} BinaryAgrees(p: Program, h: Host, e: Expr, m: Memory, fuel: nat)
    requires FitsIn(p, m) && HandlersOnly(p) && e.E? && e.kind.Binary?
    ensures Semantics.Eval(p, h, e, Full(m), fuel) == Kept(Eval(p, h, e, m, fuel))
    decreases fuel, e, 0
  {
    hide HandlersOnly, EvalBinary, AssignTo, IsZeroDivision;
    EvalAgrees(p, h, e.kind.l, m, fuel);
    var a := Eval(p, h, e.kind.l, m, fuel);
    if a.Ended? { EvalAgrees(p, h, e.kind.r, a.mem, fuel); }
  }

  lemma {:induction false} AssignAgrees(p: Program, h: Host, e: Expr, m: Memory, fuel: nat)
    requires FitsIn(p, m) && HandlersOnly(p) && e.E? && e.kind.Assign?
    ensures Semantics.Eval(p, h, e, Full(m), fuel) == Kept(Eval(p, h, e, m, fuel))
    decreases fuel, e, 0
  {
    hide HandlersOnly, Resolve, AssignTo;
    EvalAgrees(p, h, e.kind.r, m, fuel);
    var a := Eval(p, h, e.kind.r, m, fuel);
    if a.Ended? { AssignKeeps(h, e.kind.op, Resolve(p, e.kind.l, Full(m)), a.v, a.mem); }
  }

  /** Assigning asks for nothing. */
  lemma {:induction false} AssignKeeps(h: Host, op: int, lv: Lval, v: SValue, m: Memory)
    requires LvalOk(Full(m), lv)
    ensures AssignTo(h, op, lv, v, Full(m)) == Kept(Freed(AssignTo(h, op, lv, v, Full(m))))
  {
    hide StoreTo, EvalBinary, IsZeroDivision, CurrentOf;
  }

  lemma {:induction false} ItemsAgree(p: Program, h: Host, es: seq<Expr>, i: nat, acc: seq<SValue>, m: Memory,
                                      fuel: nat)
    requires FitsIn(p, m) && HandlersOnly(p) && i <= |es| && |acc| == i
    ensures Semantics.EvalFrom(p, h, es, i, acc, Full(m), fuel) == Kept(EvalFrom(p, h, es, i, acc, m, fuel))
    decreases fuel, es, |es| - i
  {
    hide Eval, Semantics.Eval, HandlersOnly;
    if i < |es| {
      EvalAgrees(p, h, es[i], m, fuel);
      var a := Eval(p, h, es[i], m, fuel);
      if a.Ended? { ItemsAgree(p, h, es, i + 1, acc + [a.v], a.mem, fuel); }
    }
  }

  lemma {:induction false} ArgsAgree(p: Program, h: Host, ps: seq<Param>, es: seq<Expr>, i: nat, acc: seq<Var>,
                                     m: Memory, fuel: nat)
    requires FitsIn(p, m) && HandlersOnly(p) && i <= |es|
    ensures Semantics.BindFrom(p, h, ps, es, i, acc, Full(m), fuel) == Kept(BindFrom(p, h, ps, es, i, acc, m, fuel))
    decreases fuel, es, |es| - i
  {
    hide Eval, Semantics.Eval, HandlersOnly;
    if i < |ps| && i < |es| {
      EvalAgrees(p, h, es[i], m, fuel);
      var a := Eval(p, h, es[i], m, fuel);
      if a.Ended? { ArgsAgree(p, h, ps, es, i + 1, acc + [Var(ps[i].name, Coerce(a.v, ps[i].ty))], a.mem, fuel); }
    }
  }

  /** Where `state` sits in handlers only, the flags compute these outcomes from any store in
      which nothing is asked for: the same stores, returns, jumps and failures, and a state
      asked for exactly when the outcome is a switch to it. */
  lemma {:induction false} ExecAgrees(p: Program, h: Host, s: Stmt, m: Memory, fuel: nat)
    requires FitsIn(p, m) && HandlersOnly(p)
    ensures Semantics.Exec(p, h, s, Full(m), fuel) == Flagged(Exec(p, h, s, m, fuel))
    decreases fuel, s, LOOP_CAP + 1
  {
    hide Eval, Semantics.Eval, HandlersOnly, ExecLoop, Semantics.ExecLoop, ExecDo, Semantics.ExecDo, ExecSeq,
         Semantics.ExecSeq, EvalFrom, Semantics.EvalFrom, FindState, Keeps;
    if s.S? {
      match s.kind
      case ExprStmt(e) => EvalAgrees(p, h, e, m, fuel);
      case Decl(_, _, init) => EvalAgrees(p, h, init, m, fuel);
      case Return(_, e) => EvalAgrees(p, h, e, m, fuel);
      case Block(stmts) => SeqAgrees(p, h, stmts, 0, m, fuel);
      case If(cond, thn, els) =>
        EvalAgrees(p, h, cond, m, fuel);
        var c := Eval(p, h, cond, m, fuel);
        if c.Ended? { ExecAgrees(p, h, if Truthy(c.v) then thn else els, c.mem, fuel); }
      case While(_, _) => LoopAgrees(p, h, s, LOOP_CAP, m, fuel);
      case Do(_, _) => DoAgrees(p, h, s, LOOP_CAP, m, fuel);
      case For(init, _, _, _) =>
        ItemsAgree(p, h, init, 0, [], m, fuel);
        var a := EvalFrom(p, h, init, 0, [], m, fuel);
        if a.Ended? { LoopAgrees(p, h, s, LOOP_CAP, a.mem, fuel); }
      case _ =>
    }
  }

  lemma {:induction false} SeqAgrees(p: Program, h: Host, blk: seq<Stmt>, i: nat, m: Memory, fuel: nat)
    requires FitsIn(p, m) && HandlersOnly(p) && i <= |blk|
    ensures Semantics.ExecSeq(p, h, blk, i, Full(m), fuel) == Flagged(ExecSeq(p, h, blk, i, m, fuel))
    decreases fuel, blk, |blk| - i
  {
    hide Exec, Semantics.Exec, HandlersOnly, Keeps;
    if i < |blk| {
      ExecAgrees(p, h, blk[i], m, fuel);
      var a := Exec(p, h, blk[i], m, fuel);
      if a.Ended? {
        if a.v.Next? {
          SeqAgrees(p, h, blk, i + 1, a.mem, fuel);
        } else if a.v.JumpTo? && FindLabel(blk, a.v.target) >= 0 {
          var k := FindLabel(blk, a.v.target);
          if k >= i {
            SeqAgrees(p, h, blk, k + 1, a.mem, fuel);
          } else if fuel > 0 {
            SeqAgrees(p, h, blk, k + 1, a.mem, fuel - 1);
          }
        }
      }
    }
  }

  lemma {:induction false} LoopAgrees(p: Program, h: Host, s: Stmt, n: nat, m: Memory, fuel: nat)
    requires s.S? && (s.kind.While? || s.kind.For?) && FitsIn(p, m) && n <= LOOP_CAP && HandlersOnly(p)
    ensures Semantics.ExecLoop(p, h, s, n, Full(m), fuel) == Flagged(ExecLoop(p, h, s, n, m, fuel))
    decreases fuel, s, n
  {
    hide Eval, Semantics.Eval, Exec, Semantics.Exec, EvalFrom, Semantics.EvalFrom, HandlersOnly, Keeps;
    if n > 0 {
      EvalAgrees(p, h, s.kind.cond, m, fuel);
      var c := Eval(p, h, s.kind.cond, m, fuel);
      if c.Ended? {
        ExecAgrees(p, h, s.kind.body, c.mem, fuel);
        var b := Exec(p, h, s.kind.body, c.mem, fuel);
        if b.Ended? && s.kind.While? {
          LoopAgrees(p, h, s, n - 1, b.mem, fuel);
        } else if b.Ended? {
          ItemsAgree(p, h, s.kind.post, 0, [], b.mem, fuel);
          var d := EvalFrom(p, h, s.kind.post, 0, [], b.mem, fuel);
          if d.Ended? { LoopAgrees(p, h, s, n - 1, d.mem, fuel); }
        }
      }
    }
  }

  lemma {:induction false} DoAgrees(p: Program, h: Host, s: Stmt, n: nat, m: Memory, fuel: nat)
    requires s.S? && s.kind.Do? && FitsIn(p, m) && n <= LOOP_CAP && HandlersOnly(p)
    ensures Semantics.ExecDo(p, h, s, n, Full(m), fuel) == Flagged(ExecDo(p, h, s, n, m, fuel))
    decreases fuel, s, n
  {
    hide Eval, Semantics.Eval, Exec, Semantics.Exec, HandlersOnly, Keeps;
    if n > 0 {
      ExecAgrees(p, h, s.kind.body, m, fuel);
      var b := Exec(p, h, s.kind.body, m, fuel);
      if b.Ended? {
        EvalAgrees(p, h, s.kind.cond, b.mem, fuel);
        var c := Eval(p, h, s.kind.cond, b.mem, fuel);
        if c.Ended? { DoAgrees(p, h, s, n - 1, c.mem, fuel); }
      }
    }
  }

  /** Event handlers that start with nothing asked for. One behind a state_exit that holds a
      `state` statement of its own need not start so (Lifecycle.LateRequest). */
  lemma DispatchAgrees(p: Program, h: Host, ev: EventDecl, args: seq<SValue>, m: Memory, fuel: nat)
    requires FitsIn(p, m) && HandlersOnly(p)
    ensures Semantics.Dispatch(p, h, ev, args, Full(m), fuel) == Flagged(Dispatch(p, h, ev, args, m, fuel))
  {
    hide Exec, Semantics.Exec, HandlersOnly, Keeps;
    ExecAgrees(p, h, ev.body, m.(locals := BindArgs(ev.params, args)), fuel);
  }
}
