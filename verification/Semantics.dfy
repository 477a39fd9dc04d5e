/** Reference semantics of LSL programs, for every program: every statement yields an
    outcome and a store. Returns and jumps are outcomes and nothing else, and there are no
    scope depths: leaving a block cuts the locals back to those it was entered with. The
    state asked for by a `state` statement is part of the store, because outside handlers
    it does not stop what is running; module Outcomes does without it.

    `fuel` bounds the depth of user calls plus the number of backward jumps a block may
    resume from; nothing else consumes it. */
module Semantics {
  import opened Values
  import opened Ast

  const LOOP_CAP: nat := 1_000_000

  datatype Var = Var(name: int, val: SValue)

  /** `pending` is the state asked for by a `state` statement, or -1. */
  datatype Store = Store(globals: seq<SValue>, pending: int, locals: seq<Var>, calls: seq<Call>)

  datatype Outcome = Normal | Returned(v: SValue) | Jumping(target: int) | Switching

  /** NullCell: a write through a null lvalue cell. ZeroDivision: only with `strict`. */
  datatype Why = NullCell | ZeroDivision

  datatype R<+T> = Done(v: T, st: Store) | Halt | Fault(why: Why) {
    predicate IsFailure() { !Done? }
    function PropagateFailure<U>(): R<U>
      requires !Done?
    {
      if Halt? then Halt else Fault(why)
    }
    function Extract(): (T, Store)
      requires Done?
    {
      (v, st)
    }
  }

  // ----- name lookup -----

  /** The innermost binding of a name, or -1. */
  function FindLocal(locals: seq<Var>, name: int): (k: int)
    ensures -1 <= k < |locals|
    ensures k >= 0 ==> locals[k].name == name
    ensures forall j :: k < j < |locals| ==> locals[j].name != name
  {
    if locals == [] then -1
    else if locals[|locals| - 1].name == name then |locals| - 1
    else FindLocal(locals[..|locals| - 1], name)
  }

  /** The first of the remaining globals with a name, or -1. */
  function FindGlobal(gs: seq<GlobalVar>, name: int, i: nat := 0): (k: int)
    requires i <= |gs|
    ensures k == -1 || i <= k < |gs|
    ensures k >= 0 ==> gs[k].name == name
    ensures forall j :: i <= j < (if k < 0 then |gs| else k) ==> gs[j].name != name
    decreases |gs| - i
  {
    if i == |gs| then -1 else if gs[i].name == name then i else FindGlobal(gs, name, i + 1)
  }

  function FindFunc(fs: seq<FuncDecl>, name: int, i: nat := 0): (k: int)
    requires i <= |fs|
    ensures k == -1 || i <= k < |fs|
    ensures k >= 0 ==> fs[k].name == name
    ensures forall j :: i <= j < (if k < 0 then |fs| else k) ==> fs[j].name != name
    decreases |fs| - i
  {
    if i == |fs| then -1 else if fs[i].name == name then i else FindFunc(fs, name, i + 1)
  }

  /** States are looked up by the text of their name. */
  function FindState(p: Program, want: string, i: nat := 0): (k: int)
    requires i <= |p.states|
    ensures k == -1 || i <= k < |p.states|
    ensures k >= 0 ==> PoolStr(p, p.states[k].name) == want
    ensures forall j :: i <= j < (if k < 0 then |p.states| else k) ==> PoolStr(p, p.states[j].name) != want
    decreases |p.states| - i
  {
    if i == |p.states| then -1
    else if PoolStr(p, p.states[i].name) == want then i
    else FindState(p, want, i + 1)
  }

  predicate IsLabel(s: Stmt, name: int) { s.S? && s.kind.Label? && s.kind.target == name }

  /** The first statement of a block that is the given label, or -1. */
  function FindLabel(blk: seq<Stmt>, name: int, i: nat := 0): (k: int)
    requires i <= |blk|
    ensures k == -1 || i <= k < |blk|
    ensures k >= 0 ==> IsLabel(blk[k], name)
    ensures forall j :: i <= j < (if k < 0 then |blk| else k) ==> !IsLabel(blk[j], name)
    decreases |blk| - i
  {
    if i == |blk| then -1 else if IsLabel(blk[i], name) then i else FindLabel(blk, name, i + 1)
  }

  // ----- cells -----

  datatype Loc = Local(i: nat) | Global(i: nat)

  datatype Lval = NoCell | Cell(loc: Loc) | MemberCell(loc: Loc, axis: int)

  predicate LocOk(st: Store, c: Loc) {
    match c
    case Local(i) => i < |st.locals|
    case Global(i) => i < |st.globals|
  }

  predicate LvalOk(st: Store, lv: Lval) { !lv.NoCell? ==> LocOk(st, lv.loc) }

  function Read(st: Store, c: Loc): SValue
    requires LocOk(st, c)
  {
    match c
    case Local(i) => st.locals[i].val
    case Global(i) => st.globals[i]
  }

  function Write(st: Store, c: Loc, v: SValue): (st': Store)
    requires LocOk(st, c)
    ensures LocOk(st', c) && Read(st', c) == v
    ensures forall d :: d != c && LocOk(st, d) ==> LocOk(st', d) && Read(st', d) == Read(st, d)
    ensures SameLayout(st, st') && st'.pending == st.pending && st'.calls == st.calls
  {
    match c
    case Local(i) => st.(locals := st.locals[i := st.locals[i].(val := v)])
    case Global(i) => st.(globals := st.globals[i := v])
  }

  /** The bindings of `a` are still there in `b`, in place and under the same names. */
  predicate Keeps(a: seq<Var>, b: seq<Var>) {
    |a| <= |b| && forall i :: 0 <= i < |a| ==> a[i].name == b[i].name
  }

  predicate SameLayout(a: Store, b: Store) {
    |a.globals| == |b.globals| && |a.locals| == |b.locals| && Keeps(a.locals, b.locals)
  }

  predicate Fits(p: Program, st: Store) { |st.globals| == |p.globals| }

  function FindCell(p: Program, name: int, st: Store): (lv: Lval)
    requires Fits(p, st)
    ensures LvalOk(st, lv) && !lv.MemberCell?
  {
    var k := FindLocal(st.locals, name);
    if k >= 0 then Cell(Local(k))
    else
      var g := FindGlobal(p.globals, name);
      if g >= 0 then Cell(Global(g)) else NoCell
  }

  function Resolve(p: Program, e: Expr, st: Store): (lv: Lval)
    requires Fits(p, st)
    ensures LvalOk(st, lv)
  {
    match e
    case E(_, _, Ident(n)) => FindCell(p, n, st)
    case E(_, _, Member(b, axis)) =>
      var base := Resolve(p, b, st);
      if base.Cell? then MemberCell(base.loc, axis) else NoCell
    case _ => NoCell
  }

  function ReadName(p: Program, h: Host, name: int, st: Store): SValue
    requires Fits(p, st)
  {
    var lv := FindCell(p, name, st);
    if lv.Cell? then Read(st, lv.loc) else h.konst(PoolStr(p, name))
  }

  // ----- assignment -----

  /** A vector or rotation with one member replaced; an unknown member changes nothing. */
  function WithMember(v: SValue, axis: int, f: real): SValue
    requires v.Vec? || v.Rot?
  {
    if axis == 'x' as int then v.(x := f)
    else if axis == 'y' as int then v.(y := f)
    else if axis == 'z' as int then v.(z := f)
    else if axis == 's' as int && v.Rot? then v.(w := f)
    else v
  }

  /** In-place updates take every member but x and y for z. */
  function UpdateAxis(axis: int): int {
    if axis == 'x' as int || axis == 'y' as int then axis else 'z' as int
  }

  function CompoundOp(op: int): int {
    if op == OP_MINUS_ASSIGN then OP_MINUS
    else if op == OP_STAR_ASSIGN then OP_STAR
    else if op == OP_SLASH_ASSIGN then OP_SLASH
    else if op == OP_PERCENT_ASSIGN then OP_PERCENT
    else OP_PLUS
  }

  /** What a compound assignment combines the right-hand side with. */
  function CurrentOf(lv: Lval, st: Store): SValue
    requires LvalOk(st, lv)
  {
    match lv
    case NoCell => Void
    case Cell(c) => Read(st, c)
    case MemberCell(c, axis) =>
      var b := Read(st, c);
      if b.Vec? then Float(MemberOf(b, UpdateAxis(axis))) else Void
  }

  /** C reads the number of a value that is neither int nor float as 0 here. */
  function NumOr0(v: SValue): real { if IsNum(v) then AsReal(v) else 0.0 }

  function Binary2(h: Host, op: int, l: SValue, r: SValue, st: Store): R<SValue> {
    if h.strict && IsZeroDivision(op, l, r) then Fault(ZeroDivision)
    else Done(EvalBinary(op, l, r), st)
  }

  /** Stores a value in an lvalue; the result is the value as stored. */
  function StoreTo(lv: Lval, v: SValue, st: Store): (r: (SValue, Store))
    requires LvalOk(st, lv)
    ensures SameLayout(st, r.1) && r.1.pending == st.pending && r.1.calls == st.calls
  {
    match lv
    case NoCell => (v, st)
    case Cell(c) =>
      var was := Read(st, c);
      var v' := if was.Void? then v else Coerce(v, Tag(was));
      (v', Write(st, c, v'))
    case MemberCell(c, axis) =>
      var base := Read(st, c);
      if base.Vec? || base.Rot? then
        var v' := Coerce(v, FLOAT);
        (v', Write(st, c, WithMember(base, axis, NumOr0(v'))))
      else (v, st)
  }

  function AssignTo(h: Host, op: int, lv: Lval, rhs: SValue, st: Store): (r: R<SValue>)
    requires LvalOk(st, lv)
    ensures r.Done? ==> SameLayout(st, r.st)
  {
    if op == OP_ASSIGN then
      var (v, st1) := StoreTo(lv, rhs, st);
      Done(v, st1)
    else
      var (v0, st0) :- Binary2(h, CompoundOp(op), CurrentOf(lv, st), rhs, st);
      var (v, st1) := StoreTo(lv, v0, st);
      Done(v, st1)
  }

  /** Prefix `++` and `--`. On a member of anything but a vector the source writes
      through a null cell. */
  function PrefixStep(op: int, lv: Lval, st: Store): (r: R<SValue>)
    requires LvalOk(st, lv)
    ensures r.Done? ==> SameLayout(st, r.st)
  {
    match lv
    case NoCell => Done(Int(0), st)
    case Cell(c) => var v := Bump(op, Read(st, c)); Done(v, Write(st, c, v))
    case MemberCell(c, axis) =>
      var base := Read(st, c);
      if base.Vec? then
        var a := UpdateAxis(axis);
        var v := Bump(op, Float(MemberOf(base, a)));
        Done(v, Write(st, c, WithMember(base, a, v.f)))
      else Fault(NullCell)
  }

  /** Postfix forms return the old value; members are left alone and read as 0. */
  function PostfixStep(op: int, lv: Lval, st: Store): (r: (SValue, Store))
    requires LvalOk(st, lv)
    ensures SameLayout(st, r.1)
  {
    match lv
    case Cell(c) => (Read(st, c), Write(st, c, Bump(op, Read(st, c))))
    case _ => (Int(0), st)
  }

  function FloatOf(h: Host, v: SValue): real {
    var c := Coerce(v, FLOAT);
    if c.Float? then c.f else h.pun(c)
  }

  // ----- expressions -----

  function Eval(p: Program, h: Host, e: Expr, st: Store, fuel: nat): (r: R<SValue>)
    requires Fits(p, st)
    ensures r.Done? ==> SameLayout(st, r.st)
    decreases fuel, e, 0
  {
    match e
    case ENull => Done(Void, st)
    case E(ty, _, k) =>
      match k
      case IntLit(i) => Done(Int(i), st)
      case FloatLit(b) => Done(Float(h.ofBits(b)), st)
      case StrLit(idx) => Done(if ty == KEY then Key(PoolStr(p, idx)) else Str(PoolStr(p, idx)), st)
      case Ident(n) => Done(ReadName(p, h, n, st), st)
      case VecLit(x, y, z) =>
        var (a, s1) :- Eval(p, h, x, st, fuel);
        var (b, s2) :- Eval(p, h, y, s1, fuel);
        var (c, s3) :- Eval(p, h, z, s2, fuel);
        Done(Vec(FloatOf(h, a), FloatOf(h, b), FloatOf(h, c)), s3)
      case RotLit(x, y, z, w) =>
        var (a, s1) :- Eval(p, h, x, st, fuel);
        var (b, s2) :- Eval(p, h, y, s1, fuel);
        var (c, s3) :- Eval(p, h, z, s2, fuel);
        var (d, s4) :- Eval(p, h, w, s3, fuel);
        Done(Rot(FloatOf(h, a), FloatOf(h, b), FloatOf(h, c), FloatOf(h, d)), s4)
      case ListLit(items) =>
        var (vs, s1) :- EvalFrom(p, h, items, 0, [], st, fuel);
        Done(List(vs), s1)
      case CallExpr(fn, args) =>
        var k := FindFunc(p.funcs, fn);
        if k >= 0 then
          var fd := p.funcs[k];
          var (vars, s1) :- BindFrom(p, h, fd.params, args, 0, [], st, fuel);
          if fuel == 0 then Halt
          else
            var (o, s2) :- Exec(p, h, fd.body, s1.(locals := vars), fuel - 1);
            Done(if o.Returned? then o.v else Void, s2.(locals := s1.locals))
        else
          var (vs, s1) :- EvalFrom(p, h, args, 0, [], st, fuel);
          var calls := s1.calls + [Call(PoolStr(p, fn), vs)];
          Done(h.builtin(calls), s1.(calls := calls))
      case Member(b, axis) =>
        var (v, s1) :- Eval(p, h, b, st, fuel);
        Done(Float(MemberOf(v, axis)), s1)
      case Cast(to, inner) =>
        var (v, s1) :- Eval(p, h, inner, st, fuel);
        Done(DoCast(h, v, to), s1)
      case Unary(op, inner) =>
        if op == OP_INC || op == OP_DEC then PrefixStep(op, Resolve(p, inner, st), st)
        else
          var (v, s1) :- Eval(p, h, inner, st, fuel);
          Done(EvalUnary(op, v), s1)
      case Postfix(op, inner) =>
        var (v, s1) := PostfixStep(op, Resolve(p, inner, st), st);
        Done(v, s1)
      case Binary(op, l, r) =>
        var (a, s1) :- Eval(p, h, l, st, fuel);
        if op == OP_LAND && !Truthy(a) then Done(Int(0), s1)
        else if op == OP_LOR && Truthy(a) then Done(Int(1), s1)
        else
          var (b, s2) :- Eval(p, h, r, s1, fuel);
          if op == OP_LAND || op == OP_LOR then Done(Bool(Truthy(b)), s2)
          else Binary2(h, op, a, b, s2)
      case Assign(op, l, r) =>
        var lv := Resolve(p, l, st);
        var (v, s1) :- Eval(p, h, r, st, fuel);
        AssignTo(h, op, lv, v, s1)
  }

  /** Evaluates items i.. from left to right, after the values `acc`. */
  function EvalFrom(p: Program, h: Host, es: seq<Expr>, i: nat, acc: seq<SValue>, st: Store, fuel: nat)
    : (r: R<seq<SValue>>)
    requires Fits(p, st) && i <= |es| && |acc| == i
    ensures r.Done? ==> SameLayout(st, r.st) && |r.v| == |es|
    decreases fuel, es, |es| - i
  {
    if i == |es| then Done(acc, st)
    else
      var (v, s1) :- Eval(p, h, es[i], st, fuel);
      EvalFrom(p, h, es, i + 1, acc + [v], s1, fuel)
  }

  /** Evaluates arguments i.. in the caller and binds them, coerced, to the parameters.
      Surplus arguments are not evaluated and surplus parameters are not bound. */
  function BindFrom(p: Program, h: Host, ps: seq<Param>, es: seq<Expr>, i: nat, acc: seq<Var>, st: Store, fuel: nat)
    : (r: R<seq<Var>>)
    requires Fits(p, st) && i <= |es|
    ensures r.Done? ==> SameLayout(st, r.st)
    decreases fuel, es, |es| - i
  {
    if i >= |ps| || i == |es| then Done(acc, st)
    else
      var (v, s1) :- Eval(p, h, es[i], st, fuel);
      BindFrom(p, h, ps, es, i + 1, acc + [Var(ps[i].name, Coerce(v, ps[i].ty))], s1, fuel)
  }

  // ----- statements -----

  /** Completing normally while a state change is asked for counts as switching. */
  function Finish(st: Store): Outcome { if st.pending >= 0 then Switching else Normal }

  function Exec(p: Program, h: Host, s: Stmt, st: Store, fuel: nat): (r: R<Outcome>)
    requires Fits(p, st)
    ensures r.Done? ==> Fits(p, r.st) && Keeps(st.locals, r.st.locals)
    ensures r.Done? ==> (r.v.Normal? || r.v.Jumping? ==> r.st.pending < 0) && (r.v.Switching? ==> r.st.pending >= 0)
    decreases fuel, s, LOOP_CAP + 1
  {
    match s
    case SNull => Done(Finish(st), st)
    case S(_, k) =>
      match k
      case Empty => Done(Finish(st), st)
      case Label(_) => Done(Finish(st), st)
      case ExprStmt(e) =>
        var (_, s1) :- Eval(p, h, e, st, fuel);
        Done(Finish(s1), s1)
      case Decl(ty, name, init) =>
        var (v, s1) :- Eval(p, h, init, st, fuel);
        var v' := if v.Void? then DefaultOf(ty) else Coerce(v, ty);
        Done(Finish(s1), s1.(locals := s1.locals + [Var(name, v')]))
      case Block(stmts) =>
        var (o, s1) :- ExecSeq(p, h, stmts, 0, st, fuel);
        Done(o, s1.(locals := s1.locals[..|st.locals|]))
      case If(cond, thn, els) =>
        var (c, s1) :- Eval(p, h, cond, st, fuel);
        Exec(p, h, if Truthy(c) then thn else els, s1, fuel)
      case While(cond, body) => ExecLoop(p, h, s, LOOP_CAP, st, fuel)
      case Do(body, cond) => ExecDo(p, h, s, LOOP_CAP, st, fuel)
      case For(init, cond, post, body) =>
        var (_, s1) :- EvalFrom(p, h, init, 0, [], st, fuel);
        var (o, s2) :- ExecLoop(p, h, s, LOOP_CAP, s1, fuel);
        Done(o, s2.(locals := s2.locals[..|st.locals|]))
      case Return(has, e) =>
        if has != 0 then
          var (v, s1) :- Eval(p, h, e, st, fuel);
          Done(Returned(v), s1)
        else Done(Returned(Void), st)
      case Jump(l) => Done(if st.pending >= 0 then Switching else Jumping(l), st)
      case StateChange(n) =>
        var k := FindState(p, PoolStr(p, n));
        var s1 := if k >= 0 then st.(pending := k) else st;
        Done(Finish(s1), s1)
  }

  /** Runs statements i.. of a block. A jump is caught here when the block itself holds
      the label; any other abnormal outcome leaves the block at once. */
  function ExecSeq(p: Program, h: Host, blk: seq<Stmt>, i: nat, st: Store, fuel: nat): (r: R<Outcome>)
    requires Fits(p, st) && i <= |blk|
    ensures r.Done? ==> Fits(p, r.st) && Keeps(st.locals, r.st.locals)
    ensures r.Done? ==> (r.v.Normal? || r.v.Jumping? ==> r.st.pending < 0) && (r.v.Switching? ==> r.st.pending >= 0)
    decreases fuel, blk, |blk| - i
  {
    if i == |blk| then Done(Finish(st), st)
    else
      var (o, s1) :- Exec(p, h, blk[i], st, fuel);
      if o.Normal? then ExecSeq(p, h, blk, i + 1, s1, fuel)
      else if o.Jumping? && FindLabel(blk, o.target) >= 0 then
        var k := FindLabel(blk, o.target);
        if k >= i then ExecSeq(p, h, blk, k + 1, s1, fuel)
        else if fuel == 0 then Halt
        else ExecSeq(p, h, blk, k + 1, s1, fuel - 1)
      else Done(o, s1)
  }

  /** `while` and `for` with n iterations left; a `for` without condition always goes on. */
  function ExecLoop(p: Program, h: Host, s: Stmt, n: nat, st: Store, fuel: nat): (r: R<Outcome>)
    requires s.S? && (s.kind.While? || s.kind.For?)
    requires Fits(p, st) && n <= LOOP_CAP
    ensures r.Done? ==> Fits(p, r.st) && Keeps(st.locals, r.st.locals)
    ensures r.Done? ==> (r.v.Normal? || r.v.Jumping? ==> r.st.pending < 0) && (r.v.Switching? ==> r.st.pending >= 0)
    decreases fuel, s, n
  {
    if n == 0 then Done(Finish(st), st)
    else
      var (c, s1) :- Eval(p, h, s.kind.cond, st, fuel);
      if !Truthy(c) && !(s.kind.For? && s.kind.cond.ENull?) then Done(Finish(s1), s1)
      else
        var (o, s2) :- Exec(p, h, s.kind.body, s1, fuel);
        if !o.Normal? then Done(o, s2)
        else if s.kind.While? then ExecLoop(p, h, s, n - 1, s2, fuel)
        else
          var (_, s3) :- EvalFrom(p, h, s.kind.post, 0, [], s2, fuel);
          ExecLoop(p, h, s, n - 1, s3, fuel)
  }

  function ExecDo(p: Program, h: Host, s: Stmt, n: nat, st: Store, fuel: nat): (r: R<Outcome>)
    requires s.S? && s.kind.Do?
    requires Fits(p, st) && n <= LOOP_CAP
    ensures r.Done? ==> Fits(p, r.st) && Keeps(st.locals, r.st.locals)
    ensures r.Done? ==> (r.v.Normal? || r.v.Jumping? ==> r.st.pending < 0) && (r.v.Switching? ==> r.st.pending >= 0)
    decreases fuel, s, n
  {
    if n == 0 then Done(Finish(st), st)
    else
      var (o, s1) :- Exec(p, h, s.kind.body, st, fuel);
      if !o.Normal? then Done(o, s1)
      else
        var (c, s2) :- Eval(p, h, s.kind.cond, s1, fuel);
        if Truthy(c) then ExecDo(p, h, s, n - 1, s2, fuel) else Done(Finish(s2), s2)
  }

  // ----- handlers -----

  /** Parameters i.. of an event handler, coerced, as far as arguments go. */
  function BindArgs(ps: seq<Param>, args: seq<SValue>): (vars: seq<Var>)
    ensures |vars| == if |ps| <= |args| then |ps| else |args|
  {
    seq(if |ps| <= |args| then |ps| else |args|,
        i requires 0 <= i < |ps| && i < |args| => Var(ps[i].name, Coerce(args[i], ps[i].ty)))
  }

  /** Runs an event handler in a frame of its own. */
  function Dispatch(p: Program, h: Host, ev: EventDecl, args: seq<SValue>, st: Store, fuel: nat): (r: R<Outcome>)
    requires Fits(p, st)
  {
    var (o, s1) :- Exec(p, h, ev.body, st.(locals := BindArgs(ev.params, args)), fuel);
    Done(o, s1.(locals := st.locals))
  }
}
