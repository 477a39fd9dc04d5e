/** The tree walker of src/vm.c: frames of scope-depth-tagged bindings, and sticky
    `returning`, `jumping` and `pending` flags that every block and loop re-reads.
    Each method is proved to compute what the reference semantics says. */
module Walker {
  import opened Values
  import opened Ast
  import opened Semantics
  import Outcomes
  import Requests

  datatype Binding = Binding(name: int, val: SValue, depth: int)

  /** Ok, or why the walk stopped short. */
  datatype Status = Ok | OutOfFuel | Broken(why: Why)

  ghost predicate Agrees<T(!new)>(r: R<T>, status: Status, v: T, st: Store) {
    match r
    case Done(v', st') => status.Ok? && v == v' && st == st'
    case Halt => status.OutOfFuel?
    case Fault(w) => status == Broken(w)
  }

  function VarsOf(locs: seq<Binding>): (vars: seq<Var>)
    ensures |vars| == |locs|
    ensures forall i :: 0 <= i < |locs| ==> vars[i] == Var(locs[i].name, locs[i].val)
  {
    seq(|locs|, i requires 0 <= i < |locs| => Var(locs[i].name, locs[i].val))
  }

  /** What a statement comes to when outcomes alone decide, shown in flags. */
  ghost function ByOutcome(p: Program, h: Host, s: Stmt, st: Store, fuel: nat): R<Outcome>
    requires Fits(p, st)
  {
    Outcomes.Flagged(Outcomes.Exec(p, h, s, Outcomes.Bare(st), fuel))
  }

  lemma FlagsDecide(p: Program, h: Host, s: Stmt, st: Store, fuel: nat)
    requires Fits(p, st) && st.pending == -1 && Requests.HandlersOnly(p)
    ensures Exec(p, h, s, st, fuel) == ByOutcome(p, h, s, st, fuel)
  {
    Outcomes.ExecAgrees(p, h, s, Outcomes.Bare(st), fuel);
  }

  /** A missing expression does nothing. */
  lemma NoCondition(p: Program, h: Host, st: Store, fuel: nat)
    requires Fits(p, st)
    ensures Eval(p, h, ENull, st, fuel) == Done(Void, st)
  {
  }

  /** struct Frame */
  class Frame {
    var locs: seq<Binding>
    var scopeDepth: int
    var returning: bool
    var retVal: SValue
    var jumping: bool
    var jumpName: int
    var parent: Frame?

    constructor ()
      ensures locs == [] && scopeDepth == 0 && !returning && retVal == Void && !jumping
    {
      locs, scopeDepth, returning, retVal, jumping, jumpName, parent := [], 0, false, Void, false, 0, null;
    }

    method Define(name: int, v: SValue)
      modifies this`locs
      ensures locs == old(locs) + [Binding(name, v, scopeDepth)]
    {
      locs := locs + [Binding(name, v, scopeDepth)];
    }

    /** frame_find: the latest binding of a name, or -1. */
    method Find(name: int) returns (k: int)
      ensures k == FindLocal(VarsOf(locs), name)
    {
      k := |locs| - 1;
      while k >= 0 && locs[k].name != name
        invariant -1 <= k < |locs|
        invariant forall j :: k < j < |locs| ==> locs[j].name != name
      {
        k := k - 1;
      }
    }

    method Enter()
      modifies this`scopeDepth
      ensures scopeDepth == old(scopeDepth) + 1
    {
      scopeDepth := scopeDepth + 1;
    }

    /** frame_leave: pops every trailing binding that is deeper than the scope left to.
        When the first n bindings are the outer ones, exactly those stay. */
    method Leave(ghost n: nat)
      requires n <= |locs|
      requires forall i :: 0 <= i < n ==> locs[i].depth < scopeDepth
      requires forall i :: n <= i < |locs| ==> locs[i].depth >= scopeDepth
      modifies this`scopeDepth, this`locs
      ensures scopeDepth == old(scopeDepth) - 1
      ensures locs == old(locs)[..n]
    {
      scopeDepth := scopeDepth - 1;
      while |locs| > 0 && locs[|locs| - 1].depth > scopeDepth
        invariant scopeDepth == old(scopeDepth) - 1
        invariant n <= |locs| && locs <= old(locs)
        decreases |locs|
      {
        locs := locs[..|locs| - 1];
      }
    }
  }

  /** The parts of struct Script and the frame pointer the walker works on. */
  class Machine {
    const prog: Program
    const host: Host
    var globals: seq<SValue>
    var pending: int
    var calls: seq<Call>
    var frame: Frame

    ghost predicate Valid()
      reads this, frame
    {
      && |globals| == |prog.globals|
      && !host.strict
      && (!frame.returning ==> frame.retVal == Void)
      && forall i :: 0 <= i < |frame.locs| ==> frame.locs[i].depth <= frame.scopeDepth
    }

    ghost function Abs(): Store
      reads this, frame
    {
      Store(globals, pending, VarsOf(frame.locs), calls)
    }

    /** The outcome that the flags stand for. */
    ghost function Signal(): Outcome
      reads this, frame
    {
      if frame.returning then Returned(frame.retVal)
      else if pending >= 0 then Switching
      else if frame.jumping then Jumping(frame.jumpName)
      else Normal
    }

    ghost predicate Quiet()
      reads this, frame
    {
      !frame.returning && !frame.jumping
    }

    /** Same frame on top, same control fields, same bindings at the same depths. */
    twostate predicate Undisturbed()
      reads this, frame
    {
      && frame == old(frame)
      && frame.scopeDepth == old(frame.scopeDepth)
      && frame.returning == old(frame.returning)
      && frame.retVal == old(frame.retVal)
      && frame.jumping == old(frame.jumping)
      && frame.jumpName == old(frame.jumpName)
      && frame.parent == old(frame.parent)
      && |frame.locs| == |old(frame.locs)|
      && forall i :: 0 <= i < |frame.locs| ==> frame.locs[i].depth == old(frame.locs)[i].depth
    }

    /** Same frame on top at the same depth; new bindings, if any, belong to this scope. */
    twostate predicate Scoped()
      reads this, frame
    {
      && frame == old(frame)
      && frame.scopeDepth == old(frame.scopeDepth)
      && frame.parent == old(frame.parent)
      && |frame.locs| >= |old(frame.locs)|
      && (forall i :: 0 <= i < |old(frame.locs)| ==> frame.locs[i].depth == old(frame.locs)[i].depth)
      && (forall i :: |old(frame.locs)| <= i < |frame.locs| ==> frame.locs[i].depth == frame.scopeDepth)
    }

    /** Same frame on top, with the same bindings at the same depths. */
    twostate predicate Restored()
      reads this, frame
    {
      && frame == old(frame)
      && frame.scopeDepth == old(frame.scopeDepth)
      && frame.parent == old(frame.parent)
      && |frame.locs| == |old(frame.locs)|
      && (forall i :: 0 <= i < |frame.locs| ==>
            frame.locs[i].name == old(frame.locs)[i].name && frame.locs[i].depth == old(frame.locs)[i].depth)
    }

    constructor (prog: Program, host: Host, globals: seq<SValue>)
      requires |globals| == |prog.globals| && !host.strict
      ensures Valid() && Quiet() && this.prog == prog && this.host == host
      ensures Abs() == Store(globals, -1, [], [])
      ensures fresh(frame)
    {
      this.prog, this.host, this.globals := prog, host, globals;
      pending, calls := -1, [];
      frame := new Frame();
    }

    // ----- cells -----

    method FindGlobalCell(name: int) returns (k: int)
      ensures k == FindGlobal(prog.globals, name)
    {
      k := 0;
      while k < |prog.globals| && prog.globals[k].name != name
        invariant 0 <= k <= |prog.globals|
        invariant forall j :: 0 <= j < k ==> prog.globals[j].name != name
      {
        k := k + 1;
      }
      if k == |prog.globals| { k := -1; }
    }

    method FindVariable(name: int) returns (lv: Lval)
      requires Valid()
      ensures lv == FindCell(prog, name, Abs())
    {
      var k := frame.Find(name);
      if k >= 0 { return Cell(Local(k)); }
      k := FindGlobalCell(name);
      if k >= 0 { return Cell(Global(k)); }
      return NoCell;
    }

    method ResolveLvalue(e: Expr) returns (lv: Lval)
      requires Valid()
      ensures lv == Resolve(prog, e, Abs())
      decreases e
    {
      lv := NoCell;
      match e {
        case E(_, _, Ident(n)) => lv := FindVariable(n);
        case E(_, _, Member(b, axis)) =>
          var base := ResolveLvalue(b);
          if base.Cell? { lv := MemberCell(base.loc, axis); }
        case _ =>
      }
    }

    method Load(c: Loc) returns (v: SValue)
      requires LocOk(Abs(), c)
      ensures v == Read(Abs(), c)
    {
      match c
      case Local(i) => v := frame.locs[i].val;
      case Global(i) => v := globals[i];
    }

    method Save(c: Loc, v: SValue)
      requires Valid() && LocOk(Abs(), c)
      modifies this`globals, frame`locs
      ensures Valid() && Undisturbed()
      ensures Abs() == Write(old(Abs()), c, v)
    {
      match c {
        case Local(i) => frame.locs := frame.locs[i := frame.locs[i].(val := v)];
        case Global(i) => globals := globals[i := v];
      }
      assert Abs().locals == Write(old(Abs()), c, v).locals;
    }

    // ----- expressions -----

    method EvalExpr(e: Expr, fuel: nat) returns (status: Status, v: SValue)
      requires Valid()
      modifies this, frame
      ensures Agrees(Eval(prog, host, e, old(Abs()), fuel), status, v, Abs())
      ensures status.Ok? ==> Valid() && Undisturbed()
      decreases fuel, e, 3
    {
      hide EvalUnary, EvalBinary, FloatOf, MemberOf, DoCast, StoreTo, CurrentOf, BindFrom, EvalFrom, Exec, AssignTo,
           Binary2, PrefixStep, PostfixStep;
      status, v := Ok, Void;
      match e {
        case ENull =>
        case E(ty, _, k) =>
          match k {
            case IntLit(i) => v := Int(i);
            case FloatLit(b) => v := Float(host.ofBits(b));
            case StrLit(idx) => v := if ty == KEY then Key(PoolStr(prog, idx)) else Str(PoolStr(prog, idx));
            case Ident(n) =>
              var lv := FindVariable(n);
              if lv.Cell? { v := Load(lv.loc); } else { v := host.konst(PoolStr(prog, n)); }
            case VecLit(_, _, _) => status, v := EvalTuple(e, fuel);
            case RotLit(_, _, _, _) => status, v := EvalTuple(e, fuel);
            case ListLit(items) =>
              var vs;
              status, vs := EvalItems(items, fuel);
              v := List(vs);
            case CallExpr(fn, args) => status, v := EvalCall(fn, args, e, fuel);
            case Member(b, axis) =>
              status, v := EvalExpr(b, fuel);
              v := Float(MemberOf(v, axis));
            case Cast(to, inner) =>
              status, v := EvalExpr(inner, fuel);
              v := DoCast(host, v, to);
            case Unary(op, inner) =>
              if op == OP_INC || op == OP_DEC {
                status, v := EvalPrefix(op, inner);
              } else {
                status, v := EvalExpr(inner, fuel);
                v := EvalUnary(op, v);
              }
            case Postfix(op, inner) => v := EvalPostfix(op, inner);
            case Binary(_, _, _) => status, v := EvalInfix(e, fuel);
            case Assign(_, _, _) => status, v := EvalAssign(e, fuel);
          }
      }
    }

    /** Vector and rotation literals. */
    method EvalTuple(e: Expr, fuel: nat) returns (status: Status, v: SValue)
      requires Valid() && e.E? && (e.kind.VecLit? || e.kind.RotLit?)
      modifies this, frame
      ensures Agrees(Eval(prog, host, e, old(Abs()), fuel), status, v, Abs())
      ensures status.Ok? ==> Valid() && Undisturbed()
      decreases fuel, e, 2
    {
      v := Void;
      var a, b, c, d;
      status, a := EvalExpr(e.kind.x, fuel);
      if !status.Ok? { return; }
      status, b := EvalExpr(e.kind.y, fuel);
      if !status.Ok? { return; }
      status, c := EvalExpr(e.kind.z, fuel);
      if !status.Ok? { return; }
      if e.kind.VecLit? {
        v := Vec(FloatOf(host, a), FloatOf(host, b), FloatOf(host, c));
      } else {
        status, d := EvalExpr(e.kind.w, fuel);
        if !status.Ok? { return; }
        v := Rot(FloatOf(host, a), FloatOf(host, b), FloatOf(host, c), FloatOf(host, d));
      }
    }

    method EvalItems(es: seq<Expr>, fuel: nat) returns (status: Status, vs: seq<SValue>)
      requires Valid()
      modifies this, frame
      ensures Agrees(EvalFrom(prog, host, es, 0, [], old(Abs()), fuel), status, vs, Abs())
      ensures status.Ok? ==> Valid() && Undisturbed()
      decreases fuel, es, 2
    {
      status, vs := Ok, [];
      var i := 0;
      while i < |es|
        invariant 0 <= i <= |es| && |vs| == i && status.Ok?
        invariant Valid() && Undisturbed()
        invariant EvalFrom(prog, host, es, 0, [], old(Abs()), fuel) == EvalFrom(prog, host, es, i, vs, Abs(), fuel)
      {
        var v;
        status, v := EvalExpr(es[i], fuel);
        if !status.Ok? { return; }
        vs := vs + [v];
        i := i + 1;
      }
    }

    /** eval_call: a user function if there is one of that name, else a built-in. */
    method EvalCall(fn: int, args: seq<Expr>, ghost e: Expr, fuel: nat) returns (status: Status, v: SValue)
      requires Valid() && e.E? && e.kind == CallExpr(fn, args)
      modifies this, frame
      ensures Agrees(Eval(prog, host, e, old(Abs()), fuel), status, v, Abs())
      ensures status.Ok? ==> Valid() && Undisturbed()
      decreases fuel, e, 2
    {
      var i := 0;
      while i < |prog.funcs| && prog.funcs[i].name != fn
        invariant 0 <= i <= |prog.funcs|
        invariant forall j :: 0 <= j < i ==> prog.funcs[j].name != fn
      {
        i := i + 1;
      }
      if i < |prog.funcs| {
        status, v := RunUserFunc(i, args, e, fuel);
        return;
      }
      var vs;
      status, vs := EvalItems(args, fuel);
      v := Void;
      if !status.Ok? { return; }
      calls := calls + [Call(PoolStr(prog, fn), vs)];
      v := host.builtin(calls);
    }

    /** The arguments of a user call, evaluated in the caller's frame and defined in a
        new one. */
    method BindParams(ps: seq<Param>, args: seq<Expr>, fuel: nat) returns (status: Status, f: Frame)
      requires Valid()
      modifies this, frame
      ensures Agrees(BindFrom(prog, host, ps, args, 0, [], old(Abs()), fuel), status, VarsOf(f.locs), Abs())
      ensures status.Ok? ==> Valid() && Undisturbed()
      ensures fresh(f) && f.scopeDepth == 0 && f.retVal == Void && !f.returning && !f.jumping
      ensures forall j :: 0 <= j < |f.locs| ==> f.locs[j].depth == 0
      ensures status.Ok? ==> f != frame
      decreases fuel, args, 2
    {
      status := Ok;
      f := new Frame();
      var i := 0;
      while i < |ps| && i < |args|
        invariant 0 <= i <= |args| && |f.locs| == i && status.Ok?
        invariant Valid() && Undisturbed() && f != frame
        invariant fresh(f) && f.scopeDepth == 0 && f.retVal == Void && !f.returning && !f.jumping
        invariant forall j :: 0 <= j < |f.locs| ==> f.locs[j].depth == 0
        invariant BindFrom(prog, host, ps, args, 0, [], old(Abs()), fuel)
               == BindFrom(prog, host, ps, args, i, VarsOf(f.locs), Abs(), fuel)
      {
        var v;
        status, v := EvalExpr(args[i], fuel);
        if !status.Ok? { return; }
        v := Coerce(v, ps[i].ty);
        ghost var before := VarsOf(f.locs);
        f.Define(ps[i].name, v);
        assert VarsOf(f.locs) == before + [Var(ps[i].name, v)];
        i := i + 1;
      }
    }

    /** run_user_func: the body runs in a frame of its own, and the caller's frame is
        back on top afterwards. */
    method RunUserFunc(k: nat, args: seq<Expr>, ghost e: Expr, fuel: nat) returns (status: Status, out: SValue)
      requires Valid() && k < |prog.funcs|
      requires e.E? && e.kind.CallExpr? && e.kind.args == args && FindFunc(prog.funcs, e.kind.fn) == k
      modifies this, frame
      ensures Agrees(Eval(prog, host, e, old(Abs()), fuel), status, out, Abs())
      ensures status.Ok? ==> Valid() && Undisturbed()
      decreases fuel, e, 1
    {
      var fd := prog.funcs[k];
      out := Void;
      var f;
      status, f := BindParams(fd.params, args, fuel);
      if !status.Ok? { return; }
      if fuel == 0 { return OutOfFuel, out; }
      ghost var caller := Abs();
      f.parent := frame;
      frame := f;
      assert Abs() == caller.(locals := VarsOf(f.locs));
      status := ExecStmt(fd.body, fuel - 1);
      if !status.Ok? { return; }
      out := frame.retVal;
      frame := f.parent;
      assert VarsOf(frame.locs) == caller.locals;
    }

    method EvalPrefix(op: int, inner: Expr) returns (status: Status, v: SValue)
      requires Valid()
      modifies this, frame
      ensures Agrees(PrefixStep(op, Resolve(prog, inner, old(Abs())), old(Abs())), status, v, Abs())
      ensures status.Ok? ==> Valid() && Undisturbed()
    {
      hide Resolve, Write, Read;
      var lv := ResolveLvalue(inner);
      status, v := Ok, Int(0);
      match lv {
        case NoCell =>
        case Cell(c) =>
          v := Load(c);
          if v.Int? {
            v := Int(Wrap64(v.i + (if op == OP_INC then 1 else -1)));
          } else if v.Float? {
            v := Float(v.f + (if op == OP_INC then 1.0 else -1.0));
          }
          Save(c, v);
        case MemberCell(c, axis) =>
          var base := Load(c);
          if !base.Vec? { return Broken(NullCell), v; }
          var d := if op == OP_INC then 1.0 else -1.0;
          if axis == 'x' as int {
            base := Vec(base.x + d, base.y, base.z); v := Float(base.x);
          } else if axis == 'y' as int {
            base := Vec(base.x, base.y + d, base.z); v := Float(base.y);
          } else {
            base := Vec(base.x, base.y, base.z + d); v := Float(base.z);
          }
          Save(c, base);
      }
    }

    method EvalPostfix(op: int, inner: Expr) returns (v: SValue)
      requires Valid()
      modifies this, frame
      ensures (v, Abs()) == PostfixStep(op, Resolve(prog, inner, old(Abs())), old(Abs()))
      ensures Valid() && Undisturbed()
    {
      var lv := ResolveLvalue(inner);
      v := Int(0);
      if lv.Cell? {
        v := Load(lv.loc);
        var u := v;
        if u.Int? {
          u := Int(Wrap64(u.i + (if op == OP_INC then 1 else -1)));
        } else if u.Float? {
          u := Float(u.f + (if op == OP_INC then 1.0 else -1.0));
        }
        Save(lv.loc, u);
      }
    }

    method EvalInfix(e: Expr, fuel: nat) returns (status: Status, v: SValue)
      requires Valid() && e.E? && e.kind.Binary?
      modifies this, frame
      ensures Agrees(Eval(prog, host, e, old(Abs()), fuel), status, v, Abs())
      ensures status.Ok? ==> Valid() && Undisturbed()
      decreases fuel, e, 2
    {
      var op := e.kind.op;
      status, v := EvalExpr(e.kind.l, fuel);
      if !status.Ok? { return; }
      if op == OP_LAND && !Truthy(v) { v := Int(0); return; }
      if op == OP_LOR && Truthy(v) { v := Int(1); return; }
      var r;
      status, r := EvalExpr(e.kind.r, fuel);
      if !status.Ok? { return; }
      if op == OP_LAND || op == OP_LOR {
        v := Int(if Truthy(r) then 1 else 0);
      } else {
        v := EvalBinary(op, v, r);
      }
    }

    method EvalAssign(e: Expr, fuel: nat) returns (status: Status, v: SValue)
      requires Valid() && e.E? && e.kind.Assign?
      modifies this, frame
      ensures Agrees(Eval(prog, host, e, old(Abs()), fuel), status, v, Abs())
      ensures status.Ok? ==> Valid() && Undisturbed()
      decreases fuel, e, 2
    {
      var lv := ResolveLvalue(e.kind.l);
      status, v := EvalExpr(e.kind.r, fuel);
      if status.Ok? { v := StoreAssigned(e.kind.op, lv, v); }
    }

    /** The second half of an assignment: the cell was resolved before the right-hand
        side ran, and is read and written through now. */
    method StoreAssigned(op: int, lv: Lval, value: SValue) returns (rhs: SValue)
      requires Valid() && LvalOk(Abs(), lv)
      modifies this, frame
      ensures AssignTo(host, op, lv, value, old(Abs())) == Done(rhs, Abs())
      ensures Valid() && Undisturbed()
    {
      hide EvalBinary, CurrentOf, StoreTo;
      rhs := value;
      if op != OP_ASSIGN {
        var cur := LoadCurrent(lv);
        var bop := OP_PLUS;
        if op == OP_MINUS_ASSIGN { bop := OP_MINUS; }
        else if op == OP_STAR_ASSIGN { bop := OP_STAR; }
        else if op == OP_SLASH_ASSIGN { bop := OP_SLASH; }
        else if op == OP_PERCENT_ASSIGN { bop := OP_PERCENT; }
        rhs := EvalBinary(bop, cur, rhs);
      }
      rhs := StoreThrough(lv, rhs);
    }

    method LoadCurrent(lv: Lval) returns (cur: SValue)
      requires Valid() && LvalOk(Abs(), lv)
      ensures cur == CurrentOf(lv, Abs())
    {
      cur := Void;
      if lv.Cell? {
        cur := Load(lv.loc);
      } else if lv.MemberCell? {
        var base := Load(lv.loc);
        if base.Vec? {
          cur := Float(if lv.axis == 'x' as int then base.x else if lv.axis == 'y' as int then base.y else base.z);
        }
      }
    }

    method StoreThrough(lv: Lval, value: SValue) returns (rhs: SValue)
      requires Valid() && LvalOk(Abs(), lv)
      modifies this, frame
      ensures (rhs, Abs()) == StoreTo(lv, value, old(Abs()))
      ensures Valid() && Undisturbed()
    {
      rhs := value;
      if lv.Cell? {
        var cell := Load(lv.loc);
        var tt := Tag(cell);
        if tt == VOID && !rhs.Void? { tt := Tag(rhs); }
        rhs := Coerce(rhs, tt);
        Save(lv.loc, rhs);
      } else if lv.MemberCell? {
        var base := Load(lv.loc);
        if base.Vec? || base.Rot? {
          rhs := Coerce(rhs, FLOAT);
          var f := if rhs.Float? then rhs.f else if rhs.Int? then rhs.i as real else 0.0;
          if lv.axis == 'x' as int { base := base.(x := f); }
          else if lv.axis == 'y' as int { base := base.(y := f); }
          else if lv.axis == 'z' as int { base := base.(z := f); }
          else if lv.axis == 's' as int && base.Rot? { base := base.(w := f); }
          Save(lv.loc, base);
        }
      }
    }

    // ----- statements -----

    /** vm_exec. With `returning` or `jumping` already up it does nothing. Where `state` sits
        in handlers only, and nothing is asked for at the start, the flags afterwards are
        those of the outcome. */
    method ExecStmt(s: Stmt, fuel: nat) returns (status: Status)
      requires Valid()
      modifies this, frame
      ensures !old(Quiet()) && !s.SNull? ==> status.Ok? && Undisturbed() && Abs() == old(Abs())
      ensures old(Quiet()) ==> Agrees(Exec(prog, host, s, old(Abs()), fuel), status, Signal(), Abs())
      ensures old(Quiet()) && status.Ok? ==> Valid() && Scoped()
      ensures old(Quiet()) && old(pending) == -1 && Requests.HandlersOnly(prog) ==>
              Agrees(ByOutcome(prog, host, s, old(Abs()), fuel), status, Signal(), Abs())
      decreases fuel, s, 3
    {
      hide Requests.HandlersOnly, ByOutcome;
      if pending == -1 && Requests.HandlersOnly(prog) { FlagsDecide(prog, host, s, Abs(), fuel); }
      status := Ok;
      if s.SNull? || frame.returning || frame.jumping { return; }
      match s.kind {
        case Block(stmts) => status := ExecBlock(stmts, s, fuel);
        case If(cond, thn, els) =>
          var c;
          status, c := EvalExpr(cond, fuel);
          if !status.Ok? { return; }
          if Truthy(c) {
            status := ExecStmt(thn, fuel);
          } else if !els.SNull? {
            status := ExecStmt(els, fuel);
          }
        case While(_, _) => status := ExecWhile(s, fuel);
        case Do(_, _) => status := ExecDoWhile(s, fuel);
        case For(_, _, _, _) => status := ExecFor(s, fuel);
        case _ => status := ExecSimple(s, fuel);
      }
    }

    /** The statements that hold no other statement. */
    method ExecSimple(s: Stmt, fuel: nat) returns (status: Status)
      requires Valid() && Quiet() && s.S?
      requires !s.kind.Block? && !s.kind.If? && !s.kind.While? && !s.kind.Do? && !s.kind.For?
      modifies this, frame
      ensures Agrees(Exec(prog, host, s, old(Abs()), fuel), status, Signal(), Abs())
      ensures status.Ok? ==> Valid() && Scoped()
      decreases fuel, s, 2
    {
      hide Eval, EvalFrom, ExecLoop, ExecDo, ExecSeq, FindState;
      status := Ok;
      match s.kind {
        case Empty =>
        case Label(_) =>
        case ExprStmt(e) =>
          var v;
          status, v := EvalExpr(e, fuel);
        case Decl(ty, name, init) =>
          var v;
          status, v := EvalExpr(init, fuel);
          if !status.Ok? { return; }
          v := if v.Void? then DefaultOf(ty) else Coerce(v, ty);
          ghost var before := VarsOf(frame.locs);
          frame.Define(name, v);
          assert VarsOf(frame.locs) == before + [Var(name, v)];
        case Return(has, e) =>
          if has != 0 {
            var v;
            status, v := EvalExpr(e, fuel);
            if !status.Ok? { return; }
            frame.retVal := v;
          }
          frame.returning := true;
        case Jump(l) =>
          frame.jumping := true;
          frame.jumpName := l;
        case StateChange(n) => AskForState(PoolStr(prog, n));
      }
    }

    method AskForState(want: string)
      modifies this`pending
      ensures pending == if FindState(prog, want) >= 0 then FindState(prog, want) else old(pending)
    {
      var i := 0;
      while i < |prog.states| && PoolStr(prog, prog.states[i].name) != want
        invariant 0 <= i <= |prog.states|
        invariant forall j :: 0 <= j < i ==> PoolStr(prog, prog.states[j].name) != want
      {
        i := i + 1;
      }
      if i < |prog.states| { pending := i; }
    }

    method FindLabelIn(stmts: seq<Stmt>, name: int) returns (k: int)
      ensures k == FindLabel(stmts, name)
    {
      k := 0;
      while k < |stmts| && !IsLabel(stmts[k], name)
        invariant 0 <= k <= |stmts|
        invariant forall j :: 0 <= j < k ==> !IsLabel(stmts[j], name)
      {
        k := k + 1;
      }
      if k == |stmts| { k := -1; }
    }

    method ExecBlock(stmts: seq<Stmt>, ghost s: Stmt, fuel: nat) returns (status: Status)
      requires Valid() && Quiet() && s.S? && s.kind == Block(stmts)
      modifies this, frame
      ensures Agrees(Exec(prog, host, s, old(Abs()), fuel), status, Signal(), Abs())
      ensures status.Ok? ==> Valid() && Restored()
      decreases fuel, s, 2
    {
      frame.Enter();
      assert Abs() == old(Abs());
      status := BlockLoop(stmts, fuel);
      if !status.Ok? { return; }
      ghost var inner := Abs();
      frame.Leave(|old(frame.locs)|);
      assert Abs().locals == inner.locals[..|old(frame.locs)|];
      assert Keeps(old(Abs()).locals, Abs().locals);
    }

    /** The statements of a block, inside its scope. */
    method BlockLoop(stmts: seq<Stmt>, fuel: nat) returns (status: Status)
      requires Valid() && Quiet()
      modifies this, frame
      ensures Agrees(ExecSeq(prog, host, stmts, 0, old(Abs()), fuel), status, Signal(), Abs())
      ensures status.Ok? ==> Valid() && Scoped()
      decreases fuel, stmts, 2
    {
      hide Exec, Eval, ByOutcome, Requests.HandlersOnly, Keeps;
      status := Ok;
      var i: nat, fl: nat := 0, fuel;
      while i < |stmts|
        invariant 0 <= i <= |stmts| && fl <= fuel && status.Ok?
        invariant Valid() && Quiet() && Scoped()
        invariant ExecSeq(prog, host, stmts, 0, old(Abs()), fuel) == ExecSeq(prog, host, stmts, i, Abs(), fl)
        decreases fl, |stmts| - i
      {
        status := ExecStmt(stmts[i], fl);
        if !status.Ok? { return; }
        if frame.returning { break; }
        if pending >= 0 { break; }
        if frame.jumping {
          var idx := FindLabelIn(stmts, frame.jumpName);
          if idx < 0 { break; }
          if idx < i {
            if fl == 0 { return OutOfFuel; }
            fl := fl - 1;
          }
          frame.jumping := false;
          i := idx;
        }
        i := i + 1;
      }
    }

    method ExecWhile(s: Stmt, fuel: nat) returns (status: Status)
      requires Valid() && Quiet() && s.S? && s.kind.While?
      modifies this, frame
      ensures Agrees(Exec(prog, host, s, old(Abs()), fuel), status, Signal(), Abs())
      ensures status.Ok? ==> Valid() && Scoped()
      decreases fuel, s, 2
    {
      status := Ok;
      var safety := 0;
      while safety < LOOP_CAP
        invariant 0 <= safety <= LOOP_CAP && status.Ok?
        invariant Valid() && Quiet() && Scoped()
        invariant ExecLoop(prog, host, s, LOOP_CAP, old(Abs()), fuel)
            == ExecLoop(prog, host, s, LOOP_CAP - safety, Abs(), fuel)
      {
        var c;
        status, c := EvalExpr(s.kind.cond, fuel);
        if !status.Ok? { return; }
        if !Truthy(c) { break; }
        status := ExecStmt(s.kind.body, fuel);
        if !status.Ok? { return; }
        if frame.returning || frame.jumping { break; }
        if pending >= 0 { break; }
        safety := safety + 1;
      }
    }

    method ExecDoWhile(s: Stmt, fuel: nat) returns (status: Status)
      requires Valid() && Quiet() && s.S? && s.kind.Do?
      modifies this, frame
      ensures Agrees(Exec(prog, host, s, old(Abs()), fuel), status, Signal(), Abs())
      ensures status.Ok? ==> Valid() && Scoped()
      decreases fuel, s, 2
    {
      status := Ok;
      var safety := 0;
      while safety < LOOP_CAP
        invariant 0 <= safety <= LOOP_CAP && status.Ok?
        invariant Valid() && Quiet() && Scoped()
        invariant ExecDo(prog, host, s, LOOP_CAP, old(Abs()), fuel)
            == ExecDo(prog, host, s, LOOP_CAP - safety, Abs(), fuel)
      {
        status := ExecStmt(s.kind.body, fuel);
        if !status.Ok? { return; }
        if frame.returning || frame.jumping { break; }
        if pending >= 0 { break; }
        var c;
        status, c := EvalExpr(s.kind.cond, fuel);
        if !status.Ok? { return; }
        if !Truthy(c) { break; }
        safety := safety + 1;
      }
    }

    method ExecFor(s: Stmt, fuel: nat) returns (status: Status)
      requires Valid() && Quiet() && s.S? && s.kind.For?
      modifies this, frame
      ensures Agrees(Exec(prog, host, s, old(Abs()), fuel), status, Signal(), Abs())
      ensures status.Ok? ==> Valid() && Restored()
      decreases fuel, s, 2
    {
      frame.Enter();
      assert Abs() == old(Abs());
      var vs;
      status, vs := EvalItems(s.kind.init0, fuel);
      if !status.Ok? { return; }
      status := ForLoop(s, fuel);
      if !status.Ok? { return; }
      ghost var inner := Abs();
      frame.Leave(|old(frame.locs)|);
      assert Abs().locals == inner.locals[..|old(frame.locs)|];
      assert Keeps(old(Abs()).locals, Abs().locals);
    }

    /** The iterations of a `for`, after its initialisers. */
    method ForLoop(s: Stmt, fuel: nat) returns (status: Status)
      requires Valid() && Quiet() && s.S? && s.kind.For?
      modifies this, frame
      ensures Agrees(ExecLoop(prog, host, s, LOOP_CAP, old(Abs()), fuel), status, Signal(), Abs())
      ensures status.Ok? ==> Valid() && Scoped()
      decreases fuel, s, 1
    {
      hide Eval, Exec, EvalFrom, ByOutcome, Requests.HandlersOnly;
      status := Ok;
      var safety := 0;
      while safety < LOOP_CAP
        invariant 0 <= safety <= LOOP_CAP && status.Ok?
        invariant Valid() && Quiet() && Scoped()
        invariant ExecLoop(prog, host, s, LOOP_CAP, old(Abs()), fuel)
               == ExecLoop(prog, host, s, LOOP_CAP - safety, Abs(), fuel)
      {
        NoCondition(prog, host, Abs(), fuel);
        if !s.kind.cond.ENull? {
          var c;
          status, c := EvalExpr(s.kind.cond, fuel);
          if !status.Ok? { return; }
          if !Truthy(c) { break; }
        }
        status := ExecStmt(s.kind.body, fuel);
        if !status.Ok? { return; }
        if frame.returning || frame.jumping { break; }
        if pending >= 0 { break; }
        var vs;
        status, vs := EvalItems(s.kind.post, fuel);
        if !status.Ok? { return; }
        safety := safety + 1;
      }
    }

    /** vm_dispatch: runs a handler in a fresh frame and pops it again. Where `state` sits in
        handlers only, and nothing is asked for at the start, a state is asked for afterwards
        exactly when the handler's outcome is a switch to it. */
    method VmDispatch(ev: EventDecl, args: seq<SValue>, fuel: nat) returns (status: Status, ghost o: Outcome)
      requires Valid()
      modifies this, frame
      ensures Agrees(Dispatch(prog, host, ev, args, old(Abs()), fuel), status, o, Abs())
      ensures status.Ok? ==> Valid() && Undisturbed()
      ensures old(pending) == -1 && Requests.HandlersOnly(prog) ==>
              var m := Outcomes.Bare(old(Abs()));
              Agrees(Outcomes.Flagged(Outcomes.Dispatch(prog, host, ev, args, m, fuel)), status, o, Abs())
    {
      hide Requests.HandlersOnly, Outcomes.Dispatch, Outcomes.Flagged, Exec;
      if pending == -1 && Requests.HandlersOnly(prog) {
        Outcomes.DispatchAgrees(prog, host, ev, args, Outcomes.Bare(Abs()), fuel);
        assert Outcomes.Full(Outcomes.Bare(Abs())) == Abs();
      }
      var f := new Frame();
      var i := 0;
      while i < |ev.params| && i < |args|
        invariant 0 <= i <= |args| && i <= |ev.params| && |f.locs| == i
        invariant fresh(f) && f.scopeDepth == 0 && f.retVal == Void && !f.returning && !f.jumping
        invariant forall j :: 0 <= j < i ==>
          f.locs[j] == Binding(ev.params[j].name, Coerce(args[j], ev.params[j].ty), 0)
        invariant Valid() && Undisturbed() && Abs() == old(Abs())
      {
        f.Define(ev.params[i].name, Coerce(args[i], ev.params[i].ty));
        i := i + 1;
      }
      f.parent := frame;
      frame := f;
      assert VarsOf(f.locs) == BindArgs(ev.params, args);
      status := ExecStmt(ev.body, fuel);
      o := Signal();
      if !status.Ok? { return; }
      frame := f.parent;
    }
  }
}
