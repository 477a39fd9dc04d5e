/** What assignments and steps leave in a cell, told by what is read afterwards. */
module CellLaws {
  import opened MachineWords
  import opened Values
  import opened Ast
  import opened Semantics
  import opened OperatorLaws

  const AXES := {115, 120, 121, 122}

  predicate HasMember(v: SValue, axis: int) { axis in {120, 121, 122} || (v.Rot? && axis == 115) }

  /** A member that is written reads as written, and the others as before. */
  lemma MemberWritten(v: SValue, axis: int, f: real, other: int)
    requires (v.Vec? || v.Rot?) && other != axis
    ensures var u := WithMember(v, axis, f);
            && Tag(u) == Tag(v) && MemberOf(u, other) == MemberOf(v, other)
            && if HasMember(v, axis) then MemberOf(u, axis) == f else u == v
  {
  }

  /** The number written for a value; 0 for what is no number. */
  predicate Written(x: SValue, y: real) { if IsNum(x) then Denotes(x, y) else y == 0.0 }

  predicate Faults(h: Host, op: int, l: SValue, r: SValue) {
    h.strict && op == OP_SLASH_ASSIGN && l.Int? && r.Int? && r.i == 0
  }

  /** What an assignment with token op stores where `was` stood: the operator of a compound
      assignment has its token plus five. */
  function Assigned(op: int, was: SValue, rhs: SValue): SValue {
    if op == 36 then rhs else EvalBinary(op + 5, was, rhs)
  }

  /** A cell reads as the value assigned, converted to the type the cell had. */
  lemma AssignCell(h: Host, op: int, c: Loc, rhs: SValue, st: Store, d: Loc)
    requires LocOk(st, c) && 36 <= op <= 41 && !Faults(h, op, Read(st, c), rhs)
    requires LocOk(st, d) && d != c
    ensures var r, was := AssignTo(h, op, Cell(c), rhs, st), Read(st, c);
            && r.Done? && LocOk(r.st, c) && LocOk(r.st, d) && Read(r.st, d) == Read(st, d)
            && Read(r.st, c) == r.v
            && r.v == if was.Void? then Assigned(op, was, rhs) else Coerce(Assigned(op, was, rhs), Tag(was))
  {
    hide EvalBinary;
  }

  /** A member reads as the number assigned, other members as before. In a compound
      assignment a vector's member is combined with the right-hand side; a rotation's is
      not read. */
  lemma AssignMember(h: Host, op: int, c: Loc, axis: int, rhs: SValue, st: Store, y: real, other: int)
    requires LocOk(st, c) && 36 <= op <= 41
    requires var b := Read(st, c); (b.Vec? || b.Rot?) && HasMember(b, axis) && other != axis
    requires var b := Read(st, c);
             Written(Assigned(op, if b.Vec? then Float(MemberOf(b, axis)) else Void, rhs), y)
    ensures var r, b := AssignTo(h, op, MemberCell(c, axis), rhs, st), Read(st, c);
            && r.Done? && LocOk(r.st, c) && Tag(Read(r.st, c)) == Tag(b)
            && MemberOf(Read(r.st, c), axis) == y && MemberOf(Read(r.st, c), other) == MemberOf(b, other)
  {
    hide EvalBinary, WithMember, MemberOf, Assigned;
    var b := Read(st, c);
    var x := Assigned(op, CurrentOf(MemberCell(c, axis), st), rhs);
    CurrentMember(c, axis, st);
    AssignedValue(h, op, MemberCell(c, axis), rhs, st);
    MemberWritten(b, axis, y, other);
  }

  lemma CurrentMember(c: Loc, axis: int, st: Store)
    requires LocOk(st, c) && HasMember(Read(st, c), axis) && (Read(st, c).Vec? || Read(st, c).Rot?)
    ensures var b := Read(st, c);
            CurrentOf(MemberCell(c, axis), st) == if b.Vec? then Float(MemberOf(b, axis)) else Void
  {
  }

  lemma AssignedValue(h: Host, op: int, lv: Lval, rhs: SValue, st: Store)
    requires LvalOk(st, lv) && 36 <= op <= 41 && !Faults(h, op, CurrentOf(lv, st), rhs)
    ensures var (v, s1) := StoreTo(lv, Assigned(op, CurrentOf(lv, st), rhs), st);
            AssignTo(h, op, lv, rhs, st) == Done(v, s1)
  {
    hide EvalBinary, StoreTo, CurrentOf;
  }

  /** An unknown member of a vector reads as z in a compound assignment, and is not written. */
  lemma AssignUnknownMember(h: Host, op: int, c: Loc, axis: int, rhs: SValue, st: Store)
    requires LocOk(st, c) && 36 <= op <= 41 && Read(st, c).Vec? && !HasMember(Read(st, c), axis)
    ensures var r := AssignTo(h, op, MemberCell(c, axis), rhs, st);
            && r.Done? && LocOk(r.st, c) && Read(r.st, c) == Read(st, c)
            && r.v == Coerce(Assigned(op, Float(MemberOf(Read(st, c), 122)), rhs), FLOAT)
  {
    hide EvalBinary, Assigned;
    var b := Read(st, c);
    assert CurrentOf(MemberCell(c, axis), st) == Float(MemberOf(b, 122));
    AssignedValue(h, op, MemberCell(c, axis), rhs, st);
    MemberWritten(b, axis, 0.0, axis + 1);
  }

  /** A member of a variable is that member of its cell; a member of anything else has none. */
  lemma MemberCells(p: Program, b: Expr, axis: int, ty: int, lv: int, st: Store)
    requires Fits(p, st)
    ensures var l := Resolve(p, E(ty, lv, Member(b, axis)), st);
            match Resolve(p, b, st)
            case Cell(c) => l == MemberCell(c, axis)
            case _ => l == NoCell
  {
  }

  /** Without a cell an assignment only has a value. */
  lemma AssignNowhere(h: Host, op: int, rhs: SValue, st: Store)
    requires 36 <= op <= 41
    ensures AssignTo(h, op, NoCell, rhs, st) == Done(Assigned(op, Void, rhs), st)
  {
    hide EvalBinary;
  }

  /** One up for `++`, one down for `--`. */
  function Stepped(op: int, v: SValue): SValue {
    if IsNum(v) then EvalBinary(if op == 62 then OP_PLUS else OP_MINUS, v, Int(1)) else v
  }

  /** Steps change the cell alike; the prefix forms give the new value, the postfix forms the
      old one. */
  lemma StepCell(op: int, c: Loc, st: Store, d: Loc)
    requires LocOk(st, c) && LocOk(st, d) && d != c && (op == 62 || op == 63)
    ensures var r, q := PrefixStep(op, Cell(c), st), PostfixStep(op, Cell(c), st);
            && r.Done? && r.st == q.1 && q.0 == Read(st, c) && r.v == Stepped(op, Read(st, c))
            && LocOk(r.st, c) && Read(r.st, c) == r.v && LocOk(r.st, d) && Read(r.st, d) == Read(st, d)
  {
    Steps(Read(st, c));
  }

  /** A prefix step of a vector's member moves that member alone by one; whatever is not x or y
      counts as z. */
  lemma StepMember(op: int, c: Loc, axis: int, st: Store, m: int, other: int)
    requires LocOk(st, c) && Read(st, c).Vec? && other != m && (op == 62 || op == 63)
    requires m == if axis == 120 || axis == 121 then axis else 122
    ensures var r, b := PrefixStep(op, MemberCell(c, axis), st), Read(st, c);
            && r.Done? && LocOk(r.st, c) && Read(r.st, c).Vec?
            && MemberOf(Read(r.st, c), m) == MemberOf(b, m) + (if op == 62 then 1.0 else -1.0)
            && r.v == Float(MemberOf(Read(r.st, c), m))
            && MemberOf(Read(r.st, c), other) == MemberOf(b, other)
  {
  }

  /** The innermost binding of a name hides all others. */
  lemma InnermostFirst(p: Program, h: Host, name: int, st: Store, k: nat)
    requires Fits(p, st) && k < |st.locals| && st.locals[k].name == name
    requires forall j :: k < j < |st.locals| ==> st.locals[j].name != name
    ensures FindCell(p, name, st) == Cell(Local(k)) && ReadName(p, h, name, st) == st.locals[k].val
  {
  }

  /** Then come globals, the first of the name, and then the constants of the emulator. */
  lemma GlobalsNext(p: Program, h: Host, name: int, st: Store, g: nat)
    requires Fits(p, st) && g <= |p.globals| && forall j :: 0 <= j < |st.locals| ==> st.locals[j].name != name
    requires forall j :: 0 <= j < g ==> p.globals[j].name != name
    ensures g < |p.globals| && p.globals[g].name == name ==>
              FindCell(p, name, st) == Cell(Global(g)) && ReadName(p, h, name, st) == st.globals[g]
    ensures g == |p.globals| ==>
              && FindCell(p, name, st) == NoCell
              && ReadName(p, h, name, st) == h.konst(if 0 <= name < |p.strings| then p.strings[name] else "")
  {
  }

  /** The members of a vector literal are the numbers its parts denote. */
  lemma LiteralMember(h: Host, v: SValue, x: real)
    requires Denotes(v, x)
    ensures FloatOf(h, v) == x
  {
  }

  /** `&&` with a false left side and `||` with a true one do not evaluate their right side;
      otherwise its truth is the result. */
  lemma ShortCircuit(p: Program, h: Host, ty: int, l: Expr, r: Expr, st: Store, fuel: nat)
    requires Fits(p, st) && Eval(p, h, l, st, fuel).Done?
    ensures var (a, rest) := (Eval(p, h, l, st, fuel).v, Eval(p, h, l, st, fuel).st);
            var both, either := E(ty, 0, Binary(51, l, r)), E(ty, 0, Binary(52, l, r));
            && (IsDefault(a) ==> Eval(p, h, both, st, fuel) == Done(Int(0), rest))
            && (!IsDefault(a) ==> Eval(p, h, either, st, fuel) == Done(Int(1), rest))
            && forall e :: e == (if IsDefault(a) then either else both) ==>
                 var q, w := Eval(p, h, r, rest, fuel), Eval(p, h, e, st, fuel);
                 if q.Done? then w.Done? && w.st == q.st && Says(w.v, !IsDefault(q.v))
                 else w == q.PropagateFailure()
  {
    hide EvalBinary, Truthy, IsDefault;
    var q := Eval(p, h, l, st, fuel);
    Truth(q.v, q.v);
    var w := Eval(p, h, r, q.st, fuel);
    if w.Done? { Truth(w.v, w.v); }
  }
}
