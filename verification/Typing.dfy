/** A static type discipline and its soundness. The static environment is a store whose
    values stand for their types, so names resolve in it exactly as they do at run time. */
module Typing {
  import opened Values
  import opened Ast
  import opened Semantics
  import opened Scoping
  import opened Requests

  /** Return types of the built-ins. */
  type Sig = string -> int

  const ILL := -1

  predicate IsNumTy(t: int) { t == INTEGER || t == FLOAT }

  predicate IsTextTy(t: int) { t == STRING || t == KEY }

  predicate IsCellTy(t: int) { INTEGER <= t <= LIST }

  // ----- operators -----

  function CoerceTag(t: int, to: int): int {
    if to == FLOAT && t == INTEGER then FLOAT
    else if to == KEY && t == STRING then KEY
    else if to == STRING && t == KEY then STRING
    else t
  }

  function BinType(op: int, a: int, b: int): int {
    if op == OP_PLUS then
      if IsTextTy(a) && IsTextTy(b) then STRING
      else if a == b && (a == VECTOR || a == ROTATION) then a
      else if a == LIST || b == LIST then LIST
      else if a == INTEGER && b == INTEGER then INTEGER
      else if IsNumTy(a) && IsNumTy(b) then FLOAT
      else ILL
    else if op == OP_MINUS then
      if a == b && (a == VECTOR || a == ROTATION) then a
      else if a == INTEGER && b == INTEGER then INTEGER
      else if IsNumTy(a) && IsNumTy(b) then FLOAT
      else ILL
    else if op == OP_STAR then
      if a == VECTOR && b == VECTOR then FLOAT
      else if a == VECTOR && (IsNumTy(b) || b == ROTATION) then VECTOR
      else if IsNumTy(a) && b == VECTOR then VECTOR
      else if a == ROTATION && b == ROTATION then ROTATION
      else if a == INTEGER && b == INTEGER then INTEGER
      else if IsNumTy(a) && IsNumTy(b) then FLOAT
      else ILL
    else if op == OP_SLASH then
      if a == VECTOR && IsNumTy(b) then VECTOR
      else if a == INTEGER && b == INTEGER then INTEGER
      else if IsNumTy(a) && IsNumTy(b) then FLOAT
      else ILL
    else if op == OP_PERCENT then if a == VECTOR && b == VECTOR then VECTOR else INTEGER
    else if OP_AND <= op <= OP_XOR || OP_LAND <= op <= OP_LOR || OP_EQ <= op <= OP_SHR then INTEGER
    else ILL
  }

  lemma CoerceHasTag(v: SValue, to: int)
    ensures Tag(Coerce(v, to)) == CoerceTag(Tag(v), to)
  {
  }

  /** An operator gives the type the compiler expects of it, except exactly when it
      divides an integer by the integer zero. */
  lemma OperatorTypes(op: int, l: SValue, r: SValue)
    requires BinType(op, Tag(l), Tag(r)) != ILL
    ensures Tag(EvalBinary(op, l, r)) == BinType(op, Tag(l), Tag(r)) <==> !IsZeroDivision(op, l, r)
  {
    hide Plus, Minus, Star, Slash, Percent, BitOp, Compare, SvEqual, Tag, Truthy;
    if op == OP_PLUS || op == OP_MINUS || op == OP_STAR {
      SumTypes(op, l, r);
    } else if op == OP_SLASH || op == OP_PERCENT {
      QuotientTypes(op, l, r);
    } else {
      TestTypes(op, l, r);
    }
  }

  /** Operands without a type are those for which the operator gives nothing at all. */
  lemma NothingWithoutType(op: int, l: SValue, r: SValue)
    ensures BinType(op, Tag(l), Tag(r)) == ILL <==> EvalBinary(op, l, r) == Void
  {
    hide Wrap64, Items, CDiv, CMod, Bits, Pow2, StrLess, SvEqual, Truthy;
    if BinType(op, Tag(l), Tag(r)) != ILL { OperatorTypes(op, l, r); }
  }

  lemma SumTypes(op: int, l: SValue, r: SValue)
    requires (op == OP_PLUS || op == OP_MINUS || op == OP_STAR) && BinType(op, Tag(l), Tag(r)) != ILL
    ensures Tag(EvalBinary(op, l, r)) == BinType(op, Tag(l), Tag(r)) && !IsZeroDivision(op, l, r)
  {
    hide Wrap64, Items;
  }

  lemma QuotientTypes(op: int, l: SValue, r: SValue)
    requires (op == OP_SLASH || op == OP_PERCENT) && BinType(op, Tag(l), Tag(r)) != ILL
    ensures Tag(EvalBinary(op, l, r)) == BinType(op, Tag(l), Tag(r)) <==> !IsZeroDivision(op, l, r)
  {
    hide Wrap64, CDiv, CMod;
  }

  /** Bit operators, logic and comparisons. */
  lemma TestTypes(op: int, l: SValue, r: SValue)
    requires op != OP_PLUS && op != OP_MINUS && op != OP_STAR && op != OP_SLASH && op != OP_PERCENT
    requires BinType(op, Tag(l), Tag(r)) != ILL
    ensures Tag(EvalBinary(op, l, r)) == BinType(op, Tag(l), Tag(r)) && !IsZeroDivision(op, l, r)
  {
    hide Wrap64, Bits, StrLess, SvEqual, Pow2, Truthy;
  }

  lemma CastTypes(h: Host, v: SValue, to: int)
    requires IsCellTy(to)
    ensures Tag(DoCast(h, v, to)) == to
  {
  }

  // ----- expressions -----

  /** Static environments: every cell has a proper type. */
  predicate Shape(p: Program, sh: Store) {
    && Fits(p, sh)
    && (forall i :: 0 <= i < |sh.globals| ==> sh.globals[i] != Void)
    && (forall i :: 0 <= i < |sh.locals| ==> sh.locals[i].val != Void)
  }

  /** The store has the bindings of the environment, with values of their types. */
  predicate SameTypes(sh: Store, st: Store) {
    && SameLayout(sh, st)
    && (forall i :: 0 <= i < |sh.globals| ==> Tag(sh.globals[i]) == Tag(st.globals[i]))
    && (forall i :: 0 <= i < |sh.locals| ==> Tag(sh.locals[i].val) == Tag(st.locals[i].val))
  }

  function PrefixType(lv: Lval, sh: Store): int
    requires LvalOk(sh, lv)
  {
    match lv
    case NoCell => INTEGER
    case Cell(c) => Tag(Read(sh, c))
    case MemberCell(c, _) => if Read(sh, c).Vec? then FLOAT else ILL
  }

  /** Compound assignment to a member of a rotation has no type. */
  function AssignType(op: int, lv: Lval, r: int, sh: Store): int
    requires LvalOk(sh, lv)
  {
    if lv.NoCell? || r == ILL then ILL
    else
      var base := Read(sh, lv.loc);
      var cur := if lv.Cell? then Tag(base) else if base.Vec? then FLOAT else ILL;
      var q := if op == OP_ASSIGN then r else if cur == ILL then ILL else BinType(CompoundOp(op), cur, r);
      if q == ILL then ILL
      else if lv.Cell? then if CoerceTag(q, Tag(base)) == Tag(base) then Tag(base) else ILL
      else if (base.Vec? || base.Rot?) && IsNumTy(q) then FLOAT
      else ILL
  }

  function TypeOf(p: Program, h: Host, sig: Sig, sh: Store, e: Expr): int
    requires Fits(p, sh)
  {
    match e
    case ENull => VOID
    case E(ty, _, k) =>
      match k
      case IntLit(_) => INTEGER
      case FloatLit(_) => FLOAT
      case StrLit(_) => if ty == KEY then KEY else STRING
      case Ident(n) => Tag(ReadName(p, h, n, sh))
      case VecLit(x, y, z) =>
        if IsNumTy(TypeOf(p, h, sig, sh, x)) && IsNumTy(TypeOf(p, h, sig, sh, y)) && IsNumTy(TypeOf(p, h, sig, sh, z))
        then VECTOR else ILL
      case RotLit(x, y, z, w) =>
        if && IsNumTy(TypeOf(p, h, sig, sh, x)) && IsNumTy(TypeOf(p, h, sig, sh, y))
           && IsNumTy(TypeOf(p, h, sig, sh, z)) && IsNumTy(TypeOf(p, h, sig, sh, w))
        then ROTATION else ILL
      case ListLit(items) =>
        if forall i :: 0 <= i < |items| ==> TypeOf(p, h, sig, sh, items[i]) != ILL then LIST else ILL
      case CallExpr(fn, args) =>
        var f := FindFunc(p.funcs, fn);
        if f >= 0 then
          var fd := p.funcs[f];
          if |args| == |fd.params| && forall i :: 0 <= i < |args| ==>
               CoerceTag(TypeOf(p, h, sig, sh, args[i]), fd.params[i].ty) == fd.params[i].ty
          then fd.ret else ILL
        else if forall i :: 0 <= i < |args| ==> TypeOf(p, h, sig, sh, args[i]) != ILL
        then sig(PoolStr(p, fn)) else ILL
      case Member(b, _) => if TypeOf(p, h, sig, sh, b) != ILL then FLOAT else ILL
      case Cast(to, inner) => if TypeOf(p, h, sig, sh, inner) != ILL && IsCellTy(to) then to else ILL
      case Unary(op, inner) =>
        if op == OP_INC || op == OP_DEC then PrefixType(Resolve(p, inner, sh), sh)
        else
          var t := TypeOf(p, h, sig, sh, inner);
          if t != ILL && (op == OP_NOT || op == OP_TILDE) then INTEGER else t
      case Postfix(_, inner) =>
        var lv := Resolve(p, inner, sh);
        if lv.Cell? then Tag(Read(sh, lv.loc)) else INTEGER
      case Binary(op, l, r) =>
        var a, b := TypeOf(p, h, sig, sh, l), TypeOf(p, h, sig, sh, r);
        if a == ILL || b == ILL then ILL else BinType(op, a, b)
      case Assign(op, l, r) =>
        AssignType(op, Resolve(p, l, sh), TypeOf(p, h, sig, sh, r), sh)
  }

  // ----- statements -----

  /** The environment after a statement: only a declaration extends it. */
  function After(sh: Store, s: Stmt): Store {
    if s.S? && s.kind.Decl? then sh.(locals := sh.locals + [Var(s.kind.name, DefaultOf(s.kind.ty))]) else sh
  }

  predicate IsDecl(s: Stmt) { s.S? && s.kind.Decl? }

  /** The environment in front of statement i of a block. */
  function EnvAt(sh: Store, stmts: seq<Stmt>, i: nat): (r: Store)
    requires i <= |stmts|
    ensures r.globals == sh.globals
  {
    if i == 0 then sh else After(EnvAt(sh, stmts, i - 1), stmts[i - 1])
  }

  /** A jump may not cross a declaration of the block that catches it. */
  ghost predicate JumpsKeepEnv(sh: Store, stmts: seq<Stmt>) {
    forall i, l :: 0 <= i < |stmts| && MayJump(stmts[i], l) && FindLabel(stmts, l) >= 0 ==>
      EnvAt(sh, stmts, i) == EnvAt(sh, stmts, FindLabel(stmts, l) + 1)
  }

  ghost predicate SOk(p: Program, h: Host, sig: Sig, sh: Store, s: Stmt, ret: int)
    requires Fits(p, sh)
    decreases s
  {
    match s
    case SNull => true
    case S(_, k) =>
      match k
      case ExprStmt(e) => TypeOf(p, h, sig, sh, e) != ILL
      case Decl(ty, _, init) =>
        var t := TypeOf(p, h, sig, sh, init);
        IsCellTy(ty) && (t == VOID || CoerceTag(t, ty) == ty)
      case Block(stmts) =>
        && JumpsKeepEnv(sh, stmts)
        && forall i :: 0 <= i < |stmts| ==> SOk(p, h, sig, EnvAt(sh, stmts, i), stmts[i], ret)
      case If(cond, thn, els) =>
        && TypeOf(p, h, sig, sh, cond) != ILL
        && !IsDecl(thn) && !IsDecl(els)
        && SOk(p, h, sig, sh, thn, ret) && SOk(p, h, sig, sh, els, ret)
      case While(cond, body) => TypeOf(p, h, sig, sh, cond) != ILL && !IsDecl(body) && SOk(p, h, sig, sh, body, ret)
      case Do(body, cond) => TypeOf(p, h, sig, sh, cond) != ILL && !IsDecl(body) && SOk(p, h, sig, sh, body, ret)
      case For(init, cond, post, body) =>
        && (forall i :: 0 <= i < |init| ==> TypeOf(p, h, sig, sh, init[i]) != ILL)
        && TypeOf(p, h, sig, sh, cond) != ILL
        && (forall i :: 0 <= i < |post| ==> TypeOf(p, h, sig, sh, post[i]) != ILL)
        && !IsDecl(body) && SOk(p, h, sig, sh, body, ret)
      case Return(has, e) => if has != 0 then ret != ILL && TypeOf(p, h, sig, sh, e) == ret else ret == VOID
      case _ => true
  }

  /** The statement cannot complete normally. */
  predicate MustReturn(s: Stmt) {
    s.S? &&
    match s.kind
    case Return(_, _) => true
    case If(_, thn, els) => MustReturn(thn) && MustReturn(els)
    case Block(stmts) => |stmts| > 0 && MustReturn(stmts[|stmts| - 1])
    case _ => false
  }

  function GlobalShape(p: Program): Store {
    Store(seq(|p.globals|, i requires 0 <= i < |p.globals| => DefaultOf(p.globals[i].ty)), -1, [], [])
  }

  function ParamShape(p: Program, ps: seq<Param>): Store {
    GlobalShape(p).(locals := seq(|ps|, i requires 0 <= i < |ps| => Var(ps[i].name, DefaultOf(ps[i].ty))))
  }

  /** A function with a return type ends in `return` on every path, and none of its jumps
      leaves its body. */
  ghost predicate FnOk(p: Program, h: Host, sig: Sig, fd: FuncDecl) {
    && VOID <= fd.ret <= LIST
    && (forall i :: 0 <= i < |fd.params| ==> IsCellTy(fd.params[i].ty))
    && SOk(p, h, sig, ParamShape(p, fd.params), fd.body, fd.ret)
    && (fd.ret != VOID ==> MustReturn(fd.body) && forall l :: !MayJump(fd.body, l))
  }

  ghost predicate ProgOk(p: Program, h: Host, sig: Sig) {
    && HandlersOnly(p)
    && (forall i :: 0 <= i < |p.globals| ==> IsCellTy(p.globals[i].ty))
    && (forall k :: 0 <= k < |p.funcs| ==> FnOk(p, h, sig, p.funcs[k]))
    && (forall calls: seq<Call> :: |calls| > 0 ==>
          Tag(h.builtin(calls)) == sig(calls[|calls| - 1].name))
  }

  /** Environments of a program type its globals as declared. */
  predicate EnvOf(p: Program, sh: Store) {
    Shape(p, sh) && sh.globals == GlobalShape(p).globals
  }

  // ----- soundness of expressions -----

  ghost predicate TypedResult(r: R<SValue>, t: int, sh: Store) {
    match r
    case Done(v, st) => Tag(v) == t && SameTypes(sh, st) && st.pending < 0
    case Halt => true
    case Fault(w) => w == ZeroDivision
  }

  /** Well-typed expressions give values of their type, keep the type of every cell and
      never write through a null cell; only a zero divisor can stop them. */
  lemma {:induction false} EvalTyped(p: Program, h: Host, sig: Sig, sh: Store, e: Expr, st: Store, fuel: nat)
    requires ProgOk(p, h, sig) && h.strict && EnvOf(p, sh) && Fits(p, st) && SameTypes(sh, st) && st.pending < 0
    requires TypeOf(p, h, sig, sh, e) != ILL
    ensures TypedResult(Eval(p, h, e, st, fuel), TypeOf(p, h, sig, sh, e), sh)
    decreases fuel, e, 1
  {
    hide ProgOk, SameTypes, Shape, EvalBinary, BinType, Binary2, AssignTo, AssignType, PrefixStep, PrefixType,
         PostfixStep, DoCast, EvalUnary, Resolve, ReadName, FloatOf, MemberOf;
    if e.E? {
      match e.kind
      case Ident(n) => NameTyped(p, h, n, sh, st);
      case VecLit(_, _, _) => TupleTyped(p, h, sig, sh, e, st, fuel);
      case RotLit(_, _, _, _) => TupleTyped(p, h, sig, sh, e, st, fuel);
      case ListLit(items) => ItemsTyped(p, h, sig, sh, items, 0, [], st, fuel);
      case CallExpr(fn, args) => CallTyped(p, h, sig, sh, e, st, fuel);
      case Member(b, _) => EvalTyped(p, h, sig, sh, b, st, fuel);
      case Cast(to, inner) =>
        EvalTyped(p, h, sig, sh, inner, st, fuel);
        var a := Eval(p, h, inner, st, fuel);
        if a.Done? { CastTypes(h, a.v, to); }
      case Unary(op, inner) =>
        if op == OP_INC || op == OP_DEC {
          CellsAgree(p, inner, sh, st);
          PrefixTyped(op, Resolve(p, inner, sh), sh, st);
        } else {
          EvalTyped(p, h, sig, sh, inner, st, fuel);
          var a := Eval(p, h, inner, st, fuel);
          if a.Done? { UnaryTypes(op, a.v); }
        }
      case Postfix(op, inner) =>
        CellsAgree(p, inner, sh, st);
        PostfixTyped(op, Resolve(p, inner, sh), sh, st);
      case Binary(_, _, _) => InfixTyped(p, h, sig, sh, e, st, fuel);
      case Assign(_, _, _) => InfixTyped(p, h, sig, sh, e, st, fuel);
      case _ =>
    }
  }

  lemma {:induction false} TupleTyped(p: Program, h: Host, sig: Sig, sh: Store, e: Expr, st: Store, fuel: nat)
    requires e.E? && (e.kind.VecLit? || e.kind.RotLit?)
    requires ProgOk(p, h, sig) && h.strict && EnvOf(p, sh) && Fits(p, st) && SameTypes(sh, st) && st.pending < 0
    requires TypeOf(p, h, sig, sh, e) != ILL
    ensures TypedResult(Eval(p, h, e, st, fuel), TypeOf(p, h, sig, sh, e), sh)
    decreases fuel, e, 0
  {
    hide ProgOk, SameTypes, Shape, FloatOf;
    match e.kind
    case VecLit(x, y, z) =>
      EvalTyped(p, h, sig, sh, x, st, fuel);
      var a := Eval(p, h, x, st, fuel);
      if a.Done? {
        EvalTyped(p, h, sig, sh, y, a.st, fuel);
        var b := Eval(p, h, y, a.st, fuel);
        if b.Done? { EvalTyped(p, h, sig, sh, z, b.st, fuel); }
      }
  case RotLit(x, y, z, w) =>
      EvalTyped(p, h, sig, sh, x, st, fuel);
      var a := Eval(p, h, x, st, fuel);
      if a.Done? {
        EvalTyped(p, h, sig, sh, y, a.st, fuel);
        var b := Eval(p, h, y, a.st, fuel);
        if b.Done? {
          EvalTyped(p, h, sig, sh, z, b.st, fuel);
          var c := Eval(p, h, z, b.st, fuel);
          if c.Done? { EvalTyped(p, h, sig, sh, w, c.st, fuel); }
        }
      }
  }

  lemma {:induction false} InfixTyped(p: Program, h: Host, sig: Sig, sh: Store, e: Expr, st: Store, fuel: nat)
    requires e.E? && (e.kind.Binary? || e.kind.Assign?)
    requires ProgOk(p, h, sig) && h.strict && EnvOf(p, sh) && Fits(p, st) && SameTypes(sh, st) && st.pending < 0
    requires TypeOf(p, h, sig, sh, e) != ILL
    ensures TypedResult(Eval(p, h, e, st, fuel), TypeOf(p, h, sig, sh, e), sh)
    decreases fuel, e, 0
  {
    hide ProgOk, SameTypes, Shape, EvalBinary, BinType, Binary2, AssignTo, AssignType, Resolve;
    match e.kind
    case Binary(op, l, r) =>
      EvalTyped(p, h, sig, sh, l, st, fuel);
      var a := Eval(p, h, l, st, fuel);
      if a.Done? {
        EvalTyped(p, h, sig, sh, r, a.st, fuel);
        var b := Eval(p, h, r, a.st, fuel);
        if b.Done? { BinaryTyped(h, op, a.v, b.v, sh, b.st); }
        LogicTypes(op, TypeOf(p, h, sig, sh, l), TypeOf(p, h, sig, sh, r));
      }
  case Assign(op, l, r) =>
      AssignNeedsType(op, Resolve(p, l, sh), TypeOf(p, h, sig, sh, r), sh);
      EvalTyped(p, h, sig, sh, r, st, fuel);
      CellsAgree(p, l, sh, st);
      var a := Eval(p, h, r, st, fuel);
      if a.Done? {
        CellsProper(p, Resolve(p, l, sh), sh);
        AssignTyped(h, op, Resolve(p, l, sh), a.v, sh, a.st);
      }
  }

  lemma AssignNeedsType(op: int, lv: Lval, r: int, sh: Store)
    requires LvalOk(sh, lv) && AssignType(op, lv, r, sh) != ILL
    ensures r != ILL
  {
  }

  lemma NameTyped(p: Program, h: Host, n: int, sh: Store, st: Store)
    requires Fits(p, sh) && Fits(p, st) && SameTypes(sh, st)
    ensures Tag(ReadName(p, h, n, st)) == Tag(ReadName(p, h, n, sh))
  {
    ResolveStable(p, Named(n), sh, st);
  }

  lemma CellsAgree(p: Program, e: Expr, sh: Store, st: Store)
    requires Fits(p, sh) && Fits(p, st) && SameTypes(sh, st)
    ensures Resolve(p, e, sh) == Resolve(p, e, st)
  {
    ResolveStable(p, e, sh, st);
  }

  lemma CellsProper(p: Program, lv: Lval, sh: Store)
    requires Shape(p, sh) && LvalOk(sh, lv)
    ensures !lv.NoCell? ==> Read(sh, lv.loc) != Void
  {
  }

  lemma UnaryTypes(op: int, v: SValue)
    ensures Tag(EvalUnary(op, v)) == if op == OP_NOT || op == OP_TILDE then INTEGER else Tag(v)
  {
  }

  lemma LogicTypes(op: int, a: int, b: int)
    ensures op == OP_LAND || op == OP_LOR ==> BinType(op, a, b) == INTEGER
  {
  }

  lemma BinaryTyped(h: Host, op: int, a: SValue, b: SValue, sh: Store, st: Store)
    requires h.strict && SameTypes(sh, st) && st.pending < 0 && BinType(op, Tag(a), Tag(b)) != ILL
    ensures TypedResult(Binary2(h, op, a, b, st), BinType(op, Tag(a), Tag(b)), sh)
  {
    OperatorTypes(op, a, b);
    hide EvalBinary, BinType, SameTypes;
  }

  lemma PrefixTyped(op: int, lv: Lval, sh: Store, st: Store)
    requires SameTypes(sh, st) && LvalOk(sh, lv) && st.pending < 0 && PrefixType(lv, sh) != ILL
    ensures TypedResult(PrefixStep(op, lv, st), PrefixType(lv, sh), sh)
  {
    assert LvalOk(st, lv);
  }

  lemma PostfixTyped(op: int, lv: Lval, sh: Store, st: Store)
    requires SameTypes(sh, st) && LvalOk(sh, lv)
    ensures SameTypes(sh, PostfixStep(op, lv, st).1) && PostfixStep(op, lv, st).1.pending == st.pending
    ensures Tag(PostfixStep(op, lv, st).0) == if lv.Cell? then Tag(Read(sh, lv.loc)) else INTEGER
  {
    assert LvalOk(st, lv);
  }

  lemma AssignTyped(h: Host, op: int, lv: Lval, v: SValue, sh: Store, st: Store)
    requires SameTypes(sh, st) && LvalOk(sh, lv) && st.pending < 0 && h.strict
    requires !lv.NoCell? ==> Read(sh, lv.loc) != Void
    requires AssignType(op, lv, Tag(v), sh) != ILL
    ensures TypedResult(AssignTo(h, op, lv, v, st), AssignType(op, lv, Tag(v), sh), sh)
  {
    assert LvalOk(st, lv);
    if op == OP_ASSIGN {
      StoreTyped(lv, v, sh, st);
    } else {
      var cur := CurrentOf(lv, st);
      OperatorTypes(CompoundOp(op), cur, v);
      if !IsZeroDivision(CompoundOp(op), cur, v) {
        StoreTyped(lv, EvalBinary(CompoundOp(op), cur, v), sh, st);
      }
    }
  }

  lemma StoreTyped(lv: Lval, v: SValue, sh: Store, st: Store)
    requires SameTypes(sh, st) && LvalOk(sh, lv) && !lv.NoCell? && Read(sh, lv.loc) != Void
    requires lv.Cell? ==> CoerceTag(Tag(v), Tag(Read(sh, lv.loc))) == Tag(Read(sh, lv.loc))
    requires lv.MemberCell? ==> (Read(sh, lv.loc).Vec? || Read(sh, lv.loc).Rot?) && IsNumTy(Tag(v))
    ensures LvalOk(st, lv) && SameTypes(sh, StoreTo(lv, v, st).1)
    ensures Tag(StoreTo(lv, v, st).0) == if lv.Cell? then Tag(Read(sh, lv.loc)) else FLOAT
  {
    assert LvalOk(st, lv);
    assert Tag(Read(st, lv.loc)) == Tag(Read(sh, lv.loc));
  }

  /** A call: a user function returns its declared type, on every path. */
  lemma {:induction false} CallTyped(p: Program, h: Host, sig: Sig, sh: Store, e: Expr, st: Store, fuel: nat)
    requires ProgOk(p, h, sig) && h.strict && EnvOf(p, sh) && Fits(p, st) && SameTypes(sh, st) && st.pending < 0
    requires e.E? && e.kind.CallExpr? && TypeOf(p, h, sig, sh, e) != ILL
    ensures TypedResult(Eval(p, h, e, st, fuel), TypeOf(p, h, sig, sh, e), sh)
    decreases fuel, e.kind.args, |e.kind.args| + 1
  {
    hide ProgOk, SameTypes, Shape, FnOk, SOk, Exec, ParamShape, GlobalShape, EnvOf;
    var args := e.kind.args;
    var k := FindFunc(p.funcs, e.kind.fn);
    if k >= 0 {
      var fd := p.funcs[k];
      FnTypes(p, h, sig, fd);
      ArgsTyped(p, h, sig, sh, fd.params, args, 0, [], st, fuel);
      var a := BindFrom(p, h, fd.params, args, 0, [], st, fuel);
      if a.Done? && fuel > 0 {
        var inner := a.st.(locals := a.v);
        ParamsTyped(p, h, sig, fd, sh, a.st, a.v);
        BodyTyped(p, h, sig, fd, inner, fuel - 1);
        var b := Exec(p, h, fd.body, inner, fuel - 1);
        if b.Done? { BackInCaller(p, sh, a.st, b.st); }
      }
    } else {
      ItemsTyped(p, h, sig, sh, args, 0, [], st, fuel);
      var a := EvalFrom(p, h, args, 0, [], st, fuel);
      if a.Done? { BuiltinTyped(p, h, sig, sh, a.st, Call(PoolStr(p, e.kind.fn), a.v)); }
    }
  }

  lemma FnTypes(p: Program, h: Host, sig: Sig, fd: FuncDecl)
    requires ProgOk(p, h, sig) && fd in p.funcs
    ensures FnOk(p, h, sig, fd) && StateFree(fd.body) && VOID <= fd.ret
    ensures forall i :: 0 <= i < |fd.params| ==> IsCellTy(fd.params[i].ty)
  {
  }

  lemma BuiltinTyped(p: Program, h: Host, sig: Sig, sh: Store, st: Store, c: Call)
    requires ProgOk(p, h, sig) && SameTypes(sh, st)
    ensures Tag(h.builtin(st.calls + [c])) == sig(c.name)
    ensures SameTypes(sh, st.(calls := st.calls + [c]))
  {
    var calls := st.calls + [c];
    assert calls[|calls| - 1] == c;
  }

  lemma ParamsTyped(p: Program, h: Host, sig: Sig, fd: FuncDecl, sh: Store, st: Store, vars: seq<Var>)
    requires ProgOk(p, h, sig) && FnOk(p, h, sig, fd) && EnvOf(p, sh) && SameTypes(sh, st) && Bound(fd.params, vars)
    ensures EnvOf(p, ParamShape(p, fd.params)) && SameTypes(ParamShape(p, fd.params), st.(locals := vars))
  {
    hide SOk;
  }

  lemma BackInCaller(p: Program, sh: Store, caller: Store, st: Store)
    requires EnvOf(p, sh) && SameTypes(sh, caller) && SameTypes(GlobalShape(p), st.(locals := []))
    ensures SameTypes(sh, st.(locals := caller.locals))
  {
  }

  /** The body of a user function, run in its parameters. */
  lemma {:induction false} BodyTyped(p: Program, h: Host, sig: Sig, fd: FuncDecl, st: Store, fuel: nat)
    requires ProgOk(p, h, sig) && h.strict && fd in p.funcs && st.pending < 0
    requires EnvOf(p, ParamShape(p, fd.params)) && SameTypes(ParamShape(p, fd.params), st)
    ensures match Exec(p, h, fd.body, st, fuel)
            case Done(o, st') =>
              && Tag(if o.Returned? then o.v else Void) == fd.ret
              && SameTypes(GlobalShape(p), st'.(locals := []))
              && st'.pending < 0
            case Halt => true
            case Fault(w) => w == ZeroDivision
    decreases fuel, fd.body, LOOP_CAP + 2
  {
    hide SOk, Exec;
    FnTypes(p, h, sig, fd);
    ExecTyped(p, h, sig, ParamShape(p, fd.params), fd.body, fd.ret, st, fuel);
    StatementsDoNotAsk(p, h, fd.body, st, fuel);
    JumpsLeaveByName(p, h, fd.body, st, fuel);
    if fd.ret != VOID { MustReturnReturns(p, h, fd.body, st, fuel); }
  }

  /** Every parameter is bound under its name to a value of its type. */
  predicate Bound(ps: seq<Param>, vars: seq<Var>) {
    && |vars| == |ps|
    && forall i :: 0 <= i < |ps| ==> vars[i].name == ps[i].name && Tag(vars[i].val) == ps[i].ty
  }

  lemma {:induction false} ItemsTyped(p: Program, h: Host, sig: Sig, sh: Store, es: seq<Expr>, i: nat,
                                      acc: seq<SValue>, st: Store, fuel: nat)
    requires ProgOk(p, h, sig) && h.strict && EnvOf(p, sh) && Fits(p, st) && SameTypes(sh, st) && st.pending < 0
    requires i <= |es| && |acc| == i
    requires forall j :: 0 <= j < |es| ==> TypeOf(p, h, sig, sh, es[j]) != ILL
    ensures var r := EvalFrom(p, h, es, i, acc, st, fuel);
            (r.Done? ==> SameTypes(sh, r.st) && r.st.pending < 0) && (r.Fault? ==> r.why == ZeroDivision)
    decreases fuel, es, |es| - i
  {
    hide Eval, SameTypes, ProgOk, Shape, TypeOf;
    if i < |es| {
      EvalTyped(p, h, sig, sh, es[i], st, fuel);
      var a := Eval(p, h, es[i], st, fuel);
      if a.Done? { ItemsTyped(p, h, sig, sh, es, i + 1, acc + [a.v], a.st, fuel); }
    }
  }

  lemma {:induction false} ArgsTyped(p: Program, h: Host, sig: Sig, sh: Store, ps: seq<Param>, es: seq<Expr>, i: nat,
                                     acc: seq<Var>, st: Store, fuel: nat)
    requires ProgOk(p, h, sig) && h.strict && EnvOf(p, sh) && Fits(p, st) && SameTypes(sh, st) && st.pending < 0
    requires i <= |es| == |ps| && |acc| == i
    requires forall j :: 0 <= j < |ps| ==>
               IsCellTy(ps[j].ty) && CoerceTag(TypeOf(p, h, sig, sh, es[j]), ps[j].ty) == ps[j].ty
    requires Bound(ps[..i], acc)
    ensures var r := BindFrom(p, h, ps, es, i, acc, st, fuel);
            && (r.Done? ==> SameTypes(sh, r.st) && r.st.pending < 0 && Bound(ps, r.v))
            && (r.Fault? ==> r.why == ZeroDivision)
    decreases fuel, es, |es| - i
  {
    hide Eval, SameTypes, ProgOk, Shape, TypeOf;
    if i == |es| {
      assert ps[..i] == ps;
    } else {
      EvalTyped(p, h, sig, sh, es[i], st, fuel);
      var a := Eval(p, h, es[i], st, fuel);
      if a.Done? {
        CoerceHasTag(a.v, ps[i].ty);
        assert ps[..i + 1] == ps[..i] + [ps[i]];
        ArgsTyped(p, h, sig, sh, ps, es, i + 1, acc + [Var(ps[i].name, Coerce(a.v, ps[i].ty))], a.st, fuel);
      }
    }
  }

  // ----- soundness of statements -----

  ghost predicate TypedOutcome(r: R<Outcome>, ret: int, sh: Store) {
    match r
    case Done(o, st) => SameTypes(sh, st) && (o.Returned? ==> Tag(o.v) == ret)
    case Halt => true
    case Fault(w) => w == ZeroDivision
  }

  /** Well-typed statements keep the type of every cell, however they are left. */
  lemma {:induction false} ExecTyped(p: Program, h: Host, sig: Sig, sh: Store, s: Stmt, ret: int, st: Store, fuel: nat)
    requires ProgOk(p, h, sig) && h.strict && EnvOf(p, sh) && Fits(p, st) && SameTypes(sh, st) && st.pending < 0
    requires SOk(p, h, sig, sh, s, ret)
    ensures TypedOutcome(Exec(p, h, s, st, fuel), ret, After(sh, s))
    decreases fuel, s, LOOP_CAP + 1
  {
    hide Eval, ProgOk, JumpsKeepEnv, Shape, TypeOf;
    if s.S? {
      match s.kind
      case ExprStmt(e) => EvalTyped(p, h, sig, sh, e, st, fuel);
      case Decl(ty, name, init) =>
        EvalTyped(p, h, sig, sh, init, st, fuel);
        var a := Eval(p, h, init, st, fuel);
        if a.Done? { CoerceHasTag(a.v, ty); }
      case Return(has, e) => if has != 0 { EvalTyped(p, h, sig, sh, e, st, fuel); }
      case Block(stmts) =>
        SeqTyped(p, h, sig, sh, stmts, 0, ret, st, fuel);
      case If(cond, thn, els) =>
        EvalTyped(p, h, sig, sh, cond, st, fuel);
        var c := Eval(p, h, cond, st, fuel);
        if c.Done? { ExecTyped(p, h, sig, sh, if Truthy(c.v) then thn else els, ret, c.st, fuel); }
      case While(_, _) => LoopTyped(p, h, sig, sh, s, LOOP_CAP, ret, st, fuel);
      case Do(_, _) => DoTyped(p, h, sig, sh, s, LOOP_CAP, ret, st, fuel);
      case For(init, _, _, _) =>
        ItemsTyped(p, h, sig, sh, init, 0, [], st, fuel);
        var a := EvalFrom(p, h, init, 0, [], st, fuel);
        if a.Done? { LoopTyped(p, h, sig, sh, s, LOOP_CAP, ret, a.st, fuel); }
      case _ =>
    }
  }

  lemma {:induction false} EnvAtShape(p: Program, h: Host, sig: Sig, sh: Store, stmts: seq<Stmt>, i: nat, ret: int)
    requires EnvOf(p, sh) && i <= |stmts|
    requires forall j :: 0 <= j < |stmts| ==> SOk(p, h, sig, EnvAt(sh, stmts, j), stmts[j], ret)
    ensures EnvOf(p, EnvAt(sh, stmts, i)) && sh.locals <= EnvAt(sh, stmts, i).locals
  {
    hide SOk, EnvOf, After;
    if i > 0 {
      EnvAtShape(p, h, sig, sh, stmts, i - 1, ret);
      DeclTyped(p, h, sig, EnvAt(sh, stmts, i - 1), stmts[i - 1], ret);
    }
  }

  lemma DeclTyped(p: Program, h: Host, sig: Sig, sh: Store, s: Stmt, ret: int)
    requires EnvOf(p, sh) && SOk(p, h, sig, sh, s, ret)
    ensures EnvOf(p, After(sh, s)) && sh.locals <= After(sh, s).locals
  {
    hide TypeOf;
  }

  /** The rest of a block, from statement i. Cutting the locals back to those of the
      enclosing scope leaves a store of the enclosing environment. */
  lemma {:induction false} SeqTyped(p: Program, h: Host, sig: Sig, sh: Store, blk: seq<Stmt>, i: nat, ret: int,
                                    st: Store, fuel: nat)
    requires ProgOk(p, h, sig) && h.strict && EnvOf(p, sh) && Fits(p, st) && i <= |blk| && st.pending < 0
    requires SameTypes(EnvAt(sh, blk, i), st) && JumpsKeepEnv(sh, blk)
    requires forall j :: 0 <= j < |blk| ==> SOk(p, h, sig, EnvAt(sh, blk, j), blk[j], ret)
    ensures var r := ExecSeq(p, h, blk, i, st, fuel);
            && (r.Done? ==>
                  && |r.st.locals| >= |sh.locals|
                  && SameTypes(sh, r.st.(locals := r.st.locals[..|sh.locals|]))
                  && (r.v.Returned? ==> Tag(r.v.v) == ret))
            && (r.Fault? ==> r.why == ZeroDivision)
    decreases fuel, blk, |blk| - i
  {
    hide Eval, Exec, SOk, ProgOk, SameTypes, Shape, MayJump, TypeOf, Keeps, EnvAt, After, JumpsKeepEnv;
    EnvAtShape(p, h, sig, sh, blk, i, ret);
    if i < |blk| {
      var env := EnvAt(sh, blk, i);
      ExecTyped(p, h, sig, env, blk[i], ret, st, fuel);
      EnvAtShape(p, h, sig, sh, blk, i + 1, ret);
      EnvStep(sh, blk, i);
      var a := Exec(p, h, blk[i], st, fuel);
      if a.Done? {
        CutBack(sh, After(env, blk[i]), a.st);
        if a.v.Normal? {
          SeqTyped(p, h, sig, sh, blk, i + 1, ret, a.st, fuel);
        } else if a.v.Jumping? && FindLabel(blk, a.v.target) >= 0 {
          var k := FindLabel(blk, a.v.target);
          JumpsLeaveByName(p, h, blk[i], st, fuel);
          JumpStep(sh, blk, i, a.v.target);
          if k >= i { SeqTyped(p, h, sig, sh, blk, k + 1, ret, a.st, fuel); }
          else if fuel > 0 { SeqTyped(p, h, sig, sh, blk, k + 1, ret, a.st, fuel - 1); }
        }
      }
    } else {
      CutBack(sh, EnvAt(sh, blk, i), st);
    }
  }

  lemma EnvStep(sh: Store, blk: seq<Stmt>, i: nat)
    requires i < |blk|
    ensures EnvAt(sh, blk, i + 1) == After(EnvAt(sh, blk, i), blk[i])
  {
  }

  lemma JumpStep(sh: Store, blk: seq<Stmt>, i: nat, l: int)
    requires i < |blk| && JumpsKeepEnv(sh, blk) && MayJump(blk[i], l) && FindLabel(blk, l) >= 0
    ensures EnvAt(sh, blk, FindLabel(blk, l) + 1) == After(EnvAt(sh, blk, i), blk[i])
  {
    hide EnvAt;
  }

  lemma CutBack(sh: Store, env: Store, st: Store)
    requires SameTypes(env, st) && env.globals == sh.globals && sh.locals <= env.locals
    ensures |st.locals| >= |sh.locals| && SameTypes(sh, st.(locals := st.locals[..|sh.locals|]))
  {
    forall i | 0 <= i < |sh.locals|
      ensures sh.locals[i].name == st.locals[i].name && Tag(sh.locals[i].val) == Tag(st.locals[i].val)
    {
      assert sh.locals[i] == env.locals[i];
    }
  }

  lemma {:induction false} LoopTyped(p: Program, h: Host, sig: Sig, sh: Store, s: Stmt, n: nat, ret: int, st: Store,
                                     fuel: nat)
    requires s.S? && (s.kind.While? || s.kind.For?) && n <= LOOP_CAP
    requires ProgOk(p, h, sig) && h.strict && EnvOf(p, sh) && Fits(p, st) && SameTypes(sh, st) && st.pending < 0
    requires SOk(p, h, sig, sh, s, ret)
    ensures TypedOutcome(ExecLoop(p, h, s, n, st, fuel), ret, sh)
    decreases fuel, s, n
  {
    hide Eval, Exec, ProgOk, JumpsKeepEnv, SameTypes, Shape, TypeOf;
    if n > 0 {
      EvalTyped(p, h, sig, sh, s.kind.cond, st, fuel);
      var c := Eval(p, h, s.kind.cond, st, fuel);
      if c.Done? {
        ExecTyped(p, h, sig, sh, s.kind.body, ret, c.st, fuel);
        var b := Exec(p, h, s.kind.body, c.st, fuel);
        if b.Done? && b.v.Normal? {
          if s.kind.While? {
            LoopTyped(p, h, sig, sh, s, n - 1, ret, b.st, fuel);
          } else {
            ItemsTyped(p, h, sig, sh, s.kind.post, 0, [], b.st, fuel);
            var d := EvalFrom(p, h, s.kind.post, 0, [], b.st, fuel);
            if d.Done? { LoopTyped(p, h, sig, sh, s, n - 1, ret, d.st, fuel); }
          }
        }
      }
    }
  }

  lemma {:induction false} DoTyped(p: Program, h: Host, sig: Sig, sh: Store, s: Stmt, n: nat, ret: int, st: Store,
                                   fuel: nat)
    requires s.S? && s.kind.Do? && n <= LOOP_CAP
    requires ProgOk(p, h, sig) && h.strict && EnvOf(p, sh) && Fits(p, st) && SameTypes(sh, st) && st.pending < 0
    requires SOk(p, h, sig, sh, s, ret)
    ensures TypedOutcome(ExecDo(p, h, s, n, st, fuel), ret, sh)
    decreases fuel, s, n
  {
    hide Eval, Exec, ProgOk, JumpsKeepEnv, SameTypes, Shape, TypeOf;
    if n > 0 {
      ExecTyped(p, h, sig, sh, s.kind.body, ret, st, fuel);
      var b := Exec(p, h, s.kind.body, st, fuel);
      if b.Done? && b.v.Normal? {
        EvalTyped(p, h, sig, sh, s.kind.cond, b.st, fuel);
        var c := Eval(p, h, s.kind.cond, b.st, fuel);
        if c.Done? { DoTyped(p, h, sig, sh, s, n - 1, ret, c.st, fuel); }
      }
    }
  }

  // ----- ending in `return` -----

  lemma {:induction false} MustReturnReturns(p: Program, h: Host, s: Stmt, st: Store, fuel: nat)
    requires Fits(p, st) && MustReturn(s)
    ensures Exec(p, h, s, st, fuel).Done? ==> !Exec(p, h, s, st, fuel).v.Normal?
    decreases fuel, s, LOOP_CAP + 1
  {
    hide Eval;
    match s.kind
    case Block(stmts) => LastReturns(p, h, stmts, 0, st, fuel);
    case If(cond, thn, els) =>
      var c := Eval(p, h, cond, st, fuel);
      if c.Done? { MustReturnReturns(p, h, if Truthy(c.v) then thn else els, c.st, fuel); }
    case _ =>
  }

  lemma {:induction false} LastReturns(p: Program, h: Host, blk: seq<Stmt>, i: nat, st: Store, fuel: nat)
    requires Fits(p, st) && i < |blk| && MustReturn(blk[|blk| - 1])
    ensures ExecSeq(p, h, blk, i, st, fuel).Done? ==> !ExecSeq(p, h, blk, i, st, fuel).v.Normal?
    decreases fuel, blk, |blk| - i
  {
    hide Eval, Exec;
    var a := Exec(p, h, blk[i], st, fuel);
    if i == |blk| - 1 { MustReturnReturns(p, h, blk[i], st, fuel); }
    if a.Done? {
      if a.v.Normal? {
        LastReturns(p, h, blk, i + 1, a.st, fuel);
      } else if a.v.Jumping? && FindLabel(blk, a.v.target) >= 0 {
        var k := FindLabel(blk, a.v.target);
        if k >= i { LastReturns(p, h, blk, k + 1, a.st, fuel); }
        else if fuel > 0 { LastReturns(p, h, blk, k + 1, a.st, fuel - 1); }
      }
    }
  }
}
