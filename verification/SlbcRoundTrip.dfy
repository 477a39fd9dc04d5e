/** The encoder of the byte code, and the proof that parsing undoes it. */
module SlbcRoundTrip {
  import opened Ast
  import opened MachineWords
  import opened Slbc

  // ----- what can be encoded -----

  predicate IsByte(x: int) { 0 <= x < 256 }

  predicate ExprOk(e: Expr) {
    e.E? ==>
      IsByte(e.ty) && IsByte(e.lv) &&
      match e.kind
      case IntLit(i) => IsI64(i)
      case FloatLit(b) => IsI64(b)
      case StrLit(i) => IsI32(i)
      case Ident(i) => IsI32(i)
      case VecLit(x, y, z) => ExprOk(x) && ExprOk(y) && ExprOk(z)
      case RotLit(x, y, z, w) => ExprOk(x) && ExprOk(y) && ExprOk(z) && ExprOk(w)
      case ListLit(es) => |es| < TWO32 && forall i :: 0 <= i < |es| ==> ExprOk(es[i])
      case CallExpr(fn, es) => IsI32(fn) && |es| < TWO32 && forall i :: 0 <= i < |es| ==> ExprOk(es[i])
      case Member(b, axis) => ExprOk(b) && IsByte(axis)
      case Cast(to, x) => IsByte(to) && ExprOk(x)
      case Unary(op, x) => IsByte(op) && ExprOk(x)
      case Postfix(op, x) => IsByte(op) && ExprOk(x)
      case Binary(op, l, r) => IsByte(op) && ExprOk(l) && ExprOk(r)
      case Assign(op, l, r) => IsByte(op) && ExprOk(l) && ExprOk(r)
  }

  predicate StmtOk(s: Stmt) {
    s.S? ==>
      IsI32(s.line) &&
      match s.kind
      case ExprStmt(e) => ExprOk(e)
      case Decl(ty, n, e) => IsByte(ty) && IsI32(n) && ExprOk(e)
      case Block(ss) => |ss| < TWO32 && forall i :: 0 <= i < |ss| ==> StmtOk(ss[i])
      case If(c, t, e) => ExprOk(c) && StmtOk(t) && StmtOk(e)
      case While(c, b) => ExprOk(c) && StmtOk(b)
      case Do(b, c) => StmtOk(b) && ExprOk(c)
      case For(init, c, post, b) =>
        && |init| < 256 && (forall i :: 0 <= i < |init| ==> ExprOk(init[i]))
        && |post| < 256 && (forall i :: 0 <= i < |post| ==> ExprOk(post[i]))
        && ExprOk(c) && StmtOk(b)
      case Return(has, e) => IsByte(has) && ExprOk(e) && (has == 0 ==> e == ENull)
      case Jump(i) => IsI32(i)
      case Label(i) => IsI32(i)
      case StateChange(i) => IsI32(i)
      case Empty => true
  }

  predicate ParamsOk(ps: seq<Param>) {
    |ps| < 256 && forall i :: 0 <= i < |ps| ==> IsByte(ps[i].ty) && IsI32(ps[i].name)
  }

  predicate FuncOk(f: FuncDecl) {
    IsI32(f.name) && IsI32(f.line) && IsByte(f.ret) && IsByte(f.hasRet) && ParamsOk(f.params) && StmtOk(f.body)
  }

  predicate EventOk(e: EventDecl) { IsI32(e.name) && IsI32(e.line) && ParamsOk(e.params) && StmtOk(e.body) }

  predicate StateOk(s: StateDecl) {
    && IsI32(s.name) && IsI32(s.line) && IsByte(s.isDefault) && |s.events| < TWO32
    && forall i :: 0 <= i < |s.events| ==> EventOk(s.events[i])
  }

  predicate GlobalOk(g: GlobalVar) { IsByte(g.ty) && IsI32(g.name) && ExprOk(g.init) }

  predicate StringOk(t: string) { IsText(t) && |t| < TWO32 }

  predicate ProgramOk(p: Program) {
    && IsI32(p.flags)
    && |p.strings| < TWO32 && (forall i :: 0 <= i < |p.strings| ==> StringOk(p.strings[i]))
    && |p.globals| < TWO32 && (forall i :: 0 <= i < |p.globals| ==> GlobalOk(p.globals[i]))
    && |p.funcs| < TWO32 && (forall i :: 0 <= i < |p.funcs| ==> FuncOk(p.funcs[i]))
    && |p.states| < TWO32 && (forall i :: 0 <= i < |p.states| ==> StateOk(p.states[i]))
  }

  // ----- encoder -----

  function KindTag(k: ExprKind): Byte {
    match k
    case IntLit(_) => 0
    case FloatLit(_) => 1
    case StrLit(_) => 2
    case Ident(_) => 3
    case VecLit(_, _, _) => 4
    case RotLit(_, _, _, _) => 5
    case ListLit(_) => 6
    case CallExpr(_, _) => 7
    case Member(_, _) => 8
    case Cast(_, _) => 9
    case Unary(_, _) => 10
    case Postfix(_, _) => 11
    case Binary(_, _, _) => 12
    case Assign(_, _, _) => 13
  }

  function EncExpr(e: Expr): seq<Byte>
    requires ExprOk(e)
    decreases e
  {
    match e
    case ENull => [NULL_TAG]
    case E(ty, lv, k) => [KindTag(k), ty, lv] + EncKind(k)
  }

  predicate KindOk(k: ExprKind) { ExprOk(E(0, 0, k)) }

  function EncKind(k: ExprKind): seq<Byte>
    requires KindOk(k)
    decreases k
  {
    match k
    case IntLit(i) => EncI64(i)
    case FloatLit(b) => EncI64(b)
    case StrLit(i) => EncI32(i)
    case Ident(i) => EncI32(i)
    case VecLit(x, y, z) => EncExpr(x) + (EncExpr(y) + EncExpr(z))
    case RotLit(x, y, z, w) => EncExpr(x) + (EncExpr(y) + (EncExpr(z) + EncExpr(w)))
    case ListLit(es) => ToBytes4(|es|) + EncExprs(es, |es|)
    case CallExpr(fn, es) => EncI32(fn) + (ToBytes4(|es|) + EncExprs(es, |es|))
    case Member(b, axis) => EncExpr(b) + [axis]
    case Cast(to, x) => [to] + EncExpr(x)
    case Unary(op, x) => [op] + EncExpr(x)
    case Postfix(op, x) => [op] + EncExpr(x)
    case Binary(op, l, r) => [op] + (EncExpr(l) + EncExpr(r))
    case Assign(op, l, r) => [op] + (EncExpr(l) + EncExpr(r))
  }

  /** The last n expressions of a list. */
  function EncExprs(es: seq<Expr>, n: nat): seq<Byte>
    requires n <= |es| && forall i :: 0 <= i < |es| ==> ExprOk(es[i])
    decreases es, n
  {
    if n == 0 then [] else EncExpr(es[|es| - n]) + EncExprs(es, n - 1)
  }

  function EncOptExpr(e: Expr): seq<Byte>
    requires ExprOk(e)
  {
    if e.ENull? then [0] else [1] + EncExpr(e)
  }

  function EncLine(line: int, lines: bool): seq<Byte>
    requires IsI32(line)
  {
    if lines then EncI32(line) else []
  }

  function StmtTag(k: StmtKind): Byte {
    match k
    case ExprStmt(_) => 0
    case Decl(_, _, _) => 1
    case Block(_) => 2
    case If(_, _, _) => 3
    case While(_, _) => 4
    case Do(_, _) => 5
    case For(_, _, _, _) => 6
    case Return(_, _) => 7
    case Jump(_) => 8
    case Label(_) => 9
    case StateChange(_) => 10
    case Empty => 11
  }

  function EncStmt(s: Stmt, lines: bool): seq<Byte>
    requires StmtOk(s)
    decreases s, 0
  {
    match s
    case SNull => [NULL_TAG]
    case S(line, k) => [StmtTag(k)] + (EncLine(line, lines) + EncStmtKind(k, lines))
  }

  predicate StmtKindOk(k: StmtKind) { StmtOk(S(0, k)) }

  function EncElse(s: Stmt, lines: bool): seq<Byte>
    requires StmtOk(s)
    decreases s, 1
  {
    if s.SNull? then [0] else [1] + EncStmt(s, lines)
  }

  function EncStmtKind(k: StmtKind, lines: bool): seq<Byte>
    requires StmtKindOk(k)
    decreases k
  {
    match k
    case ExprStmt(e) => EncExpr(e)
    case Decl(ty, n, e) => [ty] + (EncI32(n) + EncOptExpr(e))
    case Block(ss) => ToBytes4(|ss|) + EncStmts(ss, |ss|, lines)
    case If(c, t, e) => EncExpr(c) + (EncStmt(t, lines) + EncElse(e, lines))
    case While(c, b) => EncExpr(c) + EncStmt(b, lines)
    case Do(b, c) => EncStmt(b, lines) + EncExpr(c)
    case For(init, c, post, b) =>
      [|init|] + (EncExprs(init, |init|) + (EncOptExpr(c) +
      ([|post|] + (EncExprs(post, |post|) + EncStmt(b, lines)))))
    case Return(has, e) => [has] + (if has == 0 then [] else EncExpr(e))
    case Jump(i) => EncI32(i)
    case Label(i) => EncI32(i)
    case StateChange(i) => EncI32(i)
    case Empty => []
  }

  function EncStmts(ss: seq<Stmt>, n: nat, lines: bool): seq<Byte>
    requires n <= |ss| && forall i :: 0 <= i < |ss| ==> StmtOk(ss[i])
    decreases ss, n
  {
    if n == 0 then [] else EncStmt(ss[|ss| - n], lines) + EncStmts(ss, n - 1, lines)
  }

  function EncString(t: string): seq<Byte>
    requires StringOk(t)
  {
    ToBytes4(|t|) + TextBytes(t)
  }

  function EncStrings(xs: seq<string>, n: nat): seq<Byte>
    requires n <= |xs| && forall i :: 0 <= i < |xs| ==> StringOk(xs[i])
  {
    if n == 0 then [] else EncString(xs[|xs| - n]) + EncStrings(xs, n - 1)
  }

  function EncGlobal(g: GlobalVar): seq<Byte>
    requires GlobalOk(g)
  {
    [g.ty] + (EncI32(g.name) + EncOptExpr(g.init))
  }

  function EncGlobals(xs: seq<GlobalVar>, n: nat): seq<Byte>
    requires n <= |xs| && forall i :: 0 <= i < |xs| ==> GlobalOk(xs[i])
  {
    if n == 0 then [] else EncGlobal(xs[|xs| - n]) + EncGlobals(xs, n - 1)
  }

  function EncParams(xs: seq<Param>, n: nat): seq<Byte>
    requires n <= |xs| && ParamsOk(xs)
  {
    if n == 0 then [] else ([xs[|xs| - n].ty] + EncI32(xs[|xs| - n].name)) + EncParams(xs, n - 1)
  }

  function EncFunc(f: FuncDecl, lines: bool): seq<Byte>
    requires FuncOk(f)
  {
    EncI32(f.name) + (EncLine(f.line, lines) + ([f.ret] + ([f.hasRet] + ([|f.params|] +
    (EncParams(f.params, |f.params|) + EncStmt(f.body, lines))))))
  }

  function EncFuncs(xs: seq<FuncDecl>, n: nat, lines: bool): seq<Byte>
    requires n <= |xs| && forall i :: 0 <= i < |xs| ==> FuncOk(xs[i])
  {
    if n == 0 then [] else EncFunc(xs[|xs| - n], lines) + EncFuncs(xs, n - 1, lines)
  }

  function EncEvent(e: EventDecl, lines: bool): seq<Byte>
    requires EventOk(e)
  {
    EncI32(e.name) + (EncLine(e.line, lines) + ([|e.params|] +
    (EncParams(e.params, |e.params|) + EncStmt(e.body, lines))))
  }

  function EncEvents(xs: seq<EventDecl>, n: nat, lines: bool): seq<Byte>
    requires n <= |xs| && forall i :: 0 <= i < |xs| ==> EventOk(xs[i])
  {
    if n == 0 then [] else EncEvent(xs[|xs| - n], lines) + EncEvents(xs, n - 1, lines)
  }

  function EncState(s: StateDecl, lines: bool): seq<Byte>
    requires StateOk(s)
  {
    EncI32(s.name) + (EncLine(s.line, lines) + ([s.isDefault] +
    (ToBytes4(|s.events|) + EncEvents(s.events, |s.events|, lines))))
  }

  function EncStates(xs: seq<StateDecl>, n: nat, lines: bool): seq<Byte>
    requires n <= |xs| && forall i :: 0 <= i < |xs| ==> StateOk(xs[i])
  {
    if n == 0 then [] else EncState(xs[|xs| - n], lines) + EncStates(xs, n - 1, lines)
  }

  function EncTables(p: Program, lines: bool): seq<Byte>
    requires ProgramOk(p)
  {
    ToBytes4(|p.strings|) + (EncStrings(p.strings, |p.strings|) +
    (ToBytes4(|p.globals|) + (EncGlobals(p.globals, |p.globals|) +
    (ToBytes4(|p.funcs|) + (EncFuncs(p.funcs, |p.funcs|, lines) +
    (ToBytes4(|p.states|) + EncStates(p.states, |p.states|, lines)))))))
  }

  function EncProgram(p: Program, version: int): seq<Byte>
    requires ProgramOk(p) && 1 <= version <= 2
  {
    MAGIC + (ToBytes4(version) + (EncI32(p.flags) + EncTables(p, version == 2)))
  }

  // ----- dropping line numbers -----

  function AtLine0(s: Stmt, lines: bool): Stmt
    decreases s
  {
    match s
    case SNull => SNull
    case S(line, k) => S(if lines then line else 0, KindAtLine0(k, lines))
  }

  function StmtsAt0(ss: seq<Stmt>, lines: bool): (r: seq<Stmt>)
    ensures |r| == |ss| && forall i :: 0 <= i < |ss| ==> r[i] == AtLine0(ss[i], lines)
    decreases ss
  {
    seq(|ss|, i requires 0 <= i < |ss| => AtLine0(ss[i], lines))
  }

  function KindAtLine0(k: StmtKind, lines: bool): StmtKind
    decreases k
  {
    match k
    case Block(ss) => Block(StmtsAt0(ss, lines))
    case If(c, t, e) => If(c, AtLine0(t, lines), AtLine0(e, lines))
    case While(c, b) => While(c, AtLine0(b, lines))
    case Do(b, c) => Do(AtLine0(b, lines), c)
    case For(init, c, post, b) => For(init, c, post, AtLine0(b, lines))
    case _ => k
  }

  function FuncAt0(f: FuncDecl, lines: bool): FuncDecl {
    f.(line := if lines then f.line else 0, body := AtLine0(f.body, lines))
  }

  function EventAt0(e: EventDecl, lines: bool): EventDecl {
    e.(line := if lines then e.line else 0, body := AtLine0(e.body, lines))
  }

  function EventsAt0(xs: seq<EventDecl>, lines: bool): (r: seq<EventDecl>)
    ensures |r| == |xs| && forall i :: 0 <= i < |xs| ==> r[i] == EventAt0(xs[i], lines)
  {
    seq(|xs|, i requires 0 <= i < |xs| => EventAt0(xs[i], lines))
  }

  function StateAt0(s: StateDecl, lines: bool): StateDecl {
    s.(line := if lines then s.line else 0,
       events := EventsAt0(s.events, lines))
  }

  function FuncsAt0(xs: seq<FuncDecl>, lines: bool): (r: seq<FuncDecl>)
    ensures |r| == |xs| && forall i :: 0 <= i < |xs| ==> r[i] == FuncAt0(xs[i], lines)
  {
    seq(|xs|, i requires 0 <= i < |xs| => FuncAt0(xs[i], lines))
  }

  function StatesAt0(xs: seq<StateDecl>, lines: bool): (r: seq<StateDecl>)
    ensures |r| == |xs| && forall i :: 0 <= i < |xs| ==> r[i] == StateAt0(xs[i], lines)
  {
    seq(|xs|, i requires 0 <= i < |xs| => StateAt0(xs[i], lines))
  }

  /** What a file of the version can carry: version 1 has no line numbers. */
  function Carried(p: Program, version: int): Program {
    var lines := version == 2;
    p.(funcs := FuncsAt0(p.funcs, lines), states := StatesAt0(p.states, lines))
  }

  /** Version 2 carries everything. */
  lemma {:induction false} KeepsLines(s: Stmt)
    ensures AtLine0(s, true) == s
    decreases s
  {
    if s.S? {
      match s.kind
      case Block(ss) => forall i | 0 <= i < |ss| { KeepsLines(ss[i]); }
      case If(_, t, e) => KeepsLines(t); KeepsLines(e);
      case While(_, b) => KeepsLines(b);
      case Do(b, _) => KeepsLines(b);
      case For(_, _, _, b) => KeepsLines(b);
      case _ =>
    }
  }

  lemma CarriedByVersion2(p: Program)
    ensures Carried(p, 2) == p
  {
    forall i | 0 <= i < |p.funcs| ensures FuncAt0(p.funcs[i], true) == p.funcs[i] { KeepsLines(p.funcs[i].body); }
    forall i | 0 <= i < |p.states| ensures StateAt0(p.states[i], true) == p.states[i] {
      forall j | 0 <= j < |p.states[i].events| ensures EventAt0(p.states[i].events[j], true) == p.states[i].events[j] {
        KeepsLines(p.states[i].events[j].body);
      }
    }
  }

  // ----- reading what was written -----

  /** The bytes b stand in src at off. */
  predicate At(src: seq<Byte>, off: nat, b: seq<Byte>) {
    off + |b| <= |src| && src[off..off + |b|] == b
  }

  lemma Split(src: seq<Byte>, off: nat, a: seq<Byte>, b: seq<Byte>)
    requires At(src, off, a + b)
    ensures At(src, off, a) && At(src, off + |a|, b)
  {
    var w := src[off..off + |a + b|];
    assert w[..|a|] == a && w[|a|..] == b;
    assert src[off..off + |a|] == w[..|a|];
    assert src[off + |a|..off + |a| + |b|] == w[|a|..];
  }

  lemma ReadU8(src: seq<Byte>, off: nat, b: Byte)
    requires At(src, off, [b])
    ensures U8(src, off) == Some(b, off + 1)
  {
    assert src[off..off + 1][0] == b;
  }

  lemma ReadI32(src: seq<Byte>, off: nat, x: int)
    requires IsI32(x) && At(src, off, EncI32(x))
    ensures I32(src, off) == Some(x, off + 4)
  {
  }

  lemma ReadI64(src: seq<Byte>, off: nat, x: int)
    requires IsI64(x) && At(src, off, EncI64(x))
    ensures I64(src, off) == Some(x, off + 8)
  {
  }

  lemma InBounds(src: seq<Byte>, off: nat, x: seq<Byte>)
    requires At(src, off, x)
    ensures off + |x| <= |src|
  {
  }

  lemma OneMore<T>(xs: seq<T>, k: nat)
    requires k < |xs|
    ensures xs[..k] + [xs[k]] == xs[..k + 1]
  {
  }

  lemma ReadCount(src: seq<Byte>, off: nat, x: nat)
    requires x < TWO32 && At(src, off, ToBytes4(x))
    ensures U32(src, off) == Some(x, off + 4)
  {
  }

  lemma ReadLine(src: seq<Byte>, off: nat, x: int, lines: bool)
    requires IsI32(x) && At(src, off, EncLine(x, lines))
    ensures ParseLine(src, off, lines) == Some(if lines then x else 0, off + |EncLine(x, lines)|)
  {
    if lines { ReadI32(src, off, x); }
  }

  lemma {:induction false} ReadExpr(src: seq<Byte>, off: nat, e: Expr)
    requires ExprOk(e) && At(src, off, EncExpr(e))
    ensures ParseExpr(src, off) == Some(e, off + |EncExpr(e)|)
    decreases e, 0
  {
    hide EncKind, ParseKind;
    match e
    case ENull => ReadU8(src, off, NULL_TAG);
    case E(ty, lv, k) =>
      var h: seq<Byte> := [KindTag(k), ty, lv];
      Split(src, off, h, EncKind(k));
      assert src[off..off + 3] == h;
      assert src[off] == h[0] && src[off + 1] == h[1] && src[off + 2] == h[2];
      ReadKind(src, off + 3, k);
  }

  lemma {:induction false} ReadKind(src: seq<Byte>, off: nat, k: ExprKind)
    requires KindOk(k) && At(src, off, EncKind(k))
    ensures ParseKind(src, off, KindTag(k)) == Some(k, off + |EncKind(k)|)
    decreases k, 2
  {
    hide ParseExpr, EncExpr, Le4, Le8, ToBytes4, ToBytes8, Signed32, Signed64, EncI32, EncI64, U8, U32, I32, I64, At;
    match k
    case IntLit(i) => ReadI64(src, off, i);
    case FloatLit(b) => ReadI64(src, off, b);
    case StrLit(i) => ReadI32(src, off, i);
    case Ident(i) => ReadI32(src, off, i);
    case VecLit(_, _, _) => ReadTuple(src, off, k);
    case RotLit(_, _, _, _) => ReadTuple(src, off, k);
    case ListLit(es) => ReadItems(src, off, k);
    case CallExpr(_, es) => ReadItems(src, off, k);
    case Member(b, axis) =>
      Split(src, off, EncExpr(b), [axis]);
      ReadExpr(src, off, b);
      ReadU8(src, off + |EncExpr(b)|, axis);
    case Cast(to, x) => ReadOpAnd(src, off, to, x);
    case Unary(op, x) => ReadOpAnd(src, off, op, x);
    case Postfix(op, x) => ReadOpAnd(src, off, op, x);
    case Binary(op, l, r) => ReadOpAnd2(src, off, op, l, r, k);
    case Assign(op, l, r) => ReadOpAnd2(src, off, op, l, r, k);
  }

  lemma {:induction false} ReadItems(src: seq<Byte>, off: nat, k: ExprKind)
    requires (k.ListLit? || k.CallExpr?) && KindOk(k) && At(src, off, EncKind(k))
    ensures ParseKind(src, off, KindTag(k)) == Some(k, off + |EncKind(k)|)
    decreases k, 1
  {
    hide ParseExpr, EncExpr, Le4, Le8, ToBytes4, ToBytes8, Signed32, Signed64, EncI32, EncI64, U8, U32, I32, I64, At;
    match k
    case ListLit(es) =>
      Split(src, off, ToBytes4(|es|), EncExprs(es, |es|));
      ReadCount(src, off, |es|);
      ReadExprs(src, off + 4, es, |es|);
    case CallExpr(fn, es) =>
      Split(src, off, EncI32(fn), ToBytes4(|es|) + EncExprs(es, |es|));
      Split(src, off + 4, ToBytes4(|es|), EncExprs(es, |es|));
      ReadI32(src, off, fn);
      ReadCount(src, off + 4, |es|);
      ReadExprs(src, off + 8, es, |es|);
  }

  lemma {:induction false} ReadTuple(src: seq<Byte>, off: nat, k: ExprKind)
    requires (k.VecLit? || k.RotLit?) && KindOk(k) && At(src, off, EncKind(k))
    ensures ParseKind(src, off, KindTag(k)) == Some(k, off + |EncKind(k)|)
    decreases k, 1
  {
    hide ParseExpr, EncExpr, EncKind, Le4, Le8, ToBytes4, ToBytes8, Signed32, Signed64, EncI32, EncI64, U8,
         U32, I32, I64, At;
    var a, b, c := EncExpr(k.x), EncExpr(k.y), EncExpr(k.z);
    var d := if k.RotLit? then EncExpr(k.w) else [];
    TupleText(k);
    Split(src, off, a, b + (c + d));
    Split(src, off + |a|, b, c + d);
    Split(src, off + |a| + |b|, c, d);
    ReadExpr(src, off, k.x);
    ReadExpr(src, off + |a|, k.y);
    ReadExpr(src, off + |a| + |b|, k.z);
    if k.RotLit? { ReadExpr(src, off + |a| + |b| + |c|, k.w); }
  }

  lemma {:induction false} TupleText(k: ExprKind)
    requires (k.VecLit? || k.RotLit?) && KindOk(k)
    ensures EncKind(k) ==
            EncExpr(k.x) + (EncExpr(k.y) + (EncExpr(k.z) + (if k.RotLit? then EncExpr(k.w) else [])))
  {
    hide EncExpr;
    assert k.VecLit? ==> EncExpr(k.z) + [] == EncExpr(k.z);
  }

  lemma {:induction false} ReadOpAnd(src: seq<Byte>, off: nat, op: int, x: Expr)
    requires IsByte(op) && ExprOk(x) && At(src, off, [op] + EncExpr(x))
    ensures U8(src, off) == Some(op, off + 1)
    ensures ParseExpr(src, off + 1) == Some(x, off + 1 + |EncExpr(x)|)
    decreases x, 1
  {
    hide EncExpr, ParseExpr;
    Split(src, off, [op], EncExpr(x));
    ReadU8(src, off, op);
    ReadExpr(src, off + 1, x);
  }

  lemma {:induction false} ReadOpAnd2(src: seq<Byte>, off: nat, op: int, l: Expr, r: Expr, k: ExprKind)
    requires k == Binary(op, l, r) || k == Assign(op, l, r)
    requires IsByte(op) && ExprOk(l) && ExprOk(r) && At(src, off, [op] + (EncExpr(l) + EncExpr(r)))
    ensures U8(src, off) == Some(op, off + 1)
    ensures ParseExpr(src, off + 1) == Some(l, off + 1 + |EncExpr(l)|)
    ensures ParseExpr(src, off + 1 + |EncExpr(l)|) == Some(r, off + 1 + |EncExpr(l)| + |EncExpr(r)|)
    decreases k, 1
  {
    hide EncExpr, ParseExpr;
    Split(src, off, [op], EncExpr(l) + EncExpr(r));
    Split(src, off + 1, EncExpr(l), EncExpr(r));
    ReadU8(src, off, op);
    ReadExpr(src, off + 1, l);
    ReadExpr(src, off + 1 + |EncExpr(l)|, r);
  }

  lemma {:induction false} ReadExprs(src: seq<Byte>, off: nat, es: seq<Expr>, n: nat)
    requires n <= |es| && (forall i :: 0 <= i < |es| ==> ExprOk(es[i])) && At(src, off, EncExprs(es, n))
    ensures ParseExprs(src, off, n, es[..|es| - n]) == Some(es, off + |EncExprs(es, n)|)
    decreases es, n
  {
    hide EncExpr, ParseExpr;
    if n == 0 {
      assert es[..|es|] == es;
    } else {
      var e := es[|es| - n];
      Split(src, off, EncExpr(e), EncExprs(es, n - 1));
      ReadExpr(src, off, e);
      ReadExprs(src, off + |EncExpr(e)|, es, n - 1);
      assert es[..|es| - n] + [e] == es[..|es| - (n - 1)];
    }
  }

  lemma ReadOptExpr(src: seq<Byte>, off: nat, e: Expr)
    requires ExprOk(e) && At(src, off, EncOptExpr(e))
    ensures ParseOptExpr(src, off) == Some(e, off + |EncOptExpr(e)|)
  {
    hide EncExpr, ParseExpr;
    if e.ENull? {
      ReadU8(src, off, 0);
    } else {
      Split(src, off, [1], EncExpr(e));
      ReadU8(src, off, 1);
      ReadExpr(src, off + 1, e);
    }
  }

  lemma {:induction false} ReadStmt(src: seq<Byte>, off: nat, s: Stmt, lines: bool)
    requires StmtOk(s) && At(src, off, EncStmt(s, lines))
    ensures ParseStmt(src, off, lines) == Some(AtLine0(s, lines), off + |EncStmt(s, lines)|)
    decreases s, 0
  {
    hide EncStmtKind, ParseStmtKind, EncLine, ParseLine;
    match s
    case SNull => ReadU8(src, off, NULL_TAG);
    case S(line, k) =>
      Split(src, off, [StmtTag(k)], EncLine(line, lines) + EncStmtKind(k, lines));
      Split(src, off + 1, EncLine(line, lines), EncStmtKind(k, lines));
      ReadU8(src, off, StmtTag(k));
      ReadLine(src, off + 1, line, lines);
      ReadStmtKind(src, off + 1 + |EncLine(line, lines)|, k, lines);
  }

  lemma {:induction false} ReadStmtKind(src: seq<Byte>, off: nat, k: StmtKind, lines: bool)
    requires StmtKindOk(k) && At(src, off, EncStmtKind(k, lines))
    ensures ParseStmtKind(src, off, StmtTag(k), lines) == Some(KindAtLine0(k, lines), off + |EncStmtKind(k, lines)|)
    decreases k, 2
  {
    hide ParseExpr, EncExpr, ParseStmt, EncStmt, AtLine0, ParseExprs, EncExprs, ParseOptExpr, EncOptExpr,
         Le4, Le8, ToBytes4, ToBytes8, Signed32, Signed64, EncI32, EncI64, U8, U32, I32, I64, At;
    match k
    case ExprStmt(e) => ReadExpr(src, off, e);
    case Decl(ty, n, e) => ReadDecl(src, off, k, lines);
    case Block(ss) =>
      Split(src, off, ToBytes4(|ss|), EncStmts(ss, |ss|, lines));
      ReadCount(src, off, |ss|);
      ReadStmts(src, off + 4, ss, |ss|, lines);
    case If(_, _, _) => ReadIf(src, off, k, lines);
    case While(_, _) => ReadLoop(src, off, k, lines);
    case Do(_, _) => ReadLoop(src, off, k, lines);
    case For(_, _, _, _) => ReadFor(src, off, k, lines);
    case Return(has, e) =>
      Split(src, off, [has], if has == 0 then [] else EncExpr(e));
      ReadU8(src, off, has);
      if has != 0 { ReadExpr(src, off + 1, e); }
    case Jump(i) => ReadI32(src, off, i);
    case Label(i) => ReadI32(src, off, i);
    case StateChange(i) => ReadI32(src, off, i);
    case Empty =>
  }

  lemma ReadDecl(src: seq<Byte>, off: nat, k: StmtKind, lines: bool)
    requires k.Decl? && StmtKindOk(k) && At(src, off, EncStmtKind(k, lines))
    ensures ParseStmtKind(src, off, 1, lines) == Some(k, off + |EncStmtKind(k, lines)|)
  {
    hide ParseOptExpr, EncOptExpr, Le4, Le8, ToBytes4, ToBytes8, Signed32, Signed64, EncI32, EncI64, U8, U32, I32,
         I64, At;
    var x := EncOptExpr(k.init);
    Split(src, off, [k.ty], EncI32(k.name) + x);
    Split(src, off + 1, EncI32(k.name), x);
    ReadU8(src, off, k.ty);
    ReadI32(src, off + 1, k.name);
    ReadOptExpr(src, off + 5, k.init);
  }

  lemma {:induction false} ReadLoop(src: seq<Byte>, off: nat, k: StmtKind, lines: bool)
    requires (k.While? || k.Do?) && StmtKindOk(k) && At(src, off, EncStmtKind(k, lines))
    ensures ParseStmtKind(src, off, StmtTag(k), lines) == Some(KindAtLine0(k, lines), off + |EncStmtKind(k, lines)|)
    decreases k, 1
  {
    hide ParseExpr, EncExpr, ParseStmt, EncStmt, Le4, Le8, ToBytes4, ToBytes8, Signed32, Signed64, EncI32, EncI64, U8,
         U32, I32, I64, At;
    var c, b := EncExpr(k.cond), EncStmt(k.body, lines);
    if k.While? {
      Split(src, off, c, b);
      ReadExpr(src, off, k.cond);
      ReadStmt(src, off + |c|, k.body, lines);
    } else {
      Split(src, off, b, c);
      ReadStmt(src, off, k.body, lines);
      ReadExpr(src, off + |b|, k.cond);
    }
  }

  lemma {:induction false} ReadIf(src: seq<Byte>, off: nat, k: StmtKind, lines: bool)
    requires k.If? && StmtKindOk(k) && At(src, off, EncStmtKind(k, lines))
    ensures ParseStmtKind(src, off, 3, lines) == Some(KindAtLine0(k, lines), off + |EncStmtKind(k, lines)|)
    decreases k, 1
  {
    hide ParseExpr, EncExpr, ParseStmt, EncStmt, Le4, Le8, ToBytes4, ToBytes8, Signed32, Signed64, EncI32, EncI64, U8,
         U32, I32, I64, At;
    var c, t, e := EncExpr(k.cond), EncStmt(k.thn, lines), EncElse(k.els, lines);
    Split(src, off, c, t + e);
    Split(src, off + |c|, t, e);
    ReadExpr(src, off, k.cond);
    ReadStmt(src, off + |c|, k.thn, lines);
    var o := off + |c| + |t|;
    if k.els.SNull? {
      ReadU8(src, o, 0);
    } else {
      Split(src, o, [1], EncStmt(k.els, lines));
      ReadU8(src, o, 1);
      ReadStmt(src, o + 1, k.els, lines);
    }
  }

  lemma {:induction false} ReadFor(src: seq<Byte>, off: nat, k: StmtKind, lines: bool)
    requires k.For? && StmtKindOk(k) && At(src, off, EncStmtKind(k, lines))
    ensures ParseStmtKind(src, off, 6, lines) == Some(KindAtLine0(k, lines), off + |EncStmtKind(k, lines)|)
    decreases k, 1
  {
    hide ParseExpr, EncExpr, ParseStmt, EncStmt, EncExprs, ParseExprs, ParseOptExpr, EncOptExpr, Le4, Le8, ToBytes4,
         ToBytes8, Signed32, Signed64, EncI32, EncI64, U8, U32, I32, I64, At;
    var x0: seq<Byte>, x1, x2 := [|k.init0|], EncExprs(k.init0, |k.init0|), EncOptExpr(k.cond);
    var x3: seq<Byte>, x4, x5 := [|k.post|], EncExprs(k.post, |k.post|), EncStmt(k.body, lines);
    Split(src, off, x0, x1 + (x2 + (x3 + (x4 + x5))));
    var o1 := off + 1;
    Split(src, o1, x1, x2 + (x3 + (x4 + x5)));
    var o2 := o1 + |x1|;
    Split(src, o2, x2, x3 + (x4 + x5));
    var o3 := o2 + |x2|;
    Split(src, o3, x3, x4 + x5);
    var o4 := o3 + 1;
    Split(src, o4, x4, x5);
    ReadU8(src, off, |k.init0|);
    ReadExprs(src, o1, k.init0, |k.init0|);
    ReadOptExpr(src, o2, k.cond);
    ReadU8(src, o3, |k.post|);
    ReadExprs(src, o4, k.post, |k.post|);
    ReadStmt(src, o4 + |x4|, k.body, lines);
  }

  lemma {:induction false} ReadStmts(src: seq<Byte>, off: nat, ss: seq<Stmt>, n: nat, lines: bool)
    requires n <= |ss| && (forall i :: 0 <= i < |ss| ==> StmtOk(ss[i])) && At(src, off, EncStmts(ss, n, lines))
    ensures var out := StmtsAt0(ss, lines);
            ParseStmts(src, off, n, out[..|ss| - n], lines) == Some(out, off + |EncStmts(ss, n, lines)|)
    decreases ss, n
  {
    hide ParseStmt, EncStmt, StmtOk, AtLine0, StmtsAt0, At;
    var out := StmtsAt0(ss, lines);
    InBounds(src, off, EncStmts(ss, n, lines));
    if n == 0 {
      assert out[..|ss|] == out;
    } else {
      var s := ss[|ss| - n];
      Split(src, off, EncStmt(s, lines), EncStmts(ss, n - 1, lines));
      ReadStmt(src, off, s, lines);
      ReadStmts(src, off + |EncStmt(s, lines)|, ss, n - 1, lines);
      OneMore(out, |ss| - n);
    }
  }

  // ----- tables -----

  lemma ReadString(src: seq<Byte>, off: nat, x: string)
    requires StringOk(x) && At(src, off, EncString(x))
    ensures ParseString(src, off) == Some(x, off + |EncString(x)|)
  {
    hide ToBytes4, U32, Le4;
    Split(src, off, ToBytes4(|x|), TextBytes(x));
    ReadCount(src, off, |x|);
  }

  lemma {:induction false} ReadStrings(src: seq<Byte>, off: nat, xs: seq<string>, n: nat)
    requires n <= |xs| && (forall i :: 0 <= i < |xs| ==> StringOk(xs[i])) && At(src, off, EncStrings(xs, n))
    ensures ParseStrings(src, off, n, xs[..|xs| - n]) == Some(xs, off + |EncStrings(xs, n)|)
    decreases n
  {
    hide ParseString, EncString;
    if n == 0 {
      assert xs[..|xs|] == xs;
    } else {
      var x := xs[|xs| - n];
      Split(src, off, EncString(x), EncStrings(xs, n - 1));
      ReadString(src, off, x);
      ReadStrings(src, off + |EncString(x)|, xs, n - 1);
      assert xs[..|xs| - n] + [x] == xs[..|xs| - (n - 1)];
    }
  }

  lemma ReadGlobal(src: seq<Byte>, off: nat, x: GlobalVar)
    requires GlobalOk(x) && At(src, off, EncGlobal(x))
    ensures ParseGlobal(src, off) == Some(x, off + |EncGlobal(x)|)
  {
    hide ParseOptExpr, EncOptExpr, Le4, Le8, ToBytes4, ToBytes8, Signed32, Signed64, EncI32, EncI64, U8, U32, I32,
         I64, At;
    Split(src, off, [x.ty], EncI32(x.name) + EncOptExpr(x.init));
    Split(src, off + 1, EncI32(x.name), EncOptExpr(x.init));
    ReadU8(src, off, x.ty);
    ReadI32(src, off + 1, x.name);
    ReadOptExpr(src, off + 5, x.init);
  }

  lemma {:induction false} ReadGlobals(src: seq<Byte>, off: nat, xs: seq<GlobalVar>, n: nat)
    requires n <= |xs| && (forall i :: 0 <= i < |xs| ==> GlobalOk(xs[i])) && At(src, off, EncGlobals(xs, n))
    ensures ParseGlobals(src, off, n, xs[..|xs| - n]) == Some(xs, off + |EncGlobals(xs, n)|)
    decreases n
  {
    hide ParseGlobal, EncGlobal;
    if n == 0 {
      assert xs[..|xs|] == xs;
    } else {
      var x := xs[|xs| - n];
      Split(src, off, EncGlobal(x), EncGlobals(xs, n - 1));
      ReadGlobal(src, off, x);
      ReadGlobals(src, off + |EncGlobal(x)|, xs, n - 1);
      assert xs[..|xs| - n] + [x] == xs[..|xs| - (n - 1)];
    }
  }

  lemma {:induction false} ReadParams(src: seq<Byte>, off: nat, xs: seq<Param>, n: nat)
    requires n <= |xs| && ParamsOk(xs) && At(src, off, EncParams(xs, n))
    ensures ParseParams(src, off, n, xs[..|xs| - n]) == Some(xs, off + |EncParams(xs, n)|)
    decreases n
  {
    hide Le4, Le8, ToBytes4, ToBytes8, Signed32, Signed64, EncI32, EncI64, U8, U32, I32, I64, At;
    if n == 0 {
      assert xs[..|xs|] == xs;
    } else {
      var x := xs[|xs| - n];
      Split(src, off, [x.ty] + EncI32(x.name), EncParams(xs, n - 1));
      Split(src, off, [x.ty], EncI32(x.name));
      ReadU8(src, off, x.ty);
      ReadI32(src, off + 1, x.name);
      ReadParams(src, off + 5, xs, n - 1);
      assert xs[..|xs| - n] + [x] == xs[..|xs| - (n - 1)];
    }
  }

  lemma ReadFunc(src: seq<Byte>, off: nat, f: FuncDecl, lines: bool)
    requires FuncOk(f) && At(src, off, EncFunc(f, lines))
    ensures ParseFunc(src, off, lines) == Some(FuncAt0(f, lines), off + |EncFunc(f, lines)|)
  {
    hide ParseStmt, EncStmt, EncParams, ParseParams, EncLine, ParseLine, AtLine0,
         Le4, Le8, ToBytes4, ToBytes8, Signed32, Signed64, EncI32, EncI64, U8, U32, I32, I64, At;
    var x1, x5, x6 := EncLine(f.line, lines), EncParams(f.params, |f.params|), EncStmt(f.body, lines);
    var np: seq<Byte> := [|f.params|];
    Split(src, off, EncI32(f.name), x1 + ([f.ret] + ([f.hasRet] + (np + (x5 + x6)))));
    var o1 := off + 4;
    Split(src, o1, x1, [f.ret] + ([f.hasRet] + (np + (x5 + x6))));
    var o2 := o1 + |x1|;
    Split(src, o2, [f.ret], [f.hasRet] + (np + (x5 + x6)));
    Split(src, o2 + 1, [f.hasRet], np + (x5 + x6));
    Split(src, o2 + 2, np, x5 + x6);
    Split(src, o2 + 3, x5, x6);
    ReadI32(src, off, f.name);
    ReadLine(src, o1, f.line, lines);
    ReadU8(src, o2, f.ret);
    ReadU8(src, o2 + 1, f.hasRet);
    ReadU8(src, o2 + 2, |f.params|);
    ReadParams(src, o2 + 3, f.params, |f.params|);
    ReadStmt(src, o2 + 3 + |x5|, f.body, lines);
  }

  lemma {:induction false} ReadFuncs(src: seq<Byte>, off: nat, xs: seq<FuncDecl>, n: nat, lines: bool)
    requires n <= |xs| && (forall i :: 0 <= i < |xs| ==> FuncOk(xs[i])) && At(src, off, EncFuncs(xs, n, lines))
    ensures var out := FuncsAt0(xs, lines);
            ParseFuncs(src, off, n, out[..|xs| - n], lines) == Some(out, off + |EncFuncs(xs, n, lines)|)
    decreases n
  {
    hide ParseFunc, EncFunc, FuncOk, FuncAt0, FuncsAt0, At;
    var out := FuncsAt0(xs, lines);
    InBounds(src, off, EncFuncs(xs, n, lines));
    if n == 0 {
      assert out[..|xs|] == out;
    } else {
      var x := xs[|xs| - n];
      Split(src, off, EncFunc(x, lines), EncFuncs(xs, n - 1, lines));
      ReadFunc(src, off, x, lines);
      ReadFuncs(src, off + |EncFunc(x, lines)|, xs, n - 1, lines);
      OneMore(out, |xs| - n);
    }
  }

  lemma ReadEvent(src: seq<Byte>, off: nat, e: EventDecl, lines: bool)
    requires EventOk(e) && At(src, off, EncEvent(e, lines))
    ensures ParseEvent(src, off, lines) == Some(EventAt0(e, lines), off + |EncEvent(e, lines)|)
  {
    hide ParseStmt, EncStmt, EncParams, ParseParams, EncLine, ParseLine, AtLine0,
         Le4, Le8, ToBytes4, ToBytes8, Signed32, Signed64, EncI32, EncI64, U8, U32, I32, I64, At;
    var x1, x3, x4 := EncLine(e.line, lines), EncParams(e.params, |e.params|), EncStmt(e.body, lines);
    var np: seq<Byte> := [|e.params|];
    Split(src, off, EncI32(e.name), x1 + (np + (x3 + x4)));
    var o1 := off + 4;
    Split(src, o1, x1, np + (x3 + x4));
    var o2 := o1 + |x1|;
    Split(src, o2, np, x3 + x4);
    Split(src, o2 + 1, x3, x4);
    ReadI32(src, off, e.name);
    ReadLine(src, o1, e.line, lines);
    ReadU8(src, o2, |e.params|);
    ReadParams(src, o2 + 1, e.params, |e.params|);
    ReadStmt(src, o2 + 1 + |x3|, e.body, lines);
  }

  lemma {:induction false} ReadEvents(src: seq<Byte>, off: nat, xs: seq<EventDecl>, n: nat, lines: bool)
    requires n <= |xs| && (forall i :: 0 <= i < |xs| ==> EventOk(xs[i])) && At(src, off, EncEvents(xs, n, lines))
    ensures var out := EventsAt0(xs, lines);
            ParseEvents(src, off, n, out[..|xs| - n], lines) == Some(out, off + |EncEvents(xs, n, lines)|)
    decreases n
  {
    hide ParseEvent, EncEvent, EventOk, EventAt0, EventsAt0, At;
    var out := EventsAt0(xs, lines);
    InBounds(src, off, EncEvents(xs, n, lines));
    if n == 0 {
      assert out[..|xs|] == out;
    } else {
      var x := xs[|xs| - n];
      Split(src, off, EncEvent(x, lines), EncEvents(xs, n - 1, lines));
      ReadEvent(src, off, x, lines);
      ReadEvents(src, off + |EncEvent(x, lines)|, xs, n - 1, lines);
      OneMore(out, |xs| - n);
    }
  }

  lemma ReadState(src: seq<Byte>, off: nat, s: StateDecl, lines: bool)
    requires StateOk(s) && At(src, off, EncState(s, lines))
    ensures ParseState(src, off, lines) == Some(StateAt0(s, lines), off + |EncState(s, lines)|)
  {
    hide EncEvents, ParseEvents, EncLine, ParseLine,
         Le4, Le8, ToBytes4, ToBytes8, Signed32, Signed64, EncI32, EncI64, U8, U32, I32, I64, At;
    var x1, x4 := EncLine(s.line, lines), EncEvents(s.events, |s.events|, lines);
    var n := ToBytes4(|s.events|);
    Split(src, off, EncI32(s.name), x1 + ([s.isDefault] + (n + x4)));
    var o1 := off + 4;
    Split(src, o1, x1, [s.isDefault] + (n + x4));
    var o2 := o1 + |x1|;
    Split(src, o2, [s.isDefault], n + x4);
    Split(src, o2 + 1, n, x4);
    ReadI32(src, off, s.name);
    ReadLine(src, o1, s.line, lines);
    ReadU8(src, o2, s.isDefault);
    ReadCount(src, o2 + 1, |s.events|);
    ReadEvents(src, o2 + 5, s.events, |s.events|, lines);
    assert EventsAt0(s.events, lines)[..0] == [];
  }

  lemma {:induction false} ReadStates(src: seq<Byte>, off: nat, xs: seq<StateDecl>, n: nat, lines: bool)
    requires n <= |xs| && (forall i :: 0 <= i < |xs| ==> StateOk(xs[i])) && At(src, off, EncStates(xs, n, lines))
    ensures var out := StatesAt0(xs, lines);
            ParseStates(src, off, n, out[..|xs| - n], lines) == Some(out, off + |EncStates(xs, n, lines)|)
    decreases n
  {
    hide ParseState, EncState, StateOk, StateAt0, StatesAt0, At;
    var out := StatesAt0(xs, lines);
    InBounds(src, off, EncStates(xs, n, lines));
    if n == 0 {
      assert out[..|xs|] == out;
    } else {
      var x := xs[|xs| - n];
      Split(src, off, EncState(x, lines), EncStates(xs, n - 1, lines));
      ReadState(src, off, x, lines);
      ReadStates(src, off + |EncState(x, lines)|, xs, n - 1, lines);
      OneMore(out, |xs| - n);
    }
  }

  /** A count, the items it counts, and what follows them. */
  lemma {:induction false} CountThen(src: seq<Byte>, off: nat, n: nat, x: seq<Byte>, rest: seq<Byte>)
    requires n < TWO32 && At(src, off, ToBytes4(n) + (x + rest))
    ensures U32(src, off) == Some(n, off + 4) && At(src, off + 4, x) && At(src, off + 4 + |x|, rest)
  {
    hide At, U32;
    Split(src, off, ToBytes4(n), x + rest);
    Split(src, off + 4, x, rest);
    ReadCount(src, off, n);
  }

  lemma {:induction false} StringTable(src: seq<Byte>, off: nat, xs: seq<string>, rest: seq<Byte>)
    requires |xs| < TWO32 && (forall i :: 0 <= i < |xs| ==> StringOk(xs[i]))
    requires At(src, off, ToBytes4(|xs|) + (EncStrings(xs, |xs|) + rest))
    ensures var o := off + 4 + |EncStrings(xs, |xs|)|;
            && U32(src, off) == Some(|xs|, off + 4) && At(src, o, rest)
            && off + 4 <= |src| && ParseStrings(src, off + 4, |xs|, []) == Some(xs, o)
  {
    hide At, U32, ToBytes4, EncStrings, ParseStrings, StringOk;
    CountThen(src, off, |xs|, EncStrings(xs, |xs|), rest);
    ReadStrings(src, off + 4, xs, |xs|);
    InBounds(src, off + 4, EncStrings(xs, |xs|));
  }

  lemma {:induction false} GlobalTable(src: seq<Byte>, off: nat, xs: seq<GlobalVar>, rest: seq<Byte>)
    requires |xs| < TWO32 && (forall i :: 0 <= i < |xs| ==> GlobalOk(xs[i]))
    requires At(src, off, ToBytes4(|xs|) + (EncGlobals(xs, |xs|) + rest))
    ensures var o := off + 4 + |EncGlobals(xs, |xs|)|;
            && U32(src, off) == Some(|xs|, off + 4) && At(src, o, rest)
            && off + 4 <= |src| && ParseGlobals(src, off + 4, |xs|, []) == Some(xs, o)
  {
    hide At, U32, ToBytes4, EncGlobals, ParseGlobals, GlobalOk;
    CountThen(src, off, |xs|, EncGlobals(xs, |xs|), rest);
    ReadGlobals(src, off + 4, xs, |xs|);
    InBounds(src, off + 4, EncGlobals(xs, |xs|));
  }

  lemma {:induction false} FuncTable(src: seq<Byte>, off: nat, xs: seq<FuncDecl>, lines: bool, rest: seq<Byte>)
    requires |xs| < TWO32 && (forall i :: 0 <= i < |xs| ==> FuncOk(xs[i]))
    requires At(src, off, ToBytes4(|xs|) + (EncFuncs(xs, |xs|, lines) + rest))
    ensures var o := off + 4 + |EncFuncs(xs, |xs|, lines)|;
            && U32(src, off) == Some(|xs|, off + 4) && At(src, o, rest)
            && off + 4 <= |src| && ParseFuncs(src, off + 4, |xs|, [], lines) == Some(FuncsAt0(xs, lines), o)
  {
    hide At, U32, ToBytes4, EncFuncs, ParseFuncs, FuncOk, FuncAt0;
    CountThen(src, off, |xs|, EncFuncs(xs, |xs|, lines), rest);
    ReadFuncs(src, off + 4, xs, |xs|, lines);
    InBounds(src, off + 4, EncFuncs(xs, |xs|, lines));
    assert FuncsAt0(xs, lines)[..0] == [];
  }

  lemma {:induction false} StateTable(src: seq<Byte>, off: nat, xs: seq<StateDecl>, lines: bool)
    requires |xs| < TWO32 && (forall i :: 0 <= i < |xs| ==> StateOk(xs[i]))
    requires At(src, off, ToBytes4(|xs|) + EncStates(xs, |xs|, lines))
    ensures var o := off + 4 + |EncStates(xs, |xs|, lines)|;
            && U32(src, off) == Some(|xs|, off + 4)
            && off + 4 <= |src| && ParseStates(src, off + 4, |xs|, [], lines) == Some(StatesAt0(xs, lines), o)
  {
    hide At, U32, ToBytes4, EncStates, ParseStates, StateOk, StateAt0;
    assert EncStates(xs, |xs|, lines) + [] == EncStates(xs, |xs|, lines);
    CountThen(src, off, |xs|, EncStates(xs, |xs|, lines), []);
    ReadStates(src, off + 4, xs, |xs|, lines);
    InBounds(src, off + 4, EncStates(xs, |xs|, lines));
    assert StatesAt0(xs, lines)[..0] == [];
  }

  lemma {:induction false} ReadTables(src: seq<Byte>, off: nat, p: Program, version: int)
    requires ProgramOk(p) && At(src, off, EncTables(p, version == 2))
    ensures ParseTables(src, off, p.flags, version == 2) ==
            Some(Carried(p, version), off + |EncTables(p, version == 2)|)
  {
    hide EncStrings, EncGlobals, EncFuncs, EncStates, ParseStrings, ParseGlobals, ParseFuncs, ParseStates, FuncsAt0,
         StatesAt0, StringOk, GlobalOk, FuncOk, StateOk, ToBytes4, U32, At;
    var lines := version == 2;
    var x3 := ToBytes4(|p.states|) + EncStates(p.states, |p.states|, lines);
    var x2 := ToBytes4(|p.funcs|) + (EncFuncs(p.funcs, |p.funcs|, lines) + x3);
    var x1 := ToBytes4(|p.globals|) + (EncGlobals(p.globals, |p.globals|) + x2);
    var o1 := off + 4 + |EncStrings(p.strings, |p.strings|)|;
    var o2 := o1 + 4 + |EncGlobals(p.globals, |p.globals|)|;
    var o3 := o2 + 4 + |EncFuncs(p.funcs, |p.funcs|, lines)|;
    StringTable(src, off, p.strings, x1);
    GlobalTable(src, o1, p.globals, x2);
    FuncTable(src, o2, p.funcs, lines, x3);
    StateTable(src, o3, p.states, lines);
  }

  /** Reading the encoding of any program, whatever bytes follow it, gives the program
      back; version 1 gives it back with every line number 0. */
  lemma RoundTrip(p: Program, version: int, trailing: seq<Byte>)
    requires ProgramOk(p) && 1 <= version <= 2
    ensures ParseProgram(EncProgram(p, version) + trailing) == Some(Carried(p, version), |EncProgram(p, version)|)
    ensures Carried(p, 2) == p
  {
    hide EncTables, ParseTables;
    CarriedByVersion2(p);
    var src := EncProgram(p, version) + trailing;
    var t := EncTables(p, version == 2);
    assert At(src, 0, EncProgram(p, version));
    Split(src, 0, MAGIC, ToBytes4(version) + (EncI32(p.flags) + t));
    Split(src, 5, ToBytes4(version), EncI32(p.flags) + t);
    Split(src, 9, EncI32(p.flags), t);
    ReadCount(src, 5, version);
    ReadI32(src, 9, p.flags);
    ReadTables(src, 13, p, version);
  }

  /** So no two programs share an encoding. */
  lemma EncodingIsInjective(p: Program, q: Program)
    requires ProgramOk(p) && ProgramOk(q) && EncProgram(p, 2) == EncProgram(q, 2)
    ensures p == q
  {
    RoundTrip(p, 2, []);
    RoundTrip(q, 2, []);
  }
}
