/** The bytes of the SLBC format, written out: tags, the order of fields, and the header. */
module SlbcLayout {
  import opened Ast
  import opened MachineWords
  import opened Slbc
  import opened SlbcRoundTrip

  /** Every expression is a tag, its type, whether it is an lvalue, and its fields: literals
      and names, */
  lemma LeafLayout(ty: Byte, lv: Byte, i: int)
    ensures EncExpr(ENull) == [255]
    ensures IsI64(i) ==> ExprOk(E(ty, lv, IntLit(i))) && EncExpr(E(ty, lv, IntLit(i))) == [0, ty, lv] + EncI64(i)
    ensures IsI64(i) ==> ExprOk(E(ty, lv, FloatLit(i))) && EncExpr(E(ty, lv, FloatLit(i))) == [1, ty, lv] + EncI64(i)
    ensures IsI32(i) ==> ExprOk(E(ty, lv, StrLit(i))) && EncExpr(E(ty, lv, StrLit(i))) == [2, ty, lv] + EncI32(i)
    ensures IsI32(i) ==> ExprOk(E(ty, lv, Ident(i))) && EncExpr(E(ty, lv, Ident(i))) == [3, ty, lv] + EncI32(i)
  {
    hide EncI32, EncI64;
  }

  /** vectors, rotations, lists and calls, */
  lemma TupleLayout(e: Expr)
    requires ExprOk(e) && e.E?
    ensures match e.kind
            case VecLit(x, y, z) => EncExpr(e) == [4, e.ty, e.lv] + EncExpr(x) + EncExpr(y) + EncExpr(z)
            case RotLit(x, y, z, w) =>
              EncExpr(e) == [5, e.ty, e.lv] + EncExpr(x) + EncExpr(y) + EncExpr(z) + EncExpr(w)
            case ListLit(es) => EncExpr(e) == [6, e.ty, e.lv] + ToBytes4(|es|) + EncExprs(es, |es|)
            case CallExpr(fn, es) => EncExpr(e) == [7, e.ty, e.lv] + EncI32(fn) + ToBytes4(|es|) + EncExprs(es, |es|)
            case _ => true
  {
    hide EncExpr, EncKind, EncExprs, EncI32, ToBytes4;
    TagFirst(e);
    var t := [KindTag(e.kind), e.ty as Byte, e.lv as Byte];
    match e.kind
    case VecLit(x, y, z) => InThree(t, EncExpr(x), EncExpr(y), EncExpr(z));
    case RotLit(x, y, z, w) => InFour(t, EncExpr(x), EncExpr(y), EncExpr(z), EncExpr(w));
    case ListLit(es) => InTwo(t, ToBytes4(|es|), EncExprs(es, |es|));
    case CallExpr(fn, es) => InThree(t, EncI32(fn), ToBytes4(|es|), EncExprs(es, |es|));
    case _ =>
  }

  lemma TagFirst(e: Expr)
    requires ExprOk(e) && e.E?
    ensures KindOk(e.kind) && EncExpr(e) == [KindTag(e.kind), e.ty, e.lv] + EncKind(e.kind)
    ensures match e.kind
            case VecLit(x, y, z) => EncKind(e.kind) == EncExpr(x) + (EncExpr(y) + EncExpr(z))
            case RotLit(x, y, z, w) => EncKind(e.kind) == EncExpr(x) + (EncExpr(y) + (EncExpr(z) + EncExpr(w)))
            case ListLit(es) => EncKind(e.kind) == ToBytes4(|es|) + EncExprs(es, |es|)
            case CallExpr(fn, es) => EncKind(e.kind) == EncI32(fn) + (ToBytes4(|es|) + EncExprs(es, |es|))
            case _ => true
  {
    hide EncExprs, EncI32, EncI64, ToBytes4;
  }

  lemma InTwo(t: seq<Byte>, a: seq<Byte>, b: seq<Byte>)
    ensures t + (a + b) == t + a + b
  {
  }

  lemma InThree(t: seq<Byte>, a: seq<Byte>, b: seq<Byte>, c: seq<Byte>)
    ensures t + (a + (b + c)) == t + a + b + c
  {
  }

  lemma InFour(t: seq<Byte>, a: seq<Byte>, b: seq<Byte>, c: seq<Byte>, d: seq<Byte>)
    ensures t + (a + (b + (c + d))) == t + a + b + c + d
  {
    InThree(t, a, b, c + d);
    InTwo(t + a + b, c, d);
  }

  /** and what operates on others. */
  lemma OperatorLayout(e: Expr)
    requires ExprOk(e) && e.E?
    ensures match e.kind
            case Member(b, axis) => EncExpr(e) == [8, e.ty, e.lv] + EncExpr(b) + [axis]
            case Cast(to, x) => EncExpr(e) == [9, e.ty, e.lv, to] + EncExpr(x)
            case Unary(op, x) => EncExpr(e) == [10, e.ty, e.lv, op] + EncExpr(x)
            case Postfix(op, x) => EncExpr(e) == [11, e.ty, e.lv, op] + EncExpr(x)
            case Binary(op, l, r) => EncExpr(e) == [12, e.ty, e.lv, op] + EncExpr(l) + EncExpr(r)
            case Assign(op, l, r) => EncExpr(e) == [13, e.ty, e.lv, op] + EncExpr(l) + EncExpr(r)
            case _ => true
  {
    hide EncExpr, EncKind, EncExprs, EncI32, EncI64, ToBytes4;
    TagFirst(e);
    OperatorFirst(e.kind);
    var t := [KindTag(e.kind), e.ty as Byte, e.lv as Byte];
    match e.kind
    case Member(b, axis) => InTwo(t, EncExpr(b), [axis]);
    case Cast(to, x) => Op4(t, to, EncExpr(x));
    case Unary(op, x) => Op4(t, op, EncExpr(x));
    case Postfix(op, x) => Op4(t, op, EncExpr(x));
    case Binary(op, l, r) => Op4(t, op, EncExpr(l) + EncExpr(r)); InTwo(t + [op], EncExpr(l), EncExpr(r));
    case Assign(op, l, r) => Op4(t, op, EncExpr(l) + EncExpr(r)); InTwo(t + [op], EncExpr(l), EncExpr(r));
    case _ =>
  }

  lemma Op4(t: seq<Byte>, op: Byte, a: seq<Byte>)
    requires |t| == 3
    ensures t + ([op] + a) == [t[0], t[1], t[2], op] + a && t + [op] == [t[0], t[1], t[2], op]
  {
  }

  lemma OperatorFirst(k: ExprKind)
    requires KindOk(k)
    ensures match k
            case Member(b, axis) => EncKind(k) == EncExpr(b) + [axis]
            case Cast(to, x) => EncKind(k) == [to] + EncExpr(x)
            case Unary(op, x) => EncKind(k) == [op] + EncExpr(x)
            case Postfix(op, x) => EncKind(k) == [op] + EncExpr(x)
            case Binary(op, l, r) => EncKind(k) == [op] + (EncExpr(l) + EncExpr(r))
            case Assign(op, l, r) => EncKind(k) == [op] + (EncExpr(l) + EncExpr(r))
            case _ => true
  {
    hide EncExprs, EncI32, EncI64, ToBytes4;
  }

  lemma LineSecond(s: Stmt)
    requires StmtOk(s) && s.S?
    ensures StmtKindOk(s.kind) && EncStmt(s, true) == [StmtTag(s.kind)] + (EncI32(s.line) + EncStmtKind(s.kind, true))
  {
    hide EncStmtKind, EncI32;
  }

  /** Statements are a tag, in version 2 a line number, and their fields: those that hold
      others, */
  lemma NestedLayout(s: Stmt)
    requires StmtOk(s) && s.S?
    ensures match s.kind
            case Block(ss) =>
              EncStmt(s, true) == [2] + EncI32(s.line) + ToBytes4(|ss|) + EncStmts(ss, |ss|, true)
            case If(c, t, e) =>
              EncStmt(s, true) == [3] + EncI32(s.line) + EncExpr(c) + EncStmt(t, true) + EncElse(e, true)
            case While(c, b) => EncStmt(s, true) == [4] + EncI32(s.line) + EncExpr(c) + EncStmt(b, true)
            case Do(b, c) => EncStmt(s, true) == [5] + EncI32(s.line) + EncStmt(b, true) + EncExpr(c)
            case _ => true
  {
    hide EncExpr, EncStmt, EncStmts, EncElse, EncI32, ToBytes4;
    LineSecond(s);
    var t, l := [StmtTag(s.kind)], EncI32(s.line);
    match s.kind
    case Block(ss) => InThree(t, l, ToBytes4(|ss|), EncStmts(ss, |ss|, true));
    case If(c, b, e) => InFour(t, l, EncExpr(c), EncStmt(b, true), EncElse(e, true));
    case While(c, b) => InThree(t, l, EncExpr(c), EncStmt(b, true));
    case Do(b, c) => InThree(t, l, EncStmt(b, true), EncExpr(c));
    case _ =>
  }

  lemma ForLayout(s: Stmt)
    requires StmtOk(s) && s.S? && s.kind.For?
    ensures var init, c, post, b := s.kind.init0, s.kind.cond, s.kind.post, s.kind.body;
            EncStmt(s, true) ==
            [6] + EncI32(s.line) + [|init|] + EncExprs(init, |init|) + EncOptExpr(c) +
            [|post|] + EncExprs(post, |post|) + EncStmt(b, true)
  {
    hide EncExprs, EncStmt, EncOptExpr, EncI32;
    LineSecond(s);
    var init, c, post, b := s.kind.init0, s.kind.cond, s.kind.post, s.kind.body;
    var i, p := EncExprs(init, |init|), EncExprs(post, |post|);
    var rest := EncOptExpr(c) + ([|post| as Byte] + (p + EncStmt(b, true)));
    InFour([StmtTag(s.kind)], EncI32(s.line), [|init| as Byte], i, rest);
    InFour([StmtTag(s.kind)] + EncI32(s.line) + [|init| as Byte] + i, EncOptExpr(c), [|post| as Byte], p,
           EncStmt(b, true));
  }

  /** and those that do not. */
  lemma PlainLayout(s: Stmt)
    requires StmtOk(s)
    ensures match s
            case SNull => EncStmt(s, true) == [255]
            case S(n, ExprStmt(e)) => EncStmt(s, true) == [0] + EncI32(n) + EncExpr(e)
            case S(n, Decl(ty, i, e)) => EncStmt(s, true) == [1] + EncI32(n) + [ty] + EncI32(i) + EncOptExpr(e)
            case S(n, Return(has, e)) =>
              EncStmt(s, true) == [7] + EncI32(n) + [has] + (if has == 0 then [] else EncExpr(e))
            case S(n, Jump(i)) => EncStmt(s, true) == [8] + EncI32(n) + EncI32(i)
            case S(n, Label(i)) => EncStmt(s, true) == [9] + EncI32(n) + EncI32(i)
            case S(n, StateChange(i)) => EncStmt(s, true) == [10] + EncI32(n) + EncI32(i)
            case S(n, Empty) => EncStmt(s, true) == [11] + EncI32(n)
            case _ => true
  {
    hide EncExpr, EncOptExpr, EncExprs, EncStmts, EncElse, EncI32, ToBytes4;
  }

  /** What may be missing stands behind a byte that says so. */
  lemma OptionalLayout(e: Expr, s: Stmt)
    requires ExprOk(e) && StmtOk(s)
    ensures EncOptExpr(e) == if e.ENull? then [0] else [1] + EncExpr(e)
    ensures EncElse(s, true) == if s.SNull? then [0] else [1] + EncStmt(s, true)
  {
  }

  /** A file starts with "SLBC" and a zero byte, and the version in four bytes. */
  lemma HeaderLayout(p: Program, version: int)
    requires ProgramOk(p) && 1 <= version <= 2
    ensures EncProgram(p, version) ==
            [0x53, 0x4c, 0x42, 0x43, 0, version, 0, 0, 0] + EncI32(p.flags) + EncTables(p, version == 2)
  {
    hide EncTables, EncI32;
    assert ToBytes4(version) == [version, 0, 0, 0];
  }

  /** Behind it come strings, globals, functions and states, each with its number in front. */
  lemma TableLayout(p: Program, lines: bool)
    requires ProgramOk(p)
    ensures EncTables(p, lines) ==
            ToBytes4(|p.strings|) + EncStrings(p.strings, |p.strings|) +
            ToBytes4(|p.globals|) + EncGlobals(p.globals, |p.globals|) +
            ToBytes4(|p.funcs|) + EncFuncs(p.funcs, |p.funcs|, lines) +
            ToBytes4(|p.states|) + EncStates(p.states, |p.states|, lines)
  {
    hide ToBytes4, EncStrings, EncGlobals, EncFuncs, EncStates;
  }

  lemma EntryLayout(t: string, g: GlobalVar, f: FuncDecl, e: EventDecl, s: StateDecl)
    requires StringOk(t) && GlobalOk(g) && FuncOk(f) && EventOk(e) && StateOk(s)
    ensures EncString(t) == ToBytes4(|t|) + TextBytes(t)
    ensures EncGlobal(g) == [g.ty] + EncI32(g.name) + EncOptExpr(g.init)
    ensures EncFunc(f, true) ==
            EncI32(f.name) + EncI32(f.line) + [f.ret, f.hasRet, |f.params|] +
            EncParams(f.params, |f.params|) + EncStmt(f.body, true)
    ensures EncEvent(e, true) ==
            EncI32(e.name) + EncI32(e.line) + [|e.params|] + EncParams(e.params, |e.params|) + EncStmt(e.body, true)
    ensures EncState(s, true) ==
            EncI32(s.name) + EncI32(s.line) + [s.isDefault] +
            ToBytes4(|s.events|) + EncEvents(s.events, |s.events|, true)
  {
    hide ToBytes4, EncI32, EncParams, EncEvents, EncStmt, EncOptExpr, TextBytes;
  }

  /** Characters are stored as their codes. */
  lemma CharacterCodes(b: seq<Byte>, t: string, i: nat)
    ensures i < |b| ==> Text(b)[i] as int == b[i]
    ensures IsText(t) && i < |t| ==> TextBytes(t)[i] == t[i] as int
  {
  }
}
