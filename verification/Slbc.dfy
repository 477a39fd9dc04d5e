/** The SLBC byte code of DOCUMENTATION.md, section 4: its encoder, and a strict parser
    that gives up at the first byte that does not fit. */
module Slbc {
  import opened Ast
  import opened MachineWords

  /** A parse: the value and the offset behind it. */
  datatype Opt<+T> = None | Some(value: T, next: nat) {
    predicate IsFailure() { None? }
    function PropagateFailure<U>(): Opt<U>
      requires None?
    {
      None
    }
    function Extract(): (T, nat)
      requires Some?
    {
      (value, next)
    }
  }

  const NULL_TAG: Byte := 0xFF
  const MAGIC: seq<Byte> := [0x53, 0x4C, 0x42, 0x43, 0]  // "SLBC\0"

  predicate IsI32(x: int) { -TWO31 <= x < TWO31 }

  predicate IsI64(x: int) { -TWO63 <= x < TWO63 }

  // ----- scalars, little-endian -----

  function Le4(s: seq<Byte>): (r: nat)
    requires |s| == 4
    ensures r < TWO32
  {
    s[0] as int + 0x100 * (s[1] as int) + 0x1_0000 * (s[2] as int) + 0x100_0000 * (s[3] as int)
  }

  function Le8(s: seq<Byte>): (r: nat)
    requires |s| == 8
    ensures r < TWO64
  {
    Le4(s[..4]) + TWO32 * Le4(s[4..])
  }

  function ToBytes4(x: nat): (s: seq<Byte>)
    requires x < TWO32
    ensures |s| == 4 && Le4(s) == x
  {
    var q1 := x / 0x100;
    var q2 := q1 / 0x100;
    var q3 := q2 / 0x100;
    [x % 0x100, q1 % 0x100, q2 % 0x100, q3]
  }

  function ToBytes8(x: nat): (s: seq<Byte>)
    requires x < TWO64
    ensures |s| == 8 && Le8(s) == x
  {
    var s := ToBytes4(x % TWO32) + ToBytes4(x / TWO32);
    assert s[..4] == ToBytes4(x % TWO32) && s[4..] == ToBytes4(x / TWO32);
    s
  }

  /** C's conversion of an unsigned word to a signed one. */
  function Signed32(x: nat): int { if x < TWO31 then x else x - TWO32 }

  function Signed64(x: nat): int { if x < TWO63 then x else x - TWO64 }

  function EncI32(x: int): (s: seq<Byte>)
    requires IsI32(x)
    ensures |s| == 4 && Signed32(Le4(s)) == x
  {
    ToBytes4(if x < 0 then x + TWO32 else x)
  }

  function EncI64(x: int): (s: seq<Byte>)
    requires IsI64(x)
    ensures |s| == 8 && Signed64(Le8(s)) == x
  {
    ToBytes8(if x < 0 then x + TWO64 else x)
  }

  /** Byte strings as characters and back. */
  function Text(s: seq<Byte>): (t: string)
    ensures |t| == |s|
  {
    seq(|s|, i requires 0 <= i < |s| => s[i] as char)
  }

  predicate IsText(t: string) { forall i :: 0 <= i < |t| ==> t[i] as int < 256 }

  function TextBytes(t: string): (s: seq<Byte>)
    requires IsText(t)
    ensures Text(s) == t
  {
    seq(|t|, i requires 0 <= i < |t| => t[i] as int)
  }

  // ----- parser -----

  function U8(src: seq<Byte>, off: nat): (r: Opt<Byte>)
    requires off <= |src|
    ensures r.Some? ==> r.next == off + 1 <= |src|
  {
    if off + 1 > |src| then None else Some(src[off], off + 1)
  }

  function U32(src: seq<Byte>, off: nat): (r: Opt<nat>)
    requires off <= |src|
    ensures r.Some? ==> r.next == off + 4 <= |src| && r.value < TWO32
  {
    if off + 4 > |src| then None else Some(Le4(src[off..off + 4]), off + 4)
  }

  function I32(src: seq<Byte>, off: nat): (r: Opt<int>)
    requires off <= |src|
    ensures r.Some? ==> r.next == off + 4 <= |src| && IsI32(r.value)
  {
    var (x, o) :- U32(src, off);
    Some(Signed32(x), o)
  }

  function I64(src: seq<Byte>, off: nat): (r: Opt<int>)
    requires off <= |src|
    ensures r.Some? ==> r.next == off + 8 <= |src| && IsI64(r.value)
  {
    if off + 8 > |src| then None else Some(Signed64(Le8(src[off..off + 8])), off + 8)
  }

  function Bytes(src: seq<Byte>, off: nat, n: nat): (r: Opt<seq<Byte>>)
    requires off <= |src|
    ensures r.Some? ==> r.next == off + n <= |src| && |r.value| == n
  {
    if off + n > |src| then None else Some(src[off..off + n], off + n)
  }

  function ParseExpr(src: seq<Byte>, off: nat): (r: Opt<Expr>)
    requires off <= |src|
    ensures r.Some? ==> off < r.next <= |src|
    decreases |src| - off, 0, 0
  {
    var (tag, o1) :- U8(src, off);
    if tag == NULL_TAG then Some(ENull, o1)
    else
      var (ty, o2) :- U8(src, o1);
      var (lv, o3) :- U8(src, o2);
      var (k, o) :- ParseKind(src, o3, tag);
      Some(E(ty, lv, k), o)
  }

  function ParseKind(src: seq<Byte>, off: nat, tag: Byte): (r: Opt<ExprKind>)
    requires off <= |src|
    ensures r.Some? ==> off <= r.next <= |src|
    decreases |src| - off, 2, 0
  {
    if tag == 0 then
      var (v, o) :- I64(src, off);
      Some(IntLit(v), o)
    else if tag == 1 then
      var (v, o) :- I64(src, off);
      Some(FloatLit(v), o)
    else if tag == 2 then
      var (i, o) :- I32(src, off);
      Some(StrLit(i), o)
    else if tag == 3 then
      var (i, o) :- I32(src, off);
      Some(Ident(i), o)
    else if tag == 4 then
      var (x, o1) :- ParseExpr(src, off);
      var (y, o2) :- ParseExpr(src, o1);
      var (z, o) :- ParseExpr(src, o2);
      Some(VecLit(x, y, z), o)
    else if tag == 5 then
      var (x, o1) :- ParseExpr(src, off);
      var (y, o2) :- ParseExpr(src, o1);
      var (z, o3) :- ParseExpr(src, o2);
      var (w, o) :- ParseExpr(src, o3);
      Some(RotLit(x, y, z, w), o)
    else if tag == 6 then
      var (n, o1) :- U32(src, off);
      var (es, o) :- ParseExprs(src, o1, n, []);
      Some(ListLit(es), o)
    else if tag == 7 then
      var (fn, o1) :- I32(src, off);
      var (n, o2) :- U32(src, o1);
      var (es, o) :- ParseExprs(src, o2, n, []);
      Some(CallExpr(fn, es), o)
    else if tag == 8 then
      var (b, o1) :- ParseExpr(src, off);
      var (axis, o) :- U8(src, o1);
      Some(Member(b, axis), o)
    else if tag == 9 then
      var (to, o1) :- U8(src, off);
      var (e, o) :- ParseExpr(src, o1);
      Some(Cast(to, e), o)
    else if tag == 10 then
      var (op, o1) :- U8(src, off);
      var (e, o) :- ParseExpr(src, o1);
      Some(Unary(op, e), o)
    else if tag == 11 then
      var (op, o1) :- U8(src, off);
      var (e, o) :- ParseExpr(src, o1);
      Some(Postfix(op, e), o)
    else if tag == 12 then
      var (op, o1) :- U8(src, off);
      var (l, o2) :- ParseExpr(src, o1);
      var (r, o) :- ParseExpr(src, o2);
      Some(Binary(op, l, r), o)
    else if tag == 13 then
      var (op, o1) :- U8(src, off);
      var (l, o2) :- ParseExpr(src, o1);
      var (r, o) :- ParseExpr(src, o2);
      Some(Assign(op, l, r), o)
    else None
  }

  /** n more expressions after those of `acc`. */
  function ParseExprs(src: seq<Byte>, off: nat, n: nat, acc: seq<Expr>): (r: Opt<seq<Expr>>)
    requires off <= |src|
    ensures r.Some? ==> off <= r.next <= |src| && |r.value| == |acc| + n
    decreases |src| - off, 1, n
  {
    if n == 0 then Some(acc, off)
    else
      var (e, o) :- ParseExpr(src, off);
      ParseExprs(src, o, n - 1, acc + [e])
  }

  /** An expression behind a presence byte. */
  function ParseOptExpr(src: seq<Byte>, off: nat): (r: Opt<Expr>)
    requires off <= |src|
    ensures r.Some? ==> off < r.next <= |src|
  {
    var (has, o) :- U8(src, off);
    if has == 0 then Some(ENull, o) else ParseExpr(src, o)
  }

  /** Lines are stored from format version 2 on. */
  function ParseLine(src: seq<Byte>, off: nat, lines: bool): (r: Opt<int>)
    requires off <= |src|
    ensures r.Some? ==> off <= r.next <= |src| && IsI32(r.value)
  {
    if lines then I32(src, off) else Some(0, off)
  }

  function ParseStmt(src: seq<Byte>, off: nat, lines: bool): (r: Opt<Stmt>)
    requires off <= |src|
    ensures r.Some? ==> off < r.next <= |src|
    decreases |src| - off, 0, 0
  {
    var (tag, o1) :- U8(src, off);
    if tag == NULL_TAG then Some(SNull, o1)
    else
      var (line, o2) :- ParseLine(src, o1, lines);
      var (k, o) :- ParseStmtKind(src, o2, tag, lines);
      Some(S(line, k), o)
  }

  function ParseStmtKind(src: seq<Byte>, off: nat, tag: Byte, lines: bool): (r: Opt<StmtKind>)
    requires off <= |src|
    ensures r.Some? ==> off <= r.next <= |src|
    decreases |src| - off, 2, 0
  {
    if tag == 0 then
      var (e, o) :- ParseExpr(src, off);
      Some(ExprStmt(e), o)
    else if tag == 1 then
      var (ty, o1) :- U8(src, off);
      var (name, o2) :- I32(src, o1);
      var (init, o) :- ParseOptExpr(src, o2);
      Some(Decl(ty, name, init), o)
    else if tag == 2 then
      var (n, o1) :- U32(src, off);
      var (ss, o) :- ParseStmts(src, o1, n, [], lines);
      Some(Block(ss), o)
    else if tag == 3 then
      var (c, o1) :- ParseExpr(src, off);
      var (t, o2) :- ParseStmt(src, o1, lines);
      var (has, o3) :- U8(src, o2);
      if has == 0 then Some(If(c, t, SNull), o3)
      else
        var (e, o) :- ParseStmt(src, o3, lines);
        Some(If(c, t, e), o)
    else if tag == 4 then
      var (c, o1) :- ParseExpr(src, off);
      var (b, o) :- ParseStmt(src, o1, lines);
      Some(While(c, b), o)
    else if tag == 5 then
      var (b, o1) :- ParseStmt(src, off, lines);
      var (c, o) :- ParseExpr(src, o1);
      Some(Do(b, c), o)
    else if tag == 6 then
      var (ni, o1) :- U8(src, off);
      var (init, o2) :- ParseExprs(src, o1, ni, []);
      var (c, o3) :- ParseOptExpr(src, o2);
      var (np, o4) :- U8(src, o3);
      var (post, o5) :- ParseExprs(src, o4, np, []);
      var (b, o) :- ParseStmt(src, o5, lines);
      Some(For(init, c, post, b), o)
    else if tag == 7 then
      var (has, o1) :- U8(src, off);
      if has == 0 then Some(Return(0, ENull), o1)
      else
        var (e, o) :- ParseExpr(src, o1);
        Some(Return(has, e), o)
    else if tag == 8 then
      var (i, o) :- I32(src, off);
      Some(Jump(i), o)
    else if tag == 9 then
      var (i, o) :- I32(src, off);
      Some(Label(i), o)
    else if tag == 10 then
      var (i, o) :- I32(src, off);
      Some(StateChange(i), o)
    else if tag == 11 then Some(Empty, off)
    else None
  }

  function ParseStmts(src: seq<Byte>, off: nat, n: nat, acc: seq<Stmt>, lines: bool): (r: Opt<seq<Stmt>>)
    requires off <= |src|
    ensures r.Some? ==> off <= r.next <= |src| && |r.value| == |acc| + n
    decreases |src| - off, 1, n
  {
    if n == 0 then Some(acc, off)
    else
      var (s, o) :- ParseStmt(src, off, lines);
      ParseStmts(src, o, n - 1, acc + [s], lines)
  }

  // ----- declarations -----

  function ParseString(src: seq<Byte>, off: nat): (r: Opt<string>)
    requires off <= |src|
    ensures r.Some? ==> off < r.next <= |src|
  {
    var (n, o1) :- U32(src, off);
    var (b, o) :- Bytes(src, o1, n);
    Some(Text(b), o)
  }

  function ParseStrings(src: seq<Byte>, off: nat, n: nat, acc: seq<string>): (r: Opt<seq<string>>)
    requires off <= |src|
    ensures r.Some? ==> off <= r.next <= |src|
    decreases n
  {
    if n == 0 then Some(acc, off)
    else
      var (x, o) :- ParseString(src, off);
      ParseStrings(src, o, n - 1, acc + [x])
  }

  function ParseGlobal(src: seq<Byte>, off: nat): (r: Opt<GlobalVar>)
    requires off <= |src|
    ensures r.Some? ==> off <= r.next <= |src|
  {
    var (ty, o1) :- U8(src, off);
    var (name, o2) :- I32(src, o1);
    var (init, o) :- ParseOptExpr(src, o2);
    Some(GlobalVar(ty, name, init), o)
  }

  function ParseGlobals(src: seq<Byte>, off: nat, n: nat, acc: seq<GlobalVar>): (r: Opt<seq<GlobalVar>>)
    requires off <= |src|
    ensures r.Some? ==> off <= r.next <= |src|
    decreases n
  {
    if n == 0 then Some(acc, off)
    else
      var (x, o) :- ParseGlobal(src, off);
      ParseGlobals(src, o, n - 1, acc + [x])
  }

  function ParseParam(src: seq<Byte>, off: nat): (r: Opt<Param>)
    requires off <= |src|
    ensures r.Some? ==> off <= r.next <= |src|
  {
    var (ty, o1) :- U8(src, off);
    var (name, o) :- I32(src, o1);
    Some(Param(ty, name), o)
  }

  function ParseParams(src: seq<Byte>, off: nat, n: nat, acc: seq<Param>): (r: Opt<seq<Param>>)
    requires off <= |src|
    ensures r.Some? ==> off <= r.next <= |src|
    decreases n
  {
    if n == 0 then Some(acc, off)
    else
      var (x, o) :- ParseParam(src, off);
      ParseParams(src, o, n - 1, acc + [x])
  }

  function ParseFunc(src: seq<Byte>, off: nat, lines: bool): (r: Opt<FuncDecl>)
    requires off <= |src|
    ensures r.Some? ==> off <= r.next <= |src|
  {
    var (name, o1) :- I32(src, off);
    var (line, o2) :- ParseLine(src, o1, lines);
    var (ret, o3) :- U8(src, o2);
    var (has, o4) :- U8(src, o3);
    var (np, o5) :- U8(src, o4);
    var (ps, o6) :- ParseParams(src, o5, np, []);
    var (body, o) :- ParseStmt(src, o6, lines);
    Some(FuncDecl(name, line, ret, has, ps, body), o)
  }

  function ParseFuncs(src: seq<Byte>, off: nat, n: nat, acc: seq<FuncDecl>, lines: bool): (r: Opt<seq<FuncDecl>>)
    requires off <= |src|
    ensures r.Some? ==> off <= r.next <= |src|
    decreases n
  {
    if n == 0 then Some(acc, off)
    else
      var (x, o) :- ParseFunc(src, off, lines);
      ParseFuncs(src, o, n - 1, acc + [x], lines)
  }

  function ParseEvent(src: seq<Byte>, off: nat, lines: bool): (r: Opt<EventDecl>)
    requires off <= |src|
    ensures r.Some? ==> off <= r.next <= |src|
  {
    var (name, o1) :- I32(src, off);
    var (line, o2) :- ParseLine(src, o1, lines);
    var (np, o3) :- U8(src, o2);
    var (ps, o4) :- ParseParams(src, o3, np, []);
    var (body, o) :- ParseStmt(src, o4, lines);
    Some(EventDecl(name, line, ps, body), o)
  }

  function ParseEvents(src: seq<Byte>, off: nat, n: nat, acc: seq<EventDecl>, lines: bool): (r: Opt<seq<EventDecl>>)
    requires off <= |src|
    ensures r.Some? ==> off <= r.next <= |src|
    decreases n
  {
    if n == 0 then Some(acc, off)
    else
      var (x, o) :- ParseEvent(src, off, lines);
      ParseEvents(src, o, n - 1, acc + [x], lines)
  }

  function ParseState(src: seq<Byte>, off: nat, lines: bool): (r: Opt<StateDecl>)
    requires off <= |src|
    ensures r.Some? ==> off <= r.next <= |src|
  {
    var (name, o1) :- I32(src, off);
    var (line, o2) :- ParseLine(src, o1, lines);
    var (isd, o3) :- U8(src, o2);
    var (ne, o4) :- U32(src, o3);
    var (evs, o) :- ParseEvents(src, o4, ne, [], lines);
    Some(StateDecl(name, line, isd, evs), o)
  }

  function ParseStates(src: seq<Byte>, off: nat, n: nat, acc: seq<StateDecl>, lines: bool): (r: Opt<seq<StateDecl>>)
    requires off <= |src|
    ensures r.Some? ==> off <= r.next <= |src|
    decreases n
  {
    if n == 0 then Some(acc, off)
    else
      var (x, o) :- ParseState(src, off, lines);
      ParseStates(src, o, n - 1, acc + [x], lines)
  }

  /** The tables behind the header. */
  function ParseTables(src: seq<Byte>, off: nat, flags: int, lines: bool): (r: Opt<Program>)
    requires off <= |src|
    ensures r.Some? ==> off <= r.next <= |src|
  {
    var (n0, o0) :- U32(src, off);
    var (strs, o1) :- ParseStrings(src, o0, n0, []);
    var (n1, o2) :- U32(src, o1);
    var (gs, o3) :- ParseGlobals(src, o2, n1, []);
    var (n2, o4) :- U32(src, o3);
    var (fs, o5) :- ParseFuncs(src, o4, n2, [], lines);
    var (n3, o6) :- U32(src, o5);
    var (ss, o) :- ParseStates(src, o6, n3, [], lines);
    Some(Program(flags, strs, gs, fs, ss), o)
  }

  /** A whole file; bytes behind the last table are ignored. */
  function ParseProgram(src: seq<Byte>): Opt<Program> {
    var (magic, o1) :- Bytes(src, 0, 5);
    if magic != MAGIC then None
    else
      var (ver, o2) :- U32(src, o1);
      var (flags, o3) :- I32(src, o2);
      if ver != 1 && ver != 2 then None else ParseTables(src, o3, flags, ver == 2)
  }
}
