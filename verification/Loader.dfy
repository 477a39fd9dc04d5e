/** The reader of src/loader.c: a cursor with a sticky error flag. A short read sets the
    flag and leaves its destination with whatever was there, and reading goes on; only
    the flag decides at the end. Every method is proved against the strict parser. */
module Loader {
  import opened Ast
  import opened MachineWords
  import opened Slbc

  /** An error stays; without one, what was read is what the parser reads. */
  ghost predicate Follows<T(!new)>(err0: bool, r: Opt<T>, err: bool, v: T, off: nat) {
    && (err0 ==> err)
    && (!err0 ==> (err <==> r.None?))
    && (!err ==> r == Some(v, off))
  }

  class Rdr {
    const src: seq<Byte>
    var off: nat
    var err: bool

    constructor (src: seq<Byte>)
      ensures this.src == src && off == 0 && !err
    {
      this.src := src;
      off, err := 0, false;
    }

    ghost predicate Valid()
      reads this
    {
      off <= |src|
    }

    // ----- scalars -----

    method ReadU8() returns (ok: bool, v: Byte)
      requires Valid()
      modifies this
      ensures Valid() && off >= old(off) && (ok ==> off == old(off) + 1)
      ensures ok <==> U8(src, old(off)).Some?
      ensures Follows(old(err), U8(src, old(off)), err, v, off)
      ensures ok ==> err == old(err)
    {
      v := *;
      if off + 1 > |src| { err := true; return false, v; }
      v := src[off];
      off := off + 1;
      ok := true;
    }

    method ReadU32() returns (ok: bool, v: nat)
      requires Valid()
      modifies this
      ensures Valid() && off >= old(off)
      ensures ok <==> U32(src, old(off)).Some?
      ensures Follows(old(err), U32(src, old(off)), err, v, off)
    {
      v := *;
      if off + 4 > |src| { err := true; return false, v; }
      v := src[off] as int + 0x100 * (src[off + 1] as int)
         + 0x1_0000 * (src[off + 2] as int) + 0x100_0000 * (src[off + 3] as int);
      assert v == Le4(src[off..off + 4]);
      off := off + 4;
      ok := true;
    }

    /** A word stored into an int. */
    method ReadInt() returns (ok: bool, v: int)
      requires Valid()
      modifies this
      ensures Valid() && off >= old(off)
      ensures ok <==> I32(src, old(off)).Some?
      ensures Follows(old(err), I32(src, old(off)), err, v, off)
    {
      var x;
      ok, x := ReadU32();
      v := Signed32(x);
    }

    /** The loop over eight bytes, least significant first. */
    method ReadI64() returns (ok: bool, v: int)
      requires Valid()
      modifies this
      ensures Valid() && off >= old(off)
      ensures Follows(old(err), I64(src, old(off)), err, v, off)
    {
      v := *;
      if off + 8 > |src| { err := true; return false, v; }
      var x: nat, scale: nat, i := 0, 1, 0;
      ghost var s := src[off..off + 8];
      while i < 8
        invariant 0 <= i <= 8 && scale == Weight(i) && x == Low(s, i)
      {
        x := x + (src[off + i] as int) * scale;
        scale := scale * 0x100;
        i := i + 1;
      }
      LowIsLe8(s);
      off := off + 8;
      v := Signed64(x);
      ok := true;
    }

    method ReadBytes(n: nat) returns (ok: bool, out: seq<Byte>)
      requires Valid()
      modifies this
      ensures Valid() && off >= old(off)
      ensures ok <==> Bytes(src, old(off), n).Some?
      ensures Follows(old(err), Bytes(src, old(off), n), err, out, off)
    {
      out := *;
      if off + n > |src| { err := true; return false, out; }
      out := src[off..off + n];
      off := off + n;
      ok := true;
    }

    // ----- expressions -----

    method ReadExpr() returns (e: Expr)
      requires Valid()
      modifies this
      ensures Valid() && off >= old(off)
      ensures Follows(old(err), ParseExpr(src, old(off)), err, e, off)
      decreases |src| - off, 1, 0
    {
      hide ParseKind;
      e := ENull;
      var ok, tag, ty, lv;
      ok, tag := ReadU8();
      if !ok { return; }
      if tag == NULL_TAG { return; }
      ok, ty := ReadU8();
      if !ok { return; }
      ok, lv := ReadU8();
      if !ok { return; }
      var k := ReadKind(tag);
      e := E(ty, lv, k);
    }

    /** The switch over the expression tag. */
    method ReadKind(tag: Byte) returns (k: ExprKind)
      requires Valid()
      modifies this
      ensures Valid() && off >= old(off)
      ensures Follows(old(err), ParseKind(src, old(off), tag), err, k, off)
      decreases |src| - off, 3, 0
    {
      hide ParseExpr, Le4, Le8, Signed32, Signed64, U8, U32, I32, I64;
      k := IntLit(0);
      if tag == 0 {
        var _, v := ReadI64();
        k := IntLit(v);
      } else if tag == 1 {
        var _, v := ReadI64();
        k := FloatLit(v);
      } else if tag == 2 {
        var _, i := ReadInt();
        k := StrLit(i);
      } else if tag == 3 {
        var _, i := ReadInt();
        k := Ident(i);
      } else if tag == 4 || tag == 5 {
        k := ReadTuple(tag);
      } else if tag == 6 {
        var _, n := ReadU32();
        var es := ReadExprs(n);
        k := ListLit(es);
      } else if tag == 7 {
        var _, fn := ReadInt();
        var _, n := ReadU32();
        var es := ReadExprs(n);
        k := CallExpr(fn, es);
      } else if tag == 8 {
        var b := ReadExpr();
        var _, axis := ReadU8();
        k := Member(b, axis);
      } else if tag <= 13 {
        k := ReadOperator(tag);
      } else {
        err := true;
      }
    }

    method ReadTuple(tag: Byte) returns (k: ExprKind)
      requires Valid() && 4 <= tag <= 5
      modifies this
      ensures Valid() && off >= old(off)
      ensures Follows(old(err), ParseKind(src, old(off), tag), err, k, off)
      decreases |src| - off, 2, 0
    {
      hide ParseExpr;
      var x := ReadExpr();
      var y := ReadExpr();
      var z := ReadExpr();
      if tag == 4 {
        k := VecLit(x, y, z);
      } else {
        var w := ReadExpr();
        k := RotLit(x, y, z, w);
      }
    }

    method ReadOperator(tag: Byte) returns (k: ExprKind)
      requires Valid() && 9 <= tag <= 13
      modifies this
      ensures Valid() && off >= old(off)
      ensures Follows(old(err), ParseKind(src, old(off), tag), err, k, off)
      decreases |src| - off, 2, 0
    {
      hide ParseExpr, U8;
      var _, op := ReadU8();
      var l := ReadExpr();
      if tag == 9 {
        k := Cast(op, l);
      } else if tag == 10 {
        k := Unary(op, l);
      } else if tag == 11 {
        k := Postfix(op, l);
      } else {
        var r := ReadExpr();
        k := if tag == 12 then Binary(op, l, r) else Assign(op, l, r);
      }
    }

    /** n items, even when n is what a failed read left behind. */
    method ReadExprs(n: nat) returns (es: seq<Expr>)
      requires Valid()
      modifies this
      ensures Valid() && off >= old(off)
      ensures Follows(old(err), ParseExprs(src, old(off), n, []), err, es, off)
      decreases |src| - off, 2, 0
    {
      hide ParseExpr;
      es := [];
      var i := 0;
      while i < n
        invariant 0 <= i <= n && Valid() && off >= old(off)
        invariant old(err) ==> err
        invariant !old(err) && err ==> ParseExprs(src, old(off), n, []).None?
        invariant !err ==> ParseExprs(src, old(off), n, []) == ParseExprs(src, off, n - i, es)
      {
        var e := ReadExpr();
        es := es + [e];
        i := i + 1;
      }
    }

    method ReadOptExpr() returns (e: Expr)
      requires Valid()
      modifies this
      ensures Valid() && off >= old(off)
      ensures Follows(old(err), ParseOptExpr(src, old(off)), err, e, off)
    {
      hide ParseExpr;
      e := ENull;
      var _, has := ReadU8();
      if has != 0 { e := ReadExpr(); }
    }

    // ----- statements -----

    /** Line numbers are read from format version 2 on. */
    method ReadLine(lines: bool) returns (line: int)
      requires Valid()
      modifies this
      ensures Valid() && off >= old(off)
      ensures Follows(old(err), ParseLine(src, old(off), lines), err, line, off)
    {
      line := 0;
      if lines {
        var _, x := ReadInt();
        line := x;
      }
    }

    method ReadStmt(lines: bool) returns (s: Stmt)
      requires Valid()
      modifies this
      ensures Valid() && off >= old(off)
      ensures Follows(old(err), ParseStmt(src, old(off), lines), err, s, off)
      decreases |src| - off, 1, 0
    {
      hide ParseStmtKind, ParseLine;
      s := SNull;
      var ok, tag := ReadU8();
      if !ok { return; }
      if tag == NULL_TAG { return; }
      var line := ReadLine(lines);
      var k := ReadStmtKind(tag, lines);
      s := S(line, k);
    }

    method ReadStmtKind(tag: Byte, lines: bool) returns (k: StmtKind)
      requires Valid()
      modifies this
      ensures Valid() && off >= old(off)
      ensures Follows(old(err), ParseStmtKind(src, old(off), tag, lines), err, k, off)
      decreases |src| - off, 3, 0
    {
      hide ParseExpr, ParseStmt, ParseOptExpr, U8, U32, I32;
      k := Empty;
      if tag == 0 {
        var e := ReadExpr();
        k := ExprStmt(e);
      } else if tag == 1 {
        var _, ty := ReadU8();
        var _, name := ReadInt();
        var init := ReadOptExpr();
        k := Decl(ty, name, init);
      } else if tag == 2 {
        var _, n := ReadU32();
        var ss := ReadStmts(n, lines);
        k := Block(ss);
      } else if tag == 3 {
        k := ReadIf(lines);
      } else if tag == 4 {
        var c := ReadExpr();
        var b := ReadStmt(lines);
        k := While(c, b);
      } else if tag == 5 {
        var b := ReadStmt(lines);
        var c := ReadExpr();
        k := Do(b, c);
      } else if tag == 6 {
        k := ReadFor(lines);
      } else if tag == 7 {
        var _, has := ReadU8();
        var e := ENull;
        if has != 0 { e := ReadExpr(); }
        k := Return(has, e);
      } else if tag <= 10 {
        var _, i := ReadInt();
        k := if tag == 8 then Jump(i) else if tag == 9 then Label(i) else StateChange(i);
      } else if tag != 11 {
        err := true;
      }
    }

    method ReadIf(lines: bool) returns (k: StmtKind)
      requires Valid()
      modifies this
      ensures Valid() && off >= old(off)
      ensures Follows(old(err), ParseStmtKind(src, old(off), 3, lines), err, k, off)
      decreases |src| - off, 2, 0
    {
      hide ParseExpr, ParseStmt, U8;
      var c := ReadExpr();
      var t := ReadStmt(lines);
      var _, has := ReadU8();
      var e := SNull;
      if has != 0 { e := ReadStmt(lines); }
      k := If(c, t, e);
    }

    method ReadFor(lines: bool) returns (k: StmtKind)
      requires Valid()
      modifies this
      ensures Valid() && off >= old(off)
      ensures Follows(old(err), ParseStmtKind(src, old(off), 6, lines), err, k, off)
      decreases |src| - off, 2, 0
    {
      hide ParseExpr, ParseStmt, ParseExprs, ParseOptExpr, U8;
      var _, ni := ReadU8();
      var init := ReadExprs(ni);
      var c := ReadOptExpr();
      var _, np := ReadU8();
      var post := ReadExprs(np);
      var b := ReadStmt(lines);
      k := For(init, c, post, b);
    }

    method ReadStmts(n: nat, lines: bool) returns (ss: seq<Stmt>)
      requires Valid()
      modifies this
      ensures Valid() && off >= old(off)
      ensures Follows(old(err), ParseStmts(src, old(off), n, [], lines), err, ss, off)
      decreases |src| - off, 2, 0
    {
      hide ParseStmt;
      ss := [];
      var i := 0;
      while i < n
        invariant 0 <= i <= n && Valid() && off >= old(off)
        invariant old(err) ==> err
        invariant !old(err) && err ==> ParseStmts(src, old(off), n, [], lines).None?
        invariant !err ==> ParseStmts(src, old(off), n, [], lines) == ParseStmts(src, off, n - i, ss, lines)
      {
        var s := ReadStmt(lines);
        ss := ss + [s];
        i := i + 1;
      }
    }

    // ----- declarations -----

    method ReadStrings(n: nat) returns (xs: seq<string>)
      requires Valid()
      modifies this
      ensures Valid() && off >= old(off)
      ensures Follows(old(err), ParseStrings(src, old(off), n, []), err, xs, off)
    {
      hide U32;
      xs := [];
      var i := 0;
      while i < n
        invariant 0 <= i <= n && Valid() && off >= old(off)
        invariant old(err) ==> err
        invariant !old(err) && err ==> ParseStrings(src, old(off), n, []).None?
        invariant !err ==> ParseStrings(src, old(off), n, []) == ParseStrings(src, off, n - i, xs)
      {
        var _, l := ReadU32();
        var _, b := ReadBytes(l);
        xs := xs + [Text(b)];
        i := i + 1;
      }
    }

    method ReadGlobals(n: nat) returns (xs: seq<GlobalVar>)
      requires Valid()
      modifies this
      ensures Valid() && off >= old(off)
      ensures Follows(old(err), ParseGlobals(src, old(off), n, []), err, xs, off)
    {
      hide U8, I32, ParseOptExpr;
      xs := [];
      var i := 0;
      while i < n
        invariant 0 <= i <= n && Valid() && off >= old(off)
        invariant old(err) ==> err
        invariant !old(err) && err ==> ParseGlobals(src, old(off), n, []).None?
        invariant !err ==> ParseGlobals(src, old(off), n, []) == ParseGlobals(src, off, n - i, xs)
      {
        var _, ty := ReadU8();
        var _, name := ReadInt();
        var init := ReadOptExpr();
        xs := xs + [GlobalVar(ty, name, init)];
        i := i + 1;
      }
    }

    method ReadParams(n: nat) returns (xs: seq<Param>)
      requires Valid()
      modifies this
      ensures Valid() && off >= old(off)
      ensures Follows(old(err), ParseParams(src, old(off), n, []), err, xs, off)
    {
      hide U8, I32;
      xs := [];
      var i := 0;
      while i < n
        invariant 0 <= i <= n && Valid() && off >= old(off)
        invariant old(err) ==> err
        invariant !old(err) && err ==> ParseParams(src, old(off), n, []).None?
        invariant !err ==> ParseParams(src, old(off), n, []) == ParseParams(src, off, n - i, xs)
      {
        var _, ty := ReadU8();
        var _, name := ReadInt();
        xs := xs + [Param(ty, name)];
        i := i + 1;
      }
    }

    method ReadFunc(lines: bool) returns (f: FuncDecl)
      requires Valid()
      modifies this
      ensures Valid() && off >= old(off)
      ensures Follows(old(err), ParseFunc(src, old(off), lines), err, f, off)
    {
      hide U8, I32, ParseStmt, ParseParams, ParseLine;
      var _, name := ReadInt();
      var line := ReadLine(lines);
      var _, ret := ReadU8();
      var _, has := ReadU8();
      var _, np := ReadU8();
      var ps := ReadParams(np);
      var body := ReadStmt(lines);
      f := FuncDecl(name, line, ret, has, ps, body);
    }

    method ReadFuncs(n: nat, lines: bool) returns (xs: seq<FuncDecl>)
      requires Valid()
      modifies this
      ensures Valid() && off >= old(off)
      ensures Follows(old(err), ParseFuncs(src, old(off), n, [], lines), err, xs, off)
    {
      hide ParseFunc;
      xs := [];
      var i := 0;
      while i < n
        invariant 0 <= i <= n && Valid() && off >= old(off)
        invariant old(err) ==> err
        invariant !old(err) && err ==> ParseFuncs(src, old(off), n, [], lines).None?
        invariant !err ==> ParseFuncs(src, old(off), n, [], lines) == ParseFuncs(src, off, n - i, xs, lines)
      {
        var f := ReadFunc(lines);
        xs := xs + [f];
        i := i + 1;
      }
    }

    method ReadEvent(lines: bool) returns (ev: EventDecl)
      requires Valid()
      modifies this
      ensures Valid() && off >= old(off)
      ensures Follows(old(err), ParseEvent(src, old(off), lines), err, ev, off)
    {
      hide U8, I32, ParseStmt, ParseParams, ParseLine;
      var _, name := ReadInt();
      var line := ReadLine(lines);
      var _, np := ReadU8();
      var ps := ReadParams(np);
      var body := ReadStmt(lines);
      ev := EventDecl(name, line, ps, body);
    }

    method ReadEvents(n: nat, lines: bool) returns (xs: seq<EventDecl>)
      requires Valid()
      modifies this
      ensures Valid() && off >= old(off)
      ensures Follows(old(err), ParseEvents(src, old(off), n, [], lines), err, xs, off)
    {
      hide ParseEvent;
      xs := [];
      var i := 0;
      while i < n
        invariant 0 <= i <= n && Valid() && off >= old(off)
        invariant old(err) ==> err
        invariant !old(err) && err ==> ParseEvents(src, old(off), n, [], lines).None?
        invariant !err ==> ParseEvents(src, old(off), n, [], lines) == ParseEvents(src, off, n - i, xs, lines)
      {
        var ev := ReadEvent(lines);
        xs := xs + [ev];
        i := i + 1;
      }
    }

    method ReadStates(n: nat, lines: bool) returns (xs: seq<StateDecl>)
      requires Valid()
      modifies this
      ensures Valid() && off >= old(off)
      ensures Follows(old(err), ParseStates(src, old(off), n, [], lines), err, xs, off)
    {
      hide U8, U32, I32, ParseEvents, ParseLine;
      xs := [];
      var i := 0;
      while i < n
        invariant 0 <= i <= n && Valid() && off >= old(off)
        invariant old(err) ==> err
        invariant !old(err) && err ==> ParseStates(src, old(off), n, [], lines).None?
        invariant !err ==> ParseStates(src, old(off), n, [], lines) == ParseStates(src, off, n - i, xs, lines)
      {
        var _, name := ReadInt();
        var line := ReadLine(lines);
        var _, isd := ReadU8();
        var _, ne := ReadU32();
        var evs := ReadEvents(ne, lines);
        xs := xs + [StateDecl(name, line, isd, evs)];
        i := i + 1;
      }
    }

    method ReadTables(flags: int, lines: bool) returns (p: Program)
      requires Valid()
      modifies this
      ensures Valid() && off >= old(off)
      ensures Follows(old(err), ParseTables(src, old(off), flags, lines), err, p, off)
    {
      hide U32, ParseStrings, ParseGlobals, ParseFuncs, ParseStates;
      var _, n0 := ReadU32();
      var strs := ReadStrings(n0);
      var _, n1 := ReadU32();
      var gs := ReadGlobals(n1);
      var _, n2 := ReadU32();
      var fs := ReadFuncs(n2, lines);
      var _, n3 := ReadU32();
      var ss := ReadStates(n3, lines);
      p := Program(flags, strs, gs, fs, ss);
    }
  }

  function Weight(i: nat): nat { if i == 0 then 1 else 0x100 * Weight(i - 1) }

  /** The number in the first i bytes. */
  function Low(s: seq<Byte>, i: nat): nat
    requires i <= |s|
  {
    if i == 0 then 0 else Low(s, i - 1) + (s[i - 1] as int) * Weight(i - 1)
  }

  lemma LowIsLe8(s: seq<Byte>)
    requires |s| == 8
    ensures Low(s, 8) == Le8(s)
  {
    assert Weight(1) == 0x100 && Weight(2) == 0x1_0000 && Weight(3) == 0x100_0000;
    assert Weight(4) == TWO32 && Weight(5) == TWO32 * 0x100;
    assert Weight(6) == TWO32 * 0x1_0000 && Weight(7) == TWO32 * 0x100_0000;
    assert Low(s, 1) == Low(s, 0) + s[0] as int * Weight(0);
    assert Low(s, 2) == Low(s, 1) + s[1] as int * Weight(1);
    assert Low(s, 4) == Low(s, 2) + s[2] as int * Weight(2) + s[3] as int * Weight(3);
    assert Low(s, 4) == Le4(s[..4]);
    assert Low(s, 6) == Low(s, 4) + s[4] as int * Weight(4) + s[5] as int * Weight(5);
    assert Low(s, 8) == Low(s, 6) + s[6] as int * Weight(6) + s[7] as int * Weight(7);
  }

  /** program_load: a file is accepted exactly when it parses, and then gives the program
      the parser gives. */
  method LoadProgram(src: seq<Byte>) returns (ok: bool, p: Program)
    ensures ok <==> ParseProgram(src).Some?
    ensures ok ==> p == ParseProgram(src).value
  {
    hide ParseTables;
    p := Program(0, [], [], [], []);
    var r := new Rdr(src);
    var good, magic := r.ReadBytes(5);
    if !good { return false, p; }
    if magic != MAGIC { return false, p; }
    var ver, flags;
    good, ver := r.ReadU32();
    if !good { return false, p; }
    good, flags := r.ReadInt();
    if !good { return false, p; }
    if ver < 1 || ver > 2 { return false, p; }
    p := r.ReadTables(flags, ver >= 2);
    ok := !r.err;
  }
}
