/** A program with a `do` loop followed to its end, for every argument. */
module DoProgram {
  import opened MachineWords
  import opened Values
  import opened Ast
  import opened Semantics
  import opened CellLaws
  import opened LoopProgram

  //  integer down(integer n) {
  //    integer s = 0;
  //    do { s += n; n--; } while (n > 0);
  //    return s;
  //  }

  function Adding(): Stmt { S(3, ExprStmt(E(INTEGER, 0, Assign(37, Name(2), Name(1))))) }
  function Lowering(): Stmt { S(3, ExprStmt(E(INTEGER, 0, Postfix(63, Name(1))))) }
  function Inner(): Stmt { S(3, Block([Adding(), Lowering()])) }
  function Again(): Expr { E(INTEGER, 0, Binary(59, Name(1), Number(0))) }
  function DoLoop(): Stmt { S(3, Do(Inner(), Again())) }
  function DoBody(): Stmt { S(1, Block([S(2, Decl(INTEGER, 2, Number(0))), DoLoop(), S(4, Return(1, Name(2)))])) }
  function Down(): FuncDecl { FuncDecl(0, 1, INTEGER, 1, [Param(INTEGER, 1)], DoBody()) }
  function DoProg(): Program { Program(0, ["down", "n", "s"], [], [Down()], []) }

  function Pair(st: Store, n: int, s: int): Store { st.(locals := [Var(1, Int(n)), Var(2, Int(s))]) }

  lemma ReadPair(h: Host, st: Store, n: int, s: int, x: int, fuel: nat)
    requires Ready(st) && x in {1, 2}
    ensures var w := Pair(st, n, s);
            && Fits(DoProg(), w) && FindCell(DoProg(), x, w) == Cell(Local(x - 1))
            && Eval(DoProg(), h, Name(x), w, fuel) == Done(w.locals[x - 1].val, w)
  {
    hide FindLocal, FindCell, ReadName;
    InnermostFirst(DoProg(), h, x, Pair(st, n, s), x - 1);
  }

  lemma AgainIs(h: Host, st: Store, n: int, s: int, fuel: nat)
    requires Ready(st)
    ensures var w := Pair(st, n, s);
            Fits(DoProg(), w) && Eval(DoProg(), h, Again(), w, fuel) == Done(Int(if n > 0 then 1 else 0), w)
  {
    hide FindLocal, ReadName, EvalBinary;
    ReadPair(h, st, n, s, 1, fuel);
    MoreThanNone(n);
  }

  lemma MoreThanNone(n: int)
    ensures EvalBinary(59, Int(n), Int(0)) == Int(if n > 0 then 1 else 0)
  {
  }

  lemma AddingIs(h: Host, st: Store, n: int, s: int, fuel: nat)
    requires Ready(st) && -TWO63 <= s + n < TWO63
    ensures var w := Pair(st, n, s);
            Fits(DoProg(), w) && Exec(DoProg(), h, Adding(), w, fuel) == Done(Normal, Pair(st, n, s + n))
  {
    hide FindLocal, FindCell, ReadName, EvalBinary;
    var w := Pair(st, n, s);
    ReadPair(h, st, n, s, 1, fuel);
    ReadPair(h, st, n, s, 2, fuel);
    Added(s, n);
    assert Write(w, Local(1), Int(s + n)) == Pair(st, n, s + n);
    assert AssignTo(h, 37, Cell(Local(1)), Int(n), w) == Done(Int(s + n), Pair(st, n, s + n));
  }

  lemma LoweringIs(h: Host, st: Store, n: int, s: int, fuel: nat)
    requires Ready(st) && -TWO63 < n <= TWO63
    ensures var w := Pair(st, n, s);
            Fits(DoProg(), w) && Exec(DoProg(), h, Lowering(), w, fuel) == Done(Normal, Pair(st, n - 1, s))
  {
    hide FindLocal, FindCell, ReadName;
    var w := Pair(st, n, s);
    ReadPair(h, st, n, s, 1, fuel);
    assert Write(w, Local(0), Int(n - 1)) == Pair(st, n - 1, s);
    assert PostfixStep(63, Cell(Local(0)), w) == (Int(n), Pair(st, n - 1, s));
  }

  lemma InnerIs(h: Host, st: Store, n: int, s: int, fuel: nat)
    requires Ready(st) && -TWO63 < n <= TWO63 && -TWO63 <= s + n < TWO63
    ensures var w := Pair(st, n, s);
            Fits(DoProg(), w) && Exec(DoProg(), h, Inner(), w, fuel) == Done(Normal, Pair(st, n - 1, s + n))
  {
    hide Eval, FindLabel;
    var b := Inner().kind.stmts;
    var w, w1, w2 := Pair(st, n, s), Pair(st, n, s + n), Pair(st, n - 1, s + n);
    AddingIs(h, st, n, s, fuel);
    LoweringIs(h, st, n, s + n, fuel);
    assert ExecSeq(DoProg(), h, b, 2, w2, fuel) == Done(Normal, w2);
    assert ExecSeq(DoProg(), h, b, 1, w1, fuel) == Done(Normal, w2);
    assert ExecSeq(DoProg(), h, b, 0, w, fuel) == Done(Normal, w2);
    assert w2.locals[..2] == w2.locals;
  }

  /** n + (n - 1) + ..., k numbers */
  function Descending(n: int, k: nat): int { if k == 0 then 0 else Descending(n, k - 1) + (n - (k - 1)) }

  lemma {:induction false} DescendingBound(n: int, k: nat)
    requires -TWO31 <= n < TWO31 && k <= 1_000_000
    ensures Descending(n, k) <= k * TWO32 && -Descending(n, k) <= k * TWO32 <= 1_000_000 * TWO32
  {
    if k > 0 { DescendingBound(n, k - 1); }
  }

  /** How often the body runs: at least once, and a million times at most. */
  function Times(n: int): (k: nat)
    ensures 1 <= k <= 1_000_000
  {
    if n < 1 then 1 else if n > 1_000_000 then 1_000_000 else n
  }

  /** With k iterations done. */
  lemma {:induction false} DoIs(h: Host, st: Store, n: int, k: nat, fuel: nat)
    requires Ready(st) && -TWO31 <= n < TWO31 && k < Times(n)
    ensures Fits(DoProg(), Pair(st, n - k, Descending(n, k))) && k <= LOOP_CAP
    ensures ExecDo(DoProg(), h, DoLoop(), LOOP_CAP - k, Pair(st, n - k, Descending(n, k)), fuel) ==
            Done(Normal, Pair(st, n - Times(n), Descending(n, Times(n))))
    decreases LOOP_CAP - k
  {
    hide Eval, Exec;
    var s := Descending(n, k);
    DescendingBound(n, k);
    InnerIs(h, st, n - k, s, fuel);
    assert Descending(n, k + 1) == s + (n - k);
    AgainIs(h, st, n - (k + 1), Descending(n, k + 1), fuel);
    if k + 1 < Times(n) {
      DoIs(h, st, n, k + 1, fuel);
    } else if k + 1 == LOOP_CAP {
      CapEndsDo(h, Pair(st, n - (k + 1), Descending(n, k + 1)), fuel);
    }
  }

  lemma CapEndsDo(h: Host, st: Store, fuel: nat)
    requires Fits(DoProg(), st) && st.pending < 0
    ensures ExecDo(DoProg(), h, DoLoop(), 0, st, fuel) == Done(Normal, st)
  {
  }

  lemma DoBodyIs(h: Host, st: Store, n: int, fuel: nat)
    requires Ready(st) && -TWO31 <= n < TWO31
    ensures Fits(DoProg(), Called(st, n))
    ensures var r := Exec(DoProg(), h, DoBody(), Called(st, n), fuel);
            r.Done? && r.v == Returned(Int(Descending(n, Times(n)))) && r.st == Called(st, n - Times(n))
  {
    hide FindLocal, FindCell, ReadName, FindLabel, ExecDo, Descending, Times;
    var b := DoBody().kind.stmts;
    var o := Returned(Int(Descending(n, Times(n))));
    var s0, s1 := Called(st, n), Pair(st, n, 0);
    var s2 := Pair(st, n - Times(n), Descending(n, Times(n)));
    assert s0.locals + [Var(2, Int(0))] == s1.locals;
    assert Exec(DoProg(), h, b[0], s0, fuel) == Done(Normal, s1);
    NoneYet(n);
    DoIs(h, st, n, 0, fuel);
    assert Exec(DoProg(), h, b[1], s1, fuel) == Done(Normal, s2);
    ReadPair(h, st, n - Times(n), Descending(n, Times(n)), 2, fuel);
    assert Exec(DoProg(), h, b[2], s2, fuel) == Done(o, s2);
    InOrder(h, s0, s1, s2, o, fuel);
    assert s2.locals[..1] == Called(st, n - Times(n)).locals;
  }

  lemma NoneYet(n: int)
    ensures Descending(n, 0) == 0
  {
  }

  lemma InOrder(h: Host, s0: Store, s1: Store, s2: Store, o: Outcome, fuel: nat)
    requires Fits(DoProg(), s0) && Fits(DoProg(), s1) && Fits(DoProg(), s2)
    requires var b := DoBody().kind.stmts;
             && Exec(DoProg(), h, b[0], s0, fuel) == Done(Normal, s1)
             && Exec(DoProg(), h, b[1], s1, fuel) == Done(Normal, s2)
             && Exec(DoProg(), h, b[2], s2, fuel) == Done(o, s2) && o.Returned?
    ensures ExecSeq(DoProg(), h, DoBody().kind.stmts, 0, s0, fuel) == Done(o, s2)
  {
    hide Exec, FindLabel;
    var p, b := DoProg(), DoBody().kind.stmts;
    assert ExecSeq(p, h, b, 2, s2, fuel) == Done(o, s2);
    assert ExecSeq(p, h, b, 1, s1, fuel) == Done(o, s2);
  }

  /** The call adds up n, n - 1, ... down to 1, but at least n itself and never more than a
      million numbers, and leaves the store as it was. */
  lemma DownIs(h: Host, st: Store, n: int, fuel: nat)
    requires Ready(st) && -TWO31 <= n < TWO31 && fuel > 0
    ensures Fits(DoProg(), st)
    ensures Eval(DoProg(), h, E(INTEGER, 0, CallExpr(0, [Number(n)])), st, fuel) ==
            Done(Int(Descending(n, Times(n))), st)
    ensures 0 < n <= 1_000_000 ==> Descending(n, Times(n)) == Gauss(n)
  {
    hide Exec, Times, Descending, Gauss;
    DoBodyIs(h, st, n, fuel - 1);
    OneArgument(h, st, n, fuel);
    if 0 < n <= 1_000_000 { ToTheEnd(n); }
  }

  lemma OneArgument(h: Host, st: Store, n: int, fuel: nat)
    requires Ready(st)
    ensures Fits(DoProg(), st)
    ensures BindFrom(DoProg(), h, Down().params, [Number(n)], 0, [], st, fuel) == Done([Var(1, Int(n))], st)
  {
    var vars := [Var(1, Int(n))];
    assert [] + vars == vars;
    assert BindFrom(DoProg(), h, Down().params, [Number(n)], 1, vars, st, fuel) == Done(vars, st);
  }

  lemma ToTheEnd(n: nat)
    requires 0 < n <= 1_000_000
    ensures Descending(n, Times(n)) == Gauss(n)
  {
    hide Gauss;
    FromBelow(n, n);
    GaussNothing();
  }

  lemma GaussNothing()
    ensures Gauss(0) == 0
  {
  }

  lemma {:induction false} FromBelow(n: nat, k: nat)
    requires k <= n
    ensures Descending(n, k) == Gauss(n) - Gauss(n - k)
  {
    hide Gauss;
    if k > 0 {
      FromBelow(n, k - 1);
      GaussStep(n - k);
    }
  }
}
