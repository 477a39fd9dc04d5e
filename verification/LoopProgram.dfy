/** A program followed to its end: the sum of the first n integers, by a `for` loop in a user
    function. What it gives is known in closed form for every n, so what the semantics makes of
    calls, parameters, locals, assignments, steps, conditions and loops can be read off it. */
module LoopProgram {
  import opened MachineWords
  import opened Values
  import opened Ast
  import opened Semantics

  //  integer sum(integer n) {
  //    integer s = 0;
  //    integer i;
  //    for (i = 1; i <= n; ++i) s += i;
  //    return s;
  //  }

  function Name(n: int): Expr { E(INTEGER, 1, Ident(n)) }
  function Number(i: int): Expr { E(INTEGER, 0, IntLit(i)) }
  function Start(): Expr { E(INTEGER, 0, Assign(36, Name(3), Number(1))) }
  function Goes(): Expr { E(INTEGER, 0, Binary(56, Name(3), Name(1))) }
  function Step(): Expr { E(INTEGER, 0, Unary(62, Name(3))) }
  function Adds(): Expr { E(INTEGER, 0, Assign(37, Name(2), Name(3))) }
  function Loop(): Stmt { S(4, For([Start()], Goes(), [Step()], S(4, ExprStmt(Adds())))) }

  function Body(): Stmt {
    S(1, Block([S(2, Decl(INTEGER, 2, Number(0))), S(3, Decl(INTEGER, 3, ENull)), Loop(), S(5, Return(1, Name(2)))]))
  }

  function Sum(): FuncDecl { FuncDecl(0, 1, INTEGER, 1, [Param(INTEGER, 1)], Body()) }

  function Program1(): Program { Program(0, ["sum", "n", "s", "i"], [], [Sum()], []) }

  // ----- the frame of a call -----

  function Framed(st: Store, n: int, s: int, i: int): Store {
    st.(locals := [Var(1, Int(n)), Var(2, Int(s)), Var(3, Int(i))])
  }

  predicate Ready(st: Store) { st.globals == [] && st.pending < 0 }

  lemma Finds(st: Store, n: int, s: int, i: int)
    ensures var l := Framed(st, n, s, i).locals;
            FindLocal(l, 1) == 0 && FindLocal(l, 2) == 1 && FindLocal(l, 3) == 2
  {
    var l := Framed(st, n, s, i).locals;
    assert l[0].name == 1 && l[1].name == 2 && l[2].name == 3;
  }

  lemma NameIs(h: Host, st: Store, n: int, s: int, i: int, x: int, fuel: nat)
    requires Ready(st) && x in {1, 2, 3}
    ensures var w := Framed(st, n, s, i);
            && Fits(Program1(), w) && Resolve(Program1(), Name(x), w) == Cell(Local(x - 1))
            && Eval(Program1(), h, Name(x), w, fuel) == Done(w.locals[x - 1].val, w)
  {
    hide FindLocal;
    Finds(st, n, s, i);
  }

  lemma GoesIs(h: Host, st: Store, n: int, s: int, i: int, fuel: nat)
    requires Ready(st)
    ensures var w := Framed(st, n, s, i);
            Fits(Program1(), w) && Eval(Program1(), h, Goes(), w, fuel) == Done(Int(if i <= n then 1 else 0), w)
  {
    hide FindLocal;
    NameIs(h, st, n, s, i, 1, fuel);
    NameIs(h, st, n, s, i, 3, fuel);
    LessOrEqual(i, n);
  }

  lemma LessOrEqual(i: int, n: int)
    ensures EvalBinary(56, Int(i), Int(n)) == Int(if i <= n then 1 else 0)
  {
  }

  lemma AddsIs(h: Host, st: Store, n: int, s: int, i: int, fuel: nat)
    requires Ready(st) && -TWO63 <= s + i < TWO63
    ensures var w := Framed(st, n, s, i);
            && Fits(Program1(), w)
            && Exec(Program1(), h, S(4, ExprStmt(Adds())), w, fuel) == Done(Normal, Framed(st, n, s + i, i))
  {
    hide FindLocal, EvalBinary;
    var w := Framed(st, n, s, i);
    NameIs(h, st, n, s, i, 2, fuel);
    NameIs(h, st, n, s, i, 3, fuel);
    Added(s, i);
    var lv := Cell(Local(1));
    assert AssignTo(h, 37, lv, Int(i), w) == Done(Int(s + i), Write(w, Local(1), Int(s + i)));
    assert Write(w, Local(1), Int(s + i)) == Framed(st, n, s + i, i);
  }

  lemma Added(s: int, i: int)
    requires -TWO63 <= s + i < TWO63
    ensures EvalBinary(42, Int(s), Int(i)) == Int(s + i)
  {
  }

  lemma StepIs(h: Host, st: Store, n: int, s: int, i: int, fuel: nat)
    requires Ready(st) && -TWO63 <= i < TWO63 - 1
    ensures var w := Framed(st, n, s, i);
            && Fits(Program1(), w)
            && EvalFrom(Program1(), h, [Step()], 0, [], w, fuel) == Done([Int(i + 1)], Framed(st, n, s, i + 1))
  {
    hide FindLocal;
    var w := Framed(st, n, s, i);
    NameIs(h, st, n, s, i, 3, fuel);
    assert Write(w, Local(2), Int(i + 1)) == Framed(st, n, s, i + 1);
    assert Eval(Program1(), h, Step(), w, fuel) == Done(Int(i + 1), Framed(st, n, s, i + 1));
    var vs: seq<SValue> := [Int(i + 1)];
    assert [] + vs == vs && [Step()][0] == Step();
    assert EvalFrom(Program1(), h, [Step()], 1, [Int(i + 1)], Framed(st, n, s, i + 1), fuel)
        == Done([Int(i + 1)], Framed(st, n, s, i + 1));
  }

  lemma StartIs(h: Host, st: Store, n: int, s: int, i: int, fuel: nat)
    requires Ready(st)
    ensures var w := Framed(st, n, s, i);
            && Fits(Program1(), w)
            && EvalFrom(Program1(), h, [Start()], 0, [], w, fuel) == Done([Int(1)], Framed(st, n, s, 1))
  {
    hide FindLocal;
    var w := Framed(st, n, s, i);
    NameIs(h, st, n, s, i, 3, fuel);
    assert Write(w, Local(2), Int(1)) == Framed(st, n, s, 1);
    assert Eval(Program1(), h, Start(), w, fuel) == Done(Int(1), Framed(st, n, s, 1));
    var vs: seq<SValue> := [Int(1)];
    assert [] + vs == vs && [Start()][0] == Start();
    assert EvalFrom(Program1(), h, [Start()], 1, [Int(1)], Framed(st, n, s, 1), fuel)
        == Done([Int(1)], Framed(st, n, s, 1));
  }

  // ----- the loop -----

  /** 1 + 2 + ... + j */
  function Gauss(j: nat): nat { j * (j + 1) / 2 }

  lemma GaussStep(j: nat)
    ensures Gauss(j + 1) == Gauss(j) + (j + 1)
  {
    assert (j + 1) * (j + 2) == j * (j + 1) + 2 * (j + 1);
  }

  lemma GaussBound(j: nat)
    requires j <= LOOP_CAP
    ensures Gauss(j) + j + 1 < TWO63
  {
    Product(j, LOOP_CAP);
  }

  lemma Product(j: nat, m: nat)
    requires j <= m
    ensures j * (j + 1) <= m * (m + 1)
  {
    assert m * (m + 1) - j * (j + 1) == (m - j) * (m + j + 1);
  }

  /** How far the loop gets: a million iterations at most. */
  function Last(n: int): (m: nat)
    ensures m <= 1_000_000
  {
    if n < 0 then 0 else if n > 1_000_000 then 1_000_000 else n
  }

  /** With j iterations done. */
  lemma {:induction false} LoopIs(h: Host, st: Store, n: int, j: nat, fuel: nat)
    requires Ready(st) && j <= Last(n)
    ensures Fits(Program1(), Framed(st, n, Gauss(j), j + 1)) && j <= LOOP_CAP
    ensures ExecLoop(Program1(), h, Loop(), LOOP_CAP - j, Framed(st, n, Gauss(j), j + 1), fuel) ==
            Done(Normal, Framed(st, n, Gauss(Last(n)), Last(n) + 1))
    decreases LOOP_CAP - j
  {
    hide Eval, Exec, EvalFrom, Gauss;
    var w := Framed(st, n, Gauss(j), j + 1);
    GoesIs(h, st, n, Gauss(j), j + 1, fuel);
    if j < LOOP_CAP && j + 1 <= n {
      GaussBound(j);
      GaussStep(j);
      AddsIs(h, st, n, Gauss(j), j + 1, fuel);
      StepIs(h, st, n, Gauss(j + 1), j + 1, fuel);
      LoopIs(h, st, n, j + 1, fuel);
    }
  }

  // ----- the call -----

  lemma ForIs(h: Host, st: Store, n: int, fuel: nat)
    requires Ready(st)
    ensures var w := Framed(st, n, 0, 0);
            && Fits(Program1(), w)
            && Exec(Program1(), h, Loop(), w, fuel) == Done(Normal, Framed(st, n, Gauss(Last(n)), Last(n) + 1))
  {
    hide Eval, EvalFrom, ExecLoop;
    StartIs(h, st, n, 0, 0, fuel);
    LoopIs(h, st, n, 0, fuel);
  }

  function Called(st: Store, n: int): Store { st.(locals := [Var(1, Int(n))]) }

  lemma BodyIs(h: Host, st: Store, n: int, fuel: nat)
    requires Ready(st)
    ensures Fits(Program1(), Called(st, n))
    ensures var r := Exec(Program1(), h, Body(), Called(st, n), fuel);
            r.Done? && r.v == Returned(Int(Gauss(Last(n)))) && r.st == Called(st, n)
  {
    hide FindLocal, FindLabel, ExecLoop, Gauss, Last;
    var b := Body().kind.stmts;
    var s0 := Called(st, n);
    var s1 := st.(locals := [Var(1, Int(n)), Var(2, Int(0))]);
    var s2 := Framed(st, n, 0, 0);
    var s3 := Framed(st, n, Gauss(Last(n)), Last(n) + 1);
    assert s0.locals + [Var(2, Int(0))] == s1.locals && s1.locals + [Var(3, Int(0))] == s2.locals;
    assert Exec(Program1(), h, b[0], s0, fuel) == Done(Normal, s1);
    assert Exec(Program1(), h, b[1], s1, fuel) == Done(Normal, s2);
    ForIs(h, st, n, fuel);
    NameIs(h, st, n, Gauss(Last(n)), Last(n) + 1, 2, fuel);
    assert Exec(Program1(), h, b[3], s3, fuel) == Done(Returned(Int(Gauss(Last(n)))), s3);
    Sequence(h, s0, s1, s2, s3, Returned(Int(Gauss(Last(n)))), fuel);
    assert s3.locals[..1] == s0.locals;
  }

  /** Four statements one after the other, the last of which returns. */
  lemma Sequence(h: Host, s0: Store, s1: Store, s2: Store, s3: Store, o: Outcome, fuel: nat)
    requires Fits(Program1(), s0) && Fits(Program1(), s1) && Fits(Program1(), s2) && Fits(Program1(), s3)
    requires var b := Body().kind.stmts;
             && Exec(Program1(), h, b[0], s0, fuel) == Done(Normal, s1)
             && Exec(Program1(), h, b[1], s1, fuel) == Done(Normal, s2)
             && Exec(Program1(), h, b[2], s2, fuel) == Done(Normal, s3)
             && Exec(Program1(), h, b[3], s3, fuel) == Done(o, s3) && o.Returned?
    ensures ExecSeq(Program1(), h, Body().kind.stmts, 0, s0, fuel) == Done(o, s3)
  {
    hide Exec, FindLabel;
    var p, b := Program1(), Body().kind.stmts;
    assert ExecSeq(p, h, b, 3, s3, fuel) == Done(o, s3);
    assert ExecSeq(p, h, b, 2, s2, fuel) == Done(o, s3);
    assert ExecSeq(p, h, b, 1, s1, fuel) == Done(o, s3);
  }

  /** Calling the function with any n gives the sum of the first n integers, of none when n is
      negative, and of the first million when n is greater, and leaves the store as it was. */
  lemma SumIs(h: Host, st: Store, n: int, fuel: nat)
    requires Ready(st) && fuel > 0
    ensures Fits(Program1(), st)
    ensures Eval(Program1(), h, E(INTEGER, 0, CallExpr(0, [Number(n)])), st, fuel) ==
            Done(Int(Gauss(Last(n))), st)
  {
    hide Exec, Gauss, Last;
    BodyIs(h, st, n, fuel - 1);
    ArgumentIs(h, st, n, fuel);
    assert st.(locals := [Var(1, Int(n))]) == Called(st, n);
  }

  lemma ArgumentIs(h: Host, st: Store, n: int, fuel: nat)
    requires Ready(st)
    ensures Fits(Program1(), st)
    ensures BindFrom(Program1(), h, Sum().params, [Number(n)], 0, [], st, fuel) == Done([Var(1, Int(n))], st)
  {
    var vars := [Var(1, Int(n))];
    assert [] + vars == vars;
    assert BindFrom(Program1(), h, Sum().params, [Number(n)], 1, vars, st, fuel) == Done(vars, st);
  }
}
