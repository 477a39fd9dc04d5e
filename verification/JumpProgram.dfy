/** A program with a backward jump and a branch followed to its end, for every argument. */
module JumpProgram {
  import opened MachineWords
  import opened Values
  import opened Ast
  import opened Semantics
  import opened CellLaws
  import opened LoopProgram

  //  integer minus(integer n) {
  //    integer s = 0;
  //    @top;
  //    if (n > 0) { s += n; --n; jump top; } else s = -s;
  //    return s;
  //  }

  function More(): Expr { E(INTEGER, 0, Binary(59, Name(1), Number(0))) }
  function Gather(): Stmt { S(4, ExprStmt(E(INTEGER, 0, Assign(37, Name(2), Name(1))))) }
  function Lower(): Stmt { S(4, ExprStmt(E(INTEGER, 0, Unary(63, Name(1))))) }
  function Back(): Stmt { S(4, Block([Gather(), Lower(), S(4, Jump(3))])) }
  function Turn(): Stmt { S(4, ExprStmt(E(INTEGER, 0, Assign(36, Name(2), E(INTEGER, 0, Unary(43, Name(2))))))) }
  function Fork(): Stmt { S(4, If(More(), Back(), Turn())) }

  function Lines(): seq<Stmt> {
    [S(2, Decl(INTEGER, 2, Number(0))), S(3, Label(3)), Fork(), S(5, Return(1, Name(2)))]
  }

  function Minus(): FuncDecl { FuncDecl(0, 1, INTEGER, 1, [Param(INTEGER, 1)], S(1, Block(Lines()))) }
  function JumpProg(): Program { Program(0, ["minus", "n", "s", "top"], [], [Minus()], []) }

  function Pair(st: Store, n: int, s: int): Store { st.(locals := [Var(1, Int(n)), Var(2, Int(s))]) }

  lemma ReadPair(h: Host, st: Store, n: int, s: int, x: int, fuel: nat)
    requires Ready(st) && x in {1, 2}
    ensures var w := Pair(st, n, s);
            && Fits(JumpProg(), w) && FindCell(JumpProg(), x, w) == Cell(Local(x - 1))
            && Eval(JumpProg(), h, Name(x), w, fuel) == Done(w.locals[x - 1].val, w)
  {
    hide FindLocal, FindCell, ReadName;
    InnermostFirst(JumpProg(), h, x, Pair(st, n, s), x - 1);
  }

  lemma MoreIs(h: Host, st: Store, n: int, s: int, fuel: nat)
    requires Ready(st)
    ensures var w := Pair(st, n, s);
            Fits(JumpProg(), w) && Eval(JumpProg(), h, More(), w, fuel) == Done(Int(if n > 0 then 1 else 0), w)
  {
    hide FindLocal, ReadName, EvalBinary;
    ReadPair(h, st, n, s, 1, fuel);
    Positive(n);
  }

  lemma Positive(n: int)
    ensures EvalBinary(59, Int(n), Int(0)) == Int(if n > 0 then 1 else 0)
  {
  }

  lemma GatherIs(h: Host, st: Store, n: int, s: int, fuel: nat)
    requires Ready(st) && -TWO63 <= s + n < TWO63
    ensures var w := Pair(st, n, s);
            Fits(JumpProg(), w) && Exec(JumpProg(), h, Gather(), w, fuel) == Done(Normal, Pair(st, n, s + n))
  {
    hide FindLocal, FindCell, ReadName, EvalBinary;
    var w := Pair(st, n, s);
    ReadPair(h, st, n, s, 1, fuel);
    ReadPair(h, st, n, s, 2, fuel);
    Added(s, n);
    assert Write(w, Local(1), Int(s + n)) == Pair(st, n, s + n);
    assert AssignTo(h, 37, Cell(Local(1)), Int(n), w) == Done(Int(s + n), Pair(st, n, s + n));
  }

  lemma LowerIs(h: Host, st: Store, n: int, s: int, fuel: nat)
    requires Ready(st) && -TWO63 < n <= TWO63
    ensures var w := Pair(st, n, s);
            Fits(JumpProg(), w) && Exec(JumpProg(), h, Lower(), w, fuel) == Done(Normal, Pair(st, n - 1, s))
  {
    hide FindLocal, FindCell, ReadName;
    var w := Pair(st, n, s);
    ReadPair(h, st, n, s, 1, fuel);
    assert Write(w, Local(0), Int(n - 1)) == Pair(st, n - 1, s);
    assert PrefixStep(63, Cell(Local(0)), w) == Done(Int(n - 1), Pair(st, n - 1, s));
  }

  lemma TurnIs(h: Host, st: Store, n: int, s: int, fuel: nat)
    requires Ready(st) && -TWO63 < s < TWO63
    ensures var w := Pair(st, n, s);
            Fits(JumpProg(), w) && Exec(JumpProg(), h, Turn(), w, fuel) == Done(Normal, Pair(st, n, -s))
  {
    hide FindLocal, FindCell, ReadName;
    var w := Pair(st, n, s);
    ReadPair(h, st, n, s, 2, fuel);
    assert EvalUnary(43, Int(s)) == Int(-s);
    assert Eval(JumpProg(), h, E(INTEGER, 0, Unary(43, Name(2))), w, fuel) == Done(Int(-s), w);
    assert Write(w, Local(1), Int(-s)) == Pair(st, n, -s);
    assert AssignTo(h, 36, Cell(Local(1)), Int(-s), w) == Done(Int(-s), Pair(st, n, -s));
  }

  /** The block that jumps leaves its block, with the locals there were. */
  lemma BackIs(h: Host, st: Store, n: int, s: int, fuel: nat)
    requires Ready(st) && -TWO63 < n <= TWO63 && -TWO63 <= s + n < TWO63
    ensures var w := Pair(st, n, s);
            Fits(JumpProg(), w) && Exec(JumpProg(), h, Back(), w, fuel) == Done(Jumping(3), Pair(st, n - 1, s + n))
  {
    hide Eval;
    var b := Back().kind.stmts;
    var w, w1, w2 := Pair(st, n, s), Pair(st, n, s + n), Pair(st, n - 1, s + n);
    GatherIs(h, st, n, s, fuel);
    LowerIs(h, st, n, s + n, fuel);
    assert FindLabel(b, 3) == -1;
    assert ExecSeq(JumpProg(), h, b, 2, w2, fuel) == Done(Jumping(3), w2);
    assert ExecSeq(JumpProg(), h, b, 1, w1, fuel) == Done(Jumping(3), w2);
    assert ExecSeq(JumpProg(), h, b, 0, w, fuel) == Done(Jumping(3), w2);
    assert w2.locals[..2] == w2.locals;
  }

  lemma ForkIs(h: Host, st: Store, n: int, s: int, fuel: nat)
    requires Ready(st) && -TWO63 < n <= TWO63 && -TWO63 <= s + n < TWO63 && -TWO63 < s < TWO63
    ensures Fits(JumpProg(), Pair(st, n, s))
    ensures Exec(JumpProg(), h, Fork(), Pair(st, n, s), fuel) ==
            if n > 0 then Done(Jumping(3), Pair(st, n - 1, s + n)) else Done(Normal, Pair(st, n, -s))
  {
    hide Eval, ExecSeq;
    MoreIs(h, st, n, s, fuel);
    if n > 0 { BackIs(h, st, n, s, fuel); } else { TurnIs(h, st, n, s, fuel); }
  }

  lemma LabelIsSecond()
    ensures FindLabel(Lines(), 3) == 1
  {
    assert !IsLabel(Lines()[0], 3) && IsLabel(Lines()[1], 3);
  }

  /** From the branch on, with s gathered so far: every jump back costs one unit of fuel, and
      with too little the run is cut off. */
  lemma {:induction false} FromFork(h: Host, st: Store, n: int, s: int, fuel: nat)
    requires Ready(st) && -TWO31 <= n < TWO31 && 0 <= s && s + Up(n) < TWO63
    ensures Fits(JumpProg(), Pair(st, n, s))
    ensures var r := ExecSeq(JumpProg(), h, Lines(), 2, Pair(st, n, s), fuel);
            if fuel < n then r == Halt
            else r == Done(Returned(Int(-(s + Up(n)))), Pair(st, if n > 0 then 0 else n, -(s + Up(n))))
    decreases fuel
  {
    hide Eval, Exec, FindLabel, ReadName;
    UpIs(n);
    ForkIs(h, st, n, s, fuel);
    LabelIsSecond();
    if n > 0 {
      if fuel > 0 { FromFork(h, st, n - 1, s + n, fuel - 1); }
    } else {
      ReturnIs(h, st, n, -s, fuel);
    }
  }

  lemma ReturnIs(h: Host, st: Store, n: int, s: int, fuel: nat)
    requires Ready(st)
    ensures Fits(JumpProg(), Pair(st, n, s))
    ensures ExecSeq(JumpProg(), h, Lines(), 3, Pair(st, n, s), fuel) == Done(Returned(Int(s)), Pair(st, n, s))
  {
    hide FindLocal, FindCell, ReadName, FindLabel;
    ReadPair(h, st, n, s, 2, fuel);
    assert Exec(JumpProg(), h, Lines()[3], Pair(st, n, s), fuel) == Done(Returned(Int(s)), Pair(st, n, s));
  }

  /** The sum of the numbers up to n, and nothing for those below 1. */
  function Up(n: int): (s: int)
    ensures s >= 0
  {
    if n > 0 then Gauss(n) else 0
  }

  lemma UpIs(n: int)
    ensures n > 0 ==> Up(n) == n + Up(n - 1) && Up(n) >= n
    ensures n <= 0 ==> Up(n) == 0
  {
    if n > 0 { GaussStep(n - 1); }
  }

  lemma UpBound(n: int)
    requires n < TWO31
    ensures Up(n) < TWO63
  {
    if n > 0 { Product(n, TWO31 - 1); }
  }

  /** The call gives minus the sum of the numbers up to n when there is fuel for its jumps, one
      for each, and is cut off otherwise. */
  lemma MinusIs(h: Host, st: Store, n: int, fuel: nat)
    requires Ready(st) && -TWO31 <= n < TWO31 && fuel > 0
    ensures Fits(JumpProg(), st)
    ensures Eval(JumpProg(), h, E(INTEGER, 0, CallExpr(0, [Number(n)])), st, fuel) ==
            if fuel - 1 < n then Halt else Done(Int(-Up(n)), st)
  {
    hide Exec, Up;
    BodyIs(h, st, n, fuel - 1);
    OneArgument(h, st, n, fuel);
  }

  lemma BodyIs(h: Host, st: Store, n: int, fuel: nat)
    requires Ready(st) && -TWO31 <= n < TWO31
    ensures Fits(JumpProg(), Called(st, n))
    ensures Exec(JumpProg(), h, S(1, Block(Lines())), Called(st, n), fuel) ==
            if fuel < n then Halt else Done(Returned(Int(-Up(n))), Called(st, if n > 0 then 0 else n))
  {
    hide Up, FindLabel, FindLocal;
    var s0, s1 := Called(st, n), Pair(st, n, 0);
    var b := Lines();
    UpBound(n);
    FromFork(h, st, n, 0, fuel);
    assert s0.locals + [Var(2, Int(0))] == s1.locals;
    assert Exec(JumpProg(), h, b[0], s0, fuel) == Done(Normal, s1);
    assert Exec(JumpProg(), h, b[1], s1, fuel) == Done(Normal, s1);
    FirstTwo(h, s0, s1, fuel);
    FirstLocal(st, n);
  }

  lemma FirstLocal(st: Store, n: int)
    ensures forall m, s :: Pair(st, m, s).(locals := Pair(st, m, s).locals[..1]) == Called(st, m)
  {
    forall m, s ensures Pair(st, m, s).(locals := Pair(st, m, s).locals[..1]) == Called(st, m) {
      assert Pair(st, m, s).locals[..1] == [Var(1, Int(m))];
    }
  }

  lemma FirstTwo(h: Host, s0: Store, s1: Store, fuel: nat)
    requires Fits(JumpProg(), s0) && Fits(JumpProg(), s1)
    requires Exec(JumpProg(), h, Lines()[0], s0, fuel) == Done(Normal, s1)
    requires Exec(JumpProg(), h, Lines()[1], s1, fuel) == Done(Normal, s1)
    ensures ExecSeq(JumpProg(), h, Lines(), 0, s0, fuel) == ExecSeq(JumpProg(), h, Lines(), 2, s1, fuel)
  {
    hide Exec, FindLabel;
    assert ExecSeq(JumpProg(), h, Lines(), 0, s0, fuel) == ExecSeq(JumpProg(), h, Lines(), 1, s1, fuel);
  }

  lemma OneArgument(h: Host, st: Store, n: int, fuel: nat)
    requires Ready(st)
    ensures Fits(JumpProg(), st)
    ensures BindFrom(JumpProg(), h, Minus().params, [Number(n)], 0, [], st, fuel) == Done([Var(1, Int(n))], st)
  {
    var vars := [Var(1, Int(n))];
    assert [] + vars == vars;
    assert BindFrom(JumpProg(), h, Minus().params, [Number(n)], 1, vars, st, fuel) == Done(vars, st);
  }
}
