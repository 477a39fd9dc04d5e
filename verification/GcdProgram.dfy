/** Euclid's algorithm as a program with a `while` loop, followed to its end for all words that
    are not negative. */
module GcdProgram {
  import opened MachineWords
  import opened Values
  import opened Ast
  import opened Semantics
  import opened CellLaws
  import opened LoopProgram
  import BitLaws

  //  integer gcd(integer a, integer b) {
  //    while (b) { integer t = a % b; a = b; b = t; }
  //    return a;
  //  }

  function Rest(): Stmt { S(2, Decl(INTEGER, 3, E(INTEGER, 0, Binary(46, Name(1), Name(2))))) }
  function Shift(): Stmt { S(2, ExprStmt(E(INTEGER, 0, Assign(36, Name(1), Name(2))))) }
  function Keep(): Stmt { S(2, ExprStmt(E(INTEGER, 0, Assign(36, Name(2), Name(3))))) }
  function Round(): Stmt { S(2, Block([Rest(), Shift(), Keep()])) }
  function Until(): Stmt { S(2, While(Name(2), Round())) }
  function GcdBody(): Stmt { S(1, Block([Until(), S(3, Return(1, Name(1)))])) }
  function GcdFn(): FuncDecl { FuncDecl(0, 1, INTEGER, 1, [Param(INTEGER, 1), Param(INTEGER, 2)], GcdBody()) }
  function GcdProg(): Program { Program(0, ["gcd", "a", "b", "t"], [], [GcdFn()], []) }

  function Two(st: Store, a: int, b: int): Store { st.(locals := [Var(1, Int(a)), Var(2, Int(b))]) }

  function Three(st: Store, a: int, b: int, t: int): Store {
    st.(locals := [Var(1, Int(a)), Var(2, Int(b)), Var(3, Int(t))])
  }

  lemma ReadTwo(h: Host, st: Store, a: int, b: int, x: int, fuel: nat)
    requires Ready(st) && x in {1, 2}
    ensures var w := Two(st, a, b);
            Fits(GcdProg(), w) && Eval(GcdProg(), h, Name(x), w, fuel) == Done(w.locals[x - 1].val, w)
  {
    hide FindLocal, FindCell, ReadName;
    InnermostFirst(GcdProg(), h, x, Two(st, a, b), x - 1);
  }

  lemma ReadThree(h: Host, st: Store, a: int, b: int, t: int, x: int, fuel: nat)
    requires Ready(st) && x in {1, 2, 3}
    ensures var w := Three(st, a, b, t);
            && Fits(GcdProg(), w) && FindCell(GcdProg(), x, w) == Cell(Local(x - 1))
            && Eval(GcdProg(), h, Name(x), w, fuel) == Done(w.locals[x - 1].val, w)
  {
    hide FindLocal, FindCell, ReadName;
    InnermostFirst(GcdProg(), h, x, Three(st, a, b, t), x - 1);
  }

  lemma RestIs(h: Host, st: Store, a: nat, b: nat, fuel: nat)
    requires Ready(st) && a < TWO63 && 0 < b < TWO63
    ensures var w := Two(st, a, b);
            Fits(GcdProg(), w) && Exec(GcdProg(), h, Rest(), w, fuel) == Done(Normal, Three(st, a, b, a % b))
  {
    hide FindLocal, ReadName, EvalBinary;
    var w := Two(st, a, b);
    ReadTwo(h, st, a, b, 1, fuel);
    ReadTwo(h, st, a, b, 2, fuel);
    Remains(a, b);
    assert w.locals + [Var(3, Int(a % b))] == Three(st, a, b, a % b).locals;
  }

  lemma Remains(a: nat, b: nat)
    requires a < TWO63 && 0 < b < TWO63
    ensures EvalBinary(46, Int(a), Int(b)) == Int(a % b)
  {
    var q, m := a / b, a % b;
    assert a == q * b + m;
  }

  lemma ShiftIs(h: Host, st: Store, a: int, b: int, t: int, fuel: nat)
    requires Ready(st)
    ensures var w := Three(st, a, b, t);
            Fits(GcdProg(), w) && Exec(GcdProg(), h, Shift(), w, fuel) == Done(Normal, Three(st, b, b, t))
  {
    hide FindLocal, FindCell, ReadName;
    var w := Three(st, a, b, t);
    ReadThree(h, st, a, b, t, 1, fuel);
    ReadThree(h, st, a, b, t, 2, fuel);
    assert Write(w, Local(0), Int(b)) == Three(st, b, b, t);
    assert AssignTo(h, 36, Cell(Local(0)), Int(b), w) == Done(Int(b), Three(st, b, b, t));
  }

  lemma KeepIs(h: Host, st: Store, a: int, b: int, t: int, fuel: nat)
    requires Ready(st)
    ensures var w := Three(st, a, b, t);
            Fits(GcdProg(), w) && Exec(GcdProg(), h, Keep(), w, fuel) == Done(Normal, Three(st, a, t, t))
  {
    hide FindLocal, FindCell, ReadName;
    var w := Three(st, a, b, t);
    ReadThree(h, st, a, b, t, 2, fuel);
    ReadThree(h, st, a, b, t, 3, fuel);
    assert Write(w, Local(1), Int(t)) == Three(st, a, t, t);
    assert AssignTo(h, 36, Cell(Local(1)), Int(t), w) == Done(Int(t), Three(st, a, t, t));
  }

  /** The block takes its variable with it. */
  lemma RoundIs(h: Host, st: Store, a: nat, b: nat, fuel: nat)
    requires Ready(st) && a < TWO63 && 0 < b < TWO63
    ensures var w := Two(st, a, b);
            Fits(GcdProg(), w) && Exec(GcdProg(), h, Round(), w, fuel) == Done(Normal, Two(st, b, a % b))
  {
    hide Eval, FindLabel;
    var s := Round().kind.stmts;
    var t := a % b;
    var w3 := Three(st, b, t, t);
    RestIs(h, st, a, b, fuel);
    ShiftIs(h, st, a, b, t, fuel);
    KeepIs(h, st, b, b, t, fuel);
    assert ExecSeq(GcdProg(), h, s, 3, w3, fuel) == Done(Normal, w3);
    assert ExecSeq(GcdProg(), h, s, 2, Three(st, b, b, t), fuel) == Done(Normal, w3);
    assert ExecSeq(GcdProg(), h, s, 1, Three(st, a, b, t), fuel) == Done(Normal, w3);
    assert ExecSeq(GcdProg(), h, s, 0, Two(st, a, b), fuel) == Done(Normal, w3);
    assert w3.locals[..2] == Two(st, b, t).locals;
  }

  // ----- the algorithm -----

  function Euclid(a: nat, b: nat): (g: nat)
    decreases b
  {
    if b == 0 then a else Euclid(b, a % b)
  }

  function Rounds(a: nat, b: nat): nat
    decreases b
  {
    if b == 0 then 0 else 1 + Rounds(b, a % b)
  }

  /** Two rounds halve the smaller number, so a word is done in 126. */
  lemma {:induction false} RoundsBound(a: nat, b: nat, k: nat)
    requires b < Pow2(k)
    ensures Rounds(a, b) <= 2 * k
    decreases b
  {
    if b > 0 && a % b > 0 {
      var r := a % b;
      Halved(b, r);
      RoundsBound(r, b % r, k - 1);
    }
  }

  lemma Halved(b: nat, r: nat)
    requires 0 < r < b
    ensures 2 * (b % r) < b
  {
    var q, m := b / r, b % r;
    assert b == q * r + m && q >= 1;
    assert q * r >= r;
  }

  lemma {:induction false} UntilIs(h: Host, st: Store, a: nat, b: nat, n: nat, fuel: nat)
    requires Ready(st) && a < TWO63 && b < TWO63 && Rounds(a, b) <= n <= LOOP_CAP
    ensures Fits(GcdProg(), Two(st, a, b))
    ensures ExecLoop(GcdProg(), h, Until(), n, Two(st, a, b), fuel) == Done(Normal, Two(st, Euclid(a, b), 0))
    decreases b
  {
    hide Eval, Exec;
    ReadTwo(h, st, a, b, 2, fuel);
    if b > 0 {
      RoundIs(h, st, a, b, fuel);
      UntilIs(h, st, b, a % b, n - 1, fuel);
    }
  }

  ghost predicate Divides(d: nat, x: nat) { exists q: nat :: x == d * q }

  /** The greatest common divisor, which all common divisors divide. */
  ghost predicate IsGcd(g: nat, a: nat, b: nat) {
    Divides(g, a) && Divides(g, b) && forall d: nat :: Divides(d, a) && Divides(d, b) ==> Divides(d, g)
  }

  lemma {:induction false} EuclidIsGcd(a: nat, b: nat)
    ensures IsGcd(Euclid(a, b), a, b)
    decreases b
  {
    var g := Euclid(a, b);
    if b == 0 {
      assert a == a * 1 && 0 == g * 0;
    } else {
      EuclidIsGcd(b, a % b);
      DividesBack(g, a, b);
      forall d: nat | Divides(d, a) && Divides(d, b) ensures Divides(d, g) { DividesOn(d, a, b); }
    }
  }

  /** What divides the divisor and the remainder divides the dividend, */
  lemma DividesBack(d: nat, a: nat, b: nat)
    requires b > 0 && Divides(d, b) && Divides(d, a % b)
    ensures Divides(d, a)
  {
    var p: nat :| b == d * p;
    var q: nat :| a % b == d * q;
    var k := a / b;
    assert a == b * k + a % b;
    Collect(d, p, k, q);
    assert a == d * (p * k + q);
  }

  lemma Collect(d: nat, p: nat, k: nat, q: nat)
    ensures d * p * k + d * q == d * (p * k + q)
  {
  }

  /** and the other way round. */
  lemma DividesOn(d: nat, a: nat, b: nat)
    requires b > 0 && Divides(d, a) && Divides(d, b)
    ensures Divides(d, a % b)
  {
    var p: nat :| a == d * p;
    var q: nat :| b == d * q;
    var k := a / b;
    assert a % b == d * p - d * q * k;
    Difference(d, p, q, k);
    assert d > 0;
    NotNegative(d, p - q * k);
    assert a % b == d * (p - q * k);
  }

  lemma Difference(d: nat, p: nat, q: nat, k: nat)
    ensures d * p - d * q * k == d * (p - q * k)
  {
  }

  lemma NotNegative(d: nat, m: int)
    requires d > 0 && d * m >= 0
    ensures m >= 0
  {
  }

  // ----- the call -----

  lemma GcdBodyIs(h: Host, st: Store, a: nat, b: nat, fuel: nat)
    requires Ready(st) && a < TWO63 && b < TWO63
    ensures Fits(GcdProg(), Two(st, a, b))
    ensures Exec(GcdProg(), h, GcdBody(), Two(st, a, b), fuel) ==
            Done(Returned(Int(Euclid(a, b))), Two(st, Euclid(a, b), 0))
  {
    hide FindLocal, FindLabel, ReadName, ExecLoop, Pow2;
    var s := GcdBody().kind.stmts;
    var w, w1 := Two(st, a, b), Two(st, Euclid(a, b), 0);
    BitLaws.Powers();
    RoundsBound(a, b, 63);
    UntilIs(h, st, a, b, LOOP_CAP, fuel);
    assert Exec(GcdProg(), h, s[0], w, fuel) == Done(Normal, w1);
    ReadTwo(h, st, Euclid(a, b), 0, 1, fuel);
    assert Exec(GcdProg(), h, s[1], w1, fuel) == Done(Returned(Int(Euclid(a, b))), w1);
    assert ExecSeq(GcdProg(), h, s, 1, w1, fuel) == Done(Returned(Int(Euclid(a, b))), w1);
    assert ExecSeq(GcdProg(), h, s, 0, w, fuel) == Done(Returned(Int(Euclid(a, b))), w1);
    assert w1.locals[..2] == w1.locals;
  }

  /** The call gives the greatest common divisor of its arguments, for all words that are not
      negative, and leaves the store as it was. */
  lemma GcdIs(h: Host, st: Store, a: nat, b: nat, fuel: nat) returns (g: nat)
    requires Ready(st) && a < TWO63 && b < TWO63 && fuel > 0
    ensures IsGcd(g, a, b) && Fits(GcdProg(), st)
    ensures Eval(GcdProg(), h, E(INTEGER, 0, CallExpr(0, [Number(a), Number(b)])), st, fuel) == Done(Int(g), st)
  {
    hide Exec, Euclid, IsGcd;
    g := Euclid(a, b);
    EuclidIsGcd(a, b);
    GcdBodyIs(h, st, a, b, fuel - 1);
    TwoArguments(h, st, a, b, fuel);
  }

  lemma TwoArguments(h: Host, st: Store, a: int, b: int, fuel: nat)
    requires Ready(st)
    ensures Fits(GcdProg(), st)
    ensures BindFrom(GcdProg(), h, GcdFn().params, [Number(a), Number(b)], 0, [], st, fuel) ==
            Done(Two(st, a, b).locals, st)
  {
    var args := [Number(a), Number(b)];
    var one := [Var(1, Int(a))];
    assert [] + one == one && one + [Var(2, Int(b))] == Two(st, a, b).locals;
    assert BindFrom(GcdProg(), h, GcdFn().params, args, 2, Two(st, a, b).locals, st, fuel)
        == Done(Two(st, a, b).locals, st);
    assert BindFrom(GcdProg(), h, GcdFn().params, args, 1, one, st, fuel) == Done(Two(st, a, b).locals, st);
  }
}
