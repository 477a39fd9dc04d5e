/** The programs of LoopProgram, DoProgram, JumpProgram and GcdProgram, run by the interpreter
    with its frames and flags. */
module WalkedPrograms {
  import opened MachineWords
  import opened Values
  import opened Ast
  import opened Semantics
  import opened Walker
  import LoopProgram
  import DoProgram
  import JumpProgram
  import GcdProgram

  function CallOf(args: seq<Expr>): Expr { E(INTEGER, 0, CallExpr(0, args)) }

  /** The interpreter finds greatest common divisors, */
  method WalkGcd(host: Host, a: nat, b: nat) returns (g: SValue)
    requires !host.strict && a < TWO63 && b < TWO63
    ensures g.Int? && g.i >= 0 && GcdProgram.IsGcd(g.i, a, b)
  {
    hide Eval, GcdProgram.GcdFn, GcdProgram.IsGcd;
    var m := new Machine(GcdProgram.GcdProg(), host, []);
    ghost var d := GcdProgram.GcdIs(host, m.Abs(), a, b, 1);
    var status;
    status, g := m.EvalExpr(CallOf([LoopProgram.Number(a), LoopProgram.Number(b)]), 1);
  }

  /** adds up the numbers to n, in a loop that stops after a million iterations, */
  method WalkSum(host: Host, n: int) returns (s: SValue)
    requires !host.strict
    ensures s == Int(LoopProgram.Gauss(if n < 0 then 0 else if n > 1_000_000 then 1_000_000 else n))
  {
    hide Eval, LoopProgram.Sum, LoopProgram.Gauss;
    var m := new Machine(LoopProgram.Program1(), host, []);
    LoopProgram.SumIs(host, m.Abs(), n, 1);
    var status;
    status, s := m.EvalExpr(CallOf([LoopProgram.Number(n)]), 1);
  }

  /** downward in a loop that tests behind its body, */
  method WalkDown(host: Host, n: nat) returns (s: SValue)
    requires !host.strict && 0 < n <= 1_000_000
    ensures s == Int(LoopProgram.Gauss(n))
  {
    hide Eval, DoProgram.Down, DoProgram.Descending, LoopProgram.Gauss, DoProgram.Times;
    var m := new Machine(DoProgram.DoProg(), host, []);
    DoProgram.DownIs(host, m.Abs(), n, 1);
    var status;
    status, s := m.EvalExpr(CallOf([LoopProgram.Number(n)]), 1);
  }

  /** and by jumping back n times. */
  method WalkMinus(host: Host, n: nat) returns (s: SValue)
    requires !host.strict && n < TWO31
    ensures s.Int? && s.i + LoopProgram.Gauss(n) == 0
  {
    hide Eval, JumpProgram.Minus, LoopProgram.Gauss;
    var m := new Machine(JumpProgram.JumpProg(), host, []);
    JumpProgram.MinusIs(host, m.Abs(), n, n + 1);
    DoProgram.GaussNothing();
    var status;
    status, s := m.EvalExpr(CallOf([LoopProgram.Number(n)]), n + 1);
  }
}
