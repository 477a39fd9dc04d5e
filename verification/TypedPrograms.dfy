/** The type discipline on a program: Euclid's algorithm is well-typed, whatever built-ins there
    are. */
module TypedPrograms {
  import opened Values
  import opened Ast
  import opened Semantics
  import opened Scoping
  import opened Requests
  import opened Typing
  import opened CellLaws
  import opened LoopProgram
  import opened GcdProgram

  /** The environment of the function's body, and that of its block behind the declaration. */
  function Params(): Store { Store([], -1, [Var(1, Int(0)), Var(2, Int(0))], []) }
  function Within(): Store { Store([], -1, [Var(1, Int(0)), Var(2, Int(0)), Var(3, Int(0))], []) }

  lemma NameTyped(h: Host, sig: Sig, sh: Store, x: int)
    requires (sh == Params() && x in {1, 2}) || (sh == Within() && x in {1, 2, 3})
    ensures Fits(GcdProg(), sh) && TypeOf(GcdProg(), h, sig, sh, Name(x)) == INTEGER
    ensures Resolve(GcdProg(), Name(x), sh) == Cell(Local(x - 1)) && sh.locals[x - 1].val == Int(0)
  {
    hide FindLocal, FindCell, ReadName;
    InnermostFirst(GcdProg(), h, x, sh, x - 1);
  }

  lemma RestTyped(h: Host, sig: Sig)
    ensures Fits(GcdProg(), Params()) && SOk(GcdProg(), h, sig, Params(), Rest(), INTEGER)
  {
    hide FindLocal, FindCell, ReadName;
    NameTyped(h, sig, Params(), 1);
    NameTyped(h, sig, Params(), 2);
  }

  lemma CopyTyped(h: Host, sig: Sig, x: int, y: int)
    requires x in {1, 2, 3} && y in {1, 2, 3}
    ensures var s := S(2, ExprStmt(E(INTEGER, 0, Assign(36, Name(x), Name(y)))));
            Fits(GcdProg(), Within()) && SOk(GcdProg(), h, sig, Within(), s, INTEGER)
  {
    hide FindLocal, FindCell, ReadName;
    NameTyped(h, sig, Within(), x);
    NameTyped(h, sig, Within(), y);
  }

  /** Statements that do not jump keep every environment. */
  lemma NoJumps(sh: Store, stmts: seq<Stmt>)
    requires forall i, l :: 0 <= i < |stmts| ==> !MayJump(stmts[i], l)
    ensures JumpsKeepEnv(sh, stmts)
  {
  }

  lemma BlockStays(line: int, stmts: seq<Stmt>)
    requires forall i, l :: 0 <= i < |stmts| ==> !MayJump(stmts[i], l)
    ensures forall l :: !MayJump(S(line, Block(stmts)), l)
  {
    hide FindLabel;
  }

  lemma RoundTyped(h: Host, sig: Sig)
    ensures Fits(GcdProg(), Params()) && SOk(GcdProg(), h, sig, Params(), Round(), INTEGER)
    ensures forall l :: !MayJump(Round(), l)
  {
    hide TypeOf, JumpsKeepEnv;
    var b := Round().kind.stmts;
    RestTyped(h, sig);
    CopyTyped(h, sig, 1, 2);
    CopyTyped(h, sig, 2, 3);
    NoJumps(Params(), b);
    assert Params().locals + [Var(3, Int(0))] == Within().locals;
    assert EnvAt(Params(), b, 0) == Params();
    assert EnvAt(Params(), b, 1) == Within();
    assert EnvAt(Params(), b, 2) == Within();
    forall i | 0 <= i < |b| ensures SOk(GcdProg(), h, sig, EnvAt(Params(), b, i), b[i], INTEGER) {
      assert i == 0 || i == 1 || i == 2;
    }
  }

  lemma BodyTyped(h: Host, sig: Sig)
    ensures Fits(GcdProg(), Params()) && SOk(GcdProg(), h, sig, Params(), GcdBody(), INTEGER)
    ensures forall l :: !MayJump(GcdBody(), l)
  {
    hide TypeOf, JumpsKeepEnv, Round;
    var b := GcdBody().kind.stmts;
    RoundTyped(h, sig);
    NameTyped(h, sig, Params(), 1);
    NameTyped(h, sig, Params(), 2);
    NotDeclared();
    NoJumps(Params(), b);
    BlockStays(1, b);
    assert EnvAt(Params(), b, 0) == Params();
    assert EnvAt(Params(), b, 1) == Params();
    assert SOk(GcdProg(), h, sig, Params(), b[0], INTEGER);
    assert SOk(GcdProg(), h, sig, Params(), b[1], INTEGER);
    forall i | 0 <= i < |b| ensures SOk(GcdProg(), h, sig, EnvAt(Params(), b, i), b[i], INTEGER) {
      assert i == 0 || i == 1;
    }
  }

  lemma NotDeclared()
    ensures !IsDecl(Round())
  {
  }

  lemma FunctionTyped(h: Host, sig: Sig)
    ensures FnOk(GcdProg(), h, sig, GcdFn())
  {
    hide SOk, MayJump;
    BodyTyped(h, sig);
    assert ParamShape(GcdProg(), GcdFn().params).locals == Params().locals;
    assert GlobalShape(GcdProg()).globals == [];
  }

  lemma HandlesNothing()
    ensures HandlersOnly(GcdProg())
  {
  }

  /** So the program fulfils what the soundness of the discipline asks for. */
  lemma GcdIsTyped(h: Host, sig: Sig)
    requires forall calls: seq<Call> :: |calls| > 0 ==> Tag(h.builtin(calls)) == sig(calls[|calls| - 1].name)
    ensures ProgOk(GcdProg(), h, sig)
  {
    hide FnOk, HandlersOnly;
    FunctionTyped(h, sig);
    HandlesNothing();
  }
}
