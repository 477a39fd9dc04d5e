/** How statements leave each other: branches, returns, jumps, state changes and declarations,
    by the outcomes of their parts. */
module StatementLaws {
  import opened Values
  import opened Ast
  import opened Semantics
  import opened OperatorLaws

  // ----- branches and loops -----

  /** A branch goes by whether its condition has the initial value of its type. */
  lemma Branches(p: Program, h: Host, line: int, c: Expr, t: Stmt, e: Stmt, st: Store, fuel: nat)
    requires Fits(p, st) && Eval(p, h, c, st, fuel).Done?
    ensures var v := Eval(p, h, c, st, fuel);
            Exec(p, h, S(line, If(c, t, e)), st, fuel) == Exec(p, h, if IsDefault(v.v) then e else t, v.st, fuel)
  {
    hide Truthy, IsDefault;
    var v := Eval(p, h, c, st, fuel).v;
    Truth(v, v);
  }

  /** A `while` whose condition fails is over; otherwise its body runs, and every outcome of
      the body but the normal one leaves the loop. */
  lemma LoopTurns(p: Program, h: Host, s: Stmt, n: nat, st: Store, fuel: nat)
    requires s.S? && s.kind.While? && 0 < n <= LOOP_CAP && Fits(p, st)
    requires Eval(p, h, s.kind.cond, st, fuel).Done?
    ensures var c := Eval(p, h, s.kind.cond, st, fuel);
            var b := Exec(p, h, s.kind.body, c.st, fuel);
            var r := ExecLoop(p, h, s, n, st, fuel);
            && (IsDefault(c.v) ==> r.Done? && r.st == c.st && !r.v.Returned? && !r.v.Jumping?)
            && (!IsDefault(c.v) && b.Done? && !b.v.Normal? ==> r == b)
            && (!IsDefault(c.v) && b.Done? && b.v.Normal? ==> r == ExecLoop(p, h, s, n - 1, b.st, fuel))
  {
    hide Truthy, IsDefault, Exec, Eval;
    var v := Eval(p, h, s.kind.cond, st, fuel).v;
    Truth(v, v);
  }

  /** A `do` runs its body first, and is left in the same ways. */
  lemma DoTurns(p: Program, h: Host, s: Stmt, n: nat, st: Store, fuel: nat)
    requires s.S? && s.kind.Do? && 0 < n <= LOOP_CAP && Fits(p, st) && Exec(p, h, s.kind.body, st, fuel).Done?
    ensures var b := Exec(p, h, s.kind.body, st, fuel);
            var r := ExecDo(p, h, s, n, st, fuel);
            && (!b.v.Normal? ==> r == b)
            && (b.v.Normal? ==>
                  var c := Eval(p, h, s.kind.cond, b.st, fuel);
                  c.Done? ==>
                    if IsDefault(c.v) then r.Done? && r.st == c.st && !r.v.Returned? && !r.v.Jumping?
                    else r == ExecDo(p, h, s, n - 1, c.st, fuel))
  {
    hide Truthy, IsDefault, Exec, Eval;
    var b := Exec(p, h, s.kind.body, st, fuel);
    if b.v.Normal? {
      var c := Eval(p, h, s.kind.cond, b.st, fuel);
      if c.Done? { Truth(c.v, c.v); }
    }
  }

  /** The post expressions of a `for` run behind a body that completes, and only then. */
  lemma ForTurns(p: Program, h: Host, s: Stmt, n: nat, st: Store, fuel: nat)
    requires s.S? && s.kind.For? && 0 < n <= LOOP_CAP && Fits(p, st)
    requires Eval(p, h, s.kind.cond, st, fuel).Done?
    ensures var c := Eval(p, h, s.kind.cond, st, fuel);
            var goes := s.kind.cond.ENull? || !IsDefault(c.v);
            var b := Exec(p, h, s.kind.body, c.st, fuel);
            var r := ExecLoop(p, h, s, n, st, fuel);
            && (!goes ==> r.Done? && r.st == c.st && !r.v.Returned? && !r.v.Jumping?)
            && (goes && b.Done? && !b.v.Normal? ==> r == b)
            && (goes && b.Done? && b.v.Normal? ==>
                  var q := EvalFrom(p, h, s.kind.post, 0, [], b.st, fuel);
                  q.Done? ==> r == ExecLoop(p, h, s, n - 1, q.st, fuel))
  {
    hide Truthy, IsDefault, Exec, Eval, EvalFrom;
    var v := Eval(p, h, s.kind.cond, st, fuel).v;
    Truth(v, v);
  }

  // ----- leaving a block -----

  /** Behind a statement that completes the next one runs; a return and a switch leave the block
      at once. */
  lemma SequenceGoesOn(p: Program, h: Host, blk: seq<Stmt>, i: nat, st: Store, fuel: nat)
    requires Fits(p, st) && i < |blk| && Exec(p, h, blk[i], st, fuel).Done?
    ensures var b, r := Exec(p, h, blk[i], st, fuel), ExecSeq(p, h, blk, i, st, fuel);
            && (b.v.Normal? ==> r == ExecSeq(p, h, blk, i + 1, b.st, fuel))
            && (b.v.Returned? || b.v.Switching? ==> r == b)
  {
    hide Exec, FindLabel;
  }

  /** A jump goes on behind the label of the block, if it has one, at the cost of one unit of
      fuel when that lies behind; otherwise it leaves the block. */
  lemma JumpsGo(p: Program, h: Host, blk: seq<Stmt>, i: nat, st: Store, fuel: nat, k: nat)
    requires Fits(p, st) && i < |blk| && Exec(p, h, blk[i], st, fuel).Done?
    requires Exec(p, h, blk[i], st, fuel).v.Jumping? && k <= |blk|
    requires forall j :: 0 <= j < k ==> !IsLabel(blk[j], Exec(p, h, blk[i], st, fuel).v.target)
    ensures var b, r := Exec(p, h, blk[i], st, fuel), ExecSeq(p, h, blk, i, st, fuel);
            && (k == |blk| ==> r == b)
            && (i < k < |blk| && IsLabel(blk[k], b.v.target) ==> r == ExecSeq(p, h, blk, k + 1, b.st, fuel))
            && (k < i && IsLabel(blk[k], b.v.target) ==>
                  r == if fuel == 0 then Halt else ExecSeq(p, h, blk, k + 1, b.st, fuel - 1))
  {
    hide Exec;
  }

  // ----- the other statements -----

  /** `state` asks for the first state of the name; without one it asks for nothing. */
  lemma StateAsked(p: Program, h: Host, line: int, n: int, st: Store, fuel: nat, k: nat)
    requires Fits(p, st) && k <= |p.states|
    requires forall j :: 0 <= j < k ==> PoolStr(p, p.states[j].name) != PoolStr(p, n)
    ensures var r := Exec(p, h, S(line, StateChange(n)), st, fuel);
            && r.Done? && r.st == st.(pending := r.st.pending)
            && (k == |p.states| ==> r.st == st)
            && (k < |p.states| && PoolStr(p, p.states[k].name) == PoolStr(p, n) ==>
                  r.st.pending == k && r.v == Switching)
  {
  }

  /** A variable starts with the value given, converted to its type, or with the initial value of
      the type. */
  lemma Declares(p: Program, h: Host, line: int, ty: int, name: int, e: Expr, st: Store, fuel: nat)
    requires Fits(p, st) && Eval(p, h, e, st, fuel).Done? && INTEGER <= ty <= LIST
    ensures var v, r := Eval(p, h, e, st, fuel), Exec(p, h, S(line, Decl(ty, name, e)), st, fuel);
            && r.Done? && |r.st.locals| == |v.st.locals| + 1 && r.st == v.st.(locals := r.st.locals)
            && r.st.locals[..|v.st.locals|] == v.st.locals && r.st.locals[|v.st.locals|].name == name
            && var x := r.st.locals[|v.st.locals|].val;
               if v.v.Void? then Tag(x) == ty && IsDefault(x) else x == Coerce(v.v, ty)
  {
    hide Eval;
  }

  /** `return` with an expression returns its value, and without one nothing. */
  lemma Returns(p: Program, h: Host, line: int, has: int, e: Expr, st: Store, fuel: nat)
    requires Fits(p, st) && Eval(p, h, e, st, fuel).Done?
    ensures var v, r := Eval(p, h, e, st, fuel), Exec(p, h, S(line, Return(has, e)), st, fuel);
            if has != 0 then r == Done(Returned(v.v), v.st) else r == Done(Returned(Void), st)
  {
  }

  /** String literals are keys or strings by the type of their node. */
  lemma StringLiterals(p: Program, h: Host, ty: int, lv: int, i: int, st: Store, fuel: nat)
    requires Fits(p, st)
    ensures var r := Eval(p, h, E(ty, lv, StrLit(i)), st, fuel);
            && r.Done? && r.st == st && (if ty == 4 then r.v.Key? else r.v.Str?)
            && r.v.text == if 0 <= i < |p.strings| then p.strings[i] else ""
  {
  }

  /** Steps of what is no cell change nothing and give 0. */
  lemma StepNowhere(op: int, c: Loc, axis: int, st: Store)
    requires LocOk(st, c)
    ensures PrefixStep(op, NoCell, st) == Done(Int(0), st)
    ensures PostfixStep(op, NoCell, st) == PostfixStep(op, MemberCell(c, axis), st) == (Int(0), st)
  {
  }
}
