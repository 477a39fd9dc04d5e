/** Linden-dollar transfers: llGiveMoney and llTransferLindenDollars of src/builtins.c, and
    the MONEY_FROM command of src/commands.c, over the avatar table of src/region.c. */
module Economy {
  import Values
  import BitLaws

  datatype Avatar = Avatar(uuid: string, balance: int)

  /** Events that a transfer sends to a script. */
  datatype Notice =
    | Money(who: string, amount: int)
    | TransactionResult(request: string, ok: bool, text: string)

  // ----- the table -----

  /** The index of an avatar, or -1. */
  function Index(avs: seq<Avatar>, uuid: string): (i: int)
    ensures -1 <= i < |avs| && (i >= 0 ==> avs[i].uuid == uuid)
    ensures i < 0 ==> forall k :: 0 <= k < |avs| ==> avs[k].uuid != uuid
  {
    if avs == [] then -1
    else if avs[|avs| - 1].uuid == uuid then |avs| - 1
    else Index(avs[..|avs| - 1], uuid)
  }

  predicate Unique(avs: seq<Avatar>) {
    forall i, j :: 0 <= i < j < |avs| ==> avs[i].uuid != avs[j].uuid
  }

  function Total(avs: seq<Avatar>): int {
    if avs == [] then 0 else Total(avs[..|avs| - 1]) + avs[|avs| - 1].balance
  }

  /** What an avatar has; one not in the table has nothing. */
  function Balance(avs: seq<Avatar>, uuid: string): int {
    var i := Index(avs, uuid);
    if i < 0 then 0 else avs[i].balance
  }

  /** The first avatar owns the object; without any, the environment names the owner. */
  function Owner(avs: seq<Avatar>, env: string): string { if avs == [] then env else avs[0].uuid }

  // ----- steps -----

  /** region_add_avatar: an avatar in the table has its balance overwritten. */
  function Added(avs: seq<Avatar>, uuid: string, balance: int): (seq<Avatar>, nat) {
    var i := Index(avs, uuid);
    if i >= 0 then (avs[i := Avatar(uuid, balance)], i) else (avs + [Avatar(uuid, balance)], |avs|)
  }

  /** The amount off one balance, and then onto another, which may be the same. */
  function Moved(avs: seq<Avatar>, from: nat, to: nat, amount: int): (r: seq<Avatar>)
    requires from < |avs| && to < |avs|
    ensures |r| == |avs|
  {
    var paid := avs[from := Avatar(avs[from].uuid, avs[from].balance - amount)];
    paid[to := Avatar(paid[to].uuid, paid[to].balance + amount)]
  }

  /** The table with both parties in it: the receiver is added first. */
  function WithParties(avs: seq<Avatar>, owner: string, dest: string): seq<Avatar> {
    var a1 := if Index(avs, dest) < 0 then Added(avs, dest, 0).0 else avs;
    if Index(avs, owner) < 0 then Added(a1, owner, 0).0 else a1
  }

  /** PERMISSION_DEBIT is bit 1. */
  predicate MayDebit(perms: int) { perms / 2 % 2 == 1 }

  /** llGiveMoney: the table after it, and whether the payment was made. */
  function Give(avs: seq<Avatar>, env: string, perms: int, dest: string, amount: int): (seq<Avatar>, bool)
    requires Unique(avs)
  {
    if !MayDebit(perms) then (avs, false)
    else
      var owner := Owner(avs, env);
      JoinKeeps(avs, owner, dest);
      var b := WithParties(avs, owner, dest);
      var oi, di := Index(b, owner), Index(b, dest);
      if b[oi].balance < amount then (b, false) else (Moved(b, oi, di, amount), true)
  }

  /** MONEY_FROM */
  function Pay(avs: seq<Avatar>, who: string, amount: int): (seq<Avatar>, bool) {
    var i := Index(avs, who);
    if i < 0 || avs[i].balance < amount then (avs, false) else (Moved(avs, i, 0, amount), true)
  }

  class Region {
    var avatars: seq<Avatar>
    const env: string
    var notices: seq<Notice>

    constructor (env: string)
      ensures avatars == [] && notices == [] && this.env == env
    {
      this.env, avatars, notices := env, [], [];
    }

    method Find(uuid: string) returns (i: int)
      requires Unique(avatars)
      ensures i == Index(avatars, uuid)
    {
      i := -1;
      for k := 0 to |avatars|
        invariant -1 <= i < k && (i >= 0 ==> avatars[i].uuid == uuid)
        invariant i < 0 ==> forall m :: 0 <= m < k ==> avatars[m].uuid != uuid
      {
        if avatars[k].uuid == uuid { i := k; }
      }
      IndexIs(avatars, uuid, i);
    }

    /** region_add_avatar */
    method AddAvatar(uuid: string, balance: int) returns (i: nat)
      requires Unique(avatars)
      modifies `avatars
      ensures (avatars, i) == Added(old(avatars), uuid, balance)
      ensures Unique(avatars) && i == Index(avatars, uuid)
    {
      AddedOk(avatars, uuid, balance);
      var at := Find(uuid);
      if at >= 0 {
        avatars := avatars[at := Avatar(uuid, balance)];
        return at;
      }
      avatars := avatars + [Avatar(uuid, balance)];
      i := |avatars| - 1;
    }

    /** The start of llGiveMoney: both parties looked up, and added when they are missing. */
    method Parties(owner: string, dest: string) returns (oi: nat, di: nat)
      requires Unique(avatars)
      modifies `avatars
      ensures avatars == WithParties(old(avatars), owner, dest)
      ensures oi == Index(avatars, owner) && di == Index(avatars, dest) && oi < |avatars| && di < |avatars|
    {
      hide Added, Index, Unique, Total, Balance;
      var o := Find(owner);
      var d := Find(dest);
      JoinKeeps(avatars, owner, dest);
      AddedKeeps(avatars, dest, owner);
      if d < 0 { d := AddAvatar(dest, 0); }
      AddedKeeps(avatars, owner, dest);
      if o < 0 { o := AddAvatar(owner, 0); }
      oi, di := o, d;
    }

    /** llGiveMoney, by a script with these permissions. */
    method GiveMoney(perms: int, dest: string, amount: int) returns (ok: bool)
      requires Unique(avatars)
      modifies `avatars
      ensures (avatars, ok) == Give(old(avatars), env, perms, dest, amount)
    {
      hide Added, Index, Unique, Total, Balance, WithParties;
      if !MayDebit(perms) { return false; }
      var owner := if |avatars| > 0 then avatars[0].uuid else env;
      var oi, di := Parties(owner, dest);
      if avatars[oi].balance < amount { return false; }
      avatars := avatars[oi := Avatar(avatars[oi].uuid, avatars[oi].balance - amount)];
      avatars := avatars[di := Avatar(avatars[di].uuid, avatars[di].balance + amount)];
      ok := true;
    }

    /** llTransferLindenDollars: the same, with a transaction_result event. */
    method Transfer(perms: int, dest: string, amount: int, request: string) returns (ok: bool)
      requires Unique(avatars)
      modifies `avatars, `notices
      ensures (avatars, ok) == Give(old(avatars), env, perms, dest, amount)
      ensures notices == old(notices) + [TransactionResult(request, ok, if ok then "" else "INSUFFICIENT_FUNDS")]
    {
      ok := GiveMoney(perms, dest, amount);
      notices := notices + [TransactionResult(request, ok, if ok then "" else "INSUFFICIENT_FUNDS")];
    }

    /** MONEY_FROM: an avatar in the table pays the owner; the first script hears of it. */
    method MoneyFrom(who: string, amount: int, scripts: nat) returns (ok: bool)
      requires Unique(avatars)
      modifies `avatars, `notices
      ensures (avatars, ok) == Pay(old(avatars), who, amount)
      ensures notices == old(notices) + (if ok && scripts > 0 then [Money(who, amount)] else [])
    {
      var i := Find(who);
      if i < 0 { return false; }
      if avatars[i].balance < amount { return false; }
      avatars := avatars[i := Avatar(avatars[i].uuid, avatars[i].balance - amount)];
      avatars := avatars[0 := Avatar(avatars[0].uuid, avatars[0].balance + amount)];
      if scripts > 0 { notices := notices + [Money(who, amount)]; }
      ok := true;
    }
  }

  /** One payment as its parties see it: the payer has the amount less, the receiver has it
      more, nobody else has more or less than before. */
  ghost predicate Settled(a: seq<Avatar>, b: seq<Avatar>, from: string, to: string, amount: int) {
    && Total(b) == Total(a)
    && |a| <= |b| && (forall i :: 0 <= i < |a| ==> b[i].uuid == a[i].uuid)
    && forall u :: Balance(b, u) ==
         Balance(a, u) - (if u == from then amount else 0) + (if u == to then amount else 0)
  }

  // ----- laws of the table -----

  lemma {:induction false} IndexIs(avs: seq<Avatar>, uuid: string, i: int)
    requires Unique(avs) && -1 <= i < |avs| && (i >= 0 ==> avs[i].uuid == uuid)
    requires i < 0 ==> forall k :: 0 <= k < |avs| ==> avs[k].uuid != uuid
    ensures Index(avs, uuid) == i
  {
    var j := Index(avs, uuid);
    assert i >= 0 && j >= 0 ==> avs[i].uuid == avs[j].uuid;
  }

  lemma {:induction false} TotalUpdate(avs: seq<Avatar>, i: nat, a: Avatar)
    requires i < |avs|
    ensures Total(avs[i := a]) == Total(avs) - avs[i].balance + a.balance
  {
    var n := |avs| - 1;
    if i == n {
      assert avs[i := a][..n] == avs[..n];
    } else {
      assert avs[i := a][..n] == avs[..n][i := a];
      TotalUpdate(avs[..n], i, a);
    }
  }

  lemma {:induction false} SettledNothing(avs: seq<Avatar>, from: string, to: string)
    ensures Settled(avs, avs, from, to, 0)
  {
  }

  /** Adding a newcomer with nothing changes no balance. */
  lemma {:induction false} NewcomerHasNothing(avs: seq<Avatar>, uuid: string)
    requires Unique(avs) && Index(avs, uuid) < 0
    ensures var b := avs + [Avatar(uuid, 0)];
            Unique(b) && Total(b) == Total(avs) && forall u :: Balance(b, u) == Balance(avs, u)
  {
    var b := avs + [Avatar(uuid, 0)];
    assert b[..|avs|] == avs;
  }

  /** Looking up again an avatar that was just added, or adding another, changes no balance. */
  lemma {:induction false} JoinOne(avs: seq<Avatar>, uuid: string)
    requires Unique(avs) && Balance(avs, uuid) == 0
    ensures var b := Added(avs, uuid, 0).0;
            && Unique(b) && Total(b) == Total(avs) && |avs| <= |b| && b[..|avs|] == avs && Index(b, uuid) >= 0
            && forall u :: Balance(b, u) == Balance(avs, u) && (Index(avs, u) >= 0 ==> Index(b, u) >= 0)
  {
    hide Total, Unique;
    var b := Added(avs, uuid, 0).0;
    if Index(avs, uuid) < 0 {
      NewcomerHasNothing(avs, uuid);
      assert b[..|avs|] == avs;
    } else {
      assert b == avs;
    }
  }

  lemma {:induction false} JoinKeeps(avs: seq<Avatar>, owner: string, dest: string)
    requires Unique(avs)
    ensures var b := WithParties(avs, owner, dest);
            && Unique(b) && Total(b) == Total(avs) && |avs| <= |b| && b[..|avs|] == avs
            && Index(b, owner) >= 0 && Index(b, dest) >= 0
            && (forall u :: Balance(b, u) == Balance(avs, u))
  {
    hide Total, Balance, Index, Unique, Added;
    StrangersHaveNothing(avs, dest);
    StrangersHaveNothing(avs, owner);
    if Index(avs, dest) < 0 { JoinOne(avs, dest); }
    var a1 := if Index(avs, dest) < 0 then Added(avs, dest, 0).0 else avs;
    if Index(avs, owner) < 0 {
      JoinOne(a1, owner);
      var b := Added(a1, owner, 0).0;
      assert b[..|avs|] == b[..|a1|][..|avs|];
    }
  }

  lemma {:induction false} StrangersHaveNothing(avs: seq<Avatar>, uuid: string)
    ensures Index(avs, uuid) < 0 ==> Balance(avs, uuid) == 0
  {
    hide Index;
  }

  lemma {:induction false} AddedOk(avs: seq<Avatar>, uuid: string, balance: int)
    requires Unique(avs)
    ensures var (b, i) := Added(avs, uuid, balance);
            Unique(b) && i == Index(b, uuid) && b[i].uuid == uuid
  {
    var (b, i) := Added(avs, uuid, balance);
    IndexIs(b, uuid, i);
  }

  /** Adding one avatar leaves the index of another. */
  lemma {:induction false} AddedKeeps(avs: seq<Avatar>, uuid: string, other: string)
    requires Unique(avs)
    ensures var b := Added(avs, uuid, 0).0;
            Index(avs, other) >= 0 ==> Index(b, other) == Index(avs, other)
  {
    hide Index;
    var b := Added(avs, uuid, 0).0;
    if Index(avs, other) >= 0 { IndexIs(b, other, Index(avs, other)); }
  }

  /** region_add_avatar: that avatar has the balance given, whatever it had before, and all others
      what they had. */
  lemma {:induction false} AddedHas(avs: seq<Avatar>, uuid: string, balance: int, u: string)
    requires Unique(avs)
    ensures var (b, i) := Added(avs, uuid, balance);
            && Balance(b, u) == (if u == uuid then balance else Balance(avs, u))
            && i < |b| && b[i] == Avatar(uuid, balance) && |b| <= |avs| + 1
            && forall k :: 0 <= k < |avs| && avs[k].uuid != uuid ==> k < |b| && b[k] == avs[k]
  {
    hide Index;
    var (b, i) := Added(avs, uuid, balance);
    AddedOk(avs, uuid, balance);
    if u != uuid { OtherIndex(avs, uuid, balance, u); }
  }

  lemma {:induction false} OtherIndex(avs: seq<Avatar>, uuid: string, balance: int, u: string)
    requires Unique(avs) && u != uuid
    ensures Index(Added(avs, uuid, balance).0, u) == Index(avs, u)
  {
    hide Index;
    AddedOk(avs, uuid, balance);
    IndexIs(Added(avs, uuid, balance).0, u, Index(avs, u));
  }

  /** The permission to debit is the bit that `perms & 2` leaves. */
  lemma {:induction false} DebitIsBit(perms: int)
    ensures Values.EvalBinary(Values.OP_AND, Values.Int(perms), Values.Int(2)) ==
            Values.Int(if MayDebit(perms) then 2 else 0)
  {
    hide Values.EvalBinary, BitLaws.Bit;
    BitLaws.BitByBit(Values.OP_AND, perms, 2);
    var d := Values.EvalBinary(Values.OP_AND, Values.Int(perms), Values.Int(2)).i;
    SecondBit(perms);
    forall i: nat | i < 64 ensures BitLaws.Bit(d, i) <==> BitLaws.Bit(if MayDebit(perms) then 2 else 0, i) {
      BitsOfTwo(i);
      BitLaws.NoBits(i);
    }
    BitLaws.WordBitsFix(d, if MayDebit(perms) then 2 else 0);
  }

  lemma SecondBit(x: int)
    ensures BitLaws.Bit(x, 1) <==> x / 2 % 2 == 1
  {
  }

  lemma {:induction false} BitsOfTwo(i: nat)
    ensures BitLaws.Bit(2, i) <==> i == 1
  {
    if i > 1 { BitLaws.NoBits(i - 2); }
  }

  /** The payer and the receiver of a payment that is made. */
  lemma {:induction false} MoveSettles(a: seq<Avatar>, b: seq<Avatar>, from: string, to: string, i: nat, j: nat,
                                       amount: int)
    requires Unique(b) && i < |b| && j < |b| && b[i].uuid == from && b[j].uuid == to
    requires Settled(a, b, from, to, 0)
    ensures Unique(Moved(b, i, j, amount)) && Settled(a, Moved(b, i, j, amount), from, to, amount)
  {
    hide Index, Total;
    var paid := b[i := Avatar(b[i].uuid, b[i].balance - amount)];
    var r := Moved(b, i, j, amount);
    TotalUpdate(b, i, Avatar(b[i].uuid, b[i].balance - amount));
    TotalUpdate(paid, j, Avatar(paid[j].uuid, paid[j].balance + amount));
    forall u
      ensures Balance(r, u) == Balance(b, u) - (if u == from then amount else 0) + (if u == to then amount else 0)
    {
      IndexIs(r, u, Index(b, u));
      IndexIs(b, from, i);
      IndexIs(b, to, j);
    }
  }

  /** llGiveMoney moves the amount from the owner to the receiver, when the script may debit
      and the owner has it, and nothing otherwise. */
  lemma {:induction false} GiveSettles(avs: seq<Avatar>, env: string, perms: int, dest: string, amount: int)
    requires Unique(avs)
    ensures var (b, ok) := Give(avs, env, perms, dest, amount);
            && Unique(b)
            && (ok <==> MayDebit(perms) && Balance(avs, Owner(avs, env)) >= amount)
            && Settled(avs, b, Owner(avs, env), dest, if ok then amount else 0)
  {
    hide Index, Total, WithParties;
    var owner := Owner(avs, env);
    SettledNothing(avs, owner, dest);
    JoinKeeps(avs, owner, dest);
    var b := WithParties(avs, owner, dest);
    assert forall i :: 0 <= i < |avs| ==> b[i] == b[..|avs|][i];
    assert Balance(b, owner) == Balance(avs, owner);
    if MayDebit(perms) && b[Index(b, owner)].balance >= amount {
      MoveSettles(avs, b, owner, dest, Index(b, owner), Index(b, dest), amount);
    }
  }

  /** While the table is empty, the first one to be given money, even in vain, becomes the
      owner of the object. */
  lemma {:induction false} FirstReceiverOwns(env: string, perms: int, dest: string, amount: int)
    requires MayDebit(perms)
    ensures var b := Give([], env, perms, dest, amount).0;
            Owner(b, env) == dest
  {
    hide Total, Balance, Index, WithParties;
    JoinKeeps([], env, dest);
    FirstAdded(env, dest);
  }

  /** A payment leaves the object with its owner, except exactly when it adds another first
      avatar to an empty table. */
  lemma {:induction false} OwnerStaysIff(avs: seq<Avatar>, env: string, perms: int, dest: string, amount: int)
    requires Unique(avs)
    ensures Owner(Give(avs, env, perms, dest, amount).0, env) == Owner(avs, env) <==>
            avs != [] || !MayDebit(perms) || dest == env
  {
    hide Give, Total, Balance, Index;
    GiveSettles(avs, env, perms, dest, amount);
    if avs == [] && MayDebit(perms) { FirstReceiverOwns(env, perms, dest, amount); }
    if !MayDebit(perms) { NoDebitNoChange(avs, env, perms, dest, amount); }
  }

  lemma {:induction false} NoDebitNoChange(avs: seq<Avatar>, env: string, perms: int, dest: string, amount: int)
    requires Unique(avs) && !MayDebit(perms)
    ensures Give(avs, env, perms, dest, amount) == (avs, false)
  {
  }

  lemma {:induction false} FirstAdded(env: string, dest: string)
    ensures var b := WithParties([], env, dest); |b| > 0 && b[0].uuid == dest
  {
    hide Index;
  }

  /** MONEY_FROM moves the amount from an avatar in the table that has it to the owner. */
  lemma {:induction false} PaySettles(avs: seq<Avatar>, env: string, who: string, amount: int)
    requires Unique(avs)
    ensures var (b, ok) := Pay(avs, who, amount);
            && Unique(b)
            && (ok <==> Index(avs, who) >= 0 && Balance(avs, who) >= amount)
            && Settled(avs, b, who, Owner(avs, env), if ok then amount else 0)
  {
    hide Index, Total;
    var owner := Owner(avs, env);
    SettledNothing(avs, who, owner);
    var i := Index(avs, who);
    if i >= 0 && avs[i].balance >= amount { MoveSettles(avs, avs, who, owner, i, 0, amount); }
  }

  /** Nobody who has something or nothing gets into debt, and nobody in debt deeper into it. */
  ghost predicate NoDeeper(a: seq<Avatar>, b: seq<Avatar>) {
    forall u :: Balance(b, u) >= if Balance(a, u) < 0 then Balance(a, u) else 0
  }

  lemma {:induction false} PayerCanPay(a: seq<Avatar>, b: seq<Avatar>, from: string, to: string, amount: int)
    requires Settled(a, b, from, to, amount) && 0 <= amount && (amount == 0 || Balance(a, from) >= amount)
    ensures NoDeeper(a, b)
  {
    hide Total, Balance;
  }

  // ----- runs -----

  datatype Op =
    | GiveOp(perms: int, dest: string, amount: int)      // llGiveMoney, llTransferLindenDollars
    | PayOp(who: string, amount: int)                    // MONEY_FROM

  function Did(avs: seq<Avatar>, env: string, op: Op): (seq<Avatar>, bool)
    requires Unique(avs)
  {
    match op
    case GiveOp(perms, dest, amount) => Give(avs, env, perms, dest, amount)
    case PayOp(who, amount) => Pay(avs, who, amount)
  }

  function Run(avs: seq<Avatar>, env: string, ops: seq<Op>): seq<Avatar>
    requires Unique(avs)
    decreases |ops|
  {
    if ops == [] then avs
    else
      DidKeeps(avs, env, ops[0]);
      Run(Did(avs, env, ops[0]).0, env, ops[1..])
  }

  lemma {:induction false} DidKeeps(avs: seq<Avatar>, env: string, op: Op)
    requires Unique(avs)
    ensures var b := Did(avs, env, op).0;
            && Unique(b) && Total(b) == Total(avs)
            && |avs| <= |b| && (forall i :: 0 <= i < |avs| ==> b[i].uuid == avs[i].uuid)
            && (op.amount >= 0 ==> NoDeeper(avs, b))
  {
    hide Give, Pay, Index, Total, Balance, Unique;
    match op
    case GiveOp(perms, dest, amount) =>
      GiveSettles(avs, env, perms, dest, amount);
      var (b, ok) := Give(avs, env, perms, dest, amount);
      if amount >= 0 { PayerCanPay(avs, b, Owner(avs, env), dest, if ok then amount else 0); }
    case PayOp(who, amount) =>
      PaySettles(avs, env, who, amount);
      var (b, ok) := Pay(avs, who, amount);
      if amount >= 0 { PayerCanPay(avs, b, who, Owner(avs, env), if ok then amount else 0); }
  }

  /** Over every run of transfers and payments, new receivers and self-payments included,
      the money in the table stays the same, avatars stay unique and in place; and when no
      amount is negative, no avatar gets into debt, or deeper into it, whatever the others
      have. */
  lemma {:induction false} RunConserves(avs: seq<Avatar>, env: string, ops: seq<Op>)
    requires Unique(avs)
    ensures var b := Run(avs, env, ops);
            && Unique(b) && Total(b) == Total(avs) && |avs| <= |b|
            && (forall i :: 0 <= i < |avs| ==> b[i].uuid == avs[i].uuid)
            && ((forall op :: op in ops ==> op.amount >= 0) ==> NoDeeper(avs, b))
    decreases |ops|
  {
    hide Total, Did, Balance;
    if ops != [] {
      DidKeeps(avs, env, ops[0]);
      RunConserves(Did(avs, env, ops[0]).0, env, ops[1..]);
    }
  }
}
