/** Draining the shards of an internal account: the debits of a transfer add up to its amount exactly. */
module WalletDrain {
  import opened Options
  import opened WalletTypes
  import opened WalletSpec

  lemma {:induction false} SideTotalConcat(accounts: map<AccountKey, Account>, a: seq<AccountKey>, b: seq<AccountKey>)
    ensures SideTotal(accounts, a + b) == SideTotal(accounts, a) + SideTotal(accounts, b)
  {
    if b == [] {
      assert a + b == a;
    } else {
      assert (a + b)[..|a + b| - 1] == a + b[..|b| - 1];
      SideTotalConcat(accounts, a, b[..|b| - 1]);
    }
  }

  lemma {:induction false} RotatedTotal(accounts: map<AccountKey, Account>, keys: seq<AccountKey>, start: nat)
    ensures SideTotal(accounts, Rotated(keys, start)) == SideTotal(accounts, keys)
  {
    if start <= |keys| {
      assert keys == keys[..start] + keys[start..];
      SideTotalConcat(accounts, keys[..start], keys[start..]);
      SideTotalConcat(accounts, keys[start..], keys[..start]);
    }
  }

  /** Whatever the shards cannot give is still missing, and nothing else is. */
  lemma {:induction false} MissingBound(accounts: map<AccountKey, Account>, order: seq<AccountKey>, amount: int)
    requires amount >= 0
    ensures 0 <= Missing(accounts, order, amount) <= amount
    ensures Missing(accounts, order, amount) != 0 ==>
              Missing(accounts, order, amount) <= amount - SideTotal(accounts, order)
  {
    if order != [] {
      MissingBound(accounts, order[..|order| - 1], amount);
    }
  }

  /** Once the side's total covers the amount, the drain finds all of it: the second balance check never fires. */
  lemma {:induction false} SecondGuardNeverFires(accounts: map<AccountKey, Account>, from: Side, c: Command, preferred: nat)
    requires c.Transfer? && c.amount >= 0 && from.keys != [] && !from.isUser
    ensures TransferShortfall(accounts, from, c, preferred) ==
            if SideTotal(accounts, from.keys) < c.amount then Some(InsufficientBalance) else None
    ensures SideTotal(accounts, from.keys) >= c.amount ==>
              Missing(accounts, Rotated(from.keys, preferred), c.amount) == 0
  {
    RotatedTotal(accounts, from.keys, preferred);
    MissingBound(accounts, Rotated(from.keys, preferred), c.amount);
  }

  function DebitSum(accounts: map<AccountKey, Account>, order: seq<AccountKey>, amount: int, ks: seq<AccountKey>): int {
    if ks == [] then 0
    else DebitSum(accounts, order, amount, ks[..|ks| - 1]) + DebitOf(accounts, order, amount, ks[|ks| - 1])
  }

  lemma {:induction false} DebitSumConcat(accounts: map<AccountKey, Account>, order: seq<AccountKey>, amount: int,
                                          a: seq<AccountKey>, b: seq<AccountKey>)
    ensures DebitSum(accounts, order, amount, a + b) ==
            DebitSum(accounts, order, amount, a) + DebitSum(accounts, order, amount, b)
  {
    if b == [] {
      assert a + b == a;
    } else {
      assert (a + b)[..|a + b| - 1] == a + b[..|b| - 1];
      DebitSumConcat(accounts, order, amount, a, b[..|b| - 1]);
    }
  }

  /** A longer draining order does not change what the earlier shards give. */
  lemma {:induction false} DebitOfPrefix(accounts: map<AccountKey, Account>, order: seq<AccountKey>, amount: int, n: nat,
                                         i: nat)
    requires i < n <= |order|
    requires forall x, y :: 0 <= x < y < |order| ==> order[x] != order[y]
    ensures DebitOf(accounts, order[..n], amount, order[i]) ==
            Take(AccountAt(accounts, order[i]).balance, Missing(accounts, order[..i], amount))
  {
    assert order[..n][..n - 1] == order[..n - 1];
    if i < n - 1 {
      DebitOfPrefix(accounts, order, amount, n - 1, i);
    }
  }

  lemma {:induction false} DrainedSum(accounts: map<AccountKey, Account>, order: seq<AccountKey>, amount: int, n: nat)
    requires n <= |order|
    requires forall x, y :: 0 <= x < y < |order| ==> order[x] != order[y]
    ensures DebitSum(accounts, order, amount, order[..n]) == amount - Missing(accounts, order[..n], amount)
  {
    if n > 0 {
      DrainedSum(accounts, order, amount, n - 1);
      assert order[..n][..n - 1] == order[..n - 1];
      assert order[..|order|] == order;
      DebitOfPrefix(accounts, order, amount, |order|, n - 1);
    }
  }

  /** The debits over all shards of a side are what was asked for, less what is missing. */
  lemma {:induction false} DebitsAddUp(accounts: map<AccountKey, Account>, keys: seq<AccountKey>, amount: int, start: nat)
    requires forall x, y :: 0 <= x < y < |keys| ==> keys[x] != keys[y]
    ensures DebitSum(accounts, Rotated(keys, start), amount, keys) ==
            amount - Missing(accounts, Rotated(keys, start), amount)
  {
    var order := Rotated(keys, start);
    assert order[..|order|] == order;
    DrainedSum(accounts, order, amount, |order|);
    if start <= |keys| {
      assert keys == keys[..start] + keys[start..];
      DebitSumConcat(accounts, order, amount, keys[..start], keys[start..]);
      DebitSumConcat(accounts, order, amount, keys[start..], keys[..start]);
    }
  }

  /** No shard gives more than it has: a transfer never drives a shard of its source below zero. */
  lemma {:induction false} DebitWithinBalance(accounts: map<AccountKey, Account>, order: seq<AccountKey>, amount: int,
                                              k: AccountKey)
    requires amount >= 0
    ensures 0 <= DebitOf(accounts, order, amount, k) <= Max(AccountAt(accounts, k).balance, 0)
  {
    if order != [] {
      MissingBound(accounts, order[..|order| - 1], amount);
      DebitWithinBalance(accounts, order[..|order| - 1], amount, k);
    }
  }

  lemma {:induction false} PostingTotalConcat(a: seq<PostingLeg>, b: seq<PostingLeg>)
    ensures PostingTotal(a + b) == PostingTotal(a) + PostingTotal(b)
  {
    if b == [] {
      assert a + b == a;
    } else {
      assert (a + b)[..|a + b| - 1] == a + b[..|b| - 1];
      PostingTotalConcat(a, b[..|b| - 1]);
    }
  }

  lemma {:induction false} TotalNext(legs: seq<PostingLeg>, n: nat)
    requires 0 < n <= |legs|
    ensures PostingTotal(legs[..n]) == PostingTotal(legs[..n - 1]) + legs[n - 1].amount
  {
    assert legs[..n][..n - 1] == legs[..n - 1];
  }

  lemma {:induction false} DebitSumNext(accounts: map<AccountKey, Account>, order: seq<AccountKey>, amount: int,
                                        ks: seq<AccountKey>, n: nat)
    requires 0 < n <= |ks|
    ensures DebitSum(accounts, order, amount, ks[..n]) ==
            DebitSum(accounts, order, amount, ks[..n - 1]) + DebitOf(accounts, order, amount, ks[n - 1])
  {
    assert ks[..n][..n - 1] == ks[..n - 1];
  }

  lemma {:induction false} DebitPrefixTotal(accounts: map<AccountKey, Account>, from: Side, amount: int, preferred: nat,
                                            n: nat)
    requires n <= |from.keys| && !from.isUser
    ensures PostingTotal(DebitLegs(accounts, from, amount, preferred)[..n]) ==
            -DebitSum(accounts, Rotated(from.keys, preferred), amount, from.keys[..n])
  {
    if n == 0 {
      assert DebitLegs(accounts, from, amount, preferred)[..0] == [] && from.keys[..0] == [];
    } else {
      hide DebitLegs, DebitOf, Rotated, PostingTotal, DebitSum;
      var d, order := DebitLegs(accounts, from, amount, preferred), Rotated(from.keys, preferred);
      TotalNext(d, n);
      DebitSumNext(accounts, order, amount, from.keys, n);
      assert d[n - 1].amount == -DebitOf(accounts, order, amount, from.keys[n - 1]);
      DebitPrefixTotal(accounts, from, amount, preferred, n - 1);
    }
  }

  /** The debit legs of a transfer that passed its guards carry exactly minus the amount. */
  lemma {:induction false} DebitLegsTotal(accounts: map<AccountKey, Account>, from: Side, c: Command, preferred: nat)
    requires c.Transfer? && c.amount >= 0 && from.keys != []
    requires from.isUser ==> |from.keys| == 1
    requires forall x, y :: 0 <= x < y < |from.keys| ==> from.keys[x] != from.keys[y]
    requires TransferShortfall(accounts, from, c, preferred).None?
    ensures PostingTotal(DebitLegs(accounts, from, c.amount, preferred)) == -c.amount
  {
    var d := DebitLegs(accounts, from, c.amount, preferred);
    if from.isUser {
      assert PostingTotal(d[..0]) == 0;
    } else {
      assert d[..|d|] == d && from.keys[..|from.keys|] == from.keys;
      DebitPrefixTotal(accounts, from, c.amount, preferred, |from.keys|);
      DebitsAddUp(accounts, from.keys, c.amount, preferred);
      SecondGuardNeverFires(accounts, from, c, preferred);
    }
  }

  lemma {:induction false} CreditPrefixTotal(to: Side, amount: int, preferred: nat, n: nat)
    requires n <= |to.keys|
    ensures PostingTotal(CreditLegs(to, amount, preferred)[..n]) ==
            if (if to.isUser then 0 else preferred) < n then amount else 0
  {
    if n > 0 {
      var d := CreditLegs(to, amount, preferred);
      assert d[..n][..n - 1] == d[..n - 1];
      CreditPrefixTotal(to, amount, preferred, n - 1);
    }
  }

  lemma {:induction false} CreditLegsTotal(to: Side, amount: int, preferred: nat)
    requires (if to.isUser then 0 else preferred) < |to.keys|
    ensures PostingTotal(CreditLegs(to, amount, preferred)) == amount
  {
    var d := CreditLegs(to, amount, preferred);
    assert d[..|d|] == d;
    CreditPrefixTotal(to, amount, preferred, |to.keys|);
  }
}
