/** Lookups and aggregates over the tables, as the queries of the wallet state them. */
module WalletTables {
  import opened Options
  import opened WalletTypes

  function FindTx(txs: seq<Transaction>, ref: Ref, kind: Kind): (r: Option<nat>)
    ensures r.Some? ==> r.value < |txs| && txs[r.value].ref == ref && txs[r.value].kind == kind
    ensures r.None? ==> forall i :: 0 <= i < |txs| ==> !(txs[i].ref == ref && txs[i].kind == kind)
  {
    if txs == [] then None
    else
      var last := |txs| - 1;
      if txs[last].ref == ref && txs[last].kind == kind then Some(last) else FindTx(txs[..last], ref, kind)
  }

  function FindHold(holds: seq<Hold>, ref: Ref): (r: Option<nat>)
    ensures r.Some? ==> r.value < |holds| && holds[r.value].ref == ref
    ensures r.None? ==> forall i :: 0 <= i < |holds| ==> holds[i].ref != ref
  {
    if holds == [] then None
    else
      var last := |holds| - 1;
      if holds[last].ref == ref then Some(last) else FindHold(holds[..last], ref)
  }

  function LegsOf(legs: seq<Leg>, tx: nat): seq<Leg> {
    if legs == [] then []
    else
      var last := |legs| - 1;
      LegsOf(legs[..last], tx) + if legs[last].tx == tx then [legs[last]] else []
  }

  /** `balance_after` of the last leg of an account, or zero when it has none. */
  function LastAfter(legs: seq<Leg>, k: AccountKey): int {
    if legs == [] then 0
    else
      var last := |legs| - 1;
      if legs[last].account == k then legs[last].after else LastAfter(legs[..last], k)
  }

  function LegSum(legs: seq<Leg>, k: AccountKey): int {
    if legs == [] then 0
    else
      var last := |legs| - 1;
      LegSum(legs[..last], k) + if legs[last].account == k then legs[last].amount else 0
  }

  function AmountSum(legs: seq<Leg>): int {
    if legs == [] then 0 else AmountSum(legs[..|legs| - 1]) + legs[|legs| - 1].amount
  }

  /** What one hold contributes to the in-flight total of account `k`. */
  function HeldOn(h: Hold, k: AccountKey): int {
    if h.status == Active && h.account == k then h.amount else 0
  }

  function ActiveSum(holds: seq<Hold>, k: AccountKey): int {
    if holds == [] then 0
    else ActiveSum(holds[..|holds| - 1], k) + HeldOn(holds[|holds| - 1], k)
  }

  lemma {:induction false} FindTxAppend(txs: seq<Transaction>, t: Transaction, ref: Ref, kind: Kind)
    ensures FindTx(txs + [t], ref, kind) ==
            if t.ref == ref && t.kind == kind then Some(|txs|) else FindTx(txs, ref, kind)
  {
    assert (txs + [t])[..|txs|] == txs;
  }

  lemma {:induction false} FindHoldAppend(holds: seq<Hold>, h: Hold, ref: Ref)
    ensures FindHold(holds + [h], ref) == if h.ref == ref then Some(|holds|) else FindHold(holds, ref)
  {
    assert (holds + [h])[..|holds|] == holds;
  }

  /** A rewritten row with the same business key is found where the old one was. */
  lemma {:induction false} FindHoldUpdate(holds: seq<Hold>, i: nat, h: Hold, ref: Ref)
    requires i < |holds| && h.ref == holds[i].ref
    ensures FindHold(holds[i := h], ref) == FindHold(holds, ref)
  {
    var last := |holds| - 1;
    if i < last {
      assert holds[i := h][..last] == holds[..last][i := h];
      FindHoldUpdate(holds[..last], i, h, ref);
    } else {
      assert holds[i := h][..last] == holds[..last];
    }
  }

  lemma {:induction false} LegsOfConcat(a: seq<Leg>, b: seq<Leg>, tx: nat)
    ensures LegsOf(a + b, tx) == LegsOf(a, tx) + LegsOf(b, tx)
  {
    if b == [] {
      assert a + b == a;
    } else {
      var last := |b| - 1;
      assert (a + b)[..|a + b| - 1] == a + b[..last];
      LegsOfConcat(a, b[..last], tx);
    }
  }

  lemma {:induction false} LegsOfAll(legs: seq<Leg>, tx: nat)
    requires forall i :: 0 <= i < |legs| ==> legs[i].tx == tx
    ensures LegsOf(legs, tx) == legs
  {
    if legs != [] {
      LegsOfAll(legs[..|legs| - 1], tx);
    }
  }

  lemma {:induction false} LegsOfNone(legs: seq<Leg>, tx: nat)
    requires forall i :: 0 <= i < |legs| ==> legs[i].tx != tx
    ensures LegsOf(legs, tx) == []
  {
    if legs != [] {
      LegsOfNone(legs[..|legs| - 1], tx);
    }
  }

  lemma {:induction false} LastAfterConcat(a: seq<Leg>, b: seq<Leg>, k: AccountKey)
    ensures (forall i :: 0 <= i < |b| ==> b[i].account != k) ==> LastAfter(a + b, k) == LastAfter(a, k)
  {
    if b == [] {
      assert a + b == a;
    } else {
      assert (a + b)[..|a + b| - 1] == a + b[..|b| - 1];
      LastAfterConcat(a, b[..|b| - 1], k);
    }
  }

  lemma {:induction false} LastAfterHit(legs: seq<Leg>, i: nat)
    requires i < |legs|
    requires forall j :: i < j < |legs| ==> legs[j].account != legs[i].account
    ensures LastAfter(legs, legs[i].account) == legs[i].after
  {
    if i < |legs| - 1 {
      LastAfterHit(legs[..|legs| - 1], i);
    }
  }

  lemma {:induction false} ActiveSumUpdate(holds: seq<Hold>, i: nat, h: Hold, k: AccountKey)
    requires i < |holds|
    ensures ActiveSum(holds[i := h], k) == ActiveSum(holds, k) - HeldOn(holds[i], k) + HeldOn(h, k)
  {
    var last := |holds| - 1;
    if i < last {
      assert holds[i := h][..last] == holds[..last][i := h];
      ActiveSumUpdate(holds[..last], i, h, k);
    } else {
      assert holds[i := h][..last] == holds[..last];
    }
  }

  lemma {:induction false} ActiveSumAppend(holds: seq<Hold>, h: Hold, k: AccountKey)
    ensures ActiveSum(holds + [h], k) == ActiveSum(holds, k) + HeldOn(h, k)
  {
    assert (holds + [h])[..|holds|] == holds;
  }

  /** Active holds are covered amounts: their sum is never negative and bounds each of them. */
  lemma {:induction false} ActiveSumBounds(holds: seq<Hold>, k: AccountKey, i: nat)
    requires forall j :: 0 <= j < |holds| ==> holds[j].amount > 0
    ensures ActiveSum(holds, k) >= 0
    ensures i < |holds| ==> ActiveSum(holds, k) >= HeldOn(holds[i], k)
  {
    if holds != [] {
      ActiveSumBounds(holds[..|holds| - 1], k, i);
      if i == |holds| - 1 {
        ActiveSumBounds(holds[..|holds| - 1], k, 0);
      }
    }
  }
}
