/** How one charge is shared between the sources that were reserved for it (packages/domain/src/billing). */
module Allocation {
  import opened Options
  import opened Sums

  /** Where a reserved amount comes from: a subscription, or the wallet of the user. */
  datatype Source = Plan(subscription: nat) | Payg

  datatype Part = Part(source: Source, amount: int)

  /** What a source is charged: within its reservation, and beyond it. */
  datatype Share = Share(consume: int, over: int)

  function Min(a: int, b: int): int {
    if a <= b then a else b
  }

  function Max(a: int, b: int): int {
    if a <= b then b else a
  }

  function AmountOf(): Part -> int {
    (p: Part) => p.amount
  }

  function CostOf(): Share -> int {
    (s: Share) => s.consume + s.over
  }

  /** What is still uncovered after all the parts have been drawn on in order. */
  function Left(parts: seq<Part>, actual: int): int {
    if parts == [] then actual
    else
      var left := Left(parts[..|parts| - 1], actual);
      left - Min(parts[|parts| - 1].amount, Max(left, 0))
  }

  function Takes(parts: seq<Part>, actual: int): (r: seq<Share>)
    ensures |r| == |parts|
  {
    if parts == [] then []
    else
      var last := |parts| - 1;
      Takes(parts[..last], actual) + [Share(Min(parts[last].amount, Max(Left(parts[..last], actual), 0)), 0)]
  }

  /** The source that pays what exceeds all reservations: the first wallet part, or else the last part. */
  function Fallback(parts: seq<Part>): (r: nat)
    requires parts != []
    ensures r < |parts|
  {
    if FirstPayg(parts) < |parts| then FirstPayg(parts) else |parts| - 1
  }

  function FirstPayg(parts: seq<Part>): (r: nat)
    ensures r <= |parts|
    ensures r < |parts| ==> parts[r].source == Payg
    ensures forall i :: 0 <= i < r ==> parts[i].source != Payg
  {
    if parts == [] then 0
    else
      var r := FirstPayg(parts[..|parts| - 1]);
      if r < |parts| - 1 || parts[|parts| - 1].source == Payg then r else |parts|
  }

  /** None is the error for a charge without any source. */
  function Allocate(parts: seq<Part>, actual: int): (r: Option<seq<Share>>)
    ensures r.Some? ==> |r.value| == |parts|
  {
    if parts == [] then if actual > 0 then None else Some([])
    else
      var left, takes := Left(parts, actual), Takes(parts, actual);
      if left > 0 then Some(takes[Fallback(parts) := takes[Fallback(parts)].(over := left)]) else Some(takes)
  }

  predicate Reserved(parts: seq<Part>) {
    forall i :: 0 <= i < |parts| ==> parts[i].amount >= 0
  }

  /** The amount that the parts before `i` leave to the part at `i`. */
  function Owed(parts: seq<Part>, i: nat, actual: int): int
    requires i <= |parts|
  {
    Max(0, actual - Sum(parts[..i], AmountOf()))
  }

  lemma {:induction false} LeftIs(parts: seq<Part>, actual: int)
    requires Reserved(parts)
    ensures Left(parts, actual) == if actual <= 0 then actual else Max(0, actual - Sum(parts, AmountOf()))
  {
    if parts != [] {
      LeftIs(parts[..|parts| - 1], actual);
      SumCovers(parts[..|parts| - 1], AmountOf());
    }
  }

  lemma {:induction false} TakeAt(parts: seq<Part>, actual: int, i: nat)
    requires Reserved(parts) && i < |parts|
    ensures Takes(parts, actual)[i] == Share(Min(parts[i].amount, Owed(parts, i, actual)), 0)
  {
    var last := |parts| - 1;
    if i == last {
      LeftIs(parts[..last], actual);
      SumCovers(parts[..last], AmountOf());
    } else {
      TakeAt(parts[..last], actual, i);
      assert parts[..last][..i] == parts[..i];
    }
  }

  lemma {:induction false} TakesSum(parts: seq<Part>, actual: int)
    ensures Sum(Takes(parts, actual), CostOf()) == actual - Left(parts, actual)
  {
    if parts != [] {
      var last := |parts| - 1;
      TakesSum(parts[..last], actual);
      SumPush(Takes(parts[..last], actual), Share(Min(parts[last].amount, Max(Left(parts[..last], actual), 0)), 0), CostOf());
    }
  }

  lemma {:induction false} SharesSum(parts: seq<Part>, actual: int)
    requires Reserved(parts) && parts != []
    ensures Sum(Allocate(parts, actual).value, CostOf()) == Max(actual, 0)
  {
    var takes, k, left := Takes(parts, actual), Fallback(parts), Left(parts, actual);
    LeftIs(parts, actual);
    TakesSum(parts, actual);
    TakeAt(parts, actual, k);
    SumCovers(parts, AmountOf());
    hide Takes, Left, Sum, Owed, Fallback;
    SumUpdate(takes, k, takes[k].(over := left), CostOf());
  }

  /** The shares are a waterfall: each source pays what the earlier ones could not cover, never more than it reserved;
      only the fallback pays beyond, and only when every reservation is used up; together they pay the charge exactly. */
  lemma {:induction false} AllocationIsWaterfall(parts: seq<Part>, actual: int)
    requires Reserved(parts)
    ensures Allocate(parts, actual).None? <==> parts == [] && actual > 0
    ensures Allocate(parts, actual).Some? ==> Sum(Allocate(parts, actual).value, CostOf()) == Max(actual, 0)
    ensures Allocate(parts, actual).Some? ==> forall i :: 0 <= i < |parts| ==>
              IsShare(parts, i, actual, Allocate(parts, actual).value[i])
  {
    hide Takes, Left, CostOf;
    if parts != [] {
      LeftIs(parts, actual);
      SharesSum(parts, actual);
      assert parts[..|parts|] == parts;
      SumCovers(parts, AmountOf());
      forall i | 0 <= i < |parts| ensures IsShare(parts, i, actual, Allocate(parts, actual).value[i]) {
        TakeAt(parts, actual, i);
      }
    }
  }

  predicate IsShare(parts: seq<Part>, i: nat, actual: int, s: Share)
    requires i < |parts|
  {
    && s.consume == Min(parts[i].amount, Owed(parts, i, actual)) && 0 <= s.consume <= parts[i].amount
    && s.over == if i == Fallback(parts) then Owed(parts, |parts|, actual) else 0
  }

  /** The rule as it is written, with its running remainder. */
  method AllocateSettlement(parts: seq<Part>, actual: int) returns (r: Option<seq<Share>>)
    ensures r == Allocate(parts, actual)
  {
    if |parts| == 0 {
      return if actual > 0 then None else Some([]);
    }
    var remaining, out := actual, [];
    for i := 0 to |parts|
      invariant remaining == Left(parts[..i], actual) && out == Takes(parts[..i], actual)
    {
      var take := Min(parts[i].amount, Max(remaining, 0));
      remaining := remaining - take;
      out := out + [Share(take, 0)];
      assert parts[..i + 1][..i] == parts[..i];
    }
    assert parts[..|parts|] == parts;
    if remaining > 0 {
      var k := 0;
      while k < |parts| && parts[k].source != Payg
        invariant k <= FirstPayg(parts)
      {
        k := k + 1;
      }
      if k == |parts| {
        k := |parts| - 1;
      }
      out := out[k := out[k].(over := remaining)];
    }
    return Some(out);
  }
}
