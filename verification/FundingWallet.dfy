/** What the wallet can stop: exactly the transactions that need it. */
module FundingWallet {
  import opened Sums
  import opened Allocation
  import opened BillingRequests
  import opened BillingFencing
  import opened BillingRecovery
  import opened Funding
  import opened FundingBalance
  import opened FundingLaws
  import opened FundingSettlement

  // ---- which rows need the wallet ----

  predicate UsesWallet(found: seq<Found>) {
    found != [] && (found[|found| - 1].part.source == Payg || UsesWallet(found[..|found| - 1]))
  }

  predicate IsPayg(r: Reservation, q: nat) {
    IsActiveOf(r, q) && r.part.source == Payg
  }

  /** The wallet holds a part of request `q`. */
  predicate PaygHeld(reservations: seq<Reservation>, q: nat) {
    exists i :: 0 <= i < |reservations| && IsPayg(reservations[i], q)
  }

  lemma {:induction false} UsesWalletIff(reservations: seq<Reservation>, q: nat)
    ensures UsesWallet(ActiveOf(reservations, q)) <==> PaygHeld(reservations, q)
  {
    if reservations != [] {
      var last := |reservations| - 1;
      var init, r := reservations[..last], reservations[last];
      var less, more := ActiveOf(init, q), ActiveOf(reservations, q);
      UsesWalletIff(init, q);
      if IsActiveOf(r, q) {
        assert more[..|less|] == less;
      } else {
        assert more == less;
      }
      hide UsesWallet, ActiveOf, IsPayg;
      PaygHeldLast(reservations, q);
    }
  }

  lemma {:induction false} PaygHeldLast(reservations: seq<Reservation>, q: nat)
    requires reservations != []
    ensures PaygHeld(reservations, q) <==>
            PaygHeld(reservations[..|reservations| - 1], q) || IsPayg(reservations[|reservations| - 1], q)
  {
    hide IsPayg;
    var init := reservations[..|reservations| - 1];
    if PaygHeld(init, q) {
      var i :| 0 <= i < |init| && IsPayg(init[i], q);
      assert IsPayg(reservations[i], q);
    }
    if PaygHeld(reservations, q) && !IsPayg(reservations[|reservations| - 1], q) {
      var i :| 0 <= i < |reservations| && IsPayg(reservations[i], q);
      assert IsPayg(init[i], q);
    }
  }

  // ---- releasing ----

  /** Without the wallet a release goes through exactly when no row needs it, and then in the same way. */
  lemma {:induction false} ReleaseNeedsWallet(f: Funds, found: seq<Found>)
    ensures if UsesWallet(found) then ReleaseEach(f, found, false).Err?
            else ReleaseEach(f, found, false) == ReleaseEach(f, found, true)
  {
    if found != [] {
      ReleaseNeedsWallet(f, found[..|found| - 1]);
    }
  }

  /** The first thing to go wrong is the wallet itself. */
  lemma {:induction false} OnlyTheWalletFails(f: Funds, found: seq<Found>)
    requires FundsOk(f) && Picks(f.reservations, found)
    ensures ReleaseEach(f, found, false).Err? ==> ReleaseEach(f, found, false).error == WalletRefused
  {
    if found != [] {
      var init, x := found[..|found| - 1], found[|found| - 1];
      OnlyTheWalletFails(f, init);
      ReleaseWithoutWallet(f, init);
      ReleaseEachWorks(f, init);
      var g := ReleaseEach(f, init, true).value;
      ReleaseOneWorks(g, x);
      hide FundsOk, Marks, Lists;
      assert x.part.source.Plan? ==> ReleaseOne(g, x, false) == ReleaseOne(g, x, true);
    }
  }

  /** A releasing statement that matched ends as the release of the rows it finds. */
  lemma {:induction false} EndByFound(b: Books, a: Action, wallet: bool)
    requires OneRow(a) && Step(b.requests, a).1 == Touched([TargetOf(a)])
    requires TargetOf(a) < |Step(b.requests, a).0.rows| && TargetOf(a) < |b.bills|
    ensures var found := FindActive(b.(requests := Step(b.requests, a).0), TargetOf(a), IN_FLIGHT_STATUSES + {Released});
            var r := ReleaseEach(b.funds, found, wallet);
            && (r.Err? ==> EndStep(b, a, wallet).1 == Failed(r.error))
            && (r == ReleaseEach(b.funds, found, true) ==> EndStep(b, a, wallet) == EndStep(b, a, true))
            && (EndStep(b, a, wallet).1 == Done || EndStep(b, a, wallet).1.Failed?)
  {
    hide Step, FindActive, ReleaseEach, Sum, ReleaseExposure;
  }

  lemma {:induction false} MatchedRow(t: Table, a: Action)
    requires OneRow(a) && Step(t, a).1 == Touched([TargetOf(a)])
    ensures TargetOf(a) < |Step(t, a).0.rows| == |t.rows|
  {
    OneRowStep(t, a);
    hide Step, Guard, Changed, RowOk;
    var none: seq<nat>, one: seq<nat> := [], [TargetOf(a)];
    assert |none| != |one|;
  }

  /** What a releasing statement answers. */
  lemma {:induction false} EndAnswers(b: Books, a: Action, wallet: bool)
    requires Balanced(b) && Releases(a)
    ensures var id := TargetOf(a);
            EndStep(b, a, wallet).1 ==
            if Step(b.requests, a).1 != Touched([id]) then NoMatch
            else if wallet || !PaygHeld(b.funds.reservations, id) then Done
            else Failed(WalletRefused)
  {
    hide Step, EndStep, FindActive, ActiveOf, UsesWallet, PaygHeld, ReleaseEach, Picks, Good, OwnersOk, ChannelsOk,
         LogsOk, FundsOk;
    var id := TargetOf(a);
    var (requests, answer) := Step(b.requests, a);
    ReleaseNeverFails(b, a);
    if answer == Touched([id]) {
      MatchedRow(b.requests, a);
      EndByFound(b, a, wallet);
      EndByFound(b, a, true);
      FoundIsActive(b, requests, a);
      var found := ActiveOf(b.funds.reservations, id);
      ActiveOfPicks(b.funds.reservations, id);
      UsesWalletIff(b.funds.reservations, id);
      ReleaseNeedsWallet(b.funds, found);
      OnlyTheWalletFails(b.funds, found);
    } else {
      EndUnmatched(b, a, wallet);
    }
  }

  lemma {:induction false} EndUnmatched(b: Books, a: Action, wallet: bool)
    requires OneRow(a) && Step(b.requests, a).1 != Touched([TargetOf(a)])
    ensures EndStep(b, a, wallet).1 == NoMatch
  {
    hide Step;
  }

  lemma {:induction false} FoundIsActive(b: Books, requests: Table, a: Action)
    requires Releases(a) && Step(b.requests, a).0 == requests && Step(b.requests, a).1 == Touched([TargetOf(a)])
    ensures var id := TargetOf(a);
            FindActive(b.(requests := requests), id, IN_FLIGHT_STATUSES + {Released}) == ActiveOf(b.funds.reservations, id)
  {
    OneRowStep(b.requests, a);
    hide Step, ActiveOf;
    var none: seq<nat>, one: seq<nat> := [], [TargetOf(a)];
    assert |none| != |one|;
    ReleasingRow(a, b.requests.nextToken, TargetOf(a), b.requests.rows[TargetOf(a)]);
  }

  lemma {:induction false} EndWithoutWallet(b: Books, a: Action)
    requires OneRow(a)
    ensures EndStep(b, a, false) == EndStep(b, a, true) || EndStep(b, a, false).0 == b
  {
    hide Step;
    var (requests, answer) := Step(b.requests, a);
    var id := TargetOf(a);
    if answer == Touched([id]) && id < |requests.rows| && id < |b.bills| {
      ReleaseWithoutWallet(b.funds, FindActive(b.(requests := requests), id, IN_FLIGHT_STATUSES + {Released}));
      hide ReleaseEach, FindActive, Sum, ReleaseExposure;
    }
  }

  lemma {:induction false} EndKeeps(b: Books, a: Action, wallet: bool)
    requires Balanced(b) && Releases(a)
    ensures Balanced(EndStep(b, a, wallet).0)
  {
    ReleaseNeverFails(b, a);
    EndWithoutWallet(b, a);
    hide Balanced, EndStep;
  }

  /** The same settlement with the consent of the wallet. */
  function Agreed(c: Command): Command
    requires c.Settle?
  {
    Settle(c.ticket, c.receipt, c.now, c.finishAt, true)
  }

  lemma {:induction false} SettleNoWallet(b: Books, c: Command)
    requires c.Settle? && !c.wallet
    ensures SettleStep(b, c) == SettleStep(b, Agreed(c)) || SettleStep(b, c).0 == b
  {
    hide Accepts, Step, SettleEach, FindActive, Sum, ReleaseExposure, Allocate, PlanConsumed, Deduct, LogOf;
    var q := c.ticket.id;
    if c.receipt.Some? && q < |b.requests.rows| && q < |b.bills| {
      var found := FindActive(b, q, IN_FLIGHT_STATUSES);
      var shares := Allocate(PartsOf(found), c.receipt.value.actual);
      if shares.Some? {
        SettleWithoutWallet(b.funds, found, shares.value);
      }
      assert ChargeStep(b, c).Ok? ==> ChargeStep(b, c) == ChargeStep(b, Agreed(c));
    }
  }

  lemma {:induction false} SettleKeeps(b: Books, c: Command)
    requires Balanced(b) && c.Settle?
    ensures Balanced(SettleStep(b, c).0)
  {
    var q, d := c.ticket.id, Agreed(c);
    if c.receipt.Some? && q < |b.requests.rows| && Accepts(b.requests.rows[q], c.ticket, c.now) {
      SettleFailsIff(b, d);
    }
    if !c.wallet {
      SettleNoWallet(b, c);
    }
    hide Balanced, ChargeStep, Step, ReleaseExposure, Deduct, Accepts;
    assert SettleStep(b, d).0 == b || (c.receipt.Some? && q < |b.requests.rows| && Accepts(b.requests.rows[q], c.ticket, c.now));
  }

  // ---- settling ----

  /** A share needs the wallet when its source is the wallet or when it is charged beyond its reservation. */
  predicate NeedsWallet(found: seq<Found>, shares: seq<Share>)
    requires |shares| == |found|
  {
    found != [] &&
    (found[|found| - 1].part.source == Payg || shares[|found| - 1].over > 0 ||
     NeedsWallet(found[..|found| - 1], shares[..|found| - 1]))
  }

  lemma {:induction false} SettleNeedsWallet(f: Funds, found: seq<Found>, shares: seq<Share>)
    requires |shares| == |found|
    ensures if NeedsWallet(found, shares) then SettleEach(f, found, shares, false).Err?
            else SettleEach(f, found, shares, false) == SettleEach(f, found, shares, true)
  {
    if found != [] {
      SettleNeedsWallet(f, found[..|found| - 1], shares[..|found| - 1]);
    }
  }

  predicate AnyOver(shares: seq<Share>) {
    exists i :: 0 <= i < |shares| && shares[i].over > 0
  }

  lemma {:induction false} NeedsWalletSplit(found: seq<Found>, shares: seq<Share>)
    requires |shares| == |found|
    ensures NeedsWallet(found, shares) <==> UsesWallet(found) || AnyOver(shares)
  {
    if found != [] {
      var last := |found| - 1;
      NeedsWalletSplit(found[..last], shares[..last]);
      if AnyOver(shares[..last]) {
        var i :| 0 <= i < last && shares[..last][i].over > 0;
        assert shares[i].over > 0;
      }
      if AnyOver(shares) && shares[last].over <= 0 {
        var i :| 0 <= i < |shares| && shares[i].over > 0;
        assert shares[..last][i].over > 0;
      }
    }
  }

  /** Some source is charged beyond its reservation exactly when the charge exceeds all reservations. */
  lemma {:induction false} OverIff(parts: seq<Part>, actual: int)
    requires Reserved(parts) && parts != []
    ensures AnyOver(Allocate(parts, actual).value) <==> actual > Sum(parts, AmountOf())
  {
    AllocationIsWaterfall(parts, actual);
    var r, k := Allocate(parts, actual).value, Fallback(parts);
    hide Allocate, Fallback;
    assert IsShare(parts, k, actual, r[k]);
    assert parts[..|parts|] == parts;
    forall i | 0 <= i < |r| && r[i].over > 0 ensures actual > Sum(parts, AmountOf()) {
      assert IsShare(parts, i, actual, r[i]);
    }
  }

  /** A settlement calls the wallet for the part it holds, and for what exceeds all that was reserved. */
  predicate CallsWallet(b: Books, c: Command)
    requires c.Settle? && c.receipt.Some? && c.ticket.id < |b.bills|
  {
    PaygHeld(b.funds.reservations, c.ticket.id) || c.receipt.value.actual > b.bills[c.ticket.id].reserved
  }

  lemma {:induction false} ChargeNeedsWallet(b: Books, c: Command)
    requires FundsOk(b.funds) && OwnersOk(b) && BillsOk(b) && LogsOk(b)
    requires c.Settle? && !c.wallet && c.receipt.Some? && c.ticket.id < |b.bills|
    requires b.requests.rows[c.ticket.id].status == Processing && Chargeable(b, c)
    ensures if CallsWallet(b, c) then ChargeStep(b, c).Err? else ChargeStep(b, c) == ChargeStep(b, Agreed(c))
  {
    var q, actual := c.ticket.id, c.receipt.value.actual;
    var found := ActiveOf(b.funds.reservations, q);
    ActiveOfSum(b.funds.reservations, q);
    FoundDraws(b, q);
    NothingFoundIff(b, q);
    UsesWalletIff(b.funds.reservations, q);
    hide FundsOk, OwnersOk, LogsOk, ActiveOf, Sum, PaygHeld;
    assert FindActive(b, q, IN_FLIGHT_STATUSES) == found;
    assert Allocate(PartsOf(found), actual).Some?;
    var shares := Allocate(PartsOf(found), actual).value;
    SettleNeedsWallet(b.funds, found, shares);
    NeedsWalletSplit(found, shares);
    if found != [] {
      assert PartsOf(found) != [];
      OverIff(PartsOf(found), actual);
    }
    hide Allocate, SettleEach, NeedsWallet, Reserved, PlanConsumed, LogOf, UsesWallet;
  }

  /** When a settlement with a valid claim fails, with or without the consent of the wallet. */
  lemma {:induction false} SettleAnswers(b: Books, c: Command)
    requires Balanced(b) && c.Settle?
    requires c.ticket.id < |b.requests.rows| && Accepts(b.requests.rows[c.ticket.id], c.ticket, c.now)
    ensures SettleStep(b, c).1.Failed? <==>
            c.receipt.None? || !Chargeable(b, c) || !Accepts(b.requests.rows[c.ticket.id], c.ticket, c.finishAt) ||
            (!c.wallet && CallsWallet(b, c))
  {
    if c.receipt.Some? {
      SettleFailsIff(b, Agreed(c));
      assert Chargeable(b, Agreed(c)) == Chargeable(b, c);
      if c.wallet {
        assert Agreed(c) == c;
      } else {
        SettleNoWallet(b, c);
        if Chargeable(b, c) {
          ChargeNeedsWallet(b, c);
        }
      }
      hide Balanced, ChargeStep, Step, ReleaseExposure, Deduct, Accepts, Chargeable, CallsWallet;
    }
  }
}
