/** Settling a request: what its sources are charged, and when a settlement fails. */
module FundingSettlement {
  import opened Options
  import opened Sums
  import opened Allocation
  import opened BillingRequests
  import opened BillingFencing
  import opened BillingRecovery
  import opened Funding
  import opened FundingBalance
  import opened FundingLaws

  // ---- the wallet can refuse, and do nothing else ----

  /** A refusal of the wallet rolls back; whatever goes through without it goes through with it in the same way. */
  lemma {:induction false} ReleaseWithoutWallet(f: Funds, found: seq<Found>)
    ensures ReleaseEach(f, found, false).Ok? ==> ReleaseEach(f, found, false) == ReleaseEach(f, found, true)
  {
    if found != [] {
      ReleaseWithoutWallet(f, found[..|found| - 1]);
    }
  }

  lemma {:induction false} SettleWithoutWallet(f: Funds, found: seq<Found>, shares: seq<Share>)
    requires |shares| == |found|
    ensures SettleEach(f, found, shares, false).Ok? ==> SettleEach(f, found, shares, false) == SettleEach(f, found, shares, true)
  {
    if found != [] {
      SettleWithoutWallet(f, found[..|found| - 1], shares[..|found| - 1]);
    }
  }

  // ---- what the log says of a settlement ----

  predicate DrawsOn(found: seq<Found>, sub: Option<nat>, n: nat) {
    forall i :: 0 <= i < |found| && found[i].part.source.Plan? ==>
      sub == Some(found[i].part.source.subscription) && found[i].part.source.subscription < n
  }

  /** All subscription parts of a request draw on its one subscription, so the log's figure is what it is charged. */
  lemma {:induction false} OnePlan(found: seq<Found>, shares: seq<Share>, sub: Option<nat>, n: nat, k: nat)
    requires |shares| == |found| && DrawsOn(found, sub, n) && Within(found, shares)
    ensures ChargedTo(found, shares, k) == if sub == Some(k) then PlanConsumed(found, shares) else 0
    ensures PlanConsumed(found, shares) >= 0
    ensures PlanConsumed(found, shares) > 0 ==> sub.Some? && sub.value < n
  {
    if found != [] {
      var last := |found| - 1;
      OnePlan(found[..last], shares[..last], sub, n, k);
    }
  }

  lemma {:induction false} FoundDraws(b: Books, q: nat)
    requires OwnersOk(b) && PartsOk(b.funds) && q < |b.bills|
    ensures DrawsOn(ActiveOf(b.funds.reservations, q), b.bills[q].subscription, |b.funds.subs|)
    ensures Reserved(PartsOf(ActiveOf(b.funds.reservations, q)))
  {
    var found := ActiveOf(b.funds.reservations, q);
    ActiveOfPicks(b.funds.reservations, q);
    forall n | 0 <= n < |found|
      ensures found[n].part.amount > 0
      ensures found[n].part.source.Plan? ==>
                b.bills[q].subscription == Some(found[n].part.source.subscription) &&
                found[n].part.source.subscription < |b.funds.subs|
    {
      PickAt(b.funds.reservations, found, n);
      var r := b.funds.reservations[found[n].id];
      assert OwnerOk(b, r) && IsActiveOf(r, q);
    }
  }

  lemma {:induction false} PickAt(reservations: seq<Reservation>, found: seq<Found>, n: nat)
    requires Picks(reservations, found) && n < |found|
    ensures found[n].id < |reservations| && reservations[found[n].id].part == found[n].part && Lists(found, found[n].id)
  {
    if n < |found| - 1 {
      PickAt(reservations, found[..|found| - 1], n);
    }
  }

  // ---- the first part of a settlement ----

  /** What a settlement needs beyond a valid claim, for a caller to check: the receipt is of the user and the channel of
      the request, an estimate is attributed, and a request that reserved nothing is charged nothing. */
  predicate Chargeable(b: Books, c: Command)
    requires c.Settle? && c.receipt.Some? && c.ticket.id < |b.requests.rows| && c.ticket.id < |b.bills|
  {
    var r, bill := c.receipt.value, b.bills[c.ticket.id];
    && r.user == bill.user && (r.estimated ==> r.attributed)
    && !Mismatch(b.requests.rows[c.ticket.id].channel, r.channel) && (bill.reserved > 0 || r.actual <= 0)
  }

  lemma {:induction false} NothingFoundIff(b: Books, q: nat)
    requires FundsOk(b.funds) && OwnersOk(b) && BillsOk(b) && q < |b.bills| && !Ended(b.requests.rows[q].status)
    ensures b.bills[q].reserved >= 0
    ensures ActiveOf(b.funds.reservations, q) == [] <==> b.bills[q].reserved == 0
  {
    var parts := PartsOf(ActiveOf(b.funds.reservations, q));
    ActiveOfSum(b.funds.reservations, q);
    FoundDraws(b, q);
    SumCovers(parts, AmountOf());
    if parts != [] {
      FirstIsPositive(b, q);
      assert AmountOf()(parts[0]) == parts[0].amount;
    }
  }

  lemma {:induction false} FirstIsPositive(b: Books, q: nat)
    requires FundsOk(b.funds) && ActiveOf(b.funds.reservations, q) != []
    ensures PartsOf(ActiveOf(b.funds.reservations, q))[0].amount > 0
  {
    ActiveOfPicks(b.funds.reservations, q);
    PickAt(b.funds.reservations, ActiveOf(b.funds.reservations, q), 0);
  }

  lemma {:induction false} SharesAreWithin(found: seq<Found>, actual: int)
    requires Reserved(PartsOf(found)) && Allocate(PartsOf(found), actual).Some?
    ensures Within(found, Allocate(PartsOf(found), actual).value)
  {
    AllocationIsWaterfall(PartsOf(found), actual);
    hide Allocate, Owed;
    forall n | 0 <= n < |found| ensures 0 <= Allocate(PartsOf(found), actual).value[n].consume <= found[n].part.amount {
      assert IsShare(PartsOf(found), n, actual, Allocate(PartsOf(found), actual).value[n]);
    }
  }

  /** What a settlement that goes through writes. */
  predicate Charges(b: Books, q: nat, g: Funds, log: UsageLog) {
    && FundsOk(g) && Marks(b.funds, g, ActiveOf(b.funds.reservations, q), Charged)
    && log.request == q && log.plan >= 0 && (log.subscription.Some? ==> log.subscription.value < |g.subs|)
    && |g.subs| == |b.funds.subs|
    && (forall k :: 0 <= k < |g.subs| ==> g.subs[k].used == b.funds.subs[k].used + UsedOn(k)(log))
  }

  lemma {:induction false} ChargeWorks(b: Books, c: Command)
    requires FundsOk(b.funds) && OwnersOk(b) && BillsOk(b) && LogsOk(b)
    requires c.Settle? && c.wallet && c.receipt.Some? && c.ticket.id < |b.bills| && b.requests.rows[c.ticket.id].status == Processing
    ensures ChargeStep(b, c).Ok? <==> Chargeable(b, c)
    ensures ChargeStep(b, c).Ok? ==> Charges(b, c.ticket.id, ChargeStep(b, c).value.0, ChargeStep(b, c).value.1)
  {
    hide ActiveOf, Picks, Sum, LogsOk;
    var q := c.ticket.id;
    var found := ActiveOf(b.funds.reservations, q);
    ActiveOfSum(b.funds.reservations, q);
    ActiveOfPicks(b.funds.reservations, q);
    FoundDraws(b, q);
    NothingFoundIff(b, q);
    NoLogYet(b, q);
    hide FundsOk, Marks, OwnersOk, BillsOk;
    assert FindActive(b, q, IN_FLIGHT_STATUSES) == found;
    assert Allocate(PartsOf(found), c.receipt.value.actual).None? <==> found == [] && c.receipt.value.actual > 0;
    if Allocate(PartsOf(found), c.receipt.value.actual).Some? {
      var shares := Allocate(PartsOf(found), c.receipt.value.actual).value;
      SharesAreWithin(found, c.receipt.value.actual);
      SettleEachWorks(b.funds, found, shares);
      forall k: nat ensures ChargedTo(found, shares, k) == if b.bills[q].subscription == Some(k) then PlanConsumed(found, shares) else 0 {
        OnePlan(found, shares, b.bills[q].subscription, |b.funds.subs|, k);
      }
      OnePlan(found, shares, b.bills[q].subscription, |b.funds.subs|, 0);
    }
  }

  lemma {:induction false} NoLogYet(b: Books, q: nat)
    requires LogsOk(b) && q < |b.requests.rows| && b.requests.rows[q].status != Settled
    ensures LogOf(b.logs, q).None?
  {
    var log := LogOf(b.logs, q);
    assert log.Some? ==> LogOk(b, b.logs[log.value]);
  }

  // ---- the whole settlement ----

  lemma {:induction false} FinalizingRow(k: Ticket, now: int, token: nat, i: nat, r: Row)
    requires Guard(Finalize(k, now), i, r)
    ensures EndsRow(r, Changed(Finalize(k, now), token, r)) && Changed(Finalize(k, now), token, r).status == Settled
  {
  }

  /** The books when request `q` is settled and its log is written. */
  function WithLog(b: Books, q: nat, s: Row, g: Funds, log: UsageLog): Books
    requires q < |b.requests.rows|
  {
    b.(requests := b.requests.(rows := b.requests.rows[q := s]), funds := g, logs := b.logs + [log])
  }

  lemma {:induction false} SettledLogOk(b: Books, q: nat, s: Row, g: Funds, log: UsageLog, i: nat)
    requires LogsOk(b) && q < |b.requests.rows| && EndsRow(b.requests.rows[q], s) && s.status == Settled
    requires log.request == q && log.plan >= 0 && (log.subscription.Some? ==> log.subscription.value < |g.subs|)
    requires |g.subs| == |b.funds.subs| && i <= |b.logs|
    ensures LogOk(WithLog(b, q, s, g, log), (b.logs + [log])[i])
  {
    if i < |b.logs| {
      assert LogOk(b, b.logs[i]);
    }
  }

  /** The new log is the only one of its request. */
  lemma {:induction false} LogsApart(b: Books, log: UsageLog)
    requires LogsOk(b) && log.request < |b.requests.rows| && b.requests.rows[log.request].status != Settled
    ensures forall i :: 0 <= i < |b.logs| ==> b.logs[i].request != log.request
  {
    NoLogYet(b, log.request);
  }

  lemma {:induction false} LogAdded(logs: seq<UsageLog>, log: UsageLog, p: nat)
    ensures LogOf(logs + [log], p) == if log.request == p then Some(|logs|) else LogOf(logs, p)
  {
    assert (logs + [log])[..|logs|] == logs;
  }

  lemma {:induction false} SettledLogs(b: Books, q: nat, s: Row, g: Funds, log: UsageLog)
    requires LogsOk(b) && q < |b.requests.rows| && EndsRow(b.requests.rows[q], s) && s.status == Settled
    requires Charges(b, q, g, log)
    ensures LogsOk(b.(requests := b.requests.(rows := b.requests.rows[q := s]), funds := g, logs := b.logs + [log]))
  {
    hide FundsOk, Marks, Sum, LogOf, LogOk;
    var e := WithLog(b, q, s, g, log);
    LogsApart(b, log);
    forall i | 0 <= i < |e.logs| ensures LogOk(e, e.logs[i]) {
      SettledLogOk(b, q, s, g, log, i);
    }
    forall p | 0 <= p < |e.requests.rows| && e.requests.rows[p].status == Settled ensures LogOf(e.logs, p).Some? {
      LogAdded(b.logs, log, p);
    }
    forall k | 0 <= k < |g.subs| ensures g.subs[k].used == Sum(e.logs, UsedOn(k)) {
      SumPush(b.logs, log, UsedOn(k));
    }
  }

  lemma {:induction false} DeductKeeps(rows: seq<Row>, channels: seq<Channel>, id: Option<nat>, cost: int)
    requires ChannelsOk(rows, channels)
    ensures ChannelsOk(rows, Deduct(channels, id, cost).0)
  {
    var after := Deduct(channels, id, cost).0;
    hide Sum;
    forall c | 0 <= c < |after| ensures after[c].reserved == Sum(rows, Exposure(c)) {
      assert after[c].reserved == channels[c].reserved;
    }
  }

  /** A settlement with a valid claim fails exactly when the receipt names another channel, when something is charged
      to a request that reserved nothing, or when the claim ran out before the final statement. No counter guard ever
      misses, also when the subscription has ended meanwhile. */
  lemma {:induction false} SettleFailsIff(b: Books, c: Command)
    requires Balanced(b) && c.Settle? && c.wallet && c.receipt.Some?
    requires c.ticket.id < |b.requests.rows| && Accepts(b.requests.rows[c.ticket.id], c.ticket, c.now)
    ensures SettleStep(b, c).1.Failed? <==>
            !Chargeable(b, c) || !Accepts(b.requests.rows[c.ticket.id], c.ticket, c.finishAt)
    ensures Balanced(SettleStep(b, c).0)
  {
    var q, a := c.ticket.id, Finalize(c.ticket, c.finishAt);
    var s := Changed(a, b.requests.nextToken, b.requests.rows[q]);
    ChargeWorks(b, c);
    FinalizeStep(b.requests, c.ticket, c.finishAt);
    StepKeepsGood(b.requests, a);
    ExposureOfLive(b, q);
    if Chargeable(b, c) && Accepts(b.requests.rows[q], c.ticket, c.finishAt) {
      FinalizingRow(c.ticket, c.finishAt, b.requests.nextToken, q, b.requests.rows[q]);
      AfterSettle(b, c, s);
    }
    hide Balanced, Step, Changed, ChargeStep, ReleaseExposure, Chargeable, Deduct;
  }

  lemma {:induction false} FinalizeStep(t: Table, k: Ticket, now: int)
    requires Good(t) && k.id < |t.rows|
    ensures Step(t, Finalize(k, now)) ==
            if Accepts(t.rows[k.id], k, now) then
              (t.(rows := t.rows[k.id := Changed(Finalize(k, now), t.nextToken, t.rows[k.id])]), Touched([k.id]))
            else (t, Touched([]))
  {
    OneRowStep(t, Finalize(k, now));
    hide Step;
    assert RowOk(t.rows[k.id]);
  }

  lemma {:induction false} ExposureOfLive(b: Books, q: nat)
    requires ChannelsOk(b.requests.rows, b.channels) && q < |b.requests.rows| && !Ended(b.requests.rows[q].status)
    ensures ReleaseExposure(b.channels, b.requests.rows[q].channel, b.requests.rows[q].channelReserved).Ok?
  {
    var r := b.requests.rows[q];
    ExposureComesBack(b.requests.rows, b.channels, q, r.(status := Settled));
  }

  lemma {:induction false} AfterSettle(b: Books, c: Command, s: Row)
    requires FundsOk(b.funds) && OwnersOk(b) && BillsOk(b) && LogsOk(b) && ChannelsOk(b.requests.rows, b.channels)
    requires c.Settle? && c.receipt.Some? && c.ticket.id < |b.requests.rows| && EndsRow(b.requests.rows[c.ticket.id], s) && s.status == Settled
    requires Accepts(b.requests.rows[c.ticket.id], c.ticket, c.now)
    requires ChargeStep(b, c).Ok? && Charges(b, c.ticket.id, ChargeStep(b, c).value.0, ChargeStep(b, c).value.1)
    requires Step(b.requests, Finalize(c.ticket, c.finishAt)) ==
             (b.requests.(rows := b.requests.rows[c.ticket.id := s]), Touched([c.ticket.id]))
    ensures var e := SettleStep(b, c).0;
            && SettleStep(b, c).1.SettledFor? && FundsOk(e.funds) && OwnersOk(e) && BillsOk(e) && LogsOk(e)
            && ChannelsOk(e.requests.rows, e.channels) && e.requests == Step(b.requests, Finalize(c.ticket, c.finishAt)).0
  {
    hide ChannelsOk, ChargeStep, Step, Deduct, ReleaseExposure, OwnersOk, LogsOk;
    var q := c.ticket.id;
    var g, log := ChargeStep(b, c).value.0, ChargeStep(b, c).value.1;
    var t := b.requests.(rows := b.requests.rows[q := s]);
    EndedOwners(b, q, s, g, Charged);
    SettledLogs(b, q, s, g, log);
    ExposureComesBack(b.requests.rows, b.channels, q, s);
    var back := ReleaseExposure(b.channels, s.channel, s.channelReserved).value;
    var paysFor := PaidChannel(c.receipt.value, s);
    DeductKeeps(t.rows, back, paysFor, c.receipt.value.cost);
    var e := b.(requests := t, funds := g, logs := b.logs + [log]);
    hide FundsOk, Accepts;
    assert OwnersOk(e) && BillsOk(e) by {
      LogsAside(b.(requests := t, funds := g), b.logs + [log]);
    }
    hide BillsOk;
    ChannelsAside(e, Deduct(back, paysFor, c.receipt.value.cost).0);
    assert SettleStep(b, c).0 == e.(channels := Deduct(back, paysFor, c.receipt.value.cost).0);
  }

  lemma {:induction false} LogsAside(e: Books, logs: seq<UsageLog>)
    requires OwnersOk(e) && BillsOk(e)
    ensures OwnersOk(e.(logs := logs)) && BillsOk(e.(logs := logs))
  {
    var v := e.(logs := logs);
    forall i | 0 <= i < |v.funds.reservations| ensures OwnerOk(v, v.funds.reservations[i]) {
      assert OwnerOk(e, e.funds.reservations[i]);
    }
  }
}
