/** Every counter agrees with the rows it counts, after every run of every command. */
module FundingBalance {
  import opened Options
  import opened Sums
  import opened Allocation
  import opened BillingRequests
  import opened BillingFencing
  import opened Funding

  /** What a reservation row holds on subscription `k`. */
  function HeldOn(k: nat): Reservation -> int {
    (r: Reservation) => if r.holding == Active && r.part.source == Plan(k) then r.part.amount else 0
  }

  /** What a reservation row holds for request `q`. */
  function HeldBy(q: nat): Reservation -> int {
    (r: Reservation) => if r.holding == Active && r.request == q then r.part.amount else 0
  }

  /** What a request that has not ended holds on channel `c`. */
  function Exposure(c: nat): Row -> int {
    (r: Row) => if !Ended(r.status) && r.channel == Some(c) && r.channelReserved.Some? then r.channelReserved.value else 0
  }

  function UsedOn(k: nat): UsageLog -> int {
    (l: UsageLog) => if l.subscription == Some(k) then l.plan else 0
  }

  /** The quota of a subscription covers what is used and what is reserved, and `reserved` counts its active rows. */
  predicate SubOk(f: Funds, k: nat)
    requires k < |f.subs|
  {
    && f.subs[k].reserved == Sum(f.reservations, HeldOn(k))
    && f.subs[k].used >= 0
    && f.subs[k].used + f.subs[k].reserved <= f.subs[k].quota
  }

  predicate PartsOk(f: Funds) {
    forall i :: 0 <= i < |f.reservations| ==>
      f.reservations[i].part.amount > 0 &&
      (f.reservations[i].part.source.Plan? ==> f.reservations[i].part.source.subscription < |f.subs|)
  }

  predicate FundsOk(f: Funds) {
    PartsOk(f) && forall k :: 0 <= k < |f.subs| ==> SubOk(f, k)
  }

  /** A reservation row belongs to a request, is active only while that request has not ended, and draws on the
      subscription of that request. */
  predicate OwnerOk(b: Books, r: Reservation) {
    && r.request < |b.requests.rows| && r.request < |b.bills|
    && (r.holding == Active ==> !Ended(b.requests.rows[r.request].status))
    && (r.part.source.Plan? ==> b.bills[r.request].subscription == Some(r.part.source.subscription))
  }

  predicate OwnersOk(b: Books) {
    forall i :: 0 <= i < |b.funds.reservations| ==> OwnerOk(b, b.funds.reservations[i])
  }

  predicate BillsOk(b: Books) {
    && |b.bills| == |b.requests.rows|
    && forall q :: 0 <= q < |b.bills| && !Ended(b.requests.rows[q].status) ==>
         b.bills[q].reserved == Sum(b.funds.reservations, HeldBy(q))
  }

  predicate ExposureOk(r: Row, channels: nat) {
    r.channel.Some? && r.channelReserved.Some? ==> r.channel.value < channels && r.channelReserved.value >= 0
  }

  predicate ChannelsOk(rows: seq<Row>, channels: seq<Channel>) {
    && (forall c :: 0 <= c < |channels| ==> channels[c].reserved == Sum(rows, Exposure(c)))
    && (forall j :: 0 <= j < |rows| ==> ExposureOk(rows[j], |channels|))
  }

  predicate LogOk(b: Books, l: UsageLog) {
    && l.request < |b.requests.rows| && b.requests.rows[l.request].status == Settled && l.plan >= 0
    && (l.subscription.Some? ==> l.subscription.value < |b.funds.subs|)
  }

  /** One usage log per settled request, and what a subscription has used is what the logs charge to it. */
  predicate LogsOk(b: Books) {
    && (forall i :: 0 <= i < |b.logs| ==> LogOk(b, b.logs[i]))
    && (forall i, j :: 0 <= i < j < |b.logs| ==> b.logs[i].request != b.logs[j].request)
    && (forall q :: 0 <= q < |b.requests.rows| && b.requests.rows[q].status == Settled ==> LogOf(b.logs, q).Some?)
    && (forall k :: 0 <= k < |b.funds.subs| ==> b.funds.subs[k].used == Sum(b.logs, UsedOn(k)))
  }

  predicate Balanced(b: Books) {
    Good(b.requests) && FundsOk(b.funds) && OwnersOk(b) && BillsOk(b) && ChannelsOk(b.requests.rows, b.channels) && LogsOk(b)
  }

  // ---- finding the rows of a request ----

  predicate Lists(found: seq<Found>, i: nat) {
    found != [] && (found[|found| - 1].id == i || Lists(found[..|found| - 1], i))
  }

  /** `found` names active rows, each once, with the parts that are in the table. */
  predicate Picks(reservations: seq<Reservation>, found: seq<Found>) {
    found == [] ||
    var init, x := found[..|found| - 1], found[|found| - 1];
    Picks(reservations, init) && !Lists(init, x.id) && x.id < |reservations| && reservations[x.id].holding == Active &&
    reservations[x.id].part == x.part
  }

  lemma {:induction false} PicksLater(reservations: seq<Reservation>, r: Reservation, found: seq<Found>)
    requires Picks(reservations, found)
    ensures Picks(reservations + [r], found) && !Lists(found, |reservations|)
  {
    if found != [] {
      PicksLater(reservations, r, found[..|found| - 1]);
    }
  }

  predicate IsActiveOf(r: Reservation, q: nat) {
    r.holding == Active && r.request == q
  }

  lemma {:induction false} ListsPush(found: seq<Found>, x: Found, i: nat)
    ensures Lists(found + [x], i) <==> x.id == i || Lists(found, i)
  {
    assert (found + [x])[..|found|] == found;
  }

  lemma {:induction false} PicksPush(reservations: seq<Reservation>, found: seq<Found>, x: Found)
    requires Picks(reservations, found) && !Lists(found, x.id) && x.id < |reservations|
    requires reservations[x.id].holding == Active && reservations[x.id].part == x.part
    ensures Picks(reservations, found + [x])
  {
    hide Lists;
    assert (found + [x])[..|found|] == found;
  }

  lemma {:induction false} ActiveOfPicks(reservations: seq<Reservation>, q: nat)
    ensures Picks(reservations, ActiveOf(reservations, q))
    ensures forall i :: 0 <= i < |reservations| ==> (Lists(ActiveOf(reservations, q), i) <==> IsActiveOf(reservations[i], q))
  {
    if reservations != [] {
      hide Lists, Picks;
      var last := |reservations| - 1;
      var init, r := reservations[..last], reservations[last];
      var less := ActiveOf(init, q);
      ActiveOfPicks(init, q);
      PicksLater(init, r, less);
      assert reservations == init + [r];
      if IsActiveOf(r, q) {
        PicksPush(reservations, less, Found(last, r.part));
        forall i | 0 <= i < |reservations| ensures Lists(ActiveOf(reservations, q), i) <==> IsActiveOf(reservations[i], q) {
          ListsPush(less, Found(last, r.part), i);
        }
      } else {
        assert ActiveOf(reservations, q) == less + [] == less;
      }
    }
  }

  /** What is found for a request adds up to what its rows hold. */
  lemma {:induction false} ActiveOfSum(reservations: seq<Reservation>, q: nat)
    ensures Sum(PartsOf(ActiveOf(reservations, q)), AmountOf()) == Sum(reservations, HeldBy(q))
  {
    if reservations != [] {
      var last := |reservations| - 1;
      var less, more := ActiveOf(reservations[..last], q), ActiveOf(reservations, q);
      ActiveOfSum(reservations[..last], q);
      if IsActiveOf(reservations[last], q) {
        assert PartsOf(more) == PartsOf(less) + [reservations[last].part];
        SumPush(PartsOf(less), reservations[last].part, AmountOf());
      } else {
        assert more == less;
      }
    }
  }

  // ---- releasing and charging one row ----

  lemma {:induction false} HeldIsCounted(f: Funds, i: nat, k: nat)
    requires FundsOk(f) && i < |f.reservations| && k < |f.subs|
    ensures 0 <= HeldOn(k)(f.reservations[i]) <= f.subs[k].reserved
  {
    assert SubOk(f, k);
    SumCovers(f.reservations, HeldOn(k));
  }

  /** A guard on an active row of a balanced table always passes: the release guard outright, the settlement guard
      exactly when the charge exceeds the reservation by no more than the subscription has left. */
  lemma {:induction false} GuardsPassIff(f: Funds, i: nat, consumed: int)
    requires FundsOk(f) && i < |f.reservations|
    requires f.reservations[i].holding == Active && f.reservations[i].part.source.Plan?
    ensures var p := f.reservations[i].part;
            var s := f.subs[p.source.subscription];
            && TryReleaseQuota(f.subs, p.source.subscription, p.amount).Some?
            && (TrySettleQuota(f.subs, p.source.subscription, p.amount, consumed).Some? <==>
                consumed <= p.amount + (s.quota - s.used - s.reserved))
  {
    var p := f.reservations[i].part;
    var k := p.source.subscription;
    HeldIsCounted(f, i, k);
    assert HeldOn(k)(f.reservations[i]) == p.amount;
  }

  /** The row at `id` stops holding: its subscription gives the amount back, `used` moves by `consumed`. */
  lemma {:induction false} StopHolding(f: Funds, id: nat, to: Holding, k: nat, consumed: int)
    requires FundsOk(f) && id < |f.reservations| && f.reservations[id].holding == Active && to != Active
    requires f.reservations[id].part.source == Plan(k) && 0 <= consumed <= f.reservations[id].part.amount
    ensures k < |f.subs|
    ensures var s := f.subs[k];
            var p := f.reservations[id].part;
            FundsOk(Funds(f.subs[k := s.(reserved := s.reserved - p.amount, used := s.used + consumed)],
                          f.reservations[id := f.reservations[id].(holding := to)]))
  {
    var s, r := f.subs[k], f.reservations[id];
    var g := Funds(f.subs[k := s.(reserved := s.reserved - r.part.amount, used := s.used + consumed)],
                   f.reservations[id := r.(holding := to)]);
    forall j | 0 <= j < |g.subs| ensures SubOk(g, j) {
      assert SubOk(f, j);
      SumUpdate(f.reservations, id, r.(holding := to), HeldOn(j));
    }
  }

  lemma {:induction false} StopHoldingWallet(f: Funds, id: nat, to: Holding)
    requires FundsOk(f) && id < |f.reservations| && f.reservations[id].holding == Active && to != Active
    requires f.reservations[id].part.source == Payg
    ensures FundsOk(f.(reservations := f.reservations[id := f.reservations[id].(holding := to)]))
  {
    var r := f.reservations[id];
    var g := f.(reservations := f.reservations[id := r.(holding := to)]);
    forall j | 0 <= j < |g.subs| ensures SubOk(g, j) {
      assert SubOk(f, j);
      SumUpdate(f.reservations, id, r.(holding := to), HeldOn(j));
    }
  }

  /** `g` is `f` with the listed rows marked, and subscriptions changed in no more than their counters. */
  predicate Marks(f: Funds, g: Funds, found: seq<Found>, to: Holding) {
    && |g.reservations| == |f.reservations| && |g.subs| == |f.subs|
    && (forall i :: 0 <= i < |f.reservations| ==>
          g.reservations[i] == if Lists(found, i) then f.reservations[i].(holding := to) else f.reservations[i])
  }

  lemma {:induction false} MarksOneMore(f: Funds, g: Funds, h: Funds, found: seq<Found>, to: Holding)
    requires found != [] && Picks(f.reservations, found) && Marks(f, g, found[..|found| - 1], to)
    requires var x := found[|found| - 1];
             x.id < |g.reservations| && |h.subs| == |g.subs| &&
             h.reservations == g.reservations[x.id := g.reservations[x.id].(holding := to)]
    ensures Marks(f, h, found, to)
  {
  }

  /** Releasing the listed rows one after the other never misses a guard, and keeps every counter right. */
  lemma {:induction false} ReleaseEachWorks(f: Funds, found: seq<Found>)
    requires FundsOk(f) && Picks(f.reservations, found)
    ensures ReleaseEach(f, found, true).Ok?
    ensures FundsOk(ReleaseEach(f, found, true).value) && Marks(f, ReleaseEach(f, found, true).value, found, Freed)
    ensures SameUse(f, ReleaseEach(f, found, true).value)
  {
    hide FundsOk;
    if found != [] {
      var last := |found| - 1;
      ReleaseEachWorks(f, found[..last]);
      var g := ReleaseEach(f, found[..last], true).value;
      ReleaseOneWorks(g, found[last]);
      MarksOneMore(f, g, ReleaseOne(g, found[last], true).value, found, Freed);
    }
  }

  predicate SameUse(f: Funds, g: Funds) {
    |g.subs| == |f.subs| && forall k :: 0 <= k < |f.subs| ==> g.subs[k].used == f.subs[k].used
  }

  lemma {:induction false} ReleaseOneWorks(f: Funds, x: Found)
    requires FundsOk(f) && x.id < |f.reservations| && f.reservations[x.id].holding == Active
    requires f.reservations[x.id].part == x.part
    ensures var g := ReleaseOne(f, x, true);
            && g.Ok? && FundsOk(g.value) && SameUse(f, g.value)
            && g.value.reservations == f.reservations[x.id := f.reservations[x.id].(holding := Freed)]
  {
    if x.part.source.Plan? {
      GuardsPassIff(f, x.id, 0);
      StopHolding(f, x.id, Freed, x.part.source.subscription, 0);
    } else {
      StopHoldingWallet(f, x.id, Freed);
    }
  }

  // ---- charging one row, and all rows ----

  /** What the listed rows of subscription `k` are charged. */
  function ChargedTo(found: seq<Found>, shares: seq<Share>, k: nat): int
    requires |shares| == |found|
  {
    if found == [] then 0
    else
      var last := |found| - 1;
      ChargedTo(found[..last], shares[..last], k) + if found[last].part.source == Plan(k) then shares[last].consume else 0
  }

  predicate Within(found: seq<Found>, shares: seq<Share>)
    requires |shares| == |found|
  {
    forall n :: 0 <= n < |found| ==> 0 <= shares[n].consume <= found[n].part.amount
  }

  lemma {:induction false} SettleOneWorks(f: Funds, x: Found, s: Share)
    requires FundsOk(f) && x.id < |f.reservations| && f.reservations[x.id].holding == Active
    requires f.reservations[x.id].part == x.part && 0 <= s.consume <= x.part.amount
    ensures var g := SettleOne(f, x, s, true);
            && g.Ok? && FundsOk(g.value) && |g.value.subs| == |f.subs|
            && (forall k :: 0 <= k < |f.subs| ==> g.value.subs[k].used == f.subs[k].used + ChargedTo([x], [s], k))
            && g.value.reservations == f.reservations[x.id := f.reservations[x.id].(holding := Charged)]
  {
    assert forall k :: ChargedTo([x], [s], k) == if x.part.source == Plan(k) then s.consume else 0;
    if x.part.source.Plan? {
      assert SubOk(f, x.part.source.subscription);
      GuardsPassIff(f, x.id, s.consume);
      StopHolding(f, x.id, Charged, x.part.source.subscription, s.consume);
    } else {
      StopHoldingWallet(f, x.id, Charged);
    }
  }

  /** Charging the listed rows within their reservations never misses a guard, and moves `used` by what is charged. */
  lemma {:induction false} SettleEachWorks(f: Funds, found: seq<Found>, shares: seq<Share>)
    requires FundsOk(f) && Picks(f.reservations, found) && |shares| == |found| && Within(found, shares)
    ensures SettleEach(f, found, shares, true).Ok?
    ensures FundsOk(SettleEach(f, found, shares, true).value)
    ensures Marks(f, SettleEach(f, found, shares, true).value, found, Charged)
    ensures forall k :: 0 <= k < |f.subs| ==>
              SettleEach(f, found, shares, true).value.subs[k].used == f.subs[k].used + ChargedTo(found, shares, k)
  {
    hide FundsOk;
    if found != [] {
      var last := |found| - 1;
      SettleEachWorks(f, found[..last], shares[..last]);
      var g := SettleEach(f, found[..last], shares[..last], true).value;
      SettleOneWorks(g, found[last], shares[last]);
      MarksOneMore(f, g, SettleOne(g, found[last], shares[last], true).value, found, Charged);
      assert forall k :: ChargedTo([found[last]], [shares[last]], k) ==
                         if found[last].part.source == Plan(k) then shares[last].consume else 0;
    }
  }
}
