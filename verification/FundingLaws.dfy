/** Each command keeps the books balanced; so does every run. */
module FundingLaws {
  import opened Options
  import opened Sums
  import opened Allocation
  import opened BillingRequests
  import opened BillingFencing
  import opened BillingRecovery
  import opened Funding
  import opened FundingBalance

  // ---- statements of the protocol that move no money ----

  predicate SameMoney(r: Row, s: Row) {
    && Ended(s.status) == Ended(r.status) && (s.status == Settled <==> r.status == Settled)
    && s.channel == r.channel && s.channelReserved == r.channelReserved
  }

  lemma {:induction false} NeutralRow(a: Action, i: nat, r: Row, token: nat)
    requires Neutral(a) && Guard(a, i, r)
    ensures SameMoney(r, Changed(a, token, r))
  {
  }

  lemma {:induction false} NeutralStep(t: Table, a: Action, j: nat)
    requires Neutral(a) && j < |t.rows|
    ensures |Step(t, a).0.rows| == |t.rows| && SameMoney(t.rows[j], Step(t, a).0.rows[j])
  {
    RowThroughStep(t, a, j);
    StepLength(t, a);
    hide Step, Guard, Changed;
    var u := Step(t, a).0;
    if u.rows[j] != t.rows[j] {
      var token :| token >= t.nextToken && u.rows[j] == Changed(a, token, t.rows[j]);
      NeutralRow(a, j, t.rows[j], token);
    }
  }

  lemma {:induction false} SameExposure(rows: seq<Row>, more: seq<Row>, channels: seq<Channel>)
    requires ChannelsOk(rows, channels) && |more| == |rows|
    requires forall j :: 0 <= j < |rows| ==> SameMoney(rows[j], more[j])
    ensures ChannelsOk(more, channels)
  {
    forall c | 0 <= c < |channels| ensures channels[c].reserved == Sum(more, Exposure(c)) {
      SumSame(rows, more, Exposure(c));
    }
    forall j | 0 <= j < |more| ensures ExposureOk(more[j], |channels|) {
      assert ExposureOk(rows[j], |channels|) && SameMoney(rows[j], more[j]);
    }
  }

  lemma {:induction false} NeutralKeeps(b: Books, a: Action)
    requires Balanced(b) && Neutral(a)
    ensures Balanced(b.(requests := Step(b.requests, a).0))
  {
    var t, u := b.requests, Step(b.requests, a).0;
    StepKeepsGood(t, a);
    StepLength(t, a);
    hide Good, Step, FundsOk, ChannelsOk, OwnersOk, BillsOk, LogsOk;
    forall j | 0 <= j < |t.rows| ensures SameMoney(t.rows[j], u.rows[j]) {
      NeutralStep(t, a, j);
    }
    SameExposure(t.rows, u.rows, b.channels);
    NeutralAside(b, u);
  }

  lemma {:induction false} NeutralAside(b: Books, u: Table)
    requires OwnersOk(b) && BillsOk(b) && LogsOk(b) && |u.rows| == |b.requests.rows|
    requires forall j :: 0 <= j < |u.rows| ==> SameMoney(b.requests.rows[j], u.rows[j])
    ensures var e := b.(requests := u);
            OwnersOk(e) && BillsOk(e) && LogsOk(e)
  {
    var e := b.(requests := u);
    forall i | 0 <= i < |b.funds.reservations| ensures OwnerOk(e, b.funds.reservations[i]) {
      assert OwnerOk(b, b.funds.reservations[i]);
    }
    forall i | 0 <= i < |b.logs| ensures LogOk(e, b.logs[i]) {
      assert LogOk(b, b.logs[i]);
    }
  }

  // ---- ending a request ----

  /** The books after the request at `q` ended: its row has an end status, its reservations no longer hold. */
  predicate EndsRow(r: Row, s: Row) {
    !Ended(r.status) && Ended(s.status) && s.channel == r.channel && s.channelReserved == r.channelReserved
  }

  /** The exposure of a request that ends can always be given back. */
  lemma {:induction false} ExposureComesBack(rows: seq<Row>, channels: seq<Channel>, q: nat, s: Row)
    requires ChannelsOk(rows, channels) && q < |rows| && EndsRow(rows[q], s)
    ensures ReleaseExposure(channels, s.channel, s.channelReserved).Ok?
    ensures ChannelsOk(rows[q := s], ReleaseExposure(channels, s.channel, s.channelReserved).value)
  {
    var r := rows[q];
    assert forall j :: 0 <= j < |rows| ==> ExposureOk(rows[j], |channels|);
    if s.channel.Some? && s.channelReserved.Some? {
      SumCovers(rows, Exposure(s.channel.value));
      assert Exposure(s.channel.value)(r) == s.channelReserved.value;
    }
    var after := ReleaseExposure(channels, s.channel, s.channelReserved).value;
    forall c | 0 <= c < |after| ensures after[c].reserved == Sum(rows[q := s], Exposure(c)) {
      SumUpdate(rows, q, s, Exposure(c));
    }
  }

  /** The rows a request held no longer count for it, and all others count as before. */
  lemma {:induction false} MarkedSums(f: Funds, g: Funds, q: nat, to: Holding, p: nat)
    requires Marks(f, g, ActiveOf(f.reservations, q), to) && to != Active
    ensures Sum(g.reservations, HeldBy(p)) == if p == q then 0 else Sum(f.reservations, HeldBy(p))
  {
    ActiveOfPicks(f.reservations, q);
    hide ActiveOf, Sum;
    var found := ActiveOf(f.reservations, q);
    if p == q {
      forall i | 0 <= i < |g.reservations| ensures HeldBy(p)(g.reservations[i]) == 0 {
        assert Lists(found, i) <==> IsActiveOf(f.reservations[i], q);
      }
      SumZero(g.reservations, HeldBy(p));
    } else {
      forall i | 0 <= i < |g.reservations| ensures HeldBy(p)(g.reservations[i]) == HeldBy(p)(f.reservations[i]) {
        assert Lists(found, i) <==> IsActiveOf(f.reservations[i], q);
      }
      SumSame(g.reservations, f.reservations, HeldBy(p));
    }
  }

  /** Owners and bills stay right when request `q` ends and exactly its active rows stop holding. */
  lemma {:induction false} EndedOwners(b: Books, q: nat, s: Row, g: Funds, to: Holding)
    requires OwnersOk(b) && BillsOk(b) && q < |b.requests.rows| && EndsRow(b.requests.rows[q], s) && to != Active
    requires Marks(b.funds, g, ActiveOf(b.funds.reservations, q), to)
    ensures var e := b.(requests := b.requests.(rows := b.requests.rows[q := s]), funds := g);
            OwnersOk(e) && BillsOk(e)
  {
    var e := b.(requests := b.requests.(rows := b.requests.rows[q := s]), funds := g);
    forall i | 0 <= i < |g.reservations| ensures OwnerOk(e, g.reservations[i]) {
      EndedOwner(b, q, s, g, to, i);
    }
    forall p | 0 <= p < |e.bills| && !Ended(e.requests.rows[p].status)
      ensures e.bills[p].reserved == Sum(g.reservations, HeldBy(p))
    {
      MarkedSums(b.funds, g, q, to, p);
    }
  }

  lemma {:induction false} EndedOwner(b: Books, q: nat, s: Row, g: Funds, to: Holding, i: nat)
    requires OwnersOk(b) && BillsOk(b) && q < |b.requests.rows| && EndsRow(b.requests.rows[q], s) && to != Active
    requires Marks(b.funds, g, ActiveOf(b.funds.reservations, q), to) && i < |g.reservations|
    ensures OwnerOk(b.(requests := b.requests.(rows := b.requests.rows[q := s]), funds := g), g.reservations[i])
  {
    ActiveOfPicks(b.funds.reservations, q);
    hide ActiveOf, Lists;
    var r := b.funds.reservations[i];
    assert OwnerOk(b, r);
    assert Lists(ActiveOf(b.funds.reservations, q), i) <==> IsActiveOf(r, q);
  }

  lemma {:induction false} EndedLogs(b: Books, q: nat, s: Row, g: Funds)
    requires LogsOk(b) && BillsOk(b) && q < |b.requests.rows| && EndsRow(b.requests.rows[q], s) && s.status == Released
    requires SameUse(b.funds, g)
    ensures LogsOk(b.(requests := b.requests.(rows := b.requests.rows[q := s]), funds := g))
  {
    var e := b.(requests := b.requests.(rows := b.requests.rows[q := s]), funds := g);
    forall i | 0 <= i < |b.logs| ensures LogOk(e, b.logs[i]) {
      assert LogOk(b, b.logs[i]);
    }
  }

  // ---- release: never fails ----

  predicate Releases(a: Action) {
    || (a.Transition? && a.to == Released && Settled !in a.from && Released !in a.from)
    || a.RecoverOne? || a.AbandonDead?
  }

  lemma {:induction false} ReleasingRow(a: Action, token: nat, i: nat, r: Row)
    requires Releases(a) && Guard(a, i, r)
    ensures EndsRow(r, Changed(a, token, r)) && Changed(a, token, r).status == Released
  {
  }

  /** A request that a statement releases gives back everything it had reserved, whatever happened to its subscription
      or channel meanwhile: no guard misses, and the books stay balanced. */
  lemma {:induction false} ReleaseNeverFails(b: Books, a: Action)
    requires Balanced(b) && Releases(a)
    ensures Balanced(EndStep(b, a, true).0) && !EndStep(b, a, true).1.Failed?
  {
    hide Good, Step, Changed, Guard, RowOk, ReleaseAll, FundsOk, OwnersOk, ChannelsOk, LogsOk;
    OneRowStep(b.requests, a);
    StepKeepsGood(b.requests, a);
    var id := TargetOf(a);
    var (requests, answer) := Step(b.requests, a);
    if answer == Touched([id]) {
      var s := Changed(a, b.requests.nextToken, b.requests.rows[id]);
      ReleasingRow(a, b.requests.nextToken, id, b.requests.rows[id]);
      assert requests == b.requests.(rows := b.requests.rows[id := s]);
      AllReleased(b, id, s);
    }
  }

  lemma {:induction false} AllReleased(b: Books, id: nat, s: Row)
    requires id < |b.requests.rows| && EndsRow(b.requests.rows[id], s) && s.status == Released
    requires FundsOk(b.funds) && OwnersOk(b) && BillsOk(b) && ChannelsOk(b.requests.rows, b.channels) && LogsOk(b)
    ensures var c := b.(requests := b.requests.(rows := b.requests.rows[id := s]));
            var r := ReleaseAll(c, id, true);
            && r.Ok? && FundsOk(r.value.funds) && OwnersOk(r.value) && BillsOk(r.value)
            && ChannelsOk(r.value.requests.rows, r.value.channels) && LogsOk(r.value)
            && r.value.requests == c.requests
  {
    var found := ActiveOf(b.funds.reservations, id);
    ActiveOfPicks(b.funds.reservations, id);
    ActiveOfSum(b.funds.reservations, id);
    ReleaseEachWorks(b.funds, found);
    var g := ReleaseEach(b.funds, found, true).value;
    EndedOwners(b, id, s, g, Freed);
    EndedLogs(b, id, s, g);
    ExposureComesBack(b.requests.rows, b.channels, id, s);
    hide FundsOk, ChannelsOk, Sum, ActiveOf, ReleaseEach, Marks, Picks;
    AfterRelease(b, id, s, g);
  }

  lemma {:induction false} AfterRelease(b: Books, id: nat, s: Row, g: Funds)
    requires id < |b.requests.rows| && EndsRow(b.requests.rows[id], s) && s.status == Released && BillsOk(b)
    requires ReleaseEach(b.funds, ActiveOf(b.funds.reservations, id), true) == Ok(g)
    requires ReleaseExposure(b.channels, s.channel, s.channelReserved).Ok?
    requires Sum(PartsOf(ActiveOf(b.funds.reservations, id)), AmountOf()) == b.bills[id].reserved
    requires |g.subs| == |b.funds.subs|
    requires var e := b.(requests := b.requests.(rows := b.requests.rows[id := s]), funds := g);
             OwnersOk(e) && BillsOk(e) && LogsOk(e)
    ensures var c := b.(requests := b.requests.(rows := b.requests.rows[id := s]));
            var r := ReleaseAll(c, id, true);
            && r.Ok? && r.value.requests == c.requests && OwnersOk(r.value) && BillsOk(r.value) && LogsOk(r.value)
            && r.value.funds == g && r.value.channels == ReleaseExposure(b.channels, s.channel, s.channelReserved).value
  {
    hide Sum, ActiveOf, ReleaseEach, ReleaseExposure;
    var c := b.(requests := b.requests.(rows := b.requests.rows[id := s]));
    var channels := ReleaseExposure(b.channels, s.channel, s.channelReserved).value;
    var e := c.(funds := g);
    var v := e.(channels := channels);
    assert FindActive(c, id, IN_FLIGHT_STATUSES + {Released}) == ActiveOf(b.funds.reservations, id);
    assert ReleaseAll(c, id, true) == Ok(v);
    ChannelsAside(e, channels);
  }

  /** Owners, bills and logs do not look at channels. */
  lemma {:induction false} ChannelsAside(e: Books, channels: seq<Channel>)
    requires OwnersOk(e) && BillsOk(e) && LogsOk(e)
    ensures OwnersOk(e.(channels := channels)) && BillsOk(e.(channels := channels)) && LogsOk(e.(channels := channels))
  {
    var v := e.(channels := channels);
    forall i | 0 <= i < |v.funds.reservations| ensures OwnerOk(v, v.funds.reservations[i]) {
      assert OwnerOk(e, e.funds.reservations[i]);
    }
    forall i | 0 <= i < |v.logs| ensures LogOk(v, v.logs[i]) {
      assert LogOk(e, e.logs[i]);
    }
  }

  // ---- moving exposure between channels ----

  /** The row after it claimed `channel` for `amount`. */
  function Claimed(r: Row, channel: nat, amount: int): Row {
    r.(channel := Some(channel), channelReserved := Some(amount))
  }

  predicate SeenRight(c: Command, r: Row)
    requires c.ReserveChannel?
  {
    c.seen.channel == r.channel && c.seen.reserved == r.channelReserved && (r.status == Authorized || r.status == InFlight)
  }

  /** Giving back the old exposure of a live request never fails, and exactly its claim moves. */
  lemma {:induction false} ExposureMoves(rows: seq<Row>, channels: seq<Channel>, c: Command)
    requires ChannelsOk(rows, channels) && c.ReserveChannel? && c.id < |rows| && SeenRight(c, rows[c.id]) && c.amount >= 0
    requires TryIncreaseReserved(channels, c.channel, Delta(c)).Some?
    ensures MoveExposure(channels, c).Ok?
    ensures ChannelsOk(rows[c.id := Claimed(rows[c.id], c.channel, c.amount)], MoveExposure(channels, c).value)
  {
    hide Sum;
    var r, s := rows[c.id], Claimed(rows[c.id], c.channel, c.amount);
    assert ExposureOk(r, |channels|);
    if r.channel.Some? && r.channelReserved.Some? {
      assert forall j :: 0 <= j < |rows| ==> ExposureOk(rows[j], |channels|);
      SumCovers(rows, Exposure(r.channel.value));
      assert Exposure(r.channel.value)(r) == r.channelReserved.value;
    }
    var after := MoveExposure(channels, c).value;
    forall d | 0 <= d < |after| ensures after[d].reserved == Sum(rows[c.id := s], Exposure(d)) {
      SumUpdate(rows, c.id, s, Exposure(d));
    }
    var more := rows[c.id := s];
    forall j | 0 <= j < |more| ensures ExposureOk(more[j], |after|) {
      assert ExposureOk(rows[j], |channels|);
    }
  }

  function ClaimAction(c: Command): Action
    requires c.ReserveChannel?
  {
    ClaimChannel(c.id, {Authorized, InFlight}, c.seen.channel, c.seen.reserved, c.channel, c.amount)
  }

  /** The claim of a channel goes through exactly when the caller still sees the request as it is. */
  lemma {:induction false} ClaimAccepted(t: Table, c: Command)
    requires Good(t) && c.ReserveChannel? && c.id < |t.rows|
    ensures Step(t, ClaimAction(c)).1 == Touched([c.id]) <==> SeenRight(c, t.rows[c.id])
    ensures SeenRight(c, t.rows[c.id]) ==>
              Step(t, ClaimAction(c)).0 == t.(rows := t.rows[c.id := Claimed(t.rows[c.id], c.channel, c.amount)])
  {
    OneRowStep(t, ClaimAction(c));
    hide Step;
    var r := t.rows[c.id];
    assert RowOk(r);
    assert Guard(ClaimAction(c), c.id, r) <==> SeenRight(c, r);
    assert Changed(ClaimAction(c), t.nextToken, r) == Claimed(r, c.channel, c.amount);
    assert RowOk(Claimed(r, c.channel, c.amount));
    var none: seq<nat>, one: seq<nat> := [], [c.id];
    assert |none| != |one|;
  }

  /** A caller that has seen an outdated channel column changes nothing, so no exposure is lost or released twice. */
  lemma {:induction false} StaleViewChangesNothing(b: Books, c: Command)
    requires Balanced(b) && c.ReserveChannel? && (c.id < |b.requests.rows| ==> !SeenRight(c, b.requests.rows[c.id]))
    ensures ReserveStep(b, c).0 == b
  {
    hide Step, MoveExposure;
    if c.id < |b.requests.rows| {
      ClaimAccepted(b.requests, c);
    }
  }

  /** A caller with the right view never meets an error: it is turned down exactly when the channel has not enough
      budget left for what it must still set aside. */
  lemma {:induction false} FreshViewNeverFails(b: Books, c: Command)
    requires Balanced(b) && c.ReserveChannel? && c.amount >= 0 && c.id < |b.requests.rows| && SeenRight(c, b.requests.rows[c.id])
    requires c.seen.status == b.requests.rows[c.id].status
    ensures !ReserveStep(b, c).1.Failed?
    ensures ReserveStep(b, c).1.Denied? <==>
            !(Covered(c) && Delta(c) <= 0) &&
            !(c.channel < |b.channels| && b.channels[c.channel].budget - b.channels[c.channel].reserved >= Delta(c))
  {
    if TryIncreaseReserved(b.channels, c.channel, Delta(c)).Some? {
      ExposureMoves(b.requests.rows, b.channels, c);
      ClaimAccepted(b.requests, c);
    }
    hide Step, MoveExposure;
  }

  lemma {:induction false} ReserveKeeps(b: Books, c: Command)
    requires Balanced(b) && c.ReserveChannel?
    ensures Balanced(ReserveStep(b, c).0)
  {
    if c.id >= |b.requests.rows| || !SeenRight(c, b.requests.rows[c.id]) {
      StaleViewChangesNothing(b, c);
    } else if c.amount >= 0 && TryIncreaseReserved(b.channels, c.channel, Delta(c)).Some? {
      ExposureMoves(b.requests.rows, b.channels, c);
      ClaimAccepted(b.requests, c);
      StepKeepsGood(b.requests, ClaimAction(c));
      ClaimedAside(b, c.id, Claimed(b.requests.rows[c.id], c.channel, c.amount), MoveExposure(b.channels, c).value);
      hide Step, MoveExposure, Balanced;
      AfterReserve(b, c);
    }
  }

  lemma {:induction false} AfterReserve(b: Books, c: Command)
    requires c.ReserveChannel? && c.id < |b.requests.rows| && SeenRight(c, b.requests.rows[c.id]) && c.amount >= 0
    requires MoveExposure(b.channels, c).Ok? && TryIncreaseReserved(b.channels, c.channel, Delta(c)).Some?
    requires var t := b.requests;
             Step(t, ClaimAction(c)) ==
             (t.(rows := t.rows[c.id := Claimed(t.rows[c.id], c.channel, c.amount)]), Touched([c.id]))
    ensures ReserveStep(b, c).0 == b ||
            ReserveStep(b, c).0 ==
            b.(requests := b.requests.(rows := b.requests.rows[c.id := Claimed(b.requests.rows[c.id], c.channel, c.amount)]),
               channels := MoveExposure(b.channels, c).value)
  {
    hide Step, MoveExposure, TryIncreaseReserved;
  }

  /** Claiming a channel leaves owners, bills and logs as they were. */
  lemma {:induction false} ClaimedAside(b: Books, id: nat, s: Row, channels: seq<Channel>)
    requires OwnersOk(b) && BillsOk(b) && LogsOk(b) && id < |b.requests.rows| && s.status == b.requests.rows[id].status
    ensures var e := b.(requests := b.requests.(rows := b.requests.rows[id := s]), channels := channels);
            OwnersOk(e) && BillsOk(e) && LogsOk(e)
  {
    var e := b.(requests := b.requests.(rows := b.requests.rows[id := s]), channels := channels);
    forall i | 0 <= i < |e.funds.reservations| ensures OwnerOk(e, e.funds.reservations[i]) {
      assert OwnerOk(b, b.funds.reservations[i]);
    }
    forall i | 0 <= i < |e.logs| ensures LogOk(e, e.logs[i]) {
      assert LogOk(b, b.logs[i]);
    }
  }
}
