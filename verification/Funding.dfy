/** What a billing request reserves, and where: the quota of a subscription, the wallet, and the budget of a channel.

    Counters (`reserved` of a subscription, `reserved` of a channel) are kept by single guarded UPDATEs; the rows they
    must agree with are the reservation rows and the channel columns of the requests. The wallet is not part of these
    books: `wallet` says whether it accepts its part of a transaction. Every use case is one transaction: an error
    leaves the books as they were. */
module Funding {
  import opened Options
  import opened Sums
  import opened Allocation
  import opened BillingRequests

  /** Status 0 is active; 1 and 2 are ended. */
  datatype Subscription = Subscription(user: nat, endAt: int, status: int, quota: int, used: int, reserved: int)

  datatype Holding = Active | Freed | Charged

  datatype Reservation = Reservation(request: nat, part: Part, holding: Holding)

  /** Status 0 is enabled; 3 is switched off because the budget ran out. */
  datatype Channel = Channel(budget: int, reserved: int, threshold: Option<int>, status: int)

  /** The money columns of a request, which no statement of the protocol writes. */
  datatype Bill = Bill(user: nat, reserved: int, subscription: Option<nat>)

  datatype UsageLog = UsageLog(request: nat, amount: int, plan: int, subscription: Option<nat>)

  datatype Funds = Funds(subs: seq<Subscription>, reservations: seq<Reservation>)

  datatype Books = Books(requests: Table, bills: seq<Bill>, funds: Funds, channels: seq<Channel>, logs: seq<UsageLog>)

  const NO_BOOKS := Books(BillingRequests.EMPTY, [], Funds([], []), [], [])

  datatype Error = InvalidAmount | RequestMissing | InsufficientBalance | PlanInactive | PlanExhausted | WalletRefused |
                   ReleaseMissed | SettleMissed | AlreadyFinal | ProjectionMismatch | ExposureMissed | NotReservable |
                   BadReceipt | UserMismatch | UnattributedEstimate | ChannelMismatch | NoSource | UsageConflict |
                   StateChanged | ChannelMissing

  datatype Outcome<+T> = Ok(value: T) | Err(error: Error)

  // ---- subscription.repo.ts: the guarded counters of a subscription ----

  datatype QuotaOutcome = QuotaOk | Inactive | Exhausted

  function TryReserveQuota(subs: seq<Subscription>, id: nat, amount: int): (seq<Subscription>, QuotaOutcome) {
    if id < |subs| && subs[id].status == 0 && subs[id].quota - subs[id].used - subs[id].reserved >= amount then
      (subs[id := subs[id].(reserved := subs[id].reserved + amount)], QuotaOk)
    else if id >= |subs| || subs[id].status != 0 then (subs, Inactive)
    else (subs, Exhausted)
  }

  function TrySettleQuota(subs: seq<Subscription>, id: nat, reserved: int, consumed: int): Option<seq<Subscription>> {
    if id < |subs| && subs[id].reserved >= reserved &&
       subs[id].used + consumed + (subs[id].reserved - reserved) <= subs[id].quota
    then
      Some(subs[id := subs[id].(reserved := subs[id].reserved - reserved, used := subs[id].used + consumed)])
    else None
  }

  function TryReleaseQuota(subs: seq<Subscription>, id: nat, reserved: int): Option<seq<Subscription>> {
    if id < |subs| && subs[id].reserved >= reserved then
      Some(subs[id := subs[id].(reserved := subs[id].reserved - reserved)])
    else None
  }

  function TryAddQuota(subs: seq<Subscription>, id: nat, quota: int): Option<seq<Subscription>> {
    if id < |subs| && subs[id].status == 0 then Some(subs[id := subs[id].(quota := subs[id].quota + quota)]) else None
  }

  function CasStatus(subs: seq<Subscription>, id: nat, from: int, to: int): Option<seq<Subscription>> {
    if id < |subs| && subs[id].status == from then Some(subs[id := subs[id].(status := to)]) else None
  }

  function Lapsed(s: Subscription, user: nat, now: int): Subscription {
    if s.user == user && s.status == 0 && s.endAt <= now then s.(status := 1) else s
  }

  function ExpireLapsed(subs: seq<Subscription>, user: nat, now: int): (r: seq<Subscription>)
    ensures |r| == |subs|
  {
    if subs == [] then []
    else ExpireLapsed(subs[..|subs| - 1], user, now) + [Lapsed(subs[|subs| - 1], user, now)]
  }

  // ---- channel.repo.ts: the guarded counters of a channel ----

  function TryIncreaseReserved(channels: seq<Channel>, id: nat, delta: int): Option<seq<Channel>> {
    if id < |channels| && channels[id].budget - channels[id].reserved >= delta then
      Some(channels[id := channels[id].(reserved := channels[id].reserved + delta)])
    else None
  }

  function TryDecreaseReserved(channels: seq<Channel>, id: nat, amount: int): Option<seq<Channel>> {
    if id < |channels| && channels[id].reserved >= amount then
      Some(channels[id := channels[id].(reserved := channels[id].reserved - amount)])
    else None
  }

  function Recharge(channels: seq<Channel>, id: nat, amount: int): Option<seq<Channel>> {
    if id < |channels| then
      Some(channels[id := channels[id].(budget := channels[id].budget + amount,
                                        status := if channels[id].status == 3 then 0 else channels[id].status)])
    else None
  }

  function TryAdjust(channels: seq<Channel>, id: nat, amount: int): Option<seq<Channel>> {
    if id < |channels| && channels[id].budget + amount >= 0 then
      Some(channels[id := channels[id].(budget := channels[id].budget + amount)])
    else None
  }

  function Threshold(c: Channel): int {
    if c.threshold.Some? then c.threshold.value else 0
  }

  /** The real cost is booked without a guard; a budget at or below its threshold switches an enabled channel off. */
  function Deduct(channels: seq<Channel>, id: Option<nat>, cost: int): (seq<Channel>, bool) {
    if id.None? || id.value >= |channels| then (channels, false)
    else
      var c := channels[id.value].(budget := channels[id.value].budget - cost);
      if c.budget <= Threshold(c) then
        (channels[id.value := if c.status == 0 then c.(status := 3) else c], true)
      else (channels[id.value := c], false)
  }

  // ---- billing-reservation.repo.ts ----

  datatype Found = Found(id: nat, part: Part)

  /** The active reservations of a request, oldest first. */
  function ActiveOf(reservations: seq<Reservation>, request: nat): seq<Found> {
    if reservations == [] then []
    else
      var last := |reservations| - 1;
      var r := reservations[last];
      ActiveOf(reservations[..last], request) +
      if r.request == request && r.holding == Active then [Found(last, r.part)] else []
  }

  const IN_FLIGHT_STATUSES: set<Status> := {Authorized, InFlight, SettlementPending, Processing, RetryWait, Dead}

  function FindActive(b: Books, request: nat, statuses: set<Status>): seq<Found> {
    if request < |b.requests.rows| && b.requests.rows[request].status in statuses then
      ActiveOf(b.funds.reservations, request)
    else []
  }

  function Mark(f: Funds, id: nat, to: Holding): Outcome<Funds> {
    if id < |f.reservations| && f.reservations[id].holding == Active then
      Ok(f.(reservations := f.reservations[id := f.reservations[id].(holding := to)]))
    else Err(AlreadyFinal)
  }

  function PartsOf(found: seq<Found>): (r: seq<Part>)
    ensures |r| == |found|
  {
    seq(|found|, i requires 0 <= i < |found| => found[i].part)
  }

  // ---- funding/release.ts ----

  function ReleaseOne(f: Funds, x: Found, wallet: bool): Outcome<Funds> {
    if x.part.source.Plan? then
      var subs := TryReleaseQuota(f.subs, x.part.source.subscription, x.part.amount);
      if subs.None? then Err(ReleaseMissed) else Mark(f.(subs := subs.value), x.id, Freed)
    else if wallet then Mark(f, x.id, Freed)
    else Err(WalletRefused)
  }

  function ReleaseEach(f: Funds, found: seq<Found>, wallet: bool): Outcome<Funds> {
    if found == [] then Ok(f)
    else
      var g := ReleaseEach(f, found[..|found| - 1], wallet);
      if g.Err? then g else ReleaseOne(g.value, found[|found| - 1], wallet)
  }

  function ReleaseExposure(channels: seq<Channel>, channel: Option<nat>, reserved: Option<int>): Outcome<seq<Channel>> {
    if channel.None? || reserved.None? then Ok(channels)
    else
      var r := TryDecreaseReserved(channels, channel.value, reserved.value);
      if r.None? then Err(ExposureMissed) else Ok(r.value)
  }

  function ReleaseAll(b: Books, request: nat, wallet: bool): Outcome<Books>
    requires request < |b.requests.rows| && request < |b.bills|
  {
    var found := FindActive(b, request, IN_FLIGHT_STATUSES + {Released});
    var funds := ReleaseEach(b.funds, found, wallet);
    if funds.Err? then Err(funds.error)
    else if Sum(PartsOf(found), AmountOf()) != b.bills[request].reserved then Err(ProjectionMismatch)
    else
      var row := b.requests.rows[request];
      var channels := ReleaseExposure(b.channels, row.channel, row.channelReserved);
      if channels.Err? then Err(channels.error) else Ok(b.(funds := funds.value, channels := channels.value))
  }

  // ---- funding/plan.ts and funding/commit.ts ----

  /** How much each source is asked for: the subscription first, the wallet for the rest. None: not covered. */
  function PlanFunding(amount: int, subscription: Option<nat>, planRoom: int, paygRoom: int): Option<(int, int)> {
    if amount == 0 then Some((0, 0))
    else
      var plan := if subscription.Some? then Min(planRoom, amount) else 0;
      var rest := amount - plan;
      var payg := if rest == 0 then 0 else Min(paygRoom, rest);
      if rest - payg > 0 then None else Some((Max(plan, 0), Max(payg, 0)))
  }

  function Commit(f: Funds, request: nat, subscription: Option<nat>, plan: int, payg: int, wallet: bool): Outcome<Funds>
    requires plan > 0 ==> subscription.Some?
  {
    var g :=
      if plan <= 0 then Ok(f)
      else
        var (subs, outcome) := TryReserveQuota(f.subs, subscription.value, plan);
        if outcome == Inactive then Err(PlanInactive)
        else if outcome == Exhausted then Err(PlanExhausted)
        else
          Ok(Funds(subs, f.reservations + [Reservation(request, Part(Plan(subscription.value), plan), Active)]));
    if g.Err? || payg <= 0 then g
    else if !wallet then Err(WalletRefused)
    else Ok(g.value.(reservations := g.value.reservations + [Reservation(request, Part(Payg, payg), Active)]))
  }

  // ---- settlement/settle.ts ----

  function SettleOne(f: Funds, x: Found, s: Share, wallet: bool): Outcome<Funds> {
    if x.part.source.Plan? then
      var subs := TrySettleQuota(f.subs, x.part.source.subscription, x.part.amount, s.consume);
      if subs.None? then Err(SettleMissed)
      else if s.over > 0 && !wallet then Err(WalletRefused)
      else Mark(f.(subs := subs.value), x.id, Charged)
    else if wallet then Mark(f, x.id, Charged)
    else Err(WalletRefused)
  }

  function SettleEach(f: Funds, found: seq<Found>, shares: seq<Share>, wallet: bool): Outcome<Funds>
    requires |shares| == |found|
  {
    if found == [] then Ok(f)
    else
      var last := |found| - 1;
      var g := SettleEach(f, found[..last], shares[..last], wallet);
      if g.Err? then g else SettleOne(g.value, found[last], shares[last], wallet)
  }

  /** What the subscription sources are charged. */
  function PlanConsumed(found: seq<Found>, shares: seq<Share>): int
    requires |shares| == |found|
  {
    if found == [] then 0
    else
      var last := |found| - 1;
      PlanConsumed(found[..last], shares[..last]) + if found[last].part.source.Plan? then shares[last].consume else 0
  }

  function LogOf(logs: seq<UsageLog>, request: nat): (r: Option<nat>)
    ensures r.Some? ==> r.value < |logs| && logs[r.value].request == request
    ensures r.None? ==> forall i :: 0 <= i < |logs| ==> logs[i].request != request
  {
    if logs == [] then None
    else if logs[|logs| - 1].request == request then Some(|logs| - 1)
    else LogOf(logs[..|logs| - 1], request)
  }

  // ---- the use cases ----

  /** What a caller read of a request before its transaction wrote anything. */
  datatype Seen = Seen(status: Status, channel: Option<nat>, reserved: Option<int>)

  /** What a decoded receipt says; `actual` and `cost` are its price and its upstream cost. An estimated usage is attributed
      when the receipt names an accepted reason for it. */
  datatype Receipt = Receipt(user: nat, channel: Option<nat>, estimated: bool, attributed: bool, actual: int, cost: int)

  datatype Command =
    | Protocol(a: Action)
    | Authorize(key: string, user: nat, createdAt: int, leaseUntil: int, nextAt: int, subscription: Option<nat>, amount: int,
                planRoom: int, paygRoom: int, wallet: bool)
    | ReserveChannel(id: nat, seen: Seen, channel: nat, amount: int)
    | Fail(id: nat, reason: string, now: int, wallet: bool)
    | Recover(id: nat, kind: Recovery, failure: string, now: int, wallet: bool)
    | AbandonCase(id: nat, revision: nat, now: int, wallet: bool)
    | Settle(ticket: Ticket, receipt: Option<Receipt>, now: int, finishAt: int, wallet: bool)
    | Subscribe(user: nat, endAt: int, quota: int)
    | AddQuota(id: nat, quota: int)
    | EndSubscription(id: nat, from: int, to: int)
    | ExpireLapsedOf(user: nat, now: int)
    | OpenChannel(budget: int, threshold: Option<int>, status: int)
    | RechargeChannel(id: nat, amount: int)
    | AdjustChannel(id: nat, amount: int)

  datatype Reply = Done | NoMatch | Replayed | Granted(remaining: int, switched: bool) | Denied(remaining: int) |
                   SettledFor(amount: int, broken: bool) | AlreadySettled(amount: int) | ClaimLost | Failed(error: Error)

  /** The statements on requests that neither fund nor end one. */
  predicate Neutral(a: Action) {
    match a
    case UpstreamStarted(_, _, _, _) => true
    case ClaimPending(_, _, _, _, _, _) => true
    case RenewClaims(_, _, _, _) => true
    case RetryOrDie(_, _, _, _) => true
    case RequeueExpired(_, _, _) => true
    case Abandon(_, _) => true
    case RetryDead(_, _, _) => true
    case Transition(_, from, to, _) => Settled !in from && Released !in from && to != Settled && to != Released
    case _ => false
  }

  /** How the services issue commands: a plan never has a negative quota, and a request is funded and ended only
      together with its reservations. */
  predicate Wired(c: Command) {
    && (c.Protocol? ==> Neutral(c.a))
    && (c.Subscribe? ==> c.quota >= 0)
    && (c.AddQuota? ==> c.quota >= 0)
  }

  function AuthorizeStep(b: Books, c: Command): (Books, Reply)
    requires c.Authorize?
  {
    var (requests, answer) := Step(b.requests, Insert(c.key, c.createdAt, c.leaseUntil, c.nextAt));
    if answer != Inserted(true) then (b, Replayed)
    else
      var plan := PlanFunding(c.amount, c.subscription, c.planRoom, c.paygRoom);
      if plan.None? then (b, Failed(InsufficientBalance))
      else
        var funds := Commit(b.funds, |b.requests.rows|, c.subscription, plan.value.0, plan.value.1, c.wallet);
        if funds.Err? then (b, Failed(funds.error))
        else (b.(requests := requests, bills := b.bills + [Bill(c.user, plan.value.0 + plan.value.1, c.subscription)],
                 funds := funds.value), Done)
  }

  function Remaining(channels: seq<Channel>, id: nat): int {
    if id < |channels| then channels[id].budget - channels[id].reserved else 0
  }

  function Covered(c: Command): bool
    requires c.ReserveChannel?
  {
    c.seen.channel == Some(c.channel) && c.seen.reserved.Some?
  }

  /** What the new channel must still set aside. */
  function Delta(c: Command): int
    requires c.ReserveChannel?
  {
    if Covered(c) then c.amount - c.seen.reserved.value else c.amount
  }

  /** The channel budget after reserving on the new channel and then giving back what the old one held. */
  function MoveExposure(channels: seq<Channel>, c: Command): Outcome<seq<Channel>>
    requires c.ReserveChannel?
  {
    var raised := TryIncreaseReserved(channels, c.channel, Delta(c));
    if raised.None? then Err(InsufficientBalance)
    else if Covered(c) then Ok(raised.value)
    else ReleaseExposure(raised.value, c.seen.channel, c.seen.reserved)
  }

  function ReserveStep(b: Books, c: Command): (Books, Reply)
    requires c.ReserveChannel?
  {
    if c.amount < 0 then (b, Failed(InvalidAmount))
    else if c.id >= |b.requests.rows| then (b, Failed(RequestMissing))
    else if c.seen.status != Authorized && c.seen.status != InFlight then (b, Denied(0))
    else if Covered(c) && Delta(c) <= 0 then (b, Granted(0, false))
    else if TryIncreaseReserved(b.channels, c.channel, Delta(c)).None? then (b, Denied(Remaining(b.channels, c.channel)))
    else
      var channels := MoveExposure(b.channels, c);
      if channels.Err? then (b, Failed(channels.error))
      else
        var (requests, answer) := Step(b.requests, ClaimChannel(c.id, {Authorized, InFlight}, c.seen.channel,
                                                               c.seen.reserved, c.channel, c.amount));
        if answer != Touched([c.id]) then (b, Failed(NotReservable))
        else
          var left := Remaining(TryIncreaseReserved(b.channels, c.channel, Delta(c)).value, c.channel);
          (b.(requests := requests, channels := channels.value),
           Granted(left, !Covered(c) && c.seen.channel.Some? && c.seen.reserved.Some?))
  }

  /** A statement that releases one request, and in the same transaction everything it had reserved. */
  function EndStep(b: Books, a: Action, wallet: bool): (Books, Reply)
    requires OneRow(a)
  {
    var (requests, answer) := Step(b.requests, a);
    var id := TargetOf(a);
    if answer != Touched([id]) || id >= |requests.rows| || id >= |b.bills| then (b, NoMatch)
    else
      var r := ReleaseAll(b.(requests := requests), id, wallet);
      if r.Err? then (b, Failed(r.error)) else (r.value, Done)
  }

  function FailAction(c: Command): Action
    requires c.Fail?
  {
    Transition(c.id, {Authorized, InFlight}, Released, Patch(Keep, Set(None), Keep, Keep, Set(Some(c.now)), Set(Some(c.reason))))
  }

  predicate Mismatch(expected: Option<nat>, receipt: Option<nat>) {
    expected.Some? && receipt.Some? && expected != receipt
  }

  /** The part of a settlement that checks the receipt, charges every source and writes the usage log. */
  function ChargeStep(b: Books, c: Command): Outcome<(Funds, UsageLog)>
    requires c.Settle? && c.receipt.Some? && c.ticket.id < |b.requests.rows| && c.ticket.id < |b.bills|
  {
    var q, receipt := c.ticket.id, c.receipt.value;
    var found := FindActive(b, q, IN_FLIGHT_STATUSES);
    if b.bills[q].user != receipt.user then Err(UserMismatch)
    else if receipt.estimated && !receipt.attributed then Err(UnattributedEstimate)
    else if Mismatch(b.requests.rows[q].channel, receipt.channel) then Err(ChannelMismatch)
    else if Sum(PartsOf(found), AmountOf()) != b.bills[q].reserved then Err(ProjectionMismatch)
    else
      var shares := Allocate(PartsOf(found), receipt.actual);
      if shares.None? then Err(NoSource)
      else
        var funds := SettleEach(b.funds, found, shares.value, c.wallet);
        if funds.Err? then Err(funds.error)
        else if LogOf(b.logs, q).Some? then Err(UsageConflict)
        else
          var plan := PlanConsumed(found, shares.value);
          Ok((funds.value, UsageLog(q, receipt.actual, plan, if plan > 0 then b.bills[q].subscription else None)))
  }

  /** The channel whose budget pays: the one the receipt names, or else the one that was reserved. */
  function PaidChannel(receipt: Receipt, row: Row): Option<nat> {
    if receipt.channel.Some? then receipt.channel else row.channel
  }

  function SettleStep(b: Books, c: Command): (Books, Reply)
    requires c.Settle?
  {
    var q := c.ticket.id;
    if c.receipt.None? then (b, Failed(BadReceipt))
    else if q >= |b.requests.rows| || q >= |b.bills| || !Accepts(b.requests.rows[q], c.ticket, c.now) then
      var log := LogOf(b.logs, q);
      (b, if log.Some? then AlreadySettled(b.logs[log.value].amount) else ClaimLost)
    else
      var row := b.requests.rows[q];
      var paid := ChargeStep(b, c);
      if paid.Err? then (b, Failed(paid.error))
      else
        var channels := ReleaseExposure(b.channels, row.channel, row.channelReserved);
        var (requests, answer) := Step(b.requests, Finalize(c.ticket, c.finishAt));
        if channels.Err? then (b, Failed(channels.error))
        else if answer != Touched([q]) then (b, Failed(StateChanged))
        else
          var (deducted, broken) :=
            Deduct(channels.value, PaidChannel(c.receipt.value, row), c.receipt.value.cost);
          (b.(requests := requests, funds := paid.value.0, channels := deducted, logs := b.logs + [paid.value.1]),
           SettledFor(c.receipt.value.actual, broken))
  }

  function WithSubs(b: Books, subs: Option<seq<Subscription>>): (Books, Reply) {
    if subs.None? then (b, NoMatch) else (b.(funds := b.funds.(subs := subs.value)), Done)
  }

  function WithChannels(b: Books, channels: Option<seq<Channel>>, missing: Reply): (Books, Reply) {
    if channels.None? then (b, missing) else (b.(channels := channels.value), Done)
  }

  function Do(b: Books, c: Command): (Books, Reply) {
    match c
    case Protocol(a) => (b.(requests := Step(b.requests, a).0), Done)
    case Authorize(_, _, _, _, _, _, _, _, _, _) => AuthorizeStep(b, c)
    case ReserveChannel(_, _, _, _) => ReserveStep(b, c)
    case Fail(_, _, _, wallet) => EndStep(b, FailAction(c), wallet)
    case Recover(id, kind, failure, now, wallet) => EndStep(b, RecoverOne(id, kind, failure, now), wallet)
    case AbandonCase(id, revision, now, wallet) => EndStep(b, AbandonDead(id, revision, now), wallet)
    case Settle(_, _, _, _, _) => SettleStep(b, c)
    case Subscribe(user, endAt, quota) =>
      (b.(funds := b.funds.(subs := b.funds.subs + [Subscription(user, endAt, 0, quota, 0, 0)])), Done)
    case AddQuota(id, quota) => WithSubs(b, TryAddQuota(b.funds.subs, id, quota))
    case EndSubscription(id, from, to) => WithSubs(b, CasStatus(b.funds.subs, id, from, to))
    case ExpireLapsedOf(user, now) => WithSubs(b, Some(ExpireLapsed(b.funds.subs, user, now)))
    case OpenChannel(budget, threshold, status) => (b.(channels := b.channels + [Channel(budget, 0, threshold, status)]), Done)
    case RechargeChannel(id, amount) => WithChannels(b, Recharge(b.channels, id, amount), Failed(ChannelMissing))
    case AdjustChannel(id, amount) => WithChannels(b, TryAdjust(b.channels, id, amount), NoMatch)
  }

  function RunAll(b: Books, commands: seq<Command>): Books {
    if commands == [] then b else Do(RunAll(b, commands[..|commands| - 1]), commands[|commands| - 1]).0
  }
}
