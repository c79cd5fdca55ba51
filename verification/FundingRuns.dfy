/** Runs: any sequence of authorizations, channel moves, releases, settlements and maintenance, in any interleaving with
    the steps of the request protocol. */
module FundingRuns {
  import opened Options
  import opened Sums
  import opened Allocation
  import opened BillingRequests
  import opened BillingFencing
  import opened BillingRecovery
  import opened Funding
  import opened FundingBalance
  import opened FundingLaws
  import opened FundingSettlement
  import opened FundingWallet

  // ---- funding a new request ----

  function Added(q: nat, sub: Option<nat>, plan: int, payg: int): seq<Reservation>
    requires plan > 0 ==> sub.Some?
  {
    (if plan > 0 then [Reservation(q, Part(Plan(sub.value), plan), Active)] else []) +
    (if payg > 0 then [Reservation(q, Part(Payg, payg), Active)] else [])
  }

  /** A new row that holds what its subscription's counter was raised by keeps the counters right. */
  lemma {:induction false} PushKeeps(f: Funds, subs: seq<Subscription>, r: Reservation)
    requires FundsOk(f) && r.holding == Active && r.part.amount > 0
    requires r.part.source.Plan? ==> TryReserveQuota(f.subs, r.part.source.subscription, r.part.amount) == (subs, QuotaOk)
    requires r.part.source.Payg? ==> subs == f.subs
    ensures FundsOk(Funds(subs, f.reservations + [r])) && SameUse(f, Funds(subs, f.reservations + [r]))
  {
    var g := Funds(subs, f.reservations + [r]);
    forall k | 0 <= k < |subs| ensures SubOk(g, k) {
      assert SubOk(f, k);
      SumPush(f.reservations, r, HeldOn(k));
    }
  }

  lemma {:induction false} CommitWorks(f: Funds, q: nat, sub: Option<nat>, plan: int, payg: int, wallet: bool)
    requires FundsOk(f) && (plan > 0 ==> sub.Some?)
    ensures var g := Commit(f, q, sub, plan, payg, wallet);
            g.Ok? ==> FundsOk(g.value) && SameUse(f, g.value) && g.value.reservations == f.reservations + Added(q, sub, plan, payg)
  {
    if Commit(f, q, sub, plan, payg, wallet).Ok? {
      var g := Commit(f, q, sub, plan, 0, true).value;
      if plan > 0 {
        PushKeeps(f, g.subs, Reservation(q, Part(Plan(sub.value), plan), Active));
      }
      if payg > 0 {
        PushKeeps(g, g.subs, Reservation(q, Part(Payg, payg), Active));
      }
      hide FundsOk;
    }
  }

  /** What the new rows hold: for their own request all they add up to, for others nothing. */
  lemma {:induction false} AddedSums(before: seq<Reservation>, q: nat, sub: Option<nat>, plan: int, payg: int, p: nat)
    requires plan > 0 ==> sub.Some?
    ensures Sum(before + Added(q, sub, plan, payg), HeldBy(p)) ==
            Sum(before, HeldBy(p)) + if p == q then Max(plan, 0) + Max(payg, 0) else 0
  {
    var rest := if plan > 0 then before + [Reservation(q, Part(Plan(sub.value), plan), Active)] else before;
    if plan > 0 {
      SumPush(before, Reservation(q, Part(Plan(sub.value), plan), Active), HeldBy(p));
    }
    if payg > 0 {
      SumPush(rest, Reservation(q, Part(Payg, payg), Active), HeldBy(p));
      assert before + Added(q, sub, plan, payg) == rest + [Reservation(q, Part(Payg, payg), Active)];
    } else {
      assert before + Added(q, sub, plan, payg) == rest;
    }
  }

  lemma {:induction false} NoneHeldYet(b: Books)
    requires OwnersOk(b)
    ensures Sum(b.funds.reservations, HeldBy(|b.requests.rows|)) == 0
  {
    forall i | 0 <= i < |b.funds.reservations| ensures HeldBy(|b.requests.rows|)(b.funds.reservations[i]) == 0 {
      assert OwnerOk(b, b.funds.reservations[i]);
    }
    SumZero(b.funds.reservations, HeldBy(|b.requests.rows|));
  }

  /** The books with one more request and its reservations. */
  function Opened(b: Books, row: Row, bill: Bill, g: Funds): Books {
    b.(requests := b.requests.(rows := b.requests.rows + [row]), bills := b.bills + [bill], funds := g)
  }

  lemma {:induction false} OpenedOwners(b: Books, row: Row, sub: Option<nat>, plan: int, payg: int, g: Funds, user: nat)
    requires OwnersOk(b) && BillsOk(b) && !Ended(row.status) && (plan > 0 ==> sub.Some?)
    requires g.reservations == b.funds.reservations + Added(|b.requests.rows|, sub, plan, payg)
    ensures var e := Opened(b, row, Bill(user, Max(plan, 0) + Max(payg, 0), sub), g);
            OwnersOk(e) && BillsOk(e)
  {
    var q := |b.requests.rows|;
    var e := Opened(b, row, Bill(user, Max(plan, 0) + Max(payg, 0), sub), g);
    forall i | 0 <= i < |g.reservations| ensures OwnerOk(e, g.reservations[i]) {
      if i < |b.funds.reservations| {
        assert OwnerOk(b, b.funds.reservations[i]);
      }
    }
    NoneHeldYet(b);
    forall p | 0 <= p < |e.bills| && !Ended(e.requests.rows[p].status)
      ensures e.bills[p].reserved == Sum(g.reservations, HeldBy(p))
    {
      AddedSums(b.funds.reservations, q, sub, plan, payg, p);
    }
  }

  lemma {:induction false} OpenedLogs(b: Books, row: Row, bill: Bill, g: Funds)
    requires LogsOk(b) && row.status != Settled && SameUse(b.funds, g)
    ensures LogsOk(Opened(b, row, bill, g))
  {
    forall i | 0 <= i < |b.logs| ensures LogOk(Opened(b, row, bill, g), b.logs[i]) {
      assert LogOk(b, b.logs[i]);
    }
  }

  lemma {:induction false} OpenedChannels(rows: seq<Row>, channels: seq<Channel>, row: Row)
    requires ChannelsOk(rows, channels) && row.channel.None?
    ensures ChannelsOk(rows + [row], channels)
  {
    forall c | 0 <= c < |channels| ensures channels[c].reserved == Sum(rows + [row], Exposure(c)) {
      SumPush(rows, row, Exposure(c));
    }
  }

  lemma {:induction false} AuthorizeKeeps(b: Books, c: Command)
    requires Balanced(b) && c.Authorize?
    ensures Balanced(AuthorizeStep(b, c).0)
  {
    hide Step, FundsOk, ChannelsOk, OwnersOk, BillsOk, LogsOk, Good, Commit;
    var a := Insert(c.key, c.createdAt, c.leaseUntil, c.nextAt);
    StepKeepsGood(b.requests, a);
    StepLength(b.requests, a);
    var plan := PlanFunding(c.amount, c.subscription, c.planRoom, c.paygRoom);
    if Step(b.requests, a).1 == Inserted(true) && plan.Some? {
      CommitWorks(b.funds, |b.requests.rows|, c.subscription, plan.value.0, plan.value.1, c.wallet);
      var funds := Commit(b.funds, |b.requests.rows|, c.subscription, plan.value.0, plan.value.1, c.wallet);
      if funds.Ok? {
        OpenedOwners(b, NewRow(a), c.subscription, plan.value.0, plan.value.1, funds.value, c.user);
        OpenedLogs(b, NewRow(a), Bill(c.user, plan.value.0 + plan.value.1, c.subscription), funds.value);
        OpenedChannels(b.requests.rows, b.channels, NewRow(a));
      }
    }
  }

  // ---- what the sources are asked for ----

  /** Where the sources report no negative room, a funded request reserves exactly what it asked for, and it is refused
      exactly when all sources together fall short. */
  lemma {:induction false} PlanIsExact(amount: int, sub: Option<nat>, planRoom: int, paygRoom: int)
    requires amount >= 0 && planRoom >= 0
    ensures var r := PlanFunding(amount, sub, planRoom, paygRoom);
            && (r.None? <==> amount > (if sub.Some? then Min(planRoom, amount) else 0) + Max(paygRoom, 0))
            && (r.Some? ==> r.value.0 + r.value.1 == amount && 0 <= r.value.0 <= Max(planRoom, 0) && 0 <= r.value.1)
            && (r.Some? && r.value.1 > 0 ==> r.value.1 <= paygRoom && r.value.0 == if sub.Some? then planRoom else 0)
  {
  }

  // ---- maintenance of subscriptions and channels ----

  /** Changes of status, and larger quotas, keep the books balanced. */
  lemma {:induction false} SubsKeep(b: Books, subs: seq<Subscription>)
    requires Balanced(b) && |subs| == |b.funds.subs|
    requires forall k :: 0 <= k < |subs| ==>
               subs[k].used == b.funds.subs[k].used && subs[k].reserved == b.funds.subs[k].reserved &&
               subs[k].quota >= b.funds.subs[k].quota
    ensures Balanced(b.(funds := b.funds.(subs := subs)))
  {
    var e := b.(funds := b.funds.(subs := subs));
    hide Good, ChannelsOk, Sum;
    forall k | 0 <= k < |subs| ensures SubOk(e.funds, k) {
      assert SubOk(b.funds, k);
    }
    forall i | 0 <= i < |b.funds.reservations| ensures OwnerOk(e, e.funds.reservations[i]) {
      assert OwnerOk(b, b.funds.reservations[i]);
    }
    forall i | 0 <= i < |b.logs| ensures LogOk(e, b.logs[i]) {
      assert LogOk(b, b.logs[i]);
    }
  }

  lemma {:induction false} ExpiredAt(subs: seq<Subscription>, user: nat, now: int, k: nat)
    requires k < |subs|
    ensures ExpireLapsed(subs, user, now)[k] == Lapsed(subs[k], user, now)
  {
    if k < |subs| - 1 {
      ExpiredAt(subs[..|subs| - 1], user, now, k);
    }
  }

  /** No row holds anything on, or was charged to, a subscription that does not exist yet. */
  lemma {:induction false} NewSubscription(b: Books, s: Subscription)
    requires Balanced(b) && s.used == 0 && s.reserved == 0 && s.quota >= 0
    ensures Balanced(b.(funds := b.funds.(subs := b.funds.subs + [s])))
  {
    var n := |b.funds.subs|;
    var e := b.(funds := b.funds.(subs := b.funds.subs + [s]));
    hide Good, ChannelsOk;
    forall i | 0 <= i < |b.logs| ensures LogOk(e, b.logs[i]) && UsedOn(n)(b.logs[i]) == 0 {
      assert LogOk(b, b.logs[i]);
    }
    SumZero(b.logs, UsedOn(n));
    SumZero(b.funds.reservations, HeldOn(n));
    hide Sum;
    forall k | 0 <= k < |e.funds.subs| ensures SubOk(e.funds, k) {
      assert k < n ==> SubOk(b.funds, k);
    }
    forall i | 0 <= i < |b.funds.reservations| ensures OwnerOk(e, e.funds.reservations[i]) {
      assert OwnerOk(b, b.funds.reservations[i]);
    }
  }

  /** Budgets and switches may change at any time; reservations do not depend on them. */
  lemma {:induction false} ChannelsKeep(b: Books, channels: seq<Channel>)
    requires Balanced(b) && |channels| == |b.channels|
    requires forall c :: 0 <= c < |channels| ==> channels[c].reserved == b.channels[c].reserved
    ensures Balanced(b.(channels := channels))
  {
    ChannelsAside(b, channels);
    hide Good, FundsOk, OwnersOk, BillsOk, LogsOk, Sum;
  }

  lemma {:induction false} NewChannel(b: Books, channel: Channel)
    requires Balanced(b) && channel.reserved == 0
    ensures Balanced(b.(channels := b.channels + [channel]))
  {
    var rows, n := b.requests.rows, |b.channels|;
    ChannelsAside(b, b.channels + [channel]);
    hide Good, FundsOk, OwnersOk, BillsOk, LogsOk;
    forall j | 0 <= j < |rows| ensures Exposure(n)(rows[j]) == 0 && ExposureOk(rows[j], n + 1) {
      assert ExposureOk(rows[j], n);
    }
    SumZero(rows, Exposure(n));
  }

  lemma {:induction false} MaintenanceKeeps(b: Books, c: Command)
    requires Balanced(b) && Wired(c)
    requires c.Subscribe? || c.AddQuota? || c.EndSubscription? || c.ExpireLapsedOf? || c.OpenChannel? || c.RechargeChannel? ||
             c.AdjustChannel?
    ensures Balanced(Do(b, c).0)
  {
    hide Balanced;
    match c
    case Subscribe(user, endAt, quota) => NewSubscription(b, Subscription(user, endAt, 0, quota, 0, 0));
    case AddQuota(id, quota) =>
      if TryAddQuota(b.funds.subs, id, quota).Some? {
        SubsKeep(b, TryAddQuota(b.funds.subs, id, quota).value);
      }
    case EndSubscription(id, from, to) =>
      if CasStatus(b.funds.subs, id, from, to).Some? {
        SubsKeep(b, CasStatus(b.funds.subs, id, from, to).value);
      }
    case ExpireLapsedOf(user, now) =>
      var subs := ExpireLapsed(b.funds.subs, user, now);
      forall k | 0 <= k < |subs| ensures subs[k] == Lapsed(b.funds.subs[k], user, now) {
        ExpiredAt(b.funds.subs, user, now, k);
      }
      SubsKeep(b, subs);
    case OpenChannel(budget, threshold, status) => NewChannel(b, Channel(budget, 0, threshold, status));
    case RechargeChannel(id, amount) =>
      if Recharge(b.channels, id, amount).Some? {
        ChannelsKeep(b, Recharge(b.channels, id, amount).value);
      }
    case AdjustChannel(id, amount) =>
      if TryAdjust(b.channels, id, amount).Some? {
        ChannelsKeep(b, TryAdjust(b.channels, id, amount).value);
      }
  }

  // ---- every command, every run ----

  lemma {:induction false} DoKeeps(b: Books, c: Command)
    requires Balanced(b) && Wired(c)
    ensures Balanced(Do(b, c).0)
  {
    hide Balanced, Step, ReserveStep, SettleStep, EndStep, AuthorizeStep;
    match c
    case Protocol(a) => NeutralKeeps(b, a);
    case Authorize(_, _, _, _, _, _, _, _, _, _) => AuthorizeKeeps(b, c);
    case ReserveChannel(_, _, _, _) => ReserveKeeps(b, c);
    case Fail(_, _, _, wallet) => EndKeeps(b, FailAction(c), wallet);
    case Recover(id, kind, failure, now, wallet) => EndKeeps(b, RecoverOne(id, kind, failure, now), wallet);
    case AbandonCase(id, revision, now, wallet) => EndKeeps(b, AbandonDead(id, revision, now), wallet);
    case Settle(_, _, _, _, _) => SettleKeeps(b, c);
    case _ => MaintenanceKeeps(b, c);
  }

  predicate AllWired(commands: seq<Command>) {
    forall i :: 0 <= i < |commands| ==> Wired(commands[i])
  }

  lemma {:induction false} RunOnKeeps(b: Books, commands: seq<Command>)
    requires Balanced(b) && AllWired(commands)
    ensures Balanced(RunAll(b, commands))
  {
    hide Balanced, Do;
    if commands != [] {
      RunOnKeeps(b, commands[..|commands| - 1]);
      DoKeeps(RunAll(b, commands[..|commands| - 1]), commands[|commands| - 1]);
    }
  }

  lemma {:induction false} RunKeepsBalanced(commands: seq<Command>)
    requires AllWired(commands)
    ensures Balanced(RunAll(NO_BOOKS, commands))
  {
    hide RunAll, Do;
    RunOnKeeps(NO_BOOKS, commands);
  }

  /** After every run: a subscription has reserved what its active rows hold and used what the usage logs charge it, both
      within its quota; a channel has reserved what the requests that have not ended hold on it; a request holds what
      it was billed as reserving until it ends, and nothing afterwards. */
  lemma {:induction false} CountersMatchRows(commands: seq<Command>)
    requires AllWired(commands)
    ensures var b := RunAll(NO_BOOKS, commands);
            && |b.bills| == |b.requests.rows|
            && (forall k :: 0 <= k < |b.funds.subs| ==>
                  b.funds.subs[k].reserved == Sum(b.funds.reservations, HeldOn(k)) &&
                  b.funds.subs[k].used == Sum(b.logs, UsedOn(k)) &&
                  0 <= b.funds.subs[k].used && 0 <= b.funds.subs[k].reserved &&
                  b.funds.subs[k].used + b.funds.subs[k].reserved <= b.funds.subs[k].quota)
            && (forall c :: 0 <= c < |b.channels| ==> b.channels[c].reserved == Sum(b.requests.rows, Exposure(c)))
            && (forall q :: 0 <= q < |b.bills| ==>
                  Sum(b.funds.reservations, HeldBy(q)) ==
                  if Ended(b.requests.rows[q].status) then 0 else b.bills[q].reserved)
            && (forall q :: 0 <= q < |b.bills| ==> (LogOf(b.logs, q).Some? <==> b.requests.rows[q].status == Settled))
  {
    RunKeepsBalanced(commands);
    var b := RunAll(NO_BOOKS, commands);
    hide RunAll;
    forall k | 0 <= k < |b.funds.subs| ensures SubOk(b.funds, k) && b.funds.subs[k].reserved >= 0 {
      assert SubOk(b.funds, k);
      SumCovers(b.funds.reservations, HeldOn(k));
    }
    forall q | 0 <= q < |b.bills| && Ended(b.requests.rows[q].status) ensures Sum(b.funds.reservations, HeldBy(q)) == 0 {
      forall i | 0 <= i < |b.funds.reservations| ensures HeldBy(q)(b.funds.reservations[i]) == 0 {
        assert OwnerOk(b, b.funds.reservations[i]);
      }
      SumZero(b.funds.reservations, HeldBy(q));
    }
    forall q | 0 <= q < |b.bills| && LogOf(b.logs, q).Some? ensures b.requests.rows[q].status == Settled {
      assert LogOk(b, b.logs[LogOf(b.logs, q).value]);
    }
  }

  function EndAction(c: Command): Action
    requires c.Fail? || c.Recover? || c.AbandonCase?
  {
    match c
    case Fail(_, _, _, _) => FailAction(c)
    case Recover(id, kind, failure, now, _) => RecoverOne(id, kind, failure, now)
    case AbandonCase(id, revision, now, _) => AbandonDead(id, revision, now)
  }

  lemma {:induction false} EndMatches(t: Table, c: Command)
    requires Good(t) && (c.Fail? || c.Recover? || c.AbandonCase?)
    ensures var a := EndAction(c);
            Releases(a) && (Step(t, a).1 == Touched([c.id]) <==> c.id < |t.rows| && Guard(a, c.id, t.rows[c.id]))
  {
    hide Step;
    var a := EndAction(c);
    OneRowStep(t, a);
    assert c.id < |t.rows| ==> RowOk(t.rows[c.id]);
    var none: seq<nat>, one: seq<nat> := [], [c.id];
    assert |none| != |one|;
  }

  lemma {:induction false} EndingAnswers(b: Books, c: Command)
    requires Balanced(b) && (c.Fail? || c.Recover? || c.AbandonCase?)
    ensures Do(b, c) == EndStep(b, EndAction(c), c.wallet)
    ensures var matched := c.id < |b.requests.rows| && Guard(EndAction(c), c.id, b.requests.rows[c.id]);
            Do(b, c).1 ==
            if !matched then NoMatch
            else if c.wallet || !PaygHeld(b.funds.reservations, c.id) then Done
            else Failed(WalletRefused)
  {
    EndMatches(b.requests, c);
    hide Balanced, Guard, Releases, Step, EndStep, FailAction, PaygHeld;
    EndAnswers(b, EndAction(c), c.wallet);
    assert Do(b, c) == EndStep(b, EndAction(c), c.wallet);
  }

  /** After every run, ending a request by failure, recovery or review ends it and gives everything back exactly when the
      request is in the right state and the wallet, if it holds a part of it, does its own part; only the wallet can make
      it fail. What happened to the subscription or the channel does not matter. */
  lemma {:induction false} EndingFailsIff(commands: seq<Command>, c: Command)
    requires AllWired(commands) && (c.Fail? || c.Recover? || c.AbandonCase?)
    ensures var b := RunAll(NO_BOOKS, commands);
            var matched := c.id < |b.requests.rows| && Guard(EndAction(c), c.id, b.requests.rows[c.id]);
            Do(b, c).1 ==
            if !matched then NoMatch
            else if c.wallet || !PaygHeld(b.funds.reservations, c.id) then Done
            else Failed(WalletRefused)
  {
    RunKeepsBalanced(commands);
    hide Balanced, RunAll, Do, Guard, PaygHeld;
    EndingAnswers(RunAll(NO_BOOKS, commands), c);
  }

  /** After every run, a settlement with a valid claim fails exactly in ways a caller can foresee: the receipt is not
      readable or not chargeable, the claim runs out before the final statement, or the wallet refuses a part that it
      holds or an overage that falls to it. */
  lemma {:induction false} SettlingFailsIff(commands: seq<Command>, c: Command)
    requires AllWired(commands) && c.Settle?
    requires var b := RunAll(NO_BOOKS, commands);
             c.ticket.id < |b.requests.rows| && Accepts(b.requests.rows[c.ticket.id], c.ticket, c.now)
    ensures var b := RunAll(NO_BOOKS, commands);
            |b.bills| == |b.requests.rows| &&
            (Do(b, c).1.Failed? <==>
             c.receipt.None? || !Chargeable(b, c) || !Accepts(b.requests.rows[c.ticket.id], c.ticket, c.finishAt) ||
             (!c.wallet && CallsWallet(b, c)))
  {
    hide RunAll, Chargeable, CallsWallet, SettleStep, Good, FundsOk, OwnersOk, ChannelsOk, LogsOk;
    RunKeepsBalanced(commands);
    SettleAnswers(RunAll(NO_BOOKS, commands), c);
  }

  /** After every run, an active row can always be settled for up to what it reserved plus what its subscription has left,
      and for no more. */
  lemma {:induction false} SettleGuardIff(commands: seq<Command>, i: nat, consumed: int)
    requires AllWired(commands)
    requires var f := RunAll(NO_BOOKS, commands).funds;
             i < |f.reservations| && f.reservations[i].holding == Active && f.reservations[i].part.source.Plan?
    ensures var f := RunAll(NO_BOOKS, commands).funds;
            var p := f.reservations[i].part;
            p.source.subscription < |f.subs| &&
            var s := f.subs[p.source.subscription];
            && s.quota - s.used - s.reserved >= 0 && TryReleaseQuota(f.subs, p.source.subscription, p.amount).Some?
            && (TrySettleQuota(f.subs, p.source.subscription, p.amount, consumed).Some? <==>
                consumed <= p.amount + (s.quota - s.used - s.reserved))
  {
    RunKeepsBalanced(commands);
    var f := RunAll(NO_BOOKS, commands).funds;
    GuardsPassIff(f, i, consumed);
    assert SubOk(f, f.reservations[i].part.source.subscription);
  }
}
