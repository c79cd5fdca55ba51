/** The counters, the reservation rows and the use cases over them, as they run: guarded statements one after the other,
    inside a transaction that is rolled back when one of them reports an error. */
module FundingService {
  import opened Options
  import opened Sums
  import opened Allocation
  import opened BillingRequests
  import opened BillingFencing
  import opened BillingRecovery
  import opened BillingRepository
  import opened Funding
  import opened FundingRecovery

  /** What the CHECK constraints on requests guarantee between transactions; every request has its money columns. */
  predicate WellFormed(b: Books) {
    (forall j :: 0 <= j < |b.requests.rows| ==> RowOk(b.requests.rows[j])) && |b.bills| == |b.requests.rows|
  }

  class FundingStore {
    const requests: BillingRequestRepository
    var bills: seq<Bill>
    var subs: seq<Subscription>
    var reservations: seq<Reservation>
    var channels: seq<Channel>
    var logs: seq<UsageLog>

    ghost function State(): Books
      reads this, requests
    {
      Books(requests.State(), bills, Funds(subs, reservations), channels, logs)
    }

    ghost predicate Valid()
      reads this, requests
    {
      WellFormed(State())
    }

    constructor ()
      ensures State() == NO_BOOKS && Valid() && fresh(requests)
    {
      requests := new BillingRequestRepository();
      bills, subs, reservations, channels, logs := [], [], [], [], [];
    }

    method Begin() returns (saved: Books)
      ensures saved == State()
    {
      saved := Books(Table(requests.rows, requests.nextToken), bills, Funds(subs, reservations), channels, logs);
    }

    method Rollback(saved: Books)
      modifies this, requests
      ensures State() == saved
    {
      requests.rows, requests.nextToken := saved.requests.rows, saved.requests.nextToken;
      bills, subs, reservations := saved.bills, saved.funds.subs, saved.funds.reservations;
      channels, logs := saved.channels, saved.logs;
    }

    // ---- subscription.repo.ts ----

    method ReserveQuota(id: nat, amount: int) returns (outcome: QuotaOutcome)
      modifies this`subs
      ensures (subs, outcome) == TryReserveQuota(old(subs), id, amount)
    {
      if id >= |subs| {
        return Inactive;
      }
      var s := subs[id];
      if s.status == 0 && s.quota - s.used - s.reserved >= amount {
        subs := subs[id := s.(reserved := s.reserved + amount)];
        return QuotaOk;
      }
      return if s.status != 0 then Inactive else Exhausted;
    }

    method SettleQuota(id: nat, reserved: int, consumed: int) returns (ok: bool)
      modifies this`subs
      ensures ok == TrySettleQuota(old(subs), id, reserved, consumed).Some?
      ensures subs == if ok then TrySettleQuota(old(subs), id, reserved, consumed).value else old(subs)
    {
      ok := false;
      if id < |subs| {
        var s := subs[id];
        if s.reserved >= reserved && s.used + consumed + (s.reserved - reserved) <= s.quota {
          subs := subs[id := s.(reserved := s.reserved - reserved, used := s.used + consumed)];
          ok := true;
        }
      }
    }

    method ReleaseQuota(id: nat, reserved: int) returns (ok: bool)
      modifies this`subs
      ensures ok == TryReleaseQuota(old(subs), id, reserved).Some?
      ensures subs == if ok then TryReleaseQuota(old(subs), id, reserved).value else old(subs)
    {
      ok := false;
      if id < |subs| && subs[id].reserved >= reserved {
        subs := subs[id := subs[id].(reserved := subs[id].reserved - reserved)];
        ok := true;
      }
    }

    method AddToQuota(id: nat, quota: int) returns (ok: bool)
      modifies this`subs
      ensures (State(), if ok then Done else NoMatch) == Do(old(State()), AddQuota(id, quota))
    {
      ok := false;
      if id < |subs| && subs[id].status == 0 {
        subs := subs[id := subs[id].(quota := subs[id].quota + quota)];
        ok := true;
      }
    }

    method ExpireLapsedSubscriptions(user: nat, now: int)
      modifies this`subs
      ensures (State(), Done) == Do(old(State()), ExpireLapsedOf(user, now))
    {
      var updated := [];
      for i := 0 to |subs|
        invariant updated == ExpireLapsed(subs[..i], user, now)
      {
        assert subs[..i + 1][..i] == subs[..i];
        var s := subs[i];
        updated := updated + [if s.user == user && s.status == 0 && s.endAt <= now then s.(status := 1) else s];
      }
      assert subs[..|subs|] == subs;
      subs := updated;
    }

    method CasTransitionStatus(id: nat, from: int, to: int) returns (ok: bool)
      modifies this`subs
      ensures (State(), if ok then Done else NoMatch) == Do(old(State()), EndSubscription(id, from, to))
    {
      ok := false;
      if id < |subs| && subs[id].status == from {
        subs := subs[id := subs[id].(status := to)];
        ok := true;
      }
    }

    // ---- channel.repo.ts ----

    /** The new figures, unless the guard did not match. */
    method IncreaseReserved(id: nat, delta: int) returns (updated: Option<Channel>)
      modifies this`channels
      ensures updated.Some? == TryIncreaseReserved(old(channels), id, delta).Some?
      ensures channels == if updated.Some? then TryIncreaseReserved(old(channels), id, delta).value else old(channels)
      ensures updated.Some? ==> id < |channels| && updated.value == channels[id]
    {
      if id >= |channels| || channels[id].budget - channels[id].reserved < delta {
        return None;
      }
      channels := channels[id := channels[id].(reserved := channels[id].reserved + delta)];
      return Some(channels[id]);
    }

    method DecreaseReserved(id: nat, amount: int) returns (ok: bool)
      modifies this`channels
      ensures ok == TryDecreaseReserved(old(channels), id, amount).Some?
      ensures channels == if ok then TryDecreaseReserved(old(channels), id, amount).value else old(channels)
    {
      ok := false;
      if id < |channels| && channels[id].reserved >= amount {
        channels := channels[id := channels[id].(reserved := channels[id].reserved - amount)];
        ok := true;
      }
    }

    method RechargeBudget(id: nat, amount: int) returns (reply: Reply)
      modifies this`channels
      ensures (State(), reply) == Do(old(State()), RechargeChannel(id, amount))
    {
      if id >= |channels| {
        return Failed(ChannelMissing);
      }
      var c := channels[id];
      channels := channels[id := c.(budget := c.budget + amount, status := if c.status == 3 then 0 else c.status)];
      return Done;
    }

    method AdjustBudget(id: nat, amount: int) returns (ok: bool)
      modifies this`channels
      ensures (State(), if ok then Done else NoMatch) == Do(old(State()), AdjustChannel(id, amount))
    {
      ok := false;
      if id < |channels| && channels[id].budget + amount >= 0 {
        channels := channels[id := channels[id].(budget := channels[id].budget + amount)];
        ok := true;
      }
    }

    method DeductBudgetAndMaybeBreak(id: Option<nat>, cost: int) returns (broken: bool)
      modifies this`channels
      ensures (channels, broken) == Deduct(old(channels), id, cost)
    {
      if id.None? || id.value >= |channels| {
        return false;
      }
      var i := id.value;
      var c := channels[i].(budget := channels[i].budget - cost);
      channels := channels[i := c];
      if c.budget <= Threshold(c) {
        if c.status == 0 {
          channels := channels[i := c.(status := 3)];
          assert channels == old(channels)[i := c.(status := 3)];
        }
        return true;
      }
      return false;
    }

    // ---- billing-reservation.repo.ts ----

    method InsertActive(request: nat, part: Part) returns (id: nat)
      modifies this`reservations
      ensures id == |old(reservations)| && reservations == old(reservations) + [Reservation(request, part, Active)]
    {
      id := |reservations|;
      reservations := reservations + [Reservation(request, part, Active)];
    }

    method FindActiveRows(request: nat, statuses: set<Status>) returns (found: seq<Found>)
      ensures found == FindActive(State(), request, statuses)
    {
      found := [];
      if request < |requests.rows| && requests.rows[request].status in statuses {
        for i := 0 to |reservations|
          invariant found == ActiveOf(reservations[..i], request)
        {
          assert reservations[..i + 1][..i] == reservations[..i];
          if reservations[i].request == request && reservations[i].holding == Active {
            found := found + [Found(i, reservations[i].part)];
          }
        }
        assert reservations[..|reservations|] == reservations;
      }
    }

    method MarkAs(id: nat, to: Holding) returns (ok: bool)
      modifies this`reservations
      ensures ok == Mark(Funds(subs, old(reservations)), id, to).Ok?
      ensures reservations == if ok then Mark(Funds(subs, old(reservations)), id, to).value.reservations else old(reservations)
    {
      ok := false;
      if id < |reservations| && reservations[id].holding == Active {
        reservations := reservations[id := reservations[id].(holding := to)];
        ok := true;
      }
    }

    // ---- funding/release.ts ----

    method ReleaseSource(x: Found, wallet: bool) returns (error: Option<Error>)
      modifies this`subs, this`reservations
      ensures match ReleaseOne(old(Funds(subs, reservations)), x, wallet)
              case Ok(f) => error == None && Funds(subs, reservations) == f
              case Err(e) => error == Some(e)
    {
      if x.part.source.Plan? {
        var ok := ReleaseQuota(x.part.source.subscription, x.part.amount);
        if !ok {
          return Some(ReleaseMissed);
        }
      } else if !wallet {
        return Some(WalletRefused);
      }
      var marked := MarkAs(x.id, Freed);
      return if marked then None else Some(AlreadyFinal);
    }

    method ReleaseChannel(channel: Option<nat>, reserved: Option<int>) returns (error: Option<Error>)
      modifies this`channels
      ensures match ReleaseExposure(old(channels), channel, reserved)
              case Ok(c) => error == None && channels == c
              case Err(e) => error == Some(e)
    {
      if channel.None? || reserved.None? {
        return None;
      }
      var ok := DecreaseReserved(channel.value, reserved.value);
      return if ok then None else Some(ExposureMissed);
    }

    method ReleaseSources(found: seq<Found>, wallet: bool) returns (error: Option<Error>, released: int)
      modifies this`subs, this`reservations
      ensures match ReleaseEach(old(Funds(subs, reservations)), found, wallet)
              case Ok(f) => error == None && Funds(subs, reservations) == f && released == Sum(PartsOf(found), AmountOf())
              case Err(e) => error == Some(e)
    {
      hide ReleaseOne;
      ghost var before := Funds(subs, reservations);
      released, error := 0, None;
      for i := 0 to |found|
        invariant ReleaseEach(before, found[..i], wallet) == Ok(Funds(subs, reservations))
        invariant released == Sum(PartsOf(found[..i]), AmountOf()) && error == None
      {
        assert found[..i + 1][..i] == found[..i];
        error := ReleaseSource(found[i], wallet);
        if error.Some? {
          FailsFrom(before, found, i + 1, wallet);
          return;
        }
        released := released + found[i].part.amount;
        assert PartsOf(found[..i + 1]) == PartsOf(found[..i]) + [found[i].part];
        SumPush(PartsOf(found[..i]), found[i].part, AmountOf());
      }
      assert found[..|found|] == found;
    }

    method ReleaseAllReservations(request: nat, wallet: bool) returns (error: Option<Error>)
      requires Valid() && request < |bills|
      modifies this`subs, this`reservations, this`channels
      ensures match ReleaseAll(old(State()), request, wallet)
              case Ok(b) => error == None && State() == b
              case Err(e) => error == Some(e)
    {
      hide ReleaseEach, FindActive, Sum, ReleaseExposure;
      var found := FindActiveRows(request, IN_FLIGHT_STATUSES + {Released});
      var released;
      error, released := ReleaseSources(found, wallet);
      if error.Some? {
        return;
      }
      if released != bills[request].reserved {
        return Some(ProjectionMismatch);
      }
      error := ReleaseChannel(requests.rows[request].channel, requests.rows[request].channelReserved);
    }

    /** What happens after the statement that released the request, and the rollback when something is missing. */
    method EndTransaction(ghost before: Books, ghost a: Action, saved: Books, answer: Answer, id: nat, wallet: bool)
      returns (reply: Reply)
      requires Valid() && saved == before && WellFormed(saved) && OneRow(a) && TargetOf(a) == id
      requires (requests.State(), answer) == Step(before.requests, a) && State() == before.(requests := requests.State())
      modifies this, requests
      ensures Valid() && (State(), reply) == EndStep(before, a, wallet)
    {
      hide Step, ReleaseAll, RowOk;
      if answer != Touched([id]) || id >= |requests.rows| {
        Rollback(saved);
        return NoMatch;
      }
      var error := ReleaseAllReservations(id, wallet);
      if error.Some? {
        Rollback(saved);
        return Failed(error.value);
      }
      return Done;
    }

    method SignalFailed(id: nat, reason: string, now: int, wallet: bool) returns (reply: Reply)
      requires Valid()
      modifies this, requests
      ensures (State(), reply) == Do(old(State()), Fail(id, reason, now, wallet))
    {
      var saved := Begin();
      ghost var a := FailAction(Fail(id, reason, now, wallet));
      StepLength(saved.requests, a);
      hide Step;
      var answer := requests.CasTransition(id, {Authorized, InFlight}, Released,
                                           Patch(Keep, Set(None), Keep, Keep, Set(Some(now)), Set(Some(reason))));
      reply := EndTransaction(saved, a, saved, answer, id, wallet);
    }

    method RecoverExpiredOne(id: nat, kind: Recovery, failure: string, now: int, wallet: bool) returns (reply: Reply)
      requires Valid()
      modifies this, requests
      ensures Valid() && (State(), reply) == Do(old(State()), Recover(id, kind, failure, now, wallet))
    {
      var saved := Begin();
      StepLength(saved.requests, RecoverOne(id, kind, failure, now));
      hide Step;
      var answer := requests.RecoverOneToReleased(id, kind, failure, now);
      reply := EndTransaction(saved, RecoverOne(id, kind, failure, now), saved, answer, id, wallet);
    }

    /** Lists without locks, then one transaction per row with its own clock reading; an error is noted and the loop goes
        on. */
    method ReleaseExpired(kind: Recovery, limit: nat, failure: string, listedAt: int, turns: nat -> Turn)
      returns (released: nat, faults: seq<Fault>)
      requires Valid()
      modifies this, requests
      ensures Valid()
      ensures var ids := Listed(old(requests.rows), kind, limit, listedAt);
              var replies := Replies(old(State()), ids, kind, failure, turns);
              && State() == AfterTurns(old(State()), ids, kind, failure, turns)
              && released == ReleasedIn(replies) && faults == FaultsIn(ids, replies)
    {
      hide Listed, Do, RecoverTurn, WellFormed, AfterTurns, Replies, ReleasedIn, FaultsIn;
      var ids := Listed(requests.rows, kind, limit, listedAt);
      ghost var before := State();
      released, faults := 0, [];
      assert ids[..0] == [];
      PassStart(before, kind, failure, turns);
      for i := 0 to |ids|
        invariant Valid() && State() == AfterTurns(before, ids[..i], kind, failure, turns)
        invariant released == ReleasedIn(Replies(before, ids[..i], kind, failure, turns))
        invariant faults == FaultsIn(ids[..i], Replies(before, ids[..i], kind, failure, turns))
      {
        PassNext(before, ids, i, kind, failure, turns);
        var reply := RecoverExpiredOne(ids[i], kind, failure, turns(i).now, turns(i).wallet);
        if reply == Done {
          released := released + 1;
        } else if reply.Failed? {
          faults := faults + [Fault(ids[i], reply.error)];
        }
      }
      assert ids[..|ids|] == ids;
    }

    /** One round of the worker: requests never dispatched, then requests of a crashed gateway, then expired claims. Each
        listing and each transaction reads its own clock. */
    method RecoverRound(batchSize: nat, listedAt: (int, int), turns: (nat -> Turn, nat -> Turn), requeueAt: int, skip: set<nat>)
      returns (released: nat, claimsRequeued: nat)
      requires Valid()
      modifies this, requests
      ensures var b := old(State());
              var expired := Listed(b.requests.rows, FromAuthorized, batchSize, listedAt.0);
              var c := AfterTurns(b, expired, FromAuthorized, "authorization_expired_before_dispatch", turns.0);
              var crashed := Listed(c.requests.rows, FromInFlight, batchSize, listedAt.1);
              var d := AfterTurns(c, crashed, FromInFlight, "gateway_crash_released", turns.1);
              var (t, answer) := Step(d.requests, RequeueExpired(batchSize, requeueAt, skip));
              && State() == d.(requests := t) && answer.Touched? && claimsRequeued == |answer.ids|
              && released ==
                 ReleasedIn(Replies(b, expired, FromAuthorized, "authorization_expired_before_dispatch", turns.0)) +
                 ReleasedIn(Replies(c, crashed, FromInFlight, "gateway_crash_released", turns.1))
    {
      hide Listed, AfterTurns, Replies, ReleasedIn, FaultsIn, Step;
      var expired, _ := ReleaseExpired(FromAuthorized, batchSize, "authorization_expired_before_dispatch", listedAt.0, turns.0);
      var crashed, _ := ReleaseExpired(FromInFlight, batchSize, "gateway_crash_released", listedAt.1, turns.1);
      var ids := requests.RequeueExpiredClaims(batchSize, requeueAt, skip);
      released, claimsRequeued := expired + crashed, |ids|;
    }

    method AbandonDeadCase(id: nat, revision: nat, now: int, wallet: bool) returns (reply: Reply)
      requires Valid()
      modifies this, requests
      ensures (State(), reply) == Do(old(State()), AbandonCase(id, revision, now, wallet))
    {
      var saved := Begin();
      StepLength(saved.requests, AbandonDead(id, revision, now));
      hide Step;
      var answer := requests.CasAbandonDead(id, revision, now);
      reply := EndTransaction(saved, AbandonDead(id, revision, now), saved, answer, id, wallet);
    }

    // ---- billing/authorize.ts ----

    method CommitFunding(request: nat, subscription: Option<nat>, plan: int, payg: int, wallet: bool)
      returns (error: Option<Error>)
      requires plan > 0 ==> subscription.Some?
      modifies this`subs, this`reservations
      ensures match Commit(old(Funds(subs, reservations)), request, subscription, plan, payg, wallet)
              case Ok(f) => error == None && Funds(subs, reservations) == f
              case Err(e) => error == Some(e)
    {
      if plan > 0 {
        var outcome := ReserveQuota(subscription.value, plan);
        if outcome != QuotaOk {
          return Some(if outcome == Inactive then PlanInactive else PlanExhausted);
        }
        var _ := InsertActive(request, Part(Plan(subscription.value), plan));
      }
      if payg > 0 {
        if !wallet {
          return Some(WalletRefused);
        }
        var _ := InsertActive(request, Part(Payg, payg));
      }
      return None;
    }

    method AuthorizeRequest(key: string, user: nat, createdAt: int, leaseUntil: int, nextAt: int, subscription: Option<nat>, amount: int,
                            planRoom: int, paygRoom: int, wallet: bool)
      returns (reply: Reply)
      requires Valid()
      modifies this, requests
      ensures (State(), reply) ==
              Do(old(State()), Authorize(key, user, createdAt, leaseUntil, nextAt, subscription, amount, planRoom, paygRoom, wallet))
    {
      hide Step;
      var saved := Begin();
      var isNew := requests.InsertAuthorized(key, createdAt, leaseUntil, nextAt);
      if !isNew {
        Rollback(saved);
        return Replayed;
      }
      var plan := PlanFunding(amount, subscription, planRoom, paygRoom);
      if plan.None? {
        Rollback(saved);
        return Failed(InsufficientBalance);
      }
      bills := bills + [Bill(user, plan.value.0 + plan.value.1, subscription)];
      var error := CommitFunding(|saved.requests.rows|, subscription, plan.value.0, plan.value.1, wallet);
      if error.Some? {
        Rollback(saved);
        return Failed(error.value);
      }
      return Done;
    }

    // ---- billing/reserve-channel.ts ----

    method Reserve(id: nat, seen: Seen, channel: nat, amount: int) returns (reply: Reply)
      requires Valid()
      modifies this, requests
      ensures (State(), reply) == Do(old(State()), ReserveChannel(id, seen, channel, amount))
    {
      hide Step;
      var saved := Begin();
      if amount < 0 {
        return Failed(InvalidAmount);
      }
      if id >= |requests.rows| {
        return Failed(RequestMissing);
      }
      if seen.status != Authorized && seen.status != InFlight {
        return Denied(0);
      }
      var same := seen.channel == Some(channel) && seen.reserved.Some?;
      var delta := if same then amount - seen.reserved.value else amount;
      if same && delta <= 0 {
        return Granted(0, false);
      }
      var raised := IncreaseReserved(channel, delta);
      if raised.None? {
        return Denied(if channel < |channels| then channels[channel].budget - channels[channel].reserved else 0);
      }
      if !same {
        var error := ReleaseChannel(seen.channel, seen.reserved);
        if error.Some? {
          Rollback(saved);
          return Failed(error.value);
        }
      }
      var answer := requests.CasClaimChannel(id, {Authorized, InFlight}, seen.channel, seen.reserved, channel, amount);
      if answer != Touched([id]) {
        Rollback(saved);
        return Failed(NotReservable);
      }
      return Granted(raised.value.budget - raised.value.reserved, !same && seen.channel.Some? && seen.reserved.Some?);
    }

    // ---- settlement/settle.ts ----

    method SettleSource(x: Found, share: Share, wallet: bool) returns (error: Option<Error>)
      modifies this`subs, this`reservations
      ensures match SettleOne(old(Funds(subs, reservations)), x, share, wallet)
              case Ok(f) => error == None && Funds(subs, reservations) == f
              case Err(e) => error == Some(e)
    {
      if x.part.source.Plan? {
        var ok := SettleQuota(x.part.source.subscription, x.part.amount, share.consume);
        if !ok {
          return Some(SettleMissed);
        }
        if share.over > 0 && !wallet {
          return Some(WalletRefused);
        }
      } else if !wallet {
        return Some(WalletRefused);
      }
      var marked := MarkAs(x.id, Charged);
      return if marked then None else Some(AlreadyFinal);
    }

    method SettleSources(found: seq<Found>, shares: seq<Share>, wallet: bool) returns (error: Option<Error>, planConsume: int)
      requires |shares| == |found|
      modifies this`subs, this`reservations
      ensures match SettleEach(old(Funds(subs, reservations)), found, shares, wallet)
              case Ok(f) => error == None && Funds(subs, reservations) == f && planConsume == PlanConsumed(found, shares)
              case Err(e) => error == Some(e)
    {
      ghost var before := Funds(subs, reservations);
      planConsume, error := 0, None;
      for i := 0 to |found|
        invariant SettleEach(before, found[..i], shares[..i], wallet) == Ok(Funds(subs, reservations))
        invariant planConsume == PlanConsumed(found[..i], shares[..i]) && error == None
      {
        assert found[..i + 1][..i] == found[..i] && shares[..i + 1][..i] == shares[..i];
        error := SettleSource(found[i], shares[i], wallet);
        if error.Some? {
          SettlingFailsFrom(before, found, shares, i + 1, wallet);
          return;
        }
        if found[i].part.source.Plan? {
          planConsume := planConsume + shares[i].consume;
        }
      }
      assert found[..|found|] == found && shares[..|found|] == shares;
    }

    /** The log of a request, if there is one. */
    method FindLog(request: nat) returns (log: Option<nat>)
      ensures log == LogOf(logs, request)
    {
      log := None;
      for i := 0 to |logs|
        invariant log == LogOf(logs[..i], request)
      {
        assert logs[..i + 1][..i] == logs[..i];
        if logs[i].request == request {
          log := Some(i);
        }
      }
      assert logs[..|logs|] == logs;
    }

    /** Charging all sources and writing the usage log. */
    method Charge(k: Ticket, receipt: Receipt, now: int, finishAt: int, wallet: bool) returns (error: Option<Error>)
      requires Valid() && k.id < |bills|
      modifies this`subs, this`reservations, this`logs
      ensures match ChargeStep(old(State()), Settle(k, Some(receipt), now, finishAt, wallet))
              case Ok(paid) => error == None && State() == old(State()).(funds := paid.0, logs := old(logs) + [paid.1])
              case Err(e) => error == Some(e)
    {
      hide Sum, Allocate, SettleEach, LogOf, FindActive, PlanConsumed;
      var row := requests.rows[k.id];
      if bills[k.id].user != receipt.user {
        return Some(UserMismatch);
      }
      if receipt.estimated && !receipt.attributed {
        return Some(UnattributedEstimate);
      }
      if row.channel.Some? && receipt.channel.Some? && row.channel.value != receipt.channel.value {
        return Some(ChannelMismatch);
      }
      var found := FindActiveRows(k.id, IN_FLIGHT_STATUSES);
      var total := TotalOf(found);
      if total != bills[k.id].reserved {
        return Some(ProjectionMismatch);
      }
      var shares := AllocateSettlement(PartsOf(found), receipt.actual);
      if shares.None? {
        return Some(NoSource);
      }
      var planConsume;
      error, planConsume := SettleSources(found, shares.value, wallet);
      if error.Some? {
        return;
      }
      var prior := FindLog(k.id);
      if prior.Some? {
        return Some(UsageConflict);
      }
      logs := logs + [UsageLog(k.id, receipt.actual, planConsume, if planConsume > 0 then bills[k.id].subscription else None)];
    }

    method TotalOf(found: seq<Found>) returns (total: int)
      ensures total == Sum(PartsOf(found), AmountOf())
    {
      total := 0;
      for i := 0 to |found|
        invariant total == Sum(PartsOf(found[..i]), AmountOf())
      {
        assert PartsOf(found[..i + 1]) == PartsOf(found[..i]) + [found[i].part];
        SumPush(PartsOf(found[..i]), found[i].part, AmountOf());
        total := total + found[i].part.amount;
      }
      assert found[..|found|] == found;
    }

    /** `decoded` is the receipt, unless decoding it failed. */
    method SettleClaim(k: Ticket, decoded: Option<Receipt>, now: int, finishAt: int, wallet: bool) returns (reply: Reply)
      requires Valid()
      modifies this, requests
      ensures (State(), reply) == Do(old(State()), Settle(k, decoded, now, finishAt, wallet))
    {
      hide Step, ChargeStep;
      if decoded.None? {
        return Failed(BadReceipt);
      }
      var receipt := decoded.value;
      var saved := Begin();
      if k.id >= |requests.rows| || !Accepts(requests.rows[k.id], k, now) {
        var prior := FindLog(k.id);
        return if prior.Some? then AlreadySettled(logs[prior.value].amount) else ClaimLost;
      }
      var row := requests.rows[k.id];
      var error := Charge(k, receipt, now, finishAt, wallet);
      if error.Some? {
        Rollback(saved);
        return Failed(error.value);
      }
      error := ReleaseChannel(row.channel, row.channelReserved);
      if error.Some? {
        Rollback(saved);
        return Failed(error.value);
      }
      var answer := requests.CasFinalizeSettled(k, finishAt);
      if answer != Touched([k.id]) {
        Rollback(saved);
        return Failed(StateChanged);
      }
      var broken := DeductBudgetAndMaybeBreak(if receipt.channel.Some? then receipt.channel else row.channel, receipt.cost);
      return SettledFor(receipt.actual, broken);
    }
  }

  /** A loop that stops at the first error stops with the error of the whole loop. */
  lemma {:induction false} FailsFrom(f: Funds, found: seq<Found>, n: nat, wallet: bool)
    requires n <= |found| && ReleaseEach(f, found[..n], wallet).Err?
    ensures ReleaseEach(f, found, wallet) == ReleaseEach(f, found[..n], wallet)
    decreases |found| - n
  {
    if n == |found| {
      assert found[..n] == found;
    } else {
      assert found[..n + 1][..n] == found[..n];
      FailsFrom(f, found, n + 1, wallet);
    }
  }

  lemma {:induction false} SettlingFailsFrom(f: Funds, found: seq<Found>, shares: seq<Share>, n: nat, wallet: bool)
    requires |shares| == |found| && n <= |found| && SettleEach(f, found[..n], shares[..n], wallet).Err?
    ensures SettleEach(f, found, shares, wallet) == SettleEach(f, found[..n], shares[..n], wallet)
    decreases |found| - n
  {
    if n == |found| {
      assert found[..n] == found && shares[..n] == shares;
    } else {
      assert found[..n + 1][..n] == found[..n] && shares[..n + 1][..n] == shares[..n];
      SettlingFailsFrom(f, found, shares, n + 1, wallet);
    }
  }
}
