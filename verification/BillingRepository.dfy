/** The repository of billing requests: one method per statement, changing the rows in place. */
module BillingRepository {
  import opened Options
  import opened OrderedQuery
  import opened BillingRequests
  import opened BillingFencing
  import opened BillingRecovery

  class BillingRequestRepository {
    var rows: seq<Row>
    var nextToken: nat

    ghost function State(): Table
      reads this
    {
      Table(rows, nextToken)
    }

    /** What the CHECK constraints of the table guarantee between statements. */
    ghost predicate Valid()
      reads this
    {
      forall j :: 0 <= j < |rows| ==> RowOk(rows[j])
    }

    constructor ()
      ensures State() == EMPTY && Valid()
    {
      rows, nextToken := [], 0;
    }

    /** Writes one row, unless a CHECK constraint refuses it. */
    method Write(id: nat, r: Row) returns (answer: Answer)
      requires id < |rows| && Valid()
      modifies this`rows
      ensures Valid()
      ensures rows == if RowOk(r) then old(rows)[id := r] else old(rows)
      ensures answer == if RowOk(r) then Touched([id]) else CheckViolation
    {
      if (r.status == Processing) != r.claim.Some? {
        return CheckViolation;
      }
      if (r.status == SettlementPending || r.status == Processing || r.status == RetryWait || r.status == Settled ||
          r.status == Dead) && r.receipt.None?
      {
        return CheckViolation;
      }
      rows := rows[id := r];
      return Touched([id]);
    }

    method InsertAuthorized(key: string, createdAt: int, leaseUntil: int, nextAt: int) returns (isNew: bool)
      requires Valid()
      modifies this`rows
      ensures Valid()
      ensures State() == Step(old(State()), Insert(key, createdAt, leaseUntil, nextAt)).0
      ensures Inserted(isNew) == Step(old(State()), Insert(key, createdAt, leaseUntil, nextAt)).1
    {
      if FindKey(rows, key).Some? {
        return false;
      }
      rows := rows + [Row(key, createdAt, Authorized, 0, None, Some(leaseUntil), None, None, 0, Some(nextAt), None, None, None,
                          None, None, None, None)];
      return true;
    }

    // ---- signals ----

    method CasTransition(id: nat, from: set<Status>, to: Status, patch: Patch) returns (answer: Answer)
      requires Valid()
      modifies this`rows
      ensures Valid()
      ensures (State(), answer) == Step(old(State()), Transition(id, from, to, patch))
    {
      hide Step, RowOk;
      OneRowStep(State(), Transition(id, from, to, patch));
      if id >= |rows| || rows[id].status !in from {
        return Touched([]);
      }
      var r := rows[id];
      var leaseUntil, receipt := Patched(patch.leaseUntil, r.leaseUntil), Patched(patch.receipt, r.receipt);
      r := r.(status := to, revision := r.revision + 1, leaseOwner := Patched(patch.leaseOwner, r.leaseOwner),
              leaseUntil := leaseUntil, receipt := receipt, nextAt := Patched(patch.nextAt, r.nextAt),
              releasedAt := Patched(patch.releasedAt, r.releasedAt), failure := Patched(patch.failure, r.failure));
      answer := Write(id, r);
    }

    /** The first start is kept: repeating the signal renews the lease only. */
    method CasUpstreamStarted(id: nat, owner: string, leaseUntil: int, now: int) returns (answer: Answer)
      requires Valid()
      modifies this`rows
      ensures Valid()
      ensures (State(), answer) == Step(old(State()), UpstreamStarted(id, owner, leaseUntil, now))
    {
      hide Step, RowOk;
      OneRowStep(State(), UpstreamStarted(id, owner, leaseUntil, now));
      if id >= |rows| || (rows[id].status != Authorized && rows[id].status != InFlight) {
        return Touched([]);
      }
      var r := rows[id];
      var startedAt := r.startedAt;
      if startedAt.None? {
        startedAt := Some(now);
      }
      answer := Write(id, r.(status := InFlight, revision := r.revision + 1, leaseOwner := Some(owner),
                             leaseUntil := Some(leaseUntil), startedAt := startedAt));
    }

    /** Moves the channel projection only from the value the caller read. */
    method CasClaimChannel(id: nat, from: set<Status>, expectedChannel: Option<nat>, expectedReserved: Option<int>, channel: nat,
                           reserved: int) returns (answer: Answer)
      requires Valid()
      modifies this`rows
      ensures Valid()
      ensures (State(), answer) == Step(old(State()), ClaimChannel(id, from, expectedChannel, expectedReserved, channel, reserved))
    {
      hide Step, RowOk;
      OneRowStep(State(), ClaimChannel(id, from, expectedChannel, expectedReserved, channel, reserved));
      if id >= |rows| || rows[id].status !in from || rows[id].channel != expectedChannel ||
         rows[id].channelReserved != expectedReserved
      {
        return Touched([]);
      }
      answer := Write(id, rows[id].(channel := Some(channel), channelReserved := Some(reserved)));
    }

    // ---- claims ----

    /** Hands the listed rows to a worker, one after the other. */
    method TakeRows(ids: seq<nat>, ghost a: Action, owner: string, until: int) returns (tickets: seq<Ticket>)
      requires InRange(rows, ids) && Distinct(ids)
      requires a.ClaimPending? && a.owner == owner && until == a.now + a.leaseMs
      modifies this
      ensures rows == Rewrite(old(rows), a, ids, old(nextToken)) && nextToken == old(nextToken) + |ids|
      ensures |tickets| == |ids| && forall n :: 0 <= n < |ids| ==>
                tickets[n] == Ticket(ids[n], owner, old(nextToken) + n, old(rows)[ids[n]].revision + 1)
    {
      hide Rewrite;
      tickets := [];
      var i := 0;
      assert ids[..0] == [];
      RewriteNone(rows, a, nextToken);
      while i < |ids|
        invariant i <= |ids|
        invariant rows == Rewrite(old(rows), a, ids[..i], old(nextToken)) && nextToken == old(nextToken) + i
        invariant |tickets| == i && forall n :: 0 <= n < i ==>
                    tickets[n] == Ticket(ids[n], owner, old(nextToken) + n, old(rows)[ids[n]].revision + 1)
      {
        RewriteNext(old(rows), a, ids, old(nextToken), i);
        var r := rows[ids[i]];
        var token := nextToken;
        nextToken := nextToken + 1;
        rows := rows[ids[i] := r.(status := Processing, revision := r.revision + 1, attempts := r.attempts + 1,
                                  claim := Some(Claim(owner, token, until)))];
        tickets := tickets + [Ticket(ids[i], owner, token, r.revision + 1)];
        i := i + 1;
      }
      assert ids[..|ids|] == ids;
    }

    /** Takes up to `limit` due rows for a worker: each gets a fresh token and a new revision. */
    method ClaimPending(owner: string, limit: nat, leaseMs: int, among: set<nat>, now: int, skip: set<nat>)
      returns (tickets: seq<Ticket>)
      requires Valid()
      modifies this
      ensures Valid()
      ensures State() == Step(old(State()), BillingRequests.ClaimPending(owner, limit, leaseMs, among, now, skip)).0
      ensures tickets == TicketsOf(old(State()), BillingRequests.ClaimPending(owner, limit, leaseMs, among, now, skip))
    {
      hide Step, RowOk, Guard, Candidates, FirstIds, TicketsOf, Rewrite;
      ghost var a := BillingRequests.ClaimPending(owner, limit, leaseMs, among, now, skip);
      var ids := FirstIds(Candidates(rows, BillingRequests.ClaimPending(owner, limit, leaseMs, among, now, skip)), limit);
      ghost var was := State();
      BatchRows(was, a);
      TicketsAre(was, a);
      tickets := TakeRows(ids, a, owner, now + leaseMs);
      assert tickets == TicketsOf(was, a);
    }

    /** Extends the leases a worker still holds; one that ran out is not brought back. */
    method RenewClaims(owner: string, tokens: set<nat>, leaseMs: int, now: int)
      requires Valid()
      modifies this`rows
      ensures Valid()
      ensures State() == Step(old(State()), BillingRequests.RenewClaims(owner, tokens, leaseMs, now)).0
    {
      hide Step, RowOk, Guard, Candidates, Rewrite;
      ghost var a := BillingRequests.RenewClaims(owner, tokens, leaseMs, now);
      var ids := IdsOf(Candidates(rows, BillingRequests.RenewClaims(owner, tokens, leaseMs, now)));
      ghost var was := State();
      BatchRows(was, a);
      assert ids[..0] == [];
      RewriteNone(rows, a, nextToken);
      var i := 0;
      while i < |ids|
        invariant i <= |ids| && nextToken == was.nextToken
        invariant rows == Rewrite(was.rows, a, ids[..i], was.nextToken)
      {
        RewriteNext(was.rows, a, ids, was.nextToken, i);
        var r := rows[ids[i]];
        if r.claim.Some? {
          rows := rows[ids[i] := r.(claim := Some(Claim(r.claim.value.owner, r.claim.value.token, now + leaseMs)))];
        }
        i := i + 1;
      }
      assert ids[..|ids|] == ids;
    }

    /** The settlement is recorded only for the worker whose claim is still the current one. */
    method CasFinalizeSettled(k: Ticket, now: int) returns (answer: Answer)
      requires Valid()
      modifies this`rows
      ensures Valid()
      ensures (State(), answer) == Step(old(State()), Finalize(k, now))
    {
      hide Step, RowOk;
      OneRowStep(State(), Finalize(k, now));
      if k.id >= |rows| || !Accepts(rows[k.id], k, now) {
        return Touched([]);
      }
      var r := rows[k.id];
      answer := Write(k.id, r.(status := Settled, revision := r.revision + 1, claim := None, settledAt := Some(now), nextAt := None));
    }

    method CasToRetryOrDead(k: Ticket, dead: bool, delay: int, now: int) returns (answer: Answer)
      requires Valid()
      modifies this`rows
      ensures Valid()
      ensures (State(), answer) == Step(old(State()), RetryOrDie(k, dead, delay, now))
    {
      hide Step, RowOk;
      OneRowStep(State(), RetryOrDie(k, dead, delay, now));
      if k.id >= |rows| || !Accepts(rows[k.id], k, now) {
        return Touched([]);
      }
      var r := rows[k.id];
      if dead {
        r := r.(status := Dead, nextAt := None, deadAt := Some(now));
      } else {
        r := r.(status := RetryWait, nextAt := Some(now + delay), deadAt := None);
      }
      answer := Write(k.id, r.(revision := r.revision + 1, claim := None));
    }

    // ---- recovery ----

    /** The batch form: one statement over the expired rows. */
    method RecoverExpiredToReleased(kind: Recovery, limit: nat, failure: string, now: int, skip: set<nat>) returns (ids: seq<nat>)
      requires Valid()
      modifies this`rows
      ensures Valid()
      ensures (State(), Touched(ids)) == Step(old(State()), RecoverExpired(kind, limit, failure, now, skip))
    {
      ghost var a := RecoverExpired(kind, limit, failure, now, skip);
      ids := FirstIds(Candidates(rows, RecoverExpired(kind, limit, failure, now, skip)), limit);
      BatchRows(State(), a);
      hide Step, RowOk, Guard, Candidates, FirstIds, Rewrite;
      ReleaseRows(ids, a, failure, now);
    }

    method ReleaseRows(ids: seq<nat>, ghost a: Action, failure: string, now: int)
      requires InRange(rows, ids) && Distinct(ids) && a.RecoverExpired? && a.now == now && a.failure == failure
      modifies this`rows
      ensures rows == Rewrite(old(rows), a, ids, nextToken)
    {
      var i := 0;
      assert ids[..0] == [];
      RewriteNone(rows, a, nextToken);
      hide Rewrite;
      while i < |ids|
        invariant i <= |ids|
        invariant rows == Rewrite(old(rows), a, ids[..i], nextToken)
      {
        RewriteNext(old(rows), a, ids, nextToken, i);
        var r := rows[ids[i]];
        rows := rows[ids[i] := r.(status := Released, revision := r.revision + 1, failure := Some(failure), leaseUntil := None,
                                  releasedAt := Some(now))];
        i := i + 1;
      }
      assert ids[..|ids|] == ids;
    }

    /** The single-row form re-checks its guard at the time of the update. */
    method RecoverOneToReleased(id: nat, kind: Recovery, failure: string, now: int) returns (answer: Answer)
      requires Valid()
      modifies this`rows
      ensures Valid()
      ensures (State(), answer) == Step(old(State()), RecoverOne(id, kind, failure, now))
    {
      hide Step, RowOk;
      OneRowStep(State(), RecoverOne(id, kind, failure, now));
      if id >= |rows| {
        return Touched([]);
      }
      var r := rows[id];
      if r.status != KindStatus(kind) || (kind == FromAuthorized && r.startedAt.Some?) {
        return Touched([]);
      }
      if kind == FromInFlight && !(r.leaseUntil.Some? && r.leaseUntil.value <= now) {
        return Touched([]);
      }
      answer := Write(id, r.(status := Released, revision := r.revision + 1, failure := Some(failure), leaseUntil := None,
                             releasedAt := Some(now)));
    }

    /** The recovery worker's loop: list without locks, then one transaction per row. */
    method ReleaseExpired(kind: Recovery, limit: nat, failure: string, now: int) returns (released: seq<nat>)
      requires Valid()
      modifies this`rows
      ensures Valid()
      ensures var ids := Listed(old(rows), kind, limit, now);
              && State() == RecoverEach(old(State()), ids, kind, failure, now)
              && released == ReleasedEach(old(State()), ids, kind, failure, now)
    {
      var ids := Listed(rows, kind, limit, now);
      released := [];
      var i := 0;
      assert ids[..0] == [];
      EachNone(State(), kind, failure, now);
      hide Step, RowOk, Listed, RecoverEach, ReleasedEach;
      while i < |ids|
        invariant i <= |ids| && Valid()
        invariant State() == RecoverEach(old(State()), ids[..i], kind, failure, now)
        invariant released == ReleasedEach(old(State()), ids[..i], kind, failure, now)
      {
        EachNext(old(State()), ids, i, kind, failure, now);
        var answer := RecoverOneToReleased(ids[i], kind, failure, now);
        if answer.Touched? {
          released := released + answer.ids;
        }
        i := i + 1;
      }
      assert ids[..|ids|] == ids;
    }

    /** Claims whose lease ran out go back to be claimed again, under a new revision. */
    method RequeueExpiredClaims(limit: nat, now: int, skip: set<nat>) returns (ids: seq<nat>)
      requires Valid()
      modifies this`rows
      ensures Valid()
      ensures (State(), Touched(ids)) == Step(old(State()), RequeueExpired(limit, now, skip))
    {
      ghost var a := RequeueExpired(limit, now, skip);
      ids := FirstIds(Candidates(rows, RequeueExpired(limit, now, skip)), limit);
      BatchRows(State(), a);
      hide Step, RowOk, Guard, Candidates, FirstIds, Rewrite;
      ReturnRows(ids, a, now);
    }

    method AbandonOwnedClaims(owner: string, now: int) returns (ids: seq<nat>)
      requires Valid()
      modifies this`rows
      ensures Valid()
      ensures (State(), Touched(ids)) == Step(old(State()), Abandon(owner, now))
    {
      ghost var a := Abandon(owner, now);
      ids := IdsOf(Candidates(rows, Abandon(owner, now)));
      BatchRows(State(), a);
      hide Step, RowOk, Guard, Candidates, Rewrite;
      ReturnRows(ids, a, now);
    }

    method ReturnRows(ids: seq<nat>, ghost a: Action, now: int)
      requires InRange(rows, ids) && Distinct(ids) && (a.RequeueExpired? || a.Abandon?) && a.now == now
      modifies this`rows
      ensures rows == Rewrite(old(rows), a, ids, nextToken)
    {
      var i := 0;
      assert ids[..0] == [];
      RewriteNone(rows, a, nextToken);
      hide Rewrite;
      while i < |ids|
        invariant i <= |ids|
        invariant rows == Rewrite(old(rows), a, ids[..i], nextToken)
      {
        RewriteNext(old(rows), a, ids, nextToken, i);
        var r := rows[ids[i]];
        rows := rows[ids[i] := r.(status := RetryWait, revision := r.revision + 1, nextAt := Some(now), claim := None)];
        i := i + 1;
      }
      assert ids[..|ids|] == ids;
    }

    // ---- dead requests ----

    method CasRetryDead(id: nat, expectedRevision: nat, now: int) returns (answer: Answer)
      requires Valid()
      modifies this`rows
      ensures Valid()
      ensures (State(), answer) == Step(old(State()), RetryDead(id, expectedRevision, now))
    {
      hide Step, RowOk;
      OneRowStep(State(), RetryDead(id, expectedRevision, now));
      if id >= |rows| || rows[id].status != Dead || rows[id].revision != expectedRevision {
        return Touched([]);
      }
      var r := rows[id];
      answer := Write(id, r.(status := RetryWait, revision := r.revision + 1, attempts := 0, nextAt := Some(now), deadAt := None));
    }

    method CasAbandonDead(id: nat, expectedRevision: nat, now: int) returns (answer: Answer)
      requires Valid()
      modifies this`rows
      ensures Valid()
      ensures (State(), answer) == Step(old(State()), AbandonDead(id, expectedRevision, now))
    {
      hide Step, RowOk;
      OneRowStep(State(), AbandonDead(id, expectedRevision, now));
      if id >= |rows| || rows[id].status != Dead || rows[id].revision != expectedRevision {
        return Touched([]);
      }
      var r := rows[id];
      answer := Write(id, r.(status := Released, revision := r.revision + 1, failure := Some("manually_abandoned"),
                             releasedAt := Some(now), deadAt := None, nextAt := None, claim := None));
    }
  }

  /** On a table that meets its constraints, a batch statement rewrites exactly the rows it selects. */
  lemma {:induction false} BatchRows(t: Table, a: Action)
    requires !a.Insert? && !a.Transition? && forall j :: 0 <= j < |t.rows| ==> RowOk(t.rows[j])
    ensures var ids := Chosen(t.rows, a);
            && Distinct(ids) && InRange(t.rows, ids)
            && (forall i :: 0 <= i < |ids| ==> Guard(a, ids[i], t.rows[ids[i]]))
            && Step(t, a) == (Table(Rewrite(t.rows, a, ids, t.nextToken), t.nextToken + if a.ClaimPending? then |ids| else 0), Touched(ids))
            && forall j :: 0 <= j < |t.rows| ==> RowOk(Rewrite(t.rows, a, ids, t.nextToken)[j])
  {
    var ids := Chosen(t.rows, a);
    ChosenSound(t.rows, a);
    hide Chosen, Changed, Guard, RowOk, Rewrite;
    forall j | 0 <= j < |t.rows| ensures RowOk(Rewrite(t.rows, a, ids, t.nextToken)[j]) {
      RewriteAt(t.rows, a, ids, t.nextToken, j);
      if n :| 0 <= n < |ids| && ids[n] == j {
        OwnChangesPass(a, t.nextToken + n, j, t.rows[j]);
      } else {
        assert j !in ids;
      }
    }
  }
}
