/** Recovery of stranded requests: one row at a time does what the batch does, and neither touches work in progress. */
module BillingRecovery {
  import opened OrderedQuery
  import opened BillingRequests
  import opened BillingFencing

  // ---- the CHECK constraints as a second line of defence ----

  predicate NeedsReceipt(s: Status) {
    s in {SettlementPending, Processing, RetryWait, Settled, Dead}
  }

  lemma {:induction false} OwnChangesPass(a: Action, token: nat, i: nat, r: Row)
    requires !a.Insert? && !a.Transition? && RowOk(r) && Guard(a, i, r)
    ensures RowOk(Changed(a, token, r))
  {
  }

  /** Only the generic transition can run into the CHECK constraints. */
  lemma {:induction false} OnlyTransitionsAreRefused(actions: seq<Action>, a: Action)
    requires AllDisciplined(actions) && !a.Transition?
    ensures Step(Run(EMPTY, actions), a).1 != CheckViolation
  {
    RunKeepsGood(actions);
    hide Run;
    GoodIsNotRefused(Run(EMPTY, actions), a);
  }

  lemma {:induction false} GoodIsNotRefused(t: Table, a: Action)
    requires Good(t) && !a.Transition?
    ensures Step(t, a).1 != CheckViolation
  {
    hide Chosen, Changed, Guard, RowOk, Good, Rewrite;
    if !a.Insert? {
      var ids := Chosen(t.rows, a);
      ChosenSound(t.rows, a);
      forall i | 0 <= i < |ids| ensures RowOk(Rewrite(t.rows, a, ids, t.nextToken)[ids[i]]) {
        RewriteAt(t.rows, a, ids, t.nextToken, ids[i]);
        GoodRow(t, ids[i]);
        OwnChangesPass(a, t.nextToken + i, ids[i], t.rows[ids[i]]);
      }
    }
  }

  lemma {:induction false} RewriteOne(rows: seq<Row>, a: Action, id: nat, token: nat)
    requires id < |rows|
    ensures Rewrite(rows, a, [id], token) == rows[id := Changed(a, token, rows[id])]
  {
    hide Changed;
    var ids := [id];
    assert ids[..0] == [];
    assert Rewrite(rows, a, ids[..0], token) == rows;
    assert Rewrite(rows, a, ids, token) == rows[ids[0] := Changed(a, token + 0, rows[ids[0]])];
  }

  lemma {:induction false} OneRowStep(t: Table, a: Action)
    requires OneRow(a)
    ensures var id := TargetOf(a);
            Step(t, a) ==
            if id >= |t.rows| || !Guard(a, id, t.rows[id]) then (t, Touched([]))
            else if !RowOk(Changed(a, t.nextToken, t.rows[id])) then (t, CheckViolation)
            else (t.(rows := t.rows[id := Changed(a, t.nextToken, t.rows[id])]), Touched([id]))
  {
    hide Guard, Changed, RowOk, Rewrite;
    var id := TargetOf(a);
    if id < |t.rows| && Guard(a, id, t.rows[id]) {
      RewriteOne(t.rows, a, id, t.nextToken);
      assert Chosen(t.rows, a) == [id];
      assert [id][0] == id;
    } else {
      assert Chosen(t.rows, a) == [];
      assert Rewrite(t.rows, a, [], t.nextToken) == t.rows by {
        RewriteNone(t.rows, a, t.nextToken);
      }
    }
  }

  lemma {:induction false} RewriteNone(rows: seq<Row>, a: Action, token: nat)
    ensures Rewrite(rows, a, [], token) == rows
  {
  }

  /** A transition is refused exactly when it would enter or leave the claimed state without its claim columns, or needs
      a receipt that is not there: no signal can take a request out of a worker's hands. */
  lemma {:induction false} TransitionRefusedIff(actions: seq<Action>, a: Action)
    requires AllDisciplined(actions) && a.Transition?
    ensures var t := Run(EMPTY, actions);
            Step(t, a).1 == CheckViolation <==>
            a.id < |t.rows| && t.rows[a.id].status in a.from &&
            ((a.to == Processing) != (t.rows[a.id].status == Processing) ||
             (NeedsReceipt(a.to) && Patched(a.patch.receipt, t.rows[a.id].receipt).None?))
  {
    var t := Run(EMPTY, actions);
    RunKeepsGood(actions);
    hide Run, Step;
    OneRowStep(t, a);
    if a.id < |t.rows| {
      GoodRow(t, a.id);
    }
  }

  // ---- row by row against the batch ----

  /** The rows the recovery worker lists first, without locking them: same filter, order and limit as the batch. */
  function Listed(rows: seq<Row>, kind: Recovery, limit: nat, now: int): seq<nat> {
    Chosen(rows, RecoverExpired(kind, limit, "", now, {}))
  }

  /** One compare-and-set per listed row. */
  function RecoverEach(t: Table, ids: seq<nat>, kind: Recovery, failure: string, now: int): Table {
    if ids == [] then t
    else
      var n := |ids| - 1;
      Step(RecoverEach(t, ids[..n], kind, failure, now), RecoverOne(ids[n], kind, failure, now)).0
  }

  function ReleasedEach(t: Table, ids: seq<nat>, kind: Recovery, failure: string, now: int): seq<nat> {
    if ids == [] then []
    else
      var n := |ids| - 1;
      var answer := Step(RecoverEach(t, ids[..n], kind, failure, now), RecoverOne(ids[n], kind, failure, now)).1;
      ReleasedEach(t, ids[..n], kind, failure, now) + if answer.Touched? then answer.ids else []
  }

  lemma {:induction false} ListingIgnoresReason(rows: seq<Row>, kind: Recovery, limit: nat, now: int, failure: string)
    ensures Listed(rows, kind, limit, now) == Chosen(rows, RecoverExpired(kind, limit, failure, now, {}))
  {
    SameCandidates(rows, kind, limit, now, failure);
  }

  lemma {:induction false} SameCandidates(rows: seq<Row>, kind: Recovery, limit: nat, now: int, failure: string)
    ensures Candidates(rows, RecoverExpired(kind, limit, "", now, {})) == Candidates(rows, RecoverExpired(kind, limit, failure, now, {}))
  {
    if rows != [] {
      SameCandidates(rows[..|rows| - 1], kind, limit, now, failure);
    }
  }

  lemma {:induction false} EachNone(t: Table, kind: Recovery, failure: string, now: int)
    ensures RecoverEach(t, [], kind, failure, now) == t && ReleasedEach(t, [], kind, failure, now) == []
  {
  }

  lemma {:induction false} EachNext(t: Table, ids: seq<nat>, i: nat, kind: Recovery, failure: string, now: int)
    requires i < |ids|
    ensures var (u, answer) := Step(RecoverEach(t, ids[..i], kind, failure, now), RecoverOne(ids[i], kind, failure, now));
            && RecoverEach(t, ids[..i + 1], kind, failure, now) == u
            && ReleasedEach(t, ids[..i + 1], kind, failure, now) ==
               ReleasedEach(t, ids[..i], kind, failure, now) + if answer.Touched? then answer.ids else []
  {
    hide Step;
    assert ids[..i + 1][..i] == ids[..i];
  }

  /** One more row of a batch: it still is what it was before the batch began. */
  lemma {:induction false} RewriteNext(rows: seq<Row>, a: Action, ids: seq<nat>, token: nat, i: nat)
    requires InRange(rows, ids) && Distinct(ids) && i < |ids|
    ensures Rewrite(rows, a, ids[..i], token)[ids[i]] == rows[ids[i]]
    ensures Rewrite(rows, a, ids[..i + 1], token) ==
            Rewrite(rows, a, ids[..i], token)[ids[i] := Changed(a, token + i, rows[ids[i]])]
  {
    hide Changed;
    assert ids[..i + 1][..i] == ids[..i];
    RewriteAt(rows, a, ids[..i], token, ids[i]);
    assert ids[i] !in ids[..i];
  }

  /** Row by row, the first `n` listed rows end as the batch leaves them. */
  lemma {:induction false} EachIsRewrite(t: Table, a: Action, ids: seq<nat>, n: nat)
    requires a.RecoverExpired? && n <= |ids| && InRange(t.rows, ids) && Distinct(ids)
    requires forall i :: 0 <= i < |ids| ==> Guard(a, ids[i], t.rows[ids[i]]) && RowOk(t.rows[ids[i]])
    ensures RecoverEach(t, ids[..n], a.kind, a.failure, a.now) == t.(rows := Rewrite(t.rows, a, ids[..n], t.nextToken))
    ensures ReleasedEach(t, ids[..n], a.kind, a.failure, a.now) == ids[..n]
  {
    hide Step, Guard, Changed, RowOk, RecoverEach, ReleasedEach, Rewrite, Distinct;
    if n == 0 {
      assert ids[..0] == [];
      EachNone(t, a.kind, a.failure, a.now);
      RewriteNone(t.rows, a, t.nextToken);
    } else {
      EachIsRewrite(t, a, ids, n - 1);
      EachNext(t, ids, n - 1, a.kind, a.failure, a.now);
      RewriteNext(t.rows, a, ids, t.nextToken, n - 1);
      var u := t.(rows := Rewrite(t.rows, a, ids[..n - 1], t.nextToken));
      var one := RecoverOne(ids[n - 1], a.kind, a.failure, a.now);
      BatchRowIsOne(a, one, ids[n - 1], t.rows[ids[n - 1]], t.nextToken + (n - 1), u.nextToken);
      OneRowStep(u, one);
      assert ids[..n] == ids[..n - 1] + [ids[n - 1]];
    }
  }

  lemma {:induction false} BatchRowIsOne(a: Action, one: Action, i: nat, r: Row, token: nat, other: nat)
    requires a.RecoverExpired? && one.RecoverOne? && one.kind == a.kind && one.failure == a.failure && one.now == a.now
    requires Guard(a, i, r) && RowOk(r)
    ensures Guard(one, i, r) && Changed(one, other, r) == Changed(a, token, r) && RowOk(Changed(one, other, r))
  {
  }

  /** At one clock reading, listing the candidates and recovering them one by one gives the table of the batch statement,
      and releases the same requests. */
  lemma {:induction false} RowByRowIsBatch(actions: seq<Action>, kind: Recovery, limit: nat, failure: string, now: int)
    requires AllDisciplined(actions)
    ensures var t := Run(EMPTY, actions);
            var ids := Listed(t.rows, kind, limit, now);
            var (u, answer) := Step(t, RecoverExpired(kind, limit, failure, now, {}));
            && answer == Touched(ids)
            && RecoverEach(t, ids, kind, failure, now) == u
            && ReleasedEach(t, ids, kind, failure, now) == ids
  {
    RunKeepsGood(actions);
    hide Run, Step, Good;
    GoodRowByRow(Run(EMPTY, actions), kind, limit, failure, now);
  }

  lemma {:induction false} GoodRowByRow(t: Table, kind: Recovery, limit: nat, failure: string, now: int)
    requires Good(t)
    ensures var ids := Listed(t.rows, kind, limit, now);
            var (u, answer) := Step(t, RecoverExpired(kind, limit, failure, now, {}));
            && answer == Touched(ids)
            && RecoverEach(t, ids, kind, failure, now) == u
            && ReleasedEach(t, ids, kind, failure, now) == ids
  {
    hide Chosen, Guard, RowOk, Candidates, Good, RecoverEach, ReleasedEach, Rewrite;
    var a := RecoverExpired(kind, limit, failure, now, {});
    ListingIgnoresReason(t.rows, kind, limit, now, failure);
    GoodIsNotRefused(t, a);
    ChosenSound(t.rows, a);
    var ids := Chosen(t.rows, a);
    forall i | 0 <= i < |ids| ensures RowOk(t.rows[ids[i]]) {
      GoodRow(t, ids[i]);
    }
    EachIsRewrite(t, a, ids, |ids|);
    assert ids[..|ids|] == ids;
  }

  // ---- what recovery never does ----

  /** An authorized request whose upstream has started is never released by recovery, in batch or alone. */
  lemma {:induction false} StartedIsNeverReleased(t: Table, a: Action, j: nat)
    requires (a.RecoverExpired? || a.RecoverOne?) && j < |t.rows|
    requires t.rows[j].status == Authorized && t.rows[j].startedAt.Some?
    ensures j < |Step(t, a).0.rows| && Step(t, a).0.rows[j] == t.rows[j]
  {
    hide Step;
    RowThroughStep(t, a, j);
  }

  /** The single-row form re-checks status and start, but for authorized requests not the lease: it releases one whose
      lease still runs, which the batch would have left alone. */
  lemma {:induction false} RecoverOneForgetsLease()
    ensures var row := NewRow(Insert("r", 0, 100, 0));
            var t := Table([row], 0);
            && Step(t, RecoverOne(0, FromAuthorized, "late", 50)).0.rows[0].status == Released
            && Step(t, RecoverExpired(FromAuthorized, 10, "late", 50, {})).0 == t
  {
    hide Step, Chosen, Candidates, Rewrite, Guard, Changed, RowOk, NewRow;
    var row := NewRow(Insert("r", 0, 100, 0));
    var t := Table([row], 0);
    RunningLease(row);
    OneRowStep(t, RecoverOne(0, FromAuthorized, "late", 50));
    SingleRowRefused(t, RecoverExpired(FromAuthorized, 10, "late", 50, {}));
  }

  lemma {:induction false} RunningLease(row: Row)
    requires row == NewRow(Insert("r", 0, 100, 0))
    ensures var one := RecoverOne(0, FromAuthorized, "late", 50);
            && Guard(one, 0, row) && RowOk(Changed(one, 0, row)) && Changed(one, 0, row).status == Released
            && !Guard(RecoverExpired(FromAuthorized, 10, "late", 50, {}), 0, row)
  {
  }

  /** A batch over a table of one row that fails its guard. */
  lemma {:induction false} SingleRowRefused(t: Table, a: Action)
    requires a.RecoverExpired? && |t.rows| == 1 && !Guard(a, 0, t.rows[0])
    ensures Step(t, a).0 == t
  {
    hide Guard, RowOk, Changed;
    assert t.rows[..0] == [];
    assert Candidates(t.rows, a) == Candidates(t.rows[..0], a) + [] == [];
    assert Chosen(t.rows, a) == [] by {
      OrderIsOrdered([]);
    }
    RewriteNone(t.rows, a, t.nextToken);
  }

  predicate LeaseOver(r: Row, now: int) {
    r.leaseUntil.Some? && r.leaseUntil.value <= now
  }

  /** The two forms accept the same row exactly when it is an in-flight one, or its lease is over, or it would be refused
      anyway. */
  lemma {:induction false} FormsAgreeIff(i: nat, r: Row, kind: Recovery, limit: nat, failure: string, now: int)
    ensures (Guard(RecoverOne(i, kind, failure, now), i, r) <==> Guard(RecoverExpired(kind, limit, failure, now, {}), i, r)) <==>
            (kind == FromInFlight || LeaseOver(r, now) || r.status != Authorized || r.startedAt.Some?)
  {
  }

  /** No other statement moves the lease of a request that stays authorized, so a row that was listed as expired and is
      still authorized is still expired when its turn comes. */
  lemma {:induction false} ListedStaysExpired(t: Table, between: seq<Action>, j: nat, listedAt: int, now: int)
    requires j < |t.rows| && LeaseOver(t.rows[j], listedAt) && listedAt <= now
    requires t.rows[j].status == Authorized
    requires forall i :: 0 <= i < |between| ==> !(between[i].Transition? && between[i].to == Authorized)
    ensures var u := Run(t, between);
            j < |u.rows| && (u.rows[j].status == Authorized ==> LeaseOver(u.rows[j], now))
  {
    AuthorizedLease(t, between, j);
  }

  lemma {:induction false} AuthorizedLease(t: Table, between: seq<Action>, j: nat)
    requires j < |t.rows| && t.rows[j].status == Authorized
    requires forall i :: 0 <= i < |between| ==> !(between[i].Transition? && between[i].to == Authorized)
    ensures var u := Run(t, between);
            j < |u.rows| && (u.rows[j].status == Authorized ==> u.rows[j].leaseUntil == t.rows[j].leaseUntil)
  {
    if between != [] {
      var init, last := between[..|between| - 1], between[|between| - 1];
      AuthorizedLease(t, init, j);
      hide Step, Guard, Changed, RowOk;
      LeaseThroughStep(Run(t, init), last, j);
    }
  }

  lemma {:induction false} LeaseThroughStep(t: Table, a: Action, j: nat)
    requires j < |t.rows| && !(a.Transition? && a.to == Authorized)
    ensures var u := Step(t, a).0;
            j < |u.rows| &&
            (u.rows[j].status == Authorized ==> t.rows[j].status == Authorized && u.rows[j].leaseUntil == t.rows[j].leaseUntil)
  {
    hide Step;
    RowThroughStep(t, a, j);
  }
}
