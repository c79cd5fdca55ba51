/** The billing request table and its compare-and-set steps.

    Every step is one guarded UPDATE: a guard that selects rows, a rewrite of each selected row, and the CHECK
    constraints of the table, which refuse the whole statement when a rewritten row breaks them. */
module BillingRequests {
  import opened Options
  import opened OrderedQuery

  datatype Status = Authorized | InFlight | SettlementPending | Processing | RetryWait | Settled | Released | Dead

  datatype Claim = Claim(owner: string, token: nat, until: int)

  /** `key` is the request id of the caller; the three claim columns are always written together. */
  datatype Row = Row(key: string, createdAt: int, status: Status, revision: nat,
                     leaseOwner: Option<string>, leaseUntil: Option<int>, startedAt: Option<int>,
                     receipt: Option<nat>, attempts: nat, nextAt: Option<int>, claim: Option<Claim>,
                     failure: Option<string>, settledAt: Option<int>, releasedAt: Option<int>, deadAt: Option<int>,
                     channel: Option<nat>, channelReserved: Option<int>)

  /** Rows by position; `nextToken` is a token no claim has used yet. */
  datatype Table = Table(rows: seq<Row>, nextToken: nat)

  const EMPTY := Table([], 0)

  /** What a worker is handed with a claim, and must show again to finish it. */
  datatype Ticket = Ticket(id: nat, owner: string, token: nat, revision: nat)

  datatype Put<T> = Keep | Set(value: T)

  /** The columns that callers of the generic transition write besides status and revision. */
  datatype Patch = Patch(leaseOwner: Put<Option<string>>, leaseUntil: Put<Option<int>>, receipt: Put<Option<nat>>,
                         nextAt: Put<Option<int>>, releasedAt: Put<Option<int>>, failure: Put<Option<string>>)

  datatype Recovery = FromAuthorized | FromInFlight

  datatype Action =
    | Insert(key: string, createdAt: int, leaseUntil: int, nextAt: int)
    | Transition(id: nat, from: set<Status>, to: Status, patch: Patch)
    | UpstreamStarted(id: nat, owner: string, leaseUntil: int, now: int)
    | ClaimChannel(id: nat, from: set<Status>, expectedChannel: Option<nat>, expectedReserved: Option<int>,
                   channel: nat, reserved: int)
    | ClaimPending(owner: string, limit: nat, leaseMs: int, among: set<nat>, now: int, skip: set<nat>)
    | RenewClaims(owner: string, tokens: set<nat>, leaseMs: int, now: int)
    | Finalize(ticket: Ticket, now: int)
    | RetryOrDie(ticket: Ticket, dead: bool, delay: int, now: int)
    | RecoverExpired(kind: Recovery, limit: nat, failure: string, now: int, skip: set<nat>)
    | RecoverOne(id: nat, kind: Recovery, failure: string, now: int)
    | RequeueExpired(limit: nat, now: int, skip: set<nat>)
    | Abandon(owner: string, now: int)
    | RetryDead(id: nat, revision: nat, now: int)
    | AbandonDead(id: nat, revision: nat, now: int)

  /** `Touched` lists the rows a statement changed; zero rows means that the guard did not match. */
  datatype Answer = Inserted(isNew: bool) | Touched(ids: seq<nat>) | CheckViolation

  /** The CHECK constraints on claims and receipts. */
  predicate RowOk(r: Row) {
    && (r.status == Processing <==> r.claim.Some?)
    && (r.status in {SettlementPending, Processing, RetryWait, Settled, Dead} ==> r.receipt.Some?)
  }

  function KindStatus(kind: Recovery): Status {
    if kind == FromAuthorized then Authorized else InFlight
  }

  /** The five things a worker must still have: status, token, owner, revision, and time. */
  predicate Accepts(r: Row, k: Ticket, now: int) {
    r.status == Processing && r.revision == k.revision && r.claim.Some? &&
    r.claim.value.token == k.token && r.claim.value.owner == k.owner && r.claim.value.until > now
  }

  /** The WHERE clause of each statement, for the row at position `i`. */
  predicate Guard(a: Action, i: nat, r: Row) {
    match a
    case Insert(_, _, _, _) => false
    case Transition(_, from, _, _) => r.status in from
    case UpstreamStarted(_, _, _, _) => r.status == Authorized || r.status == InFlight
    case ClaimChannel(_, from, channel, reserved, _, _) =>
      r.status in from && r.channel == channel && r.channelReserved == reserved
    case ClaimPending(_, _, _, among, now, skip) =>
      (r.status == SettlementPending || r.status == RetryWait) && (r.nextAt.Some? ==> r.nextAt.value <= now) &&
      i !in skip && (among == {} || i in among)
    case RenewClaims(owner, tokens, _, now) =>
      r.status == Processing && r.claim.Some? && r.claim.value.owner == owner && r.claim.value.token in tokens &&
      r.claim.value.until > now
    case Finalize(k, now) => Accepts(r, k, now)
    case RetryOrDie(k, _, _, now) => Accepts(r, k, now)
    case RecoverExpired(kind, _, _, now, skip) =>
      r.status == KindStatus(kind) && r.leaseUntil.Some? && r.leaseUntil.value <= now &&
      (kind == FromAuthorized ==> r.startedAt.None?) && i !in skip
    case RecoverOne(_, kind, _, now) =>
      r.status == KindStatus(kind) && (kind == FromAuthorized ==> r.startedAt.None?) &&
      (kind == FromInFlight ==> r.leaseUntil.Some? && r.leaseUntil.value <= now)
    case RequeueExpired(_, now, skip) =>
      r.status == Processing && r.claim.Some? && r.claim.value.until <= now && i !in skip
    case Abandon(owner, _) => r.status == Processing && r.claim.Some? && r.claim.value.owner == owner
    case RetryDead(_, revision, _) => r.status == Dead && r.revision == revision
    case AbandonDead(_, revision, _) => r.status == Dead && r.revision == revision
  }

  function Patched<T>(p: Put<T>, v: T): T {
    if p.Keep? then v else p.value
  }

  /** The SET clause of each statement; `token` is the fresh token a claim writes. */
  function Changed(a: Action, token: nat, r: Row): Row {
    match a
    case Insert(_, _, _, _) => r
    case Transition(_, _, to, p) =>
      r.(status := to, revision := r.revision + 1, leaseOwner := Patched(p.leaseOwner, r.leaseOwner),
         leaseUntil := Patched(p.leaseUntil, r.leaseUntil), receipt := Patched(p.receipt, r.receipt),
         nextAt := Patched(p.nextAt, r.nextAt), releasedAt := Patched(p.releasedAt, r.releasedAt),
         failure := Patched(p.failure, r.failure))
    case UpstreamStarted(_, owner, until, now) =>
      r.(status := InFlight, revision := r.revision + 1, leaseOwner := Some(owner), leaseUntil := Some(until),
         startedAt := if r.startedAt.Some? then r.startedAt else Some(now))
    case ClaimChannel(_, _, _, _, channel, reserved) => r.(channel := Some(channel), channelReserved := Some(reserved))
    case ClaimPending(owner, _, leaseMs, _, now, _) =>
      r.(status := Processing, revision := r.revision + 1, attempts := r.attempts + 1,
         claim := Some(Claim(owner, token, now + leaseMs)))
    case RenewClaims(_, _, leaseMs, now) =>
      if r.claim.None? then r else r.(claim := Some(r.claim.value.(until := now + leaseMs)))
    case Finalize(_, now) =>
      r.(status := Settled, revision := r.revision + 1, claim := None, settledAt := Some(now), nextAt := None)
    case RetryOrDie(_, dead, delay, now) =>
      r.(status := if dead then Dead else RetryWait, revision := r.revision + 1, claim := None,
         nextAt := if dead then None else Some(now + delay), deadAt := if dead then Some(now) else None)
    case RecoverExpired(_, _, failure, now, _) => ReleasedRow(r, failure, now)
    case RecoverOne(_, _, failure, now) => ReleasedRow(r, failure, now)
    case RequeueExpired(_, now, _) => RequeuedRow(r, now)
    case Abandon(_, now) => RequeuedRow(r, now)
    case RetryDead(_, _, now) =>
      r.(status := RetryWait, revision := r.revision + 1, attempts := 0, nextAt := Some(now), deadAt := None)
    case AbandonDead(_, _, now) =>
      r.(status := Released, revision := r.revision + 1, failure := Some("manually_abandoned"), releasedAt := Some(now),
         deadAt := None, nextAt := None, claim := None)
  }

  function ReleasedRow(r: Row, failure: string, now: int): Row {
    r.(status := Released, revision := r.revision + 1, failure := Some(failure), leaseUntil := None, releasedAt := Some(now))
  }

  function RequeuedRow(r: Row, now: int): Row {
    r.(status := RetryWait, revision := r.revision + 1, nextAt := Some(now), claim := None)
  }

  // ---- which rows a statement reaches ----

  function KeyOf(at: Option<int>): Key {
    if at.None? then Null else At(at.value)
  }

  /** The ORDER BY of the batch statements. */
  function ItemOf(a: Action, i: nat, r: Row): Item {
    if a.ClaimPending? then Item(i, KeyOf(r.nextAt), r.createdAt)
    else if a.RecoverExpired? then Item(i, KeyOf(r.leaseUntil), 0)
    else if a.RequeueExpired? then Item(i, if r.claim.None? then Null else At(r.claim.value.until), 0)
    else Item(i, Null, 0)
  }

  /** The rows that pass the guard, in table order. */
  function Candidates(rows: seq<Row>, a: Action): seq<Item> {
    if rows == [] then []
    else
      var last := |rows| - 1;
      Candidates(rows[..last], a) + if Guard(a, last, rows[last]) then [ItemOf(a, last, rows[last])] else []
  }

  function IdsOf(items: seq<Item>): seq<nat> {
    seq(|items|, i requires 0 <= i < |items| => items[i].id)
  }

  predicate OneRow(a: Action) {
    a.Transition? || a.UpstreamStarted? || a.ClaimChannel? || a.Finalize? || a.RetryOrDie? || a.RecoverOne? ||
    a.RetryDead? || a.AbandonDead?
  }

  function TargetOf(a: Action): nat
    requires OneRow(a)
  {
    if a.Finalize? || a.RetryOrDie? then a.ticket.id else a.id
  }

  function LimitOf(a: Action): Option<nat> {
    if a.ClaimPending? || a.RecoverExpired? || a.RequeueExpired? then Some(a.limit) else None
  }

  /** The rows a statement rewrites: its one target, the first of an ordered batch, or all that match. */
  function Chosen(rows: seq<Row>, a: Action): seq<nat> {
    if OneRow(a) then
      var id := TargetOf(a);
      if id < |rows| && Guard(a, id, rows[id]) then [id] else []
    else if LimitOf(a).Some? then FirstIds(Candidates(rows, a), LimitOf(a).value)
    else IdsOf(Candidates(rows, a))
  }

  predicate InRange(rows: seq<Row>, ids: seq<nat>) {
    forall i :: 0 <= i < |ids| ==> ids[i] < |rows|
  }

  /** Rewriting the chosen rows one after the other; the n-th claim of a batch gets the n-th fresh token. */
  function Rewrite(rows: seq<Row>, a: Action, ids: seq<nat>, token: nat): (r: seq<Row>)
    requires InRange(rows, ids)
    ensures |r| == |rows|
  {
    if ids == [] then rows
    else
      var n := |ids| - 1;
      var m := Rewrite(rows, a, ids[..n], token);
      m[ids[n] := Changed(a, token + n, m[ids[n]])]
  }

  function FindKey(rows: seq<Row>, key: string): (r: Option<nat>)
    ensures r.Some? ==> r.value < |rows| && rows[r.value].key == key
    ensures r.None? ==> forall i :: 0 <= i < |rows| ==> rows[i].key != key
  {
    if rows == [] then None
    else if rows[|rows| - 1].key == key then Some(|rows| - 1)
    else FindKey(rows[..|rows| - 1], key)
  }

  function NewRow(a: Action): Row
    requires a.Insert?
  {
    Row(a.key, a.createdAt, Authorized, 0, None, Some(a.leaseUntil), None, None, 0, Some(a.nextAt), None, None, None, None,
        None, None, None)
  }

  function Step(t: Table, a: Action): (Table, Answer) {
    if a.Insert? then
      if FindKey(t.rows, a.key).Some? then (t, Inserted(false)) else (t.(rows := t.rows + [NewRow(a)]), Inserted(true))
    else
      var ids := Chosen(t.rows, a);
      if !InRange(t.rows, ids) then (t, Touched([]))
      else
        var rows := Rewrite(t.rows, a, ids, t.nextToken);
        if exists i :: 0 <= i < |ids| && !RowOk(rows[ids[i]]) then (t, CheckViolation)
        else (Table(rows, t.nextToken + if a.ClaimPending? then |ids| else 0), Touched(ids))
  }

  /** The tickets a claim hands out. */
  function TicketsOf(t: Table, a: Action): (r: seq<Ticket>)
    requires a.ClaimPending?
  {
    var (u, answer) := Step(t, a);
    if !answer.Touched? || !InRange(u.rows, answer.ids) then []
    else seq(|answer.ids|, i requires 0 <= i < |answer.ids| =>
           Ticket(answer.ids[i], a.owner, t.nextToken + i, u.rows[answer.ids[i]].revision))
  }

  function Run(t: Table, actions: seq<Action>): Table {
    if actions == [] then t else Step(Run(t, actions[..|actions| - 1]), actions[|actions| - 1]).0
  }

  // ---- what a statement does to each row ----

  predicate ListsRows(rows: seq<Row>, a: Action, items: seq<Item>) {
    forall i :: 0 <= i < |items| ==>
      items[i].id < |rows| && Guard(a, items[i].id, rows[items[i].id]) && items[i] == ItemOf(a, items[i].id, rows[items[i].id])
  }

  lemma {:induction false} ListedLater(rows: seq<Row>, a: Action, items: seq<Item>)
    requires rows != [] && ListsRows(rows[..|rows| - 1], a, items) && DistinctIds(items)
    ensures ListsRows(rows, a, items)
    ensures Guard(a, |rows| - 1, rows[|rows| - 1]) ==>
              var more := items + [ItemOf(a, |rows| - 1, rows[|rows| - 1])];
              ListsRows(rows, a, more) && DistinctIds(more)
  {
    hide Guard, ItemOf;
    var init, last := rows[..|rows| - 1], |rows| - 1;
    forall i | 0 <= i < |items| ensures items[i].id < last && rows[items[i].id] == init[items[i].id] {
    }
    ItemIds(a, last, rows[last]);
  }

  lemma {:induction false} ItemIds(a: Action, i: nat, r: Row)
    ensures ItemOf(a, i, r).id == i
  {
  }

  /** The candidates are rows that pass the guard, each once, with their sort keys. */
  lemma {:induction false} CandidatesSound(rows: seq<Row>, a: Action)
    ensures DistinctIds(Candidates(rows, a)) && ListsRows(rows, a, Candidates(rows, a))
  {
    if rows != [] {
      CandidatesSound(rows[..|rows| - 1], a);
      hide Guard, ItemOf, ListsRows, DistinctIds;
      ListedLater(rows, a, Candidates(rows[..|rows| - 1], a));
      assert Candidates(rows[..|rows| - 1], a) + [] == Candidates(rows[..|rows| - 1], a);
    }
  }

  lemma {:induction false} CandidatesComplete(rows: seq<Row>, a: Action, j: nat)
    requires j < |rows| && Guard(a, j, rows[j])
    ensures ItemOf(a, j, rows[j]) in Candidates(rows, a)
  {
    hide Guard, ItemOf;
    if j < |rows| - 1 {
      CandidatesComplete(rows[..|rows| - 1], a, j);
    }
  }

  /** A statement rewrites existing rows that pass its guard, each once. */
  lemma {:induction false} ChosenSound(rows: seq<Row>, a: Action)
    ensures Distinct(Chosen(rows, a)) && InRange(rows, Chosen(rows, a))
    ensures forall i :: 0 <= i < |Chosen(rows, a)| ==> Guard(a, Chosen(rows, a)[i], rows[Chosen(rows, a)[i]])
  {
    CandidatesSound(rows, a);
    hide Guard, ItemOf, Candidates;
    if !OneRow(a) {
      var items, ids := Candidates(rows, a), Chosen(rows, a);
      if LimitOf(a).Some? {
        FirstIdsSound(items, LimitOf(a).value);
      }
      forall i | 0 <= i < |ids| ensures ids[i] < |rows| && Guard(a, ids[i], rows[ids[i]]) {
        assert ids[i] in IdSet(items);
      }
    }
  }

  /** The row at `j` after a rewrite: changed once if it was chosen, otherwise untouched. */
  lemma {:induction false} RewriteAt(rows: seq<Row>, a: Action, ids: seq<nat>, token: nat, j: nat)
    requires InRange(rows, ids) && Distinct(ids) && j < |rows|
    ensures j !in ids ==> Rewrite(rows, a, ids, token)[j] == rows[j]
    ensures forall n :: 0 <= n < |ids| && ids[n] == j ==> Rewrite(rows, a, ids, token)[j] == Changed(a, token + n, rows[j])
  {
    hide Changed;
    if ids != [] {
      var n := |ids| - 1;
      var init := ids[..n];
      RewriteAt(rows, a, init, token, j);
      if ids[n] == j {
        assert j !in init;
      } else {
        assert Rewrite(rows, a, ids, token)[j] == Rewrite(rows, a, init, token)[j];
        assert forall m :: 0 <= m < n ==> init[m] == ids[m];
      }
    }
  }

  /** One row through one statement: either untouched, or its guard held and it was rewritten. */
  lemma {:induction false} RowThroughStep(t: Table, a: Action, j: nat)
    requires j < |t.rows|
    ensures j < |Step(t, a).0.rows|
    ensures var r, r' := t.rows[j], Step(t, a).0.rows[j];
            r' == r || (!a.Insert? && Guard(a, j, r) && RowOk(r') && Step(t, a).1.Touched? && j in Step(t, a).1.ids &&
                        exists token :: token >= t.nextToken && r' == Changed(a, token, r))
  {
    hide Changed, Guard, Chosen, RowOk;
    if !a.Insert? {
      var ids := Chosen(t.rows, a);
      ChosenSound(t.rows, a);
      RewriteAt(t.rows, a, ids, t.nextToken, j);
      if n :| 0 <= n < |ids| && ids[n] == j {
        assert t.nextToken + n >= t.nextToken;
      } else {
        assert j !in ids;
      }
    }
  }
}
