/** Fencing: a worker whose claim was taken over can never finish the request, and money is settled at most once.

    A run is any sequence of statements, by any number of gateways, workers and operators, each with its own reading
    of the clock. A crashed worker is one that issues no further statement. */
module BillingFencing {
  import opened Options
  import opened OrderedQuery
  import opened BillingRequests

  /** What callers of the generic transition keep to: it never leaves an end state and never settles. */
  predicate Disciplined(a: Action) {
    a.Transition? ==> Settled !in a.from && Released !in a.from && a.to != Settled
  }

  predicate AllDisciplined(actions: seq<Action>) {
    forall i :: 0 <= i < |actions| ==> Disciplined(actions[i])
  }

  predicate Ended(s: Status) {
    s == Settled || s == Released
  }

  predicate SameHolder(c: Option<Claim>, d: Option<Claim>) {
    if c.None? then d.None? else d.Some? && d.value.token == c.value.token && d.value.owner == c.value.owner
  }

  predicate NewHolder(a: Action, token: nat, c: Claim) {
    a.ClaimPending? && c.token == token && c.owner == a.owner
  }

  /** The row-by-row facts of one rewrite: revision fences every status change, end states are final, only a
      finalizing worker settles, and a claim changes hands only through a claim statement. */
  predicate StepOk(a: Action, token: nat, r: Row, s: Row) {
    && s.key == r.key
    && (s.revision == r.revision || s.revision == r.revision + 1)
    && (s.status != r.status ==> s.revision == r.revision + 1)
    && (s.revision == r.revision ==> SameHolder(r.claim, s.claim))
    && (s.claim.Some? ==> NewHolder(a, token, s.claim.value) || SameHolder(r.claim, s.claim))
    && (Disciplined(a) && Ended(r.status) ==> s.status == r.status && s.revision == r.revision && s.settledAt == r.settledAt)
    && (Disciplined(a) && s.status == Settled && r.status != Settled ==> a.Finalize? && s.settledAt == Some(a.now))
    && (s.settledAt != r.settledAt ==> a.Finalize? && s.status == Settled && s.settledAt.Some?)
  }

  lemma {:induction false} ChangeIsOk(a: Action, token: nat, i: nat, r: Row)
    requires !a.Insert? && Guard(a, i, r)
    ensures StepOk(a, token, r, Changed(a, token, r))
  {
  }

  /** Every row goes through every statement in this way. */
  lemma {:induction false} RowStep(t: Table, a: Action, j: nat)
    requires j < |t.rows|
    ensures var u := Step(t, a).0;
            && j < |u.rows|
            && (u.rows[j] == t.rows[j] ||
                (!a.Insert? && Guard(a, j, t.rows[j]) && RowOk(u.rows[j]) &&
                 exists token :: token >= t.nextToken && StepOk(a, token, t.rows[j], u.rows[j])))
  {
    RowThroughStep(t, a, j);
    hide Step, Guard, Changed, StepOk;
    var u := Step(t, a).0;
    if u.rows[j] != t.rows[j] {
      var token :| token >= t.nextToken && u.rows[j] == Changed(a, token, t.rows[j]);
      ChangeIsOk(a, token, j, t.rows[j]);
    }
  }

  /** The revision of a row never falls, and rises with every change of status. */
  lemma {:induction false} RevisionRises(t: Table, a: Action, j: nat)
    requires j < |t.rows|
    ensures j < |Step(t, a).0.rows|
    ensures var r, s := t.rows[j], Step(t, a).0.rows[j];
            && r.key == s.key
            && r.revision <= s.revision <= r.revision + 1
            && (s.status != r.status ==> s.revision == r.revision + 1)
            && (Disciplined(a) && Ended(r.status) ==> s.status == r.status && s.revision == r.revision && s.settledAt == r.settledAt)
  {
    hide Step, Guard;
    RowStep(t, a, j);
  }

  lemma {:induction false} RevisionRisesInRun(t: Table, actions: seq<Action>, j: nat)
    requires j < |t.rows| && AllDisciplined(actions)
    ensures j < |Run(t, actions).rows|
    ensures var r, s := t.rows[j], Run(t, actions).rows[j];
            && r.key == s.key && r.revision <= s.revision
            && (s.revision == r.revision ==> s.status == r.status)
            && (Ended(r.status) ==> s.status == r.status && s.revision == r.revision && s.settledAt == r.settledAt)
  {
    if actions != [] {
      var init := actions[..|actions| - 1];
      RevisionRisesInRun(t, init, j);
      hide Step;
      RevisionRises(Run(t, init), actions[|actions| - 1], j);
    }
  }

  // ---- the table invariant ----

  predicate SettledAlike(r: Row) {
    r.settledAt.Some? <==> r.status == Settled
  }

  predicate TokensOk(t: Table) {
    && (forall j :: 0 <= j < |t.rows| && t.rows[j].claim.Some? ==> t.rows[j].claim.value.token < t.nextToken)
    && (forall i, j :: 0 <= i < j < |t.rows| && t.rows[i].claim.Some? && t.rows[j].claim.Some? ==>
          t.rows[i].claim.value.token != t.rows[j].claim.value.token)
  }

  predicate KeysOk(t: Table) {
    forall i, j :: 0 <= i < j < |t.rows| ==> t.rows[i].key != t.rows[j].key
  }

  predicate Good(t: Table) {
    (forall j :: 0 <= j < |t.rows| ==> RowOk(t.rows[j]) && SettledAlike(t.rows[j])) && TokensOk(t) && KeysOk(t)
  }

  lemma {:induction false} StepLength(t: Table, a: Action)
    ensures |Step(t, a).0.rows| == |t.rows| + if Step(t, a).1 == Inserted(true) then 1 else 0
    ensures Step(t, a).0.nextToken >= t.nextToken
    ensures Step(t, a).1 == Inserted(true) ==>
              a.Insert? && FindKey(t.rows, a.key).None? && Step(t, a).0 == t.(rows := t.rows + [NewRow(a)])
  {
    ChosenSound(t.rows, a);
    hide Chosen, Guard, NewRow;
  }

  lemma {:induction false} RowsStayOk(t: Table, a: Action, j: nat)
    requires j < |t.rows| && RowOk(t.rows[j]) && SettledAlike(t.rows[j]) && Disciplined(a)
    ensures j < |Step(t, a).0.rows| && RowOk(Step(t, a).0.rows[j]) && SettledAlike(Step(t, a).0.rows[j])
  {
    hide Step, Guard;
    RowStep(t, a, j);
  }

  /** A claim in the new table is either an old one kept on its row, or carries the fresh token of its place in the batch. */
  predicate ClaimFrom(t: Table, a: Action, j: nat, answer: Answer, c: Option<Claim>)
    requires j < |t.rows|
  {
    || SameHolder(t.rows[j].claim, c)
    || (answer.Touched? && c.Some? && exists n :: 0 <= n < |answer.ids| && answer.ids[n] == j && NewHolder(a, t.nextToken + n, c.value))
  }

  lemma {:induction false} RewrittenClaim(t: Table, a: Action, j: nat)
    requires !a.Insert? && j < |t.rows| && InRange(t.rows, Chosen(t.rows, a))
    ensures var ids := Chosen(t.rows, a);
            var r := Rewrite(t.rows, a, ids, t.nextToken)[j];
            r.claim.Some? ==> ClaimFrom(t, a, j, Touched(ids), r.claim)
  {
    hide Changed, Guard, Chosen, SameHolder, NewHolder, Disciplined, Ended, Rewrite;
    var ids := Chosen(t.rows, a);
    ChosenSound(t.rows, a);
    RewriteAt(t.rows, a, ids, t.nextToken, j);
    if n :| 0 <= n < |ids| && ids[n] == j {
      ChangeIsOk(a, t.nextToken + n, j, t.rows[j]);
    } else {
      assert j !in ids;
      KeptHolder(t.rows[j].claim);
    }
  }

  lemma {:induction false} ClaimOrigin(t: Table, a: Action, j: nat)
    requires j < |t.rows| && j < |Step(t, a).0.rows| && Step(t, a).0.rows[j].claim.Some?
    ensures ClaimFrom(t, a, j, Step(t, a).1, Step(t, a).0.rows[j].claim)
  {
    KeptHolder(t.rows[j].claim);
    ChosenSound(t.rows, a);
    hide Guard, Chosen, RowOk, SameHolder, NewHolder;
    if !a.Insert? {
      RewrittenClaim(t, a, j);
    }
  }

  lemma {:induction false} KeptHolder(c: Option<Claim>)
    ensures SameHolder(c, c)
  {
  }

  lemma {:induction false} ClaimCounts(t: Table, a: Action)
    ensures a.ClaimPending? && Step(t, a).1.Touched? ==> Step(t, a).0.nextToken == t.nextToken + |Step(t, a).1.ids|
    ensures Step(t, a).1.Touched? ==> Distinct(Step(t, a).1.ids) && InRange(t.rows, Step(t, a).1.ids)
  {
    ChosenSound(t.rows, a);
    hide Chosen, Guard;
  }

  lemma {:induction false} StepKeepsTokens(t: Table, a: Action)
    requires TokensOk(t)
    ensures TokensOk(Step(t, a).0)
  {
    var u := Step(t, a).0;
    StepLength(t, a);
    ClaimCounts(t, a);
    hide Step;
    forall j | 0 <= j < |u.rows| && u.rows[j].claim.Some? ensures u.rows[j].claim.value.token < u.nextToken {
      if j < |t.rows| {
        ClaimOrigin(t, a, j);
      }
    }
    forall i, j | 0 <= i < j < |u.rows| && u.rows[i].claim.Some? && u.rows[j].claim.Some?
      ensures u.rows[i].claim.value.token != u.rows[j].claim.value.token
    {
      if j < |t.rows| {
        ClaimOrigin(t, a, i);
        ClaimOrigin(t, a, j);
      }
    }
  }

  lemma {:induction false} StepKeepsGood(t: Table, a: Action)
    requires Good(t) && Disciplined(a)
    ensures Good(Step(t, a).0)
  {
    var u := Step(t, a).0;
    StepLength(t, a);
    StepKeepsTokens(t, a);
    hide Step, TokensOk;
    forall j | 0 <= j < |u.rows| ensures RowOk(u.rows[j]) && SettledAlike(u.rows[j]) {
      if j < |t.rows| {
        RowsStayOk(t, a, j);
      }
    }
    forall i, j | 0 <= i < j < |u.rows| ensures u.rows[i].key != u.rows[j].key {
      RevisionRises(t, a, i);
      if j < |t.rows| {
        RevisionRises(t, a, j);
      }
    }
  }

  lemma {:induction false} RunKeepsGood(actions: seq<Action>)
    requires AllDisciplined(actions)
    ensures Good(Run(EMPTY, actions))
  {
    if actions != [] {
      hide Good, Step;
      RunKeepsGood(actions[..|actions| - 1]);
      StepKeepsGood(Run(EMPTY, actions[..|actions| - 1]), actions[|actions| - 1]);
    } else {
      assert Good(EMPTY);
    }
  }

  // ---- tickets ----

  /** Every ticket handed out in a run. */
  function Issued(t: Table, actions: seq<Action>): seq<Ticket> {
    if actions == [] then []
    else
      var init, last := actions[..|actions| - 1], actions[|actions| - 1];
      Issued(t, init) + if last.ClaimPending? then TicketsOf(Run(t, init), last) else []
  }

  /** While the revision of its row has not moved, a ticket is the current claim; after that it is history. */
  predicate TicketOk(t: Table, k: Ticket) {
    && k.id < |t.rows| && k.token < t.nextToken && k.revision <= t.rows[k.id].revision
    && (t.rows[k.id].revision == k.revision ==>
          var c := t.rows[k.id].claim; c.Some? && c.value.token == k.token && c.value.owner == k.owner)
  }

  predicate Apart(a: Ticket, b: Ticket) {
    a.token != b.token && (a.id == b.id ==> a.revision != b.revision)
  }

  lemma {:induction false} TicketsAre(t: Table, a: Action)
    requires a.ClaimPending?
    ensures var ks := TicketsOf(t, a);
            var (u, answer) := Step(t, a);
            && (answer.Touched? ==> |ks| == |answer.ids|)
            && (!answer.Touched? ==> ks == [])
            && forall n :: 0 <= n < |ks| ==>
                 ks[n].id == answer.ids[n] < |t.rows| && ks[n].token == t.nextToken + n && ks[n].owner == a.owner &&
                 ks[n].revision == t.rows[ks[n].id].revision + 1 && u.rows[ks[n].id].revision == ks[n].revision
    ensures forall k :: k in TicketsOf(t, a) ==> TicketOk(Step(t, a).0, k)
  {
    ChosenSound(t.rows, a);
    StepLength(t, a);
    var ids := Chosen(t.rows, a);
    hide Chosen, Guard, RowOk;
    forall n | 0 <= n < |ids| ensures Rewrite(t.rows, a, ids, t.nextToken)[ids[n]] == Changed(a, t.nextToken + n, t.rows[ids[n]]) {
      RewriteAt(t.rows, a, ids, t.nextToken, ids[n]);
    }
  }

  /** A ticket stays what it is through any statement. */
  lemma {:induction false} TicketThroughStep(t: Table, a: Action, k: Ticket)
    requires TicketOk(t, k)
    ensures TicketOk(Step(t, a).0, k)
  {
    StepLength(t, a);
    hide Step, Guard;
    RowStep(t, a, k.id);
  }

  predicate TicketsOk(t: Table, ks: seq<Ticket>) {
    (forall i :: 0 <= i < |ks| ==> TicketOk(t, ks[i])) && forall i, j :: 0 <= i < j < |ks| ==> Apart(ks[i], ks[j])
  }

  lemma {:induction false} NewTicketsApart(t: Table, a: Action, olds: seq<Ticket>)
    requires TicketsOk(t, olds) && a.ClaimPending?
    ensures TicketsOk(Step(t, a).0, olds + TicketsOf(t, a))
  {
    hide Step, TicketsOf;
    var news := TicketsOf(t, a);
    TicketsAre(t, a);
    ClaimCounts(t, a);
    forall i | 0 <= i < |olds| ensures TicketOk(Step(t, a).0, olds[i]) {
      TicketThroughStep(t, a, olds[i]);
    }
    forall i | 0 <= i < |news| ensures TicketOk(Step(t, a).0, news[i]) {
      assert news[i] in news;
    }
    forall i, j | 0 <= i < j < |olds + news| ensures Apart((olds + news)[i], (olds + news)[j]) {
      if i < |olds| <= j {
        assert TicketOk(t, olds[i]);
      }
    }
  }

  lemma {:induction false} IssuedOk(actions: seq<Action>)
    ensures TicketsOk(Run(EMPTY, actions), Issued(EMPTY, actions))
  {
    if actions != [] {
      var init, last := actions[..|actions| - 1], actions[|actions| - 1];
      IssuedOk(init);
      var t, ks := Run(EMPTY, init), Issued(EMPTY, init);
      hide Step, TicketOk, TicketsOf;
      if last.ClaimPending? {
        NewTicketsApart(t, last, ks);
      } else {
        assert ks + [] == ks;
        forall i | 0 <= i < |ks| ensures TicketOk(Step(t, last).0, ks[i]) {
          TicketThroughStep(t, last, ks[i]);
        }
      }
    }
  }

  // ---- the theorems ----

  /** A statement by which a worker finishes its claim: settle, retry later, or give up. */
  predicate Finishes(a: Action, k: Ticket) {
    (a.Finalize? || a.RetryOrDie?) && a.ticket == k
  }

  /** A finishing statement is accepted exactly while no other status change has happened and the lease runs. */
  lemma {:induction false} AcceptedIff(actions: seq<Action>, k: Ticket, now: int)
    requires AllDisciplined(actions) && k in Issued(EMPTY, actions)
    ensures var t := Run(EMPTY, actions);
            k.id < |t.rows| &&
            (Accepts(t.rows[k.id], k, now) <==>
             t.rows[k.id].revision == k.revision && t.rows[k.id].claim.Some? && t.rows[k.id].claim.value.until > now)
  {
    IssuedOk(actions);
    RunKeepsGood(actions);
    hide Run, Issued;
    var i :| 0 <= i < |Issued(EMPTY, actions)| && Issued(EMPTY, actions)[i] == k;
    assert TicketOk(Run(EMPTY, actions), k);
  }

  /** At most one ticket of a request can be accepted at any moment, whoever holds the others. */
  lemma {:induction false} OneLiveTicket(actions: seq<Action>, a: Ticket, b: Ticket, now: int)
    requires AllDisciplined(actions) && a in Issued(EMPTY, actions) && b in Issued(EMPTY, actions) && a.id == b.id
    requires a.id < |Run(EMPTY, actions).rows|
    requires Accepts(Run(EMPTY, actions).rows[a.id], a, now) && Accepts(Run(EMPTY, actions).rows[a.id], b, now)
    ensures a == b
  {
    IssuedOk(actions);
    hide Run, Issued;
    var ks := Issued(EMPTY, actions);
    var i :| 0 <= i < |ks| && ks[i] == a;
    var j :| 0 <= j < |ks| && ks[j] == b;
    if i < j {
      assert Apart(ks[i], ks[j]);
    } else if j < i {
      assert Apart(ks[j], ks[i]);
    }
  }

  lemma {:induction false} RefusedChangesNothing(t: Table, a: Action, k: Ticket)
    requires Finishes(a, k) && (k.id < |t.rows| ==> !Accepts(t.rows[k.id], k, a.now))
    ensures Step(t, a) == (t, Touched([]))
  {
    assert Chosen(t.rows, a) == [];
  }

  lemma {:induction false} RunConcat(t: Table, a: seq<Action>, b: seq<Action>)
    ensures Run(t, a + b) == Run(Run(t, a), b)
  {
    if b == [] {
      assert a + b == a;
    } else {
      assert (a + b)[..|a + b| - 1] == a + b[..|b| - 1];
      RunConcat(t, a, b[..|b| - 1]);
      hide Step;
    }
  }

  /** Claim fencing: once any statement has changed the status of the claimed request (a requeue, an abandon, another
      claim, a finish), the old ticket can never settle, retry or kill it again, at any later time. */
  lemma {:induction false} FencedForever(before: seq<Action>, k: Ticket, between: seq<Action>, a: Action, after: seq<Action>,
                                         finish: Action)
    requires AllDisciplined(before) && AllDisciplined(between) && Disciplined(a) && AllDisciplined(after)
    requires k in Issued(EMPTY, before) && Finishes(finish, k)
    requires var t := Run(Run(EMPTY, before), between);
             k.id < |t.rows| && k.id < |Step(t, a).0.rows| && Step(t, a).0.rows[k.id].status != t.rows[k.id].status
    ensures var u := Run(Step(Run(Run(EMPTY, before), between), a).0, after);
            Step(u, finish) == (u, Touched([]))
  {
    IssuedOk(before);
    var ks := Issued(EMPTY, before);
    var i :| 0 <= i < |ks| && ks[i] == k;
    hide Issued, Guard, Step, Accepts;
    assert TicketOk(Run(EMPTY, before), k);
    RevisionRisesInRun(Run(EMPTY, before), between, k.id);
    var t := Run(Run(EMPTY, before), between);
    RevisionRises(t, a, k.id);
    RevisionRisesInRun(Step(t, a).0, after, k.id);
    var u := Run(Step(t, a).0, after);
    StaleIsRefused(u.rows[k.id], k, finish.now);
    RefusedChangesNothing(u, finish, k);
  }

  lemma {:induction false} StaleIsRefused(r: Row, k: Ticket, now: int)
    requires r.revision > k.revision
    ensures !Accepts(r, k, now)
  {
  }

  /** How often a run settled request `j`. */
  function Settlements(t: Table, actions: seq<Action>, j: nat): nat {
    if actions == [] then 0
    else
      var init, last := actions[..|actions| - 1], actions[|actions| - 1];
      var (u, answer) := Step(Run(t, init), last);
      Settlements(t, init, j) + if last.Finalize? && answer == Touched([j]) then 1 else 0
  }

  lemma {:induction false} FinalizeSettles(t: Table, a: Action, j: nat)
    requires a.Finalize? && j < |t.rows| && RowOk(t.rows[j])
    ensures Step(t, a).1 == Touched([j]) <==> (t.rows[j].status != Settled && j < |Step(t, a).0.rows| && Step(t, a).0.rows[j].status == Settled)
  {
    var ids := Chosen(t.rows, a);
    if ids != [] {
      var m := Rewrite(t.rows, a, [], t.nextToken);
      assert ids[..0] == [];
    }
  }

  lemma {:induction false} OthersDoNotSettle(t: Table, a: Action, j: nat)
    requires !a.Finalize? && Disciplined(a) && j < |t.rows|
    ensures j < |Step(t, a).0.rows| && (Step(t, a).0.rows[j].status == Settled <==> t.rows[j].status == Settled)
  {
    hide Step, Guard;
    RowStep(t, a, j);
    RevisionRises(t, a, j);
  }

  lemma {:induction false} TouchedInRange(t: Table, a: Action, j: nat)
    ensures Step(t, a).1 == Touched([j]) ==> j < |t.rows|
  {
    ClaimCounts(t, a);
    hide Step;
    if Step(t, a).1 == Touched([j]) {
      assert Step(t, a).1.ids[0] < |t.rows|;
    }
  }

  lemma {:induction false} NewRowIsOpen(a: Action)
    requires a.Insert?
    ensures NewRow(a).status == Authorized
  {
  }

  /** Each request is settled at most once, and it is settled exactly when one worker's finalize was accepted. */
  lemma {:induction false} SettledAtMostOnce(actions: seq<Action>, j: nat)
    requires AllDisciplined(actions)
    ensures var t := Run(EMPTY, actions);
            Settlements(EMPTY, actions, j) == if j < |t.rows| && t.rows[j].status == Settled then 1 else 0
  {
    if actions != [] {
      var init, last := actions[..|actions| - 1], actions[|actions| - 1];
      SettledAtMostOnce(init, j);
      RunKeepsGood(init);
      var t := Run(EMPTY, init);
      StepLength(t, last);
      ClaimCounts(t, last);
      hide Step, Good, NewRow, Guard;
      if j < |t.rows| {
        RevisionRises(t, last, j);
        if last.Finalize? {
          assert RowOk(t.rows[j]) by {
            GoodRow(t, j);
          }
          FinalizeSettles(t, last, j);
        } else {
          OthersDoNotSettle(t, last, j);
        }
      } else {
        if last.Insert? {
          NewRowIsOpen(last);
        }
        TouchedInRange(t, last, j);
      }
    }
  }

  lemma {:induction false} GoodRow(t: Table, j: nat)
    requires Good(t) && j < |t.rows|
    ensures RowOk(t.rows[j])
  {
  }

  /** End states are final: a settled or released request keeps its status, revision and settlement time for ever. */
  lemma {:induction false} EndStatesAreFinal(before: seq<Action>, after: seq<Action>, j: nat)
    requires AllDisciplined(before) && AllDisciplined(after)
    requires j < |Run(EMPTY, before).rows| && Ended(Run(EMPTY, before).rows[j].status)
    ensures var r := Run(EMPTY, before).rows[j];
            var t := Run(Run(EMPTY, before), after);
            j < |t.rows| && t.rows[j].status == r.status && t.rows[j].settledAt == r.settledAt && t.rows[j].revision == r.revision
  {
    hide Run;
    RevisionRisesInRun(Run(EMPTY, before), after, j);
  }
}
