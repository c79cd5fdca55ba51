/** Recovery pass after pass: who is ever reached. Requests that the wallet refuses stay in the queue at the place of their
    lease, so they can keep others waiting. The listing orders by lease alone, so ties may fall either way in each pass. */
module FundingQueue {
  import opened Options
  import opened OrderedQuery
  import opened Allocation
  import opened BillingRequests
  import opened BillingRecovery
  import opened Funding
  import opened FundingBalance
  import opened FundingWallet
  import opened FundingRuns
  import opened FundingRecovery

  /** What stays the same over all passes; the wallet refuses the requests in `refused`, now and later, and no others. */
  datatype Setup = Setup(kind: Recovery, limit: nat, failure: string, refused: set<nat>)

  /** When a pass lists, what it lists, and what the clock says at each of its turns. */
  datatype Pass = Pass(at: int, ids: seq<nat>, clock: nat -> int)

  function TurnsOf(p: Pass, refused: set<nat>): nat -> Turn {
    (i: nat) => Turn(p.clock(i), i < |p.ids| && p.ids[i] !in refused)
  }

  function AfterPass(b: Books, p: Pass, s: Setup): Books {
    AfterTurns(b, p.ids, s.kind, s.failure, TurnsOf(p, s.refused))
  }

  function AfterPasses(b: Books, passes: seq<Pass>, s: Setup): Books {
    if passes == [] then b else AfterPass(AfterPasses(b, passes[..|passes| - 1], s), passes[|passes| - 1], s)
  }

  // ---- the queue ----

  /** Recovery will release this request once its lease is over. */
  predicate Waiting(rows: seq<Row>, kind: Recovery, j: nat) {
    j < |rows| && rows[j].status == KindStatus(kind) && rows[j].leaseUntil.Some? && (kind == FromAuthorized ==> rows[j].startedAt.None?)
  }

  function LeaseOf(rows: seq<Row>, kind: Recovery, j: nat): int
    requires Waiting(rows, kind, j)
  {
    rows[j].leaseUntil.value
  }

  predicate Due(rows: seq<Row>, kind: Recovery, at: int, j: nat) {
    Waiting(rows, kind, j) && LeaseOf(rows, kind, j) <= at
  }

  /** What a listing may return: due requests, each once, as many as the limit allows, and none whose lease ran out after
      that of a due request which is left out. */
  ghost predicate IsListing(rows: seq<Row>, kind: Recovery, limit: nat, at: int, ids: seq<nat>) {
    && Distinct(ids) && |ids| <= limit
    && (forall i :: i in ids ==> Due(rows, kind, at, i))
    && forall j :: Due(rows, kind, at, j) && j !in ids ==>
         |ids| == limit && forall i :: i in ids ==> LeaseOf(rows, kind, i) <= LeaseOf(rows, kind, j)
  }

  lemma {:induction false} CandidateIff(rows: seq<Row>, kind: Recovery, limit: nat, at: int, x: Item)
    ensures x in Candidates(rows, RecoverExpired(kind, limit, "", at, {})) <==>
            Due(rows, kind, at, x.id) && x == Item(x.id, At(LeaseOf(rows, kind, x.id)), 0)
  {
    var a := RecoverExpired(kind, limit, "", at, {});
    CandidatesSound(rows, a);
    if x.id < |rows| && Guard(a, x.id, rows[x.id]) {
      CandidatesComplete(rows, a, x.id);
    }
  }

  /** The listing that breaks ties by position is one of them. */
  lemma {:induction false} ListedIsListing(rows: seq<Row>, kind: Recovery, limit: nat, at: int)
    ensures IsListing(rows, kind, limit, at, Listed(rows, kind, limit, at))
  {
    hide Candidates, FirstIds, Waiting, Distinct, DistinctIds;
    var a, ids := RecoverExpired(kind, limit, "", at, {}), Listed(rows, kind, limit, at);
    var items := Candidates(rows, a);
    CandidatesSound(rows, a);
    FirstIdsSound(items, limit);
    forall i | i in ids ensures Due(rows, kind, at, i) {
      var n: nat :| n < |ids| && ids[n] == i;
      var x :| x in items && x.id == i;
      CandidateIff(rows, kind, limit, at, x);
    }
    forall j | Due(rows, kind, at, j) && j !in ids
      ensures |ids| == limit && forall i :: i in ids ==> LeaseOf(rows, kind, i) <= LeaseOf(rows, kind, j)
    {
      var y := Item(j, At(LeaseOf(rows, kind, j)), 0);
      CandidateIff(rows, kind, limit, at, y);
      if |items| <= limit {
        ShortScan(items, limit, y);
      }
      forall i | i in ids ensures LeaseOf(rows, kind, i) <= LeaseOf(rows, kind, j) {
        FirstIdsAreFirst(items, limit, i, y);
        var x :| x in items && x.id == i && Before(x, y);
        CandidateIff(rows, kind, limit, at, x);
      }
    }
  }

  /** The requests whose leases run out before that of request `q`; with `ties` also those that run out with it. */
  function Ahead(rows: seq<Row>, kind: Recovery, q: nat, ties: bool): set<nat>
    requires Waiting(rows, kind, q)
  {
    set j: nat | j < |rows| && Waiting(rows, kind, j) && j != q &&
                 (LeaseOf(rows, kind, j) < LeaseOf(rows, kind, q) || (ties && LeaseOf(rows, kind, j) == LeaseOf(rows, kind, q)))
  }

  predicate Stuck(b: Books, j: nat, refused: set<nat>) {
    j in refused && PaygHeld(b.funds.reservations, j)
  }

  /** Those of them that the wallet refuses. */
  function Blocking(b: Books, s: Setup, q: nat, ties: bool): set<nat>
    requires Waiting(b.requests.rows, s.kind, q)
  {
    set j | j in Ahead(b.requests.rows, s.kind, q, ties) && Stuck(b, j, s.refused)
  }

  lemma {:induction false} Fewer(a: set<nat>, b: set<nat>)
    requires a <= b
    ensures |a| <= |b| && (a != b ==> |a| < |b|)
  {
    assert b == a + (b - a);
    if a != b {
      assert b - a != {};
    }
  }

  /** No listing has room for a request when as many refused ones as the limit are due before it. */
  lemma {:induction false} NoRoom(b: Books, s: Setup, at: int, ids: seq<nat>, q: nat)
    requires IsListing(b.requests.rows, s.kind, s.limit, at, ids) && Due(b.requests.rows, s.kind, at, q)
    requires |Blocking(b, s, q, false)| >= s.limit
    ensures q !in ids
  {
    hide Stuck, Waiting, Distinct;
    if q in ids {
      var block := Blocking(b, s, q, false);
      forall j | j in block ensures Due(b.requests.rows, s.kind, at, j) && j in ids {
      }
      DistinctCount(ids);
      assert |block + {q}| == |block| + 1;
      Fewer(block + {q}, Members(ids));
    }
  }

  // ---- one pass ----

  ghost predicate ClockOk(p: Pass) {
    forall i: nat :: p.at <= p.clock(i)
  }

  ghost predicate PassOk(b: Books, p: Pass, s: Setup) {
    ClockOk(p) && IsListing(b.requests.rows, s.kind, s.limit, p.at, p.ids)
  }

  lemma {:induction false} DueIsGuarded(rows: seq<Row>, kind: Recovery, at: int, now: int, failure: string, j: nat)
    requires Due(rows, kind, at, j) && at <= now
    ensures Guard(RecoverOne(j, kind, failure, now), j, rows[j])
  {
  }

  /** What a pass does to any request: a listed one is released unless the wallet refuses it, all others stay. */
  lemma {:induction false} PassOn(b: Books, p: Pass, s: Setup, j: nat)
    requires Balanced(b) && j < |b.requests.rows| && PassOk(b, p, s)
    ensures var e := AfterPass(b, p, s);
            && Balanced(e) && |e.requests.rows| == |b.requests.rows|
            && if j in p.ids && !Stuck(b, j, s.refused) then e.requests.rows[j].status == Released
               else e.requests.rows[j] == b.requests.rows[j] &&
                    (PaygHeld(e.funds.reservations, j) <==> PaygHeld(b.funds.reservations, j))
  {
    hide Balanced, AfterTurns, PaygHeld, Guard, Distinct;
    var turns := TurnsOf(p, s.refused);
    PassAnswers(b, p.ids, s.kind, s.failure, turns);
    if i: nat :| i < |p.ids| && p.ids[i] == j {
      DueIsGuarded(b.requests.rows, s.kind, p.at, turns(i).now, s.failure, j);
      if Stuck(b, j, s.refused) {
        PassKeepsShare(b, p.ids, s.kind, s.failure, turns, i);
      }
    }
  }

  /** While a request waits, a pass takes from the requests ahead of it those that it lists and that are not stuck. */
  lemma {:induction false} QueueMoves(b: Books, p: Pass, s: Setup, q: nat, ties: bool)
    requires Balanced(b) && PassOk(b, p, s) && Waiting(b.requests.rows, s.kind, q)
    requires q < |AfterPass(b, p, s).requests.rows| && AfterPass(b, p, s).requests.rows[q] == b.requests.rows[q]
    ensures var e := AfterPass(b, p, s);
            && Waiting(e.requests.rows, s.kind, q) && LeaseOf(e.requests.rows, s.kind, q) == LeaseOf(b.requests.rows, s.kind, q)
            && Ahead(e.requests.rows, s.kind, q, ties) ==
               (set j | j in Ahead(b.requests.rows, s.kind, q, ties) && !(j in p.ids && !Stuck(b, j, s.refused)))
            && Blocking(e, s, q, ties) == Blocking(b, s, q, ties)
  {
    hide Balanced, AfterPass, PaygHeld, PassOk;
    var e := AfterPass(b, p, s);
    PassOn(b, p, s, q);
    forall j: nat
      ensures j in Ahead(e.requests.rows, s.kind, q, ties) <==>
              j in Ahead(b.requests.rows, s.kind, q, ties) && !(j in p.ids && !Stuck(b, j, s.refused))
      ensures j in Ahead(e.requests.rows, s.kind, q, ties) ==> (Stuck(e, j, s.refused) <==> Stuck(b, j, s.refused))
      ensures j in Blocking(b, s, q, ties) ==> j in Ahead(e.requests.rows, s.kind, q, ties)
    {
      if j < |b.requests.rows| {
        PassOn(b, p, s, j);
      }
    }
  }

  /** A request that is left out of a list stays as it is, with the same requests blocking it; unless these fill the list,
      it comes nearer to the head of the queue. */
  lemma {:induction false} LeftOut(b: Books, p: Pass, s: Setup, q: nat)
    requires Balanced(b) && PassOk(b, p, s) && Due(b.requests.rows, s.kind, p.at, q) && q !in p.ids
    ensures var e := AfterPass(b, p, s);
            && Balanced(e) && Waiting(e.requests.rows, s.kind, q) && e.requests.rows[q] == b.requests.rows[q]
            && (Stuck(e, q, s.refused) <==> Stuck(b, q, s.refused))
            && Blocking(e, s, q, false) == Blocking(b, s, q, false) && Blocking(e, s, q, true) == Blocking(b, s, q, true)
            && (|Blocking(b, s, q, true)| < s.limit ==>
                  |Ahead(e.requests.rows, s.kind, q, true)| < |Ahead(b.requests.rows, s.kind, q, true)|)
  {
    hide Balanced, AfterPass, PaygHeld, ClockOk, Distinct;
    PassOn(b, p, s, q);
    QueueMoves(b, p, s, q, false);
    QueueMoves(b, p, s, q, true);
    if |Blocking(b, s, q, true)| < s.limit {
      FreshListed(b, p, s, q);
      Fewer(Ahead(AfterPass(b, p, s).requests.rows, s.kind, q, true), Ahead(b.requests.rows, s.kind, q, true));
    }
  }

  /** A list that leaves a due request out, and that refused ones do not fill, has one ahead of it that is not refused. */
  lemma {:induction false} FreshListed(b: Books, p: Pass, s: Setup, q: nat)
    requires PassOk(b, p, s) && Due(b.requests.rows, s.kind, p.at, q) && q !in p.ids && |Blocking(b, s, q, true)| < s.limit
    ensures exists j :: j in Ahead(b.requests.rows, s.kind, q, true) && j in p.ids && !Stuck(b, j, s.refused)
  {
    hide Stuck, ClockOk, Distinct;
    forall i | i in p.ids ensures i in Ahead(b.requests.rows, s.kind, q, true) {
      assert Due(b.requests.rows, s.kind, p.at, i);
    }
    if forall i :: i in p.ids ==> Stuck(b, i, s.refused) {
      DistinctCount(p.ids);
      assert Members(p.ids) <= Blocking(b, s, q, true);
      Fewer(Members(p.ids), Blocking(b, s, q, true));
    }
  }

  /** A released request is listed no more. */
  lemma {:induction false} StaysReleased(b: Books, p: Pass, s: Setup, q: nat)
    requires Balanced(b) && PassOk(b, p, s) && q < |b.requests.rows| && b.requests.rows[q].status == Released
    ensures var e := AfterPass(b, p, s);
            Balanced(e) && q < |e.requests.rows| && e.requests.rows[q].status == Released
  {
    hide Balanced, AfterPass, PaygHeld, ClockOk;
    PassOn(b, p, s, q);
    assert !Due(b.requests.rows, s.kind, p.at, q);
  }

  // ---- pass after pass ----

  /** From these books every pass lists what is due then, at a time when the lease `due` is over. */
  ghost predicate PassesOk(b: Books, passes: seq<Pass>, s: Setup, due: int) {
    passes != [] ==>
      var init, p := passes[..|passes| - 1], passes[|passes| - 1];
      PassesOk(b, init, s, due) && PassOk(AfterPasses(b, init, s), p, s) && due <= p.at
  }

  /** Where enough refused requests are ahead, no number of passes reaches the request. */
  lemma {:induction false} NeverReached(b: Books, passes: seq<Pass>, s: Setup, q: nat)
    requires Balanced(b) && Waiting(b.requests.rows, s.kind, q) && PassesOk(b, passes, s, LeaseOf(b.requests.rows, s.kind, q))
    requires |Blocking(b, s, q, false)| >= s.limit
    ensures var e := AfterPasses(b, passes, s);
            && Balanced(e) && Waiting(e.requests.rows, s.kind, q) && e.requests.rows[q] == b.requests.rows[q]
            && Blocking(e, s, q, false) == Blocking(b, s, q, false)
  {
    hide Balanced, AfterPass, PassOk, Stuck, Ahead;
    if passes != [] {
      var init, p := passes[..|passes| - 1], passes[|passes| - 1];
      NeverReached(b, init, s, q);
      var d := AfterPasses(b, init, s);
      assert q !in p.ids by {
        ListsOf(d, p, s);
        NoRoom(d, s, p.at, p.ids, q);
      }
      LeftOut(d, p, s, q);
    }
  }

  lemma {:induction false} ListsOf(b: Books, p: Pass, s: Setup)
    requires PassOk(b, p, s)
    ensures IsListing(b.requests.rows, s.kind, s.limit, p.at, p.ids)
  {
    hide IsListing;
  }

  /** Where they cannot fill a list, however ties fall, every pass releases the request or brings it nearer to the head. */
  lemma {:induction false} ComesNearer(b: Books, passes: seq<Pass>, s: Setup, q: nat)
    requires Balanced(b) && Waiting(b.requests.rows, s.kind, q) && PassesOk(b, passes, s, LeaseOf(b.requests.rows, s.kind, q))
    requires !Stuck(b, q, s.refused) && |Blocking(b, s, q, true)| < s.limit
    ensures var e := AfterPasses(b, passes, s);
            && Balanced(e) && q < |e.requests.rows|
            && (e.requests.rows[q].status == Released ||
                (Waiting(e.requests.rows, s.kind, q) && e.requests.rows[q] == b.requests.rows[q] && !Stuck(e, q, s.refused) &&
                 Blocking(e, s, q, true) == Blocking(b, s, q, true) &&
                 |Ahead(e.requests.rows, s.kind, q, true)| + |passes| <= |Ahead(b.requests.rows, s.kind, q, true)|))
  {
    hide Balanced, AfterPass, PassOk, Stuck, Ahead, Blocking, PaygHeld;
    if passes != [] {
      var init, p := passes[..|passes| - 1], passes[|passes| - 1];
      ComesNearer(b, init, s, q);
      var d := AfterPasses(b, init, s);
      if d.requests.rows[q].status == Released {
        StaysReleased(d, p, s, q);
      } else if q in p.ids {
        PassOn(d, p, s, q);
      } else {
        LeftOut(d, p, s, q);
      }
    }
  }

  /** After every run, with the wallet refusing a fixed set of requests and nothing else going on, for a due request that is
      not refused itself, and whichever way ties fall in each pass: it is released, once there were more passes than
      requests ahead of it or tied with it, if fewer of these than the limit of a list are refused; it is never touched if
      as many as the limit are refused and strictly ahead. Without refused requests in a tie with it these are all cases. */
  lemma {:induction false} ReachedIff(commands: seq<Command>, passes: seq<Pass>, s: Setup, q: nat)
    requires AllWired(commands)
    requires var b := RunAll(NO_BOOKS, commands);
             && Waiting(b.requests.rows, s.kind, q) && !Stuck(b, q, s.refused)
             && PassesOk(b, passes, s, LeaseOf(b.requests.rows, s.kind, q))
             && |passes| > |Ahead(b.requests.rows, s.kind, q, true)|
    ensures var b := RunAll(NO_BOOKS, commands);
            var e := AfterPasses(b, passes, s);
            && q < |e.requests.rows|
            && (|Blocking(b, s, q, true)| < s.limit ==> e.requests.rows[q].status == Released)
            && (|Blocking(b, s, q, false)| >= s.limit ==> e.requests.rows[q] == b.requests.rows[q])
            && (Blocking(b, s, q, true) == Blocking(b, s, q, false) ==>
                  (e.requests.rows[q].status == Released <==> |Blocking(b, s, q, true)| < s.limit))
  {
    hide RunAll, Balanced, AfterPasses, PassesOk, Stuck, Ahead, Blocking, PassOk;
    RunKeepsBalanced(commands);
    var b := RunAll(NO_BOOKS, commands);
    if |Blocking(b, s, q, true)| < s.limit {
      ComesNearer(b, passes, s, q);
    }
    if |Blocking(b, s, q, false)| >= s.limit {
      NeverReached(b, passes, s, q);
    }
    LengthsStay(b, passes, s, LeaseOf(b.requests.rows, s.kind, q));
  }

  lemma {:induction false} LengthsStay(b: Books, passes: seq<Pass>, s: Setup, due: int)
    requires Balanced(b) && PassesOk(b, passes, s, due)
    ensures Balanced(AfterPasses(b, passes, s)) && |AfterPasses(b, passes, s).requests.rows| == |b.requests.rows|
  {
    hide Balanced, AfterTurns, Distinct, ClockOk, Due;
    if passes != [] {
      var init, p := passes[..|passes| - 1], passes[|passes| - 1];
      LengthsStay(b, init, s, due);
      var d := AfterPasses(b, init, s);
      PassAnswers(d, p.ids, s.kind, s.failure, TurnsOf(p, s.refused));
    }
  }

  /** Where as many refused requests as the limit are strictly ahead, no number of passes ever touches it, refused or not. */
  lemma {:induction false} BlockedForGood(commands: seq<Command>, passes: seq<Pass>, s: Setup, q: nat)
    requires AllWired(commands)
    requires var b := RunAll(NO_BOOKS, commands);
             && Waiting(b.requests.rows, s.kind, q) && PassesOk(b, passes, s, LeaseOf(b.requests.rows, s.kind, q))
             && |Blocking(b, s, q, false)| >= s.limit
    ensures var b := RunAll(NO_BOOKS, commands);
            var e := AfterPasses(b, passes, s);
            q < |e.requests.rows| && e.requests.rows[q] == b.requests.rows[q]
  {
    hide RunAll, Balanced, AfterPasses, PassesOk, Stuck, Ahead, Blocking, PassOk;
    RunKeepsBalanced(commands);
    NeverReached(RunAll(NO_BOOKS, commands), passes, s, q);
  }

  // ---- the inputs that show it ----

  /** Two requests that the wallet funds; the lease of the first runs out at 10. */
  function TwoRequests(lease: int): seq<Command> {
    [Authorize("a", 0, 0, 10, 0, None, 5, 0, 5, true), Authorize("b", 1, 0, lease, 0, None, 5, 0, 5, true)]
  }

  function RowOf(c: Command): Row
    requires c.Authorize?
  {
    NewRow(Insert(c.key, c.createdAt, c.leaseUntil, c.nextAt))
  }

  lemma {:induction false} FundedByWallet(b: Books, c: Command)
    requires c.Authorize? && c.amount == 5 && c.planRoom == 0 && c.paygRoom == 5 && c.subscription.None? && c.wallet
    requires FindKey(b.requests.rows, c.key).None?
    ensures var e := Do(b, c).0;
            && e.requests.rows == b.requests.rows + [RowOf(c)]
            && e.funds.reservations == b.funds.reservations + [Reservation(|b.requests.rows|, Part(Payg, 5), Active)]
  {
    var a := Insert(c.key, c.createdAt, c.leaseUntil, c.nextAt);
    assert Step(b.requests, a) == (b.requests.(rows := b.requests.rows + [RowOf(c)]), Inserted(true));
    hide Step;
    assert PlanFunding(c.amount, c.subscription, c.planRoom, c.paygRoom) == Some((0, 5));
  }

  lemma {:induction false} TwoWaiting(lease: int)
    ensures AllWired(TwoRequests(lease))
    ensures var b := RunAll(NO_BOOKS, TwoRequests(lease));
            && b.requests.rows == [RowOf(TwoRequests(lease)[0]), RowOf(TwoRequests(lease)[1])]
            && PaygHeld(b.funds.reservations, 0)
  {
    hide Do, RowOf, FindKey;
    var c := TwoRequests(lease);
    assert c[..1] == [c[0]] && c[..1][..0] == [];
    var one := Do(NO_BOOKS, c[0]).0;
    OtherKey([RowOf(c[0])], c[1], lease);
    assert FindKey(NO_BOOKS.requests.rows, c[0].key).None? by {
      OtherKey([], c[0], lease);
    }
    FundedByWallet(NO_BOOKS, c[0]);
    assert one.requests.rows == [RowOf(c[0])];
    FundedByWallet(one, c[1]);
    assert RunAll(NO_BOOKS, c) == Do(RunAll(NO_BOOKS, c[..1]), c[1]).0 && RunAll(NO_BOOKS, c[..1]) == one;
    assert IsPayg(Do(one, c[1]).0.funds.reservations[0], 0);
  }

  lemma {:induction false} OtherKey(rows: seq<Row>, c: Command, lease: int)
    requires c.Authorize? && (rows == [] || (|rows| == 1 && rows[0] == RowOf(TwoRequests(lease)[0]) && c.key != "a"))
    ensures FindKey(rows, c.key).None?
  {
    if rows != [] {
      assert rows[0].key == "a";
      assert rows[..0] == [];
    }
  }

  /** With lists of one, and the first request refused by the wallet, the second one, which nothing is wrong with, is not
      released by any number of passes; two would do if it were not for the first. */
  lemma {:induction false} OneRefusedBlocksAnother(passes: seq<Pass>, free: seq<Pass>, failure: string)
    requires var b := RunAll(NO_BOOKS, TwoRequests(20));
             && PassesOk(b, passes, Setup(FromAuthorized, 1, failure, {0}), 20)
             && PassesOk(b, free, Setup(FromAuthorized, 1, failure, {}), 20) && |free| >= 2
    ensures var b := RunAll(NO_BOOKS, TwoRequests(20));
            var e := AfterPasses(b, passes, Setup(FromAuthorized, 1, failure, {0}));
            var f := AfterPasses(b, free, Setup(FromAuthorized, 1, failure, {}));
            && Waiting(b.requests.rows, FromAuthorized, 1) && !Stuck(b, 1, {0})
            && |e.requests.rows| > 1 && e.requests.rows[1] == b.requests.rows[1]
            && |f.requests.rows| > 1 && f.requests.rows[1].status == Released
  {
    hide RunAll, AfterPasses, PaygHeld, PassesOk;
    var b, s, t := RunAll(NO_BOOKS, TwoRequests(20)), Setup(FromAuthorized, 1, failure, {0}), Setup(FromAuthorized, 1, failure, {});
    TwoWaiting(20);
    assert Ahead(b.requests.rows, FromAuthorized, 1, false) == {0} && Ahead(b.requests.rows, FromAuthorized, 1, true) == {0};
    assert Blocking(b, s, 1, false) == {0} && Blocking(b, t, 1, true) == {};
    BlockedForGood(TwoRequests(20), passes, s, 1);
    ReachedIff(TwoRequests(20), free, t, 1);
  }

  /** In a tie with a refused request both can happen: of two such requests a list of one may hold either, and a pass over
      the refused one changes no row, while a pass over the other one releases it. */
  lemma {:induction false} TiesDecide(at: int, clock: nat -> int, failure: string)
    requires at >= 10 && forall i: nat :: at <= clock(i)
    ensures var b := RunAll(NO_BOOKS, TwoRequests(10));
            var s := Setup(FromAuthorized, 1, failure, {0});
            var kept, freed := AfterPass(b, Pass(at, [0], clock), s), AfterPass(b, Pass(at, [1], clock), s);
            && PassOk(b, Pass(at, [0], clock), s) && PassOk(b, Pass(at, [1], clock), s)
            && kept.requests.rows == b.requests.rows
            && |freed.requests.rows| == 2 && freed.requests.rows[1].status == Released
  {
    hide RunAll, AfterPass, PaygHeld, AllWired, Balanced, Do, FindKey;
    var b, s := RunAll(NO_BOOKS, TwoRequests(10)), Setup(FromAuthorized, 1, failure, {0});
    TwoWaiting(10);
    RunKeepsBalanced(TwoRequests(10));
    PassOn(b, Pass(at, [0], clock), s, 0);
    PassOn(b, Pass(at, [0], clock), s, 1);
    PassOn(b, Pass(at, [1], clock), s, 1);
  }
}
