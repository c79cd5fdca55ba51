/** The recovery worker lists the requests to release without locking them, and then releases each in a transaction of
    its own, so that a request that cannot be released costs only itself. */
module FundingRecovery {
  import opened OrderedQuery
  import opened Sums
  import opened BillingRequests
  import opened BillingFencing
  import opened BillingRecovery
  import opened Funding
  import opened FundingBalance
  import opened FundingWallet
  import opened FundingRuns

  /** What one transaction of the loop finds: the time, and whether the wallet does its part. */
  datatype Turn = Turn(now: int, wallet: bool)

  datatype Fault = Fault(request: nat, error: Error)

  function RecoverTurn(id: nat, kind: Recovery, failure: string, turn: Turn): Command {
    Recover(id, kind, failure, turn.now, turn.wallet)
  }

  /** One transaction per listed request; an error stays with its request. */
  function AfterTurns(b: Books, ids: seq<nat>, kind: Recovery, failure: string, turns: nat -> Turn): Books {
    if ids == [] then b
    else
      var n := |ids| - 1;
      Do(AfterTurns(b, ids[..n], kind, failure, turns), RecoverTurn(ids[n], kind, failure, turns(n))).0
  }

  function Replies(b: Books, ids: seq<nat>, kind: Recovery, failure: string, turns: nat -> Turn): (r: seq<Reply>)
    ensures |r| == |ids|
  {
    if ids == [] then []
    else
      var n := |ids| - 1;
      Replies(b, ids[..n], kind, failure, turns) +
      [Do(AfterTurns(b, ids[..n], kind, failure, turns), RecoverTurn(ids[n], kind, failure, turns(n))).1]
  }

  /** How many requests a pass reports as released. */
  function ReleasedIn(replies: seq<Reply>): nat {
    if replies == [] then 0
    else ReleasedIn(replies[..|replies| - 1]) + if replies[|replies| - 1] == Done then 1 else 0
  }

  /** What a pass reports to its error handler. */
  function FaultsIn(ids: seq<nat>, replies: seq<Reply>): seq<Fault>
    requires |replies| == |ids|
  {
    if ids == [] then []
    else
      var n := |ids| - 1;
      FaultsIn(ids[..n], replies[..n]) + if replies[n].Failed? then [Fault(ids[n], replies[n].error)] else []
  }

  lemma {:induction false} PassStart(b: Books, kind: Recovery, failure: string, turns: nat -> Turn)
    ensures AfterTurns(b, [], kind, failure, turns) == b && Replies(b, [], kind, failure, turns) == []
    ensures ReleasedIn([]) == 0 && FaultsIn([], []) == []
  {
  }

  /** One more turn: its transaction, and what it adds to the reports. */
  lemma {:induction false} PassNext(b: Books, ids: seq<nat>, i: nat, kind: Recovery, failure: string, turns: nat -> Turn)
    requires i < |ids|
    ensures var init, replies := ids[..i], Replies(b, ids[..i], kind, failure, turns);
            var (e, reply) := Do(AfterTurns(b, init, kind, failure, turns),
                                 Recover(ids[i], kind, failure, turns(i).now, turns(i).wallet));
            var longer := Replies(b, ids[..i + 1], kind, failure, turns);
            && AfterTurns(b, ids[..i + 1], kind, failure, turns) == e
            && ReleasedIn(longer) == ReleasedIn(replies) + (if reply == Done then 1 else 0)
            && FaultsIn(ids[..i + 1], longer) ==
               FaultsIn(init, replies) + if reply.Failed? then [Fault(ids[i], reply.error)] else []
  {
    hide Do;
    assert ids[..i + 1][..i] == ids[..i];
    var longer := Replies(b, ids[..i + 1], kind, failure, turns);
    assert longer[..i] == Replies(b, ids[..i], kind, failure, turns);
  }

  // ---- one turn ----

  /** What a recovery of request `id` answers on the books `b`. */
  function AnswerOf(b: Books, id: nat, kind: Recovery, failure: string, turn: Turn): Reply {
    if id >= |b.requests.rows| || !Guard(RecoverOne(id, kind, failure, turn.now), id, b.requests.rows[id]) then NoMatch
    else if turn.wallet || !PaygHeld(b.funds.reservations, id) then Done
    else Failed(WalletRefused)
  }

  /** A release touches no reservation of another request. */
  lemma {:induction false} ReleaseAside(f: Funds, found: seq<Found>, wallet: bool, i: nat)
    requires i < |f.reservations|
    ensures var g := ReleaseEach(f, found, wallet);
            g.Ok? ==> |g.value.reservations| == |f.reservations| &&
                      (!Lists(found, i) ==> g.value.reservations[i] == f.reservations[i])
  {
    if found != [] {
      ReleaseAside(f, found[..|found| - 1], wallet, i);
    }
  }

  lemma {:induction false} WalletAside(f: Funds, id: nat, wallet: bool, q: nat)
    requires q != id && ReleaseEach(f, ActiveOf(f.reservations, id), wallet).Ok?
    ensures PaygHeld(ReleaseEach(f, ActiveOf(f.reservations, id), wallet).value.reservations, q) <==> PaygHeld(f.reservations, q)
  {
    var found := ActiveOf(f.reservations, id);
    var g := ReleaseEach(f, found, wallet).value;
    ActiveOfPicks(f.reservations, id);
    ReleaseRequests(f, found, wallet);
    forall i | 0 <= i < |f.reservations| ensures IsPayg(g.reservations[i], q) <==> IsPayg(f.reservations[i], q) {
      ReleaseAside(f, found, wallet, i);
      assert Lists(found, i) <==> IsActiveOf(f.reservations[i], id);
    }
    hide IsPayg, ActiveOf, ReleaseEach;
  }

  lemma {:induction false} ReleaseRequests(f: Funds, found: seq<Found>, wallet: bool)
    ensures var g := ReleaseEach(f, found, wallet);
            g.Ok? ==> |g.value.reservations| == |f.reservations| &&
                      forall i :: 0 <= i < |f.reservations| ==> g.value.reservations[i].request == f.reservations[i].request
  {
    if found != [] {
      ReleaseRequests(f, found[..|found| - 1], wallet);
    }
  }

  /** A turn answers for its own request alone, writes that row as released or changes nothing, and leaves every other
      request with the row and the wallet share it had. */
  lemma {:induction false} TurnEffect(b: Books, id: nat, kind: Recovery, failure: string, turn: Turn)
    requires Balanced(b)
    ensures var (e, reply) := Do(b, RecoverTurn(id, kind, failure, turn));
            && Balanced(e) && reply == AnswerOf(b, id, kind, failure, turn)
            && (reply != Done ==> e == b)
            && (reply == Done ==>
                  id < |b.requests.rows| &&
                  e.requests == b.requests.(rows := b.requests.rows[id := ReleasedRow(b.requests.rows[id], failure, turn.now)]))
  {
    hide Balanced, Step, Guard, PaygHeld, ReleaseEach, ReleaseExposure, FindActive;
    var c := RecoverTurn(id, kind, failure, turn);
    EndingAnswers(b, c);
    EndKeeps(b, EndAction(c), turn.wallet);
    OneRowStep(b.requests, EndAction(c));
  }

  lemma {:induction false} TurnAside(b: Books, id: nat, kind: Recovery, failure: string, turn: Turn, q: nat)
    requires Balanced(b) && q != id
    ensures PaygHeld(Do(b, RecoverTurn(id, kind, failure, turn)).0.funds.reservations, q) <==> PaygHeld(b.funds.reservations, q)
  {
    var a := RecoverOne(id, kind, failure, turn.now);
    var (requests, answer) := Step(b.requests, a);
    hide Balanced, Step, PaygHeld, ReleaseEach, ReleaseExposure, FindActive;
    if answer == Touched([id]) && id < |requests.rows| && id < |b.bills| {
      var r := ReleaseAll(b.(requests := requests), id, turn.wallet);
      if r.Ok? {
        FoundIsActive(b, requests, a);
        WalletAside(b.funds, id, turn.wallet, q);
      }
    }
  }

  // ---- a whole pass ----

  lemma {:induction false} SameAnswer(b: Books, d: Books, id: nat, kind: Recovery, failure: string, turn: Turn)
    requires |d.requests.rows| == |b.requests.rows|
    requires id < |b.requests.rows| ==>
               d.requests.rows[id] == b.requests.rows[id] &&
               (PaygHeld(d.funds.reservations, id) <==> PaygHeld(b.funds.reservations, id))
    ensures AnswerOf(d, id, kind, failure, turn) == AnswerOf(b, id, kind, failure, turn)
  {
    hide Guard, PaygHeld;
  }

  /** In a pass every request is answered as if it were the only one: which of the others could be released, and in which
      order they came, does not matter. */
  lemma {:induction false} PassAnswers(b: Books, ids: seq<nat>, kind: Recovery, failure: string, turns: nat -> Turn)
    requires Balanced(b) && Distinct(ids)
    ensures var e := AfterTurns(b, ids, kind, failure, turns);
            && Balanced(e) && |e.requests.rows| == |b.requests.rows|
            && (forall i :: 0 <= i < |ids| ==>
                  Replies(b, ids, kind, failure, turns)[i] == AnswerOf(b, ids[i], kind, failure, turns(i)))
            && (forall q :: 0 <= q < |b.requests.rows| && q !in ids ==>
                  e.requests.rows[q] == b.requests.rows[q] &&
                  (PaygHeld(e.funds.reservations, q) <==> PaygHeld(b.funds.reservations, q)))
            && (forall i :: 0 <= i < |ids| && ids[i] < |b.requests.rows| ==>
                  e.requests.rows[ids[i]] ==
                  if AnswerOf(b, ids[i], kind, failure, turns(i)) == Done
                  then ReleasedRow(b.requests.rows[ids[i]], failure, turns(i).now) else b.requests.rows[ids[i]])
  {
    hide Balanced, Do, PaygHeld, Guard, ReleasedRow, AnswerOf, RecoverTurn;
    if ids != [] {
      var n := |ids| - 1;
      var init, id := ids[..n], ids[n];
      PassAnswers(b, init, kind, failure, turns);
      var d, e := AfterTurns(b, init, kind, failure, turns), AfterTurns(b, ids, kind, failure, turns);
      TurnEffect(d, id, kind, failure, turns(n));
      assert id !in init;
      SameAnswer(b, d, id, kind, failure, turns(n));
      forall q | 0 <= q < |b.requests.rows| && q !in ids
        ensures e.requests.rows[q] == b.requests.rows[q] &&
                (PaygHeld(e.funds.reservations, q) <==> PaygHeld(b.funds.reservations, q))
      {
        assert q !in init && q != id;
        TurnAside(d, id, kind, failure, turns(n), q);
      }
    }
  }

  /** A request that a pass does not release keeps the share of it that the wallet holds. */
  lemma {:induction false} PassKeepsShare(b: Books, ids: seq<nat>, kind: Recovery, failure: string, turns: nat -> Turn, i: nat)
    requires Balanced(b) && Distinct(ids) && i < |ids| && ids[i] < |b.requests.rows|
    requires AnswerOf(b, ids[i], kind, failure, turns(i)) != Done
    ensures PaygHeld(AfterTurns(b, ids, kind, failure, turns).funds.reservations, ids[i]) <==> PaygHeld(b.funds.reservations, ids[i])
  {
    hide Balanced, Do, PaygHeld, Guard, ReleasedRow, AnswerOf, RecoverTurn;
    var n := |ids| - 1;
    var init := ids[..n];
    PassAnswers(b, init, kind, failure, turns);
    var d := AfterTurns(b, init, kind, failure, turns);
    TurnEffect(d, ids[n], kind, failure, turns(n));
    if i < n {
      PassKeepsShare(b, init, kind, failure, turns, i);
      TurnAside(d, ids[n], kind, failure, turns(n), ids[i]);
    } else {
      assert ids[n] !in init;
      SameAnswer(b, d, ids[n], kind, failure, turns(n));
    }
  }

  // ---- the pass that follows a listing ----

  /** The wallet holds a part of the request and does not give it back. */
  predicate Refused(b: Books, id: nat, turn: Turn) {
    !turn.wallet && PaygHeld(b.funds.reservations, id)
  }

  /** A row that was listed is still to be released when its turn comes, however much later. */
  lemma {:induction false} ListedIsGuarded(b: Books, kind: Recovery, limit: nat, listedAt: int, failure: string, now: int, i: nat)
    requires i < |Listed(b.requests.rows, kind, limit, listedAt)| && listedAt <= now
    ensures var id := Listed(b.requests.rows, kind, limit, listedAt)[i];
            id < |b.requests.rows| && Guard(RecoverOne(id, kind, failure, now), id, b.requests.rows[id]) &&
            !Ended(b.requests.rows[id].status)
  {
    var a := RecoverExpired(kind, limit, "", listedAt, {});
    ChosenSound(b.requests.rows, a);
    hide Chosen;
    var ids := Listed(b.requests.rows, kind, limit, listedAt);
    assert Guard(a, ids[i], b.requests.rows[ids[i]]);
  }

  /** What the rows of a request hold in balanced books. */
  lemma {:induction false} HeldBilled(b: Books, q: nat)
    requires Balanced(b) && q < |b.requests.rows|
    ensures Sum(b.funds.reservations, HeldBy(q)) == if Ended(b.requests.rows[q].status) then 0 else b.bills[q].reserved
  {
    if Ended(b.requests.rows[q].status) {
      forall i | 0 <= i < |b.funds.reservations| ensures HeldBy(q)(b.funds.reservations[i]) == 0 {
        assert OwnerOk(b, b.funds.reservations[i]);
      }
      SumZero(b.funds.reservations, HeldBy(q));
    }
  }

  /** After every run, a pass over the requests it listed releases exactly those the wallet does not refuse, and reports
      exactly the others; a refused request keeps its row, and no request outside the list changes. */
  lemma {:induction false} FaultsAreIsolated(commands: seq<Command>, kind: Recovery, limit: nat, listedAt: int, failure: string,
                                             turns: nat -> Turn)
    requires AllWired(commands) && forall i: nat :: listedAt <= turns(i).now
    ensures var b := RunAll(NO_BOOKS, commands);
            var ids := Listed(b.requests.rows, kind, limit, listedAt);
            var replies := Replies(b, ids, kind, failure, turns);
            var e := AfterTurns(b, ids, kind, failure, turns);
            && |e.requests.rows| == |b.requests.rows| && InRange(b.requests.rows, ids)
            && (forall i :: 0 <= i < |ids| ==>
                  (replies[i] == if Refused(b, ids[i], turns(i)) then Failed(WalletRefused) else Done) &&
                  e.requests.rows[ids[i]] ==
                  (if Refused(b, ids[i], turns(i)) then b.requests.rows[ids[i]]
                   else ReleasedRow(b.requests.rows[ids[i]], failure, turns(i).now)))
            && (forall q :: 0 <= q < |e.requests.rows| && q !in ids ==> e.requests.rows[q] == b.requests.rows[q])
            && ReleasedIn(replies) + |FaultsIn(ids, replies)| == |ids|
  {
    hide Balanced, RunAll, Replies, AfterTurns, PaygHeld, ReleasedRow, Chosen, Candidates, Guard, Distinct;
    RunKeepsBalanced(commands);
    var b := RunAll(NO_BOOKS, commands);
    var ids := Listed(b.requests.rows, kind, limit, listedAt);
    ChosenSound(b.requests.rows, RecoverExpired(kind, limit, "", listedAt, {}));
    PassAnswers(b, ids, kind, failure, turns);
    forall i | 0 <= i < |ids|
      ensures AnswerOf(b, ids[i], kind, failure, turns(i)) ==
              if Refused(b, ids[i], turns(i)) then Failed(WalletRefused) else Done
    {
      ListedIsGuarded(b, kind, limit, listedAt, failure, turns(i).now, i);
    }
    EachCounts(ids, Replies(b, ids, kind, failure, turns));
  }

  lemma {:induction false} EachCounts(ids: seq<nat>, replies: seq<Reply>)
    requires |replies| == |ids| && forall i :: 0 <= i < |ids| ==> replies[i] == Done || replies[i].Failed?
    ensures ReleasedIn(replies) + |FaultsIn(ids, replies)| == |ids|
  {
    if ids != [] {
      EachCounts(ids[..|ids| - 1], replies[..|ids| - 1]);
    }
  }

  lemma {:induction false} SomeDone(replies: seq<Reply>)
    ensures ReleasedIn(replies) > 0 <==> exists i :: 0 <= i < |replies| && replies[i] == Done
  {
    if replies != [] {
      var n := |replies| - 1;
      SomeDone(replies[..n]);
      if i :| 0 <= i < n && replies[..n][i] == Done {
        assert replies[i] == Done;
      }
      if i :| 0 <= i < |replies| && replies[i] == Done && i < n {
        assert replies[..n][i] == Done;
      }
    }
  }

  /** So a pass releases something if and only if the wallet does not refuse all it listed. */
  lemma {:induction false} ProgressIff(commands: seq<Command>, kind: Recovery, limit: nat, listedAt: int, failure: string,
                                       turns: nat -> Turn)
    requires AllWired(commands) && forall i: nat :: listedAt <= turns(i).now
    ensures var b := RunAll(NO_BOOKS, commands);
            var ids := Listed(b.requests.rows, kind, limit, listedAt);
            ReleasedIn(Replies(b, ids, kind, failure, turns)) > 0 <==>
            exists i :: 0 <= i < |ids| && !Refused(b, ids[i], turns(i))
  {
    var b := RunAll(NO_BOOKS, commands);
    var ids := Listed(b.requests.rows, kind, limit, listedAt);
    var replies := Replies(b, ids, kind, failure, turns);
    FaultsAreIsolated(commands, kind, limit, listedAt, failure, turns);
    SomeDone(replies);
    hide RunAll, Listed, Replies, AfterTurns, ReleasedIn, FaultsIn, Refused, ReleasedRow;
    if i :| 0 <= i < |ids| && !Refused(b, ids[i], turns(i)) {
      assert replies[i] == Done;
    }
  }

  /** What a released request had reserved is free again after the pass, and a refused one still holds all of it. */
  lemma {:induction false} PassGivesBack(commands: seq<Command>, kind: Recovery, limit: nat, listedAt: int, failure: string,
                                         turns: nat -> Turn, i: nat)
    requires AllWired(commands) && forall i: nat :: listedAt <= turns(i).now
    requires i < |Listed(RunAll(NO_BOOKS, commands).requests.rows, kind, limit, listedAt)|
    ensures var b := RunAll(NO_BOOKS, commands);
            var ids := Listed(b.requests.rows, kind, limit, listedAt);
            var e := AfterTurns(b, ids, kind, failure, turns);
            ids[i] < |e.bills| &&
            Sum(e.funds.reservations, HeldBy(ids[i])) == if Refused(b, ids[i], turns(i)) then e.bills[ids[i]].reserved else 0
  {
    var b := RunAll(NO_BOOKS, commands);
    var ids := Listed(b.requests.rows, kind, limit, listedAt);
    RunKeepsBalanced(commands);
    ChosenSound(b.requests.rows, RecoverExpired(kind, limit, "", listedAt, {}));
    FaultsAreIsolated(commands, kind, limit, listedAt, failure, turns);
    PassAnswers(b, ids, kind, failure, turns);
    ListedIsGuarded(b, kind, limit, listedAt, failure, turns(i).now, i);
    HeldBilled(AfterTurns(b, ids, kind, failure, turns), ids[i]);
    hide RunAll, Replies, AfterTurns, PaygHeld, Chosen, Candidates, Guard, Distinct, Sum, ReleasedIn, FaultsIn;
  }

  // ---- with anything else between the turns ----

  /** A pass that others interrupt: before each turn any commands run. */
  function Interrupted(b: Books, ids: seq<nat>, kind: Recovery, failure: string, turns: nat -> Turn,
                       between: nat -> seq<Command>): (r: (Books, seq<Reply>))
    ensures |r.1| == |ids|
  {
    if ids == [] then (b, [])
    else
      var n := |ids| - 1;
      var (d, replies) := Interrupted(b, ids[..n], kind, failure, turns, between);
      var (e, reply) := Do(RunAll(d, between(n)), RecoverTurn(ids[n], kind, failure, turns(n)));
      (e, replies + [reply])
  }

  /** The books that the `i`-th turn finds. */
  function AtTurn(b: Books, ids: seq<nat>, kind: Recovery, failure: string, turns: nat -> Turn, between: nat -> seq<Command>,
                  i: nat): Books
    requires i < |ids|
  {
    RunAll(Interrupted(b, ids[..i], kind, failure, turns, between).0, between(i))
  }

  lemma {:induction false} InterruptedKeeps(b: Books, ids: seq<nat>, kind: Recovery, failure: string, turns: nat -> Turn,
                                            between: nat -> seq<Command>)
    requires Balanced(b) && forall i :: 0 <= i < |ids| ==> AllWired(between(i))
    ensures Balanced(Interrupted(b, ids, kind, failure, turns, between).0)
  {
    hide Balanced, Do, RunAll, AllWired, AnswerOf;
    if ids != [] {
      var n := |ids| - 1;
      InterruptedKeeps(b, ids[..n], kind, failure, turns, between);
      RunOnKeeps(Interrupted(b, ids[..n], kind, failure, turns, between).0, between(n));
      TurnEffect(AtTurn(b, ids, kind, failure, turns, between, n), ids[n], kind, failure, turns(n));
    }
  }

  lemma {:induction false} InterruptedAt(b: Books, ids: seq<nat>, kind: Recovery, failure: string, turns: nat -> Turn,
                                         between: nat -> seq<Command>, i: nat)
    requires i < |ids|
    ensures var d := AtTurn(b, ids, kind, failure, turns, between, i);
            var (e, reply) := Do(d, RecoverTurn(ids[i], kind, failure, turns(i)));
            && Interrupted(b, ids, kind, failure, turns, between).1[i] == reply
            && Interrupted(b, ids[..i + 1], kind, failure, turns, between).0 == e
  {
    hide Do, RunAll;
    var n := |ids| - 1;
    if i < n {
      assert ids[..n][..i] == ids[..i] && ids[..n][..i + 1] == ids[..i + 1];
      InterruptedAt(b, ids[..n], kind, failure, turns, between, i);
    } else {
      assert ids[..i + 1] == ids;
    }
  }

  /** After every run, and with any commands of others before each turn, a turn answers from the books it finds itself: it
      releases its request exactly when that is still to be released and the wallet does not refuse, reports an error
      exactly when the wallet refuses, and otherwise leaves the books alone. It writes no other request, whatever
      happened in the turns before it. */
  lemma {:induction false} EachFromItsOwnTurn(commands: seq<Command>, ids: seq<nat>, kind: Recovery, failure: string,
                                              turns: nat -> Turn, between: nat -> seq<Command>, i: nat)
    requires AllWired(commands) && i < |ids| && forall j :: 0 <= j < |ids| ==> AllWired(between(j))
    ensures var b := RunAll(NO_BOOKS, commands);
            var d := AtTurn(b, ids, kind, failure, turns, between, i);
            var e := Interrupted(b, ids[..i + 1], kind, failure, turns, between).0;
            var reply := Interrupted(b, ids, kind, failure, turns, between).1[i];
            && Balanced(d) && Balanced(e)
            && reply == AnswerOf(d, ids[i], kind, failure, turns(i))
            && (reply != Done ==> e == d)
            && (reply == Done ==>
                  ids[i] < |d.requests.rows| &&
                  e.requests == d.requests.(rows := d.requests.rows[ids[i] := ReleasedRow(d.requests.rows[ids[i]], failure, turns(i).now)]))
  {
    hide Balanced, Do, RunAll, AllWired, AnswerOf, ReleasedRow;
    RunKeepsBalanced(commands);
    var b := RunAll(NO_BOOKS, commands);
    InterruptedKeeps(b, ids[..i], kind, failure, turns, between);
    RunOnKeeps(Interrupted(b, ids[..i], kind, failure, turns, between).0, between(i));
    TurnEffect(AtTurn(b, ids, kind, failure, turns, between, i), ids[i], kind, failure, turns(i));
    InterruptedAt(b, ids, kind, failure, turns, between, i);
  }

  /** A listed request that nobody has touched since is released in its turn unless the wallet refuses it. */
  lemma {:induction false} UntouchedIsReleased(commands: seq<Command>, limit: nat, listedAt: int, kind: Recovery, failure: string,
                                               turns: nat -> Turn, between: nat -> seq<Command>, i: nat)
    requires AllWired(commands)
    requires var b := RunAll(NO_BOOKS, commands);
             var ids := Listed(b.requests.rows, kind, limit, listedAt);
             && i < |ids| && listedAt <= turns(i).now && (forall j :: 0 <= j < |ids| ==> AllWired(between(j)))
             && ids[i] < |b.requests.rows|
             && var d := AtTurn(b, ids, kind, failure, turns, between, i);
                ids[i] < |d.requests.rows| && d.requests.rows[ids[i]] == b.requests.rows[ids[i]]
    ensures var b := RunAll(NO_BOOKS, commands);
            var ids := Listed(b.requests.rows, kind, limit, listedAt);
            var d := AtTurn(b, ids, kind, failure, turns, between, i);
            Interrupted(b, ids, kind, failure, turns, between).1[i] ==
            if Refused(d, ids[i], turns(i)) then Failed(WalletRefused) else Done
  {
    hide Balanced, RunAll, AllWired, Interrupted, AtTurn, PaygHeld, Guard, Listed, ReleasedRow;
    var b := RunAll(NO_BOOKS, commands);
    var ids := Listed(b.requests.rows, kind, limit, listedAt);
    EachFromItsOwnTurn(commands, ids, kind, failure, turns, between, i);
    ListedIsGuarded(b, kind, limit, listedAt, failure, turns(i).now, i);
  }

  // ---- the pass against the statements of the protocol ----

  lemma {:induction false} TurnIsStep(b: Books, id: nat, kind: Recovery, failure: string, turn: Turn)
    requires Balanced(b) && turn.wallet
    ensures var (e, reply) := Do(b, RecoverTurn(id, kind, failure, turn));
            var (u, answer) := Step(b.requests, RecoverOne(id, kind, failure, turn.now));
            Balanced(e) && e.requests == u && ((reply == Done && answer == Touched([id])) || (reply == NoMatch && answer == Touched([])))
  {
    hide Do, PaygHeld, Step;
    var a := RecoverOne(id, kind, failure, turn.now);
    TurnEffect(b, id, kind, failure, turn);
    OneRowStep(b.requests, a);
    hide Balanced;
    if id < |b.requests.rows| && Guard(a, id, b.requests.rows[id]) {
      GoodRow(b.requests, id);
      assert RowOk(Changed(a, b.requests.nextToken, b.requests.rows[id]));
    }
  }

  /** While the wallet does its part and the clock stands still, a pass leaves the request table as its compare-and-sets
      alone do, and counts what they report. */
  lemma {:induction false} PassIsEachRow(b: Books, ids: seq<nat>, kind: Recovery, failure: string, now: int, turns: nat -> Turn)
    requires Balanced(b) && forall i: nat :: turns(i) == Turn(now, true)
    ensures Balanced(AfterTurns(b, ids, kind, failure, turns))
    ensures AfterTurns(b, ids, kind, failure, turns).requests == RecoverEach(b.requests, ids, kind, failure, now)
    ensures ReleasedIn(Replies(b, ids, kind, failure, turns)) == |ReleasedEach(b.requests, ids, kind, failure, now)|
    ensures FaultsIn(ids, Replies(b, ids, kind, failure, turns)) == []
  {
    hide Balanced, Do, Step;
    if ids != [] {
      var n := |ids| - 1;
      PassIsEachRow(b, ids[..n], kind, failure, now, turns);
      var replies := Replies(b, ids, kind, failure, turns);
      assert replies[..n] == Replies(b, ids[..n], kind, failure, turns);
      TurnIsStep(AfterTurns(b, ids[..n], kind, failure, turns), ids[n], kind, failure, turns(n));
    }
  }

  /** So at one clock reading, and with the wallet doing its part, a pass over the books of any run leaves the request table
      that the single batch statement would leave, and counts the rows that statement reports. */
  lemma {:induction false} PassIsBatch(commands: seq<Command>, kind: Recovery, limit: nat, failure: string, now: int,
                                       turns: nat -> Turn)
    requires AllWired(commands) && forall i: nat :: turns(i) == Turn(now, true)
    ensures var b := RunAll(NO_BOOKS, commands);
            var ids := Listed(b.requests.rows, kind, limit, now);
            var (u, answer) := Step(b.requests, RecoverExpired(kind, limit, failure, now, {}));
            && answer == Touched(ids)
            && AfterTurns(b, ids, kind, failure, turns).requests == u
            && ReleasedIn(Replies(b, ids, kind, failure, turns)) == |ids|
  {
    RunKeepsBalanced(commands);
    var b := RunAll(NO_BOOKS, commands);
    hide RunAll, Step;
    var ids := Listed(b.requests.rows, kind, limit, now);
    PassIsEachRow(b, ids, kind, failure, now, turns);
    GoodRowByRow(b.requests, kind, limit, failure, now);
  }
}
