/** The statement of a user account: its legs, newest first, in cursor pages. */
module WalletStatement {
  import opened Options
  import opened WalletTypes
  import opened WalletTables
  import opened WalletSpec
  import opened WalletBooks
  import opened WalletAudit
  import Paging

  /** `others` are the other parties of the transaction, each once: a code stands for all its shards. */
  datatype Line = Line(kind: Kind, ref: Ref, amount: int, balanceAfter: int, others: set<AccountRef>)

  predicate Wanted(kinds: Option<set<Kind>>, kind: Kind) {
    kinds.Some? ==> kind in kinds.value
  }

  function NameOf(owner: Owner): AccountRef {
    match owner
    case User(id) => ToUser(id)
    case Internal(code, _) => ToCode(code)
  }

  /** Every party of a transaction except the reader. */
  function Counterparties(legs: seq<Leg>, tx: nat, reader: Owner): set<AccountRef> {
    set g | g in LegsOf(legs, tx) && g.account.owner != reader :: NameOf(g.account.owner)
  }

  function LineOf(all: seq<Leg>, h: Transaction, g: Leg): Line {
    Line(h.kind, h.ref, g.amount, g.after, Counterparties(all, g.tx, g.account.owner))
  }

  /** The rows the statement query selects among `legs`, in table order; `all` are all legs there are. Transaction ids
      count from one. */
  function StatementRows(legs: seq<Leg>, all: seq<Leg>, txs: seq<Transaction>, k: AccountKey, kinds: Option<set<Kind>>)
    : seq<Paging.Row<Line>>
  {
    if legs == [] then []
    else
      var init, g := legs[..|legs| - 1], legs[|legs| - 1];
      StatementRows(init, all, txs, k, kinds) +
      if g.account == k && g.tx < |txs| && Wanted(kinds, txs[g.tx].kind)
      then [Paging.Row(g.tx + 1, LineOf(all, txs[g.tx], g))] else []
  }

  /** All rows of an account in the tables. */
  function RowsOf(t: Tables, k: AccountKey, kinds: Option<set<Kind>>): seq<Paging.Row<Line>> {
    StatementRows(t.legs, t.legs, t.transactions, k, kinds)
  }

  datatype Statement = Listed(items: seq<Paging.Row<Line>>, next: Option<nat>) | Invalid

  const MAX_LIMIT: int := 100

  function CursorOf(before: Option<int>): Paging.Cursor
    requires before.Some? ==> before.value >= 0
  {
    if before.None? then Paging.First else Paging.Before(before.value)
  }

  /** One page: input checks, then the account, then the rows behind the cursor. */
  function StatementOf(t: Tables, userId: nat, currency: string, kinds: Option<set<Kind>>, before: Option<int>, limit: int)
    : Statement
  {
    if limit < 1 || limit > MAX_LIMIT || kinds == Some({}) || (before.Some? && before.value < 1) then Invalid
    else if UserKey(userId, currency) !in t.accounts then Listed([], None)
    else
      var page := Paging.Fetch(RowsOf(t, UserKey(userId, currency), kinds), CursorOf(before), limit);
      Listed(page.items, if page.next.First? then None else Some(page.next.id))
  }

  // ---- rows of a growing table ----

  /** Every line comes from a leg of the account. */
  lemma {:induction false} RowIds(legs: seq<Leg>, all: seq<Leg>, txs: seq<Transaction>, k: AccountKey, kinds: Option<set<Kind>>)
    ensures forall r :: r in StatementRows(legs, all, txs, k, kinds) ==>
              exists g :: g in legs && g.account == k && g.tx + 1 == r.id
  {
    hide LineOf;
    if legs != [] {
      var init, g := legs[..|legs| - 1], legs[|legs| - 1];
      RowIds(init, all, txs, k, kinds);
      assert g in legs;
      forall r | r in StatementRows(legs, all, txs, k, kinds)
        ensures exists g :: g in legs && g.account == k && g.tx + 1 == r.id
      {
        if r in StatementRows(init, all, txs, k, kinds) {
          var h :| h in init && h.account == k && h.tx + 1 == r.id;
          assert h in legs;
        }
      }
    }
  }

  /** On the account of the last leg, all earlier legs belong to earlier transactions. */
  lemma {:induction false} LastIsNewest(legs: seq<Leg>, all: seq<Leg>, txs: seq<Transaction>, kinds: Option<set<Kind>>, i: nat)
    requires LegsOrdered(legs) && legs != []
    requires i < |StatementRows(legs[..|legs| - 1], all, txs, legs[|legs| - 1].account, kinds)|
    ensures StatementRows(legs[..|legs| - 1], all, txs, legs[|legs| - 1].account, kinds)[i].id <= legs[|legs| - 1].tx
  {
    hide StatementRows, LineOf;
    var init, k := legs[..|legs| - 1], legs[|legs| - 1].account;
    var rows := StatementRows(init, all, txs, k, kinds);
    RowIds(init, all, txs, k, kinds);
    assert rows[i] in rows;
    var h :| h in init && h.account == k && h.tx + 1 == rows[i].id;
    var j :| 0 <= j < |init| && init[j] == h;
    assert legs[j] == h;
  }

  lemma {:induction false} IncreasingPush<T>(rows: seq<Paging.Row<T>>, r: Paging.Row<T>)
    requires Paging.Increasing(rows) && forall i :: 0 <= i < |rows| ==> rows[i].id < r.id
    ensures Paging.Increasing(rows + [r])
  {
  }

  /** One leg per account per transaction makes transaction ids a strict order on the lines of an account. */
  lemma {:induction false} RowsIncrease(legs: seq<Leg>, all: seq<Leg>, txs: seq<Transaction>, k: AccountKey,
                                        kinds: Option<set<Kind>>)
    requires LegsOrdered(legs)
    ensures Paging.Increasing(StatementRows(legs, all, txs, k, kinds))
  {
    hide LineOf, Paging.Increasing;
    if legs == [] {
      EmptyIncreases<Line>();
    } else {
      var init, g := legs[..|legs| - 1], legs[|legs| - 1];
      RowsIncrease(init, all, txs, k, kinds);
      var rows := StatementRows(init, all, txs, k, kinds);
      if g.account == k && g.tx < |txs| && Wanted(kinds, txs[g.tx].kind) {
        forall i | 0 <= i < |rows| ensures rows[i].id < g.tx + 1 {
          LastIsNewest(legs, all, txs, kinds, i);
        }
        IncreasingPush(rows, Paging.Row(g.tx + 1, LineOf(all, txs[g.tx], g)));
      } else {
        assert rows + [] == rows;
      }
    }
  }

  lemma {:induction false} EmptyIncreases<T>()
    ensures Paging.Increasing<T>([])
  {
  }

  /** Later commands only append: transactions and legs already written stay as they are, and new legs belong to new
      transactions. */
  predicate Appends(t: Tables, u: Tables) {
    Keeps(t, u) && forall i :: 0 <= i < |t.legs| ==> t.legs[i].tx < |t.transactions|
  }

  predicate Keeps(t: Tables, u: Tables) {
    && t.transactions <= u.transactions && t.legs <= u.legs
    && forall i :: |t.legs| <= i < |u.legs| ==> u.legs[i].tx >= |t.transactions|
  }

  lemma {:induction false} PostingAppends(cfg: Config, t: Tables, c: Command)
    requires cfg.Valid()
    ensures c.Credit? || c.Refund? ==> Keeps(t, MoveTx(cfg, t, c).0)
    ensures c.Transfer? ==> Keeps(t, TransferTx(cfg, t, c).0)
  {
    hide MovePosting, TransferPosting, SubmitEnd, AnyFrozen, OpenBoth, SideOf, SideTotal, TransferShortfall,
         WrittenLegs;
  }

  lemma {:induction false} AuditAppends(cfg: Config, t: Tables, c: Command)
    requires cfg.Valid()
    ensures c.SetCreditLimit? ==> Keeps(t, LimitTx(t, c).0)
    ensures c.Freeze? ==> Keeps(t, FreezeTx(cfg, t, c).0)
  {
    hide LimitPosting, FreezePosting, SubmitEnd, OpenSide, SideKeys, WrittenLegs, SetFrozen;
  }

  lemma {:induction false} SettleAppends(cfg: Config, t: Tables, c: Command, env: Env)
    requires cfg.Valid() && c.Settle?
    ensures Keeps(t, SettleTx(cfg, t, c, env).0)
  {
    hide SubmitEnd, AnyFrozen, WrittenLegs, FindHold, SettleReplay;
  }

  lemma {:induction false} TxStepAppends(cfg: Config, t: Tables, c: Command, env: Env)
    requires cfg.Valid() && Malformed(c).None?
    ensures Keeps(t, TxStep(cfg, t, c, env).0)
  {
    assert c.ReleaseExpired? ==> c.limit >= 0;
    hide Malformed, MoveTx, SettleTx, LimitTx, FreezeTx, TransferTx, ScanTx, FindHold;
    PostingAppends(cfg, t, c);
    AuditAppends(cfg, t, c);
    if c.Settle? {
      SettleAppends(cfg, t, c, env);
    } else if c.ReleaseExpired? {
      ScanAppends(t, c.limit, env);
    }
  }

  lemma {:induction false} ScanAppends(t: Tables, limit: nat, env: Env)
    ensures ScanTx(t, limit, env).0.transactions == t.transactions && ScanTx(t, limit, env).0.legs == t.legs
  {
  }

  lemma {:induction false} RunAppends(cfg: Config, t: Tables, events: seq<Event>)
    requires cfg.Valid() && LegsWf(t)
    ensures Appends(t, Run(cfg, t, events))
  {
    if events == [] {
      forall i | 0 <= i < |t.legs| ensures t.legs[i].tx < |t.transactions| {
        assert LegWf(t, i);
      }
    } else {
      var init, last := events[..|events| - 1], events[|events| - 1];
      RunAppends(cfg, t, init);
      hide TxStep, FastPath, LegsWf;
      var u := Run(cfg, t, init);
      if FastPath(u, last.command).None? {
        assert Malformed(last.command).None? by {
          FastPathScreens(u, last.command);
        }
        TxStepAppends(cfg, u, last.command, last.env);
      }
    }
  }

  lemma {:induction false} FastPathScreens(t: Tables, c: Command)
    ensures FastPath(t, c).None? ==> Malformed(c).None?
  {
  }

  /** Legs of later transactions change neither the lines that were there nor their counterparties. */
  lemma {:induction false} CounterpartiesStay(legs: seq<Leg>, more: seq<Leg>, n: nat, tx: nat, reader: Owner)
    requires legs <= more && tx < n && forall i :: |legs| <= i < |more| ==> more[i].tx >= n
    ensures Counterparties(more, tx, reader) == Counterparties(legs, tx, reader)
  {
    var rest := more[|legs|..];
    assert more == legs + rest;
    forall i | 0 <= i < |rest| ensures rest[i].tx != tx {
      assert rest[i] == more[|legs| + i];
    }
    LegsOfConcat(legs, rest, tx);
    LegsOfNone(rest, tx);
  }

  lemma {:induction false} RowsStay(legs: seq<Leg>, t: Tables, u: Tables, k: AccountKey, kinds: Option<set<Kind>>)
    requires Keeps(t, u) && forall i :: 0 <= i < |legs| ==> legs[i].tx < |t.transactions|
    ensures StatementRows(legs, u.legs, u.transactions, k, kinds) == StatementRows(legs, t.legs, t.transactions, k, kinds)
  {
    hide Counterparties;
    if legs != [] {
      var g := legs[|legs| - 1];
      RowsStay(legs[..|legs| - 1], t, u, k, kinds);
      CounterpartiesStay(t.legs, u.legs, |t.transactions|, g.tx, g.account.owner);
    }
  }

  lemma {:induction false} RowsPrefix(legs: seq<Leg>, more: seq<Leg>, all: seq<Leg>, txs: seq<Transaction>, k: AccountKey,
                                      kinds: Option<set<Kind>>)
    requires legs <= more
    ensures StatementRows(legs, all, txs, k, kinds) <= StatementRows(more, all, txs, k, kinds)
  {
    hide LineOf;
    if |legs| < |more| {
      RowsPrefix(legs, more[..|more| - 1], all, txs, k, kinds);
    } else {
      assert legs == more;
    }
  }

  lemma {:induction false} RowsExtend(t: Tables, u: Tables, k: AccountKey, kinds: Option<set<Kind>>)
    requires Appends(t, u) && LegsOrdered(u.legs)
    ensures Paging.Extends(RowsOf(t, k, kinds), RowsOf(u, k, kinds))
  {
    RowsStay(t.legs, t, u, k, kinds);
    RowsPrefix(t.legs, u.legs, u.legs, u.transactions, k, kinds);
    RowsIncrease(u.legs, u.legs, u.transactions, k, kinds);
    hide StatementRows, LegsOrdered;
  }

  /** An account that does not exist has no lines. */
  lemma {:induction false} NoAccountNoRows(t: Tables, n: nat, k: AccountKey, kinds: Option<set<Kind>>)
    requires LegsWf(t) && n <= |t.legs| && k !in t.accounts
    ensures StatementRows(t.legs[..n], t.legs, t.transactions, k, kinds) == []
  {
    hide LineOf;
    if n > 0 {
      NoAccountNoRows(t, n - 1, k, kinds);
      assert t.legs[..n][..n - 1] == t.legs[..n - 1];
      assert LegWf(t, n - 1);
    }
  }

  // ---- reading a statement while the wallet works on ----

  /** What the statement query sees at the first page and again after each batch of further commands. */
  function Views(cfg: Config, t: Tables, batches: seq<seq<Event>>, k: AccountKey, kinds: Option<set<Kind>>)
    : (r: seq<seq<Paging.Row<Line>>>)
    requires cfg.Valid()
    ensures |r| == |batches| + 1 && r[0] == RowsOf(t, k, kinds)
    decreases |batches|
  {
    [RowsOf(t, k, kinds)] +
    if batches == [] then [] else Views(cfg, Run(cfg, t, batches[0]), batches[1..], k, kinds)
  }

  lemma {:induction false} PrependGrowing(first: seq<Paging.Row<Line>>, tail: seq<seq<Paging.Row<Line>>>)
    requires Paging.Increasing(first) && Paging.Growing(tail) && (tail != [] ==> Paging.Extends(first, tail[0]))
    ensures Paging.Growing([first] + tail)
  {
    var views := [first] + tail;
    forall i | 0 < i < |views| ensures Paging.Extends(views[i - 1], views[i]) {
      if i > 1 {
        assert Paging.Extends(tail[i - 2], tail[i - 1]);
      }
    }
  }

  /** The state after a further batch is reachable too, and its statement rows extend the earlier ones. */
  lemma {:induction false} BatchExtends(cfg: Config, events: seq<Event>, batch: seq<Event>, k: AccountKey, kinds: Option<set<Kind>>)
    requires cfg.Valid()
    ensures var t, u := Run(cfg, EMPTY, events), Run(cfg, Run(cfg, EMPTY, events), batch);
            && u == Run(cfg, EMPTY, events + batch)
            && Paging.Extends(RowsOf(t, k, kinds), RowsOf(u, k, kinds))
  {
    RunConcat(cfg, EMPTY, events, batch);
    RunKeepsInv(cfg, events);
    RunKeepsInv(cfg, events + batch);
    var t, u := Run(cfg, EMPTY, events), Run(cfg, EMPTY, events + batch);
    hide Run, StatementRows, Paging.Extends, Appends, HoldsWf, AllCovered;
    RunAppends(cfg, t, batch);
    RowsExtend(t, u, k, kinds);
  }

  lemma {:induction false} ViewsGrow(cfg: Config, events: seq<Event>, t: Tables, batches: seq<seq<Event>>, k: AccountKey,
                                     kinds: Option<set<Kind>>)
    requires cfg.Valid() && t == Run(cfg, EMPTY, events)
    ensures Paging.Growing(Views(cfg, t, batches, k, kinds))
    decreases |batches|
  {
    assert LegsOrdered(t.legs) by {
      RunKeepsInv(cfg, events);
    }
    RowsIncrease(t.legs, t.legs, t.transactions, k, kinds);
    var first := RowsOf(t, k, kinds);
    hide Run, Inv, StatementRows, Paging.Increasing, Paging.Extends;
    if batches == [] {
      assert Views(cfg, t, batches, k, kinds) == [first];
    } else {
      BatchExtends(cfg, events, batches[0], k, kinds);
      var u := Run(cfg, t, batches[0]);
      ViewsGrow(cfg, events + batches[0], u, batches[1..], k, kinds);
      PrependGrowing(first, Views(cfg, u, batches[1..], k, kinds));
    }
  }

  lemma {:induction false} RunConcat(cfg: Config, t: Tables, a: seq<Event>, b: seq<Event>)
    requires cfg.Valid()
    ensures Run(cfg, t, a + b) == Run(cfg, Run(cfg, t, a), b)
  {
    if b == [] {
      assert a + b == a;
    } else {
      assert (a + b)[..|a + b| - 1] == a + b[..|b| - 1];
      RunConcat(cfg, t, a, b[..|b| - 1]);
      hide Step;
    }
  }

  /** What a reader collects by asking for a page, waiting, and handing the cursor back. */
  function ReadOn(cfg: Config, t: Tables, batches: seq<seq<Event>>, userId: nat, currency: string, kinds: Option<set<Kind>>,
                  before: Option<int>, limits: seq<int>): Paging.Reading<Line>
    requires cfg.Valid() && |limits| == |batches| + 1
    decreases |batches|
  {
    var page := StatementOf(t, userId, currency, kinds, before, limits[0]);
    if page.Invalid? then Paging.Reading([], false)
    else if page.next.None? then Paging.Reading(page.items, true)
    else if batches == [] then Paging.Reading(page.items, false)
    else
      var rest := ReadOn(cfg, Run(cfg, t, batches[0]), batches[1..], userId, currency, kinds, Some(page.next.value), limits[1..]);
      Paging.Reading(page.items + rest.items, rest.finished)
  }

  predicate LimitsOk(limits: seq<int>) {
    forall i :: 0 <= i < |limits| ==> 1 <= limits[i] <= MAX_LIMIT
  }

  function NatLimits(limits: seq<int>): (r: seq<nat>)
    requires LimitsOk(limits)
    ensures |r| == |limits| && forall i :: 0 <= i < |r| ==> r[i] == limits[i]
  {
    limits
  }

  /** On valid input a page of the statement is a page of the account's rows, whether or not the account exists, and its
      cursor is valid input again. */
  lemma {:induction false} StatementPages(t: Tables, userId: nat, currency: string, kinds: Option<set<Kind>>, before: Option<int>,
                                          limit: int)
    requires LegsWf(t) && LegsOrdered(t.legs) && 1 <= limit <= MAX_LIMIT && kinds != Some({})
    requires before.Some? ==> before.value >= 1
    ensures var page := Paging.Fetch(RowsOf(t, UserKey(userId, currency), kinds), CursorOf(before), limit);
            && StatementOf(t, userId, currency, kinds, before, limit) ==
               Listed(page.items, if page.next.First? then None else Some(page.next.id))
            && (page.next.Before? ==> page.next.id >= 1)
  {
    hide LegsWf, LegsOrdered, StatementRows;
    var k := UserKey(userId, currency);
    assert t.legs[..|t.legs|] == t.legs;
    if k !in t.accounts {
      NoAccountNoRows(t, |t.legs|, k, kinds);
    }
    RowsIncrease(t.legs, t.legs, t.transactions, k, kinds);
    RowIds(t.legs, t.legs, t.transactions, k, kinds);
    var rows := RowsOf(t, k, kinds);
    Paging.PageIsNextStretch(rows, CursorOf(before), limit);
    var n := Paging.Behind(rows, CursorOf(before));
    if n > limit {
      assert rows[n - limit] in rows;
    }
  }

  /** Handing the cursors back is following them on the account's rows. */
  lemma {:induction false} ReadingFollows(cfg: Config, events: seq<Event>, t: Tables, batches: seq<seq<Event>>, userId: nat,
                                          currency: string, kinds: Option<set<Kind>>, before: Option<int>, limits: seq<int>)
    requires cfg.Valid() && t == Run(cfg, EMPTY, events) && |limits| == |batches| + 1 && LimitsOk(limits)
    requires kinds != Some({}) && (before.Some? ==> before.value >= 1)
    ensures ReadOn(cfg, t, batches, userId, currency, kinds, before, limits) ==
            Paging.Follow(Views(cfg, t, batches, UserKey(userId, currency), kinds), NatLimits(limits), CursorOf(before))
    decreases |batches|
  {
    hide Run, LegsOrdered, RowsOf, StatementOf, Paging.Fetch;
    var k := UserKey(userId, currency);
    var views := Views(cfg, t, batches, k, kinds);
    RunKeepsInv(cfg, events);
    assert LegsWf(t) && LegsOrdered(t.legs);
    hide Inv, LegsWf;
    StatementPages(t, userId, currency, kinds, before, limits[0]);
    var page := Paging.Fetch(views[0], CursorOf(before), limits[0]);
    if page.next.Before? {
      if batches == [] {
        assert views[1..] == [] && Paging.Follow(views[1..], NatLimits(limits)[1..], page.next).items == [];
      } else {
        RunConcat(cfg, EMPTY, events, batches[0]);
        ReadingFollows(cfg, events + batches[0], Run(cfg, t, batches[0]), batches[1..], userId, currency, kinds,
                       Some(page.next.id), limits[1..]);
        assert views[1..] == Views(cfg, Run(cfg, t, batches[0]), batches[1..], k, kinds);
        assert NatLimits(limits)[1..] == NatLimits(limits[1..]);
      }
    }
  }

  /** Following the cursor from the first page lists every leg of the account that passes the filter exactly once,
      newest first, whatever commands run between the pages; a user without an account reads an empty statement. */
  lemma {:induction false} StatementIsExact(cfg: Config, events: seq<Event>, batches: seq<seq<Event>>, userId: nat,
                                            currency: string, kinds: Option<set<Kind>>, limits: seq<int>)
    requires cfg.Valid() && |limits| == |batches| + 1 && LimitsOk(limits) && kinds != Some({})
    ensures var t := Run(cfg, EMPTY, events);
            var rows := RowsOf(t, UserKey(userId, currency), kinds);
            var reading := ReadOn(cfg, t, batches, userId, currency, kinds, None, limits);
            && reading.items <= Paging.Reversed(rows)
            && (reading.finished ==> reading.items == Paging.Reversed(rows))
            && (|rows| <= |limits| ==> reading.finished)
  {
    var t, k := Run(cfg, EMPTY, events), UserKey(userId, currency);
    var views := Views(cfg, t, batches, k, kinds);
    ReadingFollows(cfg, events, t, batches, userId, currency, kinds, None, limits);
    ViewsGrow(cfg, events, t, batches, k, kinds);
    hide Run, RowsOf, ReadOn, Paging.Growing, Paging.Increasing, Views;
    Paging.FollowIsExact(views, NatLimits(limits), Paging.First);
    AllBehindFirst(views[0]);
  }

  lemma {:induction false} AllBehindFirst<T>(rows: seq<Paging.Row<T>>)
    ensures Paging.Behind(rows, Paging.First) == |rows| && rows[..|rows|] == rows
  {
  }

  // ---- the running balance ----

  /** The lines of an account tell one story: each starts from the balance the older one left, the first from zero,
      and the newest shows the balance of the account. */
  predicate Continuous(rows: seq<Paging.Row<Line>>, balance: int) {
    && (forall i :: 0 <= i < |rows| ==> rows[i].value.balanceAfter == BalanceBefore(rows, i) + rows[i].value.amount)
    && balance == BalanceBefore(rows, |rows|)
  }

  /** The balance that the lines before line `i` leave. */
  function BalanceBefore(rows: seq<Paging.Row<Line>>, i: nat): int
    requires i <= |rows|
  {
    if i == 0 then 0 else rows[i - 1].value.balanceAfter
  }

  lemma {:induction false} OneMoreLine(rows: seq<Paging.Row<Line>>, balance: int, r: Paging.Row<Line>)
    requires Continuous(rows, balance) && r.value.balanceAfter == balance + r.value.amount
    ensures Continuous(rows + [r], r.value.balanceAfter)
  {
    hide Views, StatementRows;
    var more := rows + [r];
    forall i | 0 <= i < |more| ensures more[i].value.balanceAfter == BalanceBefore(more, i) + more[i].value.amount {
      BalanceBeforePush(rows, r, i);
      hide BalanceBefore;
      if i < |rows| {
        assert more[i] == rows[i];
      }
    }
  }

  lemma {:induction false} BalanceBeforePush(rows: seq<Paging.Row<Line>>, r: Paging.Row<Line>, i: nat)
    requires i <= |rows|
    ensures BalanceBefore(rows + [r], i) == BalanceBefore(rows, i)
  {
  }

  lemma {:induction false} LineFigures(legs: seq<Leg>, x: Transaction, g: Leg)
    ensures LineOf(legs, x, g).balanceAfter == g.after && LineOf(legs, x, g).amount == g.amount
  {
  }

  lemma {:induction false} LastLeg(t: Tables, n: nat)
    requires LegsWf(t) && 0 < n <= |t.legs|
    ensures var g := t.legs[n - 1];
            g.tx < |t.transactions| && g.after == LastAfter(t.legs[..n - 1], g.account) + g.amount
  {
    assert LegWf(t, n - 1);
  }

  /** One more leg: at most one more line. */
  lemma {:induction false} StatementPush(legs: seq<Leg>, g: Leg, all: seq<Leg>, txs: seq<Transaction>, k: AccountKey)
    requires g.tx < |txs|
    ensures LastAfter(legs + [g], k) == if g.account == k then g.after else LastAfter(legs, k)
    ensures StatementRows(legs + [g], all, txs, k, None) ==
            StatementRows(legs, all, txs, k, None) +
            if g.account == k then [Paging.Row(g.tx + 1, LineOf(all, txs[g.tx], g))] else []
  {
    hide LineOf;
    assert (legs + [g])[..|legs|] == legs;
  }

  lemma {:induction false} LinesContinue(t: Tables, n: nat, k: AccountKey)
    requires LegsWf(t) && n <= |t.legs|
    ensures Continuous(StatementRows(t.legs[..n], t.legs, t.transactions, k, None), LastAfter(t.legs[..n], k))
  {
    hide LineOf, LegsWf;
    if n > 0 {
      hide StatementRows, LastAfter, Continuous;
      var g, init := t.legs[n - 1], t.legs[..n - 1];
      LinesContinue(t, n - 1, k);
      LastLeg(t, n);
      assert t.legs[..n] == init + [g];
      StatementPush(init, g, t.legs, t.transactions, k);
      var rows := StatementRows(init, t.legs, t.transactions, k, None);
      if g.account == k {
        LineFigures(t.legs, t.transactions[g.tx], g);
        OneMoreLine(rows, LastAfter(init, k), Paging.Row(g.tx + 1, LineOf(t.legs, t.transactions[g.tx], g)));
      } else {
        assert rows + [] == rows;
      }
    }
  }

  lemma {:induction false} StatementContinues(cfg: Config, events: seq<Event>, k: AccountKey)
    requires cfg.Valid() && k in Run(cfg, EMPTY, events).accounts
    ensures var t := Run(cfg, EMPTY, events);
            Continuous(RowsOf(t, k, None), t.accounts[k].balance)
  {
    var t := Run(cfg, EMPTY, events);
    RunKeepsInv(cfg, events);
    assert t.legs[..|t.legs|] == t.legs;
    hide Run, StatementRows, LastAfter, HoldsWf, AllCovered, LegsOrdered, TransactionsBalanced, KeysUnique, ZeroSum,
         Continuous;
    assert BalancesDerived(t) && LegsWf(t);
    LinesContinue(t, |t.legs|, k);
  }
}
