/** Holds refine: authorize, settle, release and the batched expiry scan against the reference ledger. */
module WalletHoldRefinement {
  import opened Options
  import opened WalletTypes
  import opened WalletTables
  import opened WalletSpec
  import opened WalletBooks
  import opened WalletAudit
  import opened WalletViews
  import opened WalletArchive
  import opened WalletRefinement
  import L = WalletLedger

  // ---- authorize ----

  lemma {:induction false} NewHoldFiled(l: L.Ledger, m: L.Ledger, h: Hold)
    requires SettlementsFiled(l) && FindHold(l.holds, h.ref).None? && h.status != Settled
    requires m.holds == l.holds + [h] && m.archive == l.archive
    ensures SettlementsFiled(m)
  {
    forall i | 0 <= i < |m.holds| ensures SettledOnFile(m, i) {
      if i < |l.holds| {
        assert SettledOnFile(l, i);
      }
    }
    forall key | key in m.archive && key.1 == SettleKind ensures exists i :: 0 <= i < |m.holds| && m.holds[i].ref == key.0 {
      var i :| 0 <= i < |l.holds| && l.holds[i].ref == key.0;
      assert m.holds[i].ref == key.0;
    }
  }

  lemma {:induction false} AuthorizeRefines(cfg: Config, t: Tables, l: L.Ledger, c: Command)
    requires cfg.Valid() && Refines(cfg, t, l)
    requires c.Authorize? && PriorOf(t, c).None?
    ensures var (u, end) := AuthorizeTx(t, c);
            var (m, o) := L.Place(l, c);
            o == EndOutcome(u, c, end) && Refines(cfg, u, m)
  {
    hide FindHold, KindOf, FingerprintOf, Readback, ShardKey, ShardsBounded, Filed;
    var k := UserKey(c.userId, c.currency);
    OpenKeepsViews(cfg, t.accounts, l, k);
    var accounts := Open(t.accounts, k);
    assert Shows(cfg, accounts, l.At(ToUser(c.userId), c.currency), ToUser(c.userId), c.currency);
    var (u, end) := AuthorizeTx(t, c);
    if end.Committed? {
      var m := L.Place(l, c).0;
      var a := accounts[k].(inFlight := accounts[k].inFlight + c.amount);
      SetUserViews(cfg, accounts, l, c.userId, c.currency, a);
      ViewsAgree(cfg, u.accounts, l.Set(ToUser(c.userId), c.currency, a), m);
      NewHoldFiled(l, m, u.holds[|t.holds|]);
      ArchivedFrame(t, u, l, m);
    }
  }

  // ---- one hold leaving the active state without money ----

  lemma {:induction false} EndedHoldFiled(l: L.Ledger, m: L.Ledger, i: nat)
    requires SettlementsFiled(l) && i < |l.holds| == |m.holds| && m.archive == l.archive
    requires m.holds == l.holds[i := m.holds[i]] && m.holds[i].ref == l.holds[i].ref
    requires l.holds[i].status != Settled && m.holds[i].status != Settled
    ensures SettlementsFiled(m)
  {
    forall j | 0 <= j < |m.holds| ensures SettledOnFile(m, j) {
      assert SettledOnFile(l, j);
    }
    forall key | key in m.archive && key.1 == SettleKind ensures exists j :: 0 <= j < |m.holds| && m.holds[j].ref == key.0 {
      var j :| 0 <= j < |l.holds| && l.holds[j].ref == key.0;
      assert m.holds[j].ref == key.0;
    }
  }

  /** The single-hold transition is the ledger's own `Unhold`. */
  lemma {:induction false} TerminatedRefines(cfg: Config, t: Tables, l: L.Ledger, i: nat, reason: string,
                                             terminal: HoldStatus, f: Option<Fingerprint>)
    requires Refines(cfg, t, l) && i < |t.holds| && t.holds[i].status == Active && terminal != Settled
    requires t.holds[i].account.owner.User?
    ensures Refines(cfg, Terminated(t, i, reason, terminal, f),
                    L.Unhold(l, i, TerminatedHold(t.holds[i], reason, terminal, f)))
  {
    var h := t.holds[i];
    var u := Terminated(t, i, reason, terminal, f);
    var m := L.Unhold(l, i, TerminatedHold(h, reason, terminal, f));
    var userId, currency := h.account.owner.userId, h.account.currency;
    var a := l.At(ToUser(userId), currency);
    assert Shows(cfg, t.accounts, a, ToUser(userId), currency);
    var b := a.(inFlight := a.inFlight - h.amount);
    SetUserViews(cfg, t.accounts, l, userId, currency, b);
    ViewsAgree(cfg, u.accounts, l.Set(ToUser(userId), currency, b), m);
    EndedHoldFiled(l, m, i);
    ArchivedFrame(t, u, l, m);
  }

  lemma {:induction false} ReleaseRefines(cfg: Config, t: Tables, l: L.Ledger, c: Command)
    requires Refines(cfg, t, l) && HoldsWf(t) && c.Release?
    ensures var (u, end) := ReleaseTx(t, c);
            var (m, o) := L.ReleaseOne(l, c);
            o == EndOutcome(u, c, end) && Refines(cfg, u, m)
  {
    var found := FindHold(t.holds, c.ref);
    if found.Some? {
      var i := found.value;
      var h := t.holds[i];
      assert HoldWf(t, h);
      if h.status == Active {
        var f := Some(FingerprintOf(c));
        TerminatedRefines(cfg, t, l, i, c.reason, Released, f);
      }
    }
  }

  // ---- the expiry scan ----

  /** Expiring the chosen holds one transaction at a time, in the given order. */
  function TerminateEach(t: Tables, ids: seq<nat>): (r: Tables)
    requires forall i :: 0 <= i < |ids| ==> ids[i] < |t.holds|
    ensures |r.holds| == |t.holds|
  {
    if ids == [] then t
    else Terminated(TerminateEach(t, ids[..|ids| - 1]), ids[|ids| - 1], EXPIRED, Expired, None)
  }

  /** Grouped subtraction per account loses nothing: the batch is the fold of the single-hold transition. */
  lemma {:induction false} BatchIsFold(t: Tables, ids: seq<nat>)
    requires HoldsWf(t) && Expirable(t.holds, ids)
    ensures FreeAll(t, ids) == TerminateEach(t, ids)
  {
    if ids == [] {
      assert ExpireHolds(t.holds, SetOf(ids)) == t.holds;
    } else {
      var init, i := ids[..|ids| - 1], ids[|ids| - 1];
      ExpireOneMore(t.holds, ids);
      BatchIsFold(t, init);
      assert HoldWf(t, t.holds[i]);
      OneMoreFreed(t, ids);
    }
  }

  lemma {:induction false} OneMoreFreed(t: Tables, ids: seq<nat>)
    requires Expirable(t.holds, ids) && ids != [] && t.holds[ids[|ids| - 1]].account in t.accounts
    requires t.holds[ids[|ids| - 1]].releaseFingerprint.None?
    ensures FreeAll(t, ids) == Terminated(FreeAll(t, ids[..|ids| - 1]), ids[|ids| - 1], EXPIRED, Expired, None)
  {
    var init, i := ids[..|ids| - 1], ids[|ids| - 1];
    ExpireOneMore(t.holds, ids);
    var u, v := FreeAll(t, ids), Terminated(FreeAll(t, init), i, EXPIRED, Expired, None);
    assert u.accounts.Keys == v.accounts.Keys;
    forall k | k in u.accounts ensures u.accounts[k] == v.accounts[k] {
    }
    assert u.accounts == v.accounts;
  }

  /** Any order of the chosen holds, and the grouped batch, end in the same state. */
  lemma {:induction false} ExpiryOrderIsIrrelevant(t: Tables, ids: seq<nat>, others: seq<nat>)
    requires HoldsWf(t) && Expirable(t.holds, ids) && Expirable(t.holds, others)
    requires SetOf(ids) == SetOf(others)
    ensures TerminateEach(t, others) == FreeAll(t, ids)
  {
    BatchIsFold(t, others);
    SameFreed(t.holds, ids, others);
    SameBatch(t, ids, others);
  }

  lemma {:induction false} SameBatch(t: Tables, ids: seq<nat>, others: seq<nat>)
    requires forall i :: 0 <= i < |ids| ==> ids[i] < |t.holds|
    requires forall i :: 0 <= i < |others| ==> others[i] < |t.holds|
    requires SetOf(ids) == SetOf(others)
    requires forall k :: FreedOn(t.holds, ids, k) == FreedOn(t.holds, others, k)
    ensures FreeAll(t, ids) == FreeAll(t, others)
  {
    var u, v := FreeAll(t, ids), FreeAll(t, others);
    assert u.accounts.Keys == v.accounts.Keys;
    forall k | k in u.accounts ensures u.accounts[k] == v.accounts[k] {
    }
    assert u.accounts == v.accounts;
  }

  lemma {:induction false} SameFreed(holds: seq<Hold>, ids: seq<nat>, others: seq<nat>)
    requires Expirable(holds, ids) && Expirable(holds, others)
    requires SetOf(ids) == SetOf(others)
    ensures forall k :: FreedOn(holds, ids, k) == FreedOn(holds, others, k)
  {
    forall k ensures FreedOn(holds, ids, k) == FreedOn(holds, others, k) {
      FreedIsExact(holds, ids, k);
      FreedIsExact(holds, others, k);
    }
  }

  lemma {:induction false} ExpireRefines(cfg: Config, t: Tables, l: L.Ledger, ids: seq<nat>)
    requires Refines(cfg, t, l) && HoldsWf(t) && Expirable(t.holds, ids)
    ensures Refines(cfg, TerminateEach(t, ids), L.ExpireEach(l, ids))
  {
    if ids != [] {
      var init, i := ids[..|ids| - 1], ids[|ids| - 1];
      ExpireRefines(cfg, t, l, init);
      BatchIsFold(t, init);
      ExpireOneMore(t.holds, ids);
      var u := TerminateEach(t, init);
      assert u.holds[i] == t.holds[i];
      assert HoldWf(t, t.holds[i]);
      TerminatedRefines(cfg, u, L.ExpireEach(l, init), i, EXPIRED, Expired, None);
    }
  }

  lemma {:induction false} ScanRefines(cfg: Config, t: Tables, l: L.Ledger, limit: nat, env: Env)
    requires Refines(cfg, t, l) && HoldsWf(t)
    ensures var (u, end) := ScanTx(t, limit, env);
            var (m, o) := L.ExpireDue(l, limit, env);
            o == EndOutcome(u, ReleaseExpired(limit), end) && Refines(cfg, u, m)
  {
    var ids := ScanChosen(t, limit, env);
    ScanChosenSound(t, limit, env);
    forall i | 0 <= i < |ids| ensures t.holds[ids[i]].account in t.accounts {
      assert HoldWf(t, t.holds[ids[i]]);
    }
    BatchIsFold(t, ids);
    ExpireRefines(cfg, t, l, ids);
  }

  // ---- settle ----

  /** A settled hold is answered from its stored leg exactly as the ledger answers from its archive. */
  lemma {:induction false} SettleReplayRefines(t: Tables, l: L.Ledger, c: Command, i: nat)
    requires c.Settle? && i < |t.holds| && t.holds[i].status == Settled && t.holds == l.holds
    requires SettledOnFile(l, i) && Filed(t, l, t.holds[i].ref, SettleKind)
    ensures var h := t.holds[i];
            var e := l.archive[(h.ref, SettleKind)];
            EndOutcome(t, c, SettleReplay(t, i, FingerprintOf(c))) ==
            L.Answer(e, true, c, SettleReceipt(i, h.settledAmount.value, e.balanceAfter, h.amount - h.settledAmount.value))
  {
    var x := FindTx(t.transactions, t.holds[i].ref, SettleKind).value;
    assert OwnLeg(LegsOf(t.legs, x), t.holds[i].account) == Some(LegsOf(t.legs, x)[0]);
  }

  predicate SettlePasses(l: L.Ledger, h: Hold, c: Command, env: Env)
    requires c.Settle?
  {
    && !(h.expiresAt.Some? && h.expiresAt.value <= env.now)
    && c.amount <= h.amount
    && !l.At(L.HolderOf(h), h.account.currency).frozen
    && !l.At(ToCode(c.counterparty), h.account.currency).frozen
  }

  /** Both accounts of a settlement as the ledger sees them. */
  lemma {:induction false} SettlePair(cfg: Config, t: Tables, l: L.Ledger, c: Command, h: Hold)
    requires cfg.Valid() && Views(cfg, t.accounts, l) && c.Settle?
    requires h.account in t.accounts && h.account.owner.User?
    ensures var other := SettlePosting(cfg, c, h.account).legs[1].account;
            var accounts := Open(t.accounts, other);
            && Views(cfg, accounts, l)
            && accounts[h.account] == l.At(L.HolderOf(h), h.account.currency)
            && accounts[other].frozen == l.At(ToCode(c.counterparty), h.account.currency).frozen
  {
    OpenedPair(cfg, t, l, h.account.owner.userId, c.counterparty, ShardOf(cfg, c.ref), h.account.currency);
    assert Open(t.accounts, h.account) == t.accounts;
  }

  lemma {:induction false} SettleDecision(cfg: Config, t: Tables, l: L.Ledger, c: Command, env: Env, i: nat)
    requires cfg.Valid() && c.Settle? && l.holds == t.holds
    requires FindHold(t.holds, c.ref) == Some(i) && t.holds[i].status == Active
    requires FindTx(t.transactions, c.ref, SettleKind).None? && l.next == |t.transactions|
    requires var h := t.holds[i];
             var other := SettlePosting(cfg, c, h.account).legs[1].account;
             && h.account in t.accounts && h.account.owner.User?
             && t.accounts[h.account] == l.At(L.HolderOf(h), h.account.currency)
             && AccountAt(t.accounts, other).frozen == l.At(ToCode(c.counterparty), h.account.currency).frozen
    ensures var (u, end) := SettleTx(cfg, t, c, env);
            && EndOutcome(u, c, end) == L.SettleHold(l, c, env).1
            && end.Committed? == SettlePasses(l, t.holds[i], c, env)
            && (!end.Committed? ==> u == t)
  {
    hide Readback, FindHold, FindTx, ShardOf, ShardKey, Postable;
    var h := t.holds[i];
    var p := SettlePosting(cfg, c, h.account);
    assert p.legs == TwoLegs(h.account.owner.userId, c.counterparty, ShardOf(cfg, c.ref), h.account.currency, -c.amount);
    TwoLegsPostable(p.header, h.account.owner.userId, c.counterparty, ShardOf(cfg, c.ref), h.account.currency, -c.amount);
    PairFrozen(Open(t.accounts, p.legs[1].account), h.account, p.legs[1].account);
  }

  function SettleEntry(l: L.Ledger, c: Command, i: nat): L.Entry
    requires c.Settle? && i < |l.holds|
  {
    var h := l.holds[i];
    L.Settlement(l.next, i, h.account, l.At(L.HolderOf(h), h.account.currency).balance - c.amount, FingerprintOf(c))
  }

  lemma {:induction false} SettleViews(cfg: Config, accounts: map<AccountKey, Account>, l: L.Ledger, c: Command, env: Env, i: nat)
    requires cfg.Valid() && Views(cfg, accounts, l) && c.Settle?
    requires FindHold(l.holds, c.ref) == Some(i) && l.holds[i].status == Active && SettlePasses(l, l.holds[i], c, env)
    requires l.holds[i].account.owner.User? && l.holds[i].account in accounts
    requires SettlePosting(cfg, c, l.holds[i].account).legs[1].account in accounts
    ensures var h := l.holds[i];
            var m := PostedAccounts(accounts, accounts, SettlePosting(cfg, c, h.account).legs);
            Views(cfg, m[h.account := AccountAt(m, h.account).(inFlight := accounts[h.account].inFlight - h.amount)],
                  L.SettleHold(l, c, env).0)
  {
    hide L.SettleHold, PostedAccounts, SettlePasses;
    var h := l.holds[i];
    var u, currency, j := h.account.owner.userId, h.account.currency, ShardOf(cfg, c.ref);
    var p := SettlePosting(cfg, c, h.account);
    assert p.legs == TwoLegs(u, c.counterparty, j, currency, -c.amount);
    TwoLegViews(cfg, accounts, l, u, c.counterparty, j, currency, -c.amount);
    var m := PostedAccounts(accounts, accounts, p.legs);
    var paid := l.Pay(ToUser(u), currency, -c.amount).Pay(ToCode(c.counterparty), currency, c.amount);
    TwoLegsAt(accounts, u, c.counterparty, j, currency, -c.amount, h.account);
    assert Shows(cfg, accounts, l.At(ToUser(u), currency), ToUser(u), currency);
    var a := AccountAt(m, h.account).(inFlight := accounts[h.account].inFlight - h.amount);
    SetUserViews(cfg, m, paid, u, currency, a);
    SettleAgrees(l, c, env, i, a);
    ViewsAgree(cfg, m[h.account := a], paid.Set(ToUser(u), currency, a), L.SettleHold(l, c, env).0);
  }

  /** Paying and then clearing the in-flight share is clearing and then paying. */
  lemma {:induction false} SettleAgrees(l: L.Ledger, c: Command, env: Env, i: nat, a: Account)
    requires c.Settle?
    requires FindHold(l.holds, c.ref) == Some(i) && l.holds[i].status == Active && SettlePasses(l, l.holds[i], c, env)
    requires l.holds[i].account.owner.User?
    requires var h := l.holds[i];
             var b := l.At(L.HolderOf(h), h.account.currency);
             a == b.(balance := b.balance - c.amount, inFlight := b.inFlight - h.amount)
    ensures var h := l.holds[i];
            var who, currency := L.HolderOf(h), h.account.currency;
            forall x, cur :: L.SettleHold(l, c, env).0.At(x, cur) ==
              l.Pay(who, currency, -c.amount).Pay(ToCode(c.counterparty), currency, c.amount).Set(who, currency, a).At(x, cur)
  {
  }

  lemma {:induction false} SettleFiles(cfg: Config, t: Tables, l: L.Ledger, c: Command, i: nat)
    requires cfg.Valid() && LegsWf(t) && Archived(t, l) && l.next == |t.transactions|
    requires c.Settle? && i < |l.holds| && l.holds[i].ref == c.ref && l.holds[i].account.owner.User?
    requires l.holds[i].account in t.accounts
    requires t.accounts[l.holds[i].account] == l.At(L.HolderOf(l.holds[i]), l.holds[i].account.currency)
    requires FindTx(t.transactions, c.ref, SettleKind).None?
    requires SettlePosting(cfg, c, l.holds[i].account).legs[1].account in t.accounts
    ensures Archived(Post(t, SettlePosting(cfg, c, l.holds[i].account)),
                     l.File(c.ref, SettleKind, SettleEntry(l, c, i)))
  {
    var h := l.holds[i];
    var p := SettlePosting(cfg, c, h.account);
    TwoLegsPostable(p.header, h.account.owner.userId, c.counterparty, ShardOf(cfg, c.ref), h.account.currency, -c.amount);
    assert p.legs == TwoLegs(h.account.owner.userId, c.counterparty, ShardOf(cfg, c.ref), h.account.currency, -c.amount);
    PostFiles(t, p, l, SettleEntry(l, c, i));
  }

  lemma {:induction false} SettlementFiled(l: L.Ledger, m: L.Ledger, c: Command, i: nat)
    requires c.Settle? && SettlementsFiled(l) && i < |l.holds| && l.holds[i].ref == c.ref && l.holds[i].status == Active
    requires forall j :: 0 <= j < |l.holds| && j != i ==> l.holds[j].ref != c.ref
    requires m.holds == l.holds[i := l.holds[i].(status := Settled, settledAmount := Some(c.amount))]
    requires m.archive == l.archive[(c.ref, SettleKind) := SettleEntry(l, c, i)]
    ensures SettlementsFiled(m)
  {
    forall j | 0 <= j < |m.holds| ensures SettledOnFile(m, j) {
      assert SettledOnFile(l, j);
    }
    forall key | key in m.archive && key.1 == SettleKind ensures exists j :: 0 <= j < |m.holds| && m.holds[j].ref == key.0 {
      if key == (c.ref, SettleKind) {
        assert m.holds[i].ref == key.0;
      } else {
        var j :| 0 <= j < |l.holds| && l.holds[j].ref == key.0;
        assert m.holds[j].ref == key.0;
      }
    }
  }

  /** What a settlement leaves in the ledger besides the three accounts it touches. */
  lemma {:induction false} SettledLedger(l: L.Ledger, c: Command, env: Env, i: nat)
    requires c.Settle? && FindHold(l.holds, c.ref) == Some(i)
    requires l.holds[i].status == Active && SettlePasses(l, l.holds[i], c, env)
    ensures var m := L.SettleHold(l, c, env).0;
            && m.holds == l.holds[i := l.holds[i].(status := Settled, settledAmount := Some(c.amount))]
            && m.archive == l.archive[(c.ref, SettleKind) := SettleEntry(l, c, i)]
            && m.next == l.next + 1
  {
  }

  lemma {:induction false} SettledFilesRefine(cfg: Config, t: Tables, l: L.Ledger, c: Command, env: Env, i: nat)
    requires cfg.Valid() && LegsWf(t) && Views(cfg, t.accounts, l) && c.Settle?
    requires l.holds == t.holds && l.next == |t.transactions| && Archived(t, l) && SettlementsFiled(l)
    requires FindHold(t.holds, c.ref) == Some(i) && t.holds[i].status == Active && SettlePasses(l, t.holds[i], c, env)
    requires forall j :: 0 <= j < |l.holds| && j != i ==> l.holds[j].ref != c.ref
    requires t.holds[i].account in t.accounts && t.holds[i].account.owner.User?
    ensures var m := L.SettleHold(l, c, env).0;
            var p := SettlePosting(cfg, c, t.holds[i].account);
            var t1 := t.(accounts := Open(t.accounts, p.legs[1].account));
            && Archived(Post(t1, p), m) && SettlementsFiled(m)
  {
    var h := t.holds[i];
    var m := L.SettleHold(l, c, env).0;
    assert Filed(t, l, c.ref, SettleKind) && SettledOnFile(l, i);
    var p := SettlePosting(cfg, c, h.account);
    var t1 := t.(accounts := Open(t.accounts, p.legs[1].account));
    SettlePair(cfg, t, l, c, h);
    OpenedRows(t, l, t1.accounts);
    SettleFiles(cfg, t1, l, c, i);
    SettledLedger(l, c, env, i);
    ArchivedFrame(Post(t1, p), Post(t1, p), l.File(c.ref, SettleKind, SettleEntry(l, c, i)), m);
    SettlementFiled(l, m, c, i);
  }

  lemma {:induction false} SettledStateRefines(cfg: Config, t: Tables, l: L.Ledger, c: Command, env: Env, i: nat)
    requires cfg.Valid() && LegsWf(t) && HoldsWf(t) && Refines(cfg, t, l) && c.Settle?
    requires FindHold(t.holds, c.ref) == Some(i) && t.holds[i].status == Active && SettlePasses(l, t.holds[i], c, env)
    requires SettleTx(cfg, t, c, env).1.Committed?
    ensures Refines(cfg, SettleTx(cfg, t, c, env).0, L.SettleHold(l, c, env).0)
  {
    hide Views, Archived, SettlementsFiled, LegsWf, SettleTx, L.SettleHold, Post, SettlePosting;
    assert HoldWf(t, t.holds[i]);
    SettledState(cfg, t, c, env, i);
    SettledLedger(l, c, env, i);
    SettledFilesRefine(cfg, t, l, c, env, i);
    SettledParts(cfg, t, l, c, SettleTx(cfg, t, c, env).0, L.SettleHold(l, c, env).0, i, env);
  }

  lemma {:induction false} SettledParts(cfg: Config, t: Tables, l: L.Ledger, c: Command, u: Tables, m: L.Ledger, i: nat, env: Env)
    requires cfg.Valid() && c.Settle? && Views(cfg, t.accounts, l) && l.holds == t.holds && l.next == |t.transactions|
    requires FindHold(t.holds, c.ref) == Some(i) && t.holds[i].status == Active && SettlePasses(l, t.holds[i], c, env)
    requires t.holds[i].account in t.accounts && t.holds[i].account.owner.User?
    requires m == L.SettleHold(l, c, env).0 && m.holds == u.holds && m.next == l.next + 1 && SettlementsFiled(m)
    requires var h := t.holds[i];
             var p := SettlePosting(cfg, c, h.account);
             var t1 := t.(accounts := Open(t.accounts, p.legs[1].account));
             && Archived(Post(t1, p), m)
             && u.transactions == Post(t1, p).transactions && u.legs == Post(t1, p).legs
             && u.accounts == Post(t1, p).accounts[h.account :=
                AccountAt(Post(t1, p).accounts, h.account).(inFlight := AccountAt(t1.accounts, h.account).inFlight - h.amount)]
    ensures Refines(cfg, u, m)
  {
    hide Views, Archived, SettlementsFiled;
    var p := SettlePosting(cfg, c, t.holds[i].account);
    var t1 := t.(accounts := Open(t.accounts, p.legs[1].account));
    SettlePair(cfg, t, l, c, t.holds[i]);
    SettleViews(cfg, t1.accounts, l, c, env, i);
    ArchivedFrame(Post(t1, p), u, m, m);
  }

  lemma {:induction false} SettleRefines(cfg: Config, t: Tables, l: L.Ledger, c: Command, env: Env)
    requires cfg.Valid() && LegsWf(t) && HoldsWf(t) && Refines(cfg, t, l) && c.Settle?
    ensures var (u, end) := SettleTx(cfg, t, c, env);
            var (m, o) := L.SettleHold(l, c, env);
            o == EndOutcome(u, c, end) && Refines(cfg, u, m)
  {
    hide LegsWf, FindHold, SettlePasses, SettlePosting, AnyFrozen, SubmitEnd, Post, L.Answer, L.HolderOf, Readback,
         EntryMatches;
    var found := FindHold(t.holds, c.ref);
    if found.Some? {
      var i := found.value;
      var h := t.holds[i];
      assert HoldWf(t, h);
      assert SettledOnFile(l, i) && Filed(t, l, h.ref, SettleKind);
      if h.status == Settled {
        SettleReplayRefines(t, l, c, i);
      } else if h.status == Active {
        SettlePair(cfg, t, l, c, h);
        SettleDecision(cfg, t, l, c, env, i);
        if SettlePasses(l, h, c, env) {
          SettledStateRefines(cfg, t, l, c, env, i);
        } else {
          assert L.SettleHold(l, c, env).0 == l;
        }
      }
    }
  }
}
