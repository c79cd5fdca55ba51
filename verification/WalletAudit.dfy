/** The audit of the wallet never fails: books, in-flight totals and the credit floor hold after every command. */
module WalletAudit {
  import opened Options
  import opened WalletTypes
  import opened WalletTables
  import opened WalletSpec
  import opened WalletBooks
  import OrderedQuery

  predicate HoldWf(t: Tables, h: Hold) {
    && h.amount > 0
    && h.account in t.accounts
    && h.account.owner.User?
    && (h.status == Active ==> h.settledAmount.None? && h.releaseReason.None?)
    && (h.status == Settled ==> h.settledAmount.Some? && 0 < h.settledAmount.value <= h.amount)
    && (h.status == Released || h.status == Expired ==> h.releaseReason.Some?)
    && (h.status == Released <==> h.releaseFingerprint.Some?)
  }

  predicate HoldsWf(t: Tables) {
    && (forall i :: 0 <= i < |t.holds| ==> HoldWf(t, t.holds[i]))
    && (forall i, j :: 0 <= i < j < |t.holds| ==> t.holds[i].ref != t.holds[j].ref)
  }

  /** One account's exposure: in-flight is the sum of its active holds, and a user's floor is never broken. */
  predicate Covered(k: AccountKey, a: Account, holds: seq<Hold>) {
    && a.inFlight == ActiveSum(holds, k)
    && a.creditLimit >= 0
    && (if k.owner.User? then a.balance + a.creditLimit - a.inFlight >= 0 else a.creditLimit == 0)
  }

  predicate AllCovered(t: Tables) {
    forall k :: k in t.accounts ==> Covered(k, t.accounts[k], t.holds)
  }

  ghost predicate Inv(t: Tables) {
    Books(t) && HoldsWf(t) && AllCovered(t)
  }

  const EMPTY := Tables(map[], [], [], [])

  lemma {:induction false} EmptyIsInv()
    ensures Inv(EMPTY)
  {
  }

  // ---- opening ----

  lemma {:induction false} NoHolds(holds: seq<Hold>, k: AccountKey)
    requires forall i :: 0 <= i < |holds| ==> holds[i].account != k
    ensures ActiveSum(holds, k) == 0
  {
    if holds != [] {
      NoHolds(holds[..|holds| - 1], k);
    }
  }

  lemma {:induction false} OpenKeepsInv(t: Tables, k: AccountKey)
    requires Inv(t)
    ensures Inv(t.(accounts := Open(t.accounts, k)))
  {
    OpenKeepsBooks(t, k);
    if k !in t.accounts {
      NoHolds(t.holds, k);
    }
  }

  lemma {:induction false} OpenShardsKeepsInv(t: Tables, code: string, currency: string, n: nat)
    requires Inv(t)
    ensures Inv(t.(accounts := OpenShards(t.accounts, code, currency, n)))
  {
    if n > 0 {
      OpenShardsKeepsInv(t, code, currency, n - 1);
      OpenKeepsInv(t.(accounts := OpenShards(t.accounts, code, currency, n - 1)), ShardKey(code, n - 1, currency));
    }
  }

  lemma {:induction false} OpenSideKeepsInv(cfg: Config, t: Tables, a: AccountRef, currency: string)
    requires Inv(t)
    ensures Inv(t.(accounts := OpenSide(cfg, t.accounts, a, currency)))
  {
    match a
    case ToUser(u) => OpenKeepsInv(t, UserKey(u, currency));
    case ToCode(code) => OpenShardsKeepsInv(t, code, currency, cfg.shards);
  }

  lemma {:induction false} ShardKeysSound(accounts: map<AccountKey, Account>, code: string, currency: string, from: nat)
    ensures forall i :: 0 <= i < |ShardKeys(accounts, code, currency, from)| ==>
              var k := ShardKeys(accounts, code, currency, from)[i];
              k in accounts && k.currency == currency && k.owner.Internal? && k.owner.code == code && k.owner.shard >= from
    ensures forall i, j :: 0 <= i < j < |ShardKeys(accounts, code, currency, from)| ==>
              ShardKeys(accounts, code, currency, from)[i] != ShardKeys(accounts, code, currency, from)[j]
    decreases MAX_SHARDS - from
  {
    if from < MAX_SHARDS {
      ShardKeysSound(accounts, code, currency, from + 1);
    }
  }

  // ---- posting ----

  /** A posting may lower a user's balance only as far as the floor allows. */
  predicate FloorSafe(t: Tables, p: Posting) {
    forall i :: 0 <= i < |p.legs| && p.legs[i].account.owner.User? && p.legs[i].account in t.accounts ==>
      var a := t.accounts[p.legs[i].account];
      a.balance + p.legs[i].amount + a.creditLimit - a.inFlight >= 0
  }

  lemma {:induction false} PostKeepsInv(t: Tables, p: Posting)
    requires Inv(t) && Ready(t, p) && FloorSafe(t, p)
    ensures Inv(Post(t, p))
  {
    PostKeepsBooks(t, p);
    var u := Post(t, p);
    PostedAt(t.accounts, p.legs, p.legs[0].account, 0);
    forall k | k in u.accounts ensures Covered(k, u.accounts[k], u.holds) {
      assert Covered(k, t.accounts[k], t.holds);
      PostedCovered(t, p, k);
    }
  }

  lemma {:induction false} PostedCovered(t: Tables, p: Posting, k: AccountKey)
    requires Ready(t, p) && FloorSafe(t, p) && k in t.accounts && Covered(k, t.accounts[k], t.holds)
    ensures Covered(k, AccountAt(Post(t, p).accounts, k), t.holds)
  {
    if j :| 0 <= j < |p.legs| && p.legs[j].account == k {
      PostedAt(t.accounts, p.legs, k, j);
    } else {
      PostedAt(t.accounts, p.legs, k, 0);
    }
  }

  // ---- one lemma per command ----

  lemma {:induction false} MoveKeepsInv(cfg: Config, t: Tables, c: Command)
    requires Inv(t) && cfg.Valid() && (c.Credit? || c.Refund?) && Malformed(c).None?
    ensures Inv(MoveTx(cfg, t, c).0)
  {
    hide Books, HoldsWf, Post, ActiveSum;
    var p := MovePosting(cfg, c);
    var user, other := p.legs[0].account, p.legs[1].account;
    var t1 := t.(accounts := Open(t.accounts, user));
    var t2 := t1.(accounts := Open(t1.accounts, other));
    OpenKeepsInv(t, user);
    OpenKeepsInv(t1, other);
    if MoveTx(cfg, t, c).1.Committed? {
      assert Covered(user, t2.accounts[user], t2.holds);
      PostKeepsInv(t2, p);
    }
  }

  lemma {:induction false} AuthorizeKeepsInv(t: Tables, c: Command)
    requires Inv(t) && c.Authorize? && Malformed(c).None?
    ensures Inv(AuthorizeTx(t, c).0)
  {
    if AuthorizeTx(t, c).1.Committed? {
      var k := UserKey(c.userId, c.currency);
      OpenKeepsInv(t, k);
      var t1 := t.(accounts := Open(t.accounts, k));
      var a := t1.accounts[k];
      var h := Hold(k, c.ref, c.amount, Active, None, None, c.expiresAt, FingerprintOf(c), None);
      var u := t1.(accounts := t1.accounts[k := a.(inFlight := a.inFlight + c.amount)], holds := t1.holds + [h]);
      BooksFrame(t1, u);
      NewHoldCovered(t1, h, u.accounts);
      NewHoldWf(t1, h, u);
    }
  }

  lemma {:induction false} NewHoldCovered(t: Tables, h: Hold, accounts: map<AccountKey, Account>)
    requires AllCovered(t) && h.status == Active && h.account in t.accounts && h.amount > 0
    requires Available(t.accounts[h.account], true, false) >= h.amount
    requires var a := t.accounts[h.account];
             accounts == t.accounts[h.account := a.(inFlight := a.inFlight + h.amount)]
    ensures AllCovered(t.(accounts := accounts, holds := t.holds + [h]))
  {
    forall x | x in accounts ensures Covered(x, accounts[x], t.holds + [h]) {
      ActiveSumAppend(t.holds, h, x);
      assert Covered(x, t.accounts[x], t.holds);
    }
  }

  lemma {:induction false} NewHoldWf(t: Tables, h: Hold, u: Tables)
    requires HoldsWf(t) && u.accounts.Keys == t.accounts.Keys && u.holds == t.holds + [h]
    requires HoldWf(u, h) && FindHold(t.holds, h.ref).None?
    ensures HoldsWf(u)
  {
    forall i | 0 <= i < |u.holds| ensures HoldWf(u, u.holds[i]) {
      assert i < |t.holds| ==> HoldWf(t, t.holds[i]);
    }
  }

  /** The hold table after one row leaves the active state. */
  lemma {:induction false} EndedHolds(t: Tables, i: nat, h: Hold, k: AccountKey)
    requires i < |t.holds| && t.holds[i].status == Active && h.status != Active
    ensures ActiveSum(t.holds[i := h], k) ==
            ActiveSum(t.holds, k) - if t.holds[i].account == k then t.holds[i].amount else 0
  {
    ActiveSumUpdate(t.holds, i, h, k);
  }

  lemma {:induction false} ReplacedHoldsWf(t: Tables, u: Tables, i: nat)
    requires HoldsWf(t) && i < |t.holds| && |u.holds| == |t.holds| && t.accounts.Keys <= u.accounts.Keys
    requires u.holds == t.holds[i := u.holds[i]]
    requires HoldWf(u, u.holds[i]) && u.holds[i].ref == t.holds[i].ref
    ensures HoldsWf(u)
  {
    forall j | 0 <= j < |u.holds| ensures HoldWf(u, u.holds[j]) {
      assert j != i ==> HoldWf(t, t.holds[j]);
    }
  }

  lemma {:induction false} TerminatedKeepsInv(t: Tables, i: nat, reason: string, terminal: HoldStatus, f: Option<Fingerprint>)
    requires Inv(t) && i < |t.holds| && t.holds[i].status == Active
    requires (terminal == Released && f.Some?) || terminal == Expired
    ensures Inv(Terminated(t, i, reason, terminal, f))
  {
    var u := Terminated(t, i, reason, terminal, f);
    assert HoldWf(t, t.holds[i]);
    BooksFrame(t, u);
    ReplacedHoldsWf(t, u, i);
    forall k | k in u.accounts ensures Covered(k, u.accounts[k], u.holds) {
      assert Covered(k, t.accounts[k], t.holds);
      EndedHolds(t, i, u.holds[i], k);
    }
  }

  /** The state a committed settlement leaves, spelled out from the posting of its two legs. */
  lemma {:induction false} SettledState(cfg: Config, t: Tables, c: Command, env: Env, i: nat)
    requires HoldsWf(t) && cfg.Valid() && c.Settle?
    requires FindHold(t.holds, c.ref) == Some(i) && t.holds[i].status == Active
    requires SettleTx(cfg, t, c, env).1.Committed?
    ensures var h := t.holds[i];
            var p := SettlePosting(cfg, c, h.account);
            var t1 := t.(accounts := Open(t.accounts, p.legs[1].account));
            var u := SettleTx(cfg, t, c, env).0;
            && Ready(t1, p) && c.amount <= h.amount && h.account in t1.accounts
            && u.transactions == Post(t1, p).transactions && u.legs == Post(t1, p).legs
            && u.holds == t.holds[i := h.(status := Settled, settledAmount := Some(c.amount))]
            && h.account in Post(t1, p).accounts
            && u.accounts == Post(t1, p).accounts[h.account :=
                               Post(t1, p).accounts[h.account].(inFlight := t1.accounts[h.account].inFlight - h.amount)]
  {
    hide FindHold, SettleReplay, ShardOf, PostedAccounts;
    var h := t.holds[i];
    assert HoldWf(t, h);
    var p := SettlePosting(cfg, c, h.account);
    var t1 := t.(accounts := Open(t.accounts, p.legs[1].account));
    PostedAt(t1.accounts, p.legs, h.account, 0);
  }

  lemma {:induction false} SettleKeepsInv(cfg: Config, t: Tables, c: Command, env: Env)
    requires Inv(t) && cfg.Valid() && c.Settle? && Malformed(c).None?
    ensures Inv(SettleTx(cfg, t, c, env).0)
  {
    var (u, end) := SettleTx(cfg, t, c, env);
    if u != t {
      var i := FindHold(t.holds, c.ref).value;
      SettledState(cfg, t, c, env, i);
      SettledKeepsInv(cfg, t, c, i, u);
    }
  }

  lemma {:induction false} SettledKeepsInv(cfg: Config, t: Tables, c: Command, i: nat, u: Tables)
    requires Inv(t) && cfg.Valid() && c.Settle? && c.amount > 0
    requires i < |t.holds| && t.holds[i].status == Active && c.amount <= t.holds[i].amount
    requires var h := t.holds[i];
             var p := SettlePosting(cfg, c, h.account);
             var t1 := t.(accounts := Open(t.accounts, p.legs[1].account));
             && Ready(t1, p) && h.account in t1.accounts && h.account in Post(t1, p).accounts
             && u == Tables(Post(t1, p).accounts[h.account :=
                              Post(t1, p).accounts[h.account].(inFlight := t1.accounts[h.account].inFlight - h.amount)],
                            Post(t1, p).transactions, Post(t1, p).legs,
                            t.holds[i := h.(status := Settled, settledAmount := Some(c.amount))])
    ensures Inv(u)
  {
    hide Books, PostedAccounts, WrittenLegs, ActiveSum;
    var h := t.holds[i];
    assert HoldWf(t, h);
    var p := SettlePosting(cfg, c, h.account);
    var t1 := t.(accounts := Open(t.accounts, p.legs[1].account));
    OpenKeepsInv(t, p.legs[1].account);
    PostKeepsBooks(t1, p);
    PostedAt(t1.accounts, p.legs, p.legs[1].account, 0);
    BooksFrame(Post(t1, p), u);
    ReplacedHoldsWf(t, u, i);
    forall k | k in u.accounts ensures Covered(k, u.accounts[k], u.holds) {
      assert Covered(k, t1.accounts[k], t1.holds);
      EndedHolds(t, i, u.holds[i], k);
      SettledCovered(t1, p, c, h, k);
    }
  }

  lemma {:induction false} SettledCovered(t1: Tables, p: Posting, c: Command, h: Hold, k: AccountKey)
    requires Ready(t1, p) && |p.legs| == 2 && k in t1.accounts
    requires p.legs[0].account == h.account && p.legs[1].account.owner.Internal? && h.account.owner.User?
    requires c.Settle? && p.legs[0].amount == -c.amount && c.amount <= h.amount
    requires Covered(k, t1.accounts[k], t1.holds)
    ensures var a := AccountAt(Post(t1, p).accounts, k);
            var b := t1.accounts[k];
            && a.inFlight == b.inFlight && a.creditLimit == b.creditLimit
            && (k == h.account ==> a.balance == b.balance - c.amount)
            && (k.owner.User? && k != h.account ==> a == b)
  {
    if k == h.account {
      PostedAt(t1.accounts, p.legs, k, 0);
    } else if k == p.legs[1].account {
      PostedAt(t1.accounts, p.legs, k, 1);
    } else {
      PostedAt(t1.accounts, p.legs, k, 0);
    }
  }

  // ---- the expiry scan ----

  /** The scan selects due, unlocked rows, each once. */
  lemma {:induction false} DueItemsSound(holds: seq<Hold>, env: Env)
    ensures OrderedQuery.DistinctIds(DueItems(holds, env))
    ensures forall i :: 0 <= i < |DueItems(holds, env)| ==>
              var x := DueItems(holds, env)[i].id;
              x < |holds| && Due(holds[x], env.now) && x !in env.skip
  {
    if holds != [] {
      DueItemsSound(holds[..|holds| - 1], env);
    }
  }

  /** Rows the expiry batch may touch: distinct, existing, active. */
  predicate Expirable(holds: seq<Hold>, ids: seq<nat>) {
    OrderedQuery.Distinct(ids) && forall i :: 0 <= i < |ids| ==> ids[i] < |holds| && holds[ids[i]].status == Active
  }

  lemma {:induction false} ScanChosenSound(t: Tables, limit: nat, env: Env)
    ensures Expirable(t.holds, ScanChosen(t, limit, env))
    ensures forall i :: 0 <= i < |ScanChosen(t, limit, env)| ==> Due(t.holds[ScanChosen(t, limit, env)[i]], env.now)
  {
    var items := DueItems(t.holds, env);
    DueItemsSound(t.holds, env);
    OrderedQuery.FirstIdsSound(items, limit);
  }

  lemma {:induction false} ExpireOneMore(holds: seq<Hold>, ids: seq<nat>)
    requires Expirable(holds, ids) && ids != []
    ensures var init, i := ids[..|ids| - 1], ids[|ids| - 1];
            Expirable(holds, init) &&
            ExpireHolds(holds, SetOf(init))[i] == holds[i] &&
            ExpireHolds(holds, SetOf(ids)) ==
            ExpireHolds(holds, SetOf(init))[i := holds[i].(status := Expired, releaseReason := Some(EXPIRED))]
  {
    var init, i := ids[..|ids| - 1], ids[|ids| - 1];
    assert ids == init + [i];
    assert SetOf(ids) == SetOf(init) + {i};
  }

  /** Grouping by account is exact: the batch lowers each account's active sum by what it groups under it. */
  lemma {:induction false} FreedIsExact(holds: seq<Hold>, ids: seq<nat>, k: AccountKey)
    requires Expirable(holds, ids)
    ensures ActiveSum(ExpireHolds(holds, SetOf(ids)), k) == ActiveSum(holds, k) - FreedOn(holds, ids, k)
  {
    if ids == [] {
      assert ExpireHolds(holds, SetOf(ids)) == holds;
    } else {
      var init, i := ids[..|ids| - 1], ids[|ids| - 1];
      ExpireOneMore(holds, ids);
      FreedIsExact(holds, init, k);
      ActiveSumUpdate(ExpireHolds(holds, SetOf(init)), i,
                      holds[i].(status := Expired, releaseReason := Some(EXPIRED)), k);
    }
  }

  lemma {:induction false} FreeAllKeepsInv(t: Tables, ids: seq<nat>)
    requires Inv(t) && Expirable(t.holds, ids)
    ensures Inv(FreeAll(t, ids))
  {
    BooksFrame(t, FreeAll(t, ids));
    FreeAllKeepsHolds(t, ids);
    FreeAllKeepsCovered(t, ids);
  }

  lemma {:induction false} FreeAllKeepsHolds(t: Tables, ids: seq<nat>)
    requires HoldsWf(t) && Expirable(t.holds, ids)
    ensures HoldsWf(FreeAll(t, ids))
  {
    var u := FreeAll(t, ids);
    forall i | 0 <= i < |u.holds| ensures HoldWf(u, u.holds[i]) && u.holds[i].ref == t.holds[i].ref {
      assert HoldWf(t, t.holds[i]);
    }
  }

  lemma {:induction false} FreeAllKeepsCovered(t: Tables, ids: seq<nat>)
    requires HoldsWf(t) && AllCovered(t) && Expirable(t.holds, ids)
    ensures AllCovered(FreeAll(t, ids))
  {
    var u := FreeAll(t, ids);
    forall k | k in u.accounts ensures Covered(k, u.accounts[k], u.holds) {
      assert Covered(k, t.accounts[k], t.holds);
      FreedIsExact(t.holds, ids, k);
      FreedNonNegative(t, ids, k);
    }
  }

  lemma {:induction false} FreedNonNegative(t: Tables, ids: seq<nat>, k: AccountKey)
    requires HoldsWf(t) && forall i :: 0 <= i < |ids| ==> ids[i] < |t.holds|
    ensures FreedOn(t.holds, ids, k) >= 0
  {
    if ids != [] {
      FreedNonNegative(t, ids[..|ids| - 1], k);
      assert HoldWf(t, t.holds[ids[|ids| - 1]]);
    }
  }

  lemma {:induction false} ScanKeepsInv(t: Tables, limit: nat, env: Env)
    requires Inv(t)
    ensures Inv(ScanTx(t, limit, env).0)
  {
    ScanChosenSound(t, limit, env);
    FreeAllKeepsInv(t, ScanChosen(t, limit, env));
  }

  // ---- limits, freezing, transfers ----

  lemma {:induction false} LimitKeepsInv(t: Tables, c: Command)
    requires Inv(t) && c.SetCreditLimit? && Malformed(c).None?
    ensures Inv(LimitTx(t, c).0)
  {
    hide ActiveSum, WrittenLegs, PostedAccounts, Books, HoldsWf;
    if LimitTx(t, c).1.Committed? {
      var k := UserKey(c.userId, c.currency);
      var t1 := t.(accounts := Open(t.accounts, k));
      OpenKeepsInv(t, k);
      var p := LimitPosting(c);
      ZeroLegKeepsInv(t1, p, k);
      PostedAt(t1.accounts, p.legs, k, 0);
      NewLimitKeepsInv(Post(t1, p), k, c.amount);
    }
  }

  lemma {:induction false} NewLimitKeepsInv(t: Tables, k: AccountKey, limit: int)
    requires Inv(t) && k in t.accounts && k.owner.User?
    requires limit >= 0 && t.accounts[k].balance + limit - t.accounts[k].inFlight >= 0
    ensures Inv(t.(accounts := t.accounts[k := t.accounts[k].(creditLimit := limit)]))
  {
    var u := t.(accounts := t.accounts[k := t.accounts[k].(creditLimit := limit)]);
    BooksFrame(t, u);
    forall i | 0 <= i < |u.holds| ensures HoldWf(u, u.holds[i]) {
      assert HoldWf(t, t.holds[i]);
    }
    forall x | x in u.accounts ensures Covered(x, u.accounts[x], u.holds) {
      assert Covered(x, t.accounts[x], t.holds);
    }
  }

  lemma {:induction false} FreezeKeepsInv(cfg: Config, t: Tables, c: Command)
    requires Inv(t) && c.Freeze?
    ensures Inv(FreezeTx(cfg, t, c).0)
  {
    if FreezeTx(cfg, t, c).1.Committed? {
      var t1 := t.(accounts := OpenSide(cfg, t.accounts, c.target, c.currency));
      OpenSideKeepsInv(cfg, t, c.target, c.currency);
      var keys := SideKeys(t1.accounts, c.target, c.currency);
      SideKeysSound(cfg, t1.accounts, t.accounts, c.target, c.currency);
      assert keys[0] in t1.accounts && keys[0].currency == c.currency;
      ZeroLegKeepsInv(t1, FreezePosting(c, keys[0]), keys[0]);
      SetFrozenKeepsInv(Post(t1, FreezePosting(c, keys[0])), keys, c.frozen);
    }
  }

  /** An audit posting of one zero leg. */
  lemma {:induction false} ZeroLegKeepsInv(t: Tables, p: Posting, k: AccountKey)
    requires Inv(t) && k in t.accounts && p.legs == [PostingLeg(k, k.currency, 0)]
    requires IsAudit(p.header.kind)
    requires if p.header.kind.FreezeKind? then p.header.frozenAfter.Some? else p.header.creditLimitAfter.Some?
    requires FindTx(t.transactions, p.header.ref, p.header.kind).None?
    ensures Inv(Post(t, p))
  {
    assert PostingTotal(p.legs) == PostingTotal(p.legs[..0]) == 0;
    assert Covered(k, t.accounts[k], t.holds);
    PostKeepsInv(t, p);
  }

  lemma {:induction false} SetFrozenKeepsInv(t: Tables, keys: seq<AccountKey>, frozen: bool)
    requires Inv(t)
    ensures Inv(t.(accounts := SetFrozen(t.accounts, keys, frozen)))
  {
    var u := t.(accounts := SetFrozen(t.accounts, keys, frozen));
    BooksFrame(t, u);
    forall k | k in u.accounts ensures Covered(k, u.accounts[k], u.holds) {
      assert Covered(k, t.accounts[k], t.holds);
    }
    forall i | 0 <= i < |u.holds| ensures HoldWf(u, u.holds[i]) {
      assert HoldWf(t, t.holds[i]);
    }
  }

  /** After opening a side, its rows exist, are distinct and carry the right currency. */
  lemma {:induction false} SideKeysSound(cfg: Config, accounts: map<AccountKey, Account>, before: map<AccountKey, Account>,
                      a: AccountRef, currency: string)
    requires OpenSide(cfg, before, a, currency).Keys <= accounts.Keys
    ensures forall i :: 0 <= i < |SideKeys(accounts, a, currency)| ==>
              var k := SideKeys(accounts, a, currency)[i];
              k in accounts && k.currency == currency && OnSide(k, a, currency)
    ensures forall i, j :: 0 <= i < j < |SideKeys(accounts, a, currency)| ==>
              SideKeys(accounts, a, currency)[i] != SideKeys(accounts, a, currency)[j]
  {
    match a
    case ToUser(u) =>
    case ToCode(code) => ShardKeysSound(accounts, code, currency, 0);
  }

  lemma {:induction false} OpenShardsGrows(accounts: map<AccountKey, Account>, code: string, currency: string, n: nat)
    ensures accounts.Keys <= OpenShards(accounts, code, currency, n).Keys
    ensures forall k :: AccountAt(OpenShards(accounts, code, currency, n), k) == AccountAt(accounts, k)
    ensures forall j :: 0 <= j < n ==> ShardKey(code, j, currency) in OpenShards(accounts, code, currency, n)
    ensures forall k :: k in OpenShards(accounts, code, currency, n) ==>
              k in accounts || (exists j :: 0 <= j < n && k == ShardKey(code, j, currency))
  {
    if n > 0 {
      OpenShardsGrows(accounts, code, currency, n - 1);
    }
  }

  lemma {:induction false} OpenSideGrows(cfg: Config, accounts: map<AccountKey, Account>, a: AccountRef, currency: string)
    ensures accounts.Keys <= OpenSide(cfg, accounts, a, currency).Keys
    ensures forall k :: AccountAt(OpenSide(cfg, accounts, a, currency), k) == AccountAt(accounts, k)
  {
    match a
    case ToUser(u) =>
    case ToCode(code) => OpenShardsGrows(accounts, code, currency, cfg.shards);
  }

  /** The one leg that a user is debited by stays within what is available. */
  lemma {:induction false} DebitIsSafe(t: Tables, c: Command, from: Side, preferred: nat, i: nat)
    requires Inv(t) && c.Transfer? && i < |from.keys| && from.keys[i] in t.accounts && from.keys[i].owner.User?
    requires from.isUser ==> |from.keys| == 1
    requires !from.isUser ==> forall k :: k in from.keys ==> !k.owner.User?
    requires TransferShortfall(t.accounts, from, c, preferred).None?
    ensures var a := t.accounts[from.keys[i]];
            a.balance + DebitLegs(t.accounts, from, c.amount, preferred)[i].amount + a.creditLimit - a.inFlight >= 0
  {
    assert from.keys[i] in from.keys;
    assert Covered(from.keys[i], t.accounts[from.keys[i]], t.holds);
    hide Inv, ActiveSum, ShardKeys, DebitOf, Missing, SideTotal;
  }

  /** A transfer that passed its guards posts on existing rows and keeps a paying user above the floor. */
  lemma {:induction false} TransferIsSafe(t: Tables, c: Command, from: Side, to: Side, preferred: nat)
    requires Inv(t) && c.Transfer? && c.amount > 0
    requires forall k :: k in from.keys + to.keys ==> k in t.accounts
    requires from.isUser ==> |from.keys| == 1
    requires !from.isUser ==> forall k :: k in from.keys ==> !k.owner.User?
    requires from.keys != [] && TransferShortfall(t.accounts, from, c, preferred).None?
    ensures FloorSafe(t, TransferPosting(t.accounts, c, from, to, preferred))
  {
    hide Inv, ActiveSum, ShardKeys, DebitOf, DebitLegs, TransferShortfall;
    var p := TransferPosting(t.accounts, c, from, to, preferred);
    var d := DebitLegs(t.accounts, from, c.amount, preferred);
    var e := CreditLegs(to, c.amount, preferred);
    forall i | 0 <= i < |p.legs| && p.legs[i].account.owner.User? && p.legs[i].account in t.accounts
      ensures var a := t.accounts[p.legs[i].account];
              a.balance + p.legs[i].amount + a.creditLimit - a.inFlight >= 0
    {
      if i < |d| {
        assert p.legs[i] == d[i];
        DebitIsSafe(t, c, from, preferred, i);
      } else {
        assert p.legs[i] == e[i - |d|];
        CoveredFloor(t, p.legs[i].account);
      }
    }
  }

  lemma {:induction false} CoveredFloor(t: Tables, k: AccountKey)
    requires Inv(t) && k in t.accounts && k.owner.User?
    ensures t.accounts[k].balance + t.accounts[k].creditLimit - t.accounts[k].inFlight >= 0
  {
    assert Covered(k, t.accounts[k], t.holds);
  }

  /** Both sides of a transfer are existing rows in their own currency, and no row occurs twice on a side. */
  lemma {:induction false} BothSidesSound(cfg: Config, t: Tables, c: Command)
    requires c.Transfer?
    ensures var accounts := OpenBoth(cfg, t.accounts, c);
            var from, to := SideKeys(accounts, c.from, c.fromCurrency), SideKeys(accounts, c.to, c.toCurrency);
            && (forall k :: k in from + to ==> k in accounts)
            && (forall k :: k in from ==> k.currency == c.fromCurrency && OnSide(k, c.from, c.fromCurrency))
            && (forall k :: k in to ==> k.currency == c.toCurrency && OnSide(k, c.to, c.toCurrency))
  {
    var t1 := OpenSide(cfg, t.accounts, c.from, c.fromCurrency);
    var accounts := OpenBoth(cfg, t.accounts, c);
    OpenSideGrows(cfg, t1, c.to, c.toCurrency);
    SideKeysSound(cfg, accounts, t.accounts, c.from, c.fromCurrency);
    SideKeysSound(cfg, accounts, t1, c.to, c.toCurrency);
  }

  lemma {:induction false} TransferKeepsInv(cfg: Config, t: Tables, c: Command)
    requires Inv(t) && cfg.Valid() && c.Transfer? && Malformed(c).None?
    ensures Inv(TransferTx(cfg, t, c).0)
  {
    hide Inv, TransferPosting, TransferShortfall, OpenSide, Post, ShardKeys;
    if TransferTx(cfg, t, c).1.Committed? {
      var t1 := t.(accounts := OpenSide(cfg, t.accounts, c.from, c.fromCurrency));
      var t2 := t.(accounts := OpenBoth(cfg, t.accounts, c));
      OpenSideKeepsInv(cfg, t, c.from, c.fromCurrency);
      OpenSideKeepsInv(cfg, t1, c.to, c.toCurrency);
      BothSidesSound(cfg, t, c);
      var from := SideOf(t2.accounts, c.from, c.fromCurrency);
      var to := SideOf(t2.accounts, c.to, c.toCurrency);
      TransferIsSafe(t2, c, from, to, ShardOf(cfg, c.ref));
      PostedTransferKeepsInv(t2, c, from, to, ShardOf(cfg, c.ref));
    }
  }

  lemma {:induction false} PostedTransferKeepsInv(t: Tables, c: Command, from: Side, to: Side, preferred: nat)
    requires Inv(t) && c.Transfer?
    requires var p := TransferPosting(t.accounts, c, from, to, preferred);
             && FloorSafe(t, p)
             && Postable(p, set k | k in from.keys + to.keys)
             && FindTx(t.transactions, p.header.ref, p.header.kind).None?
    requires forall k :: k in from.keys + to.keys ==> k in t.accounts
    ensures Inv(Post(t, TransferPosting(t.accounts, c, from, to, preferred)))
  {
    var p := TransferPosting(t.accounts, c, from, to, preferred);
    PostKeepsInv(t, p);
  }

  // ---- every command, every run ----

  lemma {:induction false} TxStepKeepsInv(cfg: Config, t: Tables, c: Command, env: Env)
    requires Inv(t) && cfg.Valid() && Malformed(c).None?
    ensures Inv(TxStep(cfg, t, c, env).0)
  {
    match c
    case Credit(_, _, _, _, _, _) => MoveKeepsInv(cfg, t, c);
    case Refund(_, _, _, _, _, _) => MoveKeepsInv(cfg, t, c);
    case Authorize(_, _, _, _, _, _, _) => AuthorizeKeepsInv(t, c);
    case Settle(_, _, _, _) => SettleKeepsInv(cfg, t, c, env);
    case Release(_, reason) =>
      var i := FindHold(t.holds, c.ref);
      if i.Some? && t.holds[i.value].status == Active {
        TerminatedKeepsInv(t, i.value, reason, Released, Some(FingerprintOf(c)));
      }
    case ReleaseExpired(limit) => ScanKeepsInv(t, limit, env);
    case SetCreditLimit(_, _, _, _, _) => LimitKeepsInv(t, c);
    case Freeze(_, _, _, _, _) => FreezeKeepsInv(cfg, t, c);
    case Transfer(_, _, _, _, _, _, _, _) => TransferKeepsInv(cfg, t, c);
  }

  datatype Event = Event(command: Command, env: Env)

  /** The tables after any sequence of commands, accepted or rejected. */
  function Run(cfg: Config, t: Tables, events: seq<Event>): Tables
    requires cfg.Valid()
  {
    if events == [] then t
    else
      var last := events[|events| - 1];
      Step(cfg, Run(cfg, t, events[..|events| - 1]), last.command, last.env).0
  }

  lemma {:induction false} RunKeepsInv(cfg: Config, events: seq<Event>)
    requires cfg.Valid()
    ensures Inv(Run(cfg, EMPTY, events))
  {
    if events == [] {
      EmptyIsInv();
    } else {
      var last := events[|events| - 1];
      var t := Run(cfg, EMPTY, events[..|events| - 1]);
      RunKeepsInv(cfg, events[..|events| - 1]);
      if FastPath(t, last.command).None? {
        TxStepKeepsInv(cfg, t, last.command, last.env);
      }
    }
  }
}
