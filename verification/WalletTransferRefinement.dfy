/** Limits, freezes and transfers refine: one logical account behind however many shards. */
module WalletTransferRefinement {
  import opened Options
  import opened WalletTypes
  import opened WalletTables
  import opened WalletSpec
  import opened WalletBooks
  import opened WalletAudit
  import opened WalletViews
  import opened WalletArchive
  import opened WalletDrain
  import opened WalletRefinement
  import L = WalletLedger

  // ---- credit limit ----

  /** The audit leg moves nothing. */
  lemma {:induction false} ZeroLegPosts(accounts: map<AccountKey, Account>, k: AccountKey)
    requires k in accounts
    ensures PostedAccounts(accounts, accounts, [PostingLeg(k, k.currency, 0)]) == accounts
  {
    var legs := [PostingLeg(k, k.currency, 0)];
    assert PostedAccounts(accounts, accounts, legs[..0]) == accounts;
  }

  lemma {:induction false} AuditPostable(p: Posting, k: AccountKey, locked: set<AccountKey>)
    requires k in locked
    requires p.legs == [PostingLeg(k, k.currency, 0)] && IsAudit(p.header.kind)
    requires if p.header.kind.FreezeKind? then p.header.frozenAfter.Some? else p.header.creditLimitAfter.Some?
    ensures Postable(p, locked)
  {
    assert PostingTotal(p.legs) == PostingTotal(p.legs[..0]) == 0;
  }

  lemma {:induction false} LimitRefines(cfg: Config, t: Tables, l: L.Ledger, c: Command)
    requires cfg.Valid() && LegsWf(t) && Refines(cfg, t, l)
    requires c.SetCreditLimit? && PriorOf(t, c).None?
    ensures var (u, end) := LimitTx(t, c);
            var (m, o) := L.Grant(l, c);
            o == EndOutcome(u, c, end) && Refines(cfg, u, m)
  {
    hide ShardKeys, Readback, PostedAccounts, WrittenLegs;
    var k, p := UserKey(c.userId, c.currency), LimitPosting(c);
    var t1 := t.(accounts := Open(t.accounts, k));
    OpenKeepsViews(cfg, t.accounts, l, k);
    assert Shows(cfg, t1.accounts, l.At(ToUser(c.userId), c.currency), ToUser(c.userId), c.currency);
    AuditPostable(p, k, {k});
    var (u, end) := LimitTx(t, c);
    if end.Committed? {
      ZeroLegPosts(t1.accounts, k);
      OpenedRows(t, l, t1.accounts);
      var e := L.LimitSet(l.next, c.userId, c.currency, c.amount, FingerprintOf(c));
      AuditFiles(t1, p, l, e, L.Grant(l, c).0);
      SetUserViews(cfg, t1.accounts, l, c.userId, c.currency, t1.accounts[k].(creditLimit := c.amount));
      ViewsAgree(cfg, u.accounts, l.Set(ToUser(c.userId), c.currency, t1.accounts[k].(creditLimit := c.amount)),
                 L.Grant(l, c).0);
      ArchivedFrame(Post(t1, p), u, L.Grant(l, c).0, L.Grant(l, c).0);
    }
  }

  lemma {:induction false} AuditFiles(t: Tables, p: Posting, l: L.Ledger, e: L.Entry, m: L.Ledger)
    requires LegsWf(t) && Archived(t, l) && SettlementsFiled(l)
    requires |p.legs| == 1 && p.legs[0] == PostingLeg(p.legs[0].account, p.legs[0].account.currency, 0)
    requires p.legs[0].account in t.accounts && IsAudit(p.header.kind)
    requires if p.header.kind.FreezeKind? then p.header.frozenAfter.Some? else p.header.creditLimitAfter.Some?
    requires FindTx(t.transactions, p.header.ref, p.header.kind).None?
    requires EntryMatches(p.header, WrittenLegs(t.accounts, |t.transactions|, p.legs), |t.transactions|, e)
    requires m.archive == l.archive[(p.header.ref, p.header.kind) := e] && m.holds == l.holds
    ensures Archived(Post(t, p), m) && SettlementsFiled(m)
  {
    AuditPostable(p, p.legs[0].account, t.accounts.Keys);
    PostFiles(t, p, l, e);
    ArchivedFrame(Post(t, p), Post(t, p), l.File(p.header.ref, p.header.kind, e), m);
    SettlementsFrame(l, m, p.header.ref, p.header.kind, e);
  }

  // ---- freeze ----

  /** All rows behind a name: one for a user, every shard for a code. */
  predicate AllRows(cfg: Config, accounts: map<AccountKey, Account>, a: AccountRef, currency: string, keys: seq<AccountKey>) {
    && |keys| == (if a.ToUser? then 1 else cfg.shards)
    && forall i :: 0 <= i < |keys| ==>
         keys[i] == (if a.ToUser? then UserKey(a.userId, currency) else ShardKey(a.code, i, currency)) && keys[i] in accounts
  }

  /** Rewriting the status of every row of a side is a status change of the one account behind it. */
  lemma {:induction false} SetFrozenViews(cfg: Config, accounts: map<AccountKey, Account>, l: L.Ledger, a: AccountRef,
                                          currency: string, keys: seq<AccountKey>, frozen: bool)
    requires cfg.Valid() && Views(cfg, accounts, l) && AllRows(cfg, accounts, a, currency, keys)
    ensures Views(cfg, SetFrozen(accounts, keys, frozen), l.Set(a, currency, l.At(a, currency).(frozen := frozen)))
  {
    var m, n := SetFrozen(accounts, keys, frozen), l.Set(a, currency, l.At(a, currency).(frozen := frozen));
    assert keys[0] in keys;
    forall who, cur ensures Shows(cfg, m, n.At(who, cur), who, cur) {
      assert Shows(cfg, accounts, l.At(who, cur), who, cur);
      if who == a && cur == currency {
        if a.ToCode? {
          forall j | 0 <= j < cfg.shards ensures
            AccountAt(m, ShardKey(a.code, j, currency)) == AccountAt(accounts, ShardKey(a.code, j, currency)).(frozen := frozen)
          {
            assert keys[j] in keys;
          }
          ShardTotalFrame(accounts, m, a.code, currency, cfg.shards);
        }
      } else {
        assert n.At(who, cur) == l.At(who, cur);
        forall k | OnSide(k, who, cur) ensures AccountAt(accounts, k) == AccountAt(m, k) {
          if k in keys {
            assert OnSide(k, a, currency);
            SidesAreDisjoint(k, a, currency, who, cur);
          }
        }
        ShowsFrame(cfg, accounts, m, l.At(who, cur), who, cur);
      }
    }
  }

  lemma {:induction false} FreezeDecision(cfg: Config, t: Tables, c: Command, accounts: map<AccountKey, Account>,
                                          keys: seq<AccountKey>)
    requires cfg.Valid() && c.Freeze? && PriorOf(t, c).None?
    requires accounts == OpenSide(cfg, t.accounts, c.target, c.currency)
    requires keys == SideKeys(accounts, c.target, c.currency) && AllRows(cfg, accounts, c.target, c.currency, keys)
    ensures var t1 := t.(accounts := accounts);
            var posted := Post(t1, FreezePosting(c, keys[0]));
            FreezeTx(cfg, t, c) == (posted.(accounts := SetFrozen(posted.accounts, keys, c.frozen)),
                                    Committed(FreezeReceipt(|t.transactions|, c.frozen), false))
  {
    hide ShardKeys, PostedAccounts, WrittenLegs, SetFrozen, OpenSide, SideKeys;
    var p := FreezePosting(c, keys[0]);
    var locked := set k | k in keys;
    assert keys[0] in locked;
    AuditPostable(p, keys[0], locked);
    var t1 := t.(accounts := accounts);
    assert SubmitEnd(t1, p, locked, FreezeReceipt(|t.transactions|, c.frozen)) ==
           Committed(FreezeReceipt(|t.transactions|, c.frozen), false);
  }

  lemma {:induction false} FreezeFiles(cfg: Config, t: Tables, l: L.Ledger, c: Command, keys: seq<AccountKey>)
    requires cfg.Valid() && LegsWf(t) && Archived(t, l) && SettlementsFiled(l) && l.next == |t.transactions|
    requires c.Freeze? && PriorOf(t, c).None? && AllRows(cfg, t.accounts, c.target, c.currency, keys)
    ensures var p := FreezePosting(c, keys[0]);
            var m := L.SetStatus(l, c).0;
            Archived(Post(t, p), m) && SettlementsFiled(m) && Post(t, p).accounts == t.accounts
  {
    var e := L.FrozenSet(l.next, c.target, c.currency, c.frozen, FingerprintOf(c));
    ZeroLegPosts(t.accounts, keys[0]);
    AuditFiles(t, FreezePosting(c, keys[0]), l, e, L.SetStatus(l, c).0);
  }

  lemma {:induction false} OpenedRowsOf(cfg: Config, accounts: map<AccountKey, Account>, l: L.Ledger, a: AccountRef, currency: string)
    requires cfg.Valid() && Views(cfg, accounts, l)
    ensures var opening := OpenSide(cfg, accounts, a, currency);
            && Views(cfg, opening, l) && accounts.Keys <= opening.Keys
            && AllRows(cfg, opening, a, currency, SideKeys(opening, a, currency))
  {
    var opening := OpenSide(cfg, accounts, a, currency);
    OpenSideKeepsViews(cfg, accounts, l, a, currency);
    OpenSideGrows(cfg, accounts, a, currency);
    OpenedSide(cfg, opening, accounts, a, currency);
    SideKeysSound(cfg, opening, accounts, a, currency);
  }

  lemma {:induction false} FreezeRefines(cfg: Config, t: Tables, l: L.Ledger, c: Command)
    requires cfg.Valid() && LegsWf(t) && Refines(cfg, t, l)
    requires c.Freeze? && PriorOf(t, c).None?
    ensures var (u, end) := FreezeTx(cfg, t, c);
            var (m, o) := L.SetStatus(l, c);
            o == EndOutcome(u, c, end) && Refines(cfg, u, m)
  {
    var t1 := t.(accounts := OpenSide(cfg, t.accounts, c.target, c.currency));
    var keys := SideKeys(t1.accounts, c.target, c.currency);
    OpenedRowsOf(cfg, t.accounts, l, c.target, c.currency);
    FreezeDecision(cfg, t, c, t1.accounts, keys);
    OpenedRows(t, l, t1.accounts);
    FreezeFiles(cfg, t1, l, c, keys);
    FrozenRefines(cfg, t1, l, c, keys, L.SetStatus(l, c).0);
  }

  lemma {:induction false} FrozenRefines(cfg: Config, t: Tables, l: L.Ledger, c: Command, keys: seq<AccountKey>, m: L.Ledger)
    requires cfg.Valid() && c.Freeze? && Views(cfg, t.accounts, l) && m == L.SetStatus(l, c).0
    requires l.holds == t.holds && l.next == |t.transactions| && SettlementsFiled(m)
    requires AllRows(cfg, t.accounts, c.target, c.currency, keys)
    requires Archived(Post(t, FreezePosting(c, keys[0])), m)
    requires Post(t, FreezePosting(c, keys[0])).accounts == t.accounts
    ensures var posted := Post(t, FreezePosting(c, keys[0]));
            Refines(cfg, posted.(accounts := SetFrozen(posted.accounts, keys, c.frozen)), m)
  {
    var posted := Post(t, FreezePosting(c, keys[0]));
    var u := posted.(accounts := SetFrozen(posted.accounts, keys, c.frozen));
    SetFrozenViews(cfg, t.accounts, l, c.target, c.currency, keys, c.frozen);
    ViewsAgree(cfg, u.accounts, l.Set(c.target, c.currency, l.At(c.target, c.currency).(frozen := c.frozen)), m);
    ArchivedFrame(posted, u, m, m);
  }

  // ---- transfer ----

  lemma {:induction false} BothRows(cfg: Config, accounts: map<AccountKey, Account>, l: L.Ledger, c: Command)
    requires cfg.Valid() && Views(cfg, accounts, l) && c.Transfer?
    ensures var both := OpenBoth(cfg, accounts, c);
            && Views(cfg, both, l) && accounts.Keys <= both.Keys
            && AllRows(cfg, both, c.from, c.fromCurrency, SideKeys(both, c.from, c.fromCurrency))
            && AllRows(cfg, both, c.to, c.toCurrency, SideKeys(both, c.to, c.toCurrency))
  {
    var a1 := OpenSide(cfg, accounts, c.from, c.fromCurrency);
    var both := OpenBoth(cfg, accounts, c);
    OpenedRowsOf(cfg, accounts, l, c.from, c.fromCurrency);
    OpenedRowsOf(cfg, a1, l, c.to, c.toCurrency);
    OpenedSide(cfg, both, accounts, c.from, c.fromCurrency);
    SideKeysSound(cfg, both, accounts, c.from, c.fromCurrency);
  }

  /** What the rows of a name add up to, and whether they are frozen. */
  lemma {:induction false} RowsShow(cfg: Config, accounts: map<AccountKey, Account>, l: L.Ledger, a: AccountRef, currency: string,
                                    keys: seq<AccountKey>)
    requires cfg.Valid() && Views(cfg, accounts, l) && AllRows(cfg, accounts, a, currency, keys)
    ensures SideTotal(accounts, keys) == l.At(a, currency).balance
    ensures AnyFrozen(accounts, keys) <==> l.At(a, currency).frozen
    ensures a.ToUser? ==> AccountAt(accounts, keys[0]) == l.At(a, currency)
    ensures forall i, j :: 0 <= i < j < |keys| ==> keys[i] != keys[j]
  {
    assert Shows(cfg, accounts, l.At(a, currency), a, currency);
    assert keys[0] in keys;
    if a.ToUser? {
      assert SideTotal(accounts, keys[..0]) == 0;
    } else {
      SideTotalIsShardTotal(accounts, keys, a.code, currency);
      assert AccountAt(accounts, keys[0]).frozen == l.At(a, currency).frozen;
    }
  }

  lemma {:induction false} AnyFrozenConcat(accounts: map<AccountKey, Account>, a: seq<AccountKey>, b: seq<AccountKey>)
    ensures AnyFrozen(accounts, a + b) <==> AnyFrozen(accounts, a) || AnyFrozen(accounts, b)
  {
    if AnyFrozen(accounts, a) {
      var k :| k in a && AccountAt(accounts, k).frozen;
      assert k in a + b;
    }
    if AnyFrozen(accounts, b) {
      var k :| k in b && AccountAt(accounts, k).frozen;
      assert k in a + b;
    }
  }

  /** Both sides of a transfer, as the rows have them. */
  predicate Sides(cfg: Config, accounts: map<AccountKey, Account>, c: Command, from: Side, to: Side)
    requires c.Transfer?
  {
    && AllRows(cfg, accounts, c.from, c.fromCurrency, from.keys) && from.isUser == c.from.ToUser?
    && AllRows(cfg, accounts, c.to, c.toCurrency, to.keys) && to.isUser == c.to.ToUser?
  }

  lemma {:induction false} ShortfallAlike(cfg: Config, accounts: map<AccountKey, Account>, l: L.Ledger, c: Command, from: Side,
                                          to: Side, preferred: nat)
    requires cfg.Valid() && Views(cfg, accounts, l) && c.Transfer? && c.amount > 0 && Sides(cfg, accounts, c, from, to)
    ensures TransferShortfall(accounts, from, c, preferred) ==
            if L.Spendable(l, c.from, c.fromCurrency, c.cashOnly) < c.amount
            then Some(if c.from.ToUser? && c.cashOnly then InsufficientCash else InsufficientBalance) else None
  {
    RowsShow(cfg, accounts, l, c.from, c.fromCurrency, from.keys);
    if !from.isUser {
      SecondGuardNeverFires(accounts, from, c, preferred);
    }
  }

  lemma {:induction false} SidesApart(cfg: Config, accounts: map<AccountKey, Account>, c: Command, from: Side, to: Side)
    requires c.Transfer? && Sides(cfg, accounts, c, from, to) && !(c.from == c.to && c.fromCurrency == c.toCurrency)
    ensures forall i, j :: 0 <= i < |from.keys| && 0 <= j < |to.keys| ==> from.keys[i] != to.keys[j]
  {
  }

  lemma {:induction false} TransferTotals(cfg: Config, accounts: map<AccountKey, Account>, l: L.Ledger, c: Command, from: Side,
                                          to: Side, preferred: nat)
    requires cfg.Valid() && Views(cfg, accounts, l) && c.Transfer? && c.amount > 0 && Sides(cfg, accounts, c, from, to)
    requires preferred < cfg.shards && TransferShortfall(accounts, from, c, preferred).None?
    ensures PostingTotal(DebitLegs(accounts, from, c.amount, preferred)) == -c.amount
    ensures PostingTotal(CreditLegs(to, c.amount, preferred)) == c.amount
    ensures forall i, j :: 0 <= i < j < |from.keys| ==> from.keys[i] != from.keys[j]
    ensures forall i, j :: 0 <= i < j < |to.keys| ==> to.keys[i] != to.keys[j]
    ensures |from.keys| >= 1 && |to.keys| >= 1
  {
    RowsShow(cfg, accounts, l, c.from, c.fromCurrency, from.keys);
    RowsShow(cfg, accounts, l, c.to, c.toCurrency, to.keys);
    DebitLegsTotal(accounts, from, c, preferred);
    CreditLegsTotal(to, c.amount, preferred);
  }

  lemma {:induction false} TransferPostable(cfg: Config, accounts: map<AccountKey, Account>, l: L.Ledger, c: Command, from: Side,
                                            to: Side, preferred: nat, locked: set<AccountKey>)
    requires cfg.Valid() && Views(cfg, accounts, l) && c.Transfer? && c.amount > 0 && Sides(cfg, accounts, c, from, to)
    requires c.from != c.to && c.fromCurrency == c.toCurrency && preferred < cfg.shards
    requires TransferShortfall(accounts, from, c, preferred).None?
    requires forall k :: k in from.keys + to.keys ==> k in locked
    ensures Postable(TransferPosting(accounts, c, from, to, preferred), locked)
    ensures PostingTotal(DebitLegs(accounts, from, c.amount, preferred)) == -c.amount
    ensures PostingTotal(CreditLegs(to, c.amount, preferred)) == c.amount
  {
    hide TransferShortfall, PostingTotal;
    var d, e := DebitLegs(accounts, from, c.amount, preferred), CreditLegs(to, c.amount, preferred);
    TransferTotals(cfg, accounts, l, c, from, to, preferred);
    SidesApart(cfg, accounts, c, from, to);
    hide Views, Sides;
    PostingTotalConcat(d, e);
    TwoSides(d, e, from.keys, to.keys, c.fromCurrency, locked);
  }

  lemma {:induction false} TwoSides(d: seq<PostingLeg>, e: seq<PostingLeg>, from: seq<AccountKey>, to: seq<AccountKey>,
                                    currency: string, locked: set<AccountKey>)
    requires |d| == |from| && |e| == |to|
    requires forall i :: 0 <= i < |d| ==> d[i].account == from[i] && d[i].currency == currency
    requires forall i :: 0 <= i < |e| ==> e[i].account == to[i] && e[i].currency == currency
    requires forall i, j :: 0 <= i < j < |from| ==> from[i] != from[j]
    requires forall i, j :: 0 <= i < j < |to| ==> to[i] != to[j]
    requires forall i, j :: 0 <= i < |from| && 0 <= j < |to| ==> from[i] != to[j]
    requires forall k :: k in from + to ==> k in locked
    ensures forall i :: 0 <= i < |d + e| ==> (d + e)[i].account in locked && (d + e)[i].currency == currency
    ensures DistinctAccounts(d + e)
  {
    var s := d + e;
    forall i | 0 <= i < |s| ensures s[i].account in locked && s[i].currency == currency {
      assert (from + to)[i] in from + to;
    }
    forall i, j | 0 <= i < j < |s| ensures s[i].account != s[j].account {
      assert s[i].account == (from + to)[i] && s[j].account == (from + to)[j];
    }
  }

  predicate TransferPasses(l: L.Ledger, c: Command)
    requires c.Transfer?
  {
    && c.fromCurrency == c.toCurrency
    && !l.At(c.from, c.fromCurrency).frozen && !l.At(c.to, c.toCurrency).frozen
    && L.Spendable(l, c.from, c.fromCurrency, c.cashOnly) >= c.amount
  }

  lemma {:induction false} TransferHeader(accounts: map<AccountKey, Account>, c: Command, from: Side, to: Side, preferred: nat)
    requires c.Transfer?
    ensures TransferPosting(accounts, c, from, to, preferred).header == Header(TransferKind, c.ref, FingerprintOf(c))
  {
  }

  /** The transaction's own tests, once the rows say what the ledger says. */
  lemma {:induction false} TransferDecides(cfg: Config, t: Tables, l: L.Ledger, c: Command, accounts: map<AccountKey, Account>,
                                           from: Side, to: Side)
    requires cfg.Valid() && c.Transfer? && l.next == |t.transactions| && PriorOf(t, c).None?
    requires accounts == OpenBoth(cfg, t.accounts, c)
    requires from == SideOf(accounts, c.from, c.fromCurrency) && from.keys != []
    requires to == SideOf(accounts, c.to, c.toCurrency) && to.keys != []
    requires AnyFrozen(accounts, from.keys + to.keys) <==> l.At(c.from, c.fromCurrency).frozen || l.At(c.to, c.toCurrency).frozen
    requires TransferShortfall(accounts, from, c, ShardOf(cfg, c.ref)) ==
             if L.Spendable(l, c.from, c.fromCurrency, c.cashOnly) < c.amount
             then Some(if c.from.ToUser? && c.cashOnly then InsufficientCash else InsufficientBalance) else None
    requires SideTotal(accounts, from.keys) == l.At(c.from, c.fromCurrency).balance
    requires SideTotal(accounts, to.keys) == l.At(c.to, c.toCurrency).balance
    requires TransferPasses(l, c) ==>
               Postable(TransferPosting(accounts, c, from, to, ShardOf(cfg, c.ref)), set k | k in from.keys + to.keys)
    ensures var p := TransferPosting(accounts, c, from, to, ShardOf(cfg, c.ref));
            var (u, end) := TransferTx(cfg, t, c);
            && EndOutcome(u, c, end) == L.Hand(l, c).1
            && u == if TransferPasses(l, c) then Post(t.(accounts := accounts), p) else t
  {
    hide Postable, TransferPosting, AnyFrozen, TransferShortfall, Post, OpenBoth, SideOf, Readback, L.Spendable,
         SideTotal, FingerprintOf;
    TransferHeader(accounts, c, from, to, ShardOf(cfg, c.ref));
  }

  lemma {:induction false} TransferDecision(cfg: Config, t: Tables, l: L.Ledger, c: Command)
    requires cfg.Valid() && Views(cfg, t.accounts, l) && l.next == |t.transactions|
    requires c.Transfer? && Malformed(c).None? && PriorOf(t, c).None?
    ensures var accounts := OpenBoth(cfg, t.accounts, c);
            var p := TransferPosting(accounts, c, SideOf(accounts, c.from, c.fromCurrency),
                                     SideOf(accounts, c.to, c.toCurrency), ShardOf(cfg, c.ref));
            var (u, end) := TransferTx(cfg, t, c);
            && EndOutcome(u, c, end) == L.Hand(l, c).1
            && u == if TransferPasses(l, c) then Post(t.(accounts := accounts), p) else t
  {
    hide TransferPosting, Post, TransferTx, L.Hand, EndOutcome, Views, OpenBoth, TransferShortfall, Postable, ShardKeys,
         ShardKey;
    var accounts := OpenBoth(cfg, t.accounts, c);
    var from, to := SideOf(accounts, c.from, c.fromCurrency), SideOf(accounts, c.to, c.toCurrency);
    BothRows(cfg, t.accounts, l, c);
    RowsShow(cfg, accounts, l, c.from, c.fromCurrency, from.keys);
    RowsShow(cfg, accounts, l, c.to, c.toCurrency, to.keys);
    AnyFrozenConcat(accounts, from.keys, to.keys);
    ShortfallAlike(cfg, accounts, l, c, from, to, ShardOf(cfg, c.ref));
    if TransferPasses(l, c) {
      TransferPostable(cfg, accounts, l, c, from, to, ShardOf(cfg, c.ref), set k | k in from.keys + to.keys);
    }
    TransferDecides(cfg, t, l, c, accounts, from, to);
  }

  /** One leg on every row of a name moves its account by the total of the legs. */
  lemma {:induction false} ShardTotalMoved(a: map<AccountKey, Account>, b: map<AccountKey, Account>, code: string,
                                           currency: string, legs: seq<PostingLeg>)
    requires forall j :: 0 <= j < |legs| ==>
               AccountAt(b, ShardKey(code, j, currency)).balance == AccountAt(a, ShardKey(code, j, currency)).balance + legs[j].amount
    ensures ShardTotal(b, code, currency, |legs|) == ShardTotal(a, code, currency, |legs|) + PostingTotal(legs)
  {
    if legs != [] {
      ShardTotalMoved(a, b, code, currency, legs[..|legs| - 1]);
    }
  }

  predicate MovedBy(a: map<AccountKey, Account>, b: map<AccountKey, Account>, g: PostingLeg) {
    AccountAt(b, g.account) == AccountAt(a, g.account).(balance := AccountAt(a, g.account).balance + g.amount)
  }

  ghost predicate OnlyNamed(a: map<AccountKey, Account>, b: map<AccountKey, Account>, legs: seq<PostingLeg>) {
    forall k :: (forall i :: 0 <= i < |legs| ==> legs[i].account != k) ==> AccountAt(b, k) == AccountAt(a, k)
  }

  lemma {:induction false} SideMoved(cfg: Config, a: map<AccountKey, Account>, b: map<AccountKey, Account>, x: Account,
                                     who: AccountRef, currency: string, keys: seq<AccountKey>, legs: seq<PostingLeg>)
    requires Shows(cfg, a, x, who, currency) && AllRows(cfg, a, who, currency, keys) && |legs| == |keys|
    requires forall i :: 0 <= i < |keys| ==> legs[i].account == keys[i] && MovedBy(a, b, legs[i])
    ensures Shows(cfg, b, x.(balance := x.balance + PostingTotal(legs)), who, currency)
  {
    if who.ToUser? {
      assert PostingTotal(legs) == PostingTotal(legs[..0]) + legs[0].amount;
      assert MovedBy(a, b, legs[0]);
    } else {
      forall j | 0 <= j < |legs| ensures var k := ShardKey(who.code, j, currency);
                                         AccountAt(b, k) == AccountAt(a, k).(balance := AccountAt(a, k).balance + legs[j].amount)
      {
        assert MovedBy(a, b, legs[j]);
      }
      ShardTotalMoved(a, b, who.code, currency, legs);
    }
  }

  /** Two sides posted together: each name moves by its own total, every other row stays. */
  lemma {:induction false} TwoSidesPosted(accounts: map<AccountKey, Account>, d: seq<PostingLeg>, e: seq<PostingLeg>)
    requires DistinctAccounts(d + e) && forall i :: 0 <= i < |d + e| ==> (d + e)[i].account in accounts
    ensures var m := PostedAccounts(accounts, accounts, d + e);
            && m.Keys == accounts.Keys
            && (forall i :: 0 <= i < |d| ==> MovedBy(accounts, m, d[i]))
            && (forall i :: 0 <= i < |e| ==> MovedBy(accounts, m, e[i]))
            && OnlyNamed(accounts, m, d + e)
  {
    hide ShardKeys, PostedAccounts;
    var m, s := PostedAccounts(accounts, accounts, d + e), d + e;
    forall i | 0 <= i < |d| ensures MovedBy(accounts, m, d[i]) {
      assert s[i] == d[i];
      PostedAt(accounts, s, d[i].account, i);
    }
    forall i | 0 <= i < |e| ensures MovedBy(accounts, m, e[i]) {
      assert s[|d| + i] == e[i];
      PostedAt(accounts, s, e[i].account, |d| + i);
    }
    forall k | forall i :: 0 <= i < |s| ==> s[i].account != k ensures AccountAt(m, k) == AccountAt(accounts, k) {
      PostedAt(accounts, s, k, 0);
    }
    PostedAt(accounts, s, AccountKey(Internal("", 0), ""), 0);
  }

  lemma {:induction false} OtherNamesKeep(cfg: Config, accounts: map<AccountKey, Account>, m: map<AccountKey, Account>,
                                          c: Command, from: Side, to: Side, d: seq<PostingLeg>, e: seq<PostingLeg>, x: Account,
                                          who: AccountRef, currency: string)
    requires c.Transfer? && Sides(cfg, accounts, c, from, to) && Shows(cfg, accounts, x, who, currency)
    requires |d| == |from.keys| && forall i :: 0 <= i < |d| ==> d[i].account == from.keys[i]
    requires |e| == |to.keys| && forall i :: 0 <= i < |e| ==> e[i].account == to.keys[i]
    requires OnlyNamed(accounts, m, d + e)
    requires !(who == c.from && currency == c.fromCurrency) && !(who == c.to && currency == c.toCurrency)
    ensures Shows(cfg, m, x, who, currency)
  {
    forall k | OnSide(k, who, currency) ensures AccountAt(accounts, k) == AccountAt(m, k) {
      forall i | 0 <= i < |d + e| ensures (d + e)[i].account != k {
        if i < |d| {
          assert OnSide(d[i].account, c.from, c.fromCurrency);
        } else {
          assert OnSide(e[i - |d|].account, c.to, c.toCurrency);
        }
      }
    }
    ShowsFrame(cfg, accounts, m, x, who, currency);
  }

  function Handed(l: L.Ledger, c: Command): L.Ledger
    requires c.Transfer?
  {
    l.Pay(c.from, c.fromCurrency, -c.amount).Pay(c.to, c.toCurrency, c.amount)
  }

  /** What a name gains from a transfer. */
  function Gain(c: Command, who: AccountRef, currency: string): int
    requires c.Transfer?
  {
    if who == c.from && currency == c.fromCurrency then -c.amount
    else if who == c.to && currency == c.toCurrency then c.amount
    else 0
  }

  lemma {:induction false} HandedAt(l: L.Ledger, c: Command, who: AccountRef, currency: string)
    requires c.Transfer? && c.from != c.to
    ensures var a := l.At(who, currency);
            Handed(l, c).At(who, currency) == a.(balance := a.balance + Gain(c, who, currency))
  {
  }

  /** The rows after a transfer: every row of both sides moved by its leg, no other row touched. */
  ghost predicate SidesMoved(accounts: map<AccountKey, Account>, m: map<AccountKey, Account>, c: Command, from: Side, to: Side,
                       d: seq<PostingLeg>, e: seq<PostingLeg>)
    requires c.Transfer?
  {
    && |d| == |from.keys| && PostingTotal(d) == -c.amount
    && |e| == |to.keys| && PostingTotal(e) == c.amount
    && m.Keys == accounts.Keys
    && (forall i :: 0 <= i < |d| ==> d[i].account == from.keys[i] && MovedBy(accounts, m, d[i]))
    && (forall i :: 0 <= i < |e| ==> e[i].account == to.keys[i] && MovedBy(accounts, m, e[i]))
    && OnlyNamed(accounts, m, d + e)
  }

  lemma {:induction false} TransferShows(cfg: Config, accounts: map<AccountKey, Account>, m: map<AccountKey, Account>, x: Account,
                                         c: Command, from: Side, to: Side, d: seq<PostingLeg>, e: seq<PostingLeg>,
                                         who: AccountRef, cur: string)
    requires c.Transfer? && Sides(cfg, accounts, c, from, to) && Shows(cfg, accounts, x, who, cur)
    requires c.from != c.to && SidesMoved(accounts, m, c, from, to, d, e)
    ensures Shows(cfg, m, x.(balance := x.balance + Gain(c, who, cur)), who, cur)
  {
    hide MovedBy, Shows, AllRows;
    if who == c.from && cur == c.fromCurrency {
      SideMoved(cfg, accounts, m, x, who, cur, from.keys, d);
    } else if who == c.to && cur == c.toCurrency {
      SideMoved(cfg, accounts, m, x, who, cur, to.keys, e);
    } else {
      OtherNamesKeep(cfg, accounts, m, c, from, to, d, e, x, who, cur);
    }
  }

  /** A transfer that passed its guards, seen from the rows. */
  predicate Covers(cfg: Config, accounts: map<AccountKey, Account>, c: Command, from: Side, to: Side, preferred: nat) {
    && cfg.Valid() && c.Transfer? && c.amount > 0 && Sides(cfg, accounts, c, from, to)
    && c.from != c.to && c.fromCurrency == c.toCurrency && preferred < cfg.shards
    && TransferShortfall(accounts, from, c, preferred).None?
  }

  lemma {:induction false} TransferMoves(cfg: Config, accounts: map<AccountKey, Account>, l: L.Ledger, c: Command, from: Side,
                                         to: Side, preferred: nat)
    requires Views(cfg, accounts, l) && Covers(cfg, accounts, c, from, to, preferred)
    ensures SidesMoved(accounts, PostedAccounts(accounts, accounts, TransferPosting(accounts, c, from, to, preferred).legs), c,
                       from, to, DebitLegs(accounts, from, c.amount, preferred), CreditLegs(to, c.amount, preferred))
  {
    hide Views, TransferShortfall, MovedBy, OnlyNamed, PostedAccounts, PostingTotal, OpenBoth;
    TransferPostable(cfg, accounts, l, c, from, to, preferred, accounts.Keys);
    TwoSidesPosted(accounts, DebitLegs(accounts, from, c.amount, preferred), CreditLegs(to, c.amount, preferred));
  }

  lemma {:induction false} TransferViews(cfg: Config, accounts: map<AccountKey, Account>, l: L.Ledger, c: Command, from: Side,
                                         to: Side, preferred: nat)
    requires Views(cfg, accounts, l) && Covers(cfg, accounts, c, from, to, preferred)
    ensures Views(cfg, PostedAccounts(accounts, accounts, TransferPosting(accounts, c, from, to, preferred).legs), Handed(l, c))
  {
    hide Shows, Sides, Handed, TransferShortfall, PostedAccounts, PostingTotal, TransferPosting, MovedBy, OnlyNamed;
    var m := PostedAccounts(accounts, accounts, TransferPosting(accounts, c, from, to, preferred).legs);
    TransferMoves(cfg, accounts, l, c, from, to, preferred);
    assert m.Keys == accounts.Keys;
    forall who, cur ensures Shows(cfg, m, Handed(l, c).At(who, cur), who, cur) {
      assert Shows(cfg, accounts, l.At(who, cur), who, cur);
      TransferShows(cfg, accounts, m, l.At(who, cur), c, from, to, DebitLegs(accounts, from, c.amount, preferred),
                    CreditLegs(to, c.amount, preferred), who, cur);
      HandedAt(l, c, who, cur);
    }
  }

  function TransferEntry(l: L.Ledger, c: Command): L.Entry
    requires c.Transfer?
  {
    L.Transferred(l.next, L.Name(c.from, c.fromCurrency), L.Name(c.to, c.toCurrency), c.amount,
                  l.At(c.from, c.fromCurrency).balance - c.amount, l.At(c.to, c.toCurrency).balance + c.amount, FingerprintOf(c))
  }

  /** What each side's legs come to, in terms of the ledger. */
  lemma {:induction false} SourceSums(cfg: Config, accounts: map<AccountKey, Account>, l: L.Ledger, c: Command, from: Side,
                                      to: Side, preferred: nat)
    requires Views(cfg, accounts, l) && Covers(cfg, accounts, c, from, to, preferred)
    ensures var e := TransferEntry(l, c);
            SideSums(accounts, DebitLegs(accounts, from, c.amount, preferred), from.keys, e.from, -e.amount, e.fromAfter)
  {
    hide ShardKeys, PostingTotal, Views, TransferShortfall, SideTotal, L.Ledger.At;
    RowsShow(cfg, accounts, l, c.from, c.fromCurrency, from.keys);
    DebitLegsTotal(accounts, from, c, preferred);
    RowsOnSide(cfg, accounts, c.from, c.fromCurrency, from.keys);
  }

  lemma {:induction false} TargetSums(cfg: Config, accounts: map<AccountKey, Account>, l: L.Ledger, c: Command, from: Side,
                                      to: Side, preferred: nat)
    requires Views(cfg, accounts, l) && Covers(cfg, accounts, c, from, to, preferred)
    ensures var e := TransferEntry(l, c);
            SideSums(accounts, CreditLegs(to, c.amount, preferred), to.keys, e.to, e.amount, e.toAfter)
  {
    hide ShardKeys, PostingTotal, Views, TransferShortfall, SideTotal, L.Ledger.At;
    RowsShow(cfg, accounts, l, c.to, c.toCurrency, to.keys);
    CreditLegsTotal(to, c.amount, preferred);
    RowsOnSide(cfg, accounts, c.to, c.toCurrency, to.keys);
  }

  lemma {:induction false} TransferMatches(cfg: Config, accounts: map<AccountKey, Account>, l: L.Ledger, c: Command, from: Side,
                                           to: Side, preferred: nat)
    requires Views(cfg, accounts, l) && Covers(cfg, accounts, c, from, to, preferred)
    ensures var p := TransferPosting(accounts, c, from, to, preferred);
            EntryMatches(p.header, WrittenLegs(accounts, l.next, p.legs), l.next, TransferEntry(l, c))
  {
    hide ShardKeys, Views, SideSums, SideAgrees, DebitLegs, CreditLegs, WrittenLegs, Sides, TransferShortfall;
    var d, e := DebitLegs(accounts, from, c.amount, preferred), CreditLegs(to, c.amount, preferred);
    SourceSums(cfg, accounts, l, c, from, to, preferred);
    TargetSums(cfg, accounts, l, c, from, to, preferred);
    forall a, cur ensures SideAgrees(WrittenLegs(accounts, l.next, d + e), TransferEntry(l, c), a, cur) {
      TransferLegsAgree(accounts, l.next, d, e, from.keys, to.keys, TransferEntry(l, c), a, cur);
    }
  }

  lemma {:induction false} RowsOnSide(cfg: Config, accounts: map<AccountKey, Account>, a: AccountRef, currency: string,
                                      keys: seq<AccountKey>)
    requires AllRows(cfg, accounts, a, currency, keys)
    ensures forall k :: k in keys ==> OnSide(k, a, currency)
  {
  }

  lemma {:induction false} HandIs(l: L.Ledger, c: Command)
    requires c.Transfer? && TransferPasses(l, c)
    ensures var m := L.Hand(l, c).0;
            && m.archive == l.archive[(c.ref, TransferKind) := TransferEntry(l, c)]
            && m.next == l.next + 1 && m.holds == l.holds
            && forall who, cur :: m.At(who, cur) == Handed(l, c).At(who, cur)
  {
  }

  lemma {:induction false} TransferFiles(cfg: Config, t: Tables, l: L.Ledger, c: Command, from: Side, to: Side, preferred: nat,
                                         m: L.Ledger)
    requires LegsWf(t) && Archived(t, l) && SettlementsFiled(l) && l.next == |t.transactions|
    requires Views(cfg, t.accounts, l) && Covers(cfg, t.accounts, c, from, to, preferred) && PriorOf(t, c).None?
    requires m.archive == l.archive[(c.ref, TransferKind) := TransferEntry(l, c)] && m.holds == l.holds
    ensures Archived(Post(t, TransferPosting(t.accounts, c, from, to, preferred)), m) && SettlementsFiled(m)
  {
    hide LegsWf, Views, EntryMatches, TransferShortfall, Filed, DebitLegs, CreditLegs, SideAgrees, ShardKey, ShardKeys,
         DebitOf, PostedAccounts;
    var p := TransferPosting(t.accounts, c, from, to, preferred);
    TransferPostable(cfg, t.accounts, l, c, from, to, preferred, t.accounts.Keys);
    TransferMatches(cfg, t.accounts, l, c, from, to, preferred);
    PostFiles(t, p, l, TransferEntry(l, c));
    ArchivedFrame(Post(t, p), Post(t, p), l.File(c.ref, TransferKind, TransferEntry(l, c)), m);
    SettlementsFrame(l, m, c.ref, TransferKind, TransferEntry(l, c));
  }

  lemma {:induction false} TransferRefines(cfg: Config, t: Tables, l: L.Ledger, c: Command)
    requires cfg.Valid() && LegsWf(t) && Refines(cfg, t, l)
    requires c.Transfer? && Malformed(c).None? && PriorOf(t, c).None?
    ensures var (u, end) := TransferTx(cfg, t, c);
            var (m, o) := L.Hand(l, c);
            o == EndOutcome(u, c, end) && Refines(cfg, u, m)
  {
    hide Views, Archived, SettlementsFiled, LegsWf, TransferTx, Post, TransferPosting, EndOutcome, OpenBoth,
         L.Spendable;
    TransferDecision(cfg, t, l, c);
    if TransferPasses(l, c) {
      var accounts := OpenBoth(cfg, t.accounts, c);
      var from, to := SideOf(accounts, c.from, c.fromCurrency), SideOf(accounts, c.to, c.toCurrency);
      BothRows(cfg, t.accounts, l, c);
      ShortfallAlike(cfg, accounts, l, c, from, to, ShardOf(cfg, c.ref));
      OpenedRows(t, l, accounts);
      HandIs(l, c);
      HandRefines(cfg, t.(accounts := accounts), l, c, from, to, ShardOf(cfg, c.ref), L.Hand(l, c).0);
    }
  }

  lemma {:induction false} HandRefines(cfg: Config, t: Tables, l: L.Ledger, c: Command, from: Side, to: Side, preferred: nat,
                                       m: L.Ledger)
    requires LegsWf(t) && Archived(t, l) && SettlementsFiled(l) && l.next == |t.transactions| && l.holds == t.holds
    requires Views(cfg, t.accounts, l) && Covers(cfg, t.accounts, c, from, to, preferred) && PriorOf(t, c).None?
    requires m.archive == l.archive[(c.ref, TransferKind) := TransferEntry(l, c)] && m.holds == l.holds && m.next == l.next + 1
    requires forall who, cur :: m.At(who, cur) == Handed(l, c).At(who, cur)
    ensures Refines(cfg, Post(t, TransferPosting(t.accounts, c, from, to, preferred)), m)
  {
    TransferViews(cfg, t.accounts, l, c, from, to, preferred);
    TransferFiles(cfg, t, l, c, from, to, preferred, m);
    ViewsAgree(cfg, Post(t, TransferPosting(t.accounts, c, from, to, preferred)).accounts, Handed(l, c), m);
  }
}
