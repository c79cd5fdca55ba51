/** Sharding is invisible: every run of the wallet is a run of the reference ledger, command for command, with the
    same acceptances, rejections and receipts. */
module WalletRefinement {
  import opened WalletTypes
  import opened WalletSpec
  import opened WalletBooks
  import opened WalletViews
  import opened WalletArchive
  import L = WalletLedger

  /** The wallet state `t` shows the ledger state `l`. */
  ghost predicate Refines(cfg: Config, t: Tables, l: L.Ledger) {
    && Views(cfg, t.accounts, l)
    && l.holds == t.holds
    && l.next == |t.transactions|
    && Archived(t, l)
    && SettlementsFiled(l)
  }

  // ---- what updates look like from both sides ----

  lemma {:induction false} SetUserViews(cfg: Config, accounts: map<AccountKey, Account>, l: L.Ledger, u: nat,
                                        currency: string, a: Account)
    requires Views(cfg, accounts, l)
    ensures Views(cfg, accounts[UserKey(u, currency) := a], l.Set(ToUser(u), currency, a))
  {
    var m, n := accounts[UserKey(u, currency) := a], l.Set(ToUser(u), currency, a);
    forall who, cur ensures Shows(cfg, m, n.At(who, cur), who, cur) {
      if !(who == ToUser(u) && cur == currency) {
        assert n.At(who, cur) == l.At(who, cur);
        ShowsFrame(cfg, accounts, m, l.At(who, cur), who, cur);
      }
    }
  }

  /** Ledgers that agree account by account show alike. */
  lemma {:induction false} ViewsAgree(cfg: Config, accounts: map<AccountKey, Account>, l: L.Ledger, m: L.Ledger)
    requires Views(cfg, accounts, l)
    requires forall who, currency :: m.At(who, currency) == l.At(who, currency)
    ensures Views(cfg, accounts, m)
  {
    forall who, currency ensures Shows(cfg, accounts, m.At(who, currency), who, currency) {
      assert Shows(cfg, accounts, l.At(who, currency), who, currency);
    }
  }

  function TwoLegs(u: nat, code: string, j: nat, currency: string, amount: int): seq<PostingLeg> {
    [PostingLeg(UserKey(u, currency), currency, amount), PostingLeg(ShardKey(code, j, currency), currency, -amount)]
  }

  lemma {:induction false} TwoLegsAt(accounts: map<AccountKey, Account>, u: nat, code: string, j: nat, currency: string,
                                     amount: int, k: AccountKey)
    requires UserKey(u, currency) in accounts && ShardKey(code, j, currency) in accounts
    ensures var legs := TwoLegs(u, code, j, currency, amount);
            var b := AccountAt(PostedAccounts(accounts, accounts, legs), k);
            var a := AccountAt(accounts, k);
            b == if k == UserKey(u, currency) then a.(balance := a.balance + amount)
                 else if k == ShardKey(code, j, currency) then a.(balance := a.balance - amount)
                 else a
    ensures PostedAccounts(accounts, accounts, TwoLegs(u, code, j, currency, amount)).Keys == accounts.Keys
  {
    var legs := TwoLegs(u, code, j, currency, amount);
    PostedAt(accounts, legs, k, if k == UserKey(u, currency) then 0 else 1);
  }

  /** A user leg against one shard of a code is a payment between the two names. */
  lemma {:induction false} TwoLegViews(cfg: Config, accounts: map<AccountKey, Account>, l: L.Ledger, u: nat, code: string,
                                       j: nat, currency: string, amount: int)
    requires Views(cfg, accounts, l) && j < cfg.shards
    requires UserKey(u, currency) in accounts && ShardKey(code, j, currency) in accounts
    ensures Views(cfg, PostedAccounts(accounts, accounts, TwoLegs(u, code, j, currency, amount)),
                  l.Pay(ToUser(u), currency, amount).Pay(ToCode(code), currency, -amount))
  {
    var m := PostedAccounts(accounts, accounts, TwoLegs(u, code, j, currency, amount));
    var n := l.Pay(ToUser(u), currency, amount).Pay(ToCode(code), currency, -amount);
    TwoLegsAt(accounts, u, code, j, currency, amount, UserKey(u, currency));
    forall k ensures AccountAt(m, k) ==
                     var a := AccountAt(accounts, k);
                     if k == UserKey(u, currency) then a.(balance := a.balance + amount)
                     else if k == ShardKey(code, j, currency) then a.(balance := a.balance - amount)
                     else a
    {
      TwoLegsAt(accounts, u, code, j, currency, amount, k);
    }
    forall who, cur ensures Shows(cfg, m, n.At(who, cur), who, cur) {
      assert Shows(cfg, accounts, l.At(who, cur), who, cur);
      if who == ToCode(code) && cur == currency {
        ShardTotalPaid(accounts, m, code, currency, cfg.shards, j, -amount);
      } else if !(who == ToUser(u) && cur == currency) {
        assert n.At(who, cur) == l.At(who, cur);
        ShowsFrame(cfg, accounts, m, l.At(who, cur), who, cur);
      }
    }
  }

  // ---- credit and refund ----

  lemma {:induction false} OpenedPair(cfg: Config, t: Tables, l: L.Ledger, u: nat, code: string, j: nat, currency: string)
    requires Views(cfg, t.accounts, l) && cfg.Valid() && j < cfg.shards
    ensures var accounts := Open(Open(t.accounts, UserKey(u, currency)), ShardKey(code, j, currency));
            && Views(cfg, accounts, l)
            && accounts[UserKey(u, currency)] == l.At(ToUser(u), currency)
            && accounts[ShardKey(code, j, currency)].frozen == l.At(ToCode(code), currency).frozen
  {
    OpenKeepsViews(cfg, t.accounts, l, UserKey(u, currency));
    var a1 := Open(t.accounts, UserKey(u, currency));
    OpenKeepsViews(cfg, a1, l, ShardKey(code, j, currency));
    var a2 := Open(a1, ShardKey(code, j, currency));
    assert Shows(cfg, a2, l.At(ToUser(u), currency), ToUser(u), currency);
    assert Shows(cfg, a2, l.At(ToCode(code), currency), ToCode(code), currency);
  }

  lemma {:induction false} TwoLegsPostable(h: Transaction, u: nat, code: string, j: nat, currency: string, amount: int)
    requires !IsAudit(h.kind)
    ensures var p := Posting(h, TwoLegs(u, code, j, currency, amount));
            Postable(p, {p.legs[0].account, p.legs[1].account})
  {
    var legs := TwoLegs(u, code, j, currency, amount);
    var one := [legs[0]];
    assert legs[..1] == one;
    assert PostingTotal(one) == PostingTotal(one[..0]) + amount;
  }

  /** Opened accounts keep the leg chain and the archive. */
  lemma {:induction false} OpenedRows(t: Tables, l: L.Ledger, accounts: map<AccountKey, Account>)
    requires LegsWf(t) && Archived(t, l) && t.accounts.Keys <= accounts.Keys
    ensures LegsWf(t.(accounts := accounts)) && Archived(t.(accounts := accounts), l)
  {
    var u := t.(accounts := accounts);
    forall i | 0 <= i < |u.legs| ensures LegWf(u, i) {
      assert LegWf(t, i);
    }
    ArchivedFrame(t, u, l, l);
  }

  predicate MovePasses(l: L.Ledger, c: Command)
    requires c.Credit? || c.Refund?
  {
    var a, b := l.At(ToUser(c.userId), c.currency), l.At(ToCode(c.counterparty), c.currency);
    !a.frozen && !b.frozen && (c.Refund? ==> a.balance + a.creditLimit - a.inFlight >= c.amount)
  }

  function MoveEntry(l: L.Ledger, c: Command): L.Entry
    requires c.Credit? || c.Refund?
  {
    L.Moved(l.next, c.userId, c.currency, c.amount,
            l.At(ToUser(c.userId), c.currency).balance + (if c.Credit? then c.amount else -c.amount), FingerprintOf(c))
  }

  lemma {:induction false} PairFrozen(accounts: map<AccountKey, Account>, a: AccountKey, b: AccountKey)
    ensures AnyFrozen(accounts, [a, b]) <==> AccountAt(accounts, a).frozen || AccountAt(accounts, b).frozen
  {
    var ks := [a, b];
    assert ks[0] in ks && ks[1] in ks;
  }

  /** The database transaction takes the ledger's decision, row state aside. */
  lemma {:induction false} MoveDecision(cfg: Config, t: Tables, l: L.Ledger, c: Command)
    requires cfg.Valid() && (c.Credit? || c.Refund?) && PriorOf(t, c).None? && l.next == |t.transactions|
    requires var p := MovePosting(cfg, c);
             var accounts := Open(Open(t.accounts, p.legs[0].account), p.legs[1].account);
             && accounts[p.legs[0].account] == l.At(ToUser(c.userId), c.currency)
             && accounts[p.legs[1].account].frozen == l.At(ToCode(c.counterparty), c.currency).frozen
    ensures var p := MovePosting(cfg, c);
            var ready := t.(accounts := Open(Open(t.accounts, p.legs[0].account), p.legs[1].account));
            var (u, end) := MoveTx(cfg, t, c);
            && EndOutcome(u, c, end) == L.Move(l, c).1
            && u == (if MovePasses(l, c) then Post(ready, p) else t)
  {
    hide PostedAccounts, WrittenLegs, Postable;
    var p := MovePosting(cfg, c);
    var j := ShardOf(cfg, c.ref);
    assert p.legs == TwoLegs(c.userId, c.counterparty, j, c.currency, p.legs[0].amount);
    TwoLegsPostable(p.header, c.userId, c.counterparty, j, c.currency, p.legs[0].amount);
    PairFrozen(Open(Open(t.accounts, p.legs[0].account), p.legs[1].account), p.legs[0].account, p.legs[1].account);
  }

  lemma {:induction false} MoveRefines(cfg: Config, t: Tables, l: L.Ledger, c: Command)
    requires cfg.Valid() && LegsWf(t) && Refines(cfg, t, l)
    requires (c.Credit? || c.Refund?) && Malformed(c).None? && PriorOf(t, c).None?
    ensures var (u, end) := MoveTx(cfg, t, c);
            var (m, o) := L.Move(l, c);
            o == EndOutcome(u, c, end) && Refines(cfg, u, m)
  {
    var p := MovePosting(cfg, c);
    OpenedPair(cfg, t, l, c.userId, c.counterparty, ShardOf(cfg, c.ref), c.currency);
    MoveDecision(cfg, t, l, c);
    var accounts := Open(Open(t.accounts, p.legs[0].account), p.legs[1].account);
    if MovePasses(l, c) {
      OpenedRows(t, l, accounts);
      MoveFiles(cfg, t.(accounts := accounts), l, c);
      MoveViews(cfg, accounts, l, c);
    }
  }

  lemma {:induction false} MoveViews(cfg: Config, accounts: map<AccountKey, Account>, l: L.Ledger, c: Command)
    requires cfg.Valid() && Views(cfg, accounts, l) && (c.Credit? || c.Refund?) && MovePasses(l, c)
    requires var p := MovePosting(cfg, c); p.legs[0].account in accounts && p.legs[1].account in accounts
    ensures Views(cfg, PostedAccounts(accounts, accounts, MovePosting(cfg, c).legs), L.Move(l, c).0)
  {
    var p := MovePosting(cfg, c);
    var j, signed := ShardOf(cfg, c.ref), p.legs[0].amount;
    assert p.legs == TwoLegs(c.userId, c.counterparty, j, c.currency, signed);
    TwoLegViews(cfg, accounts, l, c.userId, c.counterparty, j, c.currency, signed);
    ViewsAgree(cfg, PostedAccounts(accounts, accounts, p.legs),
               l.Pay(ToUser(c.userId), c.currency, signed).Pay(ToCode(c.counterparty), c.currency, -signed),
               L.Move(l, c).0);
  }

  lemma {:induction false} MoveFiles(cfg: Config, t: Tables, l: L.Ledger, c: Command)
    requires cfg.Valid() && LegsWf(t) && Archived(t, l) && SettlementsFiled(l) && l.next == |t.transactions|
    requires (c.Credit? || c.Refund?) && c.amount > 0 && PriorOf(t, c).None? && MovePasses(l, c)
    requires AccountAt(t.accounts, UserKey(c.userId, c.currency)) == l.At(ToUser(c.userId), c.currency)
    requires var p := MovePosting(cfg, c); p.legs[0].account in t.accounts && p.legs[1].account in t.accounts
    ensures Archived(Post(t, MovePosting(cfg, c)), L.Move(l, c).0) && SettlementsFiled(L.Move(l, c).0)
  {
    hide LegsWf, PostedAccounts, ShardKeys, Filed, SettledOnFile, FingerprintOf, SettlementsFiled, Archived;
    var p, m, e := MovePosting(cfg, c), L.Move(l, c).0, MoveEntry(l, c);
    TwoLegsPostable(p.header, c.userId, c.counterparty, ShardOf(cfg, c.ref), c.currency, p.legs[0].amount);
    assert p.legs == TwoLegs(c.userId, c.counterparty, ShardOf(cfg, c.ref), c.currency, p.legs[0].amount);
    PostFiles(t, p, l, e);
    ArchivedFrame(Post(t, p), Post(t, p), l.File(p.header.ref, p.header.kind, e), m);
    SettlementsFrame(l, m, p.header.ref, p.header.kind, e);
  }

  /** Entries of other kinds do not concern settlements. */
  lemma {:induction false} SettlementsFrame(l: L.Ledger, m: L.Ledger, ref: Ref, kind: Kind, e: L.Entry)
    requires SettlementsFiled(l) && m.holds == l.holds && kind != SettleKind
    requires m.archive == l.archive[(ref, kind) := e]
    ensures SettlementsFiled(m)
  {
    forall i | 0 <= i < |m.holds| ensures SettledOnFile(m, i) {
      assert SettledOnFile(l, i);
    }
  }
}
