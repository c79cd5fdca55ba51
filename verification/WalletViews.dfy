/** How the rows of the wallet look as the accounts of the reference ledger: shards are summed. */
module WalletViews {
  import opened WalletTypes
  import opened WalletSpec
  import opened WalletLedger
  import WalletAudit

  function ShardTotal(accounts: map<AccountKey, Account>, code: string, currency: string, n: nat): int {
    if n == 0 then 0
    else ShardTotal(accounts, code, currency, n - 1) + AccountAt(accounts, ShardKey(code, n - 1, currency)).balance
  }

  /** The rows behind a name show its ledger account: a user row is it, the shards of a code add up to it and
      share its status. */
  predicate Shows(cfg: Config, accounts: map<AccountKey, Account>, a: Account, who: AccountRef, currency: string) {
    match who
    case ToUser(u) => AccountAt(accounts, UserKey(u, currency)) == a
    case ToCode(code) =>
      ShardTotal(accounts, code, currency, cfg.shards) == a.balance &&
      forall j :: 0 <= j < cfg.shards ==> AccountAt(accounts, ShardKey(code, j, currency)).frozen == a.frozen
  }

  predicate ShardsBounded(cfg: Config, accounts: map<AccountKey, Account>) {
    forall k :: k in accounts && k.owner.Internal? ==> k.owner.shard < cfg.shards
  }

  ghost predicate Views(cfg: Config, accounts: map<AccountKey, Account>, l: Ledger) {
    && ShardsBounded(cfg, accounts)
    && forall who, currency :: Shows(cfg, accounts, l.At(who, currency), who, currency)
  }

  /** Two account tables that agree on the rows of a name show the same account. */
  lemma {:induction false} ShardTotalFrame(a: map<AccountKey, Account>, b: map<AccountKey, Account>, code: string,
                                           currency: string, n: nat)
    requires forall j :: 0 <= j < n ==>
               AccountAt(a, ShardKey(code, j, currency)).balance == AccountAt(b, ShardKey(code, j, currency)).balance
    ensures ShardTotal(a, code, currency, n) == ShardTotal(b, code, currency, n)
  {
    if n > 0 {
      ShardTotalFrame(a, b, code, currency, n - 1);
    }
  }

  lemma {:induction false} ShowsFrame(cfg: Config, a: map<AccountKey, Account>, b: map<AccountKey, Account>, x: Account,
                   who: AccountRef, currency: string)
    requires Shows(cfg, a, x, who, currency)
    requires forall k :: OnSide(k, who, currency) ==> AccountAt(a, k) == AccountAt(b, k)
    ensures Shows(cfg, b, x, who, currency)
  {
    match who
    case ToUser(u) => assert OnSide(UserKey(u, currency), who, currency);
    case ToCode(code) =>
      assert forall j: nat :: OnSide(ShardKey(code, j, currency), who, currency);
      ShardTotalFrame(a, b, code, currency, cfg.shards);
  }

  lemma {:induction false} ShardTotalPaid(a: map<AccountKey, Account>, b: map<AccountKey, Account>, code: string,
                                          currency: string, n: nat, j: nat, amount: int)
    requires forall i :: 0 <= i < n && i != j ==>
               AccountAt(b, ShardKey(code, i, currency)) == AccountAt(a, ShardKey(code, i, currency))
    requires AccountAt(b, ShardKey(code, j, currency)).balance == AccountAt(a, ShardKey(code, j, currency)).balance + amount
    ensures ShardTotal(b, code, currency, n) == ShardTotal(a, code, currency, n) + if j < n then amount else 0
  {
    if n > 0 {
      ShardTotalPaid(a, b, code, currency, n - 1, j, amount);
    }
  }

  // ---- opening accounts shows nothing new ----

  lemma {:induction false} SameRowsSameViews(cfg: Config, a: map<AccountKey, Account>, b: map<AccountKey, Account>, l: Ledger)
    requires Views(cfg, a, l) && ShardsBounded(cfg, b)
    requires forall k :: AccountAt(a, k) == AccountAt(b, k)
    ensures Views(cfg, b, l)
  {
    forall who, currency ensures Shows(cfg, b, l.At(who, currency), who, currency) {
      ShowsFrame(cfg, a, b, l.At(who, currency), who, currency);
    }
  }

  lemma {:induction false} OpenKeepsViews(cfg: Config, accounts: map<AccountKey, Account>, l: Ledger, k: AccountKey)
    requires Views(cfg, accounts, l) && (k.owner.Internal? ==> k.owner.shard < cfg.shards)
    ensures Views(cfg, Open(accounts, k), l)
  {
    SameRowsSameViews(cfg, accounts, Open(accounts, k), l);
  }

  lemma {:induction false} OpenSideKeepsViews(cfg: Config, accounts: map<AccountKey, Account>, l: Ledger, a: AccountRef, currency: string)
    requires Views(cfg, accounts, l) && cfg.Valid()
    ensures Views(cfg, OpenSide(cfg, accounts, a, currency), l)
  {
    WalletAudit.OpenSideGrows(cfg, accounts, a, currency);
    if a.ToCode? {
      WalletAudit.OpenShardsGrows(accounts, a.code, currency, cfg.shards);
    }
    SameRowsSameViews(cfg, accounts, OpenSide(cfg, accounts, a, currency), l);
  }

  /** With a fixed shard count, opening a code gives exactly its shards 0 .. n-1, in order. */
  lemma {:induction false} ShardKeysComplete(cfg: Config, accounts: map<AccountKey, Account>, code: string,
                                             currency: string, from: nat)
    requires cfg.Valid() && ShardsBounded(cfg, accounts) && from <= cfg.shards
    requires forall j :: from <= j < cfg.shards ==> ShardKey(code, j, currency) in accounts
    ensures |ShardKeys(accounts, code, currency, from)| == cfg.shards - from
    ensures forall i :: 0 <= i < cfg.shards - from ==>
              ShardKeys(accounts, code, currency, from)[i] == ShardKey(code, from + i, currency)
    decreases cfg.shards - from
  {
    if from < cfg.shards {
      ShardKeysComplete(cfg, accounts, code, currency, from + 1);
    } else {
      NoHighShards(cfg, accounts, code, currency, from);
    }
  }

  lemma {:induction false} NoHighShards(cfg: Config, accounts: map<AccountKey, Account>, code: string,
                                        currency: string, from: nat)
    requires ShardsBounded(cfg, accounts) && from >= cfg.shards
    ensures ShardKeys(accounts, code, currency, from) == []
    decreases MAX_SHARDS - from
  {
    if from < MAX_SHARDS {
      NoHighShards(cfg, accounts, code, currency, from + 1);
      assert ShardKey(code, from, currency).owner.shard >= cfg.shards;
    }
  }

  /** The rows of an opened side: one user row, or all shards in order. */
  lemma {:induction false} OpenedSide(cfg: Config, accounts: map<AccountKey, Account>, before: map<AccountKey, Account>, a: AccountRef,
                   currency: string)
    requires cfg.Valid() && ShardsBounded(cfg, accounts)
    requires OpenSide(cfg, before, a, currency).Keys <= accounts.Keys
    ensures var ks := SideKeys(accounts, a, currency);
            && |ks| == (if a.ToUser? then 1 else cfg.shards)
            && forall i :: 0 <= i < |ks| ==>
                 ks[i] == if a.ToUser? then UserKey(a.userId, currency) else ShardKey(a.code, i, currency)
  {
    hide ShardKeys, OpenShards;
    if a.ToCode? {
      WalletAudit.OpenShardsGrows(before, a.code, currency, cfg.shards);
      ShardKeysComplete(cfg, accounts, a.code, currency, 0);
    }
  }

  lemma {:induction false} SideTotalIsShardTotal(accounts: map<AccountKey, Account>, ks: seq<AccountKey>, code: string,
                                                 currency: string)
    requires forall i :: 0 <= i < |ks| ==> ks[i] == ShardKey(code, i, currency)
    ensures SideTotal(accounts, ks) == ShardTotal(accounts, code, currency, |ks|)
  {
    if ks != [] {
      SideTotalIsShardTotal(accounts, ks[..|ks| - 1], code, currency);
    }
  }
}
