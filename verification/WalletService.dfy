/** The wallet as the service runs it: tables updated in place, statement by statement, inside transactions that
    are rolled back when they fail. Every method is proved against the specification of its command. */
module WalletService {
  import opened Options
  import opened WalletTypes
  import opened WalletTables
  import opened WalletSpec
  import opened WalletBooks
  import opened WalletAudit
  import opened WalletGuarantees
  import OrderedQuery

  /** How the posting kernel ends: posted, refused by the unique index, or refused by its own checks. */
  datatype PostEnd = Posted(txId: nat, balanceAfter: map<AccountKey, int>) | Duplicate | Broken

  datatype Violation =
    | TransactionDrift(txId: nat, count: nat, sum: int)
    | BalanceDrift(account: AccountKey, expected: int, actual: int)
    | InFlightDrift(account: AccountKey, expected: int, actual: int)

  datatype Report = Report(violations: seq<Violation>) | BadLimit

  /** The violation is really there. */
  predicate Found(t: Tables, v: Violation) {
    match v
    case TransactionDrift(x, n, sum) =>
      x < |t.transactions| && n == |LegsOf(t.legs, x)| && sum == AmountSum(LegsOf(t.legs, x)) &&
      !BalancedLegs(t.transactions[x].kind, LegsOf(t.legs, x))
    case BalanceDrift(k, expected, actual) =>
      k in t.accounts && actual == t.accounts[k].balance && expected == LastAfter(t.legs, k) && expected != actual
    case InFlightDrift(k, expected, actual) =>
      k in t.accounts && actual == t.accounts[k].inFlight && expected == ActiveSum(t.holds, k) && expected != actual
  }

  lemma {:induction false} EnoughShards(accounts: map<AccountKey, Account>, code: string, currency: string, from: nat, n: nat)
    requires from <= n <= MAX_SHARDS
    requires forall j :: from <= j < n ==> ShardKey(code, j, currency) in accounts
    ensures |ShardKeys(accounts, code, currency, from)| >= n - from
    decreases n - from
  {
    if from < n {
      EnoughShards(accounts, code, currency, from + 1, n);
    }
  }

  class Wallet {
    const cfg: Config
    var accounts: map<AccountKey, Account>
    var transactions: seq<Transaction>
    var legs: seq<Leg>
    var holds: seq<Hold>
    ghost var log: seq<Event>

    ghost function State(): Tables
      reads this
    {
      Tables(accounts, transactions, legs, holds)
    }

    /** The tables are what the logged commands made of them. */
    ghost predicate Valid()
      reads this
    {
      cfg.Valid() && State() == Run(cfg, EMPTY, log)
    }

    constructor (cfg: Config)
      requires cfg.Valid()
      ensures this.cfg == cfg && State() == EMPTY && log == [] && Valid()
    {
      this.cfg := cfg;
      accounts, transactions, legs, holds, log := map[], [], [], [], [];
    }

    // ---- account.ts ----

    method ResolveAccount(k: AccountKey)
      modifies this`accounts
      ensures accounts == Open(old(accounts), k)
    {
      if k !in accounts {
        accounts := accounts[k := OPENED];
      }
    }

    method MaterializeShards(code: string, currency: string)
      modifies this`accounts
      ensures accounts == OpenShards(old(accounts), code, currency, cfg.shards)
    {
      var n := 0;
      while n < cfg.shards
        invariant n <= cfg.shards
        invariant accounts == OpenShards(old(accounts), code, currency, n)
      {
        ResolveAccount(ShardKey(code, n, currency));
        n := n + 1;
      }
    }

    /** All shards there are, in shard order. */
    method ListShards(code: string, currency: string) returns (keys: seq<AccountKey>)
      ensures keys == ShardKeys(accounts, code, currency, 0)
    {
      hide ShardKeys;
      keys := [];
      var shard := 0;
      while shard < MAX_SHARDS
        invariant shard <= MAX_SHARDS
        invariant keys + ShardKeys(accounts, code, currency, shard) == ShardKeys(accounts, code, currency, 0)
      {
        ShardKeysNext(accounts, code, currency, shard, keys);
        if ShardKey(code, shard, currency) in accounts {
          keys := keys + [ShardKey(code, shard, currency)];
        }
        shard := shard + 1;
      }
      NoMoreShards(accounts, code, currency);
      assert keys + [] == keys;
    }

    /** Materialises every configured shard and lists what there is: never fewer than configured. */
    method ResolveInternalAccounts(code: string, currency: string) returns (keys: seq<AccountKey>)
      requires cfg.Valid()
      modifies this`accounts
      ensures accounts == OpenShards(old(accounts), code, currency, cfg.shards)
      ensures keys == ShardKeys(accounts, code, currency, 0)
      ensures |keys| >= cfg.shards
    {
      hide ShardKeys, OpenShards;
      MaterializeShards(code, currency);
      keys := ListShards(code, currency);
      OpenShardsGrows(old(accounts), code, currency, cfg.shards);
      EnoughShards(accounts, code, currency, 0, cfg.shards);
    }

    method ResolveSide(a: AccountRef, currency: string) returns (keys: seq<AccountKey>)
      requires cfg.Valid()
      modifies this`accounts
      ensures accounts == OpenSide(cfg, old(accounts), a, currency)
      ensures keys == SideKeys(accounts, a, currency)
    {
      match a {
        case ToUser(u) =>
          ResolveAccount(UserKey(u, currency));
          keys := [UserKey(u, currency)];
        case ToCode(code) =>
          keys := ResolveInternalAccounts(code, currency);
      }
    }

    /** Locks the named rows; a frozen one fails the transaction unless it is allowed, then a missing one does. */
    method LockAccounts(keys: seq<AccountKey>, allowFrozen: bool) returns (locked: map<AccountKey, Account>, error: Option<Error>)
      ensures error == if !allowFrozen && AnyFrozen(accounts, keys) then Some(AccountFrozen)
                       else if exists k :: k in keys && k !in accounts then Some(InternalError)
                       else None
      ensures error.None? ==> locked.Keys == (set k | k in keys)
      ensures error.None? ==> forall k :: k in keys ==> k in accounts && locked[k] == accounts[k]
    {
      locked, error := map[], None;
      var i := 0;
      while i < |keys|
        invariant i <= |keys|
        invariant locked.Keys == set k | k in keys[..i] && k in accounts
        invariant forall k :: k in locked ==> locked[k] == accounts[k]
        invariant allowFrozen || !AnyFrozen(accounts, keys[..i])
      {
        assert keys[..i + 1] == keys[..i] + [keys[i]];
        if keys[i] in accounts {
          if accounts[keys[i]].frozen && !allowFrozen {
            assert keys[i] in keys && AccountAt(accounts, keys[i]).frozen;
            error := Some(AccountFrozen);
            return;
          }
          locked := locked[keys[i] := accounts[keys[i]]];
        }
        i := i + 1;
      }
      assert keys[..|keys|] == keys;
      var j := 0;
      while j < |keys|
        invariant j <= |keys|
        invariant forall x :: 0 <= x < j ==> keys[x] in accounts
      {
        if keys[j] !in locked {
          assert keys[j] in keys && keys[j] !in accounts;
          error := Some(InternalError);
          return;
        }
        j := j + 1;
      }
      assert locked.Keys == set k | k in keys;
    }

    // ---- legs.ts, posting.ts ----

    /** One leg and the balance it leaves. */
    method ApplyLeg(tx: nat, g: PostingLeg, before: int) returns (after: int)
      requires g.account in accounts
      modifies this`legs, this`accounts
      ensures after == before + g.amount
      ensures legs == old(legs) + [WrittenLeg(tx, g, before)]
      ensures accounts == old(accounts)[g.account := old(accounts)[g.account].(balance := after)]
    {
      after := before + g.amount;
      legs := legs + [Leg(tx, g.account, g.currency, g.amount, before, after)];
      accounts := accounts[g.account := accounts[g.account].(balance := after)];
    }

    /** The kernel's checks, one leg at a time. */
    method CheckPosting(p: Posting, locked: map<AccountKey, Account>) returns (ok: bool)
      ensures ok == Postable(p, locked.Keys)
    {
      var audit := p.header.kind.CreditLineKind? || p.header.kind.FreezeKind?;
      if (audit && |p.legs| != 1) || (!audit && |p.legs| < 2) {
        return false;
      }
      var seen, total, i := {}, 0, 0;
      while i < |p.legs|
        invariant i <= |p.legs|
        invariant seen == set j | 0 <= j < i :: p.legs[j].account
        invariant forall j :: 0 <= j < i ==> p.legs[j].account in locked && p.legs[j].currency == p.legs[0].currency
        invariant forall j, m :: 0 <= j < m < i ==> p.legs[j].account != p.legs[m].account
        invariant total == PostingTotal(p.legs[..i])
      {
        var g := p.legs[i];
        if g.account !in locked {
          return false;
        }
        if g.account in seen {
          return false;
        }
        seen := seen + {g.account};
        if i > 0 && p.legs[i - 1].currency != g.currency {
          return false;
        }
        assert p.legs[..i + 1][..i] == p.legs[..i];
        total := total + g.amount;
        i := i + 1;
      }
      assert p.legs[..|p.legs|] == p.legs;
      if total != 0 || (audit && p.legs[0].amount != 0) {
        return false;
      }
      if p.header.kind.FreezeKind? && p.header.frozenAfter.None? {
        return false;
      }
      return !(p.header.kind.CreditLineKind? && p.header.creditLimitAfter.None?);
    }

    /** The legs of a posting, each from the balance its account was locked with. */
    method WriteLegs(txId: nat, entries: seq<PostingLeg>, locked: map<AccountKey, Account>) returns (balanceAfter: map<AccountKey, int>)
      requires DistinctAccounts(entries)
      requires forall i :: 0 <= i < |entries| ==> entries[i].account in locked
      requires forall k :: k in locked ==> k in accounts && locked[k] == accounts[k]
      modifies this`accounts, this`legs
      ensures legs == old(legs) + WrittenLegs(old(accounts), txId, entries)
      ensures accounts == PostedAccounts(old(accounts), old(accounts), entries)
      ensures forall i :: 0 <= i < |entries| ==>
                entries[i].account in balanceAfter && balanceAfter[entries[i].account] == locked[entries[i].account].balance + entries[i].amount
    {
      hide WrittenLegs, PostedAccounts, WrittenLeg;
      balanceAfter := map[];
      var i := 0;
      NothingPosted(old(accounts), txId);
      assert entries[..0] == [] && legs + [] == legs;
      while i < |entries|
        invariant i <= |entries|
        invariant legs == old(legs) + WrittenLegs(old(accounts), txId, entries[..i])
        invariant accounts == PostedAccounts(old(accounts), old(accounts), entries[..i])
        invariant old(accounts).Keys <= accounts.Keys
        invariant forall j :: 0 <= j < i ==>
                    entries[j].account in balanceAfter && balanceAfter[entries[j].account] == locked[entries[j].account].balance + entries[j].amount
      {
        var g := entries[i];
        PostedNext(old(accounts), txId, entries, i);
        assert old(legs) + WrittenLegs(old(accounts), txId, entries[..i + 1]) ==
               old(legs) + WrittenLegs(old(accounts), txId, entries[..i]) + [WrittenLeg(txId, g, locked[g.account].balance)];
        var after := ApplyLeg(txId, g, locked[g.account].balance);
        balanceAfter := balanceAfter[g.account := after];
        i := i + 1;
      }
      assert entries[..|entries|] == entries;
    }

    /** The only writer of transactions: checks, header under its unique index, then leg by leg. */
    method PostTransaction(p: Posting, locked: map<AccountKey, Account>) returns (end: PostEnd)
      requires forall k :: k in locked ==> k in accounts && locked[k] == accounts[k]
      modifies this`accounts, this`transactions, this`legs
      ensures end.Broken? <==> !Postable(p, locked.Keys)
      ensures end.Duplicate? <==> Postable(p, locked.Keys) && FindTx(old(transactions), p.header.ref, p.header.kind).Some?
      ensures end.Posted? ==> State() == Post(old(State()), p) && end.txId == old(|transactions|)
      ensures end.Posted? ==> forall i :: 0 <= i < |p.legs| ==>
                p.legs[i].account in locked && p.legs[i].account in end.balanceAfter &&
                end.balanceAfter[p.legs[i].account] == locked[p.legs[i].account].balance + p.legs[i].amount
    {
      hide WrittenLegs, PostedAccounts, PostingTotal;
      var ok := CheckPosting(p, locked);
      if !ok {
        return Broken;
      }
      if FindTx(transactions, p.header.ref, p.header.kind).Some? {
        return Duplicate;
      }
      var txId := |transactions|;
      transactions := transactions + [p.header];
      var balanceAfter := WriteLegs(txId, p.legs, locked);
      return Posted(txId, balanceAfter);
    }

    // ---- one method per command: the body of its database transaction ----

    /** Credit and refund differ in the direction of the money and in refund's balance guard. */
    method CreditOrRefund(c: Command) returns (end: TxEnd)
      requires cfg.Valid() && (c.Credit? || c.Refund?)
      modifies this`accounts, this`transactions, this`legs
      ensures end == MoveTx(cfg, old(State()), c).1
      ensures end.Committed? ==> State() == MoveTx(cfg, old(State()), c).0
    {
      hide Postable, Post, FingerprintOf, AnyFrozen, FindTx, Available, MovePosting, ShardOf;
      var user, other := UserKey(c.userId, c.currency), ShardKey(c.counterparty, ShardOf(cfg, c.ref), c.currency);
      MovePostingAccounts(cfg, c);
      ResolveAccount(user);
      ResolveAccount(other);
      var locked, error := LockAccounts([user, other], false);
      assert [user, other][0] == user && [user, other][1] == other;
      if error.Some? {
        return Failed(error.value);
      }
      if c.Refund? && Available(locked[user], true, false) < c.amount {
        return Failed(InsufficientBalance);
      }
      var posted := PostTransaction(MovePosting(cfg, c), locked);
      assert locked.Keys == {user, other};
      match posted {
        case Broken => end := Failed(InternalError);
        case Duplicate => end := Conflict;
        case Posted(txId, balanceAfter) =>
          end := Committed(MoveReceipt(txId, c.amount, balanceAfter[user]), false);
      }
    }

    method Authorize(c: Command) returns (end: TxEnd)
      requires c.Authorize?
      modifies this`accounts, this`holds
      ensures end == AuthorizeTx(old(State()), c).1
      ensures end.Committed? ==> State() == AuthorizeTx(old(State()), c).0
    {
      var k := UserKey(c.userId, c.currency);
      ResolveAccount(k);
      var locked, error := LockAccounts([k], false);
      assert [k][0] == k;
      if error.Some? {
        return Failed(error.value);
      }
      var account := locked[k];
      if Available(account, true, c.cashOnly) < c.amount {
        return Failed(if c.cashOnly then InsufficientCash else InsufficientBalance);
      }
      if FindHold(holds, c.ref).Some? {
        return Conflict;
      }
      var holdId := |holds|;
      holds := holds + [Hold(k, c.ref, c.amount, Active, None, None, c.expiresAt, FingerprintOf(c), None)];
      accounts := accounts[k := account.(inFlight := account.inFlight + c.amount)];
      return Committed(HoldReceipt(holdId, c.amount, Active, c.expiresAt), false);
    }

    /** The money of a claimed hold: two legs, then the whole held amount leaves the in-flight total. */
    method PostSettlement(c: Command, i: nat, h: Hold) returns (end: TxEnd)
      requires cfg.Valid() && c.Settle? && h.account in accounts
      modifies this`accounts, this`transactions, this`legs
      ensures var p := SettlePosting(cfg, c, h.account);
              var ready := old(State()).(accounts := Open(old(accounts), p.legs[1].account));
              var holder := ready.accounts[h.account];
              if AnyFrozen(ready.accounts, [h.account, p.legs[1].account]) then end == Failed(AccountFrozen)
              else
                && end == SubmitEnd(ready, p, {h.account, p.legs[1].account},
                                    SettleReceipt(i, c.amount, holder.balance - c.amount, h.amount - c.amount))
                && (end.Committed? ==>
                      State() == Post(ready, p).(accounts := Post(ready, p).accounts[h.account :=
                        AccountAt(Post(ready, p).accounts, h.account).(inFlight := holder.inFlight - h.amount)]))
    {
      hide Postable, WrittenLegs, PostedAccounts, FingerprintOf, AnyFrozen, FindTx;
      var other := ShardKey(c.counterparty, ShardOf(cfg, c.ref), h.account.currency);
      ResolveAccount(other);
      var locked, error := LockAccounts([h.account, other], false);
      assert [h.account, other][0] == h.account && [h.account, other][1] == other;
      if error.Some? {
        return Failed(error.value);
      }
      var holder := locked[h.account];
      var p := SettlePosting(cfg, c, h.account);
      var posted := PostTransaction(p, locked);
      assert locked.Keys == {h.account, other};
      match posted {
        case Broken => end := Failed(InternalError);
        case Duplicate => end := Conflict;
        case Posted(_, balanceAfter) =>
          assert p.legs[0].account == h.account;
          accounts := accounts[h.account := AccountAt(accounts, h.account).(inFlight := holder.inFlight - h.amount)];
          end := Committed(SettleReceipt(i, c.amount, balanceAfter[h.account], h.amount - c.amount), false);
      }
    }

    /** The hold is claimed first; if anything after that fails, the claim is rolled back with the rest. */
    method Settle(c: Command, env: Env) returns (end: TxEnd)
      requires cfg.Valid() && c.Settle?
      modifies this`accounts, this`transactions, this`legs, this`holds
      ensures end == SettleTx(cfg, old(State()), c, env).1
      ensures end.Committed? ==> State() == SettleTx(cfg, old(State()), c, env).0
    {
      hide Postable, Post, FingerprintOf, SettleReplay, AnyFrozen, SubmitEnd;
      var found := FindHold(holds, c.ref);
      if found.None? {
        return Failed(AuthorizationNotFound);
      }
      var i, h := found.value, holds[found.value];
      if h.status != Active {
        end := SettleReplay(Tables(accounts, transactions, legs, holds), i, FingerprintOf(c));
        return;
      }
      if h.expiresAt.Some? && h.expiresAt.value <= env.now {
        return Failed(AuthorizationNotActive);
      }
      if c.amount > h.amount {
        return Failed(SettleExceedsHold);
      }
      holds := holds[i := h.(status := Settled, settledAmount := Some(c.amount))];
      if h.account !in accounts {
        return Failed(InternalError);
      }
      end := PostSettlement(c, i, h);
    }

    method Release(c: Command) returns (end: TxEnd)
      requires c.Release?
      modifies this`accounts, this`holds
      ensures end == ReleaseTx(old(State()), c).1
      ensures end.Committed? ==> State() == ReleaseTx(old(State()), c).0
    {
      var found := FindHold(holds, c.ref);
      if found.None? {
        return Failed(AuthorizationNotFound);
      }
      var i, h := found.value, holds[found.value];
      if h.status == Active {
        holds := holds[i := TerminatedHold(h, c.reason, Released, Some(FingerprintOf(c)))];
        var locked, error := LockAccounts([h.account], true);
        assert [h.account][0] == h.account;
        if error.Some? {
          return Failed(error.value);
        }
        var account := locked[h.account];
        accounts := accounts[h.account := account.(inFlight := account.inFlight - h.amount)];
        return Committed(ReleaseReceipt(i, h.amount, c.reason), false);
      }
      if h.status == Settled {
        return Failed(AuthorizationNotActive);
      }
      if h.status == Released && h.releaseFingerprint.Some? && h.releaseFingerprint != Some(FingerprintOf(c)) {
        return Failed(IdempotencyConflict);
      }
      return Committed(ReleaseReceipt(i, h.amount, if h.releaseReason.Some? then h.releaseReason.value else c.reason), true);
    }

    // ---- the expiry scan ----

    /** Sums the released amounts per account, in one pass over the chosen holds. */
    method GroupByAccount(ids: seq<nat>) returns (released: map<AccountKey, int>)
      requires forall i :: 0 <= i < |ids| ==> ids[i] < |holds|
      ensures forall k :: (if k in released then released[k] else 0) == FreedOn(holds, ids, k)
      ensures forall k :: k in released ==> exists i :: 0 <= i < |ids| && holds[ids[i]].account == k
    {
      released := map[];
      var i := 0;
      while i < |ids|
        invariant i <= |ids|
        invariant forall k :: (if k in released then released[k] else 0) == FreedOn(holds, ids[..i], k)
        invariant forall k :: k in released ==> exists j :: 0 <= j < i && holds[ids[j]].account == k
      {
        var h := holds[ids[i]];
        assert ids[..i + 1][..i] == ids[..i];
        released := released[h.account := (if h.account in released then released[h.account] else 0) + h.amount];
        i := i + 1;
      }
      assert ids[..|ids|] == ids;
    }

    /** Gives every listed account its share back, whatever the order of the rows. */
    method GiveBack(released: map<AccountKey, int>, locked: map<AccountKey, Account>)
      requires released.Keys <= locked.Keys
      requires forall k :: k in locked ==> k in accounts && locked[k] == accounts[k]
      modifies this`accounts
      ensures accounts == map k | k in old(accounts) ::
                old(accounts)[k].(inFlight := old(accounts)[k].inFlight - if k in released then released[k] else 0)
    {
      var todo := released.Keys;
      while todo != {}
        invariant todo <= released.Keys
        invariant accounts.Keys == old(accounts).Keys
        invariant forall k :: k in old(accounts) ==>
                    accounts[k] == old(accounts)[k].(inFlight := old(accounts)[k].inFlight -
                                                       if k in released && k !in todo then released[k] else 0)
      {
        var k :| k in todo;
        accounts := accounts[k := locked[k].(inFlight := locked[k].inFlight - released[k])];
        todo := todo - {k};
      }
    }

    /** Locks the accounts of the chosen holds, frozen or not. */
    method LockHolders(ids: seq<nat>) returns (locked: map<AccountKey, Account>, ok: bool)
      requires forall i :: 0 <= i < |ids| ==> ids[i] < |holds|
      ensures ok <==> forall i :: 0 <= i < |ids| ==> holds[ids[i]].account in accounts
      ensures ok ==> forall i :: 0 <= i < |ids| ==> holds[ids[i]].account in locked
      ensures ok ==> forall k :: k in locked ==> k in accounts && locked[k] == accounts[k]
    {
      var keys := AccountsOf(holds, ids);
      var error;
      locked, error := LockAccounts(keys, true);
      ok := error.None?;
      if !ok {
        var k :| k in keys && k !in accounts;
        var i :| 0 <= i < |keys| && keys[i] == k;
        assert holds[ids[i]].account !in accounts;
      } else {
        forall i | 0 <= i < |ids| ensures holds[ids[i]].account in locked {
          assert keys[i] in keys;
        }
      }
    }

    /** The batch: group, rewrite the holds, then rewrite each account once. */
    method ExpireBatch(ids: seq<nat>, locked: map<AccountKey, Account>)
      requires forall i :: 0 <= i < |ids| ==> ids[i] < |holds| && holds[ids[i]].account in locked
      requires forall k :: k in locked ==> k in accounts && locked[k] == accounts[k]
      modifies this`accounts, this`holds
      ensures State() == FreeAll(old(State()), ids)
    {
      hide FreedOn, ExpireHolds;
      var released := GroupByAccount(ids);
      holds := ExpireHolds(holds, SetOf(ids));
      GiveBack(released, locked);
    }

    method ScanExpired(limit: nat, env: Env) returns (end: TxEnd)
      modifies this`accounts, this`holds
      ensures end == ScanTx(old(State()), limit, env).1
      ensures end.Committed? ==> State() == ScanTx(old(State()), limit, env).0
    {
      var ids := OrderedQuery.FirstIds(DueItems(holds, env), limit);
      ScanChosenSound(State(), limit, env);
      hide DueItems, OrderedQuery.FirstIds, FreeAll;
      if ids == [] {
        NothingToFree(State());
        return Committed(ScanReceipt(0), false);
      }
      var locked, ok := LockHolders(ids);
      if !ok {
        return Failed(InternalError);
      }
      ExpireBatch(ids, locked);
      return Committed(ScanReceipt(|ids|), false);
    }

    // ---- credit line and freeze ----

    method SetCreditLimit(c: Command) returns (end: TxEnd)
      requires c.SetCreditLimit?
      modifies this`accounts, this`transactions, this`legs
      ensures end == LimitTx(old(State()), c).1
      ensures end.Committed? ==> State() == LimitTx(old(State()), c).0
    {
      hide Postable, WrittenLegs, PostedAccounts, FingerprintOf;
      var k := UserKey(c.userId, c.currency);
      ResolveAccount(k);
      var locked, error := LockAccounts([k], false);
      assert [k][0] == k;
      if error.Some? {
        return Failed(error.value);
      }
      if locked[k].balance + c.amount - locked[k].inFlight < 0 {
        return Failed(CreditLimitConflict);
      }
      var posted := PostTransaction(LimitPosting(c), locked);
      assert locked.Keys == {k};
      match posted {
        case Broken => end := Failed(InternalError);
        case Duplicate => end := Conflict;
        case Posted(txId, _) =>
          accounts := accounts[k := AccountAt(accounts, k).(creditLimit := c.amount)];
          end := Committed(LimitReceipt(txId, c.amount), false);
      }
    }

    /** One audit leg on the first row, then the status of every row behind the name. */
    method SetAccountStatus(c: Command) returns (end: TxEnd)
      requires cfg.Valid() && c.Freeze?
      modifies this`accounts, this`transactions, this`legs
      ensures end == FreezeTx(cfg, old(State()), c).1
      ensures end.Committed? ==> State() == FreezeTx(cfg, old(State()), c).0
    {
      hide Postable, WrittenLegs, PostedAccounts, FingerprintOf, OpenSide, SideKeys;
      var keys := ResolveSide(c.target, c.currency);
      SideKeysSound(cfg, accounts, old(accounts), c.target, c.currency);
      if keys == [] {
        return Failed(InternalError);
      }
      var locked, error := LockAccounts(keys, true);
      if error.Some? {
        assert false;
      }
      var posted := PostTransaction(FreezePosting(c, keys[0]), locked);
      match posted {
        case Broken => end := Failed(InternalError);
        case Duplicate => end := Conflict;
        case Posted(txId, _) =>
          accounts := SetFrozen(accounts, keys, c.frozen);
          end := Committed(FreezeReceipt(txId, c.frozen), false);
      }
    }

    // ---- transfer ----

    method TotalBalance(keys: seq<AccountKey>, locked: map<AccountKey, Account>) returns (total: int)
      requires forall k :: k in keys ==> k in locked && k in accounts && locked[k] == accounts[k]
      ensures total == SideTotal(accounts, keys)
    {
      total := 0;
      var i := 0;
      while i < |keys|
        invariant i <= |keys|
        invariant total == SideTotal(accounts, keys[..i])
      {
        assert keys[..i + 1][..i] == keys[..i];
        total := total + locked[keys[i]].balance;
        i := i + 1;
      }
      assert keys[..|keys|] == keys;
    }

    /** Takes what each shard can give, in the given order, until the amount is found. */
    method Drain(order: seq<AccountKey>, amount: int, locked: map<AccountKey, Account>)
      returns (debits: map<AccountKey, int>, remaining: int)
      requires amount >= 0
      requires forall i, j :: 0 <= i < j < |order| ==> order[i] != order[j]
      requires forall k :: k in order ==> k in locked && k in accounts && locked[k] == accounts[k]
      ensures remaining == Missing(accounts, order, amount)
      ensures forall k :: (if k in debits then debits[k] else 0) == DebitOf(accounts, order, amount, k)
    {
      debits, remaining := map[], amount;
      var i := 0;
      while i < |order| && remaining != 0
        invariant i <= |order|
        invariant 0 <= remaining == Missing(accounts, order[..i], amount)
        invariant forall k :: (if k in debits then debits[k] else 0) == DebitOf(accounts, order[..i], amount, k)
      {
        var k := order[i];
        assert order[..i + 1][..i] == order[..i];
        NotYetDrained(accounts, order, amount, i);
        var debit := Take(locked[k].balance, remaining);
        if debit != 0 {
          debits := debits[k := debit];
          remaining := remaining - debit;
        }
        i := i + 1;
      }
      NothingMore(accounts, order, amount, i);
    }

    /** Debits for every row of the source, then the credit and zero legs of the destination. */
    method CollectLegs(c: Command, from: Side, to: Side, debits: map<AccountKey, int>, preferred: nat) returns (legs: seq<PostingLeg>)
      requires c.Transfer?
      requires forall i :: 0 <= i < |from.keys| ==>
                 (if from.keys[i] in debits then debits[from.keys[i]] else 0) ==
                 (if from.isUser then c.amount else DebitOf(accounts, Rotated(from.keys, preferred), c.amount, from.keys[i]))
      ensures legs == TransferPosting(accounts, c, from, to, preferred).legs
    {
      hide DebitOf, Rotated;
      legs := [];
      var i := 0;
      while i < |from.keys|
        invariant i <= |from.keys|
        invariant legs == DebitLegs(accounts, from, c.amount, preferred)[..i]
      {
        var k := from.keys[i];
        legs := legs + [PostingLeg(k, k.currency, if k in debits then -debits[k] else 0)];
        i := i + 1;
      }
      var j := 0;
      while j < |to.keys|
        invariant j <= |to.keys|
        invariant legs == DebitLegs(accounts, from, c.amount, preferred) + CreditLegs(to, c.amount, preferred)[..j]
      {
        var k := to.keys[j];
        legs := legs + [PostingLeg(k, k.currency, if j == (if to.isUser then 0 else preferred) then c.amount else 0)];
        j := j + 1;
      }
    }

    /** The legs of a transfer, one per row of both sides, or the reason why it cannot be covered. */
    method BuildTransferPosting(c: Command, from: Side, to: Side, locked: map<AccountKey, Account>, preferred: nat)
      returns (shortfall: Option<Error>, legs: seq<PostingLeg>, fromAfter: int, toAfter: int)
      requires c.Transfer? && c.amount > 0 && from.keys != []
      requires from.isUser ==> |from.keys| == 1
      requires forall i, j :: 0 <= i < j < |from.keys| ==> from.keys[i] != from.keys[j]
      requires (if to.isUser then 0 else preferred) < |to.keys|
      requires forall k :: k in from.keys + to.keys ==> k in locked && k in accounts && locked[k] == accounts[k]
      ensures shortfall == TransferShortfall(accounts, from, c, preferred)
      ensures shortfall.None? ==> legs == TransferPosting(accounts, c, from, to, preferred).legs
      ensures shortfall.None? ==> fromAfter == SideTotal(accounts, from.keys) - c.amount
      ensures shortfall.None? ==> toAfter == SideTotal(accounts, to.keys) + c.amount
    {
      hide DebitLegs, CreditLegs, SideTotal;
      shortfall, legs, fromAfter, toAfter := None, [], 0, 0;
      forall k | k in from.keys ensures k in from.keys + to.keys {
      }
      forall k | k in to.keys ensures k in from.keys + to.keys {
      }
      var fromTotal := TotalBalance(from.keys, locked);
      var primary := locked[from.keys[0]];
      var available := if from.isUser then Available(primary, true, c.cashOnly) else fromTotal;
      if available < c.amount {
        return Some(if from.isUser && c.cashOnly then InsufficientCash else InsufficientBalance), [], 0, 0;
      }
      var debits := map[from.keys[0] := c.amount];
      if !from.isUser {
        RotatedDistinct(from.keys, preferred);
        var remaining;
        debits, remaining := Drain(Rotated(from.keys, preferred), c.amount, locked);
        if remaining != 0 {
          return Some(InsufficientBalance), [], 0, 0;
        }
      }
      legs := CollectLegs(c, from, to, debits, preferred);
      var toTotal := TotalBalance(to.keys, locked);
      fromAfter, toAfter := fromTotal - c.amount, toTotal + c.amount;
    }

    method Transfer(c: Command) returns (end: TxEnd)
      requires cfg.Valid() && c.Transfer? && Malformed(c).None?
      modifies this`accounts, this`transactions, this`legs
      ensures end == TransferTx(cfg, old(State()), c).1
      ensures end.Committed? ==> State() == TransferTx(cfg, old(State()), c).0
    {
      hide Postable, Post, FingerprintOf, OpenSide, SideKeys, SideTotal, TransferPosting, TransferShortfall, Rotated;
      var fromKeys := ResolveSide(c.from, c.fromCurrency);
      ghost var opening := accounts;
      var toKeys := ResolveSide(c.to, c.toCurrency);
      if c.fromCurrency != c.toCurrency {
        return Failed(CurrencyMismatch);
      }
      TransferSides(cfg, old(accounts), opening, accounts, c);
      var from, to := Side(fromKeys, c.from.ToUser?), Side(toKeys, c.to.ToUser?);
      var locked, error := LockAccounts(fromKeys + toKeys, false);
      if error.Some? {
        return Failed(error.value);
      }
      var shortfall, legs, fromAfter, toAfter := BuildTransferPosting(c, from, to, locked, ShardOf(cfg, c.ref));
      if shortfall.Some? {
        return Failed(shortfall.value);
      }
      var p := Posting(Header(TransferKind, c.ref, FingerprintOf(c)), legs);
      assert p == TransferPosting(accounts, c, from, to, ShardOf(cfg, c.ref)) by {
        HeaderOf(accounts, c, from, to, ShardOf(cfg, c.ref));
      }
      var posted := PostTransaction(p, locked);
      match posted {
        case Broken => end := Failed(InternalError);
        case Duplicate => end := Conflict;
        case Posted(txId, _) => end := Committed(TransferReceipt(txId, c.amount, fromAfter, toAfter), false);
      }
    }

    // ---- transactions and calls ----

    /** One database transaction: whatever does not commit is undone. */
    method RunTx(c: Command, env: Env) returns (end: TxEnd)
      requires cfg.Valid() && Malformed(c).None?
      modifies this`accounts, this`transactions, this`legs, this`holds
      ensures end == TxStep(cfg, old(State()), c, env).1
      ensures State() == TxStep(cfg, old(State()), c, env).0
    {
      FailedTxChangesNothing(cfg, State(), c, env);
      var before := (accounts, transactions, legs, holds);
      assert c.ReleaseExpired? ==> c.limit >= 0;
      hide Malformed, MoveTx, AuthorizeTx, SettleTx, ReleaseTx, ScanTx, LimitTx, FreezeTx, TransferTx;
      if c.Credit? || c.Refund? {
        end := CreditOrRefund(c);
      } else if c.Authorize? {
        end := Authorize(c);
      } else if c.Settle? {
        end := Settle(c, env);
      } else if c.Release? {
        end := Release(c);
      } else if c.ReleaseExpired? {
        end := ScanExpired(c.limit, env);
      } else if c.SetCreditLimit? {
        end := SetCreditLimit(c);
      } else if c.Freeze? {
        end := SetAccountStatus(c);
      } else {
        end := Transfer(c);
      }
      if !end.Committed? {
        accounts, transactions, legs, holds := before.0, before.1, before.2, before.3;
      }
    }

    /** A call: fast path, transaction, and the read-back when the unique index was hit. */
    method Execute(c: Command, env: Env) returns (o: Outcome)
      requires cfg.Valid()
      modifies this
      ensures State() == Step(cfg, old(State()), c, env).0
      ensures o == Step(cfg, old(State()), c, env).1
      ensures log == old(log) + [Event(c, env)]
      ensures old(Valid()) ==> Valid()
    {
      assert (log + [Event(c, env)])[..|log|] == log;
      hide Malformed, Readback, TxStep;
      log := log + [Event(c, env)];
      var fast := FastPath(Tables(accounts, transactions, legs, holds), c);
      if fast.Some? {
        return fast.value;
      }
      var end := RunTx(c, env);
      o := EndOutcome(Tables(accounts, transactions, legs, holds), c, end);
    }

    // ---- maintenance.ts ----

    /** Transactions whose legs do not balance, up to the limit. */
    method TransactionDrifts(limit: nat) returns (found: seq<Violation>)
      ensures |found| <= limit && forall v :: v in found ==> v.TransactionDrift? && Found(State(), v)
      ensures |found| < limit ==> forall v: Violation :: v.TransactionDrift? && Found(State(), v) ==> v in found
    {
      found := [];
      var x := 0;
      while x < |transactions| && |found| < limit
        invariant x <= |transactions| && |found| <= limit
        invariant forall v :: v in found ==> v.TransactionDrift? && Found(State(), v)
        invariant forall v: Violation :: v.TransactionDrift? && v.txId < x && Found(State(), v) ==> v in found
      {
        var own := LegsOf(legs, x);
        var v := TransactionDrift(x, |own|, AmountSum(own));
        if !BalancedLegs(transactions[x].kind, own) {
          found := found + [v];
        }
        x := x + 1;
      }
    }

    /** Accounts whose balance or in-flight amount is not what legs and holds say, up to the limit. */
    method AccountDrifts(limit: nat) returns (found: seq<Violation>)
      ensures |found| <= limit && forall v :: v in found ==> !v.TransactionDrift? && Found(State(), v)
      ensures |found| < limit ==> forall v: Violation :: !v.TransactionDrift? && Found(State(), v) ==> v in found
    {
      found := [];
      var todo := accounts.Keys;
      while todo != {} && |found| < limit
        invariant todo <= accounts.Keys && |found| <= limit
        invariant forall v :: v in found ==> !v.TransactionDrift? && Found(State(), v)
        invariant |found| < limit ==>
                    forall v: Violation :: !v.TransactionDrift? && v.account !in todo && Found(State(), v) ==> v in found
      {
        var k :| k in todo;
        todo := todo - {k};
        if accounts[k].balance != LastAfter(legs, k) {
          found := found + [BalanceDrift(k, LastAfter(legs, k), accounts[k].balance)];
        }
        if |found| < limit && accounts[k].inFlight != ActiveSum(holds, k) {
          found := found + [InFlightDrift(k, ActiveSum(holds, k), accounts[k].inFlight)];
        }
      }
    }

    /** The audit: it reports only real drift, all of it unless the limit cuts it short, and on a wallet that was only
        ever changed by its own commands it reports nothing. */
    method VerifyInvariants(limit: int) returns (r: Report)
      ensures r.BadLimit? <==> limit < 1 || limit > 10000
      ensures r.Report? ==> |r.violations| <= limit && forall v :: v in r.violations ==> Found(State(), v)
      ensures r.Report? && |r.violations| < limit ==> forall v :: Found(State(), v) ==> v in r.violations
      ensures r.Report? ==> (r.violations == [] <==> AuditClean(State()))
      ensures r.Report? && Valid() ==> r.violations == []
    {
      if limit < 1 || limit > 10000 {
        return BadLimit;
      }
      var first := TransactionDrifts(limit);
      var second := AccountDrifts(limit - |first|);
      r := Report(first + second);
      if r.violations == [] {
        NoDriftIsClean(State());
      } else {
        DriftIsUnclean(State(), r.violations[0]);
      }
      if Valid() {
        AuditNeverFails(cfg, log, AccountKey(Internal("", 0), ""), "");
      }
    }
  }

  function AccountsOf(holds: seq<Hold>, ids: seq<nat>): (r: seq<AccountKey>)
    requires forall i :: 0 <= i < |ids| ==> ids[i] < |holds|
    ensures |r| == |ids| && forall i :: 0 <= i < |ids| ==> r[i] == holds[ids[i]].account
  {
    seq(|ids|, i requires 0 <= i < |ids| => holds[ids[i]].account)
  }

  lemma {:induction false} NothingToFree(t: Tables)
    ensures FreeAll(t, []) == t
  {
    assert ExpireHolds(t.holds, SetOf([])) == t.holds;
    assert FreeAll(t, []).accounts == t.accounts;
  }

  // ---- draining, step by step ----

  /** A shard that the order has not reached yet has given nothing. */
  lemma {:induction false} NotYetDrained(accounts: map<AccountKey, Account>, order: seq<AccountKey>, amount: int, i: nat)
    requires i < |order|
    requires forall x, y :: 0 <= x < y < |order| ==> order[x] != order[y]
    ensures DebitOf(accounts, order[..i], amount, order[i]) == 0
  {
    DebitOutside(accounts, order[..i], amount, order[i]);
  }

  lemma {:induction false} DebitOutside(accounts: map<AccountKey, Account>, order: seq<AccountKey>, amount: int, k: AccountKey)
    requires k !in order
    ensures DebitOf(accounts, order, amount, k) == 0
  {
    if order != [] {
      DebitOutside(accounts, order[..|order| - 1], amount, k);
    }
  }

  /** Stopping once nothing is missing leaves every later shard alone. */
  lemma {:induction false} NothingMore(accounts: map<AccountKey, Account>, order: seq<AccountKey>, amount: int, i: nat)
    requires i <= |order| && (i == |order| || Missing(accounts, order[..i], amount) == 0)
    requires forall x, y :: 0 <= x < y < |order| ==> order[x] != order[y]
    ensures Missing(accounts, order, amount) == Missing(accounts, order[..i], amount)
    ensures forall k :: DebitOf(accounts, order, amount, k) == DebitOf(accounts, order[..i], amount, k)
  {
    if i == |order| {
      assert order[..i] == order;
    } else {
      var init := order[..|order| - 1];
      assert init[..i] == order[..i];
      NothingMore(accounts, init, amount, i);
      DebitOutside(accounts, init, amount, order[|order| - 1]);
    }
  }

  lemma {:induction false} RotatedDistinct(keys: seq<AccountKey>, start: nat)
    requires forall i, j :: 0 <= i < j < |keys| ==> keys[i] != keys[j]
    ensures forall i, j :: 0 <= i < j < |Rotated(keys, start)| ==> Rotated(keys, start)[i] != Rotated(keys, start)[j]
    ensures forall k :: k in Rotated(keys, start) <==> k in keys
  {
    if start <= |keys| {
      assert keys == keys[..start] + keys[start..];
    }
  }

  lemma {:induction false} HeaderOf(accounts: map<AccountKey, Account>, c: Command, from: Side, to: Side, preferred: nat)
    requires c.Transfer?
    ensures TransferPosting(accounts, c, from, to, preferred).header == Header(TransferKind, c.ref, FingerprintOf(c))
  {
  }

  /** Opening the destination adds no row to the source, and both sides are ready to post on. */
  lemma {:induction false} TransferSides(cfg: Config, before: map<AccountKey, Account>, mid: map<AccountKey, Account>,
                                         accounts: map<AccountKey, Account>, c: Command)
    requires cfg.Valid() && c.Transfer? && Malformed(c).None? && c.fromCurrency == c.toCurrency
    requires mid == OpenSide(cfg, before, c.from, c.fromCurrency) && accounts == OpenSide(cfg, mid, c.to, c.toCurrency)
    ensures accounts == OpenBoth(cfg, before, c)
    ensures SideKeys(accounts, c.from, c.fromCurrency) == SideKeys(mid, c.from, c.fromCurrency)
    ensures var from, to := SideOf(accounts, c.from, c.fromCurrency), SideOf(accounts, c.to, c.toCurrency);
            && from.keys != [] && (from.isUser ==> |from.keys| == 1)
            && (forall i, j :: 0 <= i < j < |from.keys| ==> from.keys[i] != from.keys[j])
            && (if to.isUser then 0 else ShardOf(cfg, c.ref)) < |to.keys|
            && (forall k :: k in from.keys + to.keys ==> k in accounts)
  {
    OpenSideGrows(cfg, mid, c.to, c.toCurrency);
    SourceStays(cfg, mid, accounts, c);
    hide OpenSide, SideKeys;
    SideKeysSound(cfg, accounts, before, c.from, c.fromCurrency);
    SideKeysSound(cfg, accounts, mid, c.to, c.toCurrency);
    SideLength(cfg, before, accounts, c.from, c.fromCurrency);
    SideLength(cfg, mid, accounts, c.to, c.toCurrency);
  }

  lemma {:induction false} SourceStays(cfg: Config, mid: map<AccountKey, Account>, accounts: map<AccountKey, Account>, c: Command)
    requires cfg.Valid() && c.Transfer? && c.from != c.to && accounts == OpenSide(cfg, mid, c.to, c.toCurrency)
    ensures SideKeys(accounts, c.from, c.fromCurrency) == SideKeys(mid, c.from, c.fromCurrency)
  {
    if c.from.ToCode? {
      if c.to.ToCode? {
        OpenShardsGrows(mid, c.to.code, c.toCurrency, cfg.shards);
      }
      SameShardKeys(mid, accounts, c.from.code, c.fromCurrency, 0);
    }
  }

  lemma {:induction false} SideLength(cfg: Config, before: map<AccountKey, Account>, accounts: map<AccountKey, Account>, a: AccountRef,
                                      currency: string)
    requires cfg.Valid() && OpenSide(cfg, before, a, currency).Keys <= accounts.Keys
    ensures var n := |SideKeys(accounts, a, currency)|; if a.ToUser? then n == 1 else n >= cfg.shards
  {
    if a.ToCode? {
      OpenShardsGrows(before, a.code, currency, cfg.shards);
      EnoughShards(accounts, a.code, currency, 0, cfg.shards);
    }
  }

  lemma {:induction false} SameShardKeys(a: map<AccountKey, Account>, b: map<AccountKey, Account>, code: string, currency: string,
                                         from: nat)
    requires forall j: nat :: ShardKey(code, j, currency) in a <==> ShardKey(code, j, currency) in b
    ensures ShardKeys(a, code, currency, from) == ShardKeys(b, code, currency, from)
    decreases MAX_SHARDS - from
  {
    if from < MAX_SHARDS {
      SameShardKeys(a, b, code, currency, from + 1);
    }
  }

  // ---- single steps of the loops ----

  lemma {:induction false} ShardKeysNext(accounts: map<AccountKey, Account>, code: string, currency: string, shard: nat,
                                         keys: seq<AccountKey>)
    requires shard < MAX_SHARDS
    ensures var k := ShardKey(code, shard, currency);
            keys + ShardKeys(accounts, code, currency, shard) ==
            (if k in accounts then keys + [k] else keys) + ShardKeys(accounts, code, currency, shard + 1)
  {
    var k, rest := ShardKey(code, shard, currency), ShardKeys(accounts, code, currency, shard + 1);
    assert ShardKeys(accounts, code, currency, shard) == (if k in accounts then [k] else []) + rest;
    hide ShardKeys;
    assert keys + ([k] + rest) == keys + [k] + rest && keys + ([] + rest) == keys + rest;
  }

  lemma {:induction false} NoMoreShards(accounts: map<AccountKey, Account>, code: string, currency: string)
    ensures ShardKeys(accounts, code, currency, MAX_SHARDS) == []
  {
  }

  lemma {:induction false} MovePostingAccounts(cfg: Config, c: Command)
    requires cfg.Valid() && (c.Credit? || c.Refund?)
    ensures var legs := MovePosting(cfg, c).legs;
            && |legs| == 2 && legs[0].account == UserKey(c.userId, c.currency)
            && legs[1].account == ShardKey(c.counterparty, ShardOf(cfg, c.ref), c.currency)
  {
  }

  lemma {:induction false} NothingPosted(accounts: map<AccountKey, Account>, tx: nat)
    ensures PostedAccounts(accounts, accounts, []) == accounts && WrittenLegs(accounts, tx, []) == []
  {
  }

  lemma {:induction false} PostedNext(accounts: map<AccountKey, Account>, tx: nat, legs: seq<PostingLeg>, i: nat)
    requires i < |legs|
    ensures var g, m := legs[i], PostedAccounts(accounts, accounts, legs[..i]);
            var before := AccountAt(accounts, g.account).balance;
            && PostedAccounts(accounts, accounts, legs[..i + 1]) ==
               m[g.account := AccountAt(m, g.account).(balance := before + g.amount)]
            && WrittenLegs(accounts, tx, legs[..i + 1]) == WrittenLegs(accounts, tx, legs[..i]) + [WrittenLeg(tx, g, before)]
  {
    hide WrittenLeg, AccountAt;
    assert legs[..i + 1][..i] == legs[..i];
  }

  // ---- the audit's report and the books ----

  lemma {:induction false} NoDriftIsClean(t: Tables)
    requires forall v :: !Found(t, v)
    ensures AuditClean(t)
  {
    forall i | 0 <= i < |t.transactions| ensures BalancedLegs(t.transactions[i].kind, LegsOf(t.legs, i)) {
      assert !Found(t, TransactionDrift(i, |LegsOf(t.legs, i)|, AmountSum(LegsOf(t.legs, i))));
    }
    forall k | k in t.accounts ensures t.accounts[k].balance == LastAfter(t.legs, k) && t.accounts[k].inFlight == ActiveSum(t.holds, k) {
      assert !Found(t, BalanceDrift(k, LastAfter(t.legs, k), t.accounts[k].balance));
      assert !Found(t, InFlightDrift(k, ActiveSum(t.holds, k), t.accounts[k].inFlight));
    }
  }

  lemma {:induction false} DriftIsUnclean(t: Tables, v: Violation)
    requires Found(t, v)
    ensures !AuditClean(t)
  {
  }
}
