/** What each wallet command does to the tables, one database transaction at a time.

    A keyed command runs in up to three atomic steps: a fast-path read, one transaction, and a read-back
    when the transaction hit the unique index. `Step` is their uninterrupted composition. */
module WalletSpec {
  import opened Options
  import opened WalletTypes
  import opened WalletTables
  import OrderedQuery

  // ---- opening and locking accounts ----

  function Open(accounts: map<AccountKey, Account>, k: AccountKey): map<AccountKey, Account> {
    if k in accounts then accounts else accounts[k := OPENED]
  }

  function OpenShards(accounts: map<AccountKey, Account>, code: string, currency: string, n: nat)
    : map<AccountKey, Account>
  {
    if n == 0 then accounts else Open(OpenShards(accounts, code, currency, n - 1), ShardKey(code, n - 1, currency))
  }

  /** Every row of a logical internal account, in shard order. */
  function ShardKeys(accounts: map<AccountKey, Account>, code: string, currency: string, from: nat)
    : seq<AccountKey>
    decreases MAX_SHARDS - from
  {
    if from >= MAX_SHARDS then []
    else
      var k := ShardKey(code, from, currency);
      (if k in accounts then [k] else []) + ShardKeys(accounts, code, currency, from + 1)
  }

  /** All rows behind an account reference: one for a user, every shard for a code. */
  function OpenSide(cfg: Config, accounts: map<AccountKey, Account>, a: AccountRef, currency: string)
    : map<AccountKey, Account>
  {
    match a
    case ToUser(u) => Open(accounts, UserKey(u, currency))
    case ToCode(code) => OpenShards(accounts, code, currency, cfg.shards)
  }

  function SideKeys(accounts: map<AccountKey, Account>, a: AccountRef, currency: string): seq<AccountKey> {
    match a
    case ToUser(u) => [UserKey(u, currency)]
    case ToCode(code) => ShardKeys(accounts, code, currency, 0)
  }

  predicate AnyFrozen(accounts: map<AccountKey, Account>, keys: seq<AccountKey>) {
    exists k :: k in keys && AccountAt(accounts, k).frozen
  }

  // ---- posting ----

  datatype PostingLeg = PostingLeg(account: AccountKey, currency: string, amount: int)

  datatype Posting = Posting(header: Transaction, legs: seq<PostingLeg>)

  function PostingTotal(legs: seq<PostingLeg>): int {
    if legs == [] then 0 else PostingTotal(legs[..|legs| - 1]) + legs[|legs| - 1].amount
  }

  /** The checks the posting kernel makes before it writes anything. */
  predicate Postable(p: Posting, locked: set<AccountKey>) {
    && (if IsAudit(p.header.kind) then |p.legs| == 1 else |p.legs| >= 2)
    && (forall i :: 0 <= i < |p.legs| ==> p.legs[i].account in locked)
    && (forall i, j :: 0 <= i < j < |p.legs| ==> p.legs[i].account != p.legs[j].account)
    && (forall i :: 0 <= i < |p.legs| ==> p.legs[i].currency == p.legs[0].currency)
    && PostingTotal(p.legs) == 0
    && (IsAudit(p.header.kind) ==> p.legs[0].amount == 0)
    && (p.header.kind.FreezeKind? ==> p.header.frozenAfter.Some?)
    && (p.header.kind.CreditLineKind? ==> p.header.creditLimitAfter.Some?)
  }

  /** The leg a posting writes on an account whose locked balance is `before`. */
  function WrittenLeg(tx: nat, g: PostingLeg, before: int): Leg {
    Leg(tx, g.account, g.currency, g.amount, before, before + g.amount)
  }

  function WrittenLegs(locked: map<AccountKey, Account>, tx: nat, legs: seq<PostingLeg>): (r: seq<Leg>)
    ensures |r| == |legs|
    ensures forall i :: 0 <= i < |r| ==> r[i] == WrittenLeg(tx, legs[i], AccountAt(locked, legs[i].account).balance)
  {
    seq(|legs|, i requires 0 <= i < |legs| => WrittenLeg(tx, legs[i], AccountAt(locked, legs[i].account).balance))
  }

  function PostedAccounts(accounts: map<AccountKey, Account>, locked: map<AccountKey, Account>, legs: seq<PostingLeg>)
    : map<AccountKey, Account>
  {
    if legs == [] then accounts
    else
      var g := legs[|legs| - 1];
      var m := PostedAccounts(accounts, locked, legs[..|legs| - 1]);
      m[g.account := AccountAt(m, g.account).(balance := AccountAt(locked, g.account).balance + g.amount)]
  }

  function Post(t: Tables, p: Posting): Tables {
    Tables(PostedAccounts(t.accounts, t.accounts, p.legs), t.transactions + [p.header],
           t.legs + WrittenLegs(t.accounts, |t.transactions|, p.legs), t.holds)
  }

  // ---- one transaction ----

  /** How a database transaction ends; `Conflict` is a violated unique index, and like `Failed` rolls back. */
  datatype TxEnd = Committed(receipt: Receipt, replayed: bool) | Conflict | Failed(error: Error)

  /** What the environment fixes for one transaction: the database clock and the rows others have locked. */
  datatype Env = Env(now: int, skip: set<nat>)

  /** Where a posting ends: the kernel's own checks, then the unique index on (ref, kind). */
  function SubmitEnd(ready: Tables, p: Posting, locked: set<AccountKey>, receipt: Receipt): TxEnd {
    if !Postable(p, locked) then Failed(InternalError)
    else if FindTx(ready.transactions, p.header.ref, p.header.kind).Some? then Conflict
    else Committed(receipt, false)
  }

  function Header(kind: Kind, ref: Ref, f: Fingerprint): Transaction {
    Transaction(kind, ref, f, None, None)
  }

  /** Credit-limit-inclusive spending power; the cash view leaves the limit out. */
  function Available(a: Account, isUser: bool, cashOnly: bool): int {
    a.balance + (if isUser && !cashOnly then a.creditLimit else 0) - a.inFlight
  }

  function MovePosting(cfg: Config, c: Command): Posting
    requires c.Credit? || c.Refund?
    requires cfg.Valid()
  {
    var signed := if c.Credit? then c.amount else -c.amount;
    var kind := if c.Credit? then CreditKind else RefundKind;
    var user := UserKey(c.userId, c.currency);
    var other := ShardKey(c.counterparty, ShardOf(cfg, c.ref), c.currency);
    Posting(Header(kind, c.ref, FingerprintOf(c)),
            [PostingLeg(user, c.currency, signed), PostingLeg(other, c.currency, -signed)])
  }

  function MoveTx(cfg: Config, t: Tables, c: Command): (r: (Tables, TxEnd))
    requires c.Credit? || c.Refund?
    requires cfg.Valid()
  {
    var p := MovePosting(cfg, c);
    var user, other := p.legs[0].account, p.legs[1].account;
    var ready := t.(accounts := Open(Open(t.accounts, user), other));
    if AnyFrozen(ready.accounts, [user, other]) then (t, Failed(AccountFrozen))
    else if c.Refund? && Available(ready.accounts[user], true, false) < c.amount then (t, Failed(InsufficientBalance))
    else
      var receipt := MoveReceipt(|t.transactions|, c.amount, ready.accounts[user].balance + p.legs[0].amount);
      var end := SubmitEnd(ready, p, {user, other}, receipt);
      (if end.Committed? then Post(ready, p) else t, end)
  }

  function AuthorizeTx(t: Tables, c: Command): (Tables, TxEnd)
    requires c.Authorize?
  {
    var k := UserKey(c.userId, c.currency);
    var accounts := Open(t.accounts, k);
    var a := accounts[k];
    if a.frozen then (t, Failed(AccountFrozen))
    else if Available(a, true, c.cashOnly) < c.amount then
      (t, Failed(if c.cashOnly then InsufficientCash else InsufficientBalance))
    else if FindHold(t.holds, c.ref).Some? then (t, Conflict)
    else
      var h := Hold(k, c.ref, c.amount, Active, None, None, c.expiresAt, FingerprintOf(c), None);
      (t.(accounts := accounts[k := a.(inFlight := a.inFlight + c.amount)], holds := t.holds + [h]),
       Committed(HoldReceipt(|t.holds|, c.amount, Active, c.expiresAt), false))
  }

  function SettlePosting(cfg: Config, c: Command, holder: AccountKey): Posting
    requires c.Settle?
    requires cfg.Valid()
  {
    Posting(Header(SettleKind, c.ref, FingerprintOf(c)),
            [PostingLeg(holder, holder.currency, -c.amount),
             PostingLeg(ShardKey(c.counterparty, ShardOf(cfg, c.ref), holder.currency), holder.currency, c.amount)])
  }

  function SettleTx(cfg: Config, t: Tables, c: Command, env: Env): (Tables, TxEnd)
    requires c.Settle?
    requires cfg.Valid()
  {
    match FindHold(t.holds, c.ref)
    case None => (t, Failed(AuthorizationNotFound))
    case Some(i) =>
      var h := t.holds[i];
      if h.status != Active then (t, SettleReplay(t, i, FingerprintOf(c)))
      else if h.expiresAt.Some? && h.expiresAt.value <= env.now then (t, Failed(AuthorizationNotActive))
      else if c.amount > h.amount then (t, Failed(SettleExceedsHold))
      else if h.account !in t.accounts then (t, Failed(InternalError))
      else
        var p := SettlePosting(cfg, c, h.account);
        var other := p.legs[1].account;
        var ready := t.(accounts := Open(t.accounts, other),
                         holds := t.holds[i := h.(status := Settled, settledAmount := Some(c.amount))]);
        if AnyFrozen(ready.accounts, [h.account, other]) then (t, Failed(AccountFrozen))
        else
          var holder := ready.accounts[h.account];
          var receipt := SettleReceipt(i, c.amount, holder.balance - c.amount, h.amount - c.amount);
          var end := SubmitEnd(ready, p, {h.account, other}, receipt);
          if !end.Committed? then (t, end)
          else
            var posted := Post(ready, p);
            var after := AccountAt(posted.accounts, h.account).(inFlight := holder.inFlight - h.amount);
            (posted.(accounts := posted.accounts[h.account := after]), end)
  }

  /** Reading back the receipt of a hold that has already left the active state. */
  function SettleReplay(t: Tables, i: nat, f: Fingerprint): TxEnd
    requires i < |t.holds|
  {
    var h := t.holds[i];
    if h.status != Settled then Failed(AuthorizationNotActive)
    else match FindTx(t.transactions, h.ref, SettleKind)
      case None => Failed(InternalError)
      case Some(x) =>
        match OwnLeg(LegsOf(t.legs, x), h.account)
        case None => Failed(InternalError)
        case Some(g) =>
          if t.transactions[x].fingerprint != f then Failed(IdempotencyConflict)
          else
            var settled := if h.settledAmount.Some? then h.settledAmount.value else 0;
            Committed(SettleReceipt(i, settled, g.after, h.amount - settled), true)
  }

  function ReleaseTx(t: Tables, c: Command): (Tables, TxEnd)
    requires c.Release?
  {
    ReleaseHold(t, c.ref, c.reason, Released, Some(FingerprintOf(c)))
  }

  /** The single-hold transition to a terminal state without money: the hold goes, its in-flight share returns. */
  function ReleaseHold(t: Tables, ref: Ref, reason: string, terminal: HoldStatus, f: Option<Fingerprint>)
    : (Tables, TxEnd)
  {
    match FindHold(t.holds, ref)
    case None => (t, Failed(AuthorizationNotFound))
    case Some(i) =>
      var h := t.holds[i];
      if h.status == Active then
        if h.account !in t.accounts then (t, Failed(InternalError))
        else
          (Terminated(t, i, reason, terminal, f), Committed(ReleaseReceipt(i, h.amount, reason), false))
      else if h.status == Settled then (t, Failed(AuthorizationNotActive))
      else if h.status == Released && f.Some? && h.releaseFingerprint.Some? && h.releaseFingerprint != f then
        (t, Failed(IdempotencyConflict))
      else
        (t, Committed(ReleaseReceipt(i, h.amount, if h.releaseReason.Some? then h.releaseReason.value else reason), true))
  }

  function TerminatedHold(h: Hold, reason: string, terminal: HoldStatus, f: Option<Fingerprint>): Hold {
    h.(status := terminal, releaseReason := Some(reason), releaseFingerprint := if terminal == Released then f else None)
  }

  function Terminated(t: Tables, i: nat, reason: string, terminal: HoldStatus, f: Option<Fingerprint>): Tables
    requires i < |t.holds|
  {
    var h := t.holds[i];
    var a := AccountAt(t.accounts, h.account);
    t.(accounts := t.accounts[h.account := a.(inFlight := a.inFlight - h.amount)],
       holds := t.holds[i := TerminatedHold(h, reason, terminal, f)])
  }

  // ---- the expiry scan ----

  predicate Due(h: Hold, now: int) {
    h.status == Active && h.expiresAt.Some? && h.expiresAt.value <= now
  }

  /** The rows the scan selects from, before ordering and limit. */
  function DueItems(holds: seq<Hold>, env: Env): seq<OrderedQuery.Item> {
    if holds == [] then []
    else
      var last := |holds| - 1;
      DueItems(holds[..last], env) +
      if Due(holds[last], env.now) && last !in env.skip then [OrderedQuery.Item(last, OrderedQuery.At(holds[last].expiresAt.value), 0)] else []
  }

  const EXPIRED := "expired"

  function SetOf(ids: seq<nat>): set<nat> {
    set i | i in ids
  }

  /** The batch update of the hold rows. */
  function ExpireHolds(holds: seq<Hold>, ids: set<nat>): (r: seq<Hold>)
    ensures |r| == |holds|
    ensures forall i :: 0 <= i < |r| ==>
              r[i] == if i in ids && holds[i].status == Active
                      then holds[i].(status := Expired, releaseReason := Some(EXPIRED)) else holds[i]
  {
    seq(|holds|, i requires 0 <= i < |holds| =>
      if i in ids && holds[i].status == Active
      then holds[i].(status := Expired, releaseReason := Some(EXPIRED)) else holds[i])
  }

  /** How much of account `k` the listed holds give back: the per-account grouping of the scan. */
  function FreedOn(holds: seq<Hold>, ids: seq<nat>, k: AccountKey): int
    requires forall i :: 0 <= i < |ids| ==> ids[i] < |holds|
  {
    if ids == [] then 0
    else
      var i := ids[|ids| - 1];
      FreedOn(holds, ids[..|ids| - 1], k) + if holds[i].account == k then holds[i].amount else 0
  }

  function FreeAll(t: Tables, ids: seq<nat>): Tables
    requires forall i :: 0 <= i < |ids| ==> ids[i] < |t.holds|
  {
    t.(accounts := map k | k in t.accounts ::
                     t.accounts[k].(inFlight := t.accounts[k].inFlight - FreedOn(t.holds, ids, k)),
       holds := ExpireHolds(t.holds, SetOf(ids)))
  }

  function ScanChosen(t: Tables, limit: nat, env: Env): seq<nat> {
    OrderedQuery.FirstIds(DueItems(t.holds, env), limit)
  }

  function ScanTx(t: Tables, limit: nat, env: Env): (Tables, TxEnd) {
    var ids := ScanChosen(t, limit, env);
    if exists i :: 0 <= i < |ids| && (ids[i] >= |t.holds| || t.holds[ids[i]].account !in t.accounts)
    then (t, Failed(InternalError))
    else (FreeAll(t, ids), Committed(ScanReceipt(|ids|), false))
  }

  // ---- credit line and freeze ----

  function LimitPosting(c: Command): Posting
    requires c.SetCreditLimit?
  {
    Posting(Header(CreditLineKind, c.ref, FingerprintOf(c)).(creditLimitAfter := Some(c.amount)),
            [PostingLeg(UserKey(c.userId, c.currency), c.currency, 0)])
  }

  function LimitTx(t: Tables, c: Command): (Tables, TxEnd)
    requires c.SetCreditLimit?
  {
    var k := UserKey(c.userId, c.currency);
    var ready := t.(accounts := Open(t.accounts, k));
    var a := ready.accounts[k];
    if a.frozen then (t, Failed(AccountFrozen))
    else if a.balance + c.amount - a.inFlight < 0 then (t, Failed(CreditLimitConflict))
    else
      var p := LimitPosting(c);
      var end := SubmitEnd(ready, p, {k}, LimitReceipt(|t.transactions|, c.amount));
      if !end.Committed? then (t, end)
      else
        var posted := Post(ready, p);
        (posted.(accounts := posted.accounts[k := AccountAt(posted.accounts, k).(creditLimit := c.amount)]), end)
  }

  function SetFrozen(accounts: map<AccountKey, Account>, keys: seq<AccountKey>, frozen: bool): map<AccountKey, Account> {
    map k | k in accounts :: if k in keys then accounts[k].(frozen := frozen) else accounts[k]
  }

  function FreezePosting(c: Command, first: AccountKey): Posting
    requires c.Freeze?
  {
    Posting(Header(FreezeKind, c.ref, FingerprintOf(c)).(frozenAfter := Some(c.frozen)),
            [PostingLeg(first, c.currency, 0)])
  }

  function FreezeTx(cfg: Config, t: Tables, c: Command): (Tables, TxEnd)
    requires c.Freeze?
  {
    var ready := t.(accounts := OpenSide(cfg, t.accounts, c.target, c.currency));
    var keys := SideKeys(ready.accounts, c.target, c.currency);
    if keys == [] then (t, Failed(InternalError))
    else
      var p := FreezePosting(c, keys[0]);
      var end := SubmitEnd(ready, p, (set k | k in keys), FreezeReceipt(|t.transactions|, c.frozen));
      if !end.Committed? then (t, end)
      else
        var posted := Post(ready, p);
        (posted.(accounts := SetFrozen(posted.accounts, keys, c.frozen)), end)
  }

  // ---- transfer ----

  function SideTotal(accounts: map<AccountKey, Account>, keys: seq<AccountKey>): int {
    if keys == [] then 0 else SideTotal(accounts, keys[..|keys| - 1]) + AccountAt(accounts, keys[|keys| - 1]).balance
  }

  function Min(a: int, b: int): int { if a <= b then a else b }
  function Max(a: int, b: int): int { if a <= b then b else a }

  /** What a shard can give towards `remaining`: never more than it has, never a negative amount. */
  function Take(balance: int, remaining: int): int {
    Min(Max(balance, 0), remaining)
  }

  /** What is still missing after the shards of `order` have given what they can. */
  function Missing(accounts: map<AccountKey, Account>, order: seq<AccountKey>, amount: int): int {
    if order == [] then amount
    else
      var rest := Missing(accounts, order[..|order| - 1], amount);
      rest - Take(AccountAt(accounts, order[|order| - 1]).balance, rest)
  }

  /** The debit of account `k` when the shards are drained in `order`. */
  function DebitOf(accounts: map<AccountKey, Account>, order: seq<AccountKey>, amount: int, k: AccountKey): int {
    if order == [] then 0
    else
      var last := |order| - 1;
      if order[last] == k then Take(AccountAt(accounts, k).balance, Missing(accounts, order[..last], amount))
      else DebitOf(accounts, order[..last], amount, k)
  }

  /** Draining starts at the shard the reference prefers and wraps around. */
  function Rotated(keys: seq<AccountKey>, start: nat): seq<AccountKey> {
    if start <= |keys| then keys[start..] + keys[..start] else keys
  }

  datatype Side = Side(keys: seq<AccountKey>, isUser: bool)

  function SideOf(accounts: map<AccountKey, Account>, a: AccountRef, currency: string): Side {
    Side(SideKeys(accounts, a, currency), a.ToUser?)
  }

  function DebitLegs(accounts: map<AccountKey, Account>, from: Side, amount: int, preferred: nat): (r: seq<PostingLeg>)
    ensures |r| == |from.keys|
    ensures forall i :: 0 <= i < |r| ==>
              r[i] == PostingLeg(from.keys[i], from.keys[i].currency,
                                 if from.isUser then -amount
                                 else -DebitOf(accounts, Rotated(from.keys, preferred), amount, from.keys[i]))
  {
    seq(|from.keys|, i requires 0 <= i < |from.keys| =>
      PostingLeg(from.keys[i], from.keys[i].currency,
                 if from.isUser then -amount
                 else -DebitOf(accounts, Rotated(from.keys, preferred), amount, from.keys[i])))
  }

  function CreditLegs(to: Side, amount: int, preferred: nat): (r: seq<PostingLeg>)
    ensures |r| == |to.keys|
    ensures forall i :: 0 <= i < |r| ==>
              r[i] == PostingLeg(to.keys[i], to.keys[i].currency,
                                 if i == (if to.isUser then 0 else preferred) then amount else 0)
  {
    seq(|to.keys|, i requires 0 <= i < |to.keys| =>
      PostingLeg(to.keys[i], to.keys[i].currency, if i == (if to.isUser then 0 else preferred) then amount else 0))
  }

  function TransferAvailable(accounts: map<AccountKey, Account>, from: Side, cashOnly: bool): int
    requires from.keys != []
  {
    if from.isUser then Available(AccountAt(accounts, from.keys[0]), true, cashOnly) else SideTotal(accounts, from.keys)
  }

  /** The error of a transfer that cannot be covered, or nothing. */
  function TransferShortfall(accounts: map<AccountKey, Account>, from: Side, c: Command, preferred: nat): Option<Error>
    requires c.Transfer? && from.keys != []
  {
    if TransferAvailable(accounts, from, c.cashOnly) < c.amount then
      Some(if from.isUser && c.cashOnly then InsufficientCash else InsufficientBalance)
    else if !from.isUser && Missing(accounts, Rotated(from.keys, preferred), c.amount) != 0 then
      Some(InsufficientBalance)
    else None
  }

  function TransferPosting(accounts: map<AccountKey, Account>, c: Command, from: Side, to: Side, preferred: nat): Posting
    requires c.Transfer?
  {
    Posting(Header(TransferKind, c.ref, FingerprintOf(c)),
            DebitLegs(accounts, from, c.amount, preferred) + CreditLegs(to, c.amount, preferred))
  }

  /** Both sides opened: a user account each, or every shard of a code. */
  function OpenBoth(cfg: Config, accounts: map<AccountKey, Account>, c: Command): map<AccountKey, Account>
    requires c.Transfer?
  {
    OpenSide(cfg, OpenSide(cfg, accounts, c.from, c.fromCurrency), c.to, c.toCurrency)
  }

  function TransferTx(cfg: Config, t: Tables, c: Command): (Tables, TxEnd)
    requires c.Transfer?
    requires cfg.Valid()
  {
    var accounts := OpenBoth(cfg, t.accounts, c);
    if c.fromCurrency != c.toCurrency then (t, Failed(CurrencyMismatch))
    else
      var ready := t.(accounts := accounts);
      var from := SideOf(accounts, c.from, c.fromCurrency);
      var to := SideOf(accounts, c.to, c.toCurrency);
      if AnyFrozen(accounts, from.keys + to.keys) then (t, Failed(AccountFrozen))
      else if from.keys == [] || to.keys == [] then (t, Failed(InternalError))
      else
        var preferred := ShardOf(cfg, c.ref);
        var shortfall := TransferShortfall(accounts, from, c, preferred);
        if shortfall.Some? then (t, Failed(shortfall.value))
        else
          var p := TransferPosting(accounts, c, from, to, preferred);
          var receipt := TransferReceipt(|t.transactions|, c.amount, SideTotal(accounts, from.keys) - c.amount,
                                         SideTotal(accounts, to.keys) + c.amount);
          var end := SubmitEnd(ready, p, (set k | k in from.keys + to.keys), receipt);
          (if end.Committed? then Post(ready, p) else t, end)
  }

  // ---- identity of a command, and reading a stored one back ----

  function FingerprintOf(c: Command): Fingerprint
    requires !c.ReleaseExpired?
  {
    match c
    case Credit(u, cur, a, cp, _, m) => MoveFingerprint(CreditKind, u, cur, a, cp, m)
    case Refund(u, cur, a, cp, _, m) => MoveFingerprint(RefundKind, u, cur, a, cp, m)
    case Authorize(u, cur, a, _, e, cash, m) => HoldFingerprint(u, cur, a, e, cash, m)
    case Settle(_, a, cp, m) => SettleFingerprint(a, cp, m)
    case Release(_, r) => ReleaseFingerprint(r)
    case SetCreditLimit(u, cur, a, _, m) => LimitFingerprint(u, cur, a, m)
    case Freeze(target, cur, f, _, m) => FreezeFingerprint(target, cur, f, m)
    case Transfer(f, fc, to, tc, a, cash, _, m) => TransferFingerprint(f, fc, to, tc, a, cash, m)
  }

  function OwnLeg(legs: seq<Leg>, k: AccountKey): (r: Option<Leg>)
    ensures r.Some? ==> r.value in legs && r.value.account == k
    ensures r.None? ==> forall g :: g in legs ==> g.account != k
  {
    if legs == [] then None
    else if legs[0].account == k then Some(legs[0]) else OwnLeg(legs[1..], k)
  }

  /** The legs of a transaction that lie on the named account, over all its shards. */
  predicate OnSide(k: AccountKey, a: AccountRef, currency: string) {
    k.currency == currency && match a
                              case ToUser(u) => k.owner == User(u)
                              case ToCode(code) => k.owner.Internal? && k.owner.code == code
  }

  function SideLegs(legs: seq<Leg>, a: AccountRef, currency: string): seq<Leg> {
    if legs == [] then []
    else
      var last := |legs| - 1;
      SideLegs(legs[..last], a, currency) + if OnSide(legs[last].account, a, currency) then [legs[last]] else []
  }

  function AfterSum(legs: seq<Leg>): int {
    if legs == [] then 0 else AfterSum(legs[..|legs| - 1]) + legs[|legs| - 1].after
  }

  function Abs(x: int): int { if x < 0 then -x else x }

  /** The account whose leg a freeze replay looks for: the lowest shard of a code. */
  function FirstKey(a: AccountRef, currency: string): AccountKey {
    match a
    case ToUser(u) => UserKey(u, currency)
    case ToCode(code) => ShardKey(code, 0, currency)
  }

  function Checked(stored: Fingerprint, c: Command, r: Receipt): Outcome
    requires !c.ReleaseExpired?
  {
    if stored != FingerprintOf(c) then Rejected(IdempotencyConflict) else Done(r, true)
  }

  function MoveReadback(t: Tables, x: nat, c: Command): Outcome
    requires c.Credit? || c.Refund?
    requires x < |t.transactions|
  {
    match OwnLeg(LegsOf(t.legs, x), UserKey(c.userId, c.currency))
    case None => Rejected(RefKeyConflict)
    case Some(g) => Checked(t.transactions[x].fingerprint, c, MoveReceipt(x, Abs(g.amount), g.after))
  }

  function LimitReadback(t: Tables, x: nat, c: Command): Outcome
    requires c.SetCreditLimit?
    requires x < |t.transactions|
  {
    var h := t.transactions[x];
    if OwnLeg(LegsOf(t.legs, x), UserKey(c.userId, c.currency)).None? then Rejected(RefKeyConflict)
    else Checked(h.fingerprint, c, LimitReceipt(x, if h.creditLimitAfter.Some? then h.creditLimitAfter.value else 0))
  }

  function FreezeReadback(t: Tables, x: nat, c: Command): Outcome
    requires c.Freeze?
    requires x < |t.transactions|
  {
    var h := t.transactions[x];
    if OwnLeg(LegsOf(t.legs, x), FirstKey(c.target, c.currency)).None? then Rejected(RefKeyConflict)
    else if h.fingerprint != FingerprintOf(c) then Rejected(IdempotencyConflict)
    else if h.frozenAfter.None? then Rejected(InternalError)
    else Done(FreezeReceipt(x, h.frozenAfter.value), true)
  }

  function TransferReadback(t: Tables, x: nat, c: Command): Outcome
    requires c.Transfer?
    requires x < |t.transactions|
  {
    var legs := LegsOf(t.legs, x);
    var from := SideLegs(legs, c.from, c.fromCurrency);
    var to := SideLegs(legs, c.to, c.toCurrency);
    if from == [] || to == [] || AmountSum(from) >= 0 || AmountSum(to) != -AmountSum(from) then Rejected(RefKeyConflict)
    else Checked(t.transactions[x].fingerprint, c, TransferReceipt(x, AmountSum(to), AfterSum(from), AfterSum(to)))
  }

  function HoldReadback(t: Tables, i: nat, c: Command): Outcome
    requires c.Authorize?
    requires i < |t.holds|
  {
    var h := t.holds[i];
    if h.account != UserKey(c.userId, c.currency) then Rejected(RefKeyConflict)
    else Checked(h.fingerprint, c, HoldReceipt(i, h.amount, h.status, h.expiresAt))
  }

  /** Commands whose first effect is found again through a unique key before anything else is done. */
  predicate Keyed(c: Command) {
    !(c.Settle? || c.Release? || c.ReleaseExpired?)
  }

  function KindOf(c: Command): Kind
    requires Keyed(c) && !c.Authorize?
  {
    match c
    case Credit(_, _, _, _, _, _) => CreditKind
    case Refund(_, _, _, _, _, _) => RefundKind
    case SetCreditLimit(_, _, _, _, _) => CreditLineKind
    case Freeze(_, _, _, _, _) => FreezeKind
    case Transfer(_, _, _, _, _, _, _, _) => TransferKind
  }

  /** The row a keyed command already left, if any. */
  function PriorOf(t: Tables, c: Command): (r: Option<nat>)
    requires Keyed(c)
    ensures r.Some? ==> r.value < if c.Authorize? then |t.holds| else |t.transactions|
  {
    if c.Authorize? then FindHold(t.holds, c.ref) else FindTx(t.transactions, c.ref, KindOf(c))
  }

  /** Reading the first effect of a keyed command back as a receipt, with the ownership and fingerprint checks. */
  function Readback(t: Tables, c: Command): Outcome
    requires Keyed(c)
  {
    match PriorOf(t, c)
    case None => Rejected(InternalError)
    case Some(x) =>
      match c
      case Credit(_, _, _, _, _, _) => MoveReadback(t, x, c)
      case Refund(_, _, _, _, _, _) => MoveReadback(t, x, c)
      case Authorize(_, _, _, _, _, _, _) => HoldReadback(t, x, c)
      case SetCreditLimit(_, _, _, _, _) => LimitReadback(t, x, c)
      case Freeze(_, _, _, _, _) => FreezeReadback(t, x, c)
      case Transfer(_, _, _, _, _, _, _, _) => TransferReadback(t, x, c)
  }

  /** Rejections that read nothing: malformed amounts, limits out of range, a transfer to oneself. */
  function Malformed(c: Command): Option<Error> {
    match c
    case SetCreditLimit(_, _, a, _, _) => if a < 0 then Some(InvalidAmount) else None
    case ReleaseExpired(limit) => if limit < 1 || limit > 1000 then Some(InvalidInput) else None
    case Transfer(f, fc, to, tc, a, _, _, _) =>
      if a <= 0 then Some(InvalidAmount)
      else if f == to && fc == tc then Some(SameAccountTransfer)
      else None
    case Freeze(_, _, _, _, _) => None
    case Release(_, _) => None
    case _ => if c.amount <= 0 then Some(InvalidAmount) else None
  }

  // ---- the three atomic steps of a call, and their composition ----

  function FastPath(t: Tables, c: Command): Option<Outcome> {
    if Malformed(c).Some? then Some(Rejected(Malformed(c).value))
    else if Keyed(c) && PriorOf(t, c).Some? then Some(Readback(t, c))
    else None
  }

  function TxStep(cfg: Config, t: Tables, c: Command, env: Env): (Tables, TxEnd)
    requires cfg.Valid() && Malformed(c).None?
  {
    match c
    case Credit(_, _, _, _, _, _) => MoveTx(cfg, t, c)
    case Refund(_, _, _, _, _, _) => MoveTx(cfg, t, c)
    case Authorize(_, _, _, _, _, _, _) => AuthorizeTx(t, c)
    case Settle(_, _, _, _) => SettleTx(cfg, t, c, env)
    case Release(_, _) => ReleaseTx(t, c)
    case ReleaseExpired(limit) => ScanTx(t, limit, env)
    case SetCreditLimit(_, _, _, _, _) => LimitTx(t, c)
    case Freeze(_, _, _, _, _) => FreezeTx(cfg, t, c)
    case Transfer(_, _, _, _, _, _, _, _) => TransferTx(cfg, t, c)
  }

  function EndOutcome(t: Tables, c: Command, end: TxEnd): Outcome {
    match end
    case Committed(r, replayed) => Done(r, replayed)
    case Failed(e) => Rejected(e)
    case Conflict => if Keyed(c) then Readback(t, c) else Rejected(InternalError)
  }

  function Step(cfg: Config, t: Tables, c: Command, env: Env): (Tables, Outcome)
    requires cfg.Valid()
  {
    match FastPath(t, c)
    case Some(o) => (t, o)
    case None =>
      var (t', end) := TxStep(cfg, t, c, env);
      (t', EndOutcome(t', c, end))
  }
}
