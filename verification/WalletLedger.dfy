/** The reference ledger: one account per name, no shards, no legs, and an archive of receipts.

    It says in the plainest terms what the wallet promises: who pays whom, when a command is rejected, and that
    a repeated command gets its first receipt back. */
module WalletLedger {
  import opened Options
  import opened WalletTypes
  import opened WalletTables
  import WalletSpec
  import OrderedQuery

  datatype Name = Name(who: AccountRef, currency: string)

  datatype Entry =
    | Moved(txId: nat, userId: nat, currency: string, amount: int, balanceAfter: int, fingerprint: Fingerprint)
    | LimitSet(txId: nat, userId: nat, currency: string, limit: int, fingerprint: Fingerprint)
    | FrozenSet(txId: nat, target: AccountRef, currency: string, frozen: bool, fingerprint: Fingerprint)
    | Transferred(txId: nat, from: Name, to: Name, amount: int, fromAfter: int, toAfter: int, fingerprint: Fingerprint)
    | Settlement(txId: nat, holdId: nat, holder: AccountKey, balanceAfter: int, fingerprint: Fingerprint)

  datatype Ledger = Ledger(accounts: map<Name, Account>, archive: map<(Ref, Kind), Entry>, holds: seq<Hold>, next: nat) {
    function At(who: AccountRef, currency: string): Account {
      if Name(who, currency) in accounts then accounts[Name(who, currency)] else OPENED
    }

    function Set(who: AccountRef, currency: string, a: Account): Ledger {
      this.(accounts := accounts[Name(who, currency) := a])
    }

    function Pay(who: AccountRef, currency: string, amount: int): Ledger {
      Set(who, currency, At(who, currency).(balance := At(who, currency).balance + amount))
    }

    function File(ref: Ref, kind: Kind, e: Entry): Ledger {
      this.(archive := archive[(ref, kind) := e], next := next + 1)
    }
  }

  const EMPTY_LEDGER := Ledger(map[], map[], [], 0)

  function Answer(e: Entry, owned: bool, c: Command, r: Receipt): Outcome
    requires !c.ReleaseExpired?
  {
    if !owned then Rejected(RefKeyConflict)
    else if e.fingerprint != WalletSpec.FingerprintOf(c) then Rejected(IdempotencyConflict)
    else Done(r, true)
  }

  /** The answer to a command whose key already has an entry: its first receipt, or a conflict. */
  function Repeat(e: Entry, c: Command): Outcome
    requires WalletSpec.Keyed(c) && !c.Authorize?
  {
    match e
    case Moved(x, u, cur, a, after, f) =>
      if c.Credit? || c.Refund? then Answer(e, u == c.userId && cur == c.currency, c, MoveReceipt(x, a, after))
      else Rejected(InternalError)
    case LimitSet(x, u, cur, limit, f) =>
      if c.SetCreditLimit? then Answer(e, u == c.userId && cur == c.currency, c, LimitReceipt(x, limit))
      else Rejected(InternalError)
    case FrozenSet(x, target, cur, frozen, f) =>
      if c.Freeze? then Answer(e, target == c.target && cur == c.currency, c, FreezeReceipt(x, frozen))
      else Rejected(InternalError)
    case Transferred(x, from, to, a, fromAfter, toAfter, f) =>
      if c.Transfer? then
        Answer(e, from == Name(c.from, c.fromCurrency) && to == Name(c.to, c.toCurrency), c,
               TransferReceipt(x, a, fromAfter, toAfter))
      else Rejected(InternalError)
    case Settlement(_, _, _, _, _) => Rejected(InternalError)
  }

  /** Money between a user and a code: in for a credit, out for a refund. */
  function Move(l: Ledger, c: Command): (Ledger, Outcome)
    requires c.Credit? || c.Refund?
  {
    var signed := if c.Credit? then c.amount else -c.amount;
    var user, other := l.At(ToUser(c.userId), c.currency), l.At(ToCode(c.counterparty), c.currency);
    if user.frozen || other.frozen then (l, Rejected(AccountFrozen))
    else if c.Refund? && user.balance + user.creditLimit - user.inFlight < c.amount then (l, Rejected(InsufficientBalance))
    else
      var e := Moved(l.next, c.userId, c.currency, c.amount, user.balance + signed, WalletSpec.FingerprintOf(c));
      (l.Pay(ToUser(c.userId), c.currency, signed).Pay(ToCode(c.counterparty), c.currency, -signed)
        .File(c.ref, if c.Credit? then CreditKind else RefundKind, e),
       Done(MoveReceipt(l.next, c.amount, user.balance + signed), false))
  }

  function Place(l: Ledger, c: Command): (Ledger, Outcome)
    requires c.Authorize?
  {
    var a := l.At(ToUser(c.userId), c.currency);
    if a.frozen then (l, Rejected(AccountFrozen))
    else if a.balance + (if c.cashOnly then 0 else a.creditLimit) - a.inFlight < c.amount then
      (l, Rejected(if c.cashOnly then InsufficientCash else InsufficientBalance))
    else
      var h := Hold(UserKey(c.userId, c.currency), c.ref, c.amount, Active, None, None, c.expiresAt,
                    WalletSpec.FingerprintOf(c), None);
      (l.Set(ToUser(c.userId), c.currency, a.(inFlight := a.inFlight + c.amount)).(holds := l.holds + [h]),
       Done(HoldReceipt(|l.holds|, c.amount, Active, c.expiresAt), false))
  }

  function HolderOf(h: Hold): AccountRef {
    if h.account.owner.User? then ToUser(h.account.owner.userId) else ToCode(h.account.owner.code)
  }

  /** A hold gives its whole in-flight share back, whatever becomes of it. */
  function Unhold(l: Ledger, i: nat, h: Hold): Ledger
    requires i < |l.holds|
  {
    var was := l.holds[i];
    var a := l.At(HolderOf(was), was.account.currency);
    l.Set(HolderOf(was), was.account.currency, a.(inFlight := a.inFlight - was.amount)).(holds := l.holds[i := h])
  }

  function SettleHold(l: Ledger, c: Command, env: WalletSpec.Env): (Ledger, Outcome)
    requires c.Settle?
  {
    match FindHold(l.holds, c.ref)
    case None => (l, Rejected(AuthorizationNotFound))
    case Some(i) =>
      var h := l.holds[i];
      var currency := h.account.currency;
      if h.status == Settled then
        if (h.ref, SettleKind) !in l.archive || !l.archive[(h.ref, SettleKind)].Settlement? || h.settledAmount.None? then
          (l, Rejected(InternalError))
        else
          var e := l.archive[(h.ref, SettleKind)];
          (l, Answer(e, true, c, SettleReceipt(i, h.settledAmount.value, e.balanceAfter, h.amount - h.settledAmount.value)))
      else if h.status != Active then (l, Rejected(AuthorizationNotActive))
      else if h.expiresAt.Some? && h.expiresAt.value <= env.now then (l, Rejected(AuthorizationNotActive))
      else if c.amount > h.amount then (l, Rejected(SettleExceedsHold))
      else if l.At(HolderOf(h), currency).frozen || l.At(ToCode(c.counterparty), currency).frozen then
        (l, Rejected(AccountFrozen))
      else
        var after := l.At(HolderOf(h), currency).balance - c.amount;
        (Unhold(l, i, h.(status := Settled, settledAmount := Some(c.amount)))
          .Pay(HolderOf(h), currency, -c.amount).Pay(ToCode(c.counterparty), currency, c.amount)
          .File(c.ref, SettleKind, Settlement(l.next, i, h.account, after, WalletSpec.FingerprintOf(c))),
         Done(SettleReceipt(i, c.amount, after, h.amount - c.amount), false))
  }

  function ReleaseOne(l: Ledger, c: Command): (Ledger, Outcome)
    requires c.Release?
  {
    match FindHold(l.holds, c.ref)
    case None => (l, Rejected(AuthorizationNotFound))
    case Some(i) =>
      var h := l.holds[i];
      var f := WalletSpec.FingerprintOf(c);
      match h.status
      case Active =>
        (Unhold(l, i, h.(status := Released, releaseReason := Some(c.reason), releaseFingerprint := Some(f))),
         Done(ReleaseReceipt(i, h.amount, c.reason), false))
      case Settled => (l, Rejected(AuthorizationNotActive))
      case _ =>
        if h.status == Released && h.releaseFingerprint.Some? && h.releaseFingerprint != Some(f) then
          (l, Rejected(IdempotencyConflict))
        else
          (l, Done(ReleaseReceipt(i, h.amount, if h.releaseReason.Some? then h.releaseReason.value else c.reason), true))
  }

  /** Expiring holds one at a time. */
  function ExpireEach(l: Ledger, ids: seq<nat>): (r: Ledger)
    requires forall i :: 0 <= i < |ids| ==> ids[i] < |l.holds|
    ensures |r.holds| == |l.holds|
  {
    if ids == [] then l
    else
      var m := ExpireEach(l, ids[..|ids| - 1]);
      var i := ids[|ids| - 1];
      Unhold(m, i, m.holds[i].(status := Expired, releaseReason := Some(WalletSpec.EXPIRED)))
  }

  function ExpireDue(l: Ledger, limit: nat, env: WalletSpec.Env): (Ledger, Outcome) {
    var ids := OrderedQuery.FirstIds(WalletSpec.DueItems(l.holds, env), limit);
    if exists i :: 0 <= i < |ids| && ids[i] >= |l.holds| then (l, Rejected(InternalError))
    else (ExpireEach(l, ids), Done(ScanReceipt(|ids|), false))
  }

  function Grant(l: Ledger, c: Command): (Ledger, Outcome)
    requires c.SetCreditLimit?
  {
    var a := l.At(ToUser(c.userId), c.currency);
    if a.frozen then (l, Rejected(AccountFrozen))
    else if a.balance + c.amount - a.inFlight < 0 then (l, Rejected(CreditLimitConflict))
    else
      (l.Set(ToUser(c.userId), c.currency, a.(creditLimit := c.amount))
        .File(c.ref, CreditLineKind, LimitSet(l.next, c.userId, c.currency, c.amount, WalletSpec.FingerprintOf(c))),
       Done(LimitReceipt(l.next, c.amount), false))
  }

  function SetStatus(l: Ledger, c: Command): (Ledger, Outcome)
    requires c.Freeze?
  {
    var a := l.At(c.target, c.currency);
    (l.Set(c.target, c.currency, a.(frozen := c.frozen))
      .File(c.ref, FreezeKind, FrozenSet(l.next, c.target, c.currency, c.frozen, WalletSpec.FingerprintOf(c))),
     Done(FreezeReceipt(l.next, c.frozen), false))
  }

  /** What a name can give: a user may use the credit limit, nobody may touch what is held. */
  function Spendable(l: Ledger, who: AccountRef, currency: string, cashOnly: bool): int {
    var a := l.At(who, currency);
    if who.ToCode? then a.balance else a.balance + (if cashOnly then 0 else a.creditLimit) - a.inFlight
  }

  function Hand(l: Ledger, c: Command): (Ledger, Outcome)
    requires c.Transfer?
  {
    var from, to := l.At(c.from, c.fromCurrency), l.At(c.to, c.toCurrency);
    if c.fromCurrency != c.toCurrency then (l, Rejected(CurrencyMismatch))
    else if from.frozen || to.frozen then (l, Rejected(AccountFrozen))
    else if Spendable(l, c.from, c.fromCurrency, c.cashOnly) < c.amount then
      (l, Rejected(if c.from.ToUser? && c.cashOnly then InsufficientCash else InsufficientBalance))
    else
      var e := Transferred(l.next, Name(c.from, c.fromCurrency), Name(c.to, c.toCurrency), c.amount,
                           from.balance - c.amount, to.balance + c.amount, WalletSpec.FingerprintOf(c));
      (l.Pay(c.from, c.fromCurrency, -c.amount).Pay(c.to, c.toCurrency, c.amount).File(c.ref, TransferKind, e),
       Done(TransferReceipt(l.next, c.amount, from.balance - c.amount, to.balance + c.amount), false))
  }

  /** The first run of a command that files an entry. */
  function First(l: Ledger, c: Command): (Ledger, Outcome)
    requires WalletSpec.Keyed(c) && !c.Authorize?
  {
    if c.SetCreditLimit? then Grant(l, c)
    else if c.Freeze? then SetStatus(l, c)
    else if c.Transfer? then Hand(l, c)
    else Move(l, c)
  }

  function PlaceOrRepeat(l: Ledger, c: Command): (Ledger, Outcome)
    requires c.Authorize?
  {
    match FindHold(l.holds, c.ref)
    case None => Place(l, c)
    case Some(i) =>
      var h := l.holds[i];
      if h.account != UserKey(c.userId, c.currency) then (l, Rejected(RefKeyConflict))
      else if h.fingerprint != WalletSpec.FingerprintOf(c) then (l, Rejected(IdempotencyConflict))
      else (l, Done(HoldReceipt(i, h.amount, h.status, h.expiresAt), true))
  }

  function Step(l: Ledger, c: Command, env: WalletSpec.Env): (Ledger, Outcome) {
    if WalletSpec.Malformed(c).Some? then (l, Rejected(WalletSpec.Malformed(c).value))
    else if c.Settle? then SettleHold(l, c, env)
    else if c.Release? then ReleaseOne(l, c)
    else if c.ReleaseExpired? then ExpireDue(l, c.limit, env)
    else if c.Authorize? then PlaceOrRepeat(l, c)
    else
      var key := (c.ref, WalletSpec.KindOf(c));
      if key in l.archive then (l, Repeat(l.archive[key], c)) else First(l, c)
  }
}
