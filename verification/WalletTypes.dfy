/** The four wallet tables and the vocabulary of its commands.
    Money is an integer count of 10^-18 units; a row's identity stands for its uuid. */
module WalletTypes {
  import opened Options

  datatype Kind = CreditKind | SettleKind | RefundKind | TransferKind | CreditLineKind | FreezeKind

  /** Kinds that leave one zero leg as an audit record. */
  predicate IsAudit(k: Kind) {
    k.CreditLineKind? || k.FreezeKind?
  }

  datatype Owner = User(userId: nat) | Internal(code: string, shard: nat)

  /** The unique indexes of the account table make this the identity of a row. */
  datatype AccountKey = AccountKey(owner: Owner, currency: string)

  datatype Account = Account(balance: int, inFlight: int, creditLimit: int, frozen: bool)

  const OPENED := Account(0, 0, 0, false)

  datatype Ref = Ref(refType: string, refId: string)

  /** An account as callers name it: the shard of an internal account is never theirs to choose. */
  datatype AccountRef = ToUser(userId: nat) | ToCode(code: string)

  /** The payload that is hashed into a command fingerprint; the hash is taken as injective. */
  datatype Fingerprint =
    | MoveFingerprint(kind: Kind, userId: nat, currency: string, amount: int, counterparty: string, memo: string)
    | HoldFingerprint(userId: nat, currency: string, amount: int, expiresAt: Option<int>, cashOnly: bool, memo: string)
    | SettleFingerprint(amount: int, counterparty: string, memo: string)
    | ReleaseFingerprint(reason: string)
    | LimitFingerprint(userId: nat, currency: string, amount: int, memo: string)
    | FreezeFingerprint(target: AccountRef, currency: string, frozen: bool, memo: string)
    | TransferFingerprint(from: AccountRef, fromCurrency: string, to: AccountRef, toCurrency: string,
                          amount: int, cashOnly: bool, memo: string)

  datatype Transaction = Transaction(kind: Kind, ref: Ref, fingerprint: Fingerprint,
                                     creditLimitAfter: Option<int>, frozenAfter: Option<bool>)

  datatype Leg = Leg(tx: nat, account: AccountKey, currency: string, amount: int, before: int, after: int)

  datatype HoldStatus = Active | Settled | Released | Expired

  datatype Hold = Hold(account: AccountKey, ref: Ref, amount: int, status: HoldStatus,
                       settledAmount: Option<int>, releaseReason: Option<string>, expiresAt: Option<int>,
                       fingerprint: Fingerprint, releaseFingerprint: Option<Fingerprint>)

  /** One database state. Transaction, leg and hold ids are positions in their tables. */
  datatype Tables = Tables(accounts: map<AccountKey, Account>, transactions: seq<Transaction>,
                           legs: seq<Leg>, holds: seq<Hold>)

  datatype Error =
    | InvalidInput | InvalidAmount | InsufficientBalance | InsufficientCash | CreditLimitConflict
    | AccountFrozen | SameAccountTransfer | CurrencyMismatch | InternalError
    | AuthorizationNotFound | AuthorizationNotActive | SettleExceedsHold
    | RefKeyConflict | IdempotencyConflict

  datatype Receipt =
    | MoveReceipt(txId: nat, amount: int, balanceAfter: int)
    | HoldReceipt(holdId: nat, amount: int, status: HoldStatus, expiresAt: Option<int>)
    | SettleReceipt(holdId: nat, settledAmount: int, balanceAfter: int, releasedRemainder: int)
    | ReleaseReceipt(holdId: nat, amount: int, reason: string)
    | ScanReceipt(released: nat)
    | LimitReceipt(txId: nat, creditLimit: int)
    | FreezeReceipt(txId: nat, frozen: bool)
    | TransferReceipt(txId: nat, amount: int, fromBalanceAfter: int, toBalanceAfter: int)

  datatype Outcome = Done(receipt: Receipt, replayed: bool) | Rejected(error: Error)

  datatype Command =
    | Credit(userId: nat, currency: string, amount: int, counterparty: string, ref: Ref, memo: string)
    | Refund(userId: nat, currency: string, amount: int, counterparty: string, ref: Ref, memo: string)
    | Authorize(userId: nat, currency: string, amount: int, ref: Ref, expiresAt: Option<int>,
                cashOnly: bool, memo: string)
    | Settle(ref: Ref, amount: int, counterparty: string, memo: string)
    | Release(ref: Ref, reason: string)
    | ReleaseExpired(limit: int)
    | SetCreditLimit(userId: nat, currency: string, amount: int, ref: Ref, memo: string)
    | Freeze(target: AccountRef, currency: string, frozen: bool, ref: Ref, memo: string)
    | Transfer(from: AccountRef, fromCurrency: string, to: AccountRef, toCurrency: string,
               amount: int, cashOnly: bool, ref: Ref, memo: string)

  const MAX_SHARDS: nat := 256

  /** The configured shard count and the digest that spreads references over the shards. */
  datatype Config = Config(shards: nat, digest: Ref -> nat) {
    predicate Valid() {
      1 <= shards <= MAX_SHARDS
    }
  }

  /** The same business reference always reaches the same shard. */
  function ShardOf(cfg: Config, ref: Ref): (k: nat)
    requires cfg.Valid()
    ensures k < cfg.shards
  {
    cfg.digest(ref) % cfg.shards
  }

  function UserKey(userId: nat, currency: string): AccountKey {
    AccountKey(User(userId), currency)
  }

  function ShardKey(code: string, shard: nat, currency: string): AccountKey {
    AccountKey(Internal(code, shard), currency)
  }

  function AccountAt(accounts: map<AccountKey, Account>, k: AccountKey): Account {
    if k in accounts then accounts[k] else OPENED
  }
}
