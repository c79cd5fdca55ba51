# Verified model of the AI gateway's money and identity kernels

The gateway keeps user money in a double-entry wallet, bills requests through an eight-state protocol of compare-and-set
statements, makes operator commands idempotent, and guards accounts with one-time codes. This project models those parts in
Dafny and proves what they promise: for all inputs, all runs and all interleavings.

Every operation that changes state is written twice. Once as a function from state to state and answer; once as a method
of a class that updates its fields statement by statement, in the order of the original, with rollback where a transaction
rolls back. The method is proved to compute the function, and the guarantees are proved about runs of the function.

- **The wallet** (`Wallet*.dfy`). Accounts, transactions, legs and holds are tables; internal accounts are spread over
  shards. `WalletSpec` gives each command as one transaction, `WalletLedger` a reference ledger with one account per
  name, an archive of receipts and no rows. The two share the checks on input (`Malformed`), what a command's key,
  kind and fingerprint are (`Keyed`, `KindOf`, `FingerprintOf`), and how due holds are listed (`DueItems`,
  `FirstIds`); accounts, postings, shards, drains, replays and errors are written independently. `WalletRuns` proves
  that the sharded tables refine the reference ledger over every run; `WalletGuarantees`, `WalletFreezing` and
  `WalletExpiry` draw the consequences; `WalletConcurrency` interleaves calls at the points where the original leaves
  and enters transactions, and `WalletRetries` follows a retry through such an interleaving, and `WalletInterleaving`
  states the guarantees there. Amounts are integers in units of 10^-18. `WalletService` is the class.
- **The request protocol** (`Billing*.dfy`). Any number of gateways, workers and operators issue guarded updates with
  their own clocks, crash, and come back. `BillingFencing` proves that a worker that lost its claim is fenced for ever and
  that a request is settled at most once; `BillingRecovery` compares the two forms of recovery.
- **Funding** (`Funding*.dfy`, `Allocation.dfy`). What a request reserves on a subscription, in the wallet and on a
  channel, in any interleaving with the protocol above: counters always agree with the rows they count, so only the
  wallet can make a release fail, and settlements fail only in ways a caller can foresee. `FundingRecovery` is the
  recovery worker's loop over these transactions, and `FundingQueue` its passes one after the other.
- **Canonical JSON and operations** (`Canonical*.dfy`, `Json*.dfy`, `Operations*.dfy`). Values are a heap with shared and cyclic
  references. Serialization is shown to be an exact key by a parser that undoes it. Runs of one operation contend for a
  blocking unique index.
- **Text, arithmetic, codes** (`Base32`, `MoneyDisplay`, `Search`, `Totp`, `Mfa`, `MfaDisabling`, `Challenge`).

Where the code does not do what its comments say, the model follows the code and a lemma gives the input:

- `recoverOneToReleased` is described as re-checking the recovery condition, but for authorized requests it does not look at
  the lease (`BillingRecovery.RecoverOneForgetsLease`); `FormsAgreeIff` says exactly when this matters and
  `ListedStaysExpired` why it does not in the service's use.
- The recovery loop is described as losing only the row that cannot be released. That holds within a pass
  (`FundingRecovery.EachFromItsOwnTurn`), but refused rows keep their place at the head of the list: a row is reached if
  fewer refused ones than the limit are ahead of it or tied with it, and never if as many are strictly ahead
  (`FundingQueue.ReachedIff`), so that one refused row can keep another waiting for ever
  (`FundingQueue.OneRefusedBlocksAnother`).
- Disabling a confirmed second factor is described as always needing a code. The row is looked at, and its secret read,
  without a lock, and later statements do not compare what was read. So a factor that is confirmed in between is deleted
  without a code (`MfaDisabling.DisabledWithoutCode`) or on a code of the secret before it
  (`MfaDisabling.DisabledByStaleCode`); `TakesUncodedIff` says for every run exactly when.
- When a pending secret is replaced, the old one is described as void. A confirmation under way still confirms the new one
  with a code of the old (`Mfa.StaleCodeConfirms`); `Mfa.ConfirmsSecretReadIff` says exactly when, and
  `Mfa.AcceptedForSecretReadIff` does so for the codes of a login.
- `canonicalJson` claims to refuse everything that is not plain JSON data, but it does not look at symbol-keyed and
  non-enumerable properties, at properties of an array besides its elements, at the class of an array, or at internal state
  behind the prototype of plain objects (`CanonicalKey.HiddenPropertiesAreDropped`). `AcceptedIsPlainIff` says for which
  accepted values the claim holds, `HiddenPropertiesAreIgnored` what happens for the others.
- `runOperation` promises a stored receipt for every committed operation. A caller that lends its own transaction can break
  this in two ways (`Operations.SwallowedFailureLosesReceipt`, `Operations.NestedRunReadsNothing`); `PromiseKeptIff` shows that
  over every interleaving these are the only two. What does not depend on the caller is stated without such duties.

## Model

| member | source | states |
|---|---|---|
| `WalletRuns.RunRefines` | packages/wallet/src/account.ts:70-103 | sharding is invisible: for every shard count and every run of commands, the sharded wallet gives the same acceptances, rejections and receipts as a ledger with one account per name, and each internal balance there is the sum of its shards here |
| `WalletRuns.StepRefines` | packages/wallet/src/wallet.ts:65-91 | one command, from any corresponding pair of states, answers alike and leaves corresponding states |
| `WalletRefinement.MoveRefines` | packages/wallet/src/credit.ts:15-102 | a credit or refund through one hashed shard is the same move in the one-account ledger, errors included |
| `WalletHoldRefinement.AuthorizeRefines` | packages/wallet/src/authorize.ts:64-104 | placing a hold reserves the same amount, or is refused for the same reason, in both |
| `WalletHoldRefinement.ReleaseRefines` | packages/wallet/src/release.ts:45-130 | releasing, its replay and its refusals agree with the reference ledger |
| `WalletHoldRefinement.SettleRefines` | packages/wallet/src/settle.ts:24-132 | settling on whichever shard, its replay and its refusals agree with the reference ledger |
| `WalletHoldRefinement.ScanRefines` | packages/wallet/src/release.ts:151-230 | a scan expires the holds that the reference ledger expires one by one, and reports the same count |
| `WalletHoldRefinement.BatchIsFold` | packages/wallet/src/release.ts:190-226 | grouped subtraction per account loses and invents nothing: the batch equals releasing the holds one at a time |
| `WalletHoldRefinement.ExpiryOrderIsIrrelevant` | packages/wallet/src/release.ts:195-226 | every order of the same holds ends in the state of the batch |
| `WalletTransferRefinement.LimitRefines` | packages/wallet/src/credit-line.ts:16-89 | changing a credit limit agrees with the reference ledger, exposure conflict included |
| `WalletTransferRefinement.FreezeRefines` | packages/wallet/src/freeze.ts:16-80 | freezing all shards of a code is freezing the one account of that code |
| `WalletTransferRefinement.TransferRefines` | packages/wallet/src/transfer.ts:21-116 | a transfer that drains and fills several shards is one move between two names |
| `WalletArchive.ReadbackIsRepeat` | packages/wallet/src/replay.ts:74-206 | a receipt read back from transaction and leg rows is the receipt first given, and a different owner or fingerprint is turned away |
| `WalletArchive.PostFiles` | packages/wallet/src/replay.ts:44-72 | what a posting writes is enough to read its receipt back, and spoils no older receipt |
| `WalletDrain.SecondGuardNeverFires` | packages/wallet/src/transfer-accounts.ts:87-115 | when the total of the shards covers the amount the drain finds all of it, so the second balance check is unreachable |
| `WalletDrain.DebitsAddUp` | packages/wallet/src/transfer-accounts.ts:104-112 | the debits over all shards add up to the amount less what is missing, from whichever shard the drain starts |
| `WalletDrain.DebitWithinBalance` | packages/wallet/src/transfer-accounts.ts:105-112 | no shard is drained below zero |
| `WalletDrain.DebitLegsTotal` | packages/wallet/src/transfer-accounts.ts:99-128 | the debit legs carry exactly minus the amount |
| `WalletAudit.RunKeepsInv` | packages/wallet/src/posting.ts:34-92 | every run keeps the books: chained legs, balances equal to their last leg, zero-sum transactions, in-flight equal to active holds, credit floors |
| `WalletGuarantees.AuditNeverFails` | packages/wallet/src/maintenance.ts:32-84 | after any run the audit finds nothing, every balance is the sum of its legs, and the balances of a currency sum to zero |
| `WalletGuarantees.FloorHolds` | packages/wallet/src/exposure.ts:12-61 | balance + credit limit - in flight is never negative for a user account |
| `WalletGuarantees.RejectedChangesNothing` | packages/wallet/src/internal.ts:46-68 | a rejected or replayed command leaves every table as it was |
| `WalletGuarantees.NoInternalError` | packages/wallet/src/posting.ts:40-67 | no run makes the kernel hit its own internal errors |
| `WalletInterleaving.AuditStaysClean` | packages/wallet/src/maintenance.ts:32-84 | the same under any interleaving of calls: a clean audit, balances equal to their legs, each currency summing to zero |
| `WalletInterleaving.FloorStays` | packages/wallet/src/exposure.ts:12-61 | the credit floor under any interleaving of calls |
| `WalletInterleaving.NoCallFailsInside` | packages/wallet/src/internal.ts:46-68 | under any interleaving no call is answered with the internal error: a transaction blocked by the unique index always finds the row that blocked it |
| `WalletInterleaving.SettledOrReleased` | packages/wallet/src/settle.ts:45-60 | under any interleaving a settlement and a release of one hold never both succeed, and a settled hold never expires |
| `WalletGuarantees.SettleNeedsOnlyItsHold` | packages/wallet/src/settle.ts:45-119 | settle takes effect if and only if its hold is active, unexpired and large enough and both accounts are unfrozen, and although it checks no balance it never breaks a credit floor |
| `WalletFreezing.FrozenAccountRejects` | packages/wallet/src/freeze.ts:41-63 | from an accepted freeze of a user account or an internal code until its unfreezing, no later credit, refund, hold, settlement, transfer or change of limit that touches it writes anything, on any shard; it is refused or answered from the archive |
| `WalletExpiry.ScansClearInCeil` | packages/wallet/src/release.ts:133-140 | n due holds are gone after k scans of limit L if and only if k >= ceil(n / L) |
| `WalletExpiry.ScanTakes` | packages/wallet/src/release.ts:164-188 | one scan takes as many due holds as the limit allows, reports that number and leaves the rest due |
| `WalletExpiry.OldestFirst` | packages/wallet/src/release.ts:185-187 | no due hold is passed over for one that expires later |
| `WalletConcurrency.AtMostOnce` | packages/wallet/src/authorize.ts:37-131 | under any interleaving of calls a business key changes state at most once, all calls that succeed under it name the same effect, and they carry one fingerprint (an expired hold, which any release may acknowledge, is the one exception) |
| `WalletConcurrency.OnlyEffectsChangeTables` | packages/wallet/src/credit.ts:51-99 | tables change only in a step that answers its call with a first, unreplayed success |
| `WalletRetries.RetriesReplay` | packages/wallet/src/authorize.ts:37-131 | a call that starts after another call with the same command has succeeded is answered with that effect, replayed, within two of its own turns and writes nothing, under any interleaving with any other calls |
| `WalletStatement.StatementIsExact` | packages/wallet/src/statement.ts:58-127 | handing the cursor of `statement` back lists every leg of the account that passes the kind filter exactly once, newest first and with its counterparties, whatever runs between the pages; a user without an account reads an empty statement |
| `WalletStatement.StatementPages` | packages/wallet/src/statement.ts:58-80 | for valid input a page is a page of the account's legs, account missing or not, and the cursor it returns is valid input |
| `WalletStatement.StatementContinues` | packages/wallet/src/legs.ts:8-30 | the lines of an account form one unbroken chain of balances, from zero to the current balance |
| `Paging.FollowIsExact` | packages/wallet/src/statement.ts:58-80 | cursor pages over a growing table list the rows that were there at the start, each once, newest first, and end after them |
| `Paging.PageIsNextStretch` | packages/wallet/src/statement.ts:119-127 | a page is the next stretch of rows and its cursor stands exactly at its last row |
| `Paging.FollowHas` | packages/ledger-core/src/operations.ts:196-213 | a reading lists a row if and only if it is visible in the table its page is read from |
| `Paging.LateRows` | packages/ledger-core/src/operations.ts:196-213 | of two rows that become visible between the pages, the one whose page is still to come is listed and the other one is not |
| `WalletService.Wallet.ResolveInternalAccounts` | packages/wallet/src/account.ts:70-103 | all shards of a code exist afterwards, none changed, listed in shard order |
| `WalletService.Wallet.LockAccounts` | packages/wallet/src/account.ts:142-173 | reads all rows or reports a frozen or missing one |
| `WalletService.Wallet.ApplyLeg` | packages/wallet/src/legs.ts:8-30 | appends the chained leg and moves exactly one balance |
| `WalletService.Wallet.CheckPosting` | packages/wallet/src/posting.ts:40-67 | the loop over the legs accepts exactly the postable ones: leg count, one currency, distinct locked accounts, zero sum, audit fields |
| `WalletService.Wallet.PostTransaction` | packages/wallet/src/posting.ts:34-92 | writes one header and its legs and nothing else, or reports a broken posting or a taken key |
| `WalletService.Wallet.PostSettlement` | packages/wallet/src/settle.ts:84-119 | posts the settled amount and gives back the whole in-flight amount |
| `WalletService.Wallet.CreditOrRefund` | packages/wallet/src/refund.ts:54-92 | the statements of a credit or refund have the effect and answer of its specification |
| `WalletService.Wallet.Authorize` | packages/wallet/src/authorize.ts:66-99 | the statements of an authorization have the effect and answer of its specification |
| `WalletService.Wallet.Settle` | packages/wallet/src/settle.ts:45-131 | claiming the hold, posting, and giving back the whole in-flight amount have the effect and answer of the specification |
| `WalletService.Wallet.Release` | packages/wallet/src/release.ts:54-101 | the statements of a release have the effect and answer of its specification |
| `WalletService.Wallet.GroupByAccount` | packages/wallet/src/release.ts:195-201 | the map built in the loop holds, per account, the sum of the chosen holds |
| `WalletService.Wallet.GiveBack` | packages/wallet/src/release.ts:214-224 | lowers each account's in-flight amount by its group and touches nothing else |
| `WalletService.Wallet.ScanExpired` | packages/wallet/src/release.ts:164-226 | the batched scan in place has the effect and answer of its specification |
| `WalletService.Wallet.SetCreditLimit` | packages/wallet/src/credit-line.ts:43-74 | the audit leg and the new limit, or the refusal |
| `WalletService.Wallet.SetAccountStatus` | packages/wallet/src/freeze.ts:38-71 | the audit leg and the new status of all shards, or the refusal |
| `WalletService.Wallet.Drain` | packages/wallet/src/transfer-accounts.ts:104-112 | the loop takes from each shard in turn what it can give, and returns what is missing |
| `WalletService.Wallet.BuildTransferPosting` | packages/wallet/src/transfer-accounts.ts:71-129 | the posting of a transfer, or the shortfall that stops it |
| `WalletService.Wallet.Transfer` | packages/wallet/src/transfer.ts:59-99 | the statements of a transfer have the effect and answer of its specification |
| `WalletService.Wallet.Execute` | packages/wallet/src/internal.ts:46-68 | a call in one transaction, with rollback and read-back, is one step of the specification; histories of such calls stay reachable |
| `WalletService.Wallet.VerifyInvariants` | packages/wallet/src/maintenance.ts:32-84 | the audit reports only real drift, all of it below its limit, is empty if and only if the books are clean, and is empty after every history |
| `BillingFencing.RevisionRises` | packages/repository/src/billing-request.repo.ts:147-168 | no statement lowers a revision, and every change of status raises it by one |
| `BillingFencing.AcceptedIff` | packages/repository/src/billing-request.repo.ts:307-337 | a worker can finish its claim if and only if nothing changed the status since and its lease runs |
| `BillingFencing.OneLiveTicket` | packages/repository/src/billing-request.repo.ts:247-285 | at no moment can two different claims of one request both be finished |
| `BillingFencing.FencedForever` | packages/repository/src/billing-request.repo.ts:495-532 | after any change of status the old claim can never settle, retry or kill the request, however long the run goes on |
| `BillingFencing.RefusedChangesNothing` | packages/repository/src/billing-request.repo.ts:339-372 | a finishing statement that misses its guard changes no row |
| `BillingFencing.SettledAtMostOnce` | packages/repository/src/billing-request.repo.ts:307-334 | over every run the number of accepted finalize statements for a request is one if it is settled and zero otherwise |
| `BillingFencing.EndStatesAreFinal` | packages/repository/src/billing-request.repo.ts:620-683 | a settled or released request keeps status, revision and settlement time for ever |
| `BillingFencing.RunKeepsGood` | packages/db/src/schema/billing-requests.ts:93-105 | every run keeps the table constraints, distinct keys and distinct claim tokens |
| `BillingRecovery.OnlyTransitionsAreRefused` | packages/db/src/schema/billing-requests.ts:98-105 | no statement of the repository except the generic transition can run into a table constraint |
| `BillingRecovery.TransitionRefusedIff` | packages/repository/src/billing-request.repo.ts:147-168 | exactly when the generic transition runs into one: it enters or leaves the claimed state, or lacks a receipt |
| `BillingRecovery.RowByRowIsBatch` | packages/repository/src/billing-request.repo.ts:419-492 | at one clock reading, listing and recovering row by row gives the table and the released set of the batch statement |
| `BillingRecovery.StartedIsNeverReleased` | packages/repository/src/billing-request.repo.ts:453-492 | recovery never releases an authorized request whose upstream has started |
| `BillingRecovery.RecoverOneForgetsLease` | packages/repository/src/billing-request.repo.ts:471-492 | a concrete authorized request with a running lease that the single-row form releases and the batch leaves alone |
| `BillingRecovery.FormsAgreeIff` | packages/repository/src/billing-request.repo.ts:471-492 | exactly when the two forms accept the same row |
| `BillingRecovery.ListedStaysExpired` | packages/repository/src/billing-request.repo.ts:453-468 | why the missing lease check is harmless after listing: the lease of a still authorized row never moves |
| `BillingRepository.BillingRequestRepository.InsertAuthorized` | packages/repository/src/billing-request.repo.ts:109-116 | one row per request id, or no change |
| `BillingRepository.BillingRequestRepository.CasTransition` | packages/repository/src/billing-request.repo.ts:147-168 | the guarded update, with its constraint refusal, is the protocol step |
| `BillingRepository.BillingRequestRepository.CasUpstreamStarted` | packages/repository/src/billing-request.repo.ts:179-202 | starting the upstream is the protocol step; the first start time is kept |
| `BillingRepository.BillingRequestRepository.CasClaimChannel` | packages/repository/src/billing-request.repo.ts:209-242 | the channel columns move only from the values the caller read |
| `BillingRepository.BillingRequestRepository.ClaimPending` | packages/repository/src/billing-request.repo.ts:247-285 | claims the first due rows in order under fresh tokens and hands out their tickets |
| `BillingRepository.BillingRequestRepository.RenewClaims` | packages/repository/src/billing-request.repo.ts:287-304 | extends exactly the running claims of this owner among the given tokens |
| `BillingRepository.BillingRequestRepository.CasFinalizeSettled` | packages/repository/src/billing-request.repo.ts:307-337 | settles under a matching claim, else changes nothing |
| `BillingRepository.BillingRequestRepository.CasToRetryOrDead` | packages/repository/src/billing-request.repo.ts:339-372 | schedules a retry or buries the request under a matching claim, else changes nothing |
| `BillingRepository.BillingRequestRepository.RecoverExpiredToReleased` | packages/repository/src/billing-request.repo.ts:419-446 | the batch recovery in place is the protocol step |
| `BillingRepository.BillingRequestRepository.RequeueExpiredClaims` | packages/repository/src/billing-request.repo.ts:495-512 | requeues the first expired claims in order |
| `BillingRepository.BillingRequestRepository.AbandonOwnedClaims` | packages/repository/src/billing-request.repo.ts:515-532 | requeues every claim of one owner |
| `BillingRepository.BillingRequestRepository.CasRetryDead` | packages/repository/src/billing-request.repo.ts:620-645 | revives a dead case at the revision the operator saw |
| `BillingRepository.BillingRequestRepository.CasAbandonDead` | packages/repository/src/billing-request.repo.ts:648-683 | releases a dead case at the revision the operator saw |
| `FundingRuns.CountersMatchRows` | packages/repository/src/subscription.repo.ts:60-118 | after every run a subscription has reserved what its active rows hold and used what the usage logs charge it, both within its quota; a channel has reserved what unfinished requests hold on it; a request holds what it was billed as reserving until it ends and nothing afterwards; a request has a usage log if and only if it is settled |
| `FundingRuns.EndingFailsIff` | packages/service/src/funding/release.ts:27-71 | after every run, failing, recovering or abandoning a request is answered in exactly three ways: not matched if the request is in the wrong state, refused if the wallet holds a part of it and refuses, and otherwise ended with everything given back, whatever happened to its subscription or channel |
| `FundingRuns.SettlingFailsIff` | packages/service/src/settlement/settle.ts:73-183 | after every run, a settlement with a valid claim fails if and only if the receipt does not decode or is not chargeable (another user, an unattributed estimate, another channel, a charge on a request that reserved nothing), or the claim runs out before the final statement, or the wallet refuses and it holds a part or must bear an overage |
| `FundingRuns.SettleGuardIff` | packages/repository/src/subscription.repo.ts:83-103 | for an active row the settlement guard passes if and only if the charge is at most its reservation plus what the subscription has left; the release guard always passes |
| `FundingRuns.PlanIsExact` | packages/service/src/funding/plan.ts:38-80 | a funded request reserves exactly what it asked for, wallet money only after the subscription is used up, and is refused if and only if all sources together fall short |
| `FundingRuns.RunKeepsBalanced` | packages/repository/src/billing-reservation.repo.ts:47-101 | every command, in any interleaving with the request protocol, keeps counters and rows in agreement |
| `FundingWallet.EndKeeps` | packages/service/src/funding/release.ts:27-71 | for either answer of the wallet, a statement that releases a request leaves balanced books |
| `FundingWallet.EndAnswers` | packages/service/src/funding/release.ts:47-62 | the same for either answer of the wallet: the only possible error is its refusal, and that exactly if it holds a part of the request |
| `FundingLaws.StaleViewChangesNothing` | packages/repository/src/billing-request.repo.ts:205-242 | a caller that read outdated channel columns changes nothing, so no exposure is orphaned or given back twice |
| `FundingLaws.FreshViewNeverFails` | packages/service/src/billing/reserve-channel.ts:35-147 | a caller with the right view meets no error, and is turned down if and only if the channel lacks the budget for what must still be set aside |
| `FundingLaws.ExposureMoves` | packages/service/src/billing/reserve-channel.ts:98-147 | switching channels moves exactly this request's exposure, and giving the old one back never misses |
| `FundingBalance.GuardsPassIff` | packages/repository/src/subscription.repo.ts:105-118 | where counters agree with rows, when the guards on an active row pass |
| `FundingWallet.SettleKeeps` | packages/service/src/settlement/settle.ts:73-183 | for either answer of the wallet, a settlement leaves balanced books |
| `FundingWallet.SettleAnswers` | packages/service/src/settlement/settle.ts:73-183 | from balanced books, when a settlement with a valid claim fails, for either answer of the wallet |
| `FundingWallet.ChargeNeedsWallet` | packages/service/src/settlement/settle.ts:127-146 | a charge needs the wallet if and only if the wallet holds a part of the request or the charge exceeds all that was reserved; without that need its refusal changes nothing |
| `Allocation.AllocationIsWaterfall` | packages/domain/src/billing/settle-allocation.ts:29-56 | each source pays what the earlier ones could not cover and never more than it reserved, only the fallback pays beyond, together they pay the charge exactly; refused if and only if there is no source for a positive charge |
| `Allocation.AllocateSettlement` | packages/domain/src/billing/settle-allocation.ts:29-56 | the loop with its running remainder computes that waterfall |
| `FundingService.FundingStore.ExpireLapsedSubscriptions` | packages/repository/src/subscription.repo.ts:184-195 | ends exactly the lapsed active subscriptions of the user |
| `FundingService.FundingStore.FindActiveRows` | packages/repository/src/billing-reservation.repo.ts:63-81 | the active rows of a request in id order, if its status is among the given ones |
| `FundingService.FundingStore.ReleaseAllReservations` | packages/service/src/funding/release.ts:27-71 | the loop over the rows, the sum check and the exposure have the effect or the error of the specification |
| `FundingService.FundingStore.ReleaseSource` | packages/service/src/funding/release.ts:47-62 | gives one row back to its source and marks it, or reports why not |
| `FundingService.FundingStore.SignalFailed` | packages/service/src/billing/signal.ts:139-168 | a failed request ends together with all it had reserved, or nothing changes |
| `FundingService.FundingStore.RecoverExpiredOne` | packages/service/src/settlement/recover.ts:58-80 | one recovered request ends together with all it had reserved, or nothing changes |
| `FundingService.FundingStore.ReleaseExpired` | packages/service/src/settlement/recover.ts:50-85 | the loop: one transaction for each listed request with its own clock reading and release of reservations, an error noted and the loop continued, has the effect and the two reports of its specification |
| `FundingService.FundingStore.RecoverRound` | packages/service/src/settlement/recover.ts:85-106 | the three parts of a round, each on what the one before left, with both counts |
| `FundingRecovery.EachFromItsOwnTurn` | packages/service/src/settlement/recover.ts:43-85 | after every run, and with any commands of others before each turn of a pass: a turn answers from the books it finds itself, releases its request exactly if that is still to be released and the wallet does not refuse, reports an error exactly if the wallet refuses, otherwise leaves the books alone, and writes no other request |
| `FundingRecovery.UntouchedIsReleased` | packages/service/src/settlement/recover.ts:43-85 | in such a pass a listed request that nobody touched since the listing is released unless the wallet refuses it |
| `FundingRecovery.PassGivesBack` | packages/service/src/settlement/recover.ts:58-80 | after a pass a released request holds nothing on any source and a refused one everything it was billed as reserving |
| `FundingRecovery.ProgressIff` | packages/service/src/settlement/recover.ts:50-85 | after every run, a pass releases something if and only if the wallet does not refuse every request it listed |
| `FundingQueue.ListedIsListing` | packages/repository/src/billing-request.repo.ts:453-468 | the listing that breaks ties by position is one of those the query may return: due requests, each once, as many as the limit allows, none with a later lease than a due one left out |
| `FundingQueue.ReachedIff` | packages/service/src/settlement/recover.ts:43-57 | after every run, with the wallet refusing a fixed set of requests and nothing else going on, for a due request that is not refused itself, and whichever way the query breaks ties in each pass: once there were more passes than requests ahead of it or tied with it, it is released if fewer of these than the limit of a list are refused, and it is untouched if at least that many are refused and strictly ahead; so, if no refused request is tied with it, it is released if and only if fewer refused requests than the limit are ahead of it |
| `FundingQueue.BlockedForGood` | packages/service/src/settlement/recover.ts:43-57 | with at least as many refused requests as the limit strictly ahead of it, no number of passes ever touches a request, whichever way ties fall |
| `FundingQueue.OneRefusedBlocksAnother` | packages/service/src/settlement/recover.ts:43-57 | the input that shows it: lists of one, two requests that the wallet funds, the older one refused; the younger one is never released, while two passes would do if it were not for the older one |
| `FundingQueue.TiesDecide` | packages/repository/src/billing-request.repo.ts:459-466 | the input between the two cases: of two requests with the same lease, one of them refused, a list of one may hold either; a pass over the refused one changes no row, a pass over the other releases it |
| `FundingRecovery.PassIsBatch` | packages/service/src/settlement/recover.ts:50-82 | at one clock reading, and if the wallet does its part, a pass leaves the request table of the single batch statement and counts its rows |
| `FundingService.FundingStore.AbandonDeadCase` | apps/admin-api/src/services/billing-review.service.ts:156-173 | an abandoned case ends together with all it had reserved, or nothing changes |
| `FundingService.FundingStore.CommitFunding` | packages/service/src/funding/commit.ts:10-29 | reserves each source and writes its row in order, or reports the first refusal |
| `FundingService.FundingStore.AuthorizeRequest` | packages/service/src/billing/authorize.ts:82-202 | row, bill and reservations together, or none of them |
| `FundingService.FundingStore.Reserve` | packages/service/src/billing/reserve-channel.ts:35-147 | increase, decrease, claim, in that order, rolled back together |
| `FundingService.FundingStore.SettleClaim` | packages/service/src/settlement/settle.ts:82-183 | the whole settlement transaction has the effect and answer of its specification |
| `FundingService.FundingStore.SettleSources` | packages/service/src/settlement/settle.ts:127-146 | the loop charges every source its share and sums up what the subscription is charged |
| `FundingService.FundingStore.Charge` | packages/service/src/settlement/settle.ts:105-163 | checks, charges and logs, or reports the first error |
| `CanonicalKey.SerializationIsExactKey` | packages/ledger-core/src/fingerprint.ts:18-106 | two accepted values have the same serialization if and only if they are equal up to key order, the sign of zero, and properties that serialization does not look at |
| `CanonicalKey.ParserUndoesSerialization` | packages/ledger-core/src/fingerprint.ts:18-106 | a parser reads every serialization back to the last unit |
| `CanonicalKey.SerializedIff` | packages/ledger-core/src/fingerprint.ts:99-105 | a value is serialized if and only if it reads as a tree whose text fits the length limit; other refusals are those of the first offending part |
| `CanonicalKey.ReadIffSafe` | packages/ledger-core/src/fingerprint.ts:28-98 | accepted values are exactly those in which what serialization visits (elements, enumerable string-keyed properties) is plain JSON data within the depth bound, without a repeated ancestor |
| `CanonicalKey.AcceptedIsPlainIff` | packages/ledger-core/src/fingerprint.ts:6-8 | an accepted value is plain JSON data throughout if and only if no object that it leads to has a property serialization does not look at, or is something else than the array or plain object it passes for |
| `CanonicalKey.StrictIsSafe` | packages/ledger-core/src/fingerprint.ts:28-98 | every value that is plain JSON data throughout, within the depth bound and without a repeated ancestor, is readable, so that only its length can be a reason to refuse it |
| `CanonicalKey.HiddenPropertiesAreIgnored` | packages/ledger-core/src/fingerprint.ts:64-88 | every value is serialized, or refused, as if all its objects were ordinary ones without such properties |
| `CanonicalKey.CyclesAreRefused` | packages/ledger-core/src/fingerprint.ts:56-59 | every cyclic value is refused, however long the cycle |
| `CanonicalKey.HiddenPropertiesAreDropped` | packages/ledger-core/src/fingerprint.ts:64-88 | the inputs that break the promise: an object with a symbol-keyed property, an array with a property besides its elements, an instance of a class that extends arrays, and a map with the prototype of plain objects share the keys of the empty object and array |
| `CanonicalWriter.WriteIsPrint` | packages/ledger-core/src/fingerprint.ts:24-97 | the recursive writer with its length counter prints the tree, and stops exactly when the limit is passed |
| `CanonicalJson.TreesAgree` | packages/ledger-core/src/fingerprint.ts:80-88 | sorting keys makes trees equal exactly for values equal up to key order |
| `JsonTree.ParsePrint` | packages/ledger-core/src/fingerprint.ts:31-88 | parsing undoes printing, whatever delimited text follows |
| `JsonTree.PrintIsInjective` | packages/ledger-core/src/fingerprint.ts:31-88 | different trees have different texts |
| `JsonText.ReadBodyEscaped` | packages/ledger-core/src/fingerprint.ts:35-36 | reading an escaped string, lone surrogates included, gives the string back |
| `CanonicalPrinter.CanonicalJsonOf` | packages/ledger-core/src/fingerprint.ts:18-22 | the chunk buffer of a fresh printer, joined, is the serialization |
| `CanonicalPrinter.Printer.WriteValue` | packages/ledger-core/src/fingerprint.ts:24-97 | the in-place writer appends what the specification writes, and takes every mark on an object off again, also on refusal |
| `CanonicalPrinter.Printer.EmitChunk` | packages/ledger-core/src/fingerprint.ts:99-105 | appends one chunk unless the limit would be passed |
| `Operations.AtMostOneExecution` | packages/ledger-core/src/operations.ts:95-147 | under any interleaving of runs, and whatever callers do, at most one execution of an operation commits |
| `Operations.DeliveredCommand` | packages/ledger-core/src/operations.ts:102-129 | a run that returns from a committed transaction names a committed operation of its own kind and fingerprint |
| `Operations.PromiseKeptIff` | packages/ledger-core/src/operations.ts:87-147 | over every interleaving, all committed rows have their receipts and all receipts handed out were stored if and only if no caller commits a transaction in which a run failed and no run reads back a row that its own transaction has not finished |
| `Operations.StepPromisedIff` | packages/ledger-core/src/operations.ts:95-147 | the same for one step from any reachable state |
| `Operations.CommitIsStoredIff` | packages/ledger-core/src/operations.ts:131-147 | the rows of a transaction that may end all have receipts if and only if none of its runs failed |
| `Operations.ReadBackIsTrueIff` | packages/ledger-core/src/operations.ts:102-129 | a read-back gives a stored receipt if and only if the row it sees is not its own transaction's unfinished one |
| `Operations.DeliveredReceipt` | packages/ledger-core/src/operations.ts:102-129 | while callers keep these duties, every run that returns from a committed transaction has the receipt of the operation |
| `Operations.CommittedIsStored` | packages/ledger-core/src/operations.ts:131-147 | while callers keep these duties, no committed operation lacks its receipt, whether or not a run came back |
| `Operations.MismatchGetsNothing` | packages/ledger-core/src/operations.ts:113-118 | another kind or fingerprint never gets the receipt |
| `Operations.RollbackHandsOver` | packages/ledger-core/src/operations.ts:96-102 | a run waiting on the unique index executes when the holder rolls back |
| `Operations.NestedRunReadsNothing` | packages/ledger-core/src/operations.ts:102-129 | the input that breaks the second duty: a run inside its own execution replays an empty receipt |
| `Operations.SwallowedFailureLosesReceipt` | packages/ledger-core/src/operations.ts:131-147 | the input that breaks the first duty: a caller swallows the failure and commits a row without receipt |
| `OperationsList.ListingIsExact` | packages/ledger-core/src/operations.ts:183-214 | handing the text cursor back lists, newest first and none twice, exactly the operations of the kind below the largest safe id that are visible when their page is read, over tables that gain rows of any id between the pages: a finished reading has all that were there at the start, and any other row in it became visible meanwhile |
| `OperationsList.CursorRoundTrip` | packages/ledger-core/src/operations.ts:216-226 | the cursor of a row is read back as its id, for exactly the positive safe integers |
| `Base32.RoundTrip` | packages/identity-core/src/totp.ts:10-47 | decoding undoes encoding for byte strings of every length, in either case and with any padding, and the encoded length is ceil(8n/5) (section 6 of RFC 4648, unpadded) |
| `Base32.AcceptedIff` | packages/identity-core/src/totp.ts:29-40 | a text is decoded if and only if, its padding aside, every character upper-cases into the alphabet, characters outside ASCII included |
| `Base32.Encode` | packages/identity-core/src/totp.ts:10-26 | the loop over a wrapping 32-bit accumulator writes the base-32 digits of the number the bytes stand for |
| `Base32.Decode` | packages/identity-core/src/totp.ts:29-47 | the loop over a wrapping 32-bit accumulator recovers the bytes, or reports the first character outside the alphabet, for whatever upper-casing Unicode gives |
| `MoneyDisplay.FormatIsTruncation` | packages/api-client/src/formatters.ts:16-67 | for every literal with sign and exponent, the value cut toward zero, without leading zeros and never negative zero |
| `MoneyDisplay.FormatIsIdempotent` | packages/api-client/src/formatters.ts:57-67 | formatting a formatted amount changes nothing |
| `Search.SearchIsLiteral` | packages/repository/src/search.ts:6-8 | the pattern built from q matches s if and only if q occurs in s, percent signs, underscores and backslashes included |
| `Totp.MatchingTotpStep` | packages/identity-core/src/totp.ts:69-86 | the greatest matching step of the window, or none if no step matches (section 5.2 of RFC 6238) |
| `Mfa.StepsIncreaseCodesOnce` | packages/identity-core/src/mfa.ts:189-240 | under any interleaving the steps accepted in one enrolment strictly increase and each recovery code is spent at most once |
| `Mfa.AcceptedForSecretReadIff` | packages/identity-core/src/mfa.ts:195-220 | after every run, and whatever happens between the read of the confirmed row and the statement that accepts the step: the accepting enrolment is the one whose secret the code was matched against if and only if the user has not confirmed another one in between |
| `Mfa.StaleStepAccepted` | packages/identity-core/src/mfa.ts:195-220 | the input where it is not: a factor is read and disabled, and a step of its secret is accepted for the factor that replaced it |
| `Mfa.ConfirmsSecretReadIff` | packages/identity-core/src/mfa.ts:129-160 | from any state, and whatever happens between the read of the pending row and the statement that confirms: the confirmed secret is the one the code was matched against if and only if the last enrolment of the user started in between, if there is one, has that secret again |
| `Mfa.StaleCodeConfirms` | packages/identity-core/src/mfa.ts:94-160 | the input where it is not: a pending secret is read, replaced, and the new one is confirmed by a code of the old one |
| `Mfa.DisabledAcceptsNothing` | packages/identity-core/src/mfa.ts:242-275 | after a factor is disabled no step and no recovery code of that user is accepted, over every sequence of actions of all users, until a new enrolment of that user is confirmed |
| `MfaDisabling.TakesUncodedIff` | packages/identity-core/src/mfa.ts:189-265 | over every run of disablings and other calls, statement by statement: a call that may delete was decided by its look at a pending row, by its read of the row whose secret its accepted step matched, or by the redemption of its recovery code; deleting then takes a confirmed factor that the call has had no code of if and only if a factor is confirmed and the user confirmed one after that deciding statement |
| `MfaDisabling.DisabledWithoutCode` | packages/identity-core/src/mfa.ts:242-265 | the first input that shows it: a look at a pending row, a confirmation, and a removal that takes the confirmed factor without any code |
| `MfaDisabling.DisabledByStaleCode` | packages/identity-core/src/mfa.ts:189-265 | the second: a call matches its code against one secret, the factor is disabled and another one confirmed, the step is accepted for the new row, and the removal takes it |
| `MfaDisabling.UninterruptedNeedsCode` | packages/identity-core/src/mfa.ts:242-265 | with nothing in between, the statements of a disabling are the look, the check and the removal in one |
| `Mfa.DisabledOnlyByCode` | packages/identity-core/src/mfa.ts:248-258 | with nothing in between, a confirmed factor is disabled if and only if the code is a newer step or an unspent recovery code, and otherwise nothing changes |
| `Mfa.MfaStore.EnrollTotp` | packages/identity-core/src/mfa.ts:78-127 | starts or replaces an unconfirmed enrolment, never a confirmed one |
| `MfaDisabling.DisableDesk.LookAt` | packages/identity-core/src/mfa.ts:248-257 | the unlocked read admits a pending enrolment, sends a confirmed one to the code check, or reports not enrolled or no code |
| `MfaDisabling.DisableDesk.LoadFactor` | packages/identity-core/src/mfa.ts:195-206 | the second unlocked read: the call goes on with the step that its code matches for this row, and with the enrolment that the row is of |
| `MfaDisabling.DisableDesk.TryStepOf` | packages/identity-core/src/mfa.ts:204-223 | the step of the typed code is accepted if it moves forward the row as it is now, as a code of the enrolment that was read; otherwise the recovery codes are tried |
| `MfaDisabling.DisableDesk.RemoveOf` | packages/identity-core/src/mfa.ts:261-265 | the deleting transaction takes whatever row there is, with all codes of the user |
| `Mfa.MfaStore.ConfirmTotp` | packages/identity-core/src/mfa.ts:129-187 | confirms once and replaces all recovery codes, or changes nothing |
| `Mfa.MfaStore.VerifyMfa` | packages/identity-core/src/mfa.ts:189-240 | accepts a newer step or else one unspent recovery code |
| `Challenge.AlwaysOk` | packages/identity-core/src/challenge.ts:132-190 | at most one live challenge per kind and target, attempts within the limit, never both consumed and aborted |
| `Challenge.AnswersCounted` | packages/identity-core/src/challenge.ts:224-256 | successes are one if the challenge is consumed and zero otherwise, and successes and failures together are the attempts |
| `Challenge.ConsumedOnceByItsCode` | packages/identity-core/src/challenge.ts:224-256 | only the challenge's own code succeeds, and only once |
| `Challenge.ExhaustedNeverSucceeds` | packages/identity-core/src/challenge.ts:212-271 | after as many wrong codes as the limit allows no code ever succeeds |
| `Challenge.ChallengeStore.BeginChallenge` | packages/identity-core/src/challenge.ts:132-190 | replaces a cooled-down challenge, or refuses |
| `Challenge.ChallengeStore.VerifyChallenge` | packages/identity-core/src/challenge.ts:212-271 | counts the attempt and consumes the challenge in one statement |
| `Challenge.ChallengeStore.AbortChallenge` | packages/identity-core/src/challenge.ts:273-293 | aborts a challenge that is neither consumed nor aborted |

## Left out

- Database types: `numeric(38,18)` overflow, timestamps beyond what a guard compares, memo and reason texts, and surrogate ids; rows are identified by position or natural key.
- Input formats and allow-lists (names, currencies, reference types, uuid shapes) in `packages/wallet/src/validation.ts`: the model starts from parsed input and keeps only the checks on amounts and limits.
- Hashing: SHA-256, HMAC, scrypt and the shard hash are injective or arbitrary functions of their input; fingerprints are compared as the values they hash, and legacy rows without a fingerprint are not modelled.
- Order of row locks, deadlocks and the retry of transient errors in `packages/wallet/src/internal.ts`: the original selects for update without an order.
- WalletConcurrency.AtMostOnce: calls may be interrupted between the early read, the transaction and the read-back, while a transaction itself is one step; that a losing call may fail on the balance guard instead of replaying is therefore allowed, not excluded.
- WalletRuns.RunRefines: the shard count is fixed over a run; shards added later start active, so a frozen code would not stay frozen.
- WalletService.Wallet.VerifyInvariants: the order in which violations are listed below the limit is not modelled.
- BillingRepository.BillingRequestRepository.CasTransition: callers may set only the columns that they do set in the services; a caller that patched claim or revision columns through it is outside the model.
- BillingRepository.BillingRequestRepository.ClaimPending: rows skipped because another transaction holds them are an arbitrary set; ties of the sort order are broken by position, here and in `RequeueExpiredClaims` and `RecoverExpiredToReleased`.
- FundingRecovery.PassIsBatch: the batch statement reads the clock once and asks no wallet, so the two are compared for passes that do the same; `EachFromItsOwnTurn` is about all passes.
- FundingService.FundingStore.ReleaseExpired: lists as `BillingRecovery.Listed` does, with ties broken by position; the query leaves them to the database, and what passes do for either choice is stated in `FundingQueue`.
- FundingRuns.CountersMatchRows: the wallet's own part of a funded request is an answer (accepted or refused), not the wallet model of this project; daily limits, member limits and the probes that report room are inputs.
- FundingRuns.SettlingFailsIff: whether the stored receipt decodes, and its price and upstream cost, are inputs.
- CanonicalKey.SerializationIsExactKey: the decimal text of a finite number is given with the number, as an injective literal; getters and proxies, which run code during serialization, are not modelled.
- Base32.Decode: the text is a sequence of Unicode characters, so a lone surrogate, which the original reports as invalid, cannot be written.
- Search.SearchIsLiteral: the case folding of `ILIKE` is not modelled.
- Mfa.StepsIncreaseCodesOnce: the code check itself is an input (the step that matched, if any); encryption of the stored secret is left out.
- Challenge.AlwaysOk: delivery channel, payload and code generation are left out; codes are compared as themselves.
- The gateway's second wallet service in `packages/service/src/wallet`, whose overage collection may go below the credit floor, is not part of this model.
- Batched recovery with lost releases, payment, redeem and organisation repositories, admin lists, telemetry, audit effects, routing, HTTP, user interfaces and migrations: wiring, or invariants that would only repeat those above.
