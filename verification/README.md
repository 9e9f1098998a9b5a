# Verified core of the payment platform

A Dafny model of the parts of the platform that move money or vouch for its history, with proofs of what every run of
them keeps. Database tables are sequences and maps held as values; each `$transaction` (and each write outside one) is
one atomic step; a crash drops whatever the caller held in memory. Code that updates rows in place is also written as
classes whose methods follow the source statement by statement and are proved equal to the functions the theorems are
about.

Check everything with `dafny verify dfyconfig.toml`.

## Reading order

| file | content |
|---|---|
| `prelude.dfy`, `users.dfy`, `bank.dfy` | sums; users; accounts, ledger rows, journal, the money operations and their replay and conservation laws |
| `batch_model.dfy`, `batch_service.dfy`, `batch_answers.dfy` | batch transfers: each transaction as a function, the service as a class, and its answers over requests and columns |
| `batch_interleaving.dfy` | what holds in every interleaving of single writes, by any number of callers |
| `batch_escrow.dfy`, `batch_protocol.dfy`, `batch_sums.dfy` | one caller per batch at a time: the escrow invariant over all runs with crashes and recoveries |
| `batch_recovery.dfy`, `batch_concurrent.dfy` | crash and resume refine the uninterrupted run, alone and among all other business |
| `batch_loops.dfy`, `batch_overlap.dfy` | exactly when overlapping callers, lost failure marks and stale reads move money twice or lock it |
| `batch_retry.dfy` | calls that replay an idempotency key, in every run: exactly when a crashed batch can complete and when stranded money is freed |
| `fees.dfy`, `daily_limit.dfy`, `cashier_model.dfy`, `cashier_answers.dfy`, `cashier_runs.dfy`, `cashier_limits.dfy`, `cashier_service.dfy`, `admin_service.dfy` | merchant payments and their answers, daily limits over whole runs, expiry, administrators' corrections |
| `hash_chain.dfy`, `chain_check.dfy`, `audit_log.dfy`, `agent_log.dfy` | hash-chained logs and their paginated verification |
| `reconciliation_model.dfy`, `reconciliation_service.dfy`, `difference_workflow.dfy` | channel statements, matching, the workflow of differences |
| `csv.dfy`, `money.dfy`, `login.dfy` | CSV printing, yuan and fen, the failed-login window |

## Where the code does not keep what its comments say

Each of these is a theorem, stated as an exact condition where there is one.

- Repeating `createBatch` with the key of a completed batch is described as idempotent. It runs the loop and the
  finaliser again, counts every decided item as failed, and releases the batch total a second time exactly when the
  sender has that much other money frozen (`ReplayIsIdempotentIff`).
- Retrying the key of a crashed batch has the outcome of a run without a crash exactly when nothing had been paid
  (`ReplayRefinesIff`). Otherwise the call asks for the money already paid along with the failed money: it gets both
  when the sender's other frozen money covers what was paid, and otherwise nothing, so that the failed money stays
  frozen in a COMPLETED batch (`ReplayOutcome`, `ReplayOfCrashed`).
- A cancellation that overlaps createBatch before its item k refunds what is pending, and the finaliser does not know.
  If the sender's other frozen money covers the items from k on, these are refunded twice; if not, the items that had
  failed before stay locked in a CANCELLED batch (`CancelDuringCreate`, `CancelDuringCreateRefundsTwiceIff`).
- Recovery starts five minutes after a batch began, under another lock than createBatch, which may still be at work on
  it. createBatch then goes on with its own counters and asks for the money of every item it did not pay, those that
  recovery paid included. It gets the sum exactly when the sender's other frozen money covers it; what recovery refunded
  is then refunded twice (`GoesOnOver`, `RecoverDuringCreateRefundsTwiceIff`).
- Recovery is described as completing crashed batches. A batch that crashes with no pending item left is completed only
  by a replay of its key, and by nothing if it has none (`RecoverableIff`, `StuckUnlessReplayed`). Cancelling a crashed
  batch leaves the money of its failed items frozen until a replay of its key finds the whole batch total frozen, which
  is never if it has no key (`CancelStrandsFailedMoney`, `StrandedMoneyIsFreedIff`).
- A failed item whose failure mark is lost as well stays pending. Recovery completes the batch over it and never returns
  to it (`RecoveryLeavesPendingIff`); createBatch refunds it and leaves it pending (`CreateLeavesPendingIff`). The
  refund of recovery is three separate writes: stopped after the first, it is repeated exactly when a mark was lost and
  the other frozen money, with that of the items whose mark both recoveries lose, covers it
  (`RecoveryRefundsTwiceIff`).
- processItem ignores the count of its last conditional update. If transactions may read stale rows, as at the
  database's default isolation level, two overlapping calls pay an item twice exactly when the sender's frozen money
  covers it twice (`StaleReadCreditsTwiceIff`).
- A payer may be the user behind the merchant. The ledger rows of such a payment do not link up, unless the fee is the
  whole amount (`PaymentReplaysIff`).
- A payer's daily limit counts a payment on the day of its checks, the order says the day of its transaction. The two
  differ by exactly the payments checked before midnight and committed after it (`PayerRowsMissMidnight`); the
  merchant's limit has no such gap (`MerchantRowsCountAlways`).
- Automatic fixing is meant for small differences. An item that differs from its order in the fee alone, by whatever
  sum, makes a difference of zero, which is ignored under every threshold (`FeeMismatchIsIgnored`).
- The audit log's comments speak of a growing sequence number. The column keeps its default of 0 in every row, so the
  order falls back to the creation time, and the log verifies in every order the database may choose exactly when these
  times grew strictly (`AlwaysVerifiesIff`). The last row may be rehashed or deleted unnoticed.
- Confirming an agent's operation rewrites a hashed row and keeps its hash; from then on the chain is reported as
  broken at the earliest decided row (`ConfirmationBreaksChain`). The comment on that hash also leaves out the result,
  which the code hashes.
- A failed statement fetch is described as leaving the statement FAILED and open to another attempt. After a failed call
  the statement is FETCHED, and can not be fetched again, exactly when reading it back failed, which the handler does
  not see (the result is returned without `await`), or when a later call than the upsert failed and the handler could
  not mark it: because its own insert violates the unique key, on a first fetch, or because the database is still down
  (`Fetch`). The statement may then lack its items or keep old ones; without items a match reports every numbered order
  of the day (`LostItemsAreReported`).
- The lock after failed logins is described as five failures in fifteen minutes. The window is fixed, so nine failures
  fit into one closed fifteen-minute interval, and no more (`AtMostNineFailures`, `NineIsReached`).

## Model

| member | source | states |
|---|---|---|
| `Bank.PaymentRevenue` | src/finance/journal.service.ts:26-60 | The three journal entries of a payment balance, and posting them moves the fee account by minus the fee. |
| `Bank.DoConserves` | src/cashier/cashier.service.ts:273-389 | Every money operation keeps each account sound (parts non-negative, available + frozen = total), keeps journals balanced, and changes user money minus the fee account only by what an adjustment brings in. |
| `Bank.AnyRunConserves` | src/admin/admin.service.ts:820-870 | The same over any sequence of payments, adjustments, freezes, pay-outs and refunds, aborted ones included. |
| `Bank.DoReplays` | src/batch-transfers/batch-transfers.service.ts:180-250 | One operation keeps every account's available-side ledger rows linked and folding to the current balance. |
| `Bank.AnyRunReplays` | src/cashier/cashier.service.ts:275-345 | The same over any interleaving in which no payer keeps part of his own payment as the merchant. |
| `Bank.SelfPaymentReplaysIff` | src/cashier/cashier.service.ts:273-345 | For a payer who is the merchant, the replay survives if and only if the fee is the whole amount. |
| `Bank.ReplayMeans` | src/cashier/cashier.service.ts:317-345 | What replaying means row by row: signed amounts add up from opening to current balance, and neighbouring rows of an account share a balance. |
| `BatchModel.ResumeOnly` | src/batch-transfers/batch-transfers.service.ts:385-460 | Recovery of a stuck batch completes it, and recovery touches no other batch. |
| `BatchModel.SweepCompletesStuckBatches` | src/batch-transfers/batch-transfers.schedule.ts:31-46 | One sweep completes exactly the batches it reaches among those that are PROCESSING, began more than 300 000 milliseconds ago and have a pending item; every other batch is untouched, and without an error it reaches all. |
| `BatchAnswers.CreatedAnswers` | src/batch-transfers/batch-transfers.service.ts:70-363 | A created batch holds exactly the requested receivers and amounts, was frozen with their sum, and ends with each item SUCCESS, FAILED or PENDING exactly by its receiver and its mishap; the sender has lost and each receiver gained exactly what arrived, nobody else anything. |
| `BatchAnswers.CreateAnswers` | src/batch-transfers/batch-transfers.service.ts:70-363 | Each refusal of createBatch is given exactly under its own condition on the request, the sender, the key, the limit and the account. |
| `BatchAnswers.CancelAnswers` | src/batch-transfers/batch-transfers.service.ts:703-820 | A cancellation is refused exactly for a missing batch, another owner or a batch not processing; otherwise pending items fail and their money returns exactly if the frozen balance covers it. |
| `BatchInterleaving.EveryInterleavingConserves` | src/batch-transfers/batch-transfers.service.ts:138-460 | In every interleaving of single writes by any callers (create, items, finalisers, cancel, the separate refund writes of recovery): accounts stay sound, the sum of totals never changes, an item has exactly one credit row if SUCCESS and none otherwise, and nothing decided is undone. |
| `BatchInterleaving.ApplyKeepsValid` | src/batch-transfers/batch-transfers.service.ts:297-343 | The invariant behind it, for one write. |
| `BatchInterleaving.WriteIsOp` | src/batch-transfers/batch-transfers.service.ts:180-250 | Each whole transaction of the batch service is one money operation or none. |
| `BatchInterleaving.RecoveryRefundReplays` | src/batch-transfers/batch-transfers.service.ts:416-449 | Recovery's refund keeps the ledger replayable once its ledger row is written with nothing in between. |
| `BatchInterleaving.EveryInterleavingReplays` | src/batch-transfers/batch-transfers.service.ts:138-363 | Every interleaving of whole batch transactions keeps every account's ledger replayable. |
| `BatchEscrow.GuardsHold` | src/batch-transfers/batch-transfers.service.ts:519-531 | Under the escrow invariant the sender's frozen balance covers the held money of each of his batches. |
| `BatchEscrow.VerdictOnly` | src/batch-transfers/batch-transfers.service.ts:470-644 | An item succeeds exactly when its receiver is eligible and its transaction does not throw; the frozen money never falls short. |
| `BatchProtocol.NextKeepsInv` | src/batch-transfers/batch-transfers.service.ts:138-460 | Every event keeps the escrow invariant: submit, one step of a caller, crash, recovery, cancel, other business on the accounts, and a replayed key that finds nothing paid or refunded; left out are replays that find more, cancellations that meet a caller at work, and lost failure marks. |
| `BatchProtocol.StartInv` | src/batch-transfers/batch-transfers.service.ts:138-149 | A platform without batches satisfies the invariant, whatever its sound accounts. |
| `BatchProtocol.EscrowIsExact` | src/batch-transfers/batch-transfers.service.ts:138-363 | In every state reachable by such events each frozen balance is the other frozen money plus the held items exactly, each item's money is in exactly one place, and a completed batch holds nothing and counts all items. |
| `BatchProtocol.OnePlace` | src/batch-transfers/batch-transfers.service.ts:470-644 | Each item's money is either credited by one row, or covered by one refund, or in escrow, and never two of these. |
| `BatchRecovery.RecoveryRefines` | src/batch-transfers/batch-transfers.service.ts:279-460 | After any run of work, crashes and restarts that ends crashed with a pending item, recovery completes the batch with the item statuses, counters and balances of the run that never crashed. |
| `BatchRecovery.CompletedRunsAgree` | src/batch-transfers/batch-transfers.service.ts:279-460 | Any two completing runs of one batch have the same outcome, wherever they crashed. |
| `BatchRecovery.WorkFinishes` | src/batch-transfers/batch-transfers.service.ts:279-363 | A caller that is not interrupted completes its batch. |
| `BatchRecovery.WorkIsDrive` | src/batch-transfers/batch-transfers.service.ts:279-363 | The step-by-step run without a crash is the loop and finaliser of createBatch. |
| `BatchRecovery.RestartIsResume` | src/batch-transfers/batch-transfers.service.ts:385-460 | A restart followed by uninterrupted steps is resumeProcessing. |
| `BatchConcurrent.CompletedAmongOthersAgree` | src/batch-transfers/batch-transfers.service.ts:279-460 | Any two runs of the whole platform, with other batches, accounts and users in between, that complete a batch agree on its statuses, its counters and its share in every balance. |
| `BatchConcurrent.RunTracks` | src/batch-transfers/batch-transfers.service.ts:470-644 | In such runs every decided item has the verdict of its receiver's eligibility. |
| `BatchLoops.LoopPasses` | src/batch-transfers/batch-transfers.service.ts:279-294 | Over items in any state the loop counts as failed what it does not pay itself, takes from the frozen money exactly what it pays, and leaves an item pending only when its failure mark is lost. |
| `BatchLoops.ResumePasses` | src/batch-transfers/batch-transfers.service.ts:394-396 | The same for recovery's loop over the pending items. |
| `BatchLoops.LoopInTwoParts` | src/batch-transfers/batch-transfers.service.ts:279-294 | Entering the loop half way with the counters of the first half is the whole loop. |
| `BatchLoops.LoopOverDecided` | src/batch-transfers/batch-transfers.service.ts:279-294 | Over decided items the loop changes nothing and counts every item as failed, because each call reports no success. |
| `BatchOverlap.ReplayIsIdempotentIff` | src/batch-transfers/batch-transfers.service.ts:140-311 | Replaying a completed batch's key changes no item, count or status, and leaves the books alone if and only if the total is zero or above the sender's frozen balance. |
| `BatchOverlap.DriveOverDecided` | src/batch-transfers/batch-transfers.service.ts:279-363 | The finaliser then asks for a refund of the whole batch. |
| `BatchOverlap.CancelDuringCreate` | src/batch-transfers/batch-transfers.service.ts:703-820 | After a cancellation before any item k, in any state: what the cancellation and the finaliser each release, exactly when, and how often each item is refunded. |
| `BatchOverlap.CancelDuringCreateRefundsTwiceIff` | src/batch-transfers/batch-transfers.service.ts:703-820 | From a freshly frozen batch: the items from k on are refunded twice if the sender's other frozen money covers them, and once otherwise; the items that failed before are refunded in the first case and never in the second. |
| `BatchOverlap.RecoveryLeavesPendingIff` | src/batch-transfers/batch-transfers.service.ts:385-460 | Recovery completes the batch, with an item pending in it exactly if it was pending and its failure mark was lost, and no later recovery changes anything. |
| `BatchOverlap.CreateLeavesPendingIff` | src/batch-transfers/batch-transfers.service.ts:628-643 | createBatch leaves exactly the items with lost marks pending in the completed batch, while all its frozen money is paid or refunded. |
| `BatchOverlap.RecoveryRefundsTwiceIff` | src/batch-transfers/batch-transfers.service.ts:408-449 | A refund of recovery that stops before its order is repeated by the next recovery if and only if some failure mark was lost and the other frozen money, with that of the items whose mark is lost in both, covers the first refund. |
| `BatchOverlap.GoesOnOver` | src/batch-transfers/batch-transfers.service.ts:279-363 | A createBatch call that goes on over a batch another caller has finished, whatever is still pending in it: what it pays, what it asks for, exactly when it gets it, how often each item is refunded; status and counters stay the other caller's. |
| `BatchOverlap.RecoverDuringCreateRefundsTwiceIff` | src/batch-transfers/batch-transfers.service.ts:279-460 | With recovery run before any item k of an undisturbed createBatch, any marks lost in either from there on: every item recovery refunded is refunded twice if the other frozen money, with that of the items recovery lost, covers all that createBatch has seen fail and the items from k on, and once otherwise. |
| `BatchOverlap.NoRefundAfterOrder` | src/batch-transfers/batch-transfers.service.ts:408-411 | Once the order is written, later recoveries refund nothing, newly failed items included. |
| `BatchOverlap.StaleReadCreditsTwiceIff` | src/batch-transfers/batch-transfers.service.ts:617-624 | Two transactions that both read one item as pending credit it twice if and only if the frozen money covers it twice. |
| `BatchRetry.ReplayOutcome` | src/batch-transfers/batch-transfers.service.ts:140-363 | What a replayed key does to a batch in any state: counters, releases and frozen money, decided by whether the other frozen money covers what was paid before. |
| `BatchRetry.ReplayOfCrashed` | src/batch-transfers/batch-transfers.service.ts:140-363 | For a crashed batch with nothing refunded, the replay leaves nothing held or exactly the failed money. |
| `BatchRetry.ReplayRefinesIff` | src/batch-transfers/batch-transfers.service.ts:140-363 | Replaying the key of a crashed createBatch has the outcome of the uninterrupted run if and only if no item had been paid. |
| `BatchRetry.DecidedBatchRuns` | src/batch-transfers/batch-transfers.service.ts:140-363 | In every run of any events, a cancellation in the middle of a replay included, the items of a decided batch keep their statuses, and its failed items are refunded once more for each replay that finds the batch total frozen. |
| `BatchRetry.CompletedByReplayIff` | src/batch-transfers/batch-transfers.service.ts:345-357 | A run completes a crashed batch without pending items if and only if a replay reaches its finaliser before a cancellation. |
| `BatchRetry.RecoverableIff` | src/batch-transfers/batch-transfers.service.ts:385-392 | Some run completes a crashed batch if and only if an item is pending or the batch has a key. |
| `BatchRetry.StuckUnlessReplayed` | src/batch-transfers/batch-transfers.service.ts:391-392 | Without a pending item and a replay, nothing but a cancellation ever changes the batch. |
| `BatchRetry.CancelStrandsFailedMoney` | src/batch-transfers/batch-transfers.service.ts:703-820 | After cancelling a crashed batch the money of its failed items stays frozen, in every run, exactly until a replay finds the batch total frozen. |
| `BatchRetry.StrandedMoneyIsFreedIff` | src/batch-transfers/batch-transfers.service.ts:703-820 | Some run frees that money if and only if the batch has a key. |
| `BatchService.BatchTransfersService.CreateBatch` | src/batch-transfers/batch-transfers.service.ts:70-378 | Refused with the first failing check and no effect, or the submission followed by the loop and finaliser, also for a batch found by its key; every refusal by its condition, and a created batch item by item against the requests, down to each balance. |
| `BatchService.BatchTransfersService.Submit` | src/batch-transfers/batch-transfers.service.ts:138-277 | The freezing transaction: limit, key, account, deduction, batch, items, order and ledger row, all or nothing. |
| `BatchService.BatchTransfersService.ProcessOne` | src/batch-transfers/batch-transfers.service.ts:470-644 | One item: guard, receiver checks, conditional deduction, credit, two ledger rows and status, or a rollback and a separate mark, which may be lost. |
| `BatchService.BatchTransfersService.WorkThrough` | src/batch-transfers/batch-transfers.service.ts:279-363 | The loop with its local counters, then the finaliser. |
| `BatchService.BatchTransfersService.Finalise` | src/batch-transfers/batch-transfers.service.ts:297-363 | The finalising transaction: conditional refund with its rows, completion by compare-and-set. |
| `BatchService.BatchTransfersService.ResumeProcessing` | src/batch-transfers/batch-transfers.service.ts:385-460 | Recovery: acts exactly on a processing batch with a pending item, recounts, refunds unless the order exists, completes. |
| `BatchService.BatchTransfersService.Cancel` | src/batch-transfers/batch-transfers.service.ts:703-820 | The cancelling transaction, with its error cases and its effect on items, counters, balances and ledger. |
| `BatchService.BatchTransfersService.RecoverStuckBatches` | src/batch-transfers/batch-transfers.schedule.ts:31-46 | The recovery job is one sweep, up to the error that ends it: it completes every overdue batch with a pending item and leaves every other one equal. |
| `BatchService.BatchTransfersService.Tallied` | src/batch-transfers/batch-transfers.service.ts:399-405 | Counts and failed amount read back from the items. |
| `Fees.FeeIsNearest` | src/cashier/cashier.service.ts:215-217 | The fee is the one integer within half a fen of amount x rate / 10000, the upper one at a tie. |
| `Fees.FeeWithinAmount` | src/common/error-codes.ts:314 | For a rate between 0 and 10000 the fee lies between 0 and the amount. |
| `Fees.FeeMonotone` | src/cashier/cashier.service.ts:215-217 | A larger amount never has a smaller fee. |
| `Fees.FeeSurvivesRounding` | src/cashier/cashier.service.ts:216-216 | Rounding a quotient that is off by less than 1/20000, and exact at halves, gives the same fee. |
| `Fees.SplittingChangesLittle` | src/cashier/cashier.service.ts:215-217 | Splitting an order into k parts changes the total fee by at most (k+1)/2 fen. |
| `DailyLimit.LimitHolds` | src/cashier/cashier.service.ts:627-674 | In every interleaving of reads and compare-and-set commits, the used amount is the sum of the committed amounts, the version counts them, and the limit is never exceeded. |
| `DailyLimit.CommitsIff` | src/users/users.service.ts:311-357 | A payment commits if and only if nobody committed since it read the row and its amount still fits. |
| `CashierRuns.EveryRunPaysOnce` | src/cashier/cashier.service.ts:220-431 | In every interleaving of checks, payments, sweeps and other money movements: an order is decided at most once, a paid one has exactly one debit of amount and one credit of amount - fee, others none, journals balance and money is conserved. |
| `CashierRuns.NextKeepsInv` | src/cashier/cashier.service.ts:258-273 | One step keeps the invariant behind it. |
| `CashierRuns.NextForward` | src/cashier/cashier.service.ts:258-273 | One step moves an order only from PENDING, to PAID or CLOSED, and keeps its fixed columns. |
| `CashierRuns.NextConserves` | src/cashier/cashier.service.ts:273-389 | One step keeps accounts sound, journals balanced and money accounted for. |
| `CashierRuns.ExpiredIsNeverPaid` | src/cashier/cashier.service.ts:258-273 | Under a clock that does not step back an order is never paid from its expiry time on. |
| `CashierRuns.PaymentReplaysIff` | src/cashier/cashier.service.ts:275-345 | A payment keeps the ledger replayable if and only if the payer is not the merchant's user or the fee is everything. |
| `CashierRuns.CheckQuotes` | src/cashier/cashier.service.ts:165-217 | What the checks read before the transaction is still consistent with the order in every later state. |
| `CashierAnswers.PayAnswers` | src/cashier/cashier.service.ts:161-389 | Each refusal of a payment is given exactly under its own condition, both daily limits included, and changes nothing; a payment that goes through has the nearest fee, moves the two balances, writes two ledger rows and three entries, and counts on two limit rows and no other. |
| `CashierLimits.MerchantRowsCountAlways` | src/cashier/cashier.service.ts:627-674 | In every run each merchant's row of a day is the sum of his orders paid on that day, and its version their number. |
| `CashierLimits.StartCounts` | src/cashier/cashier.service.ts:627-674 | A shop without limit rows and paid orders is such a state. |
| `CashierLimits.MerchantLimitHolds` | src/cashier/cashier.service.ts:627-674 | With a fixed daily limit the orders of a merchant paid on one day never exceed it, in any run. |
| `CashierLimits.PayerRowsCount` | src/users/users.service.ts:311-357 | In every run a payer's row of a day counts exactly the payments checked on that day that went through. |
| `CashierLimits.PayerLimitHolds` | src/users/users.service.ts:311-357 | With a fixed limit a payer's row never exceeds it. |
| `CashierLimits.PayerRowsMissMidnight` | src/cashier/cashier.service.ts:217-256 | A payer's row and his orders paid on that day differ by exactly the payments checked on one day and committed on another. |
| `CashierService.CashierService.PayOrder` | src/cashier/cashier.service.ts:161-412 | pay: repeated calls succeed without effect, every refusal has its exact condition and changes nothing, others run one transaction with the stated effect on every table. |
| `CashierService.CashierService.PayInTransaction` | src/cashier/cashier.service.ts:220-389 | The transaction in the source's order, with the limit and the day read before it; each error under its condition leaves every table as it was. |
| `CashierService.CashierService.Transfer` | src/cashier/cashier.service.ts:273-379 | Deduction, credit, both ledger rows with balances read back, and the journal are one payment of the books. |
| `CashierService.CashierService.TakeFrom` | src/cashier/cashier.service.ts:627-674 | The limit row is incremented by the amount exactly if what was used and the amount stay within the limit; it is created if missing, also when the amount does not fit. |
| `CashierService.CashierService.CreateEntries` | src/finance/journal.service.ts:26-60 | Unbalanced entries are refused; platform accounts move by debit minus credit. |
| `CashierService.CashierService.CloseExpiredOrders` | src/cashier/cashier.service.ts:415-431 | Closes exactly the unpaid orders whose expiry time has passed, never one that could still be paid, and returns their number. |
| `AdminService.AdminService.AdjustAccount` | src/admin/admin.service.ts:797-904 | A positive amount raises available and total balance by the nearest fen, a negative one lowers them if covered, with one ledger row that says so; each refusal has its condition and changes nothing. |
| `HashChain.StrictlyBuiltIsChained` | src/audit/audit-log.service.ts:43-82 | If the ordering keys grew strictly, the table the log calls built is a chain. |
| `HashChain.LoggedTablesVerify` | src/audit/audit-log.service.ts:111-160 | Such a table verifies. |
| `HashChain.VerifyingScanIsWriteOrder` | src/audit/audit-log.service.ts:111-160 | A scan order in which a logged table verifies is the order of writing. |
| `HashChain.AlwaysVerifiesIff` | src/audit/audit-log.service.ts:43-160 | A logged table verifies in every order the database may choose among ties if and only if the keys grew strictly. |
| `HashChain.EditIsFound` | src/audit/audit-log.service.ts:111-160 | Editing a row's content in place is reported at that row. |
| `HashChain.EditsAreFound` | src/audit/audit-log.service.ts:111-160 | However many contents are changed in place, the first changed row is reported, and nothing if there is none. |
| `HashChain.RehashedEditIsFoundNext` | src/audit/audit-log.service.ts:111-160 | Rehashing the edited row moves the report to its successor; at the end of the table nothing is reported. |
| `HashChain.DeletionIsFoundNext` | src/audit/audit-log.service.ts:111-160 | Deleting a row is reported at its successor; deleting the last one is not reported. |
| `HashChain.ChainHashesDiffer` | src/audit/audit-log.service.ts:111-160 | No two rows of a verified table have the same hash. |
| `HashChain.LastHashDeterminesHistory` | src/audit/audit-log.service.ts:54-81 | Two tables that verify and end in the same hash have equal length and equal content, link and hash in every row. |
| `ChainCheck.CheckPage` | src/audit/audit-log.service.ts:127-152 | The loop over one page finds the first row of the whole table that fails, or none up to the end of the page. |
| `AuditLog.AuditLogService.FindNewest` | src/audit/audit-log.service.ts:48-52 | The lookup's descending order with nulls last picks a maximum of the scan's ascending order with nulls first. |
| `AuditLog.AuditLogService.Log` | src/audit/audit-log.service.ts:43-82 | Appends one row that continues the newest one and fits its hash, unless the unique key on the hash refuses it; nothing else changes. |
| `AuditLog.AuditLogService.EditsAreReported` | src/audit/audit-log.service.ts:54-160 | For a collision-free hash and growing keys: the logged table verifies, and a change of any hashed column of any rows is reported at the first of them. |
| `AuditLog.AuditLogService.VerifyChain` | src/audit/audit-log.service.ts:111-160 | For every page size above zero the paginated loop terminates and returns the first row that does not verify, or null if all do; on the logged table with edited contents that is the first edited row. A page size of zero returns null. |
| `AgentLog.ConfirmationBreaksChain` | src/agent/agent.service.ts:251-308 | With strictly growing creation times (without them AlwaysVerifiesIff applies), one agent's chain verifies if and only if none of its rows was decided, and otherwise the earliest decided row is reported. |
| `AgentLog.ChainDecided` | src/agent/agent.service.ts:251-308 | Decisions on the shared table are decisions on each agent's own chain. |
| `AgentLog.LogKeepsBuilt` | src/agent/agent-audit-log.service.ts:42-86 | Logging after decisions still continues each agent's logged chain, since decisions keep hashes. |
| `AgentLog.AgentLogService.Log` | src/agent/agent-audit-log.service.ts:29-86 | Appends one row that continues the agent's newest row. |
| `AgentLog.AgentLogService.EditsAreReported` | src/agent/agent-audit-log.service.ts:42-142 | The same for one agent's rows as they were logged, readable details or not. |
| `AgentLog.AgentLogService.ConfirmOp` | src/agent/agent.service.ts:251-308 | Decides one pending operation: result and detail are rewritten, everything else stays; all error cases, a corrupt detail among them, change nothing, except that a failing tool marks the row FAILED. |
| `AgentLog.AgentLogService.PageAfter` | src/agent/agent-audit-log.service.ts:96-113 | A page starts right after the row with the cursor's id. |
| `AgentLog.AgentLogService.VerifyChain` | src/agent/agent-audit-log.service.ts:92-142 | The cursor-paginated loop terminates and returns the first row of the agent that does not verify, a row with a corrupt detail included, for every page size above zero. |
| `ReconciliationModel.DifferencesExactly` | src/channel-reconciliation/channel-reconciliation.service.ts:335-530 | A difference row is produced if and only if it reports an item without any order, an item whose order has another amount or fee, with the distance of the two amounts, or a numbered order of that channel and UTC day that no item lists. |
| `ReconciliationModel.DifferencesOccur` | src/channel-reconciliation/channel-reconciliation.service.ts:335-530 | Every row occurs exactly as often as there are items and orders that give rise to it. |
| `ReconciliationModel.LookupFinds` | src/channel-reconciliation/channel-reconciliation.service.ts:362-388 | An item is compared with an order that carries its number, of any channel, date or status: a transaction if there is one, else a withdrawal with the amount it paid out. |
| `ReconciliationModel.ItemTypeOf` | src/channel-reconciliation/channel-reconciliation.service.ts:641-653 | Only withdrawals become payouts, only refunds become refunds, everything else counts as a recharge. |
| `ReconciliationModel.CountsAddUp` | src/channel-reconciliation/channel-reconciliation.service.ts:357-461 | matched + mismatched + unmatched is the number of items, and the last two together the number of rows the items make. |
| `ReconciliationModel.MarkMeans` | src/channel-reconciliation/channel-reconciliation.service.ts:357-461 | An item is unmatched exactly if no order carries its number, and matched exactly if the order found has its amount and fee. |
| `ReconciliationModel.CountsMarks` | src/channel-reconciliation/channel-reconciliation.service.ts:357-461 | The counters are the numbers of matched and of mismatched marks. |
| `ReconciliationModel.MatchingAgain` | src/channel-reconciliation/channel-reconciliation.service.ts:335-530 | A second run gives the same rows, marks and counts, also after a run that stopped half way. |
| `ReconciliationModel.FetchThenMatchIsCleanIff` | src/channel-reconciliation/channel-reconciliation.service.ts:75-223 | Matching a fresh statement yields no difference, and matches every item, if and only if the lookup by number gives each order of the day an order with its own amount and fee. |
| `ReconciliationModel.DistinctNumbersMatchCleanly` | src/channel-reconciliation/channel-reconciliation.service.ts:75-223 | Globally distinct channel order numbers suffice. |
| `ReconciliationModel.FetchListsAll` | src/channel-reconciliation/channel-reconciliation.service.ts:87-161 | A fresh statement misses none of the day's orders. |
| `ReconciliationModel.LostItemsAreReported` | src/channel-reconciliation/channel-reconciliation.service.ts:463-519 | A statement that lost its items, as a failed first fetch leaves it, makes one row for each item it should have held and that carries a number. |
| `ReconciliationModel.SelectedExactly` | src/channel-reconciliation/channel-reconciliation.service.ts:89-121 | The two queries keep the orders with status SUCCESS, a number, the channel and the UTC day exactly as often as the tables hold them, and no other. |
| `ReconciliationService.BuildItems` | src/channel-reconciliation/channel-reconciliation.service.ts:123-161 | One item per order, with the type and amount columns of its kind. |
| `ReconciliationService.CompareItems` | src/channel-reconciliation/channel-reconciliation.service.ts:357-461 | The forward pass produces the specified marks, rows and counters. |
| `ReconciliationService.FindMissing` | src/channel-reconciliation/channel-reconciliation.service.ts:463-519 | The reverse pass over the set of listed numbers produces the specified rows. |
| `ReconciliationService.OthersKeepIds` | src/channel-reconciliation/channel-reconciliation.service.ts:349-355 | Clearing by date and channel keeps the other rows and their distinct ids. |
| `ReconciliationService.ChannelReconciliationService.Fetch` | src/channel-reconciliation/channel-reconciliation.service.ts:75-252 | For every failing call, with or without the handler failing too: which error is returned, what exactly was written, and when the statement ends FAILED or FETCHED; success stores the day's items and totals and returns the first page; a fetched statement is refused unchanged. |
| `ReconciliationService.ChannelReconciliationService.WriteStatement` | src/channel-reconciliation/channel-reconciliation.service.ts:166-217 | The guarded writes up to the failing one: the statement's row, its items old, none or new, and the cleared differences. |
| `ReconciliationService.ChannelReconciliationService.HandleFailure` | src/channel-reconciliation/channel-reconciliation.service.ts:224-251 | The handler marks a statement it knew of before FAILED, inserts one otherwise, and meets the unique key if the failed fetch had written one. |
| `ReconciliationService.ChannelReconciliationService.Match` | src/channel-reconciliation/channel-reconciliation.service.ts:335-530 | The differences of that day and channel are replaced by the classification as new pending rows, every item is marked by what its number leads to, the report's five numbers are the counts, all other rows stay. |
| `DifferenceWorkflow.FreshRunsFollowWorkflow` | src/channel-reconciliation/channel-reconciliation.service.ts:573-636 | In every run without a stale update, rows move only along the workflow and final rows keep their status. |
| `DifferenceWorkflow.FinalStatusIsLostIff` | src/channel-reconciliation/auto-fix.service.ts:76-147 | A row loses its final status if and only if a stale update with another status reaches it. |
| `DifferenceWorkflow.WriteFollowsEdgeIff` | src/channel-reconciliation/channel-reconciliation.service.ts:573-636 | An update follows the workflow unless stale; the stale ones that still look like a move are listed. |
| `DifferenceWorkflow.SecondAnswerWins` | src/channel-reconciliation/channel-reconciliation.service.ts:602-636 | Two people who read the same row may both resolve it, and the second status replaces the first. |
| `DifferenceWorkflow.FinalStatusStandsIff` | src/channel-reconciliation/channel-reconciliation.service.ts:573-636 | Over a whole run a final status stands throughout if and only if no session that had read the row while it was open gets to write another answer. |
| `DifferenceWorkflow.OpenSessionsAreOld` | src/channel-reconciliation/channel-reconciliation.service.ts:573-636 | While the status stands, every session that may still write to the row was opened before. |
| `DifferenceWorkflow.AutoFixIgnoresIff` | src/channel-reconciliation/auto-fix.service.ts:76-147 | Of the rows a match writes, automatic fixing ignores exactly those of an item and an order that disagree while their amounts differ by at most the threshold. |
| `DifferenceWorkflow.FeeMismatchIsIgnored` | src/channel-reconciliation/auto-fix.service.ts:91-96 | A difference in the fee alone is written as zero and ignored under every threshold from zero on. |
| `DifferenceWorkflow.DifferenceTable.Perform` | src/channel-reconciliation/channel-reconciliation.service.ts:573-636 | Uninterrupted assign and resolve: one row changes, from the status asked for, in the columns its action writes; error cases change nothing. |
| `DifferenceWorkflow.DifferenceTable.AutoFixAll` | src/channel-reconciliation/auto-fix.service.ts:76-147 | A row ends ignored exactly if the list handed in shows it as a pending small mismatch, whatever it has become; it is reported exactly if its risk event could be written as well. |
| `Csv.RoundTrip` | src/common/csv.ts:8-33 | For every table with a header, a parser for section 2 of RFC 4180 with LF line ends returns every value with nothing but an apostrophe in front of formulas, with the same rows and columns, and no field starts like a formula. |
| `Csv.TableBack` | src/common/csv.ts:27-33 | Parsing joined lines returns the guarded table. |
| `Csv.FieldBack` | src/common/csv.ts:10-20 | Whatever a field contains, the parser finds its end. |
| `Csv.GuardCollidesIff` | src/common/csv.ts:8-14 | Two fields print alike if and only if they are equal, or one is the other with an apostrophe in front of a formula. |
| `Money.YuanToFenRounds` | src/common/helpers.ts:5-16 | Through its digit string yuanToFen rounds to the nearest fen, half up. |
| `Money.FixedSplits` | src/common/helpers.ts:12-15 | The printed number splits at its point into the digits of whole yuan and two decimals. |
| `Money.YuanToFen` | src/common/helpers.ts:5-16 | Fails exactly below zero and above the limit, and otherwise gives the nearest number of fen. |
| `Money.RoundTrip` | src/common/helpers.ts:5-20 | Any amount survives printing and reading with an error below 0.005 in the division and again in the parsing. |
| `Money.PrintingIsInjective` | src/common/helpers.ts:18-20 | Different amounts print differently. |
| `Money.ParseDigits` | src/common/helpers.ts:15-15 | Reading the decimal digits of a number gives the number. |
| `Login.AtMostNineFailures` | src/auth/auth.service.ts:56-154 | Any closed fifteen-minute interval without a success holds at most nine failed checks of one identifier. |
| `Login.NineIsReached` | src/auth/auth.service.ts:117-154 | For every identifier and interval there is a run with nine. |
| `Login.AtMostFivePerWindow` | src/auth/auth.service.ts:131-146 | From the failure that opens a window, at most five fall into it without a success, also when that login's own check still saw the old counter. |
| `Login.AuthService.LogIn` | src/auth/auth.service.ts:45-115 | One login: locked by five live failures, else failed or successful by the password, with its log row; success clears the identifier's counter, a failure counts in its live window or opens one of fifteen minutes, no other counter changes. A call without phone and e-mail changes nothing. |
| `Login.AuthService.GetFailCount` | src/auth/auth.service.ts:117-129 | An entry counts up to and including its expiry time; an expired one is dropped. |
| `Login.AuthService.RecordFailure` | src/auth/auth.service.ts:131-146 | The first failure opens a window, later ones count within it without extending it. |

## Left out

- Assumed: transactions are serialisable, although no isolation level is set (StaleReadCreditsTwiceIff and `daily_limit.dfy` show where that matters); `withLock` and the advisory locks exclude each other, and the advisory lock call of the agent log succeeds although it casts the agent id to an integer.
- Assumed: the hash of a row is injective and never yields the genesis value or the empty string; SHA-256 and `JSON.stringify` are not modelled, and an empty stored agent detail, which the code reads as null, does not occur.
- Integers are unbounded: an addition that overflows 32-bit columns aborts its transaction in the database and is not modelled. NaN, infinities and the amount checks of the request objects are left out as well; batch amounts are taken in fen.
- User passwords, risk decisions, user limits, clocks and database failures are parameters.
- The order numbers, remarks, bills, notifications, risk events and audit rows that accompany money movements are not modelled; the refund order of recovery is a flag on the batch.
- The PENDING status of a batch: the freezing transaction creates the batch and sets it to PROCESSING in one step, so no other caller sees it.
- `releases` on an item, `outside` on the accounts and `logged` in the agent log are histories kept for the theorems, not columns.
- RecoveryRefines: assumes that receivers stay eligible, that an item's transaction throws in every run or in none, and that marking a failed item succeeds; RecoveryLeavesPendingIff and RecoveryRefundsTwiceIff show what happens otherwise.
- EscrowIsExact: assumes that at most one caller works on a batch at a time, cancellations included, that a replayed key finds nothing paid or refunded, that failures are marked, and that other business takes from a frozen balance only what it froze itself (the guard of `Elsewhere`); EveryInterleavingConserves needs none of this, and the theorems of `batch_overlap.dfy` and `batch_retry.dfy` say what each of these cases does.
- DecidedBatchRuns: a replay and a cancellation of its batch may overlap; two replays of one key exclude each other by `withLock`, and a recovery finds nothing to do in such a batch.
- EveryInterleavingReplays: leaves out the split refund writes of recovery; RecoveryRefundReplays covers them when nothing comes in between.
- CommitsIff: the row is read and written by separate steps of one transaction; the isolation level that lets two transactions read the same version is taken as the weakest one.
- RoundTrip: the number read back must not exceed the limit of `yuanToFen`, which matters only for the limit itself.
- VerifyChain: every page query is assumed to return rows in the same order; ties broken differently from page to page, and negative page sizes, are not modelled.
- RecoverStuckBatches: the writes of the recovery during which an error ends the job are those of a crash in that recovery, and not part of the sweep.
- CreateEntries: of the platform accounts only the fee account is kept.
- ConfirmOp: a decision is one step; two decisions of one operation at the same time, and the tools themselves, are left out.
- Fetch: items created at the same time are read back in the order of writing, of which the source's query promises nothing; a process that dies during a fetch is not an event.
- Match: the lookup without an order takes the first row of the table; a run that stops half way is covered by MatchingAgain only for its marks and rows, not as a sequence of writes. Matching and fetching at the same time is left out.
- LogIn: the counter kept in Redis, and logins of one identifier that overlap in time.
- Creating orders, withdrawals, red packets, splits, subscriptions, notifications to merchants, list and export queries, controllers and permissions.
