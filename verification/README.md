# OfflinePay: a verified model

OfflinePay lets a payer reserve money in an offline token, sign payments against it without a
connection, and have the bank settle them later. Settlement is a saga of four database
transactions (RESERVE, CONSUME_TOKEN, LEDGER_COMMIT, PUBLISH), each with a compensation, over the
tables for balances, tokens, intents, nonces and a double-entry ledger. Around it run the release
of expired tokens, reconciliation, an outbox with a dead-letter queue, a read projection,
event-sourced snapshots, bounded recovery, a simulated replicated log and a rate limiter.

The project models these parts in Dafny and proves what they guarantee over every run.

## How it is built

- `Tables`, `Transactions` -- the rows, and every transaction as a function from tables to tables.
  `None` is a rollback. Primary keys, foreign keys and CHECK constraints decide when a
  transaction fails, and 64-bit additions wrap before the CHECK sees them.
- `Repository` (module `Storage`), `Services`, `Saga` (module `Orchestrator`) -- the same
  transactions as the program performs them: statement by statement on mutable tables, with the
  loops of the services and of the orchestrator. Each method is proved to have exactly the effect
  of its function.
- `Machine` -- any number of sagas, callers, crashes and failures interleaved, one transaction
  at a time. `Run(INIT, steps)` ranges over all executions; main results hold for all `steps`.
- `Invariants`, `Effects`, `RowsProof`, `BooksProof`, `MoneyProof`, `StepProof` -- one inductive
  invariant in three parts: who owns which row, what the ledger says, where the money is.
- `Guarantees`, `Permanence`, `Admission`, `Settling`, `ReleasePass`, `Audits`, `Conformance`,
  `Reconciliation`, `Statuses`, `Failures` -- the results about settlement. `Locks` and `LockCover`
  show that the row locks cannot deadlock and that nothing is written without one.
- `Outbox`, `Deliveries`, `Replays`, `Projection`, `Checkpoints`, `EventSource`, `Aggregates`,
  `Recovery`, `Diagnosis`, `Cluster`, `RateLimit` -- the other components, each with its own machine,
  classes and results.

The machine keeps three pieces of history that no transaction reads: opening balances (`minted`),
tokens that undoing a hold invalidated (`frozen`), and the amounts of payments whose sender is
their receiver (`selfPaid`). `FrozenIsVisible` and `MoneyIsConserved` tie the last two back to the
tables and to the sagas.

## Where the code differs from its documentation

The model follows the code.

- `doc/adr/adr-008-saga-pattern.md` says a failed saga is compensated back to the initial state.
  For a saga that runs alone this holds if and only if RESERVE was refused, or the token was
  refused and the database then stayed up for one of the three tries to undo RESERVE
  (`CompensationRestoresExactly`). Undoing a hold invalidates the token and leaves its money
  reserved, which a payment of a non-positive amount always brings about (`ThreeWays`). Undoing
  LEDGER_COMMIT always fails because the nonce row still references the intent
  (`UndoCommitBlocked`).
- A payment to oneself overwrites the first balance write with the second, so it creates its
  amount (`SelfPaymentCreatesMoney`); money is conserved exactly without committed self-payments
  (`MoneyIsConserved`).
- `doc/adr/adr-011-bounded-recovery.md` gives the recovery key an action part. The code leaves it
  out, which gives the stronger property of one operation per payment (`RecoveryIsBounded`). A
  policy can block itself exactly if it allows more than the table's three attempts
  (`BlocksExactly`, `OverLimitBlocks`).
- `doc/adr/adr-003-event-sourcing.md` promises a snapshot every five events. That holds exactly if every
  fifth save, and no other, carries a version that five divides and an aggregate
  (`SnapshotsOnTimeExactly`). The services save every event as version 1, so none is ever taken
  (`VersionOneNeverSnapshots`).
- The rebuild tool promises the table that the worker wrote. It keeps that promise exactly if, on every
  payment, what the worker was told matches what the store holds, and the newest stored event is of
  a type the tool knows (`RebuildSucceedsExactly`). Any payment that was refused breaks it
  (`RefusedPaymentStopsRebuild`).
- The projection can show a failure for money that moved: exactly when PUBLISH alone fails
  (`PaidButFailedExactly`, `PaidButShownFailed`).
- Reconciliation overwrites any intent status. A settled intent stays SETTLED exactly until such a
  write (`SettledStatusExactly`), and only a scan that read before the commit makes one
  (`LateScanSparesSettled`); the settlement itself stands.
- `doc/runbooks/dlq-event-processing.md` speaks of replaying an event. A replay moves its dead letter
  exactly if the dead letter is still there when the replay writes; otherwise it makes a copy
  (`ExactlyOnceExactly`).
- `saveFailedIntent` names a token UNKNOWN. The foreign key refuses the row unless such a token
  exists, so a failed payment normally leaves no intent (`SaveFailedIntent`).

## Assumptions

A transaction is atomic and a failed one leaves no trace. A failure the tables do not explain (an
unreachable database, a foreign key of a table outside the model) is the input `down`, which can
strike any step. The transaction and nonce in an envelope equal those in its payload. Clock
readings, generated identifiers, signature, device and risk verdicts and error texts are inputs.
The system starts from empty tables. Ledger entries of an account are numbered in commit order.

## Model

| member | source | states |
|---|---|---|
| StepProof.InvRun | internal/settlement/service.go:216-548 | in every interleaving of sagas, releases, failures and crashes the row, ledger and money invariants hold after every step |
| StepProof.UndoCommitBlocked | internal/settlement/service.go:396-432 | in every state that satisfies the invariants, undoing LEDGER_COMMIT of a committed saga fails on the foreign key of its own nonce |
| Guarantees.SettlesAtMostOnce | internal/settlement/service.go:220-318 | over every run two committed sagas never share a token, a transaction id or a nonce |
| Admission.BeginsExactly | internal/settlement/service.go:178-205 | a settlement begins if and only if the token exists, belongs to the sender, has not expired and is not consumed, and the amount is within its value |
| Admission.NothingBeginsExpired | internal/settlement/service.go:178-205 | in every run each saga began at a time when its token had not expired, for a payment by its owner within its value |
| Admission.ProcessedExactly | internal/settlement/service.go:83-97 | a payment counts as processed exactly if its intent has a status other than those in flight, EXPIRED and RECONCILED |
| Admission.RepeatIsDuplicate | internal/settlement/service.go:83-97 | after a settlement, and after a failure whose intent was stored, the same payment is a duplicate |
| Admission.IntentDescribesPayment | internal/settlement/service.go:245-263 | in every run, while RESERVE of a saga stands, the intent of its transaction has the sender, receiver, amount, nonce and token of its payment |
| Admission.IntentAgreesWithLedger | internal/settlement/service.go:353-378 | in every run the intent of a committed settlement names the account and amount of its debit entry and of its credit entry |
| Guarantees.LedgerCheckReportsOpenTokens | internal/repository/repository.go:588-613 | in every reachable state the ledger check reports exactly the tokens whose money is still reserved, each with its value, and no settlement |
| Guarantees.ImbalancesAddUpToReserved | internal/repository/repository.go:588-613 | the imbalances the ledger check reports for an owner's tokens, plus the self-paid tokens, add up to the reserved balance |
| Guarantees.SettlementIsAllOrNothing | internal/settlement/service.go:353-395 | a committed saga has its debit and credit of the same amount in the ledger; an uncommitted one that owns its rows has none |
| Guarantees.ReservedCoversTokens | internal/settlement/service.go:300-345 | a reserved balance is the sum of the owner's ISSUED and HELD tokens, plus exactly those frozen by undoing a hold and those spent on self-payments |
| Guarantees.FrozenIsVisible | internal/settlement/service.go:300-308 | a token is frozen if and only if it is INVALIDATED and its ledger group still nets to its value |
| Guarantees.MoneyIsConserved | internal/settlement/service.go:333-345 | total balances equal total opening balances plus the self-paid amounts; they equal the opening balances if and only if no committed payment went to its sender |
| Guarantees.UndoConservesMoney | internal/settlement/service.go:411-423 | the balance changes of undoing LEDGER_COMMIT, applied to any later balances, change the total by nothing, or by minus the amount if the sender is the receiver |
| Guarantees.CommitSucceedsExactly | internal/settlement/service.go:312-395 | if all money fits in 64 bits, LEDGER_COMMIT after a hold succeeds if and only if the token is still HELD and the amount is positive; no balance goes negative and nothing overflows |
| Guarantees.ReleaseSucceeds | internal/token/service.go:248-288 | releasing an unresolved token never takes the "inconsistent reserved balance" branch and moves exactly its value |
| Guarantees.IssueSucceedsExactly | internal/token/service.go:117-208 | issuing succeeds if and only if value, account, funds and identifiers allow it; no overflow |
| Guarantees.NoArithmeticFailure | internal/token/service.go:130-131 | from opening balances that fit in 64 bits, without self-payments, no issue, release or commit ever fails on arithmetic |
| Permanence.SettlementIsFinal | internal/saga/saga.go:87-128 | after LEDGER_COMMIT, whatever follows, the settlement keeps its intent, nonce, CONSUMED token and entries |
| Permanence.LedgerIsImmutable | internal/settlement/service.go:425-431 | the ledger of every continuation extends the ledger before it |
| Permanence.InvalidatedIsFinal | internal/repository/repository.go:177-261 | an INVALIDATED token stays so in every continuation; no saga can hold or commit it and no pass releases it again |
| Permanence.TokensFollowTheirStateMachine | internal/domain/models.go:280-300 | every step from any state keeps each token's owner, value and expiry and changes its status only from ISSUED to HELD or INVALIDATED, or from HELD to CONSUMED or INVALIDATED |
| Permanence.OnlyCommitMovesMoney | internal/settlement/service.go:219-507 | of all saga steps and compensations only LEDGER_COMMIT changes balances or the ledger, and then as it should |
| Permanence.CrashIsFinal | internal/saga/saga.go:42-85 | a saga whose process crashed stays where it is in every continuation: nothing resumes or compensates it |
| Effects.IssueEffect | internal/token/service.go:129-208 | a successful issue moves exactly the value from available to reserved and adds the token with its expiry, its placeholder intent to BANK and one debit entry |
| Effects.OpenEffect | internal/repository/repository.go:416-424 | an account opens exactly if the balance is not negative; opening it again changes nothing |
| Effects.ReserveExactly | internal/settlement/service.go:222-273 | RESERVE goes through if and only if both accounts and the token exist, the reserved balance covers the token, and transaction and nonce are new; it adds the payment's intent, as RESERVED, and its nonce, and nothing else |
| Effects.ReleaseEffect | internal/token/service.go:259-288 | a release moves exactly the value back and adds one credit entry, touching nothing else |
| Effects.CommitEffect | internal/settlement/service.go:330-392 | a commit consumes the token, frees its value, returns the change, pays the receiver, marks the intent SETTLED and adds three entries, self-payments included |
| ReleasePass.PassReleasesAll | internal/token/service.go:233-315 | a failure-free pass over distinct unresolved tokens releases each once: every owner regains exactly the value of theirs, and the count is their number |
| ReleasePass.ExpiredTokensAreReleased | internal/repository/repository.go:263-287 | in every reachable state such a pass leaves no expired token ISSUED or HELD |
| ReleasePass.PassOnlyReleases | internal/token/service.go:233-315 | whatever the list and whatever fails, a pass changes a token only by releasing it, and only a listed unresolved one |
| ReleasePass.CountIsExact | internal/token/service.go:291-315 | the count is the number of tokens the pass resolved, with any repeats and failures |
| ReleasePass.PassSparesUnexpired | internal/repository/repository.go:263-287 | a pass leaves every token as it was that has not expired |
| Audits.AuditParity | internal/repository/repository.go:1092-1117 | an available balance equals the balance recorded by the account's last ledger entry, plus the drift of a self-payment |
| Audits.BalanceAuditReportsStuckTokens | internal/repository/repository.go:1074-1132 | the balance audit reports an account if and only if it owns a frozen or self-paid token; the amount is, modulo 2^64, the value of those tokens plus the drift a self-payment leaves on the last entry |
| Conformance.MachineRunsTheOrchestrator | internal/saga/saga.go:42-128 | every execution of the orchestrator on a settlement, under any pattern of failures, is a run of the machine with the same tables and result |
| Conformance.ReserveIsUndone | internal/settlement/service.go:274-283 | undoing RESERVE restores the tables exactly |
| Conformance.HoldIsNotUndone | internal/settlement/service.go:300-308 | undoing a hold never restores the tables: the token ends INVALIDATED with its money reserved |
| Conformance.CommitIsNotUndone | internal/saga/saga.go:105-123 | compensation that reaches LEDGER_COMMIT while its nonce stands fails three times, whatever the database does, and stops there with the tables as they were |
| Conformance.UndoCommitIsInverse | internal/settlement/service.go:396-432 | undoing LEDGER_COMMIT right after it would restore balances and ledger, keep the token CONSUMED and remove the intent; for two accounts it goes through if and only if no nonce refers to the transaction |
| Conformance.CompensationRestoresExactly | internal/settlement/service.go:509-541 | for every failed settlement that ran alone: the tables are as before if and only if RESERVE was refused, or the token was refused (not ISSUED, or the database down) and the database was up for one of the three tries to undo RESERVE |
| Conformance.CompensatedSettlement | internal/saga/saga.go:87-128 | a settlement that ends COMPENSATED restored everything or left exactly the token invalidated; LEDGER_COMMIT never ends so |
| Failures.ThreeWays | internal/settlement/service.go:509-541 | with the database up, an admitted payment that runs alone in a reachable state settles if it is ready, destroys its token if only its amount is not positive, and otherwise changes nothing |
| Failures.WorthlessPaymentSpoils | internal/db/migrations/000001_init.up.sql:60-69 | a payment of 0 on a funded account is admitted and destroys its token |
| Failures.PaidButFailedExactly | internal/settlement/service.go:434-492 | a lone settlement ends in failure although the money moved if and only if it was ready and the database was down for PUBLISH alone |
| Failures.PaidButShownFailed | internal/settlement/service.go:531-540 | then the only message is that the payment failed, and the live and the rebuilt projection both show it failed, from UNKNOWN to UNKNOWN for 0 |
| Failures.PaidStands | internal/saga/saga.go:87-128 | that settlement is a run of the machine and stands in every continuation |
| Failures.CompletedIsShown | internal/settlement/service.go:434-492 | what a completed settlement announces makes the live and the rebuilt projection show it SETTLED with its sender, receiver, amount and hops |
| Failures.RefusedPaymentStopsRebuild | internal/settlement/service.go:550-591 | a payment refused while no token is named UNKNOWN is reported but leaves no event, and the rebuild then fails |
| Failures.FailureIsARun | internal/settlement/service.go:550-591 | recording a failed payment is a run of the settlement machine, so every guarantee holds after it |
| Failures.StatusNames | internal/domain/models.go:8-22 | failures of different statuses are shown by different names |
| Settling.SettlesExactly | internal/settlement/service.go:178-548 | in every reachable state an admitted payment settled alone completes if and only if its token is ISSUED, its transaction and nonce are new, the receiver exists, the amount is positive and the database stays up; then the receiver gains the amount and the sender the change, or, if they are one account, it gains just the amount |
| Settling.SelfPaymentCreatesMoney | internal/settlement/service.go:330-345 | a run from empty tables in which a payment from an account to itself commits and turns its 10 into 15 |
| Conformance.ForeignKeysHold | internal/db/migrations/000001_init.up.sql:46-69 | in every reachable state each nonce and each ledger entry has its intent |
| Conformance.TransactionsKeepForeignKeys | internal/db/migrations/000001_init.up.sql:46-69 | from any tables, no action or compensation leaves a nonce or a ledger entry without its intent |
| Conformance.OtherTransactionsKeepForeignKeys | internal/db/migrations/000001_init.up.sql:46-69 | nor does issuing or releasing a token, recording a failure or expiring an intent |
| Locks.ProgramsAscend | internal/settlement/service.go:223-234 | every transaction locks rows in one global order: token, accounts by name, nonce, intent |
| Locks.NoCircularWait | internal/settlement/service.go:319-329 | for any number of concurrent transactions the wait-for graph has no cycle |
| Locks.SomeoneCanProceed | internal/token/service.go:242-257 | whenever transactions run, at least one can take its next lock or end |
| Locks.EveryoneCanFinish | internal/settlement/service.go:319-329 | from every reachable lock table some order of taking locks and ending lets all running transactions finish |
| LockCover.ActionWritesAreLocked | internal/settlement/service.go:222-395 | each action of a settlement changes or removes only rows that it locks |
| LockCover.UndoWritesAreLocked | internal/settlement/service.go:274-432 | so does each compensation |
| LockCover.OtherWritesAreLocked | internal/token/service.go:117-288 | so do issuing and releasing a token and expiring an intent |
| Orchestrator.Execute | internal/saga/saga.go:42-85 | the loop over the steps computes the recursive meaning of an execution |
| Orchestrator.Compensate | internal/saga/saga.go:87-128 | the reverse loop with its inner retries computes the recursive meaning of compensation |
| Orchestrator.ExecuteShape | internal/saga/saga.go:42-128 | for every step list and failure pattern: all actions in order, or a strict prefix and then its compensations in reverse, each tried at most three times, stopping at the first that never succeeds; the last step is never undone |
| Orchestrator.ForwardShape | internal/saga/saga.go:59-79 | an execution is a prefix of actions followed by the undoing of exactly that prefix |
| Orchestrator.BackwardStops | internal/saga/saga.go:91-124 | compensation undoes every undoable step in reverse order or stops at the first that fails |
| Orchestrator.BackwardTries | internal/saga/saga.go:101-117 | each compensation is tried at most three times, and three times if it stops the saga |
| Orchestrator.CompensationRestores | internal/saga/saga.go:87-128 | if compensations are left inverses of their actions, a compensated saga ends in its start state |
| Storage.Repository.SetTokenStatus | internal/repository/repository.go:125-261 | a status changes, with its flags, if and only if the transition table allows it |
| Storage.Repository.GetExpiredTokens | internal/repository/repository.go:263-287 | the scan returns each unresolved expired token once and nothing else |
| Storage.Repository.DeleteSettlementEntries | internal/settlement/service.go:425-429 | exactly the settlement's entries and its token's release entry are deleted |
| Storage.Repository.CheckLedgerInconsistencies | internal/repository/repository.go:588-613 | the grouping loop returns exactly the transactions whose entries do not net to zero, with their nets |
| Storage.Repository.AuditAccountBalances | internal/repository/repository.go:1074-1132 | each account whose balances differ from the books is listed once, with the difference, and no other |
| Storage.Repository.SumLiveTokens | internal/repository/repository.go:1107-1115 | the sum of the owner's ISSUED and HELD tokens |
| Services.TokenService.IssueToken | internal/token/service.go:98-231 | the statements of an issue have exactly the effect of its transaction, or none |
| Services.TokenService.ReleaseOne | internal/token/service.go:241-308 | one release transaction, with its re-check under the lock |
| Services.TokenService.ReleaseExpiredTokens | internal/token/service.go:233-315 | the loop tries every expired token once, skips failures, and counts the releases |
| Services.SettlementService.Settle | internal/settlement/service.go:73-548 | a payment is a duplicate exactly if its intent is SETTLED, REJECTED, FAILED or DUPLICATE, and then nothing changes; it is admitted exactly if moreover the checks pass and its token exists, is the sender's, has not expired, is not consumed and covers the amount; a rejected one leaves its failed intent, a failure message and, if its intent exists, an event; an admitted one ends as its saga's outcome says, with a success message and event exactly if it completed |
| Services.SettlementService.RunSaga | internal/settlement/service.go:434-510 | the four actions run in order with the outcome the orchestrator defines, and a success message and event exactly if all of them commit |
| Services.SettlementService.UndoSaga | internal/saga/saga.go:87-128 | the compensations of a settlement run in reverse with three tries each |
| Services.SettlementService.LockBalances | internal/settlement/service.go:223-234 | both balances are read, after locking the account rows in name order, or the missing account is an error |
| Services.SettlementService.ReserveAction | internal/settlement/service.go:222-273 | the statements of RESERVE have the effect of its transaction, insert the intent with the payment's own columns, and lock rows in the order of its lock program |
| Services.SettlementService.HoldAction | internal/settlement/service.go:287-299 | the statements of CONSUME_TOKEN have the effect of its transaction and lock rows in the order of its lock program |
| Services.SettlementService.CommitAction | internal/settlement/service.go:312-395 | the statements of LEDGER_COMMIT have the effect of its transaction and lock rows in the order of its lock program |
| Services.SettlementService.UndoReserveAction | internal/settlement/service.go:274-283 | the statements that undo RESERVE have the effect of that transaction and follow its lock program |
| Services.SettlementService.UndoHoldAction | internal/settlement/service.go:300-308 | the statements that undo CONSUME_TOKEN have the effect of that transaction and follow its lock program |
| Services.SettlementService.UndoCommitAction | internal/settlement/service.go:396-432 | the statements that undo LEDGER_COMMIT have the effect of that transaction and follow its lock program |
| Services.SettlementService.SaveFailedIntent | internal/settlement/service.go:550-591 | a failed intent is inserted unless its row exists or there is no token named UNKNOWN; the message is written in any case, the event only if the intent is there |
| Reconciliation.ReconciliationService.RunScan | internal/reconciliation/service.go:48-91 | a scan releases expired tokens, then expires exactly the overdue intents in flight, then reports the imbalances of the ledger |
| Reconciliation.ScanIsARun | internal/reconciliation/service.go:48-86 | a scan is a run of the settlement machine, so every guarantee holds after it |
| Reconciliation.ScanReportsOnlyFrozen | internal/reconciliation/service.go:88-116 | after a failure-free scan the ledger check reports a token past its expiry if and only if undoing a hold had invalidated it |
| Reconciliation.StaleScanOverwritesStatus | internal/reconciliation/service.go:75-81 | the status write of a scan marks any settled intent EXPIRED and leaves the settlement standing |
| Reconciliation.InFlightExactly | internal/repository/repository.go:367-391 | the statuses a scan looks at are exactly those that are not final |
| Reconciliation.ScanLeavesNothingOverdue | internal/reconciliation/service.go:57-86 | a scan marks EXPIRED exactly the old and expired intents in flight that it can write to, and none of them is overdue afterwards |
| Statuses.SettledStatusExactly | internal/repository/repository.go:331-359 | after any continuation a settled intent is EXPIRED if reconciliation wrote to it meanwhile, and SETTLED if it did not |
| Statuses.SettledOrExpired | internal/settlement/service.go:347-351 | in every run the intent of a committed settlement is SETTLED or EXPIRED |
| Statuses.LateScanSparesSettled | internal/repository/repository.go:367-391 | a scan that reads its list after the commit never lists the settled intent and leaves it SETTLED |
| Outbox.OutboxWorker.ProcessSingleEvent | internal/outbox/outbox.go:98-155 | publish, then mark PUBLISHED, or count the failure and at the fifth move the event to the dead-letter queue; nothing changes if recording fails |
| Outbox.OutboxWorker.ProcessOutboxBatch | internal/outbox/outbox.go:71-96 | claiming and processing a batch is the fold of its events |
| Outbox.OutboxWorker.ReplayDLQEvent | internal/outbox/outbox.go:158-187 | what was read of a dead letter, then or earlier, becomes a pending event with no retries on the stream its payload names or on payment.replayed, and the dead letter is gone; nothing read is an error |
| Outbox.InvRun | internal/outbox/outbox.go:71-187 | the outbox invariant holds in every run of any number of workers, crashes, replays and operators |
| Outbox.NoEventClaimedTwice | internal/repository/repository.go:896-940 | no event is in two hands at once |
| Outbox.CommittedRows | internal/repository/repository.go:957-975 | every committed row is below the retry limit, never FAILED, and carries an inserted payload |
| Outbox.DeliveredAtMostOnce | internal/outbox/outbox.go:103-112 | the bus is called at most five times for an outbox id and never again after an acknowledged call |
| Deliveries.PublishedExactly | internal/repository/repository.go:942-955 | in every run a row is PUBLISHED if and only if a call for it was acknowledged and recorded |
| Deliveries.DeadAfterFiveCalls | internal/repository/repository.go:957-975 | in every run an event that left the outbox was called for exactly five times, never acknowledged |
| Deliveries.HandsAreBatches | internal/repository/repository.go:896-940 | a worker never holds more than five events, in ascending order |
| Outbox.NothingIsLost | internal/outbox/outbox.go:117-150 | every inserted payload is in the outbox or the dead-letter queue unless an operator deleted it |
| Outbox.StrandedForever | internal/outbox/outbox.go:76-95 | a row left PROCESSING in nobody's hands is never claimed again |
| Deliveries.StrandedExactly | internal/outbox/outbox.go:76-155 | in every run a row is stranded if and only if some worker crashed while holding it or could not record its outcome |
| Deliveries.CalmRunsStrandNothing | internal/outbox/outbox.go:71-155 | without crashes and unrecorded outcomes no row is ever stranded |
| Replays.ExactlyOnceExactly | internal/outbox/outbox.go:158-187 | in every run each insertion is in exactly one place -- outbox, dead-letter queue or deleted -- if and only if no replay wrote after its dead letter was gone |
| Replays.StepIsExact | internal/outbox/outbox.go:71-187 | of all steps exactly the stale replays make copies, and no step removes one |
| Replays.OverlappingReplaysDuplicate | internal/outbox/outbox.go:158-187 | in every run, two overlapping replays of a dead letter insert its payload twice |
| Replays.DeletedComesBack | internal/api/router.go:505-520 | in every run, a replay that read a dead letter before an operator deleted it brings the payload back |
| Replays.DeadLettersHappen | internal/outbox/outbox.go:114-150 | five failed calls make a dead letter of any payload |
| Replays.CopiesHappen | internal/outbox/outbox.go:158-187 | some run puts one insertion into two places |
| Projection.ProjectionWorker.HandleDelivery | internal/projection/worker.go:38-169 | a decodable new message updates its row, the processed set and the checkpoint; any other changes nothing |
| Projection.Rebuild | cmd/rebuild/main.go:61-230 | the replay loop and the comparison compute the rebuilt table, its checkpoint and the exit status |
| Projection.OnlyFirstDeliveriesCount | internal/projection/worker.go:60-69 | any deliveries with repeats and garbage give the table, processed set and checkpoint of the first deliveries only |
| Projection.LiveTableIsSummary | internal/projection/worker.go:71-93 | the live row of a payment depends only on its own history: identity from the first event, state from the last |
| Projection.RebuiltTableIsSummary | cmd/rebuild/main.go:83-152 | so does the rebuilt row, despite different updates in memory, undecodable events included |
| Checkpoints.CheckpointIsLastNumber | internal/projection/worker.go:60-169 | the checkpoint is the number of the last first delivery that carries one |
| Checkpoints.LiveSettledAt | internal/projection/worker.go:38-103 | the live settlement time is that of the last settlement message first delivered for the payment |
| Checkpoints.RebuiltSettledAt | cmd/rebuild/main.go:83-152 | the rebuilt settlement time is that of the last stored settlement event |
| Projection.RebuildAgreesWithLive | internal/repository/repository.go:864-878 | whatever was delivered and whatever is stored, the live and the rebuilt table have the same payments with the same status, sender, receiver, amount and hops if and only if the two match on every payment: both nothing, or the same identity in the first fact and the same state in the last that decodes |
| Projection.MatchesExactly | cmd/rebuild/main.go:126-134 | if the worker was told exactly what decodes, the two match on a payment if and only if its first stored event decodes, or the first that does makes it UNKNOWN to UNKNOWN for 0 |
| Projection.DecodableTablesAgree | cmd/rebuild/main.go:83-152 | so if besides every stored event decodes, the tables agree |
| Projection.UnstoredPaymentFails | internal/db/migrations/000002_hardening.up.sql:11-18 | a payment the worker was told of but the store has nothing of makes the rebuild fail whatever else happened |
| Projection.RejectedPaymentFails | internal/settlement/service.go:570-590 | one rejected payment, delivered and not stored, is enough |
| Projection.RebuildSucceedsExactly | cmd/rebuild/main.go:83-229 | for all deliveries and events, rebuilding what the worker wrote succeeds if and only if the worker was told nothing or the two match on every payment, and there are no events or the last one is of a known type |
| Projection.VerifiedExactly | cmd/rebuild/main.go:185-219 | the comparison passes if and only if the tables agree or the old one was empty |
| EventSource.EventSourceManager.SaveEventAndSnapshot | internal/eventsource/eventsource.go:31-81 | the event is appended, and every interval-th version replaces the snapshot |
| EventSource.EventSourceManager.Replay | internal/eventsource/eventsource.go:84-127 | replay folds the events above the snapshot's version, with its error cases |
| Aggregates.FoldShows | internal/eventsource/eventsource.go:130-199 | for all events: folding fails if and only if a created event does not decode; otherwise every column comes from the last event that carries it, the identity from the last created event |
| EventSource.SnapshotReplayIsFullReplay | internal/eventsource/eventsource.go:84-127 | with increasing versions and a truthful snapshot, replay from the snapshot equals folding every event from empty |
| EventSource.ReplayIsFaithful | internal/eventsource/eventsource.go:31-127 | whatever callers save with increasing versions, replay equals the full fold if the last snapshot's aggregate was the right one |
| EventSource.OnlyTruthfulSnapshotsAreSafe | internal/eventsource/eventsource.go:84-127 | a snapshot replays rightly under every later event if and only if it is the fold of the events it covers |
| EventSource.SnapshotsOnTimeExactly | internal/eventsource/eventsource.go:60-78 | a snapshot follows every interval-th event if and only if the saves whose version the interval divides, with an aggregate, are exactly every interval-th save |
| EventSource.NumberedSavesAreOnTime | internal/eventsource/eventsource.go:60-78 | events numbered 1, 2, 3, ... with an aggregate get their snapshots on time |
| EventSource.SkipsNothingExactly | internal/eventsource/eventsource.go:110-120 | the version test skips nothing if and only if every version is above the snapshot's |
| EventSource.VersionOneNeverSnapshots | internal/settlement/service.go:473-489 | when every event is version 1 no snapshot is taken and replay is the full fold |
| EventSource.RepeatedVersionIsLost | internal/eventsource/eventsource.go:110-120 | with interval 1, an event that repeats the snapshot's version is lost |
| Recovery.Manager.RecordFailure | internal/recovery/manager.go:37-66 | a valid failure is decided by the policy and recorded with one message unless the payment already has an operation; an invalid one changes nothing |
| Recovery.Manager.RunOnce | internal/recovery/manager.go:101-152 | a pass drives every claimed operation in one transaction, or changes nothing |
| Recovery.InvRun | internal/recovery/manager.go:37-152 | the recovery invariant holds in every run |
| Recovery.RecoveryIsBounded | internal/recovery/manager.go:117-135 | one operation per payment; its requests are numbered 1 up to its attempt count with none missing or repeated, at most MaxAttempts, at most one for COMPENSATE |
| Recovery.BackoffIsKept | internal/recovery/recovery.go:92-98 | attempt k is never requested earlier than Cooldown * (2^k - 1) after recording |
| Recovery.DueMeansAttemptsLeft | internal/recovery/manager.go:118-123 | the branch for a due operation without attempts left is never taken |
| Recovery.FinalIsFinal | internal/recovery/models.go:68-84 | in every continuation a row keeps its payment and action, changes state only from SCHEDULED to EXHAUSTED or ESCALATED, and then never changes again |
| Recovery.MovesExactly | internal/recovery/models.go:68-84 | the transition table allows exactly ten moves, besides staying |
| Recovery.NeverRevived | internal/recovery/models.go:67-84 | no chain of valid transitions leaves COMPENSATED, EXHAUSTED or ESCALATED |
| Diagnosis.OperationsAreJustified | internal/recovery/recovery.go:71-91 | in every run each operation goes back to a failure recorded at its creation time whose amount, age, confidence and category call for its action and no other |
| Diagnosis.RequestsAreJustified | internal/recovery/manager.go:101-152 | a retry is requested only for a confident network or infrastructure failure within budget, a review only for a payment failure |
| Diagnosis.RequestsAreDue | internal/recovery/manager.go:101-152 | in every run each request was made by a pass at whose time its operation was scheduled and due |
| Diagnosis.DecidesExactly | internal/recovery/recovery.go:71-91 | for any failure and any number of attempts, the exact condition of each action |
| Diagnosis.TightenedPolicyCloses | internal/recovery/manager.go:117-123 | an operation that made the attempts allowed, under any earlier policy, is closed at its next pass without a request |
| Diagnosis.EveryOperationIsDiagnosedOnce | internal/recovery/manager.go:37-66 | exactly one message announces each operation |
| Recovery.PassSucceedsExactly | internal/recovery/manager.go:101-152 | a pass succeeds if and only if no claimed operation has used the three attempts the table allows |
| Recovery.OverLimitBlocks | internal/db/migrations/000004_recovery.up.sql:13-24 | with MaxAttempts above three, an operation at three attempts aborts every pass that claims it |
| Recovery.BlocksExactly | internal/db/migrations/000004_recovery.up.sql:19 | some run leaves a scheduled operation that no pass can advance if and only if the policy allows more than three attempts |
| Cluster.SettlementCluster.ProposeCommand | internal/cluster/cluster.go:77-153 | an available leader and every live follower append the command; it succeeds if and only if two nodes acknowledge |
| Cluster.SettlementCluster.Replicate | internal/cluster/cluster.go:97-128 | the loop appends to exactly the live followers and counts them |
| Cluster.SettlementCluster.RecoverNode | internal/cluster/cluster.go:174-202 | the node comes back with the leader's log and commit index |
| Cluster.SettlementCluster.RunElection | internal/cluster/cluster.go:205-239 | in any scan order a live node with a longest log wins and can lead at once; with none alive all flags are cleared; nobody else's state changes |
| Cluster.OpIsSafe | internal/cluster/cluster.go:77-239 | every operation keeps live logs and commit indices equal to the leader's, crashed logs prefixes, one leader flag at most; the log only grows and the commit index never falls |
| Cluster.LogOnlyGrows | internal/cluster/cluster.go:156-239 | so over every sequence of operations |
| Cluster.WhoIsLive | internal/cluster/cluster.go:156-202 | a crash takes one node out, a recovery brings one in, nothing else changes who is live |
| Cluster.RecoveryUndoesCrash | internal/cluster/cluster.go:156-202 | a live node that crashes and recovers leaves the cluster as it was, leader or not |
| Cluster.CrashedNodesSleep | internal/cluster/cluster.go:97-128 | nothing but its recovery changes the log or commit index of a crashed node |
| Cluster.ElectionRestoresService | internal/cluster/cluster.go:77-239 | with two nodes live, after an election the next proposal is appended to every live log and committed |
| Cluster.LeaderlessRefuses | internal/cluster/cluster.go:77-96 | after the leader crashes, proposals change nothing |
| Cluster.NobodyToElect | internal/cluster/cluster.go:205-239 | with no node live an election leaves no leader, and proposals change nothing |
| Cluster.ProposalKeepsItsIndex | internal/cluster/cluster.go:91-153 | an accepted command keeps its index forever in every live log, and stays committed if it reached a quorum |
| Cluster.AtMostOneLeader | internal/cluster/cluster.go:205-239 | no two nodes carry the leader flag, ever |
| RateLimit.TokenBucket.Allow | internal/api/middleware.go:31-49 | refill, cap, and spend one token if there is one |
| RateLimit.BucketStaysInBounds | internal/api/middleware.go:31-49 | over any calls at nondecreasing times the tokens stay between 0 and the capacity |
| RateLimit.RateBound | internal/api/middleware.go:31-49 | between any two times at most capacity + rate * time calls are allowed |
| RateLimit.BurstIsAllowed | internal/api/middleware.go:22-49 | the bound is attained by a burst on a full bucket |
| RateLimit.BurstExactly | internal/api/middleware.go:31-49 | of n calls at one time exactly as many are allowed as there are whole tokens available, and each takes one |
| RateLimit.IdleRefills | internal/api/middleware.go:31-49 | after being empty and idle for a time, a bucket serves exactly rate * time calls, up to its capacity |

## Left out

- Cryptography, device attestation and the risk engine: their verdicts are inputs of `Settle`.
- The mapping of error texts to statuses at the end of `Settle`: the resulting status is an input.
- Saga tracking rows, audit events and the outbox messages about tokens. The compensation of PUBLISH never runs, since the last step is never undone.
- Services.TokenService.ReleaseOne: a commit that fails after the closure counted its token is an unreachable database, which does not count here.
- Services.SettlementService.Settle: the saga runs alone in this method; interleavings are the subject of `Machine`.
- Reconciliation.ReconciliationService.RunScan: the age and expiry of intents are inputs, and the queue metrics are not computed.
- Locks.NoCircularWait: covers rows of tokens, accounts, nonces and intents that a statement reads for update, updates or deletes; not ledger rows, inserts that wait for a unique key, or the share locks PostgreSQL takes for foreign keys.
- PostgreSQL isolation anomalies and ambiguous commits.
- The credit limit formula for issuing: the limit is an input.
- The seeder, which sets reserved balances without ledger entries: runs start from empty tables.
- Outbox.StrandedForever: says what happens to rows a crash leaves PROCESSING; nothing in the code reclaims them, so no progress is claimed.
- Outbox.DeliveredAtMostOnce: counts acknowledged calls, since an error of the bus does not tell whether the message arrived.
- JSON encoding: payloads are values, and a payload that does not decode is a constructor.
- Projection.ProjectionWorker.HandleDelivery: deliveries are handled one at a time; the code tests for a processed event outside its transaction.
- Projection.RebuildAgreesWithLive: does not compare settlement times, as the tool does not.
- Recovery.BackoffIsKept: durations are unbounded integers, so a shift that overflows is not modelled.
- Recovery.Manager.RunOnce: the limit on how many operations one pass claims is not modelled; a pass may claim any due operations.
- The classifier of failures by text: the classification is an input of `RecordFailure`.
- Services.SettlementService.SaveFailedIntent: the reference to the device UNKNOWN, in a table outside the model, is part of the input `saved`.
- Cluster.SettlementCluster.ProposeCommand: taken as one step, although the code holds no lock across a proposal, and without cancellation of its context.
- RateLimit.RateBound: floats are read as reals; the map of buckets per client is not modelled.
- HTTP handlers, configuration, metrics, relaying and duplicate suppression in Redis, the event bus, benchmarks and simulations.
