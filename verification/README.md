# Verification of the banking backend's money and delivery paths

A Dafny 4.11 project that models the backend's ledger, daily limits, outbox, event consumers, audit
trail, login and token handling, and the guard in front of transfers, and proves what they keep.

`dafny verify dfyconfig.toml` checks everything.

## How the model is built

Each component has up to three layers.

- **A machine.** State as values, one action per SQL statement, Lua script, broker operation or clock
  read, and a total `Next`; `Run` folds it over any sequence of actions. A statement that would wait for
  a row lock or a unique key changes nothing when it is scheduled, so every interleaving of every number
  of requests is a run. Any call that may throw has an action that makes it throw; a database transaction
  that throws leaves nothing behind.
- **Theorems** about every run, by invariants that each step keeps. Where the code does not keep what one
  would expect, there is a run from the initial state that breaks it, the exact steps that do (`... <==> !...`
  for every step), and from them which runs keep it.
- **The program as written**: classes whose methods update fields in place, with the loops, early returns
  and catch blocks of the source, proved against a specification function, which is in turn proved to be
  a run of the machine. What that function answers and leaves behind is stated case by case, in the terms of
  the tables and keys, by the lemmas named `...Answers`, `...Ends` and `...Verdict`.

| component | machine and specification | theorems | program |
|---|---|---|---|
| ledger | `LedgerStatements`, `LedgerMachine`, `LedgerSerial` | `LedgerInvariant`, `LedgerTheorems`, `LedgerOwnership`, `LedgerProgress`, `LedgerClosing`, `LedgerAnswers` | `TransactionsService` |
| daily limits | `DailyLimit`, `DailyLimitRuns` | the same, `DailyLimitConditions`, `DailyLimitOverspending` | `FraudService` |
| outbox | `OutboxMachine` | `OutboxTheorems` | `OutboxService` |
| consumers | `ConsumerMachine` | `ConsumerTheorems`, `ConsumerConditions`, `ConsumerLosses` | `EventConsumer` |
| events and audit | `Text`, `EventPayload`, `TransactionAudit` | the same | `TransactionAudit` |
| tokens and login | `TokenMachine`, `LoginLock`, `LoginOverlap`, `AuthSpecification` | `TokenTheorems`, `LoginLock`, `LoginOverlap`, `AuthSpecification`, `AuthAnswers` | `AuthService` |
| from ledger to consumers | those of ledger, outbox and consumers | `DeliveryPath` | |
| the ledger under its limit | those of ledger and daily limits | `LedgerLimits` | |
| guard and lock | `TransferLock` | `TransferLock`, `GuardAnswers` | `TransactionsGuard` |
| the rules before the ledger | those of ledger and `FraudService` | `LedgerScreening` | |

## What is assumed

- One clock for the application, Postgres and Redis; it never runs backwards. Milliseconds and cents are
  natural numbers, amounts are whole cents, ids are canonical. Postgres runs at READ COMMITTED.
- Currency is never compared in a transfer (src/transactions/transactions.service.ts:470-501), so money is
  conserved as raw amounts per account.
- Daily limits: Redis answers, and each script runs on the UTC day its keys were computed for (`OnTime`;
  `LateScriptPassesTheLimit` is what happens otherwise). Nothing else is needed for the keys to agree with
  the reservations. For the limit itself the exact steps that uncover a completed row take the place of an
  assumption, and one active request and one amount per reference (`Orderly`, `OneAmount`) are one way to
  have none of them.
- Broker: a `true` from the retry publish means the broker took the message, and no process dies. Time and
  lost updates need no assumption: the exact conditions of `ConsumerConditions` take their place. FAILED
  updates that go through (`Faithful`) are one way to lose nothing, however long handlers take, and handlers
  that finish within the TTL (`Timely`) one way to have no takeover.

## Where the code does not do what one would expect

- The publisher gives up on an event only in its log: an exhausted event gets no retry time, which the
  claim reads as "at once" (`ExhaustedFailsAgainAtOnce`), so an event can fail any number of times within a
  bounded time (`AttemptsAreUnbounded` is such a run for every number).
- The daily limit can be passed. A live reservation lets any amount through (`TwoAmountsPassTheLimit` spends
  any amount under any limit), and two requests under one reference share one reservation, which the failure
  of one takes from under the other (`OverlapsPassTheLimit` spends any multiple of the limit on one day). The
  limit is kept while no step uncovers a completed row: the commit of a request whose reservation is gone or
  too small, or a release that deletes a reservation a completed row stands on (`UncoveredExactly`,
  `CoveredExactly`, `DailyLimitHolds`). It counts days of reservation: by the day of the row it can be passed
  at midnight (`MidnightPassesTheLimit`).
- A closed account can receive money, because a credit does not look at the status again
  (`LateCloseKeepsMoney`): exactly when a transaction commits whose credit statement met a closed account
  (`ClosedStaysEmptyExactly`, `CreditMeetsTheStatus`). Closes that wait for open transactions are one way to
  keep that from happening (`QuietNeverCreditsClosed`).
- A message is lost exactly when a claim refused as a duplicate acknowledges its last copy in sight
  (`NothingIsLostExactly`; `LostFailedUpdateLosesTheMessage` is such a run).
- `markFailed` looks at neither status nor claim, so COMPLETED can be undone: exactly by the `markFailed` of
  a handler of the same message, which needs a claim taken over from a handler still at work
  (`UndoneExactly`, `UndoneOnlyAfterTakeover`; `SlowHandlerUndoesCompleted` is such a run).
- The audit insert comes after the commit and is awaited, so login, refresh, logout and password change can
  answer with an error although they have changed everything (`LogInErrors`, `RefreshErrors`,
  `LogOutErrors`, `PatchPasswordErrors` say exactly when).
- A customer can get two live tokens: exactly when a login commits beside a live token its snapshot did
  not see (`OneLiveExactly`; `ConcurrentLoginLeavesTwoLive` is such a run).
- Overlapping logins are not held to the lockout bound: it holds exactly when no two overlap
  (`SerialBoundExactly`). With at most k overlapping they are held to one that grows with k (`OverlapBound`)
  and is attained for every k (`OverlapBoundIsAttained`); without a limit on k there is none
  (`OverlapBreaksTheBound`).
- A fraud rejection that names an account that does not exist is not recorded: the foreign key rolls it
  back (`RejectionIsRecorded`).
- A reference of white space passes the request's validation (`IsNotEmpty`), reaches the ledger when the
  header carries another one or the guard is skipped, and its event is then refused by the consumer
  (`EveryEventIsAudited`, both directions).
- The guard runs before body validation (src/main.ts:25-29) and infers the operation from the body, so a
  body that validation then refuses, such as a transfer with a negative amount or a deposit that also names
  a source account, keeps the user's transfer lock until it expires. Exactly that, a lost release call, a
  lock taken by a call that threw all the same, and an end in a handler without a release orphan a lock
  (`OwnersKept`); validation keeps the last from happening.
- The idempotency key is deleted without looking whose it is (`FailingReplayFreesAnothersKey`). Claims lose
  their key exactly by time or by such a deletion (`ExposedExactly`), and only then can a key get two
  claimants (`OneClaimantPerKey`, `DoubleClaimExactly`).
- The transfer loop would debit twice if the two accounts were equal; only the first fraud rule prevents
  it (`SameAccountDebitsTwice`, `ApprovedTransfersDiffer`).
- A catch block gives the daily reservation back only once per reference and day (`SecondReleaseIsANoOp`).

## Model

| member | source | states |
|---|---|---|
| `LedgerStatements.FindRow` | src/transactions/transaction-idempotency-checker.ts:16-24 | the lookup returns a row with the key, and none only if there is none |
| `LedgerInvariant.NextInv` | src/transactions/transactions.service.ts:64-657 | every statement of every request, and every throw, keeps the ledger invariant: open work matches its request and stage, no two transactions hold one key or account, committed rows and events correspond |
| `LedgerInvariant.StatementExclusive` | src/transactions/transactions.service.ts:503-538 | an unblocked statement takes no key or account that another open transaction holds |
| `LedgerInvariant.OpenSurvivesCommit` | src/transactions/transaction-repository.ts:52-75 | a commit beside an open transaction invalidates nothing it has written |
| `LedgerTheorems.CommitWritesRow` | src/transactions/transactions.service.ts:503-543 | what a transaction writes to balances at commit is exactly the effect its row records |
| `LedgerTheorems.BalancesFollowRows` | src/transactions/transactions.service.ts:467-596 | in every run each balance is its start plus completed credits minus completed debits, and never negative |
| `LedgerTheorems.OnlyCommitsWrite` | src/transactions/transactions.service.ts:87-139 | nothing but a commit changes a balance, a row or an event; rollback and waiting leave no trace |
| `LedgerTheorems.ApprovedTransfersDiffer` | src/fraud/rules/transfer/same-account-transfer.rule.ts:9-16 | a transfer is approved exactly if its accounts differ and no later rule rejects |
| `LedgerTheorems.SameAccountDebitsTwice` | src/transactions/transactions.service.ts:520-538 | with equal ids the loop is two debits, turning 100 into 80 under a row with no net effect |
| `LedgerTheorems.RowsOnlyGrow` | src/transactions/transaction-repository.ts:7-50 | committed rows are never changed or removed |
| `LedgerTheorems.SameKeySameAnswer` | src/transactions/transaction-idempotency-checker.ts:67-137 | of two requests with one (actor, type, reference) at most one ever commits, and answers that name a transaction agree |
| `LedgerTheorems.FallbackNamesTheWinner` | src/transactions/transaction-idempotency-checker.ts:67-137 | after a unique violation there is exactly one committed row of the key, and the fallback answers with it |
| `LedgerTheorems.LoserGetsTheWinnersAnswer` | src/transactions/transactions.service.ts:151-160 | in every run a loser on the unique key whose lookup does not throw commits nothing and answers with the winner's row, or the winner's rejection |
| `LedgerTheorems.LoserAndWinnerAgree` | src/transactions/transactions.service.ts:334-362 | once winner and loser have both answered, the answers are equal |
| `LedgerTheorems.AnswersAreTrue` | src/transactions/transactions.service.ts:151-176 | a success names a committed completed row of the key, a fraud rejection a committed rejected one; other failures committed nothing; the PENDING and FAILED fallback branches are never reached |
| `LedgerTheorems.RowsCountCommits` | src/transactions/transactions.service.ts:151-176 | rows grow by exactly the commits of the requests |
| `LedgerTheorems.EventsMirrorRows` | src/transactions/transaction-event-writer.ts:29-131 | committed rows are COMPLETED or REJECTED only, and correspond one to one, with reference, amount and accounts, to completed and failed events |
| `LedgerOwnership.OnlyOwnMoneyMoves` | src/transactions/transaction-account-validator.ts:34-70 | in every run a completed row committed in it takes its money from an account of its actor, or as a deposit pays into one, and every account it names was active at some moment of the run |
| `LedgerProgress.WaitsClimb` | src/transactions/transactions.service.ts:503-538 | whoever waits for a lock stands lower in the lock order than its holder |
| `LedgerProgress.WaitsAreAcyclic` | src/transactions/transactions.service.ts:514-538 | no chain of waits returns to its start: no deadlock |
| `LedgerProgress.SomeoneCanStep` | src/transactions/transactions.service.ts:514-538 | while a transaction is open, some open transaction is not waiting |
| `LedgerProgress.FaultShortens` | src/transactions/transactions.service.ts:576-595 | even a throw brings its request nearer to its answer: retries are bounded |
| `LedgerProgress.EveryoneCanFinish` | src/transactions/transactions.service.ts:467-610 | from every reachable state all requests can be driven to an answer within the steps they have left |
| `LedgerClosing.ClosedFillsExactly` | src/transactions/transaction-repository.ts:52-61 | a step leaves money on a closed account exactly if it commits a credit to one |
| `LedgerClosing.ClosedStaysEmptyExactly` | src/accounts/accounts.service.ts:219-229 | closed accounts are empty all along a run exactly if no step of it commits a credit to one |
| `LedgerClosing.CreditMeetsTheStatus` | src/transactions/transaction-repository.ts:52-61 | the row lock keeps the status fixed from the credit statement to the commit, so a status check there would decide |
| `LedgerClosing.QuietNeverCreditsClosed` | src/accounts/accounts.service.ts:219-229 | a run whose closes wait until no open transaction has read the account never credits a closed one |
| `LedgerClosing.StatusMoves` | src/accounts/accounts.service.ts:121-229 | an account's status changes exactly as its owner asks, while no open transaction holds it: active to frozen, frozen to active, and to closed when empty |
| `LedgerClosing.ClosedIsFinal` | src/accounts/accounts.service.ts:219-229 | a closed account stays closed in every run |
| `LedgerClosing.LateCloseKeepsMoney` | src/transactions/transaction-repository.ts:52-61 | a close between a deposit's checks and its credit ends in a closed account with money |
| `LedgerSerial.ServeIsARun` | src/transactions/transactions.service.ts:380-657 | serving a request alone, with any faults and retries, is a run of the interleaved ledger |
| `LedgerSerial.RejectionIsRecorded` | src/transactions/transactions.service.ts:414-445 | a rejection is recorded, with its event, exactly if its key is free and the accounts it names exist; otherwise nothing is left |
| `LedgerAnswers.DepositAnswers` | src/transactions/transactions.service.ts:64-176 | on a free key: account missing, not the actor's, not active are refused in that order with nothing changed; else that one balance grows by the amount, with the row and event in full |
| `LedgerAnswers.WithdrawAnswers` | src/transactions/transactions.service.ts:178-378 | the same for an approved withdrawal, also refused when the balance does not cover it; a refusal gives the reservation back |
| `LedgerAnswers.TransferAnswers` | src/transactions/transactions.service.ts:380-657 | the same for an approved transfer: both accounts must exist and be active, only the source must be the actor's and cover the amount; both balances move |
| `LedgerAnswers.RejectionAnswers` | src/transactions/transactions.service.ts:211-259 | a rejected request moves no money; it is recorded under the reason of the first rule to reject unless an account is missing, and gives the reservation back |
| `LedgerAnswers.SameAccountAnswers` | src/transactions/transactions.service.ts:414-467 | a transfer to its own account is always rejected, under SAME_ACCOUNT_TRANSFER |
| `LedgerAnswers.SettledKeyAnswers` | src/transactions/transaction-idempotency-checker.ts:26-65 | a completed row or fraud rejection of the key is the answer before any rule or account is looked at; nothing changes |
| `LedgerAnswers.UnsettledKeyAnswers` | src/transactions/transaction-idempotency-checker.ts:67-137 | with a pending row of the key a sound request ends in progress, with a failed one unprocessable, and nothing changes |
| `LedgerAnswers.RepeatAnswers` | src/transactions/transactions.service.ts:71-85 | whoever asks again under an answered key gets that answer, whatever it asks and whatever has become of the accounts |
| `LedgerAnswers.ReleasedExactly` | src/transactions/transactions.service.ts:334-352 | whatever throws, the reservation is given back exactly when a withdrawal or transfer not decided by a settled row ends in an error |
| `LedgerAnswers.FaultsOnlyFail` | src/transactions/transactions.service.ts:334-378 | whatever throws in whichever attempts, a request either answers with a technical error and leaves the tables, or does what it does undisturbed |
| `LedgerAnswers.OneAttempt` | src/transactions/transactions.service.ts:87-160 | deposits and withdrawals are tried once |
| `LedgerAnswers.ThreeAttempts` | src/transactions/transactions.service.ts:467-610 | a transfer is tried again after a retryable error, and only then, and three times in all |
| `LedgerScreening.ScreensAlike` | src/transactions/transactions.service.ts:202-259 | the verdict the ledger acts on is that of the module's rule lists, reason included |
| `LedgerScreening.CompletedWasWithinRules` | src/transactions/transactions.service.ts:202-259 | no withdrawal or transfer completes past a rule: threshold, reservation, two accounts, transfers of the minute |
| `TransactionsService.TransactionRepository.DecrementBalance` | src/transactions/transaction-repository.ts:63-75 | the guarded decrement changes one balance and answers 1 exactly when the balance suffices |
| `TransactionsService.TransactionRepository.IncrementBalance` | src/transactions/transaction-repository.ts:52-61 | the increment changes one existing balance and nothing else |
| `TransactionsService.TransactionClient.Commit` | src/transactions/transactions.service.ts:87-139 | commit makes the transaction's work visible as one step |
| `TransactionsService.Service.MoveBalances` | src/transactions/transactions.service.ts:514-538 | the loop over the ordered ids applies the moves of the specification and stops at the first throw |
| `TransactionsService.Service.TransferAttempts` | src/transactions/transactions.service.ts:467-610 | the retry loop makes at most three attempts, again only after a retryable error, and leaves only the last one's work |
| `TransactionsService.Service.CreateDeposit` | src/transactions/transactions.service.ts:64-176 | tables, ids and answer are those of the specification |
| `TransactionsService.Service.CreateWithdraw` | src/transactions/transactions.service.ts:178-378 | the same, with fraud rejection and whether the reservation was released |
| `TransactionsService.Service.CreateTransfer` | src/transactions/transactions.service.ts:380-657 | the same for transfers, retries included |
| `DailyLimit.TtlCoversTheDay` | src/fraud/rules/withdraw/daily-withdraw-limit-exceeded.rule.ts:206-221 | a key set with the computed TTL, at that time or later, outlives the day, by at most a second if set at once |
| `DailyLimit.ReserveKeeps` | src/fraud/rules/withdraw/daily-withdraw-limit-exceeded.rule.ts:12-39 | RESERVE keeps that, allows exactly when the reference is reserved already or the sum still fits, and touches no other reservation |
| `DailyLimit.ReleaseKeeps` | src/fraud/rules/withdraw/daily-withdraw-limit-exceeded.rule.ts:40-77 | RELEASE keeps it, takes off exactly what was reserved unless released before, never needs its clamp and shortens no TTL below the day |
| `DailyLimit.ReleaseUndoesReserve` | src/fraud/rules/transfer/daily-transfer-limit-exceeded.rule.ts:12-77 | a first release undoes the reservation: other reservations and total are as before |
| `DailyLimit.SecondReleaseIsANoOp` | src/fraud/rules/withdraw/daily-withdraw-limit-exceeded.rule.ts:51-53 | once released that day, a new reservation of the reference cannot be given back |
| `DailyLimit.KeysLive` | src/fraud/rules/withdraw/daily-withdraw-limit-exceeded.rule.ts:32-39 | a new total lives to the end of its day, reservations and release marks an hour longer, each by less than a second more than the script was late; a release leaves a live total its time |
| `DailyLimit.SharedReservationIsLost` | src/fraud/rules/withdraw/daily-withdraw-limit-exceeded.rule.ts:24-27 | at the scripts: two requests on one reference share one reservation, and one failure removes it from under the other; `OverlapsPassTheLimit` is the run that spends with it |
| `DailyLimitRuns.TotalAgreesInEveryRun` | src/fraud/rules/withdraw/daily-withdraw-limit-exceeded.rule.ts:12-77 | in every state of every run with scripts on time, for any requests and amounts, the total is the sum of the live reservations and within the limit, and nothing expires before its day ends |
| `DailyLimitRuns.ClampNeverFires` | src/fraud/rules/withdraw/daily-withdraw-limit-exceeded.rule.ts:60-65 | in such runs a release never finds less in the total than it takes off |
| `DailyLimitRuns.ReleasesOnlyAfterErrors` | src/transactions/transactions.service.ts:334-352 | in every run a request that comes to release has thrown an error or recorded a rejection; one that completed, or lost its key to another's row, releases nothing |
| `DailyLimitConditions.UncoveredExactly` | src/fraud/rules/withdraw/daily-withdraw-limit-exceeded.rule.ts:24-77 | a step leaves a completed row without a reservation of at least its amount exactly if it commits a request whose own is gone or smaller, or is a day's first release of a reservation a completed row stands on |
| `DailyLimitConditions.CoveredExactly` | src/fraud/rules/withdraw/daily-withdraw-limit-exceeded.rule.ts:12-77 | all along a run with scripts on time every completed row is covered exactly if no step does that |
| `DailyLimitConditions.DailyLimitHolds` | src/transactions/transactions.service.ts:334-352 | in every run with scripts on time in which no step does that, what completes on a day's reservations sums to at most that day's total and the limit, whatever fails, is released, retried or vanishes, for any amounts and any number of requests per reference |
| `DailyLimitConditions.LimitByCreationDay` | src/fraud/rules/transfer/daily-transfer-limit-exceeded.rule.ts:12-77 | if moreover no commit falls on another day than its reservation, the rows created on a day sum to at most the limit |
| `DailyLimitConditions.OrderlyNeverUncovers` | src/transactions/transactions.service.ts:178-352 | requests on time, one active at a time per reference and all for its one amount, never uncover a row |
| `DailyLimitOverspending.TwoAmountsPassTheLimit` | src/fraud/rules/withdraw/daily-withdraw-limit-exceeded.rule.ts:24-27 | from no keys, one request after the other under one reference: after two failures a third completes with any amount under any positive limit |
| `DailyLimitOverspending.OverlapsPassTheLimit` | src/transactions/transactions.service.ts:334-352 | from no keys, on time, with one amount per reference: two requests at once under each of n references complete n times the limit on one day |
| `DailyLimitOverspending.MidnightPassesTheLimit` | src/fraud/rules/withdraw/daily-withdraw-limit-exceeded.rule.ts:206-221 | a run that uncovers nothing whose rows created on one day sum to twice the limit |
| `DailyLimitOverspending.LateScriptPassesTheLimit` | src/fraud/rules/withdraw/daily-withdraw-limit-exceeded.rule.ts:29-37 | a script that runs after its day finds the total expired: one day's reservations, each covering its row, sum to twice the limit |
| `FraudService.DailyRuleLast` | src/fraud/fraud.module.ts:39-80 | with the daily rule last an approval leaves its reservation and a rejection by any rule has reserved nothing |
| `FraudService.WithdrawVerdict` | src/fraud/fraud.module.ts:59-80 | a withdrawal is approved exactly if its amount is at most the threshold and its reference is reserved or the day's sum still fits; the first rule that fails gives the reason |
| `FraudService.TransferVerdict` | src/fraud/fraud.module.ts:30-55 | the same for a transfer, which must also name two accounts and not exceed the transfers of the minute |
| `FraudService.OthersReserveNothing` | src/fraud/fraud.service.ts:22-54 | evaluating any rules but the daily one changes no key |
| `FraudService.ReleaseAllIsOneRelease` | src/fraud/fraud.service.ts:88-147 | with the daily rule last the release loop is one RELEASE, or nothing if that call is lost |
| `FraudService.ReleaseGivesBack` | src/fraud/fraud.service.ts:88-147 | releasing after an approval gives back exactly what the evaluation reserved, the first time that day |
| `FraudService.RedisKeys.ReserveScript` | src/fraud/rules/withdraw/daily-withdraw-limit-exceeded.rule.ts:12-39 | the script's updates in place equal the specification of RESERVE |
| `FraudService.RedisKeys.ReleaseScript` | src/fraud/rules/withdraw/daily-withdraw-limit-exceeded.rule.ts:40-77 | the script's updates in place, clamp and PTTL branch included, equal the specification of RELEASE |
| `FraudService.Service.EvaluateRules` | src/fraud/fraud.service.ts:22-86 | the loop returns the first rejection and has run exactly the rules before it |
| `FraudService.Service.ReleaseReservations` | src/fraud/fraud.service.ts:88-147 | the loop releases through every rule that reserves, skipping those whose call fails |
| `OutboxTheorems.OneMatchingClaim` | src/outbox/outbox.service.ts:129-142 | at most one unspent claim ever matches an event |
| `OutboxTheorems.OvertakenNeverWrites` | src/outbox/outbox.service.ts:187-200 | a claim overtaken after its TTL can never again change its row, whatever happens later |
| `OutboxTheorems.ProcessedIsFinal` | src/outbox/outbox.service.ts:236-261 | a PROCESSED row never changes again |
| `OutboxTheorems.StatusMachine` | src/outbox/outbox.service.ts:102-200 | PUBLISHING exactly when claimed, PROCESSED only after a confirmed publish, retryCount is the number of FAILED writes |
| `OutboxTheorems.ConfirmedNeverFails` | src/outbox/outbox.service.ts:162-175 | after a confirmed publish, whatever happens in between, the claim writes PROCESSED or nothing and counts no retry |
| `OutboxTheorems.BackoffBound` | src/outbox/outbox.service.ts:177-200 | the k-th failure comes at least base × (2^(k−1) − 1) ms after the first, takeovers included, for k up to maxRetries + 1 |
| `OutboxTheorems.AlwaysClaimableAgain` | src/outbox/outbox.service.ts:239-251 | an event is claimable at a time exactly if it is not PROCESSED and a known moment has passed |
| `OutboxTheorems.InBatch` | src/outbox/outbox.service.ts:237-259 | an event is in the batch exactly if it is claimable and fewer than the batch size of older ones are |
| `OutboxService.BatchIsTaken` | src/outbox/outbox.service.ts:236-271 | a claim makes exactly the events of its batch PUBLISHING, as of now, and hands out their retry counts |
| `OutboxService.AttemptEnds` | src/outbox/outbox.service.ts:92-200 | on a held event a confirmed publish ends PROCESSED as of now, a refused one FAILED with one retry more and the doubling backoff or none; a lost update changes nothing, and the broker gets it exactly if it confirms |
| `OutboxService.StaleAttemptEnds` | src/outbox/outbox.service.ts:129-142 | on an overtaken claim no row changes |
| `OutboxTheorems.ExhaustedFailsAgainAtOnce` | src/outbox/outbox.service.ts:183-185 | an exhausted event is claimable at once and can fail again without time passing |
| `OutboxTheorems.AttemptsAreUnbounded` | src/outbox/outbox.service.ts:177-200 | for every n a run from the empty outbox fails an event n + 1 times within base × (2^min(n, maxRetries) − 1) ms: the backoff bound is attained, and there is no limit on attempts |
| `OutboxService.Worker.ClaimNextBatch` | src/outbox/outbox.service.ts:236-271 | select and update in one statement: rows and returned claims are those of the machine's claim |
| `OutboxService.Worker.UpdateIfHeld` | src/outbox/outbox.service.ts:129-142 | the guarded update changes the row exactly when this claim still holds it, and answers the count |
| `OutboxService.Worker.ProcessOne` | src/outbox/outbox.service.ts:92-229 | one event's publish, finalize and catch branches are the machine's steps, and the metrics count them |
| `OutboxService.Worker.ProcessPendingEvents` | src/outbox/outbox.service.ts:85-230 | one tick is a run of the machine; processed grows by the rows that became PROCESSED, failed by the refusals and retried by those with retries left |
| `ConsumerTheorems.OneHandlerAtATime` | src/messaging/consumer/processed-message.repository.ts:25-79 | with timely handlers at most one handler per consumer and message is between claim and mark |
| `ConsumerTheorems.ConsumersAreApart` | src/notifications/email/email-processed-message.repository.ts:25-111 | a step of one consumer never touches the other's rows |
| `ConsumerTheorems.RepublishComesBack` | src/messaging/rabbitmq.connection.ts:152-157 | a republish reaches the queue it came from |
| `ConsumerTheorems.FanoutIsBounded` | src/messaging/consumer/rabbitmq-retry.helper.ts:11-28 | n publishes cause at most n × (2^(maxRetries+2) − 2) copies in all, each handled once |
| `ConsumerConditions.LostExactly` | src/messaging/rabbitmq.consumer.ts:111-121 | a step stops a message from being queued, in a live handler, dead-lettered or completed exactly if it acks, as a duplicate, its last copy in sight |
| `ConsumerConditions.NothingIsLostExactly` | src/messaging/rabbitmq.consumer.ts:95-179 | all along a run every message is accounted for exactly if no step does that |
| `ConsumerConditions.DuplicateIsCovered` | src/messaging/rabbitmq.consumer.ts:111-121 | while every CLAIMED row has a handler at work, a delivery acked as a duplicate leaves a completed row or that handler, and loses nothing |
| `ConsumerConditions.FaithfulNeverLoses` | src/messaging/consumer/processed-message.repository.ts:25-111 | no step loses a message while every FAILED update goes through, however long handlers take and whoever takes over; every CLAIMED row then has a handler at work |
| `ConsumerConditions.SecondHandlerExactly` | src/messaging/consumer/processed-message.repository.ts:52-70 | a second handler of a message is let in exactly by a claim that takes over from one still at work |
| `ConsumerConditions.OneHandlerExactly` | src/messaging/consumer/processed-message.repository.ts:25-79 | all along a run each message has at most one handler at work exactly if no claim does that |
| `ConsumerConditions.TimelyNeverTakesOver` | src/messaging/consumer/processed-message.repository.ts:62-68 | none does while handlers finish within the TTL |
| `ConsumerConditions.UndoneExactly` | src/messaging/consumer/processed-message.repository.ts:101-111 | a COMPLETED row is undone exactly by the markFailed of a handler of the same message |
| `ConsumerConditions.UndoneOnlyAfterTakeover` | src/messaging/consumer/processed-message.repository.ts:101-111 | which needs, earlier in the run, a claim taken over from a handler at work |
| `ConsumerConditions.CompletedStaysWithoutTakeover` | src/messaging/consumer/processed-message.repository.ts:81-99 | without takeovers COMPLETED is final and nothing is dispatched for that message again |
| `ConsumerConditions.CompletedWasDispatched` | src/messaging/rabbitmq.consumer.ts:124-125 | in every run a COMPLETED row has been dispatched |
| `ConsumerLosses.LostFailedUpdateLosesTheMessage` | src/messaging/consumer/processed-message.repository.ts:112-121 | a swallowed markFailed makes the retry a duplicate, and the message is nowhere |
| `ConsumerLosses.SlowHandlerUndoesCompleted` | src/messaging/consumer/processed-message.repository.ts:101-111 | past the TTL two handlers dispatch and the second marks the completed row FAILED |
| `EventConsumer.Attempts` | src/messaging/consumer/rabbitmq-retry.helper.ts:3-9 | the attempt count is the floor of a finite non-negative header and zero otherwise |
| `EventConsumer.SmoothDelivery` | src/notifications/email/email.consumer.ts:88-126 | an undisturbed delivery of a message neither completed nor claimed within the TTL dispatches once, completes the row, is acked and changes nothing else |
| `EventConsumer.DuplicateIsAcked` | src/messaging/rabbitmq.consumer.ts:111-121 | a delivery of any other message is acked and changes nothing else |
| `EventConsumer.ErrorsEnd` | src/messaging/rabbitmq.consumer.ts:147-178 | a permanent error, or a transient one without attempts left, dead-letters the copy and publishes nothing; else a sent retry acks it and puts one copy, one attempt further, in each bound queue |
| `EventConsumer.ErrorsLeave` | src/messaging/rabbitmq.consumer.ts:139-146 | after an error the row is FAILED unless that update was lost, or untouched if nothing was claimed |
| `EventConsumer.CompletionEnds` | src/messaging/consumer/processed-message.repository.ts:81-99 | a dispatch completes its row exactly if that is still CLAIMED; else, as after a takeover, the handler fails as for a transient error |
| `EventConsumer.MetricsTell` | src/messaging/rabbitmq.consumer.ts:111-178 | the one metric that moves tells how the delivery ended |
| `EventConsumer.ProcessedMessages.Claim` | src/messaging/consumer/processed-message.repository.ts:25-79 | insert or takeover in place, answering whether it claimed |
| `EventConsumer.ProcessedMessages.MarkCompleted` | src/messaging/consumer/processed-message.repository.ts:81-99 | completes a CLAIMED row only, answering the count |
| `EventConsumer.ProcessedMessages.MarkFailed` | src/messaging/consumer/processed-message.repository.ts:101-111 | fails the row whatever its status |
| `EventConsumer.Handler.HandleMessage` | src/messaging/rabbitmq.consumer.ts:95-179 | one delivery, whatever throws, is the machine's steps and moves the specified metric |
| `DeliveryPath.ProcessedEventsAreAccountedFor` | src/outbox/outbox.service.ts:113-142 | in every run that loses nothing an event marked PROCESSED is, for every consumer its type is routed to, completed, queued, in a live handler or dead-lettered |
| `DeliveryPath.CommittedTransactionsReachTheirConsumers` | src/messaging/rabbitmq.connection.ts:152-157 | across ledger, outbox and consumers, other events in the outbox or not: every committed transaction has its event, and once that is PROCESSED audit and email consumer have completed it or still have it in sight |
| `LedgerLimits.LedgerStaysWithinLimit` | src/transactions/transactions.service.ts:205-352 | ledger and limit of one customer and operation side by side, committing in step: the ledger's completed rows are the spent reservations, in order, and on each day's reservations sum to at most the limit, in every run on time that uncovers no row |
| `DeliveryPath.CompletedTransactionsAreAudited` | src/messaging/consumer/rabbitmq-transaction-event.dispatcher.ts:17-92 | in every run, once the audit consumer's row for a transaction's event is COMPLETED there is an audit row that names the committed transaction and tells how it ended |
| `Text.TrimEmptiesBlank` | src/messaging/consumer/transaction-event-payload.validator.ts:5-7 | trimming leaves nothing exactly of white space |
| `EventPayload.StoredMember` | src/transactions/transaction-event-writer.ts:56-76 | storage as JSON drops undefined members and keeps each other member's stored value |
| `EventPayload.BuiltPayloadVerdict` | src/transactions/transaction-event-writer.ts:11-27 | any payload of the builder arrives valid exactly if its texts are not blank and its amount is finite |
| `EventPayload.WrittenPayloadsArriveValid` | src/messaging/consumer/transaction-event-payload.validator.ts:16-103 | the same for the two events the writer writes |
| `EventPayload.EventsArriveAsWritten` | src/transactions/transaction-event-writer.ts:29-131 | every member of the stored payloads of both events, with their outcome, reason and type names |
| `EventPayload.TellingIsValid` | src/messaging/consumer/transaction-event-payload.validator.ts:16-103 | a payload from whatever source that tells of visible parameters is accepted |
| `EventPayload.ValidIsTelling` | src/messaging/consumer/transaction-event-payload.validator.ts:16-103 | and an accepted payload tells of some: nothing malformed passes |
| `TransactionAudit.CompletedRoundTrip` | src/messaging/consumer/rabbitmq-transaction-event.dispatcher.ts:19-51 | a completed event, written, stored and dispatched, gives the success row of what was written |
| `TransactionAudit.FailedRoundTrip` | src/messaging/consumer/rabbitmq-transaction-event.dispatcher.ts:53-87 | a failed event gives the failure row, with its reason |
| `TransactionAudit.AnyMessageIsAudited` | src/messaging/consumer/rabbitmq-transaction-event.dispatcher.ts:17-92 | a message of either type whose payload tells of visible parameters, whoever wrote it, becomes exactly their row; another type is refused |
| `TransactionAudit.OnlyTellingIsAudited` | src/messaging/consumer/rabbitmq-transaction-event.dispatcher.ts:17-92 | and no other payload becomes a row |
| `TransactionAudit.EveryEventIsAudited` | src/messaging/consumer/rabbitmq-transaction-event.dispatcher.ts:17-92 | the i-th event of any reachable ledger is audited as the i-th transaction, success for COMPLETED and failure for REJECTED, and refused exactly when a text is blank |
| `TransactionAudit.AuditRowsNameCommittedTransactions` | src/messaging/consumer/rabbitmq-transaction-event.dispatcher.ts:17-92 | after any deliveries, repeated or reordered, every audit row names a committed transaction and tells truly how it ended |
| `TransactionAudit.AuditService.Record` | src/audit/audit.service.ts:39-80 | it returns exactly when the row was appended, and throws with nothing written when the insert fails |
| `TransactionAudit.RabbitMqTransactionEventDispatcher.Dispatch` | src/messaging/consumer/rabbitmq-transaction-event.dispatcher.ts:17-92 | it returns exactly when it appended the specified row; an invalid payload, another type and a failed insert throw with nothing written |
| `TokenTheorems.NextInv` | src/auth/auth.service.ts:266-480 | every statement of logins, refreshes, password changes and logouts keeps the token invariant |
| `TokenTheorems.TokensAreKept` | src/auth/auth.service.ts:391-402 | in every run revocation is permanent and a replacement never changes |
| `TokenTheorems.RotatedAtMostOnce` | src/auth/auth.service.ts:379-414 | no two refreshes ever get a new token for the same old one |
| `TokenTheorems.ReachableTablesAreChained` | src/auth/auth.service.ts:379-414 | in every run a replaced token is revoked, its replacement is later and of the same customer, and replacements are distinct |
| `TokenTheorems.ChainsClimb` | src/auth/auth.service.ts:398-401 | a chain of replacements strictly climbs, so it ends; all its tokens but the last are revoked |
| `TokenTheorems.ChainsNeverMerge` | src/auth/auth.service.ts:398-401 | two chains with a token in common are one inside the other |
| `TokenTheorems.RevokeAllCovers` | src/users/users.service.ts:117-131 | a committed login or password change has revoked every token its customer had when its revoke-all began, whatever ran beside it |
| `TokenTheorems.OneLiveTokenPerCustomer` | src/auth/auth.service.ts:266-286 | when transactions are serial no customer ever has two unrevoked tokens (one way to meet the condition of the next row) |
| `TokenTheorems.SecondLiveExactly` | src/auth/auth.service.ts:266-286 | a step gives a customer a second live token exactly if it commits a login beside a live token its snapshot did not see |
| `TokenTheorems.OneLiveExactly` | src/auth/auth.service.ts:266-286 | all along a run every customer has at most one live token exactly if no step does that |
| `TokenTheorems.ConcurrentLoginLeavesTwoLive` | src/auth/auth.service.ts:266-286 | from the empty table: a refresh committing between a second login's snapshot and its commit leaves two |
| `LoginLock.LockFollowsCounter` | src/auth/auth.service.ts:198-212 | serially the lock is set exactly when the counter is at or above the threshold |
| `LoginLock.LockoutBound` | src/auth/auth.service.ts:175-245 | any T milliseconds without a login contain at most threshold + floor(T / duration) failed checks |
| `LoginLock.BoundIsReached` | src/auth/auth.service.ts:175-245 | the bound is attained for every number of lock periods |
| `LoginOverlap.NoFailureIsLost` | src/auth/auth.service.ts:198-212 | under any interleaving the lock still follows the counter, and before the first success the counter is the number of wrong passwords |
| `LoginOverlap.OverlapBound` | src/auth/auth.service.ts:160-245 | with at most k logins overlapping, any T milliseconds without a login contain at most threshold − 1 + k × (floor(T / duration) + 1) failed checks, from any state |
| `LoginOverlap.OverlapBoundIsAttained` | src/auth/auth.service.ts:160-245 | for every k and every number of lock periods a run from the start has exactly that many |
| `LoginOverlap.SerialBoundExactly` | src/auth/auth.service.ts:160-245 | the bound of serial logins holds for all runs with at most k overlapping exactly if k ≤ 1 |
| `LoginOverlap.OverlapBreaksTheBound` | src/auth/auth.service.ts:160-212 | without a limit on k there is no bound: any number of wrong passwords can be checked at one instant |
| `AuthSpecification.LoginThenRefresh` | src/auth/auth.service.ts:155-459 | a login's token is refreshable exactly until it expires and only once, and its successor in turn |
| `AuthSpecification.PasswordChangeEndsSessions` | src/users/users.service.ts:90-162 | after a password change no earlier token refreshes, the old password fails, the new one works exactly when not locked, and other customers are untouched |
| `AuthSpecification.LogInErrors` | src/auth/auth.service.ts:242-305 | exactly which error answers of a login leave the tokens, and which leave everything, as it was |
| `AuthSpecification.RefreshErrors` | src/auth/auth.service.ts:379-441 | an error answer of a refresh means nothing changed except exactly when the rotation committed and the audit insert failed; then the old token is spent |
| `AuthSpecification.LogOutErrors` | src/auth/auth.service.ts:476-488 | a logout errs only for a live token, which is revoked exactly when it was the audit insert that failed |
| `AuthSpecification.PatchPasswordErrors` | src/users/users.service.ts:116-153 | an error answer of a password change means nothing changed except exactly when it committed and the audit insert failed |
| `AuthSpecification.CallsAreSound` | src/auth/auth.service.ts:155-505 | one call at a time, each call, whatever throws, keeps chains, the single live token and everything revoked |
| `AuthAnswers.LogInAnswers` | src/auth/auth.service.ts:155-305 | case by case: refused before the check, one failure counted and the lock from the threshold on, or counter reset, that customer's live tokens revoked and a new one issued; what throws leaves what came before |
| `AuthAnswers.RefreshAnswers` | src/auth/auth.service.ts:326-441 | an unknown, revoked, replaced or expired token changes nothing; any other is revoked and replaced by one of the same customer, and no other row changes |
| `AuthAnswers.LogOutAnswers` | src/auth/auth.service.ts:461-488 | the cookie's live token is revoked and nothing else changes |
| `AuthAnswers.PasswordAnswers` | src/users/users.service.ts:90-153 | each refusal changes nothing; else password and that customer's live tokens change, and the lock stays |
| `AuthAnswers.OthersAreLeftAlone` | src/auth/auth.service.ts:266-286 | over any calls of others, whatever throws, a customer's password, lock and tokens stay as they are |
| `AuthAnswers.LogInIsARun` | src/auth/auth.service.ts:266-286 | undisturbed, a login does to the tokens what a run of the machine does, and nothing when refused |
| `AuthAnswers.PatchPasswordIsARun` | src/users/users.service.ts:116-131 | the same for a password change |
| `AuthSpecification.RevokeAllIsARun` | src/auth/auth.service.ts:266-286 | undisturbed, the transactions of login and password change are runs of the machine with the specified table |
| `AuthSpecification.RefreshIsARun` | src/auth/auth.service.ts:326-414 | undisturbed, a refresh is a run with the specified table and answer |
| `AuthSpecification.LogoutIsARun` | src/auth/auth.service.ts:461-480 | undisturbed, a logout is a run with the specified table |
| `AuthService.Database.RevokeTokens` | src/auth/auth.service.ts:267-275 | the update revokes exactly the customer's unrevoked tokens |
| `AuthService.Database.CountFailure` | src/auth/auth.service.ts:198-212 | counts one failure and sets the lock exactly from the threshold on |
| `AuthService.Database.RotateIfUsable` | src/auth/auth.service.ts:391-402 | the guarded update rotates exactly an unrevoked, unreplaced, unexpired token and answers the count |
| `AuthService.AuthService.Login` | src/auth/auth.service.ts:155-324 | rows and answer are those of the specification: the counter survives a failed token transaction, everything survives a failed audit insert |
| `AuthService.AuthService.Refresh` | src/auth/auth.service.ts:326-459 | create, rotate or roll back, then audit: rows and answer are those of the specification |
| `AuthService.AuthService.Logout` | src/auth/auth.service.ts:461-505 | revokes a live token of the cookie and nothing else, and throws if the update or the audit insert does |
| `AuthService.UsersService.ChangePassword` | src/users/users.service.ts:90-162 | hash and tokens change together or not at all, with each refusal as specified; a failed audit insert throws after the change |
| `TransferLock.OneGuardedTransferPerUser` | src/transactions/guards/transactions-idempotency.guard.ts:162-191 | in every run at most one lock-holding request of a user is within the lifetime of its lock |
| `TransferLock.SecondHolderExactly` | src/transactions/guards/transactions-idempotency.guard.ts:165-171 | a user gets two lock-holding requests exactly by taking a lock that expired under a running request |
| `TransferLock.OneHolderExactly` | src/transactions/guards/transactions-idempotency.guard.ts:162-191 | all along a run each user has at most one exactly if no step does that |
| `TransferLock.OnlyTheOwnerDeletes` | src/transactions/transactions.controller.ts:23-28 | a live lock is never overwritten, and only a release by the request whose token it holds deletes it, in any state |
| `TransferLock.ReplaysTakeNoLock` | src/transactions/guards/transactions-idempotency.guard.ts:199-206 | only a request that claimed its key for a transfer ever holds a lock |
| `TransferLock.OwnersKept` | src/transactions/transactions.controller.ts:104-132 | a step leaves a live lock without a running owner exactly if it loses the release call, refuses the body after the guard, ends a handler without a release, or takes a lock in a call that throws all the same |
| `TransferLock.LocksEndWithTheirRequests` | src/transactions/transactions.controller.ts:176-197 | while no such step happens every live lock belongs to a running request |
| `TransferLock.ExpiredLockLetsASecondIn` | src/transactions/guards/transactions-idempotency.guard.ts:165-171 | after expiry a second transfer of the user takes the lock while the first still runs |
| `TransferLock.DoubleClaimExactly` | src/transactions/guards/transactions-idempotency.guard.ts:153-161 | a key gets two claimants exactly by a claim while another is still held, its entry being gone |
| `TransferLock.OneClaimantExactly` | src/transactions/guards/transactions-idempotency.guard.ts:153-197 | all along a run no key has two claimants exactly if no step does that |
| `TransferLock.ExposedExactly` | src/transactions/transactions.controller.ts:81-102 | a claim's entry goes exactly when time passes its expiry or another request's deletion hits its key |
| `TransferLock.OneClaimantPerKey` | src/transactions/guards/transactions-idempotency.guard.ts:153-197 | while that does not happen every claim is live and no key has two claimants |
| `TransferLock.FailingReplayFreesAnothersKey` | src/transactions/transactions.controller.ts:81-102 | from the empty store, with no time passing: two failing replays free the key, the second under a claimant, and two claimants run at once |
| `TransactionsGuard.KeysIgnorePadding` | src/transactions/guards/transactions-idempotency.guard.ts:44-65 | a key depends on the reference only up to surrounding white space, in header or body |
| `TransactionsGuard.KeyExists` | src/transactions/guards/transactions-idempotency.guard.ts:125-143 | a request has a key exactly if some reference is not blank, two of them agree, and an account is named |
| `Text.TrimTakesTheMiddle` | src/transactions/guards/transactions-idempotency.guard.ts:44-60 | trimming takes off the white space around a text and nothing else |
| `GuardAnswers.KeyExactly` | src/transactions/guards/transactions-idempotency.guard.ts:44-143 | the key is of the user, the operation the named accounts tell and the trimmed reference, header before body; each way of having none is its own refusal |
| `GuardAnswers.KeysApart` | src/transactions/guards/transactions-idempotency.guard.ts:151-152 | two requests have the same key exactly if user, named accounts and trimmed reference agree |
| `GuardAnswers.TakenKeyAnswers` | src/transactions/guards/transactions-idempotency.guard.ts:196-226 | a live key makes a request a replay if done and a conflict if not, with nothing changed |
| `GuardAnswers.FreeKeyAnswers` | src/transactions/guards/transactions-idempotency.guard.ts:153-197 | a free key is claimed; a request naming both accounts takes its user's lock, or is refused without a trace while that is held, and any other leaves the locks alone |
| `GuardAnswers.FailedCallAnswers` | src/transactions/guards/transactions-idempotency.guard.ts:227-241 | a Redis call that throws lets the request in with neither key nor lock; what earlier calls set stays |
| `GuardAnswers.KeyAfterAnswer` | src/transactions/transactions.controller.ts:37-102 | a result marks the key done for five minutes, an error deletes it, a conflict leaves it |
| `GuardAnswers.LockAfterAnswer` | src/transactions/transactions.controller.ts:104-132 | the lock goes exactly if it is live and this request's |
| `GuardAnswers.TransferLifeCycle` | src/transactions/transactions.controller.ts:176-197 | while a transfer runs, itself and any other transfer of its user are refused; afterwards the lock is free, and the same request is a replay for five minutes if it succeeded and starts anew if it failed |
| `TransactionsGuard.Redis.ReleaseScript` | src/transactions/transactions.controller.ts:23-28 | deletes the lock exactly if it is live and holds this token |
| `TransactionsGuard.TransactionsIdempotencyGuard.CanActivate` | src/transactions/guards/transactions-idempotency.guard.ts:86-242 | keys, locks, request fields and answer are those of the specification, skips and failing Redis calls included |
| `TransactionsGuard.TransactionsController.EndTransfer` | src/transactions/transactions.controller.ts:176-197 | the key is marked or deleted as the answer asks and the lock is released last, on every path |
| `TransactionsGuard.GuardIsARun` | src/transactions/guards/transactions-idempotency.guard.ts:153-241 | the guard's whole effect is that of some steps of the lock machine |
| `TransactionsGuard.EndIsARun` | src/transactions/transactions.controller.ts:104-197 | the controller's whole effect on Redis is that of the request's remaining steps |

## Left out

- Redis down: the limit and idempotency fallbacks to the database or to no guard (`evaluateFromDb`), mixed with runs where Redis is up.
- Redelivery after a process or channel is lost, and a reply lost on its way back, except those of Redis in the lock machine: elsewhere a call that throws has changed nothing.
- Rounding: fractions of a cent, `Decimal(18,2)` columns and Lua number formatting; amounts are whole cents.
- Spelling of ids: transfers order and compare ids as strings, the model as canonical numbers.
- JWT signing, bcrypt, SHA-256 and random bytes: opaque, injective or fresh values.
- Foreign keys: the KEY SHARE locks of inserts do not conflict with the updates modelled, so they are not in the lock order; `patchPassword` locks the customer row first, which only removes interleavings.
- Deadlocks between two revoke-alls that lock one customer's tokens in different orders: Postgres ends one of them, which is a fault of the machine.
- The retry delays of a transfer (20, 60, 120 ms) take no model time, because no ledger step reads a clock.
- The classes of the program run without interference; interleaving is in the machines, and the lookups before a try block, the password check and the signing of tokens do not throw in the classes.
- Negative or fractional lock settings, which `Number(...) || 5` lets through.
- Which errors are transient for a consumer: any boolean.
- Message parsing, schema version and the email text; a parse failure is an early throw of the consumer machine.
- The counting of the per-minute rule, whose count is a parameter, rate limits, account creation and messages of freeze, unfreeze and close.
- Logging, request context, interceptors, exception filter, mappers and `lastError` texts.
- DailyLimitConditions.DailyLimitHolds: counts by the day of the reservation; LimitByCreationDay has the day of the row.
- LedgerLimits.LedgerStaysWithinLimit: ties the two machines at their commits; their lookups and verdicts are not compared.
- TransactionAudit.AuditRowsNameCommittedTransactions: a foreign key that refuses an audit row is a failed insert; the request context of the consumer process, which has none, is not modelled.
