# Money path of the bank: ledger, outbox, statements, amounts, rate limit, sessions

A Dafny model of the parts of the system on which money and identity rest, with proofs about every run of them.

- **Ledger** (`Entities`, `LedgerRules`, `LedgerSteps`, `LedgerInvariant`, `LedgerTheorems`, `Conservation`,
  `LedgerService`, `LedgerCalls`, `KeyOverlaps`, `CallOrder`, `BookedRows`). `PostPayment`, `CreditAccount` and `CreditAccountSystem` as interleaved runs over
  the tables payments, journals, outbox and idempotency and over the balances of Accounts. A step is one call of one run;
  the environment decides which calls fail, whether a failed call still took effect, whether a read is stale, and the
  fresh ids. `LedgerService.Ledger` is the same service as an object that updates its tables in place and branches on the
  replies of its calls.
- **Outbox** (`DeliveryOrder`, `Outbox`, `OutboxTheorems`, `OutboxMarks`, `OutboxQueue`, `OutboxBound`, `OutboxWorker`). The table,
  its two-minute claims, and the worker's fetch, publish, mark loop with a failure possible at each stage.
- **End to end** (`EndToEnd`, `CommitOrder`, `LateCommits`). Ledger and worker side by side: what consumers hear against
  what was booked, and in which order.
- **Statement** (`Statement`, `LedgerStatement`). Journals projected to signed items, and the batch enrichment.
- **Amounts** (`Decimals` over the lemmas of `Arithmetic`). Decimals that are exact in binary64 (IEEE 754-2019, section 3.6), and printing with six decimals.
- **BFF** (`RateLimit`, `Sessions`, `SessionAnswers`, `SessionRotation`). The token bucket of each key; the session middleware, its cookies
  and the browser's jar.
- **Account numbers** (`AccountNumbers`). The twelve-digit formatter.

Amounts in tables are `real` numbers, the exact decimals; amounts in payloads and statements are counts of millionths.
`World.log` is a history variable: the commits in order, of which the tables are proved to be projections.

## Contracts taken for the outside

- `DoWrite` is one database transaction (micro/ledger/internal/infra/out/persistence/gorm/uow/uow.go:22-27): an error
  leaves no effect.
- `payments.id` is the primary key and `payments.idempotency_key` is unique
  (micro/ledger/resources/migration/V1__init.sql:45-46). `Idempotency.Put` is an insert
  with ON CONFLICT DO NOTHING (micro/ledger/internal/infra/out/persistence/gorm/adapter/idempotency_repo.go:37-48): it
  keeps the existing record and reports no error.
- Reads may come from another server (micro/ledger/cmd/ledger/main.go:53-62), so a read may miss a record. Records are
  never changed, so it never sees a different one. The worker's fetch goes through the same read side
  (micro/ledger/internal/infra/out/messaging/outbox_worker.go:41) but locks and updates the rows it returns: it sees the
  current table, and on a read-only replica it fails, which is one of the failures of a turn.
- `uuid.New` is fresh: each draw is an id that no step drew before.
- Accounts moves amounts between two counters, with guards that refuse what is not there
  (micro/account/src/main/java/com/tagokoder/account/infra/out/persistence/jpa/SpringDataAccountBalanceJpa.java:16-34,
  micro/account/src/main/java/com/tagokoder/account/application/service/AccountService.java:222-247). It stores no hold id. The same file has an unguarded
  update, `applyDeltas` (lines 36-47), for postings from a queue; the theorems about the counters assume that no posting
  arrives there, as the ledger emits no event of the type that queue takes.
- A browser lets Max-Age go before Expires, removes a cookie that is over and refuses a `__Host-` cookie that is not
  Secure (RFC 6265, section 5.3, and the `__Host-` prefix of its successor).
- Identity answers each call in any way; the session theorems assume that the ids it issues are not empty and have not
  been altered by cookie encoding.

## Where the code does not keep a promise

Each case has a lemma that reaches such a state by steps of the model, and lemmas with the exact condition.

| promise | input that breaks it | holds exactly when |
|---|---|---|
| one commit per idempotency key | `LedgerTheorems.OverlappingCreditsBothCommit` | with fresh reads, no run is passed between its read and its commit by another commit of its key: `KeyOverlaps.KeysOnceIffNoOverlap` |
| the record of a payment's key holds its id | `LedgerCalls.PaymentMeetsCreditRecord` | no earlier commit used the key: `LedgerTheorems.RecordIsPaymentsIff` |
| first deliveries in commit order | `LateCommits.LateCommitIsHeardFirst` | no turn delivers past an earlier commit that is still claimed or stored behind: `CommitOrder.CommitOrderIff`; while the times drawn follow the commits, as in the next row: `CommitOrder.OrderWhileClockFollows` |
| first deliveries in stored order | `OutboxTheorems.FailedPublishIsOvertaken` | no step overtakes an undelivered event: `OutboxTheorems.OrderIffNoneOvertakes` |
| marked events are those of the first commits | `LateCommits.LateCommitIsHeardFirst` | no turn marks an event and leaves out that of an earlier commit: `CommitOrder.MarkedCommitOrderIff` |
| marked events are the oldest stored | `OutboxMarks.FailedPublishIsMarkedPast` | no step marks past a live claim: `OutboxMarks.MarkedPrefixIff` |
| at most a batch delivered and unmarked | `OutboxQueue.FailedMarksPileUp` | no turn delivers, without a mark, more than the pending rows it leaves out have room for: `OutboxBound.BoundIff`, and for whole batches `OutboxBound.UnmarkedBatchBreaksIff`; a run that always serves the head of the queue keeps it: `OutboxQueue.BoundedDuplication` |
| the jar holds the newest session id | `SessionRotation.LostResponseKeepsOldId` | the browser gets each response that replaces its id: `SessionRotation.JarHoldsNewestIff` |
| requests present the newest session id | `SessionRotation.LeftoverIsPresented` | the own cookie is live or no other is left: `SessionRotation.PresentsOtherIff` |
| the pages of a statement repeat nothing and miss nothing | `Statement.TiedPagesRepeat` | no two different journals were booked at one instant: `Statement.OneOrderIff`, `Statement.SeparatePagesTile` |

Stored order is created_at order, and it is not commit order: a payment draws its time before its hold and its transaction
(micro/ledger/internal/application/service/payment_service.go:89, 224), the fetch reads in that order (micro/ledger/internal/infra/out/persistence/gorm/adapter/outbox_repo.go:58). The two agree exactly
while the times drawn follow the commits (`CommitOrder.TableIsCommitOrderIff`).

A payment with equal accounts, with an amount that is not positive or with more than six decimals never gets booked: the
validators reject the first and the last (micro/ledger/internal/infra/in/grpc/validation/payments_validators.go:29-31,
micro/ledger/internal/infra/in/grpc/validation/validation.go:169), Accounts refuses the hold of the second. So the two
statements of a booked payment mirror each other (`LedgerStatement.BookedPaymentMirrorsIff`), and published amounts are the
posted ones (`Conservation.ValidatedAmountIsPublishedExactly`).

The generated Accounts API calls `hold_id` the exact reference of what was reserved
(micro/ledger/internal/genproto/bank/accounts/v1/accounts.pb.go:1689); the Accounts code does not use it. The model follows
the code and keeps the map of holds by id as the ledger's view of the counters; `LedgerTheorems.CountersCoverEveryRelease`
ties the two together.

## Model

| member | source | states |
|---|---|---|
| LedgerRules.EnsureBalanced | micro/ledger/internal/application/service/ledger_rules.go:11-21 | The double-entry check accepts a journal exactly when its debits equal its credits. |
| LedgerRules.LinesBalance | micro/ledger/internal/application/service/payment_service.go:169-175 | The lines every operation builds balance at the amount of the command, so the check never rejects one. |
| LedgerInvariant.StepKeepsInv | micro/ledger/internal/application/service/payment_service.go:63-262 | Every call of every run, in any interleaving and with any failure, keeps the tables equal to projections of one history, ids apart, holds accounted for and counters matched. |
| LedgerInvariant.RunKeepsInv | micro/ledger/internal/application/service/payment_service.go:63-262 | The same after any finite interleaving. |
| LedgerInvariant.CommitKeepsInv | micro/ledger/internal/application/service/payment_service.go:139-248 | A committing write adds its rows to all four tables at once and keeps the invariant. |
| LedgerTheorems.PaymentHasItsRows | micro/ledger/internal/application/service/payment_service.go:143-232 | Each committed payment is posted and has exactly one journal (its journal id, reference, accounts, amount and currency) and exactly one event. |
| LedgerTheorems.PaymentRowsHaveTheirPayment | micro/ledger/internal/application/service/payment_service.go:177-245 | No payment event, payment journal or PostPayment record exists without its payment. |
| BookedRows.CommitsIff | micro/ledger/internal/application/service/payment_service.go:139-248 | A write commits exactly when no call of the transaction fails, its ids are new, and a payment's key and id are on no row. |
| BookedRows.FailedWriteLeavesTables | micro/ledger/internal/application/service/payment_service.go:139-254 | Otherwise no table, hold or balance changes, and a payment goes on to its compensation. |
| BookedRows.PaymentWrites | micro/ledger/internal/application/service/payment_service.go:143-245 | The four rows a payment adds, field by field from its command: with its customer, its creator, its GL codes, operation and status code. |
| BookedRows.CreditWritesRows | micro/ledger/internal/application/service/ledger_service.go:92-165 | The three rows a credit adds, field by field: creator, reference, reason and origin, GL codes, operation and status code, for both credit operations. |
| BookedRows.BookedRunHasItsRows | micro/ledger/internal/application/service/payment_service.go:143-245 | In every reachable state the journal, the event, the payment and, under a key not used before, the record of a run that booked say what its command said. |
| BookedRows.PaymentHasItsRun | micro/ledger/internal/application/service/payment_service.go:91-160 | Every payment repeats the key, accounts, amount, currency and customer of the command of a run that booked it. |
| BookedRows.RowsHaveTheirRun | micro/ledger/internal/application/service/ledger_service.go:235-304 | Every journal and every event is that of a run that booked, and says what its command said. |
| BookedRows.AnswerIff | micro/ledger/internal/application/service/payment_service.go:63-67 | A caller gets a result exactly if its run booked or replayed: the id of its payment or of its journal. |
| CallOrder.BookedRunPassedEveryCall | micro/ledger/internal/application/service/payment_service.go:39-248 | Over every run: a commit has the id and time its validation drew, and its run began with an exact amount, found no record, was accepted and, for a payment, got its hold, in this order, before a write in which nothing failed. |
| CallOrder.ReserveIff | micro/account/src/main/java/com/tagokoder/account/infra/out/persistence/jpa/SpringDataAccountBalanceJpa.java:16-24 | A hold can be taken exactly when a positive amount is available, and is taken from the payer. |
| CallOrder.ReleaseIff | micro/account/src/main/java/com/tagokoder/account/infra/out/persistence/jpa/SpringDataAccountBalanceJpa.java:26-34 | A hold can be released exactly when as much is held, and goes back to the payer. |
| LedgerTheorems.OnePaymentPerKey | micro/ledger/resources/migration/V1__init.sql:46 | However stale the reads and however the runs interleave, no two payments share a key. |
| LedgerTheorems.StepKeepsKeysUnique | micro/ledger/internal/infra/out/persistence/gorm/adapter/idempotency_repo.go:37-48 | A step keeps commits unique per key unless it commits under a recorded key, and only then does it not. |
| LedgerTheorems.KeysUniqueIffNoConflict | micro/ledger/internal/infra/out/persistence/gorm/adapter/idempotency_repo.go:37-48 | Over whole runs: one commit per key exactly when no commit met its key already recorded. |
| KeyOverlaps.KeyOnceIffNoOverlap | micro/ledger/internal/application/service/payment_service.go:48-67 | With fresh reads, a key is booked at most once exactly when no run that books it is passed, between its read and its commit, by another commit of the key. |
| KeyOverlaps.KeysOnceIffNoOverlap | micro/ledger/internal/application/service/payment_service.go:48-67 | The same for all keys. |
| KeyOverlaps.SequentialCallsBookOnce | micro/ledger/internal/application/service/ledger_service.go:50-69 | Calls of one key made one after another with fresh reads book at most once, and all that are answered are answered the result of that commit. |
| LedgerTheorems.OverlappingCreditsBothCommit | micro/ledger/internal/application/service/ledger_service.go:50-165 | Two overlapping credits with one key, both reading before either writes, are both booked and leave one record. |
| LedgerTheorems.PaymentRecordIffKeyFree | micro/ledger/internal/application/service/payment_service.go:234-245 | The record found under a committed payment's key holds its id exactly when the key was free at the commit. |
| LedgerTheorems.RecordIsPaymentsIff | micro/ledger/internal/application/service/payment_service.go:234-245 | In every reachable state the record under a payment's key holds its id exactly when no earlier commit used the key. |
| LedgerTheorems.ReplayReturnsFirstResult | micro/ledger/internal/application/service/payment_service.go:48-67 | A call that sees the record of its key gets the result of the first commit under it, with a nil id if that was of the other kind, and changes no table, hold or balance. |
| LedgerTheorems.DoneIsFinal | micro/ledger/internal/application/service/payment_service.go:250-261 | A finished call takes no further step, whatever others do. |
| LedgerTheorems.HoldsAreExact | micro/ledger/internal/application/service/payment_service.go:97-135 | The outstanding holds are exactly those of runs between reserve and the end of compensation, of committed payments, of runs whose release failed and of runs whose reserve reported an error after taking effect. |
| LedgerTheorems.CommittedHoldIsNeverReleased | micro/ledger/internal/application/service/payment_service.go:250-254 | A committed payment keeps its hold; no run in or after compensation names it. |
| LedgerTheorems.CountersCoverEveryRelease | micro/account/src/main/java/com/tagokoder/account/infra/out/persistence/jpa/SpringDataAccountBalanceJpa.java:16-34 | Each hold counter is the sum over the runs that hold funds there, nothing is overdrawn, and a compensation always finds enough to release. |
| LedgerTheorems.FundsAreConserved | micro/account/src/main/java/com/tagokoder/account/infra/out/persistence/jpa/SpringDataAccountBalanceJpa.java:16-34 | No step changes available plus hold of an account, except funding it. |
| Conservation.MoneyIsConserved | micro/ledger/internal/application/service/ledger_service.go:98-127 | In every reachable state and currency total debits equal total credits, and the customers' net is what the two credit operations posted. |
| Conservation.PublishedAmountIsPosted | micro/ledger/internal/application/service/payment_service.go:204-227 | Each event carries its journal's amount to six decimals, and exactly it when the amount is a multiple of 1/64. |
| Conservation.ValidatedAmountIsPublishedExactly | micro/ledger/internal/application/service/payment_service.go:204-227 | Of a command that passed the validators, the event carries exactly the posted amount. |
| LedgerService.Ledger.constructor | micro/ledger/resources/migration/V1__init.sql:7-115 | A service over newly created tables and accounts without holds is in an initial state of the model. |
| LedgerService.Ledger.InTransaction | micro/ledger/internal/application/service/payment_service.go:139-248 | The statements of the write either all take effect, giving the rows of the commit with the status already posted, or the first failing one ends it. |
| LedgerService.Ledger.DoWrite | micro/ledger/internal/infra/out/persistence/gorm/uow/uow.go:22-27 | The transaction's rows appear together or not at all; a failed payment goes to compensation. |
| LedgerService.Ledger.Call | micro/ledger/internal/application/service/payment_service.go:48-254 | Each call updates the tables in place as the step function says. |
| LedgerService.Ledger.PostPayment | micro/ledger/internal/application/service/payment_service.go:32-262 | Branching on the replies of its calls, with anything others do before each, it takes exactly the turns of a payment up to where it ends, and answers what it ended with. |
| LedgerService.Ledger.Credit | micro/ledger/internal/application/service/ledger_service.go:32-177 | The same for the two credit operations. |
| LedgerService.PlayIsExec | micro/ledger/internal/application/service/payment_service.go:32-262 | The turns of one operation are an interleaving like any other. |
| LedgerService.ForeignIs | micro/ledger/internal/application/service/payment_service.go:48-254 | What others do meanwhile is all of it, save steps in the run's own name. |
| LedgerCalls.OperationStaysReachable | micro/ledger/internal/application/service/payment_service.go:32-262 | After any sequence of operations the service's tables are those of a reachable state, so every theorem about those applies. |
| LedgerCalls.PaymentIsBooked | micro/ledger/internal/application/service/payment_service.go:97-248 | An undisturbed payment under a new key with funds available leaves exactly its rows and its hold. |
| LedgerCalls.PaymentLeaves | micro/ledger/internal/application/service/payment_service.go:97-261 | What that call leaves in the tables and at Accounts and answers, field by field. |
| LedgerCalls.FailedPaymentIsUndone | micro/ledger/internal/application/service/payment_service.go:250-254 | If the transaction fails and the release arrives, tables, balances and holds are as before the call. |
| LedgerCalls.CreditIsBooked | micro/ledger/internal/application/service/ledger_service.go:179-307 | An undisturbed credit that saw no record is booked, even when its key is recorded by the time it writes. |
| LedgerCalls.CreditLeaves | micro/ledger/internal/application/service/ledger_service.go:179-320 | What that call leaves in the tables and answers, field by field. |
| LedgerCalls.PaymentMeetsCreditRecord | micro/ledger/internal/application/service/payment_service.go:234-245 | A payment whose read missed a credit's record is booked beside it, and its key then answers with the credit's result and a nil payment id. |
| DeliveryOrder.OrderedIffPrefix | micro/ledger/internal/infra/out/messaging/outbox_worker.go:66-94 | A log reduced to first occurrences is a prefix of the items exactly when every delivery of an item follows one of each item before it. |
| DeliveryOrder.OrderedBatch | micro/ledger/internal/infra/out/messaging/outbox_worker.go:66-75 | Delivering a batch keeps that order exactly when nothing undelivered is skipped. |
| DeliveryOrder.OrderedInsert | micro/ledger/internal/infra/out/persistence/gorm/adapter/outbox_repo.go:49-61 | Storing an item among the others keeps it exactly when nothing behind it was delivered. |
| Outbox.TableIsByCreation | micro/ledger/internal/infra/out/persistence/gorm/adapter/outbox_repo.go:58 | Over every run the table stays in created_at order, so the rows a fetch takes first are the oldest. |
| Outbox.BatchIff | micro/ledger/internal/infra/out/persistence/gorm/adapter/outbox_repo.go:49-61 | A fetch takes a row exactly when it is eligible and fewer than the limit of eligible rows come before it. |
| Outbox.MarkPublishesAccepted | micro/ledger/internal/infra/out/persistence/gorm/adapter/outbox_repo.go:102-116 | The mark publishes exactly the rows of the accepted prefix of the batch and frees their claims. |
| Outbox.RowAfterPoll | micro/ledger/internal/infra/out/messaging/outbox_worker.go:39-96 | What one turn of the worker does to each row: publish it, claim it, or leave it. |
| Outbox.RowAfterTurn | micro/ledger/internal/infra/out/messaging/outbox_worker.go:39-96 | The row a turn leaves: published without claim if it is among the next eligible rows, was accepted and the mark came through; else claimed at the time of the turn if it is among the next and the fetch took effect; else as it was. |
| Outbox.TurnDeliversIff | micro/ledger/internal/infra/out/messaging/outbox_worker.go:66-75 | A turn delivers exactly the next eligible rows, as many as were accepted, and the one whose publish failed if it arrived all the same. |
| Outbox.DeliveredAfterPoll | micro/ledger/internal/infra/out/messaging/outbox_worker.go:66-75 | What one turn delivers: the batch in order up to the first failure. |
| Outbox.PollKeepsInv | micro/ledger/internal/infra/out/messaging/outbox_worker.go:32-98 | Each turn keeps: published rows were delivered, only stored events are delivered, the backoff is in range. |
| Outbox.NoEventIsLost | micro/ledger/internal/infra/out/messaging/outbox_worker.go:31-97 | Over every run: an event is marked only after a delivery, and the backoff is 200 ms doubled at most four times. |
| OutboxTheorems.StepOrder | micro/ledger/internal/infra/out/messaging/outbox_worker.go:39-94 | A step keeps the order of first deliveries exactly when it overtakes nothing undelivered. |
| OutboxTheorems.OrderIffNoneOvertakes | micro/ledger/internal/infra/out/messaging/outbox_worker.go:39-94 | Over every run: the deliveries reduced to first occurrences are a prefix of the stored events exactly when no step overtook an undelivered one. |
| OutboxTheorems.FailedPublishIsOvertaken | micro/ledger/internal/infra/out/persistence/gorm/adapter/outbox_repo.go:49-77 | A failed publish leaves a live claim behind, and within two minutes the next event is delivered first. |
| OutboxMarks.StepMarks | micro/ledger/internal/infra/out/messaging/outbox_worker.go:84-94 | A step keeps the marked events a prefix of the table exactly when it marks past no live claim and stores nothing before a marked event. |
| OutboxMarks.MarkedPrefixIff | micro/ledger/internal/infra/out/messaging/outbox_worker.go:84-94 | The same over every run. |
| OutboxMarks.FailedPublishIsMarkedPast | micro/ledger/internal/infra/out/persistence/gorm/adapter/outbox_repo.go:49-77 | The event that overtakes a failed publish is marked before it. |
| OutboxQueue.BatchIsHeadIff | micro/ledger/internal/infra/out/persistence/gorm/adapter/outbox_repo.go:49-61 | A fetch takes the first n unpublished events exactly when none of them is under a live claim. |
| OutboxQueue.PendingAfterPoll | micro/ledger/internal/infra/out/messaging/outbox_worker.go:66-94 | The delivered and unmarked rows after a turn are exactly those before it and those it delivered, less those it marked. |
| OutboxQueue.RetriedIff | micro/ledger/internal/infra/out/persistence/gorm/adapter/outbox_repo.go:49-61 | The next fetch takes all of them again exactly when none is under a live claim. |
| OutboxQueue.PollKeepsHead | micro/ledger/internal/infra/out/messaging/outbox_worker.go:66-94 | A turn that meets no live claim keeps every delivered and unmarked event within the next batch. |
| OutboxBound.PendingCount | micro/ledger/internal/infra/out/messaging/outbox_worker.go:66-94 | After a turn the delivered and unmarked rows number those it does not deliver again, plus what it delivers, less what it marks. |
| OutboxBound.PendingAfterNewRow | micro/ledger/internal/infra/out/persistence/gorm/adapter/outbox_repo.go:19-30 | A new event is not among them, and the others stay. |
| OutboxBound.StepBound | micro/ledger/internal/infra/out/messaging/outbox_worker.go:66-94 | A step keeps them within a batch unless it is a turn that delivers without a mark more than the pending rows it leaves out have room for. |
| OutboxBound.BoundIff | micro/ledger/internal/infra/out/messaging/outbox_worker.go:66-94 | Over every run: at most a batch of events is delivered and unmarked all along exactly when no turn does that. |
| OutboxBound.UnmarkedBatchBreaksIff | micro/ledger/internal/infra/out/messaging/outbox_worker.go:84-94 | A turn that delivers a whole batch and marks nothing breaks the bound exactly when a pending row is under a live claim. |
| OutboxBound.UnclaimedKeepsBound | micro/ledger/internal/infra/out/persistence/gorm/adapter/outbox_repo.go:49-61 | Whatever a turn delivers and marks, it keeps the bound while no pending row is under a live claim. |
| OutboxQueue.FailedMarksPileUp | micro/ledger/internal/infra/out/persistence/gorm/adapter/outbox_repo.go:69-77 | With batches of one, two marks that fail within two minutes leave two such events. |
| OutboxQueue.CleanPollServes | micro/ledger/internal/infra/out/messaging/outbox_worker.go:39-97 | A turn without failures or live claims is one batch of a plain queue. |
| OutboxQueue.Drain | micro/ledger/internal/infra/out/messaging/outbox_worker.go:32-98 | Without failures, inserts and live claims, k turns send the first k batches in order, each event once, and mark them. |
| OutboxQueue.DrainedIff | micro/ledger/internal/infra/out/messaging/outbox_worker.go:32-98 | The table is drained exactly when the turns have room for all that waited. |
| OutboxQueue.ClaimsEndAfterTwoMinutes | micro/ledger/internal/infra/out/persistence/gorm/adapter/outbox_repo.go:39-61 | Two minutes after the last claim nothing blocks a fetch, whatever failed before. |
| OutboxQueue.BackoffResetsIff | micro/ledger/internal/infra/out/messaging/outbox_worker.go:53-97 | The backoff is back at 200 ms exactly after a turn that marked what it published, or found nothing. |
| OutboxQueue.BackoffCountsFailures | micro/ledger/internal/infra/out/messaging/outbox_worker.go:31-97 | Over every run the backoff is 200, 400, 800, 1600 and then 3200 ms after none, one, two, three and more failing turns in a row. |
| OutboxQueue.BackoffAfterIs | micro/ledger/internal/infra/out/messaging/outbox_worker.go:53-58 | That is 200 ms doubled for each failure, at most four times. |
| OutboxWorker.Worker.constructor | micro/ledger/internal/infra/out/messaging/outbox_worker.go:21-31 | The worker starts with the given batch size and a backoff of 200 ms. |
| OutboxWorker.Worker.FetchNextUnpublished | micro/ledger/internal/infra/out/persistence/gorm/adapter/outbox_repo.go:32-100 | Claims exactly the eligible rows with fewer than the limit of eligible rows before them, leaves the others, and returns the events of those rows in the order of the table. |
| OutboxWorker.Worker.PublishAll | micro/ledger/internal/infra/out/messaging/outbox_worker.go:66-75 | The loop delivers up to the first failure and returns exactly the ids that went through. |
| OutboxWorker.Worker.MarkPublished | micro/ledger/internal/infra/out/persistence/gorm/adapter/outbox_repo.go:102-116 | Afterwards the rows with one of the ids are published and free and the others as they were; a failure changes nothing, and no ids are no failure. |
| OutboxWorker.Worker.Turn | micro/ledger/internal/infra/out/messaging/outbox_worker.go:32-98 | One turn of the loop is one step of the outbox. |
| OutboxWorker.Worker.Start | micro/ledger/internal/infra/out/messaging/outbox_worker.go:29-100 | The loop is a run of such steps. |
| EndToEnd.LedgerMoveKeepsInv | micro/ledger/internal/application/service/payment_service.go:217-227 | Each commit puts its event into the worker's table, once, and keeps both invariants. |
| EndToEnd.DeliveredEventsAreCommitted | micro/ledger/internal/application/service/ledger_service.go:129-149 | Every event ever delivered tells of a posted, balanced journal with the same ids, accounts, currency and time, and its amount to six decimals. |
| EndToEnd.DeliveredEventsTellCommands | micro/ledger/internal/application/service/ledger_service.go:269-291 | Every event ever delivered says what the command of a run that booked said, field by field: accounts, amount, reason and reference. |
| EndToEnd.DrainedMeansAllHeard | micro/ledger/internal/infra/out/messaging/outbox_worker.go:66-94 | Consumers only hear of booked payments and credits; once every row is published they have heard of all of them. |
| EndToEnd.EverythingIsHeardInTheEnd | micro/ledger/internal/infra/out/messaging/outbox_worker.go:32-98 | Whatever failed before, enough clean turns that start two minutes after the last claim tell the consumers of exactly the booked payments and credits. |
| CommitOrder.TableIsCommitOrderIff | micro/ledger/internal/application/service/payment_service.go:89-224 | Over every play of ledger and worker, the table the worker reads is in commit order exactly when the times drawn follow the commits. |
| CommitOrder.PlayIsRun | micro/ledger/internal/application/service/payment_service.go:217-227 | The outbox of a play is a run of the outbox with one insert for each commit. |
| CommitOrder.OrderWhileClockFollows | micro/ledger/internal/infra/out/messaging/outbox_worker.go:39-94 | While the times drawn follow the commits, first deliveries are a prefix of the commits' events exactly when no step overtakes an undelivered one. |
| CommitOrder.TurnCommitOrder | micro/ledger/internal/infra/out/messaging/outbox_worker.go:66-75 | Whatever the clocks, a turn keeps first deliveries in commit order exactly when it passes no earlier commit's event, one still claimed or stored behind. |
| CommitOrder.CommitOrderIff | micro/ledger/internal/infra/out/messaging/outbox_worker.go:39-94 | Over every play, first deliveries are a prefix of the commits' events exactly when no turn does that. |
| CommitOrder.MarkedCommitOrderIff | micro/ledger/internal/infra/out/messaging/outbox_worker.go:84-94 | All along, the marked events are those of the first commits exactly when no turn marks an event and leaves out that of an earlier commit. |
| LateCommits.LateCommitIsHeardFirst | micro/ledger/internal/application/service/payment_service.go:89-224 | Two payments that commit in the other order than their times were drawn: without any failure the later commit is delivered and marked first. |
| DeliveryOrder.OrderedExtend | micro/ledger/internal/infra/out/messaging/outbox_worker.go:66-75 | Delivering any items in any order keeps first deliveries in order exactly when each comes after those before it. |
| Statement.Totals | micro/ledger/internal/application/service/ledger_service.go:421-442 | The inner loop finds the credit and debit total of the lines naming the account, and the first other account named. |
| Statement.Project | micro/ledger/internal/application/service/ledger_service.go:416-476 | The loop over journals gives one item each, and the set of other accounts they name. |
| Statement.OtherPartyIs | micro/ledger/internal/application/service/ledger_service.go:438-441 | The other party is that of the first line naming another account, and empty exactly if no line does. |
| Statement.ItemShows | micro/ledger/internal/application/service/ledger_service.go:444-466 | An item's journal, time, currency, memo, direction, amount, kind and other party, in terms of its journal. |
| Statement.TextsAre | micro/ledger/internal/application/service/ledger_service.go:454-458 | The prefix and the containment the kind goes by. |
| Statement.MatchingMembers | micro/ledger/internal/infra/out/persistence/gorm/adapter/journal_repo.go:95-100 | The activity is the journals with a line naming the account, booked between the dates. |
| Statement.ItemIsNet | micro/ledger/internal/application/service/ledger_service.go:444-465 | An item read as a signed number is the account's credits less debits in its journal, to six decimals; its amount is never negative. |
| Statement.ItemsAddUp | micro/ledger/internal/application/service/ledger_service.go:444-465 | Over stored journals the printed items add up to the account's net to the last digit. |
| Statement.StatementIsLedgerNet | micro/ledger/internal/infra/out/persistence/gorm/adapter/journal_repo.go:84-104 | A complete statement, in any order the query may give, adds up to the account's net over the whole journal. |
| Statement.PagesTile | micro/ledger/internal/infra/out/persistence/gorm/adapter/journal_repo.go:85-103 | Pages of one result, read one after the other, are a prefix of it. |
| Statement.OneOrderIff | micro/ledger/internal/infra/out/persistence/gorm/adapter/journal_repo.go:101 | The query can answer in one order only exactly when no two different journals were booked at one instant. |
| Statement.SeparatePagesTile | micro/ledger/internal/infra/out/persistence/gorm/adapter/journal_repo.go:84-104 | Without such ties, pages of separate queries repeat nothing and miss nothing. |
| Statement.TiedPagesRepeat | micro/ledger/internal/infra/out/persistence/gorm/adapter/journal_repo.go:101-103 | With one, two pages can show a journal twice and another never. |
| Statement.NetsAddUp | micro/ledger/internal/application/service/ledger_service.go:420-444 | The nets of all distinct accounts a journal names, with its unnamed lines, are its credits less its debits. |
| Statement.NetsSumToZeroIffBalanced | micro/ledger/internal/application/service/ledger_service.go:420-444 | They sum to zero exactly in a balanced journal. |
| Statement.PaymentMirrorsIff | micro/ledger/internal/application/service/payment_service.go:166-185 | Payer and payee see one amount, opposite directions and each other exactly when they differ and the amount is positive. |
| Statement.LastForIs | micro/ledger/internal/application/service/ledger_service.go:494-504 | Of several summaries of one account in the response the last one counts. |
| Statement.EnrichmentIff | micro/ledger/internal/application/service/ledger_service.go:506-514 | Enrichment changes only the counterparty, and sets it exactly for items whose account is in the response. |
| Statement.EnrichedShows | micro/ledger/internal/application/service/ledger_service.go:494-514 | An item gets the four fields of the last summary of its counterparty, and nothing without one. |
| Statement.Listed | micro/ledger/internal/application/service/ledger_service.go:480-483 | The request lists each id once, in some order. |
| Statement.Enrich | micro/ledger/internal/application/service/ledger_service.go:494-514 | The table of summaries and the pass over the items, in place, equal asking for each item by itself. |
| Statement.ListAccountStatement | micro/ledger/internal/application/service/ledger_service.go:385-528 | The defaults for dates, page and size; an error of the query is an error; else one item per journal with what it shows, one request naming each other account once, and the counterparty each item gets from the answer. |
| Statement.FailedBatchIsNoBatch | micro/ledger/internal/application/service/ledger_service.go:488-492 | A failed batch call gives the same items as not asking. |
| LedgerStatement.StatementShowsMoneyMoved | micro/ledger/internal/application/service/ledger_service.go:416-476 | In every reachable state a complete statement adds up, digit for digit, to credits and payments received less payments made. |
| LedgerStatement.BookedPaymentMirrorsIff | micro/ledger/internal/application/service/payment_service.go:166-185 | The statements of payer and payee of a booked payment mirror each other exactly when they are two accounts, as the validators require. |
| Decimals.ExactIffBinary64 | micro/ledger/internal/application/service/payment_service.go:39-46 | Zero aside, an amount c / 10^k is accepted exactly when 5^k divides c and the rest fits; that is exactly when some finite binary64 equals it. |
| Decimals.ExactCents | micro/ledger/internal/application/service/payment_service.go:43-46 | With two decimals and below 25 * 2^53, exactly the multiples of a quarter. |
| Decimals.PowersAreExactIff | micro/ledger/internal/application/service/payment_service.go:43-46 | Powers of two are exact up to 2^1023 and down to 2^-1074. |
| Decimals.FiftyThreeBits | micro/ledger/internal/application/service/payment_service.go:43-46 | 2^53 - 1 is exact and 2^53 + 1 is not. |
| Decimals.Fixed6Error | micro/ledger/internal/application/service/payment_service.go:210 | Printing with six decimals is off by at most half a millionth, and a tie goes away from zero. |
| Decimals.Fixed6ExactIffSixtyfourths | micro/ledger/internal/application/service/payment_service.go:210 | An accepted amount prints exactly when it is a multiple of 1/64, and only then. |
| Decimals.SixDecimalsPrintExactly | micro/ledger/internal/infra/in/grpc/validation/validation.go:169 | Amounts the request validators let through print exactly. |
| RateLimit.RefillFills | bff/internal/api/rest/middleware/ratelimit.go:34-42 | A refill always fills the bucket, and tokens stay within 0 and rps. |
| RateLimit.AdmittedBound | bff/internal/api/rest/middleware/ratelimit.go:33-52 | From any state a key is admitted at most its tokens plus rps for every whole second since its last refill. |
| RateLimit.FirstSeconds | bff/internal/api/rest/middleware/ratelimit.go:26-52 | In the first T seconds of its bucket a key is admitted at most rps times (whole seconds of T, plus one). |
| RateLimit.Window | bff/internal/api/rest/middleware/ratelimit.go:33-52 | In any window of T seconds at most rps times (T rounded up, plus one). |
| RateLimit.WindowIsTight | bff/internal/api/rest/middleware/ratelimit.go:33-52 | For every rate and every window length some client reaches that bound. |
| RateLimit.KeysAreIndependent | bff/internal/api/rest/middleware/ratelimit.go:24-31 | A key fares as if it were alone, whatever other keys do in between. |
| RateLimit.NewKey | bff/internal/api/rest/middleware/ratelimit.go:27-31 | A new key starts with a full bucket at its first request. |
| RateLimit.KeyFirstSeconds | bff/internal/api/rest/middleware/ratelimit.go:22-52 | Among any requests of others, a key gets at most rps times (whole seconds of T, plus one) in the first T seconds of its bucket. |
| RateLimit.KeyWindow | bff/internal/api/rest/middleware/ratelimit.go:22-52 | Among any requests of others and whatever came before, at most rps times (T rounded up, plus one) in any window of T seconds. |
| RateLimit.Bucket.Spend | bff/internal/api/rest/middleware/ratelimit.go:33-49 | The refill and the take update the bucket as the step function says. |
| RateLimit.RateLimiter.Allow | bff/internal/api/rest/middleware/ratelimit.go:22-53 | A request changes the bucket of its key only, and is admitted by that bucket alone. |
| Sessions.Exchange.Clear | bff/internal/security/cookies.go:77-106 | Expires the cookie in use and the one of the other name. |
| SessionRotation.AcceptIdCookie | bff/internal/security/cookies.go:108-120 | A browser keeps the id under the name in use until its lifetime is over, and drops what it had if there is none. |
| Sessions.Exchange.GetSessionInfoWithRefresh | bff/internal/api/rest/middleware/auth_session.go:108-217 | Either the answer is written, or the session goes on under its possibly new id. |
| Sessions.Exchange.AuthSession | bff/internal/api/rest/middleware/auth_session.go:34-106 | Headers, status, calls to Identity and handler context of every request, for every way Identity may answer, are those the next rows characterise. |
| SessionAnswers.HandlerRunsIff | bff/internal/api/rest/middleware/auth_session.go:88-103 | On a protected route the handler runs exactly for a session with an info whose user status is empty or ACTIVE; any other status gets 403. |
| SessionAnswers.HandlerGets | bff/internal/api/rest/middleware/auth_session.go:64-103 | The handler gets that info, the token of the refresh or else the info's own, and the id in force. |
| SessionAnswers.StatusIff | bff/internal/api/rest/middleware/auth_session.go:43-48 | 401 exactly without a cookie or for a refused session, 502 and 503 exactly when Identity could not answer. |
| SessionAnswers.RefreshIff | bff/internal/api/rest/middleware/auth_session.go:125-136 | A refresh is asked for exactly when the token is missing or has at most 30 seconds left, or the session has expired. |
| SessionAnswers.PresentedIs | bff/internal/security/cookies.go:59-75 | The id presented is that of the cookie in use, else that of the other name. |
| SessionAnswers.HeadersAre | bff/internal/security/cookies.go:77-120 | Name, value, Max-Age, Expires and Secure of the cookies that are set and cleared. |
| SessionRotation.CallsOfRequest | bff/internal/api/rest/middleware/auth_session.go:108-158 | At most two infos and one refresh; the presented id first, and after a refresh the new one. |
| SessionRotation.CookiesOfRequest | bff/internal/api/rest/middleware/auth_session.go:160-217 | Cookies are cleared exactly with 401 after Identity was asked, left alone on 502 and 503, and otherwise changed only by a refresh, to its id. |
| SessionAnswers.NewestIs | bff/internal/api/rest/middleware/auth_session.go:131-157 | The newest id of a browser is the last one a login or a refresh issued, even if the refresh then failed. |
| SessionRotation.JarAfterRequest | bff/internal/security/cookies.go:77-120 | What the browser keeps after the response, by how the request went. |
| SessionRotation.EventKeepsNewestIff | bff/internal/api/rest/middleware/auth_session.go:131-157 | A login or request leaves the jar empty or with the newest id, unless the browser misses the response that replaced its id, and only then not. |
| SessionRotation.JarHoldsNewest | bff/internal/api/rest/middleware/auth_session.go:43-103 | Over every sequence of requests and logins from a jar without the other name: the jar is empty or holds the newest id. |
| SessionRotation.JarHoldsNewestIff | bff/internal/api/rest/middleware/auth_session.go:131-157 | All along every sequence of events the jar is empty or holds the newest id exactly when in none of them the browser misses its new id. |
| SessionRotation.HandlerSeesNewest | bff/internal/api/rest/middleware/auth_session.go:80-103 | A request that reaches its handler presented the newest id and hands on the newest id there is after it. |
| SessionRotation.PresentsOtherIff | bff/internal/security/cookies.go:59-75 | A request presents another id exactly when the cookie in use is over and one of the other name is left. |
| SessionRotation.LostResponseKeepsOldId | bff/internal/api/rest/middleware/auth_session.go:168-196 | A browser that misses the response in which its id was replaced is left with the retired one. |
| SessionRotation.LeftoverIsPresented | bff/internal/security/cookies.go:64-73 | A cookie left under the other name is presented as soon as the own one is over. |
| AccountNumbers.PaddedWithZeros | micro/account/src/main/java/com/tagokoder/account/application/AccountNumberFmt.java:7 | The padded text is the digits with zeros before them up to the width, and the digits alone when they fill it. |
| AccountNumbers.ParseFmt12 | micro/account/src/main/java/com/tagokoder/account/application/AccountNumberFmt.java:5-8 | Parsing the shown number gives it back. |
| AccountNumbers.Fmt12Injective | micro/account/src/main/java/com/tagokoder/account/application/AccountNumberFmt.java:5-8 | No two numbers share a text, and none looks like a missing one. |
| AccountNumbers.TwelveDigits | micro/account/src/main/java/com/tagokoder/account/application/AccountNumberFmt.java:7 | Exactly twelve digits exactly below 10^12, and never fewer. |
| AccountNumbers.SignTakesOnePlace | micro/account/src/main/java/com/tagokoder/account/application/AccountNumberFmt.java:5-8 | A minus sign takes the place of one digit, and a missing number is shown as nothing. |
| AccountNumbers.LexicographicIsNumeric | micro/account/src/main/java/com/tagokoder/account/application/AccountNumberFmt.java:7 | For digit strings of one length, text order is numeric order. |
| AccountNumbers.Fmt12Order | micro/account/src/main/java/com/tagokoder/account/application/AccountNumberFmt.java:7 | Below 10^12 the texts are ordered as the numbers. |

## Left out

- LedgerService.Ledger.constructor: starts from empty tables; a service that starts on tables of earlier runs is the same history continued.
- Several workers: rows locked by another replica (SKIP LOCKED) are not modelled. Select and update are single statements in SQL, so the fetch has no loop for them.
- Events with equal created_at keep their order of insertion in the table; SQL leaves it open. Times are exact: the columns keep microseconds, payloads print nanoseconds, so `EndToEnd.TellsOf` compares the times as drawn.
- The database's rounding and overflow of numeric(20,6): an insert that overflows is another failing insert, and amounts that pass the request validators need no rounding.
- A transaction whose commit succeeded although its acknowledgement was lost.
- Accounts: statuses, currencies, limits and the `ledger` counter (they only decide whether a call fails); the request amount as a double that Accounts turns back to decimal text (exact below 17 significant digits).
- Payment steps and audit records: their errors are ignored, so there is no guarantee about them.
- GetPayment and ListAccountJournalEntries: they reformat rows.
- Rate limit: elapsed seconds as floating point and overflow of the refill product; times are integer nanoseconds and amounts unbounded. The mutex makes each request one step.
- Sessions: logout, explicit refresh, the CSRF token, overlapping requests of one browser, and SameSite, Path and HttpOnly attributes.
- The pauses between turns (pollEvery and 50 ms) and the length of the sleeps: only the backoff value is modelled.
- Token verification, authorization, configuration, error mapping, transport, and the web client.
