# Verified models of the wealth-builder backend

This project models the parts of the Go backend where money, concurrency and retries meet, and proves what they
promise for every input, every interleaving of committed transactions and every reachable state:

- **Credit Card bills.** Ten operations over four statuses (Review, Unpaid, Paid, Void), versioned writes, line
  linking, payment detection, payoff transfers, an append-only event log, an idempotency ledger and frozen "system"
  treatments on payoff legs.
- **Automatic reconciliation.** Decisions taken on a stale snapshot and persisted later, by two independent creators
  (Gmail evidence and bulk documents) that share one ledger.
- **The durable job queue.** Leases, bounded attempts, and a cleanup kind that may never fail.
- **Bulk documents.** Layout renumbering under unique keys, fingerprints, first-occurrence dedupe, line numbering and
  the conflict-folding summary merge.
- **Money.** Balances in signed 64-bit minor units, and amounts as text.

## How it is built

Where the Go code changes rows step by step, the model does too: `BillStore.Transaction`, `BillService.Service`,
`JobQueue.Queue`, `JobWorker.Worker`, `LedgerCreation.Store`, `Layout.Batch` and `Summary.Aggregate` are classes whose
methods are proved against specification functions. For bills the function is `BillSpec.Exec`: one request, the tables
before, the tables after and the answer. Every method of `BillService.Service` is proved to do exactly what `Exec` says,
statement by statement through the adapter; the theorems about runs are then about `Exec`.

The `…Terms` modules, `BillProjection`, `BillContracts`, `BillReview` and `BillRefusals` state the same behaviour a second time and
independently: over the stored columns and literal numbers alone (microseconds, minor units, counts), with conditions
both necessary and sufficient. They are proved to agree with the specification functions for every input, so that a
slip in a specification and its implementation alike is caught.

| files | content |
|---|---|
| `Prelude`, `Text`, `Decimal` | shared vocabulary |
| `BillModel`, `BillSpec` | the tables, the validators, `Exec` |
| `BillInvariant`, `BillPreservation`, `BillLater`, `BillReload`, `BillRuns` | the invariant, that every request keeps it, what never goes back, and the theorems over runs |
| `BillTerms`, `BillProjection`, `BillContracts`, `BillReview`, `BillRefusals` | what payment detection, projection and each request mean and why one is refused, in the stored columns alone |
| `BillStore`, `BillWorkflow`, `BillService` | the database adapter, the callbacks and the service, proved to refine `Exec` |
| `JobQueue`, `JobRuns`, `JobTerms`, `JobWorker` | the job table, its runs, what a claim, lease and retry mean in its columns, one worker's pass |
| `Matching`, `MatchTerms`, `LedgerCreation`, `LedgerTerms` | the decision and the two writers of the ledger, and what both mean in the rows' columns |
| `Layout`, `LayoutTerms`, `Fingerprints`, `Dedupe`, `Summary` | bulk documents |
| `Amounts`, `Balances` | money |

Run `dafny verify dfyconfig.toml`.

## Assumptions

- Committed transactions are serial, and a transaction that the database refuses at commit (by a trigger or a
  constraint) is a step that did not happen. The unique keys and foreign keys the code leans on are modelled where a
  statement meets them: document of a bill, payoff transfer of a bill, transaction and candidate of a line, one bill per
  chosen debit, sort orders of documents and files.
- Bills are those of one user: every statement filters by user. Identifiers drawn by the database are fresh and never nil.
- There is one clock. A request of the bill service reads it once. Times are UTC microseconds.
- Worker IDs are distinct. SHA-256 is injective. Stored JSON reads back as written.
- Text functions are modelled on ASCII.

## Findings

- `amountRepresentations` goes on past the decimal point: 10.00 is also searched as `1`. Every representation denotes the
  amount unless the amount is a whole one ending in 0 (`Amounts.AllRepresentationsStandExactlyWhen`).
- `formatMinorAmount` writes a second sign into a negative amount with a fractional part; all others read back
  (`Amounts.ReadsBackExactlyWhen`).
- `FingerprintV1` confuses an empty reference list with a single blank reference; nothing else collides
  (`Fingerprints.SameFingerprintExactlyWhen`). The decoder lets no blank reference through.
- A layout that lists one document twice always fails on the file key in the second phase, after the first phase
  accepted it (`Layout.Batch.Renumber`).

## Model

| member | source | states |
|---|---|---|
| BillPreservation.StepKeepsInv | backend/internal/creditcard/service.go:88-591 | every request, whatever its outcome, leads from tables satisfying the whole invariant to tables satisfying it |
| BillRuns.ReachableIsGood | backend/internal/creditcard/service.go:88-591 | the invariant holds in every state reachable from empty tables by any sequence of requests and other writers |
| BillRuns.StatusMeaning | backend/internal/creditcard/service.go:681-737 | Paid iff a payoff transfer iff a paid time; Void iff a void reason; outside Review, or in Review with ambiguous debits, the header is complete and valid, no line is pending, nothing is unresolved; the status events chain from Review to the current status |
| BillRuns.SettledForever | backend/internal/creditcard/service.go:509-555 | Paid and Void rows never change again, and no bill goes back to Review |
| BillTerms.FailedProjectionNeverSettles | backend/internal/creditcardstore/transaction.go:104-131 | in every run, a bill first stored by projecting a document with a failed chunk, or an output with a failed candidate, is in Review in every later state in which it exists, and the answer to that request says so |
| BillTerms.EveryBillIsProjected | backend/internal/creditcardstore/transaction.go:28-131 | in every run, a bill that appears comes from a projection: account, document and generation of the document, its header unless the summary names another account, exactly the kept candidates as lines, the payment decided, and failures answered iff a chunk or candidate failed |
| BillTerms.EveryReviewRequestDecides | backend/internal/creditcard/service.go:681-737 | at every step of a run where a request on a Review bill is done, the committed bill is Paid by the one unsettled transfer of exact amount and currency between statement and due date with legs ten minutes apart at most, else Unpaid without or with one such debit, else in Review; in Review too while it is incomplete |
| BillTerms.DetectedTransferIsTimely | backend/internal/creditcardstore/transfers.go:158-183 | a bill found paid has a transfer whose legs both fall from the start of the statement date to the end of the due date, 600 seconds apart at most |
| BillTerms.TransferTerms | backend/internal/creditcardstore/transfers.go:158-183 | the search accepts exactly the transfers on the written-out terms, in microseconds |
| BillTerms.DebitTerms | backend/internal/creditcardstore/transfers.go:204-260 | the search accepts exactly the confirmed, unlinked debits on the written-out terms that speak of the Card |
| BillProjection.ProjectsExactlyWhen | backend/internal/creditcardstore/transaction.go:28-213 | a document is projected iff it has a bill of that generation, which is answered unchanged, or it is a Card bill of that generation on a live Card whose kept candidates each make a line and clash with none |
| BillRuns.OneTransferPerBillAndLeg | backend/internal/creditcardstore/transfers.go:158-183 | in every reachable state no transfer settles two bills, no transaction is a leg of two transfers or both legs of one |
| BillRuns.BecomesPaidExactly | backend/internal/creditcard/service.go:389-507 | at the step that makes a bill Paid, by detection, confirmation or pay-in-full, its transfer runs from a bank account's debit to that card's credit, both in exactly the bill's amount and currency, both legs excluded |
| BillContracts.BecomesPaidOnTerms | backend/internal/creditcard/service.go:389-507 | however a bill becomes Paid in a run, it is by a transfer that alone is on its terms and pays no other bill, or by legs a permitted confirmation or payment in full made for it: the Card leg at the instant of the debit, or both at the time of the request |
| BillRuns.PaidLegsStayExcluded | backend/internal/accountbalancestore/postgres.go:424-473 | from then on the transfer and the system exclusions of both legs are unchanged in every later state |
| BillRuns.SystemTreatmentsAreFrozen | backend/internal/accountbalancestore/postgres.go:360-403 | a user edit of a system treatment is refused and leaves no trace, and a later payoff lock leaves it as it is |
| BillRuns.AtMostOnce | backend/internal/creditcard/service.go:593-597 | of two requests of a run that both took effect on one bill, the later one named a higher version: an expected version is consumed at most once, even after keys expire |
| BillRuns.EffectTakesTheVersion | backend/internal/creditcard/service.go:814-819 | a request takes effect only at its expected version and leaves the next one, or no bill |
| BillRuns.ReplayOverRun | backend/internal/creditcardstore/idempotency.go:20-90 | over a run with an ordered clock, for 24 hours a used key answers a request of the same operation equal in every field but the key with the bill recorded, and any other with a conflict, and changes nothing |
| BillRuns.IdleKeyIsFree | backend/internal/creditcardstore/idempotency.go:20-90 | a key under which nothing of that operation was done in the last 24 hours stands in nobody's way: the request is answered by its effect alone |
| BillRuns.FingerprintsAgreeExactly | backend/internal/creditcard/service.go:913-916 | two keyed requests have one fingerprint iff they are of the same operation and agree on every field but the key, a void reason up to its outer blanks |
| BillRuns.MalformedIsRefused | backend/internal/creditcard/service.go:889-894 | a key that is not 32 to 128 visible ASCII characters, a void without a reason of 1 to 500, or a payment without a bank account is refused whatever the tables hold |
| BillContracts.SelectsExactlyWhen | backend/internal/creditcard/service.go:337-387 | a debit is selected iff it is one of several offers of a Review bill at that version, still fits the bill, and no other bill holds it |
| BillContracts.SelectLeaves | backend/internal/creditcard/service.go:337-387 | the selected offer stands alone, the others are dismissed, the bill is Unpaid, and neither transactions, transfers nor treatments move |
| BillContracts.ConfirmsExactlyWhen | backend/internal/creditcard/service.go:389-449 | the offer of an Unpaid bill is confirmed iff it still fits, the Card is live and no other bill holds it |
| BillContracts.ConfirmLeaves | backend/internal/creditcardstore/transfers.go:262-308 | one new Card credit of the amount due at the very instant of the debit, one new transfer of both, both legs excluded, the offer confirmed and the bill Paid now |
| BillContracts.PaysInFullExactlyWhen | backend/internal/creditcard/service.go:451-507 | an Unpaid bill of positive amount is paid from a bank account iff that account and the Card are live and of their kinds |
| BillContracts.PayInFullLeaves | backend/internal/creditcardstore/transfers.go:310-359 | a debit of the named bank account and a credit of the Card, both of the amount due at the time of the request, one transfer, both excluded, the bill Paid now |
| BillContracts.VoidsOnTerms | backend/internal/creditcard/service.go:509-555 | exactly an Unpaid bill is voided, with a trimmed reason of 1 to 500 characters; its offers are dismissed and no money moves |
| BillContracts.DiscardsOnTerms | backend/internal/creditcard/service.go:557-591 | exactly a Review bill at that version is removed, and nothing else |
| BillContracts.TreatsOnTerms | backend/internal/accountbalancestore/postgres.go:360-403 | a treatment is written iff the row the user saw is the stored user row, or they saw none and there is none |
| BillContracts.DoneLeaves | backend/internal/creditcardstore/idempotency.go:92-122 | a done request leaves its effect and, if keyed, under its operation and key the answer with its code for 24 hours |
| BillReview.SettleLeaves | backend/internal/creditcard/service.go:222-242 | the one written row: edited header and lines, next version, the events of search, payment and status in order, offers left as found, and only a found transfer's legs locked |
| BillReview.CorrectsOnTerms | backend/internal/creditcard/service.go:134-176 | a header is corrected iff the bill is in Review at that version, some field is given with a reason, and the merged header holds; each given field replaces the stored one |
| BillReview.AttachesOnTerms | backend/internal/creditcard/service.go:201-244 | a pending line gets a transaction iff no other line has it and it may stand for the line, exactly without a reason or differently with one, which is kept |
| BillReview.LinkExactly | backend/internal/creditcard/service.go:620-672 | the check accepts exactly a transaction of the Card in the kind's direction, a payment only from a bank account; exact in amount, currency, day and window without a reason, else with one |
| BillReview.IgnoresOnTerms | backend/internal/creditcard/service.go:301-332 | a pending line of a Review bill is ignored iff a reason of 1 to 500 characters is given, and nothing else of the bill moves but its payment |
| BillReview.CreatesLineExactlyWhen | backend/internal/creditcard/service.go:246-299 | a pending line gets a transaction of its own iff its candidate awaits review, has none, says what the line says within the window, and Card and category exist |
| BillReview.CreateLineLeaves | backend/internal/creditcardstore/transfers.go:61-156 | the new ledger row at noon of the candidate's day, the candidate marked created with it, the line linked and the payment searched, in one step |
| BillRefusals.RefusedForItsBill | backend/internal/creditcard/service.go:599-618 | too little said is invalid, no bill is not found, another version is a conflict, another status is invalid, in that order |
| BillRefusals.RefusedForItsLine | backend/internal/creditcard/service.go:201-244 | no such line is not found, a resolved or summary line is invalid, an unknown transaction is not found and a used one a duplicate |
| BillRuns.OnlyDoneChanges | backend/internal/creditcardstore/postgres.go:75-86 | a refused or replayed request leaves the tables as they were, so a failed request consumes no key |
| BillRuns.NothingLeftInProcessing | backend/internal/creditcardstore/idempotency.go:92-122 | no committed ledger record is in processing, so no request is ever told that another is in flight |
| BillRuns.RunLater | backend/internal/creditcard/service.go:88-591 | between any two points of a run, transfers and their exclusions are kept, versions only rise, and a bill that keeps its version is unchanged |
| BillInvariant.SaveThenLoad | backend/internal/creditcardstore/transaction.go:277-329 | saving and loading returns the same suggested, selected and ambiguous debits for every choice the service saves, whatever rows were there before |
| BillReload.AnswerIsWhatIsStored | backend/internal/creditcardstore/postgres.go:197-237 | the answer of every request that leaves a bill agrees with what the next reader loads, payment choice included |
| BillPreservation.ResolutionIsSavable | backend/internal/creditcard/service.go:681-737 | payment resolution searches exactly the ready bills, chooses at most one of a suggestion and two or more debits, and pays only by an exact transfer that settles nothing yet |
| BillPreservation.SelectableIsReady | backend/internal/creditcard/service.go:352-369 | a debit can be selected only on a Review bill whose header is complete and whose lines are resolved |
| BillInvariant.ChainThrough | backend/internal/creditcard/service.go:931-960 | appending an operation's facts and then its change of status extends an unbroken chain of statuses |
| BillPreservation.AddingLinkKeepsLinksOk | backend/internal/creditcardstore/transfers.go:361-383 | a transfer over legs no transfer uses keeps all transfers disjoint |
| BillPreservation.LoadedTransactionIsUnlinked | backend/internal/creditcardstore/transfers.go:17-59 | a transaction loaded without a transfer is a leg of none |
| BillPreservation.UnreferencedTreatmentGoes | backend/internal/accountbalancestore/postgres.go:424-473 | deleting an unreferenced transaction and its treatment cannot uncover a payoff leg |
| BillService.Service.ProjectBulkBill | backend/internal/creditcard/service.go:88-132 | the projection, step by step, does what `Exec` says, which BillProjection.ProjectsExactlyWhen and BillTerms.EveryBillIsProjected pin, and keeps the invariant |
| BillService.Service.CorrectHeader | backend/internal/creditcard/service.go:134-176 | as specified: corrected header, payment resolved again, version and events written, or nothing |
| BillService.Service.AttachLine | backend/internal/creditcard/service.go:201-244 | as specified: the pending line is linked to a transaction no line uses, exactly or with a stated exception |
| BillService.Service.CreateLineTransaction | backend/internal/creditcard/service.go:246-299 | as specified: key claimed, transaction made from the pinned candidate, line linked, payment resolved, key completed |
| BillService.Service.IgnoreLine | backend/internal/creditcard/service.go:301-332 | as specified: the pending line is ignored with its reason and payment resolved again |
| BillService.Service.SelectPaymentCandidate | backend/internal/creditcard/service.go:337-387 | as specified: one ambiguous debit is chosen and the bill becomes Unpaid |
| BillService.Service.ConfirmPaymentCandidate | backend/internal/creditcard/service.go:389-449 | as specified: the missing Card leg and the transfer are made, both legs frozen, the bill Paid |
| BillService.Service.PayInFull | backend/internal/creditcard/service.go:451-507 | the steps do what `Exec` says, key included, which BillRuns.ReplayOverRun, BillContracts.PaysInFullExactlyWhen and BillContracts.PayInFullLeaves pin |
| BillService.Service.VoidBill | backend/internal/creditcard/service.go:509-555 | as specified: only an Unpaid bill is voided, with its reason |
| BillService.Service.DiscardReviewBill | backend/internal/creditcard/service.go:557-591 | as specified: only a Review bill is removed |
| BillService.Service.Claim | backend/internal/creditcard/service.go:896-911 | a key gives work to do, its recorded answer, or a refusal, and an acquired one is marked in processing |
| BillService.Service.CommitKeyed | backend/internal/creditcardstore/postgres.go:75-86 | committing completes the claimed key with the answer; a failure rolls the claim back with everything else |
| BillService.Service.PutUserTreatment | backend/internal/accountbalancestore/postgres.go:360-403 | a user's treatment is written only over a row of the version they saw, and never over a system one |
| BillService.EffectIgnoresRecords | backend/internal/creditcardstore/idempotency.go:20-90 | claiming a key changes nothing about what the operation then does |
| BillStore.Transaction.LoadPaymentCandidates | backend/internal/creditcardstore/postgres.go:197-237 | the selected row if any, else the only open one, else all open ones as ambiguous |
| BillStore.Transaction.GetBillForUpdate | backend/internal/creditcardstore/postgres.go:93-127 | the stored bill with its payment choice read from the candidate rows |
| BillStore.Transaction.SaveBill | backend/internal/creditcardstore/transaction.go:253-275 | writes at the expected version only, refuses a transfer or a debit another bill holds, and leaves the synced candidate rows |
| BillStore.Transaction.SyncPaymentCandidates | backend/internal/creditcardstore/transaction.go:277-315 | dismissing, upserting and confirming in sequence ends in the specified status for every row |
| BillStore.SyncSteps | backend/internal/creditcardstore/transaction.go:277-329 | the three statements of a sync compose to one status per row |
| BillStore.Transaction.SaveLine | backend/internal/creditcardstore/transaction.go:331-349 | one line's resolution is written unless another line has the transaction |
| BillStore.Transaction.FindBankDebitCandidates | backend/internal/creditcardstore/transfers.go:204-260 | returns exactly the exact debits, each once, and records each as suggested |
| BillStore.Transaction.CreateMissingCardLegAndTransfer | backend/internal/creditcardstore/transfers.go:262-308 | makes the Card credit and the transfer for the current exact suggestion, or refuses with the reason |
| BillStore.Transaction.CreateFullPayoffTransfer | backend/internal/creditcardstore/transfers.go:310-359 | makes both legs and the transfer between eligible accounts, or refuses |
| BillStore.Transaction.CreateTransactionFromPinnedCandidate | backend/internal/creditcardstore/transfers.go:61-156 | makes the ledger row of a reviewable candidate once, at noon of its day |
| BillStore.Transaction.LockSystemPayoffExclusions | backend/internal/accountbalancestore/postgres.go:424-473 | two distinct existing legs end with system exclusions; a system row already there stays |
| BillStore.Transaction.ProjectBillFromBulk | backend/internal/creditcardstore/transaction.go:28-131 | one bill per document: the stored one of the same generation, or a new one with exactly the included candidates as lines, failed candidates and failed chunks both counted as unresolved |
| BillStore.Transaction.ProjectLines | backend/internal/creditcardstore/transaction.go:138-213 | non-terminal candidates refuse the projection, and the included ones become lines that the unique keys accept one by one |
| BillStore.Transaction.ClaimIdempotency | backend/internal/creditcardstore/idempotency.go:20-90 | an unused, expired or failed key is taken; a live one answers only the same request |
| BillStore.Transaction.CompleteIdempotency | backend/internal/creditcardstore/idempotency.go:92-122 | only the record in processing for the same request is completed |
| BillWorkflow.ResolvePayment | backend/internal/creditcard/service.go:681-737 | decides the status from the exact transfers and debits, freezing the legs of a single transfer, as BillTerms.EveryReviewRequestDecides pins it |
| BillWorkflow.FinishReview | backend/internal/creditcard/service.go:222-242 | resolving, saving and logging together leave one specified state |
| BillWorkflow.ValidateLineTransaction | backend/internal/creditcard/service.go:620-672 | accepts an exact match without a reason and a differing one with a bounded reason, and nothing else |
| BillWorkflow.ValidateProjectedLines | backend/internal/creditcard/service.go:739-771 | accepts exactly well-formed lines with distinct indexes and, summaries aside, distinct candidates |
| BillWorkflow.InsertableFollows | backend/internal/creditcard/service.go:739-771 | lines the unique keys accepted fail this check only by their form |
| BillWorkflow.ReplaceLine | backend/internal/creditcard/service.go:821-828 | exactly the line with that identifier is replaced |
| JobRuns.ReachableIsGood | backend/internal/transactionstore/postgres.go:419-467 | in every reachable table a job runs iff it has a lease holder, a queued job has an attempt left, attempts stay within bounds, and a cleanup job is never in a final status |
| JobRuns.TerminalIsForever | backend/internal/transactionstore/postgres.go:486-544 | a completed, failed or cancelled row never changes again; only deleting its source removes it |
| JobRuns.FinalisedByItsClaimer | backend/internal/transactionstore/postgres.go:486-615 | whoever completes or retries a job is its current, unexpired holder and has held it without interruption since its own claim |
| JobRuns.FinalisedOncePerClaim | backend/internal/transactionstore/postgres.go:486-615 | between two finalisations of a job, the second finaliser claimed it |
| JobRuns.ReclaimedWorkerIsLockedOut | backend/internal/transactionstore/postgres.go:471-484 | once someone else claimed the job, a worker can finalise it only after claiming it again |
| JobRuns.FailedRenewalLocksOut | backend/internal/jobs/jobs.go:158-187 | a worker whose renewal failed can neither complete nor retry the job without claiming it again |
| JobRuns.ClaimedAtMostMaxAttempts | backend/internal/transactionstore/postgres.go:428-447 | in any run an ordinary job is claimed at most its maximum number of times, and its attempts count its claims |
| JobTerms.ClaimOnTerms | backend/internal/transactionstore/postgres.go:419-467 | a claim takes the first, by run time then creation time, of the jobs that were due, or abandoned with an attempt left, when it began, with one more attempt and a lease of 300 seconds, or none if there is none; abandoned last attempts are reaped, nothing else moves |
| JobTerms.HolderActsOnTerms | backend/internal/transactionstore/postgres.go:471-615 | the unexpired holder renews, completes or hands back with exactly the written-out columns, a renewal never shortening the lease; from anybody else nothing changes |
| JobTerms.UsersActOnTerms | backend/internal/bulkstore/postgres.go:516 | cancelling reaches exactly the queued jobs in scope, deleting a source exactly its jobs |
| JobTerms.LeaseLastsFiveMinutes | backend/internal/transactionstore/postgres.go:471-484 | in every run, after a claim or renewal at `now`, while no clock of a claim reaches now + 300 seconds, the worker does not end the work and the source stays, the worker is the holder until then and nobody has claimed the job |
| JobTerms.WorkInTimeIsAccepted | backend/internal/transactionstore/postgres.go:471-544 | so a renewal, completion or retry by that worker before then is accepted |
| JobTerms.NoClaimBeforeRetryTime | backend/internal/transactionstore/postgres.go:546-597 | the next claim of a retried job comes no earlier than its retry time, for a cleanup on its last attempt 900 seconds later still, and a failed job is never claimed |
| JobTerms.ReapedCleanupWaits | backend/internal/transactionstore/postgres.go:634-660 | a cleanup abandoned on its last attempt is not claimed for 900 seconds after it was reaped |
| JobTerms.NoClaimBeforeRunTime | backend/internal/transactionstore/postgres.go:433-440 | a new job is not claimed before its run time |
| JobTerms.NobodyIsStranded | backend/internal/transactionstore/postgres.go:419-467 | in every run, a claim that meets a due or abandoned job of an asked-for kind leases it, or one not behind it by run time and creation time; one abandoned on its last attempt fails, or waits as a cleanup |
| JobRuns.CleanupStaysUntilDone | backend/internal/transactionstore/postgres.go:508-520 | a cleanup job stays queued or running until its holder completes it |
| JobQueue.Queue.SelectCandidate | backend/internal/transactionstore/postgres.go:433-440 | picks a claimable job with no claimable job before it, and none only if none is claimable |
| JobQueue.Queue.ClaimKinds | backend/internal/transactionstore/postgres.go:419-467 | reaps, then leases the first due job to the worker |
| JobQueue.Queue.RenewLease | backend/internal/transactionstore/postgres.go:471-484 | the statement does the renewal step that JobTerms.HolderActsOnTerms pins: only the unexpired holder, and at least 300 seconds from now |
| JobQueue.Queue.CompleteJob | backend/internal/transactionstore/postgres.go:486-544 | only the unexpired holder completes; a cleanup row disappears |
| JobQueue.Queue.RetryJob | backend/internal/transactionstore/postgres.go:546-597 | only the unexpired holder hands back; the last attempt fails an ordinary job and restarts a cleanup job after the cooldown |
| JobQueue.Queue.ReapExpiredFinalAttempts | backend/internal/transactionstore/postgres.go:634-660 | exactly the expired last attempts are failed, or for cleanup queued again with no attempts |
| JobQueue.Queue.CancelJobs | backend/internal/bulkstore/postgres.go:516 | exactly the queued jobs of the batch or document are cancelled |
| JobQueue.Queue.DeleteSourceJobs | backend/internal/transactionstore/source_admin.go:343-353 | the jobs of a deleted source are gone and no others are touched |
| JobWorker.Worker.ProcessOne | backend/internal/jobs/jobs.go:108-187 | with others acting in between, a pass is exactly: claim, one renewal per beat, and then one completion or a retry after the backoff of the attempt, only if every renewal found it the holder; a failed renewal is the last step |
| JobWorker.BackoffDoublesToAMinute | backend/internal/jobs/jobs.go:189-198 | one second, doubling per attempt, at most sixty-four |
| Matching.Reconcile | backend/internal/reconciliation/reconciliation.go:507-555 | the loops take the decision that the lemmas of MatchTerms pin in the rows' own columns |
| Matching.ResolveAccount | backend/internal/reconciliation/reconciliation.go:575-603 | resolved iff exactly one owned account shares a normalised key with the evidence |
| Matching.HasSharedReference | backend/internal/reconciliation/reconciliation.go:687-702 | true iff some nonblank normalised reference occurs on both sides |
| Matching.OnlyOwnRowsInAnyOrder | backend/internal/reconciliation/reconciliation.go:507-603 | the decision is the same for any two lists whose own rows are equal as multisets: order and other users' rows do not matter |
| MatchTerms.AttachesExactlyWhen | backend/internal/reconciliation/reconciliation.go:525-545 | evidence is attached iff exactly one account is named and exactly one row of the ledger has its user, account, kind, exact amount and an agreeing currency at most 600 seconds away, and then to that row with the written-out score |
| MatchTerms.CreatesExactlyWhen | backend/internal/reconciliation/reconciliation.go:529-554 | a transaction is created iff the candidate is well formed, one account is named, no row is such a payment, the evidence is corroborated and the confidence is at least 0.75 |
| MatchTerms.ReviewsExactlyWhen | backend/internal/reconciliation/reconciliation.go:507-554 | a person is asked iff two accounts are named, or one is and two rows are such payments, or none is and the evidence is not good enough |
| MatchTerms.DanglesExactlyWhen | backend/internal/reconciliation/reconciliation.go:514-521 | evidence dangles iff no owned account is named |
| MatchTerms.RefusedExactlyWhen | backend/internal/reconciliation/reconciliation.go:507-512 | a decision is refused iff the candidate fails its checks |
| MatchTerms.FarPurchasesStayApart | backend/internal/reconciliation/reconciliation.go:529-531 | evidence is only ever attached to a row of its user, kind and amount at most ten minutes away |
| MatchTerms.KeyExactly | backend/internal/reconciliation/reconciliation.go:623-665 | a card key is exactly four digits among masking characters, never cut from a longer number; a suffix 1 to 100 lower-case characters without the mask |
| LedgerCreation.NoAutomaticDuplicates | backend/internal/transactionstore/reconciliation.go:550-593 | for any interleaving of stale decisions, bulk reconciliations, user edits, additions and deletions, two automatically created, unedited transactions of one user with equal account, direction, amount and currency are more than ten minutes apart |
| LedgerCreation.DayCoversWindow | backend/internal/transactionstore/bulk.go:263-310 | a time within ten minutes of a bulk transaction's noon is on its calendar day |
| LedgerTerms.WindowLosesNothing | backend/internal/transactionstore/reconciliation.go:518-544 | deciding on the rows of the day around the evidence is deciding on the whole ledger |
| LedgerTerms.PersistCreatesOnTerms | backend/internal/transactionstore/reconciliation.go:550-682 | a row is made iff the source is parsed and unlinked and a decision taken again on the whole ledger is to create; it has the candidate's own facts and the source is linked to it |
| LedgerTerms.PersistOtherwise | backend/internal/transactionstore/reconciliation.go:550-682 | any other decision attaches to an existing row of the user, marks the source for review or dangling, or is refused |
| LedgerTerms.BulkDecidesOnTerms | backend/internal/transactionstore/bulk.go:28-98 | a bulk candidate is attached iff it is plausible and exactly one row has its user, account, kind, amount and currency on that UTC day without conflicting items, and created iff none has and it is corroborated, no Card bill and of confidence 0.75 |
| LedgerTerms.BulkReconcilesOnTerms | backend/internal/transactionstore/bulk.go:28-98 | what is then stored: the link and status, the new row at noon of the day, or the review; another candidate's evidence or a deleted account refuses |
| LedgerCreation.PersistedOnce | backend/internal/transactionstore/reconciliation.go:569-577 | once a source made a transaction, persisting it again with any decision changes nothing |
| LedgerCreation.StaleCreateIsDecidedAgain | backend/internal/transactionstore/reconciliation.go:578-593 | a stale decision to create stores what a fresh decision says, or nothing if the candidate is invalid |
| LedgerCreation.Store.PersistReconciliation | backend/internal/transactionstore/reconciliation.go:550-682 | the steps store what the final decision says, under the source's current status and links, or nothing |
| LedgerCreation.Store.LoadOwnedTransactions | backend/internal/transactionstore/reconciliation.go:518-544 | exactly the user's transactions within a day of the evidence |
| LedgerCreation.Store.ReconcileBulkCandidate | backend/internal/transactionstore/bulk.go:28-98 | a pending candidate is reviewed, attached or created as its matches, direction, corroboration and document type decide |
| LedgerCreation.Store.MatchBulkTransactions | backend/internal/transactionstore/bulk.go:263-284 | the first three same-day matches, and whether their line items conflict |
| Layout.Batch.ReplaceDocumentLayout | backend/internal/bulkstore/postgres.go:317-405 | succeeds iff the layout can be applied; then exactly its documents remain, numbered from 0, each file where it is listed and none lost; otherwise nothing changes |
| Layout.Batch.MoveAside | backend/internal/bulkstore/postgres.go:363-384 | with distinct files, no update of the first phase meets a unique key, and it fails only for an unknown row or a number past 32 bits |
| Layout.Batch.Renumber | backend/internal/bulkstore/postgres.go:388-397 | no update of the second phase meets a unique key iff the documents are distinct |
| Layout.Batch.UpdateDocument | backend/internal/bulkstore/postgres.go:369 | each single update keeps sort orders unique or is refused |
| Layout.Batch.UpdateFile | backend/internal/bulkstore/postgres.go:378 | each single update keeps places within a document unique or is refused |
| LayoutTerms.AppliesExactlyWhen | backend/internal/bulkstore/postgres.go:317-405 | a layout without repeats applies iff the batch is a draft, its documents are known and distinct, its files are exactly the batch's, no PDF shares a document, and the temporary numbers stay within 32 bits |
| LayoutTerms.WeightWith | backend/internal/bulkstore/postgres.go:255-265 | the weight a reservation is checked against is the sum of the file sizes |
| LayoutTerms.TitleKept | backend/internal/bulkstore/postgres.go:388-397 | a blank title is none, any other is kept without its outer blanks |
| Layout.EveryFileIsListed | backend/internal/bulkstore/postgres.go:333-343 | distinct known files, as many as there are, are all of them |
| Layout.Batch.ReserveFile | backend/internal/bulkstore/postgres.go:251-300 | a file is reserved iff the batch is a draft of fewer than 20 files, stays within 52428800 bytes and the file is no unintended duplicate; its number is free in every reachable batch |
| Layout.Batch.DeleteDraftDocument | backend/internal/transactionstore/bulk.go:422-455 | deleting a draft document keeps later reservations free |
| Layout.ReplaceLayout | backend/internal/bulkimport/service.go:226-247 | the service and the store together accept exactly the acceptable, applicable layouts |
| Layout.CheckLayout | backend/internal/bulkimport/service.go:226-247 | the seen-set finds every file listed twice |
| Dedupe.DedupeV1 | backend/internal/bulkparse/decoder.go:494-514 | each duplicate points at the smallest earlier index with its fingerprint; fails iff the lists differ in length, an account is nil or a date is none |
| Dedupe.DatesAreDays | backend/internal/bulkparse/decoder.go:463-469 | a date in the form of four, two and two digits is accepted iff it is a day of the Gregorian calendar |
| Dedupe.TargetsAreOriginals | backend/internal/bulkparse/decoder.go:494-514 | a duplicate's target is itself an original, the first of all with that fingerprint |
| Dedupe.DocumentGlobalLineIndexes | backend/internal/bulkstore/worker.go:567-579 | the loop computes the numbering the lemmas are about |
| Dedupe.SameIndexExactlyWhen | backend/internal/bulkstore/worker.go:567-579 | two candidates share a line number iff they share a fingerprint |
| Dedupe.NumbersFollowFirstAppearance | backend/internal/bulkstore/worker.go:567-579 | of two originals the later has the higher number |
| Dedupe.NumbersAreDense | backend/internal/bulkstore/worker.go:567-579 | the numbers used are exactly 1 up to the candidates that are no duplicates |
| Dedupe.OriginalsAndDuplicates | backend/internal/bulkstore/worker.go:704-712 | every candidate is an original or counted as a duplicate |
| Dedupe.ProjectedNumbersAreUnique | backend/internal/creditcard/service.go:739-749 | every line projected into a bill has a positive number no other projected line has |
| Fingerprints.SameFingerprintExactlyWhen | backend/internal/bulkparse/decoder.go:463-482 | separator-free candidates share a canonical text iff their facts agree and their normalised references are equal as multisets, except none against one blank |
| Fingerprints.DecodedFingerprints | backend/internal/bulkparse/decoder.go:455-482 | without blank references the exception is gone |
| Fingerprints.BlankReferenceCollides | backend/internal/bulkparse/decoder.go:471-475 | no reference and one blank reference give one text |
| Text.NormalTextIsItsWords | backend/internal/bulkparse/decoder.go:484-486 | the normal form of a text is its words in lower case, one space apart |
| Fingerprints.JoinsAlikeExactlyWhen | backend/internal/bulkparse/decoder.go:476-480 | joining separator-free parts is injective, except for no part and one blank part |
| Summary.AggregateSummaries | backend/internal/bulkstore/worker.go:474-512 | a field of the merged summary is v iff some chunk said v and no chunk said anything else |
| Summary.Aggregate.MergeBillSummary | backend/internal/bulkstore/worker.go:714-736 | one chunk is folded into every field once |
| Summary.Aggregate.MergeSummaryValue | backend/internal/bulkstore/worker.go:738-754 | one field is merged, a found conflict stays, and no other field moves |
| Summary.FoldMeans | backend/internal/bulkstore/worker.go:714-754 | the fold keeps v iff some chunk supplied it and all that supplied anything said v |
| Summary.OrderDoesNotMatter | backend/internal/bulkstore/worker.go:714-754 | the merged field is the same for every order of the chunks |
| Amounts.ReadsBackExactlyWhen | backend/internal/reconciliation/corroboration.go:188-202 | for every scale the text denotes the same minor units, unless they are negative with a fractional part |
| Amounts.OneMeaning | backend/internal/reconciliation/corroboration.go:188-202 | a text denotes at most one amount |
| Amounts.GroupedReadsBack | backend/internal/reconciliation/corroboration.go:204-222 | deleting the commas gives the input back |
| Amounts.CommasEveryThree | backend/internal/reconciliation/corroboration.go:204-222 | counted from the end of the whole part, exactly every fourth character is a comma |
| Amounts.GroupedAmount | backend/internal/reconciliation/corroboration.go:204-222 | the loop computes the grouping the lemmas are about |
| Amounts.AmountRepresentations | backend/internal/reconciliation/corroboration.go:156-186 | the result lists each abbreviation and its grouping exactly once |
| Amounts.AllRepresentationsStandExactlyWhen | backend/internal/reconciliation/corroboration.go:156-186 | all representations denote the amount iff it is not a whole amount ending in 0 written with a point |
| Amounts.EveryShorterFormIsSearched | backend/internal/reconciliation/corroboration.go:156-186 | with however many zeros of the fraction left out, the amount is among the representations, plain and grouped |
| Amounts.OnlyCutFormsAreSearched | backend/internal/reconciliation/corroboration.go:156-186 | every representation is the amount without some last zeros and point, plain or grouped |
| Amounts.TenIsAlsoOne | backend/internal/reconciliation/corroboration.go:165-173 | 1000 minor units at two decimals are also represented as 1 |
| Balances.BalanceView | backend/internal/accountbalances/service.go:128-167 | per currency the opening amount plus the exact signed sum of later movements; it fails iff some prefix leaves the signed 64-bit range |
| Balances.BalanceIs | backend/internal/accountbalances/service.go:128-167 | an asset is its opening amount plus what came in minus what went out strictly after it, a liability the other way |
| Balances.CurrenciesAre | backend/internal/accountbalances/service.go:128-167 | a currency is shown iff it has an opening amount or a later movement |
| Balances.OverflowsExactlyWhen | backend/internal/accountbalances/service.go:128-167 | the view fails iff a movement takes the running total of its currency out of a signed 64-bit integer |
| Balances.PayoffKeepsNetWorth | backend/internal/creditcardstore/transfers.go:344-358 | a payoff dated after both opening balances leaves assets minus liabilities unchanged in every currency |

## Left out

- BillRuns.BecomesPaidExactly: speaks of the step that pays; a later user edit of a leg can change its amount.
- BillRuns.ReplayOverRun: the fingerprint of a request is its fields, not their digest.
- LedgerCreation.NoAutomaticDuplicates: says nothing about transactions a user added or edited, as the code does not.
- JobTerms.NobodyIsStranded: does not bound how many later arrivals with an earlier run time may overtake a due job.
- Balances.BalanceView: returns the totals as a map; the sorting by currency is not modelled.
- BillStore.Transaction.ProjectBillFromBulk: minimum payment, previous balance and the statement-line fingerprint key are not modelled.
- Layout.Batch.ReserveFile: checksums are a yes or no; storage paths and expiry are not modelled.
- Event details, row timestamps and the storage order of candidate rows.
- The database triggers that check lines and candidates again at commit: a refused commit is a dropped step.
- Which free text counts as Card-payment evidence: an uninterpreted set per transaction.
- HTTP, authentication, Gmail, the language model, Storage, PDF handling and prompts.
- Sync-run counters, batch and document status recomputation, and the job barriers between chunks, aggregation and post-processing.
- What a handler writes between claim and completion of its job.
- User resolutions of bulk candidates beyond their effect on the ledger.
- Rule matching and regular-expression corroboration of evidence.
- Opening-balance revisions and the bill-list cursor.
