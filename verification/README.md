# Verified model of the job-search worker system

This project models, in Dafny, the parts of a job-search application in which
state is shared between processes, transactions and external services, and
proves what those parts promise.

* **The lease queue** (`WorkQueues`, `QueueRuns`, `Worker`, `JobTransactions`,
  `EnqueueIntents`). Rows of `work_queue` move from pending to in progress to done or failed, or back to pending. Any
  number of workers enqueue, claim, steal stale leases, finalize, release and
  prune, in any interleaving. Each SQL statement is one atomic step
  (`WorkQueues.Step`); the class `WorkQueue` performs the steps, and a ghost
  event log records claims, releases and finalizations. `JobTransactions` cuts
  one dispatched job at its commits, with any statement of anybody else in
  between; `EnqueueIntents` is what the services put into the queue.
* **The batch-match state machine** (`BatchMatch`, `BatchMatchLaws`,
  `BatchMatchService`, `BatchMatchAccounts`, `BatchMatchAnswers`,
  `BatchMatchWorker`, `BatchPacking`).
  One tick fails, polls, imports, selects, rejects, packs and submits, against an
  arbitrary provider and with a crash possible between commits. `BatchMatch`
  states what a tick does as functions on the stored tables; the class
  `BatchMatcher` runs the loops and is proved equal to them; `BatchMatchLaws`
  and `BatchMatchAccounts` prove what every tick, and every run of ticks, keeps;
  `BatchMatchAnswers` says on the columns of the stored rows what an import, a
  failure, a selection, a build and a poll come to.
* **The cover-letter protocol** (`CoverLetters`, `CoverLetterSafety`,
  `CoverLetterContents`, `StolenLease`, `Applications`). `generation_status` and the queue commit
  separately; the handler is cut at its commits, every task may crash between
  any two of them, and any lease may be stolen. `CoverLetterSafety` proves
  exactly which moves break the protocol's promise, `StolenLease` shows runs in
  which they do, and `CoverLetterContents` proves whose letter a ready
  application holds. The cron repair is a method of `GenerationService`.
* **Scores and statuses** (`Scoring`). The match handler, batch ticks,
  re-scoring and user decisions as one transition system over applications.
* **Catalog pruning** (`TextLines`, `Catalogs`, `CatalogPruning`,
  `CatalogEditor`, `CatalogProbing`). A line editor on the catalog's text,
  proved to remove exactly the invalid slugs from the catalog the text stands
  for; and the probe that decides what is removable.
* **Smaller cores.** `RateLimits` (fixed-window limiter), `SearchExpiry` (daily
  maintenance of search windows), `Entitlements` (paid access and the follow
  limit), `JobStore` (content-hash short-circuit), `SlugRegistry` (fetch state
  and the two listings of stale slugs). `Decimals` and `Prelude` are shared
  vocabulary.

Times are whole seconds on one database clock (clock ticks in `RateLimits`),
scores are reals, identifiers are strings or numbers. Tables are maps from
identifiers to immutable rows held in class fields. What the code reads from the
outside (the clock, the provider's answers, the model's answer, text heuristics)
is a parameter that ranges over all values.

## Results that are not plain confirmations

* "A generating application has a live row" is not true of every run. Two kinds
  of moves break it, and no others (`CoverLetterSafety.MoveStrandsWhen`): a task
  claims an application that is pending again while no row works for it, or
  finishes its worker's row while the application is generating. Over every run
  the promise holds exactly when neither happens
  (`CoverLetterSafety.GeneratingHasLiveRowExactly`). Both do happen: after a
  stolen lease (`StolenLease.StolenLeaseStrandsApplication`), and, because
  settlement is guarded by the worker's name alone, after a lease that its old
  worker got back (`StolenLease.ReclaimedLeaseStrandsApplication`). Neither run's
  application is found by the cron job. It is enough that only the task of a
  row's latest claim claims the application and ends the row
  (`CoverLetterSafety.LatestClaimantsSuffice`), and so it is that a lease is
  reclaimed only after its old holder stopped
  (`CoverLetterSafety.StoppedHoldersSuffice`).
* The match handler and the batch path agree on the status of a deterministic
  mismatch exactly when the score threshold is positive or the application is
  not pending review (`Scoring.RejectPathsAgree`).
* A search without engagement in the last `search_auto_pause_days` days is not
  always paused: `SearchExpiry.InactiveSearchExtended` is an example.
* The two listings of stale slugs agree for a profile exactly when no followed
  company offers a null slug or an empty one that is due
  (`SlugRegistry.ListingsAgreeWithoutBlanks`).
* Pruning refuses to return, rather than write an empty catalog, exactly when no
  company keeps a provider (`CatalogPruning.PruningReturnsWhen`).

## Model

| member | source | states |
|---|---|---|
| WorkQueues.StepKeepsInv | app/worker/queue_service.py:34-98 | every statement, whoever runs it, keeps: one live row per (job type, dedupe key), in progress exactly when claimed, attempts equal to the number of claims, a legal history |
| WorkQueues.WorkQueue.Enqueue | app/worker/queue_service.py:16-98 | both conflict modes: a free slot gets a fresh pending row; a taken one is left alone, or its pending row gets the new start time and payload; the caller gets the live row |
| WorkQueues.WorkQueue.ClaimOne | app/worker/queue_service.py:101-182 | none exactly when no due, allowed, unlocked row is pending or left behind by another worker; otherwise a most urgent of these rows: kinds of work in their fixed order, within a kind the first enqueued |
| WorkQueues.ClaimTakesTheMostUrgent | app/worker/queue_service.py:122-147 | the same of every claim in every run, on job types and columns |
| WorkQueues.WorkQueue.MarkDone | app/worker/queue_service.py:185-202 | only the current holder finalizes; anybody else changes nothing and is told so |
| WorkQueues.WorkQueue.MarkFailed | app/worker/queue_service.py:205-224 | only the current holder fails the row; the error is cut to 8000 characters |
| WorkQueues.WorkQueue.ReleaseWithBackoff | app/worker/queue_service.py:227-253 | only the current holder sends the row back to pending, attempts untouched |
| WorkQueues.WorkQueue.PruneCompleted | app/scheduler/tasks.py:221-237 | drops exactly done rows older than 7 days and failed rows older than 30, and counts them |
| WorkQueues.FirstExists | app/worker/queue_service.py:136-147 | a non-empty set of claimable rows has a first one in claim order |
| WorkQueues.EnqueueAddsOrIgnores | app/worker/queue_service.py:57-98 | DO NOTHING adds a row to a free slot and changes nothing else |
| WorkQueues.EnqueueDeduplicates | app/worker/queue_service.py:34-98 | an insert adds a fresh pending row exactly when no row of its kind and key is pending or in progress; otherwise nothing changes but the start time and payload an upsert gives a pending row |
| WorkQueues.PruningDeletesOldRows | app/scheduler/tasks.py:221-237 | a row is deleted exactly when it was done more than 604800 seconds ago or failed more than 2592000 seconds ago |
| QueueRuns.RunKeepsInv | app/models/work_queue.py:22-30 | at every moment of every interleaving the queue invariant holds |
| QueueRuns.LiveRowsOfOneKeyAreOne | app/models/work_queue.py:22-30 | at no moment of any run are two rows of one kind and dedupe key both pending or in progress |
| QueueRuns.TerminalRowsAreFrozen | app/worker/queue_service.py:185-224 | done and failed are absorbing: such a row is never rewritten, only pruned, and its id never reused |
| QueueRuns.SuccessiveClaimsAreApart | app/worker/queue_service.py:126-135 | two claims of a row without a release in between are by different workers and further apart than the visibility timeout |
| QueueRuns.FinalizerMadeLatestClaim | app/worker/queue_service.py:185-253 | whoever finalizes or releases a row made its latest claim, with no release since |
| QueueRuns.FinalizationIsLast | app/worker/queue_service.py:185-224 | a row is finalized at most once, and nothing happens to it afterwards |
| QueueRuns.FollowUpOwnsTheSlot | app/worker/main.py:204-223 | mark_done frees the dedupe slot before the same transaction's upsert, so the follow-up is a fresh row and the only live one |
| Worker.ComputeBackoff | app/worker/main.py:60-63 | exponential in the attempts, plus at most half a base of jitter, cut off at the maximum |
| Worker.BackoffDoubles | app/worker/main.py:60-63 | without jitter the first wait is the base and each further one twice the one before, up to the maximum |
| Worker.SendBack | app/worker/main.py:75-83 | a release that may itself fail |
| Worker.TerminalFailure | app/worker/main.py:66-72 | undisturbed, the row is failed exactly when the hook succeeded and the worker still holds the lease; otherwise it is sent back |
| Worker.Complete | app/worker/main.py:204-223 | mark_done and the follow-up commit together, and the follow-up only when the worker still held the lease |
| Worker.HandleOne | app/worker/main.py:94-253 | undisturbed, the body starts within two attempts for maintenance and five for other known kinds; the row waits exactly as long as a Retry-After says, or backs off, or fails with its error, or is done with its follow-up; without the lease nothing changes |
| Worker.JobLeavesRow | app/worker/main.py:94-253 | the same of the separate transactions run without interruption, for every outcome and fault, on the columns of the row |
| JobTransactions.RunTransaction | app/worker/main.py:66-253 | one transaction of a job: what it does to the table, and which transaction comes next when it succeeds, fails or finds the lease gone |
| JobTransactions.JobRunKeepsInv | app/worker/main.py:66-253 | the queue invariant holds between any two transactions of a job, whatever others run in between |
| JobTransactions.AtMostOneTakesEffect | app/worker/main.py:66-253 | whoever acts between them, at most one transaction of a job changes the table, and only while its worker owns the row |
| JobTransactions.UndisturbedJobsAreHandled | app/worker/main.py:94-253 | run without interruption, the separate transactions leave exactly what Worker.HandleOne leaves |
| Worker.StatementKeepsHistory | app/worker/queue_service.py:153-155 | statements lose no claims and rename no rows |
| Worker.FleetRunKeepsInv | app/worker/main.py:119-157 | over all runs, tasks of a row carry different attempt numbers and none starts twice |
| Worker.StartsAreBounded | app/worker/main.py:119-157 | across all workers a row's handler body starts at most max_attempts times: twice for maintenance, five times for other known kinds, never for unknown ones |
| BatchPacking.EstimateRequestChars | app/services/batch_match_packing.py:59-70 | the loop adds up the fixed overhead, the profile and every part of every job |
| BatchPacking.TruncateToBudget | app/services/batch_match_packing.py:73-86 | a fitting description is kept; any other fills the budget exactly with a beginning of the original and of the marker |
| BatchPacking.TruncateJobToRequestBudget | app/services/batch_match_packing.py:89-109 | fails exactly when the job does not fit without its description; otherwise the request has the smaller of its size and the budget |
| BatchPacking.RequestKeysAreDistinct | app/services/batch_match_packing.py:124-138 | request keys are injective in the position, also beyond four digits |
| BatchPacking.RequestKeysAreAllDifferent | app/services/batch_match_packing.py:124-138 | for any number of requests no two keys are equal |
| BatchPacking.PackProviderRequests | app/services/batch_match_packing.py:112-138 | one request per job, in order, or failure exactly when some job cannot fit |
| BatchPacking.PackingContract | app/services/batch_match_packing.py:59-138 | every request is for its own job, within the budget, truncated no more than needed, under its own key |
| Decimals.ZeroPaddedRoundTrip | app/services/batch_match_packing.py:133 | a zero-padded number is read back as itself, whatever its width |
| BatchMatch.ResultValidationError | app/services/batch_match_service.py:600-628 | no error exactly for a result with a score in [0, 1] and all its texts; otherwise the error of the first check that fails |
| BatchMatch.KnownPrefix | app/services/batch_match_service.py:507-514 | the answers before the first unknown key |
| BatchMatch.Survivors | app/services/batch_match_service.py:195-201 | exactly the selected rows that are not rejected |
| BatchMatch.Chosen | app/services/batch_match_service.py:413-429 | the batch consists of selected rows that are not rejected, and is empty only when all are |
| BatchMatch.ChosenAreDistinct | app/services/batch_match_service.py:413-429 | no application enters a batch twice |
| BatchMatchAccounts.SortIsDescendingAndStable | app/services/batch_match_service.py:422-429 | best priority first, equals in query order |
| BatchMatchAccounts.BestAreKept | app/services/batch_match_service.py:413-429 | a cut keeps exactly the limit, and nothing that scores less than something left out |
| BatchMatchAccounts.BestSurvivorsAreChosen | app/services/batch_match_service.py:169-208 | a batch takes at most its limit, and none that scores less than one it leaves out |
| BatchMatchAccounts.TickReportsItsItems | app/services/batch_match_service.py:79-126 | what a tick reports as submitted is the number of items it added |
| BatchMatchAccounts.TickReportsTheImport | app/services/batch_match_service.py:138-150 | after a tick that drained its batch the three counters are the outcomes of the items that waited, and add up to their number |
| BatchMatchLaws.ImportDrains | app/services/batch_match_service.py:488-535 | for any provider output no item stays submitted, the three outcomes add up to the items submitted before, and the batch is done |
| BatchMatchLaws.ResultsFollowRequestKeys | app/services/batch_match_service.py:553-597 | an application receives the result filed under its item's request key, unless it is already scored |
| BatchMatchLaws.ImportIgnoresOrder | app/services/batch_match_service.py:495-535 | with distinct, known keys the import does not depend on the order of the responses |
| BatchMatchLaws.ImportIgnoresEchoes | app/services/batch_match_service.py:553-597 | the import does not depend on the application ids the provider echoes |
| BatchMatchLaws.NoDuplicates | app/services/batch_match_service.py:496-503 | the set-size comparison finds every repeated key |
| BatchMatchLaws.ImportKeepsInv | app/services/batch_match_service.py:488-535 | importing keeps the batch invariant and only settles items of its batch |
| BatchMatchLaws.ImportScoresOnce | app/services/batch_match_service.py:585-595 | import scores an application at most once, and moves its status only from pending review to auto-rejected |
| BatchMatchLaws.RejectionScoresOnce | app/services/batch_match_service.py:445-453 | so does deterministic rejection |
| BatchMatchLaws.FetchKeepsInv | app/services/batch_match_service.py:288-315 | a ready batch keeps the invariant whether the fetch crashes, raises or returns |
| BatchMatchLaws.PollKeepsInv | app/services/batch_match_service.py:259-315 | every outcome of a poll keeps the invariant, makes progress only and scores applications at most once |
| BatchMatchLaws.PollSettlesOrRequeues | app/services/batch_match_service.py:259-315 | a poll that returns without requeueing leaves the batch done or failed, so the "not drained" return is unreachable |
| BatchMatchLaws.CreateKeepsInv | app/services/batch_match_service.py:378-410 | a new batch for unblocked, distinct applications under distinct keys keeps the invariant |
| BatchMatchLaws.BuildKeepsInv | app/services/batch_match_service.py:169-256 | every outcome of a build keeps the invariant |
| BatchMatchLaws.BuildSubmitsOrLeavesNone | app/services/batch_match_service.py:228-256 | a build that returns leaves an active batch only when it submitted something |
| BatchMatchLaws.BuildsFromCleanStore | app/services/batch_match_service.py:87-126 | a tick goes on to build only when the profile has no active batch left |
| BatchMatchLaws.TickKeepsInv | app/services/batch_match_service.py:79-126 | every tick, for every provider behaviour and crash point, keeps the invariant, makes progress only and scores applications at most once |
| BatchMatchLaws.TickStepKeepsInv | app/services/batch_match_service.py:87-126 | so does a tick that dies between the commit of its first half and its build |
| BatchMatchLaws.ActiveBatchMeansFollowUp | app/services/batch_match_service.py:79-126 | a tick that returns while the profile has an active batch asks for another tick |
| BatchMatchLaws.StoreRunKeepsInv | app/models/llm_match_batch.py:76-81 | at every moment of every run: one active batch per profile, submitted items only in active batches, one submitted item per application, one item per request key |
| BatchMatchLaws.StoreRunProgresses | app/services/batch_match_service.py:318-334 | over every run settled items and closed batches never change |
| BatchMatchLaws.TerminalFailureIsForever | app/services/batch_match_service.py:337-375 | an application with a terminally failed item never enters a later batch |
| BatchMatchService.BatchMatcher.MarkSubmitted | app/services/batch_match_service.py:637-668 | the marking loops settle exactly the items still submitted and count them |
| BatchMatchService.BatchMatcher.SubmittedItemsByRequestKey | app/services/batch_match_service.py:538-550 | indexes exactly the waiting items of the batch by their keys, losing none |
| BatchMatchService.BatchMatcher.ImportResultForItem | app/services/batch_match_service.py:553-597 | settles the item, counts it, and gives an unscored application its score; one that is pending review is rejected exactly when the score is below the threshold |
| BatchMatchService.BatchMatcher.ImportAnswers | app/services/batch_match_service.py:505-529 | the loop handles the answers up to the first unknown key, each for its own item |
| BatchMatchService.BatchMatcher.ImportProviderOutput | app/services/batch_match_service.py:488-535 | the loops come to the specified import, whose outcome the next three rows give item by item |
| BatchMatchAnswers.RepeatedKeysFailEverything | app/services/batch_match_service.py:495-503 | a key answered twice fails every waiting item for good and changes no application |
| BatchMatchAnswers.AnswersReachTheirItems | app/services/batch_match_service.py:507-597 | a complete answer the import gets to scores the item under its key and its unscored application, rejecting it exactly when it is pending review and below the threshold; any other answer makes the item retryable with its error |
| BatchMatchAnswers.UnansweredItemsFail | app/services/batch_match_service.py:507-535 | an item the import finds no answer for may be retried when every answer was asked for, and fails for good otherwise |
| BatchMatchAnswers.ImportLeavesOthers | app/services/batch_match_service.py:488-535 | no item of another batch and no application without a waiting item changes |
| BatchMatchService.BatchMatcher.FailBatch | app/services/batch_match_service.py:318-334 | settles what waits as retryable and closes the batch |
| BatchMatchAnswers.FailedBatchMayBeRetried | app/services/batch_match_service.py:318-337 | the batch is closed with its error, exactly its waiting items become retryable, applications are untouched |
| BatchMatchService.BatchMatcher.FinishBatchIfDrained | app/services/batch_match_service.py:670-688 | closes the batch exactly when nothing waits |
| BatchMatchService.BatchMatcher.PollAndImport | app/services/batch_match_service.py:259-315 | the poll half of a tick, branch by branch |
| BatchMatchAnswers.UnreadyBatchIsPolledAgain | app/services/batch_match_service.py:291-296 | a batch that is not ready is to be polled after one interval, and nothing else changes |
| BatchMatchAnswers.FailedPollClosesTheBatch | app/services/batch_match_service.py:268-312 | which error closes the batch in each way a poll can fail, and that only a missing provider id ends the tick without another |
| BatchMatchAnswers.FailedPollIsCounted | app/services/batch_match_service.py:318-337 | its result counts all items of the batch by how they ended |
| BatchMatchAnswers.FetchedBatchIsDone | app/services/batch_match_service.py:298-315 | a batch whose output arrives is done at once, whatever the output; the waiting items are counted by how they ended |
| BatchMatchService.BatchMatcher.SelectUnscoredApplicationRows | app/services/batch_match_service.py:337-375 | answers the query: the first selectable rows in query order, up to the limit |
| BatchMatchAnswers.SelectionIsTheFirstPool | app/services/batch_match_service.py:340-375 | a tick looks at the first applications, up to the pool size, that may be matched: newest posting first, unknown postings last, then newest application, then smallest id; what is left out comes after them |
| BatchMatchService.BatchMatcher.RejectOrKeep | app/services/batch_match_service.py:195-201 | scores exactly the deterministic rejections and keeps the others in order |
| BatchMatchService.BatchMatcher.CreateBatchWithItems | app/services/batch_match_service.py:378-410 | one batch and one submitted item per request |
| BatchMatchService.BatchMatcher.SubmitChosen | app/services/batch_match_service.py:228-256 | commits the batch, then reacts to the provider's answer |
| BatchMatchService.BatchMatcher.BuildAndSubmit | app/services/batch_match_service.py:169-256 | the build half of a tick, for rows the query may answer |
| BatchMatchAnswers.BuildsRejectAndSubmit | app/services/batch_match_service.py:169-256 | a build that returns has rejected exactly the mismatches, with which score and status, and the provider holds a batch with one numbered item per chosen application, polled after one interval |
| BatchMatchAnswers.BuildsThatRaise | app/services/batch_match_service.py:210-247 | an application that cannot fit rolls everything back; a refused submission leaves the rejections and a failed batch of retryable items |
| BatchMatchAnswers.RequestsDescribeTheirJobs | app/services/batch_match_service.py:456-485 | each request tells the stored job of its own application, only the description cut, under its own key and within the budget |
| BatchMatchService.BatchMatcher.RunBatchMatchTick | app/services/batch_match_service.py:79-126 | the whole tick is the specified tick and keeps the invariant |
| BatchMatchAnswers.StaleBuildsAreGivenUp | app/services/batch_match_service.py:104-136 | a building batch is given up exactly when it was untouched for a poll interval and a minute; before, a tick changes nothing and asks for another |
| BatchMatchWorker.HandleBatchMatch | app/worker/handlers/batch_match.py:28-63 | one tick, and a follow-up for the same profile after one poll interval exactly when it requeued or submitted |
| BatchMatchWorker.ActiveBatchKeepsOneRow | app/worker/main.py:204-223 | finalizing a batch-match row whose tick returned while a batch is active leaves exactly one live row for the profile, asking for the next poll |
| EnqueueIntents.EnqueueIntent | app/worker/enqueue_intents.py:49-70 | makes sure that exactly one row works for the intent: the live one if there is one, otherwise a new one |
| EnqueueIntents.ServedRowsAreSingle | app/worker/enqueue_intents.py:49-70 | different intents are served by different rows |
| BatchMatchWorker.EnqueueDueBatchPolls | app/services/batch_match_reconcile.py:13-44 | every profile with a due batch is reported once and ends with exactly one live row; rows are added only where there was none |
| CoverLetterSafety.SoundnessIsKept | app/worker/handlers/generate_cover_letter.py:25-137 | every commit, claim, settlement and crash, under whatever lease, keeps: the queue invariant, one task per claim, and tasks whose rows, while not pruned, are cover-letter rows for their application claimed at least as often |
| CoverLetterSafety.MoveStrandsWhen | app/worker/handlers/generate_cover_letter.py:65-82 | a move leaves some generating application without a live row exactly when it claims an unattended application or finishes the row of a generating one |
| CoverLetterSafety.GeneratingHasLiveRowExactly | app/worker/handlers/generate_cover_letter.py:58-137 | over every run, every generating application has a live row at every moment exactly when no move is one of those two |
| CoverLetterSafety.KeptExactlyBySafeMoves | app/worker/handlers/generate_cover_letter.py:65-137 | for every move: nobody is stranded or about to be afterwards exactly when the move is neither of those two nor a claim under a lease holder about to end its row |
| CoverLetterSafety.KeptExactlyOverRuns | app/worker/handlers/generate_cover_letter.py:65-137 | the same over every run |
| CoverLetterSafety.GeneratingHasLiveRow | app/worker/handlers/generate_cover_letter.py:58-137 | over every run of safe moves, stolen leases included, a generating application has a live row |
| CoverLetterSafety.LatestClaimantsSuffice | app/worker/queue_service.py:126-253 | a run in which only the task of the latest claim claims the application or ends the row is safe |
| CoverLetterSafety.StoppedHoldersSuffice | app/worker/queue_service.py:126-147 | and so is one in which a lease is reclaimed only after its old holder stopped |
| StolenLease.StolenLeaseStrandsApplication | app/worker/handlers/generate_cover_letter.py:65-82 | a run that strands an application by a late claim, where no orphan query finds it |
| StolenLease.ReclaimedLeaseStrandsApplication | app/worker/queue_service.py:185-202 | a run that strands one by a late finish of a worker that got its lease back |
| CoverLetterSafety.StrandedApplicationsAreOrphans | app/api/internal_cron.py:58-89 | while nobody is stranded, the orphan query finds exactly the stalled applications, generating or pending, that nobody works on now or did lately |
| CoverLetterSafety.RepairReachesEverybody | app/api/internal_cron.py:58-89 | and after the cron job's step every stalled application is attended, the generating ones included |
| CoverLetters.CommitsMakeTheHandler | app/worker/handlers/generate_cover_letter.py:45-132 | the commits the system interleaves, one after the other, leave exactly what the undisturbed handler leaves |
| CoverLetters.GenerationService.FlipToPendingAndEnqueue | app/services/application_service.py:38-61 | status and row change together, exactly when generation may be requested |
| CoverLetters.GenerationService.ClaimGeneration | app/worker/handlers/generate_cover_letter.py:65-82 | the guarded claim succeeds exactly from an in-flight status |
| CoverLetters.GenerationService.OnTerminalFailure | app/worker/handlers/generate_cover_letter.py:25-43 | fails the application only while it is in flight |
| CoverLetters.GenerationService.MarkGenerationReady | app/services/application_workflow.py:91-101 | the letter is stored with its time and the application is ready; everything else, and every other application, is as before |
| CoverLetters.GenerationService.Handle | app/worker/handlers/generate_cover_letter.py:45-137 | undisturbed, an application in flight ends ready with the model's answer as its letter, pending again, or failed; nothing else of it changes, and replays change nothing |
| CoverLetterContents.ReadyApplicationsHoldTheirLetter | app/services/application_workflow.py:91-101 | over every run that starts with no ready application and whose other writers leave letters alone, with crashes and stolen leases, a ready application holds a letter, and it is the answer the last task stored for it |
| CoverLetters.GenerationService.GenerationReconcile | app/api/internal_cron.py:58-89 | afterwards a row is queued, running or ended within 300 seconds for every application pending for longer and tried fewer than five times; one row per orphan is added and nothing else changes |
| CoverLetters.OrphansAreForgotten | app/api/internal_cron.py:58-89 | orphans are exactly the applications of that kind that no row looks after |
| Scoring.MatchService.HandleMatch | app/worker/handlers/match.py:31-122 | which score, feedback and status the application gets in every branch, on its columns, and how the job ends |
| Scoring.MatchService.MarkUserDecision | app/services/application_workflow.py:49-65 | a user may set every status but auto-rejected; the applied time follows the status |
| Scoring.MatchService.MarkForRescore | app/services/match_service.py:320-365 | clears exactly the scores the user has not decided on and leaves one live match row for each; every new row is a match row for one of them that had none |
| Scoring.RejectionScoreIsBelowThreshold | app/services/match_service.py:55-56 | the rejection score is below the threshold exactly when the threshold is positive |
| Scoring.RejectPathsAgree | app/worker/handlers/match.py:62-82 | the match handler and the batch path agree exactly when the threshold is positive or the application is not pending review |
| Scoring.ScoringRunIsLawful | app/services/batch_match_service.py:445-453 | scoring moves a status only from pending review to auto-rejected, and only together with a first score |
| Scoring.DecisionsStand | app/services/match_service.py:320-365 | a dismissed or applied status changes only by another user decision |
| Scoring.ScoresStandUntilRescored | app/worker/handlers/match.py:44-46 | a score changes only through a re-score of its profile |
| TextLines.JoinOfSplit | app/services/catalog_reconciliation.py:141 | lines that keep their breaks join to the text |
| TextLines.SplitOfJoin | app/services/catalog_reconciliation.py:181 | joined lines split into the same lines |
| TextLines.SubsequenceAreLines | app/services/catalog_reconciliation.py:181 | dropping lines merges no two of the others |
| Catalogs.Decompose | app/services/catalog_reconciliation.py:142-153 | the header and the entries are all the lines |
| Catalogs.Recompose | app/services/catalog_reconciliation.py:142-153 | a header and entries put together are read back as they are |
| Catalogs.SlugsAreLastLines | app/services/company_catalog.py:37-61 | the slug of a provider is what its last line in the entry says, unless that is empty |
| CatalogPruning.PrunedEntryMeaning | app/services/catalog_reconciliation.py:155-176 | an edited entry stands for the row without its invalid slugs, or is gone when none is left |
| CatalogPruning.EditMeansFiltering | app/services/company_catalog.py:43-93 | the edited text stands for the filtered catalog, and fails to parse exactly when nothing is left |
| CatalogPruning.PruningReturnsWhen | app/services/catalog_reconciliation.py:128-183 | pruning returns exactly when there is nothing to prune, or the catalog parses and some company keeps a provider |
| CatalogPruning.PruningMeansFiltering | app/services/catalog_reconciliation.py:128-183 | parsing the pruned text equals filtering the parsed catalog, and the lines left are a subsequence of the lines |
| CatalogPruning.PruningRemovesExactlyTheInvalid | app/services/catalog_reconciliation.py:128-183 | when pruning returns, a company lost a slug exactly when provider and slug are an invalid pair, each loss is reported once and nothing else is; companies keep their order and other lines and are gone only without slugs |
| CatalogPruning.PruningRefusesWhen | app/services/catalog_reconciliation.py:128-183 | it refuses exactly when the text is no catalog or every slug of a non-empty one is invalid |
| CatalogPruning.PruningIsIdempotent | app/services/catalog_reconciliation.py:128-183 | pruning again changes nothing and reports nothing |
| CatalogEditor.DropProviderLines | app/services/catalog_reconciliation.py:170-176 | keeps exactly the lines that name no target and reports every target found |
| CatalogEditor.AllTargetsFound | app/services/catalog_reconciliation.py:177-178 | every slug has a line of its own, so the "could not locate" error is unreachable in this layout |
| CatalogEditor.EditLines | app/services/catalog_reconciliation.py:142-180 | the loop over line ranges writes the header and each entry pruned, and reports the removals in order |
| CatalogEditor.PruneInvalidProviderSlugs | app/services/catalog_reconciliation.py:128-183 | the line editor, errors included, is the edit of these lemmas: it removes and reports exactly the invalid pairs |
| CatalogProbing.Probe | app/services/catalog_reconciliation.py:77-111 | a slug is removable exactly when enough attempts in a row miss it before any finds it; transient errors restart the count |
| CatalogProbing.GoneBoardsAreRemovable | app/services/catalog_reconciliation.py:88-89 | there are always enough attempts to confirm a board that is really gone |
| RateLimits.WindowStart | app/services/rate_limit_service.py:17-22 | the last aligned boundary at or before now, also before the epoch |
| RateLimits.RateLimiter.CheckRateLimit | app/services/rate_limit_service.py:25-46 | counts the call, refused or not, and admits it exactly while the window's count is within the limit |
| RateLimits.WindowAdmitsUpToLimit | app/services/rate_limit_service.py:25-46 | each aligned window admits exactly the smaller of its calls and the limit |
| RateLimits.AnyIntervalAdmitsTwiceTheLimit | app/services/rate_limit_service.py:17-46 | no interval of one window length admits more than twice the limit, whatever the clock does |
| RateLimits.TwiceTheLimitIsReached | app/services/rate_limit_service.py:17-46 | that bound is reached for every limit and window |
| Entitlements.EffectiveEntitlement | app/services/entitlements.py:51-82 | paid access exactly for an active or canceled subscription whose period has not ended; everybody else has the free limit |
| Entitlements.DedupeCompanyIds | app/services/entitlements.py:171-182 | the loop computes the specified deduplication |
| Entitlements.DedupeKeepsFirstOccurrences | app/services/entitlements.py:171-182 | deduplication keeps first-occurrence order |
| Entitlements.ValidateCompanyFollowChange | app/services/entitlements.py:185-202 | refuses exactly requests for more different companies than the limit that are not a proper part of a set already over it; what it accepts are the requested companies, each once |
| Entitlements.WithinStaysWithin | app/services/profile_service.py:72-85 | requests never bring a profile within the limit over it |
| Entitlements.AcceptedListsAreDistinct | app/services/entitlements.py:185-202 | every accepted list is free of duplicates and holds what was requested |
| Entitlements.AcceptedChangeShrinks | app/services/entitlements.py:197-200 | an accepted change of a list over the limit follows fewer companies |
| Entitlements.FewAcceptedRequestsWhileOver | app/services/entitlements.py:185-202 | a profile with n companies is within the limit after at most n - limit accepted requests |
| SearchExpiry.Profiles.ReconcileOne | app/scheduler/tasks.py:42-170 | one active profile: extended by pauseDays days when its owner pays or was engaged and that gains twelve hours, seeded, switched off when expired, or left alone |
| SearchExpiry.Profiles.ReconcileSearches | app/scheduler/tasks.py:35-177 | the loop treats every active profile once and no other, and needs no commit when it counted nothing |
| SearchExpiry.PausedMeansInactive | app/scheduler/tasks.py:109-165 | a search is paused only without paid access and without engagement in the last search_auto_pause_days |
| SearchExpiry.InactiveSearchExtended | app/scheduler/tasks.py:109-147 | an inactive, expired search that is extended |
| SearchExpiry.ExpiryIsNear | app/services/entitlements.py:113-123 | every expiry stays at most search_auto_pause_days after the last change |
| SearchExpiry.ExpiryNeverDecreases | app/services/entitlements.py:117-123 | maintenance never brings an expiry forward |
| SearchExpiry.UsedSearchesStayActive | app/scheduler/tasks.py:42-165 | a paid search, or one engaged often enough, stays active until its owner switches it off |
| JobStore.Store.UpsertJob | app/services/job_service.py:46-160 | the stored row has the new content, its description and hash, is active and fetched now, and keeps its company unless one is given; the returned job agrees with it, its raw description null when the content was not written |
| JobStore.Store.MarkStaleJobs | app/services/job_service.py:163-178 | deactivates exactly the active jobs not fetched since the cutoff |
| JobStore.LastContentIsStored | app/services/job_service.py:46-160 | after any run every job carries the content it was last upserted with |
| JobStore.JobsAreActiveUntilStale | app/services/job_service.py:46-178 | over any run a job is active exactly when no stale marking since its last upsert had a later cutoff than that |
| SlugRegistry.Registry.MarkFetched | app/services/slug_registry_service.py:25-64 | the counters and flags after each outcome; an unknown status changes nothing |
| SlugRegistry.InvalidAfterTwoMisses | app/services/slug_registry_service.py:40-58 | a slug becomes invalid, for good, exactly when it is missed twice without a success in between |
| SlugRegistry.TimesAreRecorded | app/services/slug_registry_service.py:25-64 | a pair carries the times of its last attempt and of its last success |
| SlugRegistry.ListStaleForProfile | app/services/slug_registry_service.py:67-106 | the loop lists each offered, due pair once and nothing else |
| SlugRegistry.BulkListsTheSamePairs | app/services/slug_registry_service.py:109-152 | the bulk query lists the loop's pairs except blank slugs |
| SlugRegistry.ListingsAgreeWithoutBlanks | app/services/slug_registry_service.py:109-152 | the two listings agree exactly when no followed company offers a blank slug |

## Left out

- Postgres itself: each statement or transaction is one atomic step, the partial unique indexes are guards, and SKIP LOCKED is a set of rows other transactions hold.
- The branch of `enqueue` that returns no id because a conflicting row disappeared between two statements; here the insert and the lookup are one step.
- Trimming of blank job types in the claim filter, and the worker's own ids across restarts.
- `_run_lane`: the bound on tasks in flight and the shutdown drain are a guard on a counter; claims and tasks are modelled for any number of them.
- Worker.HandleOne: runs a job's transactions without interruption; `JobTransactions` says what holds when others act in between. What hooks and handler bodies do to other tables is in the modules of those tables.
- Progress: a worker never reclaims its own stale row, and nothing is claimed about rows of workers that never come back.
- Two ticks of one profile at the same time: a tick's half between two commits is atomic, and the database's unique index is what the other tick would run into.
- The second check for a repeated request key, inside the import loop: the check before the loop makes it unreachable.
- The request hash of a batch item and its unique index, the item's position, and the provider's model and prompt version.
- The text heuristics that decide deterministic rejections, priorities and remote policy: their verdicts are parameters, and so is the answer of the scoring agent with the policy cap it applies.
- `job.description or job.description_raw` is one description field; request payloads beyond their sizes are not built.
- Floating point: scores are reals, so NaN does not occur; the hash of a job's content is any injective function.
- JobStore.LastContentIsStored: covers upserts and stale marking only; the salary backfill writes a salary without its hash.
- Resolution of a company id from a slug is a parameter of the upsert.
- Catalogs.ParseCatalog: reads the layout the regular expressions fix, one line per provider; YAML scalars and name normalization are parameters, other YAML styles are not read, and tags and comments are kept as the other lines of an entry.
- TextLines.SplitLines: knows every line break of str.splitlines except the carriage return.
- The HTTP side of probing: a probe is given the answers attempt by attempt.
- `check_daily_quota` is the same counter per calendar day; the trimming of old applications and events and the audit rows of entitlement decisions are not modelled.
- Company ids arrive parsed; malformed UUIDs are rejected before.
- SearchExpiry: engagement events and subscriptions are what maintenance reads at that moment.
- `generate_materials`, `mark_scored` and `mark_generation_generating` are not on the worker's path.
- ORM identity, sessions and lazy loading: tables are maps of immutable rows.
- HTTP adapters, language-model agents, OAuth, PDF export, HTML cleaning, logging, migrations, scripts and the frontend.
