# A verified model of the trading bot's stateful core

The repository is a Polymarket trading bot: Rust crates that talk to the exchange and the chain, a Next.js front end
with a flow editor, and Python scripts that judge trading signals. This project models the parts of it whose
correctness depends on order, interleaving or recursion, and proves what those parts are for. Network, database,
clock and user are unknown inputs: every theorem holds for all of their answers, in every order.

| file | models |
|---|---|
| `SaveQueue.dfy` | the latest-only save queue, as coroutine frames resumed at their awaits |
| `DraftEditor.dfy` | canvas edits, browser timeouts in their prescribed order, and the rule that decides when an edit counts as saved |
| `ClaimJobs.dfy`, `RowOrder.dfy`, `ClaimRepository.dfy` | the auto-claim job table and its SQL statements, any of which may fail |
| `ClaimPlan.dfy`, `ClaimSteps.dfy`, `AutoClaim.dfy` | the auto-claim service: recovery, discovery, receipts, batching, rate limits; what each part of a tick leaves |
| `ClaimRuns.dfy` | runs of ticks one after the other: bounds on what is in flight and on how often a job is submitted, and runs that reach past the limits |
| `ClaimServices.dfy`, `ClaimInterleaving.dfy`, `ClaimCollisions.dfy` | several services whose ticks overlap, statement by statement: the bounds that hold in every interleaving, and runs that reach them |
| `Discovery.dfy` | the paged search for redeemable positions |
| `MultiSend.dfy` | the MultiSend byte format, with a decoder |
| `ConfigOverlay.dfy` | the recursive merge of configuration layers |
| `StableJson.dfy`, `JsonText.dfy` | the canonical form that decides whether a draft save can be skipped, and its text, character by character |
| `MarketCache.dfy` | the websocket market cache and its dirty set, with writer and consumer interleaved |
| `ShadowOutcome.dfy`, `FirstEntry.dfy`, `ThresholdSearch.dfy` | labels, simulated trades, first-entry selection and threshold search of the shadow evaluation |
| `FlowEvents.dfy`, `CanvasHistory.dfy`, `TelegramChunks.dfy` | the bounded event list, undo and redo, message splitting |
| `SecretCodec.dfy` | base64url secrets (section 5 of RFC 4648): storage form, strict decoder, decode cache |
| `Socks5.dfy` | the SOCKS5 client (RFC 1928, RFC 1929) |
| `Common.dfy`, `Sorting.dfy` | shared value types; a stable sort and facts about distinct and sorted lists |

Code that changes state step by step is a class or a method with loops, each proved against a specification
function or predicate; the theorems are about those. Numbers that the sources hold as floating point are exact
reals. Rows marked as corollaries follow at once from definitions or from the theorem named; they are listed because the
source states them.

## What the proofs found

- Saving (`DraftEditor`): once anything was edited since the last reset of the revision counter, an acknowledged save is
  the newest edit exactly when its edit was made after that reset (`AcknowledgedIffSameEpoch`). Leaving a definition and
  coming back while a save is still under way resets the counter, so that save can be acknowledged in place of a newer
  edit, which it then takes off the canvas (`ResetAcknowledgesOldEdit`).
- Saving (`DraftEditor`): until another draft is loaded, a clean editor means that the server holds the newest edit
  exactly when the edit leaves a guarded state (`CleanMeansStoredIff`). There are three ways to lose it, all real. An older
  save with another graph is inside its 50 ms delay: a new edit, or a switch to another definition, stops the 200 ms
  timeout but not the delay, and that save is PATCHed after the edit was (`LeavingOverwrites`, `StaleDraftWitness`). The
  edit leads back to the draft last hydrated while the server, or a save on its way there, holds another one: the switch
  skips its PATCH as unchanged (`SkippingLoses`, `SkippedSaveWitness`). Or the queue ends with a save from before a reset
  of the revision counter whose revision is not below the edit's: it can be taken for the newest (`StaleSaveTaken`,
  `ResetAcknowledgesOldEdit`).
- Saving (`DraftEditor`): as long as the definition is not left, the condition is weaker (`CleanMeansStoredHereIff`). With
  no edit before the last reset it says that only immediate edits made while an older save sleeps are at risk
  (`GuardedWithoutReset`): browsers fire the older, shorter timeout before a new autosave.
- Claims, ticks one after the other (`ClaimRuns`): the attempt limit bounds submissions only between renewals of a job. A
  job is submitted no more often than its attempts left, plus its limit for every time it was found or recovered
  (`SubmissionsBounded`); without either it stays within its attempts, and a failed job stays failed
  (`SubmissionsWithinAttempts`, `FailedStaysFailed`). Restarts whose records of accepted submissions are lost submit a job
  any number of times without using an attempt (`RestartsSubmitAgain`), and a job that failed for good is submitted again
  whenever its position is found (`RediscoveriesSubmitAgain`).
- Claims, ticks that overlap (`ClaimInterleaving`, `ClaimCollisions`): with several market scopes, services of several
  tasks work on the one table, and nothing leases a row. Then a job is submitted once more for every time a pass marks it
  after another pass has (`ClaimInterleaving.SubmissionsBounded`), and what is in flight is bounded by the sum of the caps
  (`InFlightWithinCaps`); both bounds are reached, with nothing failing, found again or recovered: the first by a job
  on its last attempt, listed by all before any marks it (`OverlapsSubmitAgain`), the second by relayer services that all
  count before any submits (`OverlapsFillAllCaps`). Attempt limits and claimed jobs can be broken only by such stale
  writes (`KeptUnlessStale`), which ticks that do not overlap never make (`ApartIsNeverStale`). A claimed or failed job is
  safe from all ticks under way exactly when none of them still holds it from an earlier listing (`StaysForGoodIff`).
- Claims (`ClaimRuns`): a job that a failed pass leaves in processing stays there until a new service starts, because
  stale jobs are recovered only on the first tick of a service (`FinalStates`); outside flow-only mode services are built
  anew for every market cycle. A gas price that cannot be fetched leaves a whole batch so, with nothing submitted
  (`OutageStrandsBatch`). Of a batch, jobs beyond the hundredth are left for the next pass, and a rate-limited batch
  starts no cooldown; only one-by-one submissions do.
- Configuration (`ConfigOverlay`): merging three layers is not associative in general; `MergeAssociates` gives the exact
  condition, which is narrower than "object, then value, then object": the outer objects must also disagree.
- Market data (`MarketCache`): the consumer misses news of a token exactly when a step took away its only announcement
  and the token was neither written nor evicted since (`MissedIff`). There are two such steps: an abort of the stream task
  between its cache write and its dirty mark (`AbortLosesUpdate`), and the emptying of the dirty set when nothing is
  subscribed any more, because its locks are taken one by one (`EmptyingLosesUpdate`).
- Telegram (`TelegramChunks`): the split sends a chunk more than needed exactly when its last chunk carries no more
  characters than the continuation suffix (`FewestIff`).
- SOCKS5 (`Socks5`): the selected method is not compared with the offered ones; a proxy that asks a client without
  credentials for them is sent empty ones (`UnofferedMethodIsAccepted`).
- Secrets (`SecretCodec`): Rust and JavaScript trim different characters (next line, byte order mark); no usable secret
  is lost by that, and some unusable ones become usable (`StoredDecodesIff`).

## Model

| member | source | states |
|---|---|---|
| `SaveQueue.LatestOnlyQueue.Enqueue` | frontend/src/hooks/flow-engine-draft-save-queue.ts:62-68 | replaces the pending job, starts a worker only if none lives, and returns that worker's promise; keeps one frame per `inflight` and no pending job without a frame |
| `SaveQueue.LatestOnlyQueue.Fulfil` | frontend/src/hooks/flow-engine-draft-save-queue.ts:40-46 | a fulfilled job tells its callback whether a job is pending, then the frame takes that job or ends and clears `inflight` |
| `SaveQueue.LatestOnlyQueue.Reject` | frontend/src/hooks/flow-engine-draft-save-queue.ts:47-56 | a rejected job drops the pending one and ends the frame; `ClearPending` (lines 59-61) drops it and nothing else |
| `SaveQueue.EveryRunIsOrderly` | frontend/src/hooks/flow-engine-draft-save-queue.ts:33-73 | in every interleaving at most one job runs, a pending job has a live worker, jobs start in enqueue order and at most once, and one more has started than settled exactly while a worker lives |
| `SaveQueue.WaitingIsLast` | frontend/src/hooks/flow-engine-draft-save-queue.ts:62-68 | corollary of the definition: a job waits exactly while it was enqueued behind a worker and nothing has happened since |
| `SaveQueue.JobFate` | frontend/src/hooks/flow-engine-draft-save-queue.ts:33-73 | a job runs if and only if the queue was idle when it came or the very next event is the success of the running job |
| `SaveQueue.LatestRunsLast` | frontend/src/hooks/flow-engine-draft-save-queue.ts:33-73 | with no clear and no failure after the last enqueue, the last job run by an idle queue is the newest |
| `DraftEditor.CanvasDraft.UpdateGraphFromCanvas` | frontend/src/hooks/use-flow-engine-controller.ts:1238-1329 | an edit of the loaded definition, not during a switch and with a well-formed context, is accepted exactly if every node key and edge key of the canvas is still there or leave to shrink was given; it then bumps the revision, replaces the graph, cancels the autosave timeout and saves at once or in 200 ms; any other edit changes nothing |
| `DraftEditor.CanvasDraft.FireTimeout` | frontend/src/hooks/use-flow-engine-controller.ts:1284-1328 | an autosave timeout starts the 50 ms delay of its save; a delay that ends queues its save if its definition is still selected and loaded |
| `DraftEditor.CanvasDraft.ResetToBlank` | frontend/src/hooks/use-flow-engine-controller.ts:163-180 | a blank editor owns nothing, counts revisions from zero and has no autosave pending, but its delays still run |
| `DraftEditor.CanvasDraft.SaveSucceeds` | frontend/src/hooks/flow-engine-draft-save-queue.ts:124-136 | a finished save is acknowledged exactly if nothing is pending and its definition and revision are current; the editor is then clean and shows the saved draft |
| `DraftEditor.CanvasDraft.Hydrate` | frontend/src/hooks/use-flow-engine-controller.ts:706-738 | a loaded draft of the definition shown that was updated before it, or at the same time with a lower draft id, is refused; any other replaces the graph and its owner, makes the editor clean, is what a switch compares with, and leaves the revision alone |
| `DraftEditor.CanvasDraft.SaveFails` | frontend/src/hooks/flow-engine-draft-save-queue.ts:137-147 | a failed save drops the waiting one, fails a switch that waits for it, and changes neither the graph, the revision nor the dirty flag |
| `DraftEditor.CanvasDraft.Select` | frontend/src/hooks/use-flow-engine-controller.ts:666-675 | selecting another definition resets the revision counter |
| `DraftEditor.CanvasDraft.RequestSwitch` | frontend/src/hooks/use-flow-engine-controller.ts:459-472 | a switch moves the revision on, stops the autosave but no delay, and from then on edits are refused |
| `DraftEditor.CanvasDraft.SkipBeforeSwitch` | frontend/src/hooks/flow-engine-definition-switch.ts:125-140 | with the queue idle, a switch whose dirty canvas is the draft last hydrated makes the editor clean and sends nothing |
| `DraftEditor.SwitchIsDetermined` | frontend/src/hooks/flow-engine-definition-switch.ts:113-146 | with the queue idle, what a switch does next is determined: a PATCH if the canvas was edited to something else or anything was renamed, a skipped one if it was edited back, and departure if it is clean |
| `DraftEditor.CanvasDraft.SwitchStored` | frontend/src/hooks/flow-engine-definition-switch.ts:118-146 | the PATCH that a switch sends past the queue puts what was on the canvas on the server and makes the editor clean |
| `DraftEditor.CanvasDraft.Depart` | frontend/src/hooks/use-flow-engine-controller.ts:481-495 | a switch whose draft is stored, or that had nothing to store or skipped it, or is told to give it up, empties the editor and selects the other definition |
| `DraftEditor.RevisionsAlwaysTrackEdits` | frontend/src/hooks/use-flow-engine-controller.ts:153-156 | in every run, with switches and reloads moving the revision on too, since the last reset the current revision can belong to the newest edit only, for every save still outstanding anywhere |
| `DraftEditor.AcknowledgedIffSameEpoch` | frontend/src/hooks/flow-engine-draft-save-queue.ts:118-135 | an acknowledged save whose edit was made after the last reset carries the newest edit, and, once anything was edited since that reset, only such a save does |
| `DraftEditor.AcknowledgedIsNewest` | frontend/src/hooks/flow-engine-draft-save-queue.ts:118-135 | within one selected definition every acknowledged save is the newest edit, however late older saves complete |
| `DraftEditor.ResetAcknowledgesOldEdit` | frontend/src/hooks/use-flow-engine-controller.ts:666-675 | a run in which a reset makes an older edit's save be acknowledged, and the canvas loses the newer edit |
| `DraftEditor.AtMostOneSleeps` | frontend/src/hooks/use-flow-engine-controller.ts:1284-1328 | because timeouts fire in their prescribed order, at most one save is ever inside its delay, ahead of at most one autosave |
| `DraftEditor.MayFireIff` | frontend/src/hooks/use-flow-engine-controller.ts:1284-1328 | corollary of the durations of 200 and 50 ms: an autosave waits for every timeout started before it, a delay for earlier delays only |
| `DraftEditor.CleanMeansStoredIff` | frontend/src/hooks/flow-engine-definition-switch.ts:101-146 | for every run that ends with an accepted edit: clean implies stored in every continuation by timeouts, queued saves and switches that save, if and only if no sleeping save of the definition carries another graph, no save that ends the queue with another graph has a revision at or above the edit's, and, if the edit leads back to the hydrated draft, the server and all queued saves of the definition hold it |
| `DraftEditor.LeavingOverwrites` | frontend/src/hooks/flow-engine-definition-switch.ts:101-146 | from every state with a save of another graph in its delay a switch can make the editor clean and have the edit overwritten |
| `DraftEditor.CleanMeansStoredHereIff` | frontend/src/hooks/use-flow-engine-controller.ts:1273-1329 | the same in every continuation by timeouts and queued saves alone: if and only if a save that ends the queue with the current revision carries the edit's graph, and no sleeping save of another graph has that revision or meets such a queue |
| `DraftEditor.LosesHere` | frontend/src/hooks/use-flow-engine-controller.ts:1284-1309 | wherever that condition fails, such a continuation ends clean with the server holding something else |
| `DraftEditor.GuardedWithoutReset` | frontend/src/hooks/use-flow-engine-controller.ts:666-675 | with no edit before the last reset the conditions are: here, not immediate or nothing else asleep; and if leaving, nothing else asleep and the clause on the hydrated draft |
| `DraftEditor.StaleSaveTaken` | frontend/src/hooks/flow-engine-draft-save-queue.ts:109-135 | a save that ends the queue with a revision not below the edit's can be acknowledged once failed switches have moved the revision on |
| `DraftEditor.SkippingLoses` | frontend/src/hooks/flow-engine-definition-switch.ts:125-140 | an edit back to the hydrated draft is lost in some continuation if the server or a queued save holds another graph |
| `DraftEditor.SkippedSaveWitness` | frontend/src/hooks/flow-engine-definition-switch.ts:125-140 | a concrete run: an edit taken back, its save landed, and the switch skipped |
| `DraftEditor.StaleDraftWitness` | frontend/src/hooks/use-flow-engine-controller.ts:1325-1328 | a concrete run: acknowledged, then overwritten by the older save |
| `ClaimRepository.Repository.UpsertJob` | crates/bot-infra/src/db/auto_claim.rs:19-62 | one job per owner and condition; column by column, one that is claimed, submitted or processing keeps status, attempts, next attempt and error, and any other becomes pending with no attempt used, due now and without error; hash, times and creation are kept, a known slug and the larger limit are taken; a new job is pending and due now; other jobs are untouched; the flag tells an insertion |
| `ClaimRepository.Repository.ListForProcessing` | crates/bot-infra/src/db/auto_claim.rs:64-99 | exactly the first `limit` jobs that are pending or in retry and whose next attempt is not in the future, by next attempt and then id |
| `ClaimRepository.Repository.ListForReceiptCheck` | crates/bot-infra/src/db/auto_claim.rs:101-136 | exactly the first `limit` submitted jobs: those without a time of submission first, then by that time, then by id |
| `ClaimRepository.Repository.MarkProcessing` | crates/bot-infra/src/db/auto_claim.rs:138-148 | changes the status and time of the named job only; a reported failure may have taken effect or not |
| `ClaimRepository.Repository.MarkSubmitted` | crates/bot-infra/src/db/auto_claim.rs:150-161 | the named job is submitted, with this hash, now as its time of submission and no error; no other job changes |
| `ClaimRepository.Repository.MarkReceiptConfirmed` | crates/bot-infra/src/db/auto_claim.rs:163-173 | the named job becomes claimed, with its time and no error |
| `ClaimRepository.Repository.MarkRetryOrFail` | crates/bot-infra/src/db/auto_claim.rs:175-201 | an attempt is used up and the error recorded; with an attempt left the job is in retry and due after the backoff, otherwise failed and due now |
| `ClaimRepository.Repository.MarkFailed` | crates/bot-infra/src/db/auto_claim.rs:203-220 | the named job uses up an attempt, fails, is due now and loses hash and time of submission |
| `ClaimRepository.Repository.CountSubmitted` | crates/bot-infra/src/db/auto_claim.rs:222-229 | the exact number of jobs with the status submitted |
| `ClaimRepository.Repository.RecoverStaleProcessing` | crates/bot-infra/src/db/auto_claim.rs:231-246 | exactly the jobs in processing since before the threshold go back to retry and are due now |
| `RowOrder.Select` | crates/bot-infra/src/db/auto_claim.rs:64-99 | ordering with a limit: in order, at most the limit, and what is left out comes after what is taken |
| `ClaimPlan.DoneEnds` | crates/bot-infra/src/claim/batch.rs:92-174 | corollary of the definition: a processed job ends submitted, retry or failed; submitted exactly if it was accepted; retry only with an attempt left |
| `ClaimPlan.PickIsExact` | crates/bot-infra/src/claim/batch.rs:432-441 | the partition by Safe owner keeps every listed job exactly once |
| `ClaimPlan.IsSafeIff` | crates/bot-infra/src/claim/batch.rs:432-441 | a job goes with the batch if and only if there is a Safe and the job's owner is its address but for the case of ASCII letters |
| `ClaimPlan.PlanIsDistinct` | crates/bot-infra/src/claim/batch.rs:33-66 | the batch and the one-by-one jobs of a pass are distinct, apart and all listed |
| `ClaimPlan.UntilLimitedIsPrefix` | crates/bot-infra/src/claim/batch.rs:67-89 | the one-by-one jobs touched are a prefix of the list that ends at the first rate limit |
| `ClaimPlan.RateLimitedIff` | crates/bot-infra/src/claim/support.rs:115-125 | a refusal counts as a rate limit if and only if it may be retried and its message has one of the five marks somewhere in it, whatever the case of its ASCII letters |
| `ClaimPlan.TouchedIsDistinct` | crates/bot-infra/src/claim/batch.rs:33-90 | no job is touched twice in a pass and only listed jobs are |
| `AutoClaim.AutoClaimService.ProcessSingleJob` | crates/bot-infra/src/claim/batch.rs:92-174 | on Ok the job ends as its submission says and the flag reports a rate limit; after any failure it is unchanged, processing or done, and nothing else moved; submissions are paid for by attempts, and an accepted one whose record is lost leaves the job in processing |
| `AutoClaim.AutoClaimService.ProcessBatch` | crates/bot-infra/src/claim/batch.rs:187-304 | on Ok every job of the batch ends as the one batch submission says; otherwise each is unchanged, processing or done; without a gas price or a Safe contract it fails, sends nothing and leaves every marked job in processing |
| `AutoClaim.AutoClaimService.PartitionSafeJobs` | crates/bot-infra/src/claim/batch.rs:432-441 | Safe-owned jobs and the others, both in order; without a Safe all are others |
| `AutoClaim.AutoClaimService.ScheduleRateLimitCooldown` | crates/bot-infra/src/claim/batch.rs:176-185 | the next submission is a whole number of seconds away, at least 30 s and at least the backoff, and no more than 30 s or the backoff plus 999 ms; the clock is read for it |
| `ClaimPlan.CooldownIsLongEnough` | crates/bot-infra/src/claim/support.rs:127-134 | the same bounds for the time that the cooldown function gives |
| `AutoClaim.AutoClaimService.ProcessPendingJobs` | crates/bot-infra/src/claim/batch.rs:33-90 | on Ok the count is the number of jobs touched, exactly the planned jobs were touched, each ended as its answer says, all others are unchanged, and the cooldown is set exactly after a rate limit |
| `AutoClaim.AutoClaimService.CheckReceipt` | crates/bot-infra/src/claim.rs:708-850 | a submitted job is claimed if and only if its hash parses and the receipt has status 1; it uses up an attempt, and waits or fails, if and only if the hash is missing or malformed, the receipt has another status or none, or there is no receipt two minutes after submission; otherwise it is unchanged; the flag tells the first case |
| `AutoClaim.AutoClaimService.CheckSubmittedReceipts` | crates/bot-infra/src/claim.rs:691-817 | the oldest 50 submitted jobs each end as those conditions on hash, receipt and age say, no other job changes, the count is the number of those that went through, and nothing new is in flight |
| `AutoClaim.AutoClaimService.DiscoverRedeemableJobs` | crates/bot-infra/src/claim.rs:640-656 | on Ok every position found has a job that is new or found again, jobs of other positions are untouched, nothing goes into flight, and the count is the number of new jobs |
| `Discovery.FindPositions` | crates/bot-infra/src/claim.rs:569-638 | the loops over addresses, pages and rows find every candidate position, with the market of its first row, or fail with the first request that does |
| `Discovery.AdmittedIff` | crates/bot-infra/src/claim/support.rs:15-60 | exactly which rows are admitted and for what: size from size or balance, value from current value, price times size or size, owner from the proxy wallet or the address asked for, and the market slug or the slug |
| `Discovery.FoundIsUnique` | crates/bot-infra/src/claim.rs:629-631 | corollary: that description has exactly one result |
| `Discovery.PagesReadList` | crates/bot-infra/src/claim.rs:574-637 | pages read from a list give back the list up to page size times page limit |
| `Discovery.FoundIffListed` | crates/bot-infra/src/claim.rs:569-638 | a position is found if and only if one of the first page size times page limit rows of some address names it, is of positive size, not known to be unredeemable, and worth at least the limit |
| `AutoClaim.AutoClaimService.MaybeTick` | crates/bot-infra/src/claim.rs:522-567 | every tick, whatever fails, keeps the table well formed and the number in flight within the larger of before and the cap; a tick that returns Ok recovered, discovered and checked as due, and ran a pass exactly if there was a slot and no cooldown; submissions are paid for by attempts or by rediscovery and recovery |
| `ClaimRuns.InFlightNeverExceeds` | crates/bot-infra/src/claim.rs:544-565 | for ticks one after the other: over any run of ticks the jobs in flight stay within the start value, one, and the batch sizes of the services that submit directly |
| `ClaimRuns.RelayersHaveOneInFlight` | crates/bot-infra/src/claim/support.rs:101-113 | corollary of `InFlightNeverExceeds`: started empty, relayer services whose ticks do not overlap never have two in flight |
| `ClaimRuns.CooldownHolds` | crates/bot-infra/src/claim/support.rs:127-134 | after a rate limit no later pass of the service starts within 30 s, or within the backoff, in any run |
| `ClaimRuns.FinalStates` | crates/bot-infra/src/claim.rs:523-529 | for ticks one after the other: claimed jobs stay claimed in any run; a job in processing stays there until a tick recovers it |
| `ClaimRuns.RunsStayWellFormed` | crates/bot-infra/src/db/auto_claim.rs:19-62 | for ticks one after the other: in every reachable table attempts are within their limits and no owner and condition have two jobs |
| `ClaimRuns.SubmissionsBounded` | crates/bot-infra/src/claim/batch.rs:92-174 | for ticks one after the other: over any run, whatever fails, submissions of a job plus its attempts left are at most those at the start plus its limit for each time it came to be, was found again or was recovered |
| `ClaimRuns.SubmissionsWithinAttempts` | crates/bot-infra/src/db/auto_claim.rs:175-201 | for ticks one after the other: neither found again nor recovered, a job is submitted at most `max_attempts - attempts` times |
| `ClaimRuns.FailedStaysFailed` | crates/bot-infra/src/db/auto_claim.rs:203-220 | for ticks one after the other: neither found again nor recovered, a failed job stays as it is and is not submitted |
| `ClaimRuns.RestartsSubmitAgain` | crates/bot-infra/src/db/auto_claim.rs:231-246 | for every k, k restarts submit one job k times with no attempt used and nothing found again |
| `ClaimRuns.RediscoveriesSubmitAgain` | crates/bot-infra/src/db/auto_claim.rs:19-62 | for every k, one service submits k times a job that fails for good each time, with nothing recovered |
| `ClaimRuns.OutageStrandsBatch` | crates/bot-infra/src/claim/batch.rs:187-215 | a tick whose database never fails leaves a batch in processing, unsent, when the gas price cannot be fetched |
| `ClaimInterleaving.SubmissionsBounded` | crates/bot-runner/src/lib_parts/part_004.rs:165-197 | in every interleaving of any services, whatever fails: submissions of a job are at most what its attempts allowed at the start, plus its limit for each renewal, plus one for each pass that marked it after another had |
| `ClaimInterleaving.SubmissionsWithinAttempts` | crates/bot-infra/src/claim/batch.rs:33-90 | a waiting job that is not renewed is submitted at most `max_attempts - attempts` times, plus one for each such collision |
| `ClaimServices.WritesAre` | crates/bot-infra/src/db/auto_claim.rs:19-246 | for every statement of overlapping ticks, which row it writes and what becomes of it, column by column; a receipt is judged by the row as it was listed, and marks and outcomes are written whatever the row has become |
| `ClaimServices.TickInOrder` | crates/bot-infra/src/claim.rs:522-567 | corollary of the definitions: the parts of an overlapping tick come in order, recovery first, and a statement reported as failed ends it |
| `ClaimInterleaving.InFlightWithinCaps` | crates/bot-infra/src/claim.rs:554-565 | in every interleaving the jobs in flight, with those that passes under way may still add, stay within the start value or the sum of the caps, which are one for a relayer service and the batch size, at least one, for a direct one |
| `ClaimInterleaving.CooldownHolds` | crates/bot-infra/src/claim/batch.rs:176-185 | in every interleaving, after a job sent alone met a rate limit and its outcome was recorded, no tick of that service whose clock reading lies within 30 s, or within the backoff, starts a pass |
| `ClaimInterleaving.DiscoveryWaits` | crates/bot-infra/src/claim.rs:530-542 | in every interleaving, once a discovery of a service is over, no tick of it finds anything to upsert before the interval has passed since the clock was read for it |
| `ClaimInterleaving.KeptUnlessStale` | crates/bot-infra/src/db/auto_claim.rs:138-220 | attempt limits, one job per owner and condition, and claimed jobs are kept by every interleaving whose writes find the row as it was listed |
| `ClaimInterleaving.ApartIsNeverStale` | crates/bot-infra/src/claim.rs:522-567 | services whose ticks do not overlap never write a stale row and never collide |
| `ClaimInterleaving.ClaimedForGood` | crates/bot-infra/src/db/auto_claim.rs:19-62 | a claimed job that no tick holds stays claimed and unsubmitted in every interleaving, even if it is found again |
| `ClaimInterleaving.StaysForGoodIff` | crates/bot-infra/src/db/auto_claim.rs:64-148 | a claimed, failed or stuck job stays as it is in every interleaving without renewal if and only if no tick holds it from an earlier listing |
| `ClaimCollisions.OverlapsSubmitAgain` | crates/bot-infra/src/db/auto_claim.rs:138-148 | for every k, k overlapping services submit one job k times in k - 1 collisions and use k attempts, whatever its limit, with nothing failing or renewed; a job on its last attempt reaches the bound |
| `ClaimCollisions.OverlapsFillAllCaps` | crates/bot-infra/src/claim/support.rs:101-113 | for every k, k overlapping relayer services with a cap of one have k jobs in flight |
| `MultiSend.EncodeMultisendTransactions` | crates/bot-infra/src/claim/batch.rs:459-474 | the appending loop writes the documented layout |
| `MultiSend.RoundTrip` | crates/bot-infra/src/claim/batch.rs:443-474 | decoding gives back the list, whatever decodable bytes follow |
| `MultiSend.DecodeIsExact` | crates/bot-infra/src/claim/batch.rs:443-458 | whatever the decoder accepts is the packing of what it returns |
| `MultiSend.UniquelyDecodable` | crates/bot-infra/src/claim/batch.rs:443-474 | packing is lossless if and only if all data are shorter than 2^64 bytes |
| `MultiSend.EncodeConcat` | crates/bot-infra/src/claim/batch.rs:459-474 | packing distributes over concatenation |
| `MultiSend.EncodedLength` | crates/bot-infra/src/claim/batch.rs:459-474 | the packed length is the sum of 85 plus the data lengths |
| `ConfigOverlay.MergeJsonValues` | crates/bot-infra/src/config/load.rs:85-114 | the recursive loop computes the key-by-key merge: of a key both objects hold, null and the empty string leave the base's value, two objects merge, and any other value of the overlay is the result; a key of one object keeps its value; if either is no object the overlay is the result |
| `ConfigOverlay.MergeKeys` | crates/bot-infra/src/config/load.rs:85-114 | corollary of the definition: merged objects have the union of the keys |
| `ConfigOverlay.MergeSelf` | crates/bot-infra/src/config/load.rs:85-114 | merging a value onto itself changes nothing |
| `ConfigOverlay.MergeTwice` | crates/bot-infra/src/config/load.rs:85-114 | applying an overlay twice is applying it once |
| `ConfigOverlay.HidesExactly` | crates/bot-infra/src/config/load.rs:85-114 | the overlay alone is the result if and only if it decides everything the base holds |
| `ConfigOverlay.MergeAssociates` | crates/bot-infra/src/config/load.rs:85-114 | three layers associate if and only if no path conflicts |
| `ConfigOverlay.ConflictWitness` | crates/bot-infra/src/config/load.rs:85-114 | three layers that do not associate |
| `StableJson.NormalizeStableJson` | frontend/src/hooks/flow-engine-definition-switch.ts:189-205 | the recursion with its loops computes the normal form |
| `StableJson.NormKeepsMeaning` | frontend/src/hooks/flow-engine-definition-switch.ts:189-205 | normalising keeps what the payload means as JSON |
| `StableJson.NormIffMeaning` | frontend/src/hooks/flow-engine-definition-switch.ts:189-205 | normal forms are equal if and only if meanings are |
| `StableJson.NormIdempotent` | frontend/src/hooks/flow-engine-definition-switch.ts:189-205 | normalising twice is normalising once |
| `JsonText.EscapedInjective` | frontend/src/hooks/flow-engine-definition-switch.ts:155-157 | corollary of the decoder reading them back: the escape sequences of strings are a prefix code |
| `JsonText.StringRoundTrip` | frontend/src/hooks/flow-engine-definition-switch.ts:155-157 | a quoted string, whatever follows it, is read back by the string grammar of section 7 of RFC 8259 |
| `JsonText.EscapedForm` | frontend/src/hooks/flow-engine-definition-switch.ts:155-157 | only quotes, backslashes and control characters are escaped, in the short form if there is one |
| `JsonText.TextInjective` | frontend/src/hooks/flow-engine-definition-switch.ts:155-157 | the written characters determine the value, whatever follows it, for every spelling of numbers that tells them apart |
| `JsonText.SkipIffSameMeaning` | frontend/src/hooks/flow-engine-definition-switch.ts:163-173 | a save is skipped exactly if one was due and the draft means what was hydrated |
| `MarketCache.MergeEntry` | crates/bot-infra/src/ws.rs:453-471 | present fields overwrite, absent ones keep, time and source always change |
| `MarketCache.MarketStream.WriteCache` | crates/bot-infra/src/ws.rs:446-478 | the cache is the fold of the updates; tokens and callback snapshots are those of the updates; `MarkDirty` then adds exactly those tokens (lines 489-496) |
| `MarketCache.TickAt` | crates/bot-infra/src/ws.rs:473-482 | the i-th callback snapshot is the fold of the first i updates on the prior cache |
| `MarketCache.MarketStream.EnsureMarketStream` | crates/bot-infra/src/ws.rs:163-204 | undisturbed: no tokens empties everything and ends the task; a changed set, a missing task or one that has finished leaves a new task and evicts exactly the tokens not in the set; otherwise nothing changes; its parts under their own locks are `SetDesired`, `Evict`, `EmptyDirty` and `ReplaceTask` |
| `MarketCache.MarketStream.TakeDirtyMarketTokens` | crates/bot-infra/src/ws.rs:274-282 | returns the dirty tokens and leaves them dirty |
| `MarketCache.MarketStream.ClearDirtyMarketTokens` | crates/bot-infra/src/ws.rs:284-291 | removes exactly the named tokens |
| `MarketCache.CachedTokens` | crates/bot-infra/src/ws.rs:163-204 | a token is cached if and only if it was updated since its last eviction, with the time and source of its last update |
| `MarketCache.CachedFields` | crates/bot-infra/src/ws.rs:446-478 | each cached field is the last value carried for the token since its last eviction, for any history |
| `MarketCache.MarksExactly` | crates/bot-infra/src/ws.rs:446-496 | in every interleaving a token waits to be marked if and only if it was written with neither a mark nor an abort since |
| `MarketCache.DirtyExactly` | crates/bot-infra/src/ws.rs:274-291 | in every interleaving a token is dirty if and only if a write of it was marked, with neither an emptying nor a clear of it since |
| `MarketCache.StepMisses` | crates/bot-infra/src/ws.rs:163-206 | for every step exactly what the consumer misses after it: what the step loses, and what was missed and not renewed |
| `MarketCache.MissedIff` | crates/bot-runner/src/lib_parts/part_007.rs:934-945 | in every interleaving the consumer misses news of a token if and only if a step lost its announcement and it was neither written nor evicted since |
| `MarketCache.NoLostUpdateIff` | crates/bot-runner/src/lib_parts/part_007.rs:934-945 | a run never misses anything if and only if none of its steps is an abort or an emptying that takes away an only announcement |
| `MarketCache.UpdateReachesConsumer` | crates/bot-runner/src/lib_parts/part_007.rs:934-945 | a run in which an update reaches the consumer and a finished task is replaced |
| `MarketCache.AbortLosesUpdate` | crates/bot-infra/src/ws.rs:163-204 | a run in which an abort does lose one |
| `MarketCache.EmptyingLosesUpdate` | crates/bot-infra/src/ws.rs:166-174 | a run in which emptying the dirty set after the cache loses one, with no abort in between |
| `ShadowOutcome.MinGapIsLeast` | scripts/ml_entry_quality/evaluate_shadow_outcomes.py:178-187 | the aggregate is the least gap and is attained |
| `ShadowOutcome.FirstHitIsFirst` | scripts/ml_entry_quality/evaluate_shadow_outcomes.py:188-197 | the scan finds the first hit exactly if there is one |
| `ShadowOutcome.RiskIffHit` | scripts/ml_entry_quality/common.py:193-213 | the risk label from the minimum is 1 if and only if the scan finds a hit, for every series and threshold |
| `ShadowOutcome.TradeMatchesLabels` | scripts/ml_entry_quality/evaluate_shadow_outcomes.py:320-381 | with a positive ask the trade is stopped out exactly when the risk label is 1, and otherwise wins exactly when the last gap is positive |
| `ShadowOutcome.StopExitPrice` | scripts/ml_entry_quality/evaluate_shadow_outcomes.py:320-381 | a stopped trade exits at the first bid on record from the hit on, else at zero |
| `ShadowOutcome.UpInPrices` | scripts/ml_entry_quality/evaluate_shadow_outcomes.py:160-212 | in prices, for an entry that bets on a rise: stopped out if and only if some sample has chainlink at most `stop` above the price to beat or fallen by `stop` against it, at the first such sample and sold by the yes bids; otherwise won if and only if the last chainlink price is above the price to beat; with profit, status and both labels |
| `ShadowOutcome.DownInPrices` | scripts/ml_entry_quality/evaluate_shadow_outcomes.py:160-212 | the mirror image, sold by the no bids |
| `ShadowOutcome.NoTrade` | scripts/ml_entry_quality/evaluate_shadow_outcomes.py:337-381 | without a usable ask or a direction there is no result and no label |
| `ShadowOutcome.GoodEntryWins` | scripts/ml_entry_quality/evaluate_shadow_outcomes.py:320-381 | an entry with both labels right makes money, and no trade loses more than its stake |
| `FirstEntry.FirstEntryRows` | scripts/ml_entry_quality/evaluate_shadow_outcomes.py:551-559 | exactly one row for each market and direction with an allowed row, and it is the earliest allowed one, the first in the input among those just as early |
| `FirstEntry.GroupByKey` | scripts/ml_entry_quality/evaluate_shadow_outcomes.py:562-565 | the groups are exactly the rows of each key, in order |
| `FirstEntry.FirstEntryDecisions` | scripts/ml_entry_quality/evaluate_shadow_outcomes.py:562-579 | exactly one decision for each market and direction with a decided row: its earliest allowed row, or where none is allowed its earliest avoided one |
| `FirstEntry.SelectionsAgree` | scripts/ml_entry_quality/evaluate_shadow_outcomes.py:551-579 | both selections pick the same allowed rows for every decision function, so counts and totals agree |
| `FirstEntry.LooseningEntersNoLater` | scripts/ml_entry_quality/evaluate_shadow_outcomes.py:529-534 | loosening both thresholds keeps every allowed group and never moves its entry later |
| `ThresholdSearch.EvaluateGrid` | scripts/ml_entry_quality/evaluate_shadow_outcomes.py:674-712 | every pair of the grid is evaluated, by first-entry decisions, and nothing else |
| `ThresholdSearch.EvaluationIsUnique` | scripts/ml_entry_quality/evaluate_shadow_outcomes.py:685-708 | rows and thresholds determine the evaluation, in whatever order the groups are decided |
| `ThresholdSearch.DecidesIff` | scripts/ml_entry_quality/evaluate_shadow_outcomes.py:529-534 | a pair of thresholds in hundredths allows exactly the rows with enough quality and little enough risk, avoids the others and leaves those without scores undecided |
| `ThresholdSearch.GroupLevel` | scripts/ml_entry_quality/evaluate_shadow_outcomes.py:537-540 | the right decisions counted are the gains that were allowed and the rest that was not |
| `ThresholdSearch.OptimizeShadowPnlThresholds` | scripts/ml_entry_quality/evaluate_shadow_outcomes.py:652-740 | no pair of the grid has a larger total than the pair reported as best; of equal totals none more right decisions; of equal ones none more entries; then none a lower entry threshold, and then none a higher risk threshold; the top five start with it, in that order |
| `ThresholdSearch.BestIsUnique` | scripts/ml_entry_quality/evaluate_shadow_outcomes.py:713-722 | corollary of `EvaluationIsUnique`: no other pair of the grid is as good as the best |
| `ThresholdSearch.NoPairEarnsMore` | scripts/ml_entry_quality/evaluate_shadow_outcomes.py:652-740 | by the rows that either first-entry selection picks, no pair of the grid earns more than the best, but for what rounding to four places hides |
| `FlowEvents.ShowsLargest` | frontend/src/contexts/trade-flow-realtime-context.tsx:134-145 | after any stream the list is strictly descending, holds latest payloads, and lacks an id only if 200 larger ones are shown |
| `FlowEvents.LargestIsUnique` | frontend/src/contexts/trade-flow-realtime-context.tsx:140-144 | that description has exactly one list: the one shown |
| `FlowEvents.ArrivalOrderIrrelevant` | frontend/src/contexts/trade-flow-realtime-context.tsx:140-144 | streams with the same latest events show the same list |
| `CanvasHistory.History.Push` | frontend/src/hooks/use-canvas-history.ts:15-21 | keeps the last 49 snapshots and the new one and forgets the redo stack |
| `CanvasHistory.History.Undo` | frontend/src/hooks/use-canvas-history.ts:23-38 | returns the newest snapshot and moves the current graph to the redo stack; nothing if there is none |
| `CanvasHistory.History.Redo` | frontend/src/hooks/use-canvas-history.ts:40-55 | the mirror image |
| `CanvasHistory.Editor.CommitGraph` | frontend/src/components/trade-builder/flow-canvas-editor/editor-body.tsx:193-233 | a commit that shrinks the graph without leave changes nothing; any other replaces the graph, records the old one unless told not to, tells the parent, and guards growth for four seconds |
| `CanvasHistory.Editor.HandleUndo` | frontend/src/components/trade-builder/flow-canvas-editor/editor-body.tsx:824-837 | unless read-only, the canvas shows the snapshot undo returned and the parent is told |
| `CanvasHistory.Editor.HandleRedo` | frontend/src/components/trade-builder/flow-canvas-editor/editor-body.tsx:838-851 | unless read-only, the canvas shows the snapshot redo returned and the parent is told |
| `CanvasHistory.Editor.TakeFromParent` | frontend/src/components/trade-builder/flow-canvas-editor/editor-body.tsx:290-299 | a graph from the parent replaces the canvas exactly if it is new, is not what the canvas shows, and is no smaller one under a standing guard; the history is not touched |
| `CanvasHistory.RunIsTravel` | frontend/src/hooks/use-canvas-history.ts:15-55 | over any run the two stacks are one timeline with a cursor |
| `CanvasHistory.TimelineDetermines` | frontend/src/hooks/use-canvas-history.ts:12-13 | the timeline determines both stacks and the current graph |
| `CanvasHistory.HistoryStaysBounded` | frontend/src/hooks/use-canvas-history.ts:9-55 | undo and redo sizes together never exceed 50 |
| `CanvasHistory.MovesKeepTimeline` | frontend/src/hooks/use-canvas-history.ts:23-55 | any mix of undos and redos keeps every snapshot and only moves the cursor |
| `CanvasHistory.UndosThenRedosRestore` | frontend/src/hooks/use-canvas-history.ts:23-55 | k undos show the k-th graph back and k redos restore the graph and both stacks |
| `CanvasHistory.CommitsCanBeUndone` | frontend/src/hooks/use-canvas-history.ts:15-38 | commits keep exactly the last 50 replaced graphs, and k undos reach the k-th of them |
| `TelegramChunks.TelegramTextChunks` | crates/bot-runner/src/telegram_notification.rs:92-130 | every chunk has at most 4096 characters, says that it continues and is continued where it is, reading them back gives the text, and there are 1 + ceil((n - 4081) / 4073) of them for n > 4096 |
| `TelegramChunks.ChunksRejoin` | crates/bot-runner/src/telegram_notification.rs:88-130 | removing the marks and joining is the inverse of the split |
| `TelegramChunks.Capacity` | crates/bot-runner/src/telegram_notification.rs:97-100 | the most text any k marked chunks can carry |
| `TelegramChunks.FewestIff` | crates/bot-runner/src/telegram_notification.rs:97-127 | exactly when the split uses as few chunks as any |
| `SecretCodec.StrictIff` | crates/bot-infra/src/signer.rs:145-147 | the strict decoder accepts exactly the canonical encodings |
| `SecretCodec.DecodeIff` | crates/bot-infra/src/signer.rs:129-148 | the signer decodes a secret to given bytes if and only if, trimmed, it is their encoding with all, some or none of its padding |
| `SecretCodec.NormalizeIs` | frontend/src/lib/config.ts:703-729 | what is stored: the canonical encoding of a canonical body, nothing for nothing, else the trimmed value |
| `SecretCodec.SpacesAre` | crates/bot-infra/src/signer.rs:129-131 | the characters that Rust trims are the 25 of Unicode White_Space; JavaScript trims the byte order mark as well and the next-line character not |
| `SecretCodec.NormalizeIdempotent` | frontend/src/lib/config.ts:703-729 | storing a stored value changes nothing |
| `SecretCodec.NormalizeKeepsSecret` | frontend/src/lib/config.ts:703-729 | any secret the signer accepts decodes to the same bytes after it was stored |
| `SecretCodec.StoredDecodesIff` | frontend/src/lib/config.ts:703-729 | exactly which values decode once stored |
| `SecretCodec.SecretCache.CachedDecode` | crates/bot-infra/src/signer.rs:150-166 | equals a direct decode and keeps at most 17 faithful entries, whichever locks were obtained; a decoded secret is added, alone if more than 16 were kept, and nothing else changes the cache |
| `SecretCodec.EveryHitIsDirect` | crates/bot-infra/src/signer.rs:150-166 | in every interleaving of callers' critical sections a hit is what a direct decode gives |
| `SecretCodec.FoundOnceKept` | crates/bot-infra/src/signer.rs:150-166 | in every interleaving looking changes nothing, and what was kept last is found exactly if it is a secret |
| `Socks5.ConnectParses` | crates/bot-infra/src/proxy.rs:228-246 | CONNECT bytes parse back to the host and port for every host of up to 255 bytes |
| `Socks5.ClientIsUnderstood` | crates/bot-infra/src/proxy.rs:197-246 | all bytes written parse back, by the numbers of the standards, to methods, credentials, host and port, and then the tunnelled bytes |
| `Socks5.Stream.ReadConnectResponse` | crates/bot-infra/src/proxy.rs:280-315 | succeeds exactly on a success reply and leaves the stream right behind it |
| `Socks5.Stream.Authenticate` | crates/bot-infra/src/proxy.rs:250-278 | succeeds exactly if the credentials fit, the write succeeds and the proxy answers success |
| `Socks5.Stream.Connect` | crates/bot-infra/src/proxy.rs:189-248 | succeeds exactly on a well-formed session and then stands at the first tunnelled byte; whatever fails, it has written a beginning of what the answers call for, and all of it if no write failed |
| `Socks5.OutgoingOfSession` | crates/bot-infra/src/proxy.rs:189-248 | corollary of the definitions: what an accepted session calls for is the one whole client session |
| `Socks5.OutgoingBegins` | crates/bot-infra/src/proxy.rs:197-246 | corollary of the definitions: for all answers it is a beginning of the client session with the chosen method, and the whole of it exactly when the answers open the way |
| `Socks5.TakeReplyIff` | crates/bot-infra/src/proxy.rs:280-315 | the reply reader takes exactly one well-formed success reply, for all three address types |
| `Socks5.ReadSessionIff` | crates/bot-infra/src/proxy.rs:189-315 | the handshake reader accepts exactly the answers of a complete handshake |
| `Socks5.UnofferedMethodIsAccepted` | crates/bot-infra/src/proxy.rs:197-226 | corollary of `ReadSessionIff`: a session is accepted whichever method it selects, and the method was not offered exactly when it is a login and there are no credentials |

## Left out

- HTTP, websocket, RPC and SQL plumbing, contracts, signatures and hashing: their answers are inputs of the model.
- Floating-point rounding: prices, scores and profits are exact reals.
- `gate_decision` and `promote_candidate` of the training script, `bot-core`, reconcile and dashboards: they would only add easy members.
- ThresholdSearch.OptimizeShadowPnlThresholds: the report's figures for the decisions on record are not modelled; rounding is any function, of which `NoPairEarnsMore` assumes that it moves a total by half a unit of the fourth place at most.
- Synchronous exceptions of save jobs and exceptions of their callbacks: the jobs are async functions and the callbacks are taken not to throw.
- `publishFlow`, `saveDraft`, template creation and the context patch of the controller, and React's effect scheduling: selecting a definition and the reset it causes are one step, which may come at any time. A rejected PATCH is taken not to have changed the server's draft.
- DraftEditor.CleanMeansStoredIff: says nothing once another draft is loaded, the draft is reloaded, or the user gives up the edit by switching without saving. A refused edit is no step of a run. Whether the name, the description or the context differ from what was hydrated is an input of the switch. What a load returns, and what other writers store, are inputs.
- ClaimInterleaving.SubmissionsBounded: appended events are no steps of their own; a failure of one ends a tick as any failure does.
- Discovery.FoundIffListed: says what is found of answers that do not change between pages; `Discovery.FindPositions` holds for any answers. The parsers of addresses and condition ids are inputs, and the positions found are an input of a tick.
- ClaimPlan.DoneEnds: error texts are not shortened as `compact_error` does; event rows and their names are not modelled.
- The submissions of one tick are one answer per job and one per batch; the transactions behind them and gas prices are not modelled.
- AutoClaim.AutoClaimService.CheckReceipt: error texts are shorter than the source's, and the activation of funds is one event row.
- JsonText.TextInjective: how a number is spelled is an input of which only injectivity and the characters used are assumed (`JsonText.SpellingExists` shows that this can be met); lone surrogates, `toJSON`, NaN, `__proto__` and the order of integer-like keys are not modelled.
- MarketCache.MissedIff: an abort takes effect at once; payload extraction and wake-ups are not modelled.
- The consumer of dirty tokens reads each token's snapshot once in any order; what it does with them is not modelled.
- CanvasHistory.Editor.CommitGraph: the fingerprint of a graph is any function of it, and changes of the canvas that bypass commits (drags in progress, execution marks, live prices) are not modelled. Snapshots are values, so the cloning of nodes and edges is not visible.
- The Telegram backoff map and the sending of the chunks.
- SecretCodec.SecretCache.CachedDecode: the error texts of the decoder library are one error.
- Socks5.Stream.Connect: proxy URL parsing and pooling are not modelled, and a failed write has sent any beginning of its data.
