# A verified model of the Venom catalog service and router

This project models, in Dafny 4.11, the parts of the repository whose meaning
spans many calls: the catalog's life cycle and its ledgers, the queues and locks
around it, the streaming protocol of the execution transports, and four
algorithms whose results other code relies on. `dafny verify dfyconfig.toml`
checks everything.

## What is modelled

**The catalog.** `CatalogTypes` holds the rows, events and runs. `SyncEngine` is one
provider's sync: roster validation, feed snapshots and diffs, the removal gate, and one
transaction over rows, ledger, run records and resolution jobs. `PublishPolicy` is the
second transition on the same rows, which shares with the engine only the exclusion
reason. `ResolutionJobs` is the queue of open facts. Each is a class whose methods
follow the source's loops, proved equal to a function of the old state. Whole runs are
then studied on those functions: `CatalogRuns` (what every run keeps), `CatalogLedger`
(what its ledger can be replayed to), `RosterBounds` (how much can be lost, and when),
`PipelineIdempotence` (when a second pass is silent), `JobLifecycle` (how often a job is
tried), `JobSchedule` (when it is due). What one step means is told on the fields of its
input in `CatalogEffects` (a sync), `PolicyEffects` (the policy) and `LedgerOrder` (the
order of their events). A run is any sequence of syncs and policy passes from any store,
with failed and quarantined syncs among its steps. `Notifications` projects the ledger.

**Queues, locks and budgets.** `EvaluationQueue` and `SyncLock` model single-threaded
asynchronous objects as atomic stretches between awaits, in any interleaving. The
evaluation worker's last test of an empty queue and the reset of its flags are one
stretch, its release another; `EvaluationContract` has what callers rely on, and
`EvaluationCalls` which calls a job makes and what it is remembered for.
`AutoEvaluation` is the budgeted sweep. `RateLimiter` and `AccountMaintenance` are
bounds over time.

**Streams.** `SseStreams` gives the four runners as loops over ticks (a line, a scanner
error, the end of the body, either timer, a finished context), each tick with the number
of sends that succeed before the context is done. Decoded JSON is a parameter.
`SseScanner` is the goroutine that reads the body. `SseContract` states what consumers
may rely on, with the benchmark consumer and the registry of in-flight streams, and
`SseBodies` what each wire makes of what the provider says.

**Algorithms.** `Identity` (over `Evidence`) resolves a catalog id against
upstream models; `IdentityRules` says which spellings and models its rules mean.
`SqlBoundary` finds statement boundaries. `BenchmarkRating` is the suite, its medians and
its score. `ImageParts` follows an image from the client's data URL (section 3 of
RFC 2397) to three wires. `Characters`, `Sequences`, `Sorting` and `Wrappers` hold what
several modules share.

## What turned out not to hold, and exactly when it does

- A second pass over the same answers is not silent in general: a missing row withheld
  as `not_served` is `excluded` the next time and is classified again, as in
  `PipelineIdempotence.APassCanUnsettle`. `PipelineIdempotence.SecondPassSilentExactly`
  gives the exact condition for a whole pass, `PipelineIdempotence.PolicySettlesExactly`
  for the policy alone, and `PipelineIdempotence.DefaultsLeaveNoneMissing` shows that
  the defaults avoid it.
- Normalising an id is not idempotent: `a/b/c` gives `b/c`, then `c`
  (`Identity.NormalizingIsNotIdempotent`). `Identity.NormalizingTwiceExactly` says when
  it is.
- An upstream model with the very id asked for can be missed by the exact rule, because
  the vendor is dropped twice: `Identity.ExactMissesItsOwn`. It is found exactly when the
  id has no second vendor or the model's slug has the key looked for:
  `Identity.ExactFindsItsOwnExactly`.
- The sized rule never binds a decimal size: `Identity.DecimalSizesNeverBind`, and
  `Identity.SizedRuleExactly` for what it does bind.
- A data URL built from a media type that contains the base64 mark does not parse
  back: `ImageParts.BuiltUrlParsesBackExactly`.
- Images in system messages are dropped on the Anthropic wire, although its builder
  is documented to refuse what it cannot express: `ImageParts.SystemImageVanishes`. A
  built request carries every image exactly when no system message holds one
  (`ImageParts.AnthropicCarriesAllImagesExactly`), and a refusal is skipped exactly when
  some system message holds one that is not a whole data URL
  (`ImageParts.AnthropicSkipsRefusalsExactly`).
- On the Gemini wire, which has no marker, and on the Anthropic wire, which has one, a
  body cut off after a delta is taken for a complete answer:
  `SseContract.GeminiEndOfBodyIsDone`, `SseContract.AnthropicEndOfBodyIsDone`. A stream
  says done unmarked exactly when its wire takes the end of the lines for the end of the
  answer and the lines just ended: `SseContract.UnmarkedDoneExactly`. They also end where a
  finished context stops the scanner, so a cancelled stream can say done after any part of
  its body that holds no end: `SseScanner.CanSayDoneExactly`. One whose context is alive
  can only after the whole of it: `SseScanner.CanSayDoneUncancelledExactly`.
- The limiter's slice is not its window when an attempt that one reading of the clock
  put out is inside a later reading's window, and then the bound can be exceeded:
  `RateLimiter.ClockMustNotRunBack`. With no such attempt it is, and only then:
  `RateLimiter.SliceIsTheWindowExactly`. The condition is exact for the slice over all
  maxima and suffices for the bound, which single runs can keep without it. The account
  sweep's cadence needs nothing of the clock.
- An account found expired has its quota stamp set though nothing was fetched, so its
  quota can be stale under a stamp in force: `AccountMaintenance.RecoveryWaitsForTheStamp`.
  It is fresh exactly when that stamp was not set while expired:
  `AccountMaintenance.FreshExactly`.
- A stream that ends takes away the cancellation of a later one under the same id:
  `SseContract.EndingHidesTheNextStream`, and `SseContract.CancelReachesTheLastExactly`
  for when a cancel does arrive.
- A job accepted in the microtasks between its worker's leaving and that worker's release
  is taken up by nobody until another is accepted: `EvaluationContract.AJobCanBeStranded`,
  and exactly then: `EvaluationContract.StrandedExactly`.

## Model

| member | source | states |
|---|---|---|
| `SyncEngine.ValidateRoster` | catalog/sync/engine.ts:145-157 | A roster is rejected for any entry that is not a non-blank string and for being empty; otherwise it is the first occurrences of its ids, in order |
| `SyncEngine.DeduplicatedIsTheSetOfNames` | catalog/sync/engine.ts:145-157 | The validated roster has no duplicates and exactly the ids the upstream listed |
| `SyncEngine.DiffSpecs` | catalog/sync/engine.ts:260-272 | The diff loop yields, field by field in tracked order, the published values that differ from a readable baseline, and nothing without one |
| `CatalogLedger.DifferenceIsExact` | catalog/sync/engine.ts:260-272 | A field is in the diff if and only if it is tracked, published, and published with another value than the baseline cites |
| `CatalogLedger.SnapshotReads` | catalog/sync/engine.ts:217-244 | A snapshot just written reads back, and every field reads as exactly what the feed published or as nothing |
| `CatalogEffects.AcceptedExactly` | catalog/sync/engine.ts:145-157 | A roster is accepted if and only if it is a non-empty list of strings each with something other than white space in it, and then it names as many ids as there are distinct ones |
| `CatalogEffects.RosterKeepsOrder` | catalog/sync/engine.ts:145-157 | Of two ids of the validated roster the earlier was first listed before the later |
| `CatalogEffects.OutcomeExactly` | catalog/sync/engine.ts:279-336 | A run is failed exactly when the roster is not accepted, quarantined exactly when it would leave out more live rows than the count or the share allows, and its record says which, when, and how many were listed |
| `CatalogEffects.RowAfterSync` | catalog/sync/engine.ts:337-409 | Any row of any provider after a sync: a named row is active, seen now and without a miss, and keeps its first-seen time and reason; a live row left out has one miss more and is missing since its first one, or retired at the threshold; all else stays |
| `CatalogEffects.OmissionIsTold` | catalog/sync/engine.ts:390-409 | A sync tells of a live row it leaves out that it was removed, or that it went missing if it was not, and tells nothing of any other row it does not name |
| `CatalogEffects.ArrivalIsTold` | catalog/sync/engine.ts:363-372 | A named row without a spec or a readable baseline is told only to be added, or readded if it was missing |
| `CatalogEffects.RelistingIsTold` | catalog/sync/engine.ts:260-272 | A live row listed again is told to be readded if it was missing, and then of each of the nine fields, in tracked order, exactly the published value that differs from the one its baseline spells |
| `CatalogEffects.OneFieldIsTold` | catalog/sync/engine.ts:193-221 | For each of the nine fields: if two syncs in a row list a model and the second publishes that field alone with another value, the one event about it names that field, the old value and the new |
| `CatalogEffects.BaselineAfterSync` | catalog/sync/engine.ts:193-221 | The baseline a named row is left with spells, cell by cell, the nine fields of the spec it was named with, and nothing if there was none |
| `CatalogEffects.ToldAtOnce` | catalog/sync/engine.ts:363-409 | Every event a sync adds is about its own provider and at the time of its transaction |
| `CatalogEffects.JobAfterSync` | catalog/sync/engine.ts:393-403 | The job of a row that the run retires is complete, without reasons and not due, and no other job is touched |
| `CatalogEffects.RecordCountsItsEvents` | catalog/sync/engine.ts:410-416 | The record of an applied run counts as added, removed and changed exactly the events of those kinds that its own transaction appended |
| `LedgerOrder.SyncToldInOrder` | catalog/sync/engine.ts:363-409 | The events of an applied run are in the order of the rows: those it names as the roster first lists them, then those it leaves out as the query returned them |
| `LedgerOrder.AnswerExactly` | catalog/sync/engine.ts:337-417 | An applied run answers as added each named id that had no row or a retired one, and as removed each live row left out whose misses come up to the threshold, once each and in that order |
| `SyncEngine.Catalog.SyncProvider` | catalog/sync/engine.ts:279-417 | One sync leaves rows, ledger, run records and jobs in the specified next state: rejected, held at the gate, or applied whole; the answer agrees with the run it recorded, and when applied it lists as added exactly the roster's ids that had no row or a retired one, in roster order, and as removed exactly the rows it retired |
| `SyncEngine.Catalog.ApplyRoster` | catalog/sync/engine.ts:337-416 | The transaction upserts the roster, settles the absent rows, completes the jobs of retired ones and appends the events, all or nothing |
| `SyncEngine.Catalog.UpsertRoster` | catalog/sync/engine.ts:363-388 | The upsert loop makes every listed row active with the new snapshot, keeps its first-seen time and exclusion reason, and reports arrivals and changes against the rows as stored before the run |
| `SyncEngine.Catalog.SettleAbsent` | catalog/sync/engine.ts:390-409 | The absence loop retires or marks missing every absent row, with one event at most each, and returns the retired ids |
| `SyncEngine.Catalog.RetireOrMiss` | catalog/sync/engine.ts:393-408 | One absent row is retired, and its job completed, exactly when the miss threshold is reached; otherwise it is missing since its first miss |
| `RosterBounds.GateBounds` | catalog/sync/engine.ts:108-112 | A roster that passes the default gate leaves out at most five rows and at most three tenths of the live ones |
| `RosterBounds.LossIsBounded` | catalog/sync/engine.ts:322-409 | Over any run of steps with k default syncs of a provider, at most 5k of its rows are removed and 10^k times the live rows at the end are at least 7^k times those at the start |
| `RosterBounds.MissCountIsOmissions` | catalog/sync/engine.ts:363-409 | In every run from any store a row's miss count is the number of applied rosters that left it out since one last listed it, on top of what it started with if none did |
| `RosterBounds.RetiresAtTheThreshold` | catalog/sync/engine.ts:393-404 | A live row is retired by exactly the omission that completes the configured number of consecutive ones, and by no other step |
| `CatalogRuns.StepOnRow` | catalog/sync/engine.ts:341-414 | Seen from any row of any provider, a step changes it and adds events about it exactly as its own roster membership, spec and status dictate; other rows never matter |
| `CatalogRuns.RowsSurvive` | catalog/sync/engine.ts:348-409 | Over every run from any store no row is ever deleted and no first-seen time moves |
| `CatalogRuns.RefusedRunsTouchNothing` | catalog/sync/engine.ts:294-335 | A failed or quarantined run appends its own record and changes no row, event or job; it is failed exactly when the roster is rejected |
| `CatalogLedger.BaselineIsLastListing` | catalog/sync/engine.ts:348-383 | The feed baseline of every row is the snapshot of the last applied sync that listed it, or else the one it started with, and nothing else writes it |
| `CatalogLedger.ListedBaseline` | catalog/sync/engine.ts:217-244 | A row listed once has a readable baseline, which says of each field what the feed published at its last listing |
| `CatalogLedger.ChangeIsReportedExactly` | catalog/sync/engine.ts:260-272 | In every run from any store a change event appears if and only if a live row with a readable baseline is listed again with a published value other than the baseline's, and it cites both; going quiet is never an event, nor is a row without a readable baseline |
| `CatalogLedger.LedgerAnswersForTheFeed` | catalog/sync/engine.ts:363-388 | In every run from any store the latest value the feed is known to have published for a field is the new value of its last change told since the row was last added, or else its value at that add or in the row's first readable baseline |
| `CatalogLedger.ExclusionReplaysFromLedger` | catalog/sync/publish-policy.ts:147-178 | After every run from any store a row's exclusion reason is the replay of the events told about it since on the reason it started with, although the engine resets its status on every run in between |
| `CatalogLedger.EngineLeavesExclusions` | catalog/sync/engine.ts:348-361 | No event of the engine moves the replayed exclusion reason |
| `PublishPolicy.GovernRow` | catalog/sync/publish-policy.ts:147-178 | One row is withheld, restored or left with the specified event, and the summary counts what happened |
| `PublishPolicy.GovernTable` | catalog/sync/publish-policy.ts:144-179 | The loop over one provider's live rows yields the specified table, its events in query order, and their tally |
| `PublishPolicy.ApplyPublishPolicy` | catalog/sync/publish-policy.ts:112-184 | The whole pass applies every governed adapter in turn to the stored rows; its summary is the tally of the events it appended |
| `PublishPolicy.TallyAdds` | catalog/sync/publish-policy.ts:113-114 | Counting events on top of a running summary adds the counts of the events alone |
| `PublishPolicy.PolicyOneKeepsLive` | catalog/sync/publish-policy.ts:119-179 | The policy retires nothing and revives nothing, for any provider |
| `PolicyEffects.PriceDecides` | catalog/sync/publish-policy.ts:98-108 | A served row of a free-only adapter without an exclusion by name is published if and only if the official list names it, or there is none and both costs are published as zero; it is withheld as paid if and only if the list does not name it and some published cost is positive, and as not proven free in all that is left |
| `PolicyEffects.NameAndAbsenceDecide` | catalog/sync/publish-policy.ts:147-152 | An exclusion by name decides before everything else, and a missing row of a free-only adapter is withheld as not served |
| `PolicyEffects.RestoredExactly` | catalog/sync/publish-policy.ts:173-178 | A row nothing is held against is restored exactly from a reason this adapter can give, and is else left as it is |
| `PolicyEffects.WithheldExactly` | catalog/sync/publish-policy.ts:153-172 | A row something is held against is excluded with a reason and otherwise as it was |
| `PolicyEffects.MovesAreTold` | catalog/sync/publish-policy.ts:153-178 | The policy tells exactly the moves of the exclusion reason, with the status the row had |
| `PolicyEffects.RowAfterPolicy` | catalog/sync/publish-policy.ts:119-179 | Every row of the adapter's provider is judged, stored and told of by these rules; no other row, no run and no job is touched |
| `LedgerOrder.PolicyToldInOrder` | catalog/sync/publish-policy.ts:144-179 | The events about one provider's rows are in the order in which the query returned them |
| `LedgerOrder.AdapterByAdapter` | catalog/sync/publish-policy.ts:136-180 | Adapters are governed one after another, each on what the ones before it left |
| `PolicyEffects.SummaryCounts` | catalog/sync/publish-policy.ts:61-76 | The summary is the number of events that withhold for each reason, and of those that restore |
| `CatalogLedger.PolicyEventsReplay` | catalog/sync/publish-policy.ts:162-178 | If a row's reason is the replay of its events before the policy, it is so after |
| `CatalogRuns.UngovernedChangesNothing` | catalog/sync/publish-policy.ts:115-117 | Skipping an adapter without policy or exclusions is the same as applying it |
| `PipelineIdempotence.SecondPassSilentExactly` | catalog/sync/pipeline.ts:129-141 | Running all syncs then the policy twice on the same answers adds no event the second time if and only if the first settled every provider, whatever the options and whatever became of each run; then every row keeps its status, exclusion reason and baseline |
| `PipelineIdempotence.SecondPassIsSilent` | catalog/sync/pipeline.ts:129-141 | So the second pass is silent whenever one miss retires and no row was missing |
| `PipelineIdempotence.LeftOutUnsettles` | catalog/sync/pipeline.ts:129-141 | A live row of a free-only provider that an applied roster leaves out, short of retirement, makes the second pass speak, whatever else the pass holds |
| `PipelineIdempotence.APassCanUnsettle` | catalog/sync/pipeline.ts:129-141 | A store reached by one sync of two names, and a pass listing one of them, after which no pass over the same answers is silent |
| `PipelineIdempotence.ProviderSettlesExactly` | catalog/sync/engine.ts:341-409 | One provider's second engine and policy pass is silent if and only if the first settled it: each row an applied roster left out was retired at once, or is two misses short of it and left missing by the policy; or the run was refused and no stored row is withheld only for being missing |
| `PipelineIdempotence.AppliedAgain` | catalog/sync/engine.ts:316-335 | A roster that passed the gate passes it again after its own pass, whatever rows that pass retired, revived or withheld |
| `PipelineIdempotence.DefaultsLeaveNoneMissing` | catalog/sync/engine.ts:108-112 | When one miss retires, a store without missing rows, as the empty one, never gets any |
| `PipelineIdempotence.RowSettles` | catalog/sync/publish-policy.ts:153-178 | A second verdict on one row is silent if and only if it was not a missing row that a free-only adapter withholds without an explicit reason |
| `PipelineIdempotence.PolicySettlesExactly` | catalog/sync/publish-policy.ts:144-178 | Applying one policy twice in a row is silent the second time if and only if no row was withheld only for being missing |
| `ResolutionJobs.NothingOutstanding` | catalog/sync/resolution-jobs.ts:88-102 | An offering has no reason left exactly when every fact is known and no source disagrees |
| `ResolutionJobs.ReasonsExactly` | catalog/sync/resolution-jobs.ts:88-102 | Each of the eleven reasons is given if and only if its own fact is missing, the cost is not known, or some official sources conflict |
| `ResolutionJobs.JobQueue.CompleteResolutionJob` | catalog/sync/resolution-jobs.ts:137-142 | A held job is finished, keeping its window and count; no other job changes |
| `ResolutionJobs.JobQueue.BootstrapResolutionJobs` | catalog/sync/resolution-jobs.ts:149-199 | The repair and the seeding loop leave every job as specified by its own row; the answer counts the jobs seeded |
| `ResolutionJobs.JobQueue.BeginResolutionWindow` | catalog/sync/resolution-jobs.ts:202-229 | Every offered row with a reason gets a fresh window and keeps its first detection; one without is completed; the answer counts the open ones |
| `ResolutionJobs.JobQueue.FinishResolutionAttempt` | catalog/sync/resolution-jobs.ts:232-267 | One attempt completes, retires to dormant or schedules the job at its window's end; a resolution is announced exactly when the held job's reasons are gone |
| `ResolutionJobs.JobQueue.FinishPass` | catalog/sync/resolution-jobs.ts:232-267 | A pass finishes exactly the jobs it was handed, each by its own facts |
| `JobLifecycle.RetirementClosesJob` | catalog/sync/engine.ts:393-403 | A sync leaves a job alone or completes it, and a row it retires has no processing job |
| `JobLifecycle.HistoriesKeepJobs` | catalog/sync/resolution-jobs.ts:137-296 | Every history of syncs, policies, windows, finished and abandoned passes and bootstraps keeps each job on schedule: due exactly while processing, complete exactly when without reasons |
| `JobLifecycle.WindowsAreBounded` | catalog/sync/resolution-jobs.ts:202-296 | A window sees at most two finished due passes and three attempts, is complete or dormant after two, and no retired offering has a processing job |
| `JobLifecycle.UnreachedJobsStayDue` | catalog/server/sync-runner.ts:242-249 | A pass that gives up leaves the jobs it did not reach as they were, due again for the next pass |
| `JobLifecycle.FirstDetectionStays` | catalog/sync/resolution-jobs.ts:202-229 | No job is dropped and no first-detected time moves, over any history |
| `JobSchedule.ScheduleIsKept` | catalog/sync/resolution-jobs.ts:137-296 | In every history each job is what its acts alone make of it: the window, the count of attempts, the last one, the first detection, and while something is open the status and the time it is next due |
| `JobSchedule.DormantExactly` | catalog/sync/resolution-jobs.ts:249-257 | A job with something open is dormant if and only if the last pass that read its row did so five minutes or more after its window was opened |
| `JobSchedule.OpenJobsAreDue` | catalog/sync/resolution-jobs.ts:202-267 | While something is open and the five minutes are not over, a job is processing, due one minute after its window was opened before the first finished pass, at once if a bootstrap found it, and at five minutes after a pass |
| `JobSchedule.PassesTakeWhatIsDue` | catalog/sync/resolution-jobs.ts:270-296 | A pass is handed exactly the jobs with something open, a window that is not over, and a due time that has come |
| `JobSchedule.ReasonsAreCurrent` | catalog/sync/resolution-jobs.ts:202-267 | After a full sync, and after the pass that took it, a job says what was last read of its row |
| `JobSchedule.BootstrapReadsReasons` | catalog/sync/resolution-jobs.ts:149-199 | A bootstrap brings waiting jobs up to date, finishes what has nothing open or no row, and leaves the rest |
| `Notifications.NotificationStore.InsertNotification` | catalog/server/model-notifications.ts:120-137 | A notification is inserted once; a second one of the same id changes nothing |
| `Notifications.NotificationStore.ReconcileEvents` | catalog/server/model-notifications.ts:146-157 | The cursor loop over events ends for any batch size and any ids, having inserted what one sweep would |
| `Notifications.NotificationStore.ReconcileRuns` | catalog/server/model-notifications.ts:159-185 | So does the loop over failed and quarantined runs |
| `Notifications.NotificationStore.ReconcileCatalogNotifications` | catalog/server/model-notifications.ts:146-186 | A whole reconcile ends and equals one sweep of all rows, whatever the batch size |
| `Notifications.PageIsNext` | catalog/server/model-notifications.ts:149-156 | The page after a cursor is the next rows, empty exactly at the end, and the cursor moves to its last row |
| `Notifications.ReconcileIsTheImage` | catalog/server/model-notifications.ts:146-186 | The inbox afterwards is the old one untouched plus exactly the image of all announcing events and failing runs |
| `Notifications.NewsOfEvent` | catalog/server/model-notifications.ts:89-118 | A new event is announced as the model joining, rejoining or going, with its own provider, model and time, if it is of those three kinds, and not at all if it is of another |
| `Notifications.NewsOfRun` | catalog/server/model-notifications.ts:159-185 | A new run is announced if and only if it failed or was quarantined, as a warning of its provider, or of no provider for the shared sources, at its finish or else its start |
| `Notifications.ReconcileTwiceIsOnce` | catalog/server/model-notifications.ts:139-145 | Reconciling again changes nothing, at any later time |
| `Notifications.ReconcilingOftenIsReconcilingOnce` | catalog/server/model-notifications.ts:139-186 | However often a growing ledger was reconciled on the way, the news at the end is that of one reconcile at the end |
| `Notifications.NotificationStore.MarkCatalogNotificationsRead` | catalog/server/model-notifications.ts:196-210 | Exactly the selected rows become read, keeping an earlier read time; the answer counts the selected rows |
| `Notifications.ReadMarksAreFinal` | catalog/server/model-notifications.ts:196-210 | Over any sequence of reconciles and mark-reads no notification is lost, and one that is read never changes again |
| `Notifications.MarkingAllReadsAll` | catalog/server/model-notifications.ts:199-203 | After marking a provider's notifications read without naming ids, none of them is unread |
| `Notifications.MarkedExactly` | catalog/server/model-notifications.ts:196-210 | Marking reads exactly the unread notifications asked for, by id or all, and of one provider if one is named |
| `EvaluationQueue.EvaluationRunner.Enqueue` | catalog/server/evaluation-runner.ts:126-152 | An offer that cannot be planned throws, a blocked or already pending one is refused; any other is queued at the answered position and starts the worker if none runs |
| `EvaluationQueue.EvaluationRunner.RequestStop` | catalog/server/evaluation-runner.ts:154-160 | A stop empties the queue and is remembered exactly when a job is current |
| `EvaluationQueue.EvaluationRunner.DrainLoop` | catalog/server/evaluation-runner.ts:162-209 | The worker takes the head of the queue, plans it again and starts, remembers or fails it, or leaves the loop, clearing the stop but still counted as running |
| `EvaluationQueue.EvaluationRunner.ReleaseWorker` | catalog/server/evaluation-runner.ts:145-149 | A worker that has left is released, and only then can another be started |
| `EvaluationQueue.EvaluationRunner.NextCall` | catalog/server/evaluation-runner.ts:211-267 | A job goes on to its next dimension, then to speed alone, then to its end; a stop ends it first |
| `EvaluationQueue.EvaluationRunner.ConcludeJob` | catalog/server/evaluation-runner.ts:258-267 | Recalculating ends the job with what came back short, or throws and leaves it to the catch |
| `EvaluationQueue.EvaluationRunner.CallReturned` | catalog/server/evaluation-runner.ts:219-255 | A result is added and the job goes on; after speed it ends without looking at the stop |
| `EvaluationQueue.EvaluationRunner.CallThrew` | catalog/server/evaluation-runner.ts:170-175 | A throw of the executor leaves the job to be remembered as failed when the worker resumes |
| `EvaluationQueue.EvaluationRunner.Resume` | catalog/server/evaluation-runner.ts:170-187 | The worker remembers a failure, honours a stop by clearing what was queued meanwhile, or goes on |
| `EvaluationQueue.EvaluationRunner.RememberJob` | catalog/server/evaluation-runner.ts:270-274 | The newest ten endings are kept, newest first, and no job is current |
| `EvaluationContract.InterleavingsKeepGood` | catalog/server/evaluation-runner.ts:126-274 | Every interleaving of calls and worker stretches, with throws of planning, measuring and recalculating, keeps worker, current job, queue and memory consistent |
| `EvaluationContract.EachJobIsInOnePlace` | catalog/server/evaluation-runner.ts:126-274 | Every accepted job is in exactly one of queued, in flight, failed before it started, remembered, or cleared by a stop |
| `EvaluationContract.IdleExcludesMeasuring` | catalog/server/app.ts:285 | The public state is idle only with no executor call in flight, a gone worker leaves no stop behind, and no offer is pending twice |
| `EvaluationContract.StopStartsNoCall` | catalog/server/evaluation-runner.ts:154-160 | From a stop on no executor call is started until the worker has left |
| `EvaluationContract.FirstInFirstOut` | catalog/server/evaluation-runner.ts:163-186 | Jobs that were not cleared end, run and wait in the order they were accepted |
| `EvaluationContract.StrandedExactly` | catalog/server/evaluation-runner.ts:134-187 | Accepted jobs are left to no worker if and only if one was accepted after its worker had left the loop and before it was released, no stop has dropped it, and no later job was accepted |
| `EvaluationContract.WaitingExactly` | catalog/server/evaluation-runner.ts:134-187 | Jobs wait behind a worker that has left exactly when one was accepted since, and neither a stop nor the release came after |
| `EvaluationContract.NextJobRescues` | catalog/server/evaluation-runner.ts:134-150 | The next accepted job starts a worker, which takes up the stranded one first |
| `EvaluationContract.AJobCanBeStranded` | catalog/server/evaluation-runner.ts:145-149 | A worker whose only job is finished leaves, a second job is accepted before it is released, and is stranded |
| `EvaluationCalls.RememberedAsDeserved` | catalog/server/evaluation-runner.ts:192-268 | Over every history a finished job had its calls return for exactly the dimensions of the plan it was taken up with, in order, and then for speed if and only if the plan misses it, and is short of exactly those that came back incomplete; a stopped or failed one had a beginning of that, a blocked one nothing |
| `EvaluationCalls.PendingCallIsTheNext` | catalog/server/evaluation-runner.ts:211-257 | The executor is never asked for anything but the next call of the plan in hand |
| `EvaluationCalls.EndsHaveCauses` | catalog/server/evaluation-runner.ts:162-190 | A job is remembered as stopped only while a stop is pending, and as failed only with the error that the planner, the executor or the recalculation threw |
| `EvaluationCalls.StopIsHonoured` | catalog/server/evaluation-runner.ts:154-187 | Over every history the runner says that it is stopping if and only if a stop was asked for while a job was in hand and the worker has not left since; until then it starts no call, and a stop leaves nothing queued |
| `EvaluationCalls.AcceptedExactly` | catalog/server/evaluation-runner.ts:126-132 | A request is accepted if and only if it can be planned, nothing blocks it, and no job waiting or in hand is for the same provider and model; otherwise the answer carries its reason |
| `EvaluationCalls.PositionIsPlace` | catalog/server/evaluation-runner.ts:134-138 | The position answered is the job's own place among the one in hand and those waiting |
| `EvaluationCalls.RecentIsNewest` | catalog/server/evaluation-runner.ts:270-274 | What is shown of the past is the last ten endings, newest first |
| `AutoEvaluation.Triage` | catalog/server/auto-evaluation.ts:211-236 | The triage loop yields the deduplicated candidates and, for every other offer, its first reason |
| `AutoEvaluation.TriagePartitions` | catalog/server/auto-evaluation.ts:211-236 | Every planned offer is once among the candidates or once among the skipped |
| `AutoEvaluation.OfferByOffer` | catalog/server/auto-evaluation.ts:198-236 | Each offer in turn is skipped as blocked, else as covered, else, if its identity was measured less than the cooldown ago, as cooling down, else, if an earlier offer worth measuring has its identity, as a duplicate, and is a candidate otherwise |
| `AutoEvaluation.CandidatesAreWorthIt` | catalog/server/auto-evaluation.ts:213-236 | Candidates are unblocked, cost something, are not cooling down, and are one per identity |
| `AutoEvaluation.SortCheapestFirst` | catalog/server/auto-evaluation.ts:238-241 | Sorting permutes the candidates and puts cheaper ones first, equals by offer |
| `AutoEvaluation.Buy` | catalog/server/auto-evaluation.ts:243-260 | The buying loop commits, skips over budget, and skips what the queue refuses, in order |
| `AutoEvaluation.CandidateByCandidate` | catalog/server/auto-evaluation.ts:243-260 | Each candidate in turn is over budget if it no longer fits, bought if the queue accepts it, and otherwise skipped with the queue's own reason |
| `AutoEvaluation.BuyingPartitions` | catalog/server/auto-evaluation.ts:243-260 | Every candidate is once bought or once skipped, whatever the queue answers |
| `AutoEvaluation.BudgetHolds` | catalog/server/auto-evaluation.ts:244-259 | What is committed is the cost of what was bought and never exceeds the ceiling |
| `AutoEvaluation.CheapestSelection` | catalog/server/auto-evaluation.ts:238-259 | No selection of m candidates costs less than the first m in sorted order |
| `AutoEvaluation.GreedyIsOptimal` | catalog/server/auto-evaluation.ts:243-259 | No affordable selection is larger than the longest affordable sorted prefix |
| `AutoEvaluation.AutoEvaluate` | catalog/server/auto-evaluation.ts:181-260 | The sweep partitions its offers, buys no identity twice, keeps the ceiling, and buys the largest affordable set when the queue accepts everything; disabled it does nothing |
| `SyncLock.SyncRunner.Run` | catalog/server/sync-runner.ts:133-142 | A full sync takes the free lock or is refused, and a refusal during a pass is noted |
| `SyncLock.SyncRunner.EndRun` | catalog/server/sync-runner.ts:207-211 | A full sync that ends, in whatever way, releases the lock and leaves a noted debt as it is |
| `SyncLock.SyncRunner.LookForPass` | catalog/server/sync-runner.ts:215-231 | A pass waits, gives up at its deadline, finds nothing due, or takes the lock |
| `SyncLock.SyncRunner.EndPass` | catalog/server/sync-runner.ts:264-272 | A finished pass releases the lock and hands a noted full sync to a microtask |
| `SyncLock.SyncRunner.RunMicrotask` | catalog/server/sync-runner.ts:270 | The microtask calls the full sync as any caller would |
| `SyncLock.LockIsExclusiveAndDebtIsKept` | catalog/server/sync-runner.ts:133-273 | Full syncs and passes never overlap, a noted full sync means a running pass, and one refused during a pass stays noted or handed over until a full sync starts |
| `SyncLock.DebtIsPaidByTheNextMicrotask` | catalog/server/sync-runner.ts:264-272 | Once the lock is free an owed full sync has a microtask waiting, and that one starts it |
| `SyncLock.LateMicrotaskLosesNothing` | catalog/server/sync-runner.ts:133-137 | A microtask that finds the lock taken finds the debt paid or notes it again |
| `SyncLock.LookExactly` | catalog/server/sync-runner.ts:215-231 | A waiting pass starts exactly on a free lock with something due, and gives up exactly on a taken one at its deadline |
| `SyncLock.ShownSinceTaken` | catalog/server/sync-runner.ts:133-273 | Over every interleaving the time shown is that at which the lock was taken, as long as it is held, and none after |
| `SyncLock.CallsAreMarked` | catalog/server/sync-runner.ts:133-142 | A full sync called on a free lock starts, and is refused for whatever holds a taken one |
| `RateLimiter.FixedWindowLimiter.Allow` | internal/httpapi/auth.go:275-293 | One call keeps the attempts inside the window, in order, and adds this one exactly when fewer than the maximum are left |
| `RateLimiter.FixedWindowLimiter.Compact` | internal/httpapi/auth.go:279-286 | The in-place compaction keeps exactly the attempts after the cutoff, in order, while reading the array it writes |
| `RateLimiter.SliceIsTheWindow` | internal/httpapi/auth.go:272-293 | While no attempt that one reading put out of the window is inside a later one's, the slice is the admitted attempts of the last window |
| `RateLimiter.SliceIsTheWindowExactly` | internal/httpapi/auth.go:272-293 | For every maximum and after every call the slice is the admitted attempts of the window if and only if the clock has that property |
| `RateLimiter.NoWindowOverflows` | internal/httpapi/auth.go:272-293 | With such a clock no interval of one window's length, anywhere in a run, holds more than the maximum of admitted attempts, and the slice stays as short |
| `RateLimiter.NondecreasingStaysOut` | internal/httpapi/auth.go:272-293 | A clock that never runs back has that property |
| `RateLimiter.RefusalIsExact` | internal/httpapi/auth.go:288-292 | A call is refused exactly when its own window already holds the maximum of admitted attempts |
| `RateLimiter.ClockMustNotRunBack` | internal/httpapi/auth.go:279-286 | With a reading past the window and one back inside it, two allowed attempts per window become three |
| `AccountMaintenance.AccountMaintenanceTick.SweepTarget` | internal/httpapi/account_maintenance_tick.go:76-116 | One target: an expired one is only reconciled; any other is probed when due, discovered when healthy and due, and refreshed when due, stamped before each attempt |
| `AccountMaintenance.AccountMaintenanceTick.Run` | internal/httpapi/account_maintenance_tick.go:70-121 | A tick sweeps every listed target in turn at one clock reading, then purges; a failed lister does nothing |
| `AccountMaintenance.CadenceIsKept` | internal/httpapi/account_maintenance_tick.go:100-115 | Over any run of ticks, whatever the clock reads, two quota attempts, two discoveries or two reconciliations of one account are at least fifteen minutes apart |
| `AccountMaintenance.TargetIsSwept` | internal/httpapi/account_maintenance_tick.go:76-116 | One target leaves exactly its owed calls in the log, in order and at the sweep's one clock reading, a probe after 300 seconds and the others after 900, and moves exactly its own stamps; an expired one is reconciled alone and its quota stamped |
| `AccountMaintenance.TickIsSwept` | internal/httpapi/account_maintenance_tick.go:65-121 | A tick sweeps the listed targets one after another and then purges; without a listing it does nothing |
| `AccountMaintenance.QuarterOfAnHourApart` | internal/httpapi/account_maintenance_tick.go:100-115 | Any two discoveries, reconciliations or quota syncs of one account are 900 seconds apart, over any run |
| `AccountMaintenance.QuotaStaysFresh` | internal/httpapi/account_maintenance_tick.go:109-115 | After every tick that lists an account, whatever its past, its last quota sync is less than fifteen minutes old unless the stamp in force was set while it was expired |
| `AccountMaintenance.FreshExactly` | internal/httpapi/account_maintenance_tick.go:83-115 | While a stamp is in force, the account has been synced within fifteen minutes if and only if that stamp was not set while it was expired; the stamp follows from the listings and the clock alone |
| `AccountMaintenance.NeverExpiredStampsWell` | internal/httpapi/account_maintenance_tick.go:76-116 | An account never listed as expired never has such a stamp |
| `AccountMaintenance.AccountsAreIndependent` | internal/httpapi/account_maintenance_tick.go:65-69 | Over any run, one account is called exactly as if it were the only one listed |
| `AccountMaintenance.ExpiredIsNotCalled` | internal/httpapi/account_maintenance_tick.go:78-91 | An account listed as expired gets no probe, no discovery and no quota call in that tick |
| `AccountMaintenance.RecoveryWaitsForTheStamp` | internal/httpapi/account_maintenance_tick.go:83-91 | Whatever came before and whatever is listed after, an account found expired when due is not synced for fifteen minutes, however soon it recovers |
| `SseStreams.RunOpenAISSE` | internal/execution/openaicompat.go:419-522 | The select loop sends and closes exactly as the stream machine over the OpenAI wire, for any sequence of events and any number of accepted sends |
| `SseStreams.RunOpenAIChatOAuthSSE` | internal/execution/nativeoauth.go:468-542 | The second OpenAI loop does the same over its own wire |
| `SseStreams.RunGeminiSSE` | internal/execution/geminiwire.go:252-349 | The Gemini loop follows the machine over a wire whose clean end is completion |
| `SseStreams.RunAnthropicSSE` | internal/execution/anthropicwire.go:289-360 | The Anthropic loop follows it over its typed events |
| `SseStreams.SendFrame` | internal/execution/geminiwire.go:252-349 | A frame's delta is sent before its end, and a refused send closes the stream |
| `SseStreams.ClosedStaysClosed` | internal/execution/openaicompat.go:419-522 | Nothing is sent or counted after the channel is closed |
| `SseContract.EveryStreamEndsOnce` | internal/execution/openaicompat.go:419-522 | Any runner's output is non-empty deltas and at most one terminal chunk, last, which only a closed stream has; a stream closed without cancellation has exactly one |
| `SseContract.DoneIsComplete` | internal/execution/openaicompat.go:419-522 | A stream that says done delivered the content of every payload up to its last event, in order, and that event completes it on its wire |
| `SseBodies.AnthropicPayload` | internal/execution/anthropicwire.go:256-283 | On the Anthropic wire a malformed payload ends the stream as undecodable, an error event with the event's own kind or a general one, a message stop as done; a text delta delivers its text, and anything else nothing |
| `SseBodies.AnthropicTellsAll` | internal/execution/anthropicwire.go:256-360 | Over any ticks an Anthropic stream that says done delivered exactly the texts of the text deltas it read, in order, and read neither an error event nor a malformed payload |
| `SseBodies.GeminiPayload` | internal/execution/geminiwire.go:226-245 | On the Gemini wire the first candidate's texts are delivered in one piece, a finish reason other than unspecified ends the stream as done after them, and a malformed payload ends it as undecodable |
| `SseBodies.GeminiTellsAll` | internal/execution/geminiwire.go:226-349 | Over any ticks a Gemini stream that says done delivered every text it read, in order, and read nothing malformed |
| `SseBodies.OpenAIPayload` | internal/execution/openaicompat.go:490-520 | On an OpenAI wire the marker ends the stream as done, a malformed payload as undecodable, and the first choice's text is delivered |
| `SseBodies.EndsOfLines` | internal/execution/openaicompat.go:462-473 | The end of the lines ends an OpenAI stream as truncated, and a Gemini or Anthropic one as done |
| `SseBodies.OtherTicks` | internal/execution/openaicompat.go:441-492 | On every wire either timer, a read error and a finished context end a stream each in its own way, the first timer only before the first byte, and a line that is no data says nothing |
| `SseBodies.FirstByteExactly` | internal/execution/openaicompat.go:482-488 | The first byte has been seen exactly when some line that was read is not empty |
| `SseBodies.RoomCuts` | internal/execution/openaicompat.go:513-519 | Only the sends that succeed before the context is done are seen, and one that does not closes the stream |
| `SseContract.OpenAIRunnersAgree` | internal/execution/nativeoauth.go:468-542 | The two OpenAI runners send the same chunks, close alike and time out alike, up to the wording of a decoding error |
| `SseContract.OpenAIDoneMeansMarker` | internal/execution/openaicompat.go:419-522 | On an OpenAI wire done was said by the provider: the last line read was the marker |
| `SseContract.UnmarkedDoneExactly` | internal/execution/anthropicwire.go:289-360 | A stream says done without a finishing payload if and only if its wire takes the end of the lines for the end of the answer, as Gemini's and Anthropic's do, and the line channel was just closed, at the end of the body or by a scanner whose context was finished |
| `SseContract.CutOffLooksComplete` | internal/execution/anthropicwire.go:289-360 | On such a wire a body cut off after any events is delivered as a complete answer of what was read |
| `SseContract.AnthropicEndOfBodyIsDone` | internal/execution/anthropicwire.go:289-360 | Anthropic has a marker, and yet a body cut off after a delta ends as done |
| `SseContract.GeminiEndOfBodyIsDone` | internal/execution/geminiwire.go:252-349 | Gemini has no marker: a body cut off after a delta ends as done |
| `SseScanner.ScanBody` | internal/execution/inflight.go:110-131 | The scanner sends each line and at last a read error, until a send gives way to a finished context |
| `SseScanner.UnmarkedDoneDeliversAllSent` | internal/execution/inflight.go:110-131 | A stream that says done unmarked delivered every line its scanner sent, and unless its context was finished that is the whole body |
| `SseScanner.CanSayDoneExactly` | internal/execution/inflight.go:110-131 | Having been sent any part of a body a stream can say done unmarked if and only if its wire takes the end of the lines for the end of the answer and no line or error sent would have ended it |
| `SseScanner.CanSayDoneUncancelledExactly` | internal/execution/inflight.go:110-131 | With its context alive it can if and only if, besides, the whole body was sent: done on a part means a cancelled stream |
| `SseContract.MeasureBenchmarkStream` | internal/httpapi/benchmark_stream.go:240-276 | The consumer fails on the first error; otherwise it is OK exactly when content and done were received, with first-content latency and chunk rate |
| `SseContract.OkSampleMeansCompleteStream` | internal/httpapi/benchmark_stream.go:240-276 | An OK sample from either OpenAI runner, at whatever times, means a non-empty, error-free stream ended by the marker and delivered whole |
| `SseBodies.RateExactly` | internal/httpapi/benchmark_stream.go:268-273 | The rate times the milliseconds between the first and the last content is a thousand for every content chunk but one, and nought if there is no such time |
| `SseBodies.ContentIsTimed` | internal/httpapi/benchmark_stream.go:246-258 | Content is timed by the arrival of each non-empty delta, in order |
| `SseContract.InflightRegistry.Register` | internal/execution/inflight.go:56-63 | A stream is registered under a non-empty id, replacing an earlier one of that id |
| `SseContract.InflightRegistry.Unregister` | internal/execution/inflight.go:66-73 | A non-empty id is forgotten; nothing is called |
| `SseContract.InflightRegistry.Cancel` | internal/execution/inflight.go:75-91 | A registered stream is cancelled and forgotten in one step; an unknown id is reported |
| `SseContract.NoStreamIsCancelledTwice` | internal/execution/inflight.go:75-91 | Whatever ids are reused and however often they are cancelled, no registered function is called twice |
| `SseContract.CancelReachesTheLastExactly` | internal/execution/inflight.go:56-91 | A cancel reaches the stream last registered under its id if and only if nothing has cancelled or unregistered that id since, and reaches no other |
| `SseContract.CancelCallsTheLast` | internal/execution/inflight.go:75-91 | What a cancel calls is exactly the function last registered under its id, or none if something has named the id since |
| `SseContract.OnlyCancelCalls` | internal/execution/inflight.go:56-73 | Registering and unregistering call nothing |
| `SseContract.NoIdIsNoStream` | internal/execution/inflight.go:56-91 | A stream without an id is never registered, and naming none cancels none |
| `SseContract.EndingHidesTheNextStream` | internal/execution/inflight.go:66-73 | When a stream ends whose id a second one has taken over, the second can no longer be cancelled |
| `Identity.NormalizingTwiceExactly` | catalog/sync/identity.ts:56-63 | Normalising twice is normalising once if and only if the id has no second vendor and, after one vendor, one plan variant and one cloud suffix are dropped, does not end in cloud behind a separator |
| `Identity.NormalizingIsNotIdempotent` | catalog/sync/identity.ts:56-63 | Normalising a/b/c twice is not normalising it once |
| `Identity.VendorDroppedTwiceExactly` | catalog/sync/identity.ts:118-130 | The key the resolver looks for, which drops the vendor before normalising drops it again, is the id's own key if and only if no second vendor is left |
| `IdentityRules.SpellingsShareAKey` | catalog/sync/identity.ts:32-63 | However a name is written, with any vendor in front, any cloud mark and then any plan mark behind, in any ASCII letters and with any separators, it has one key, which keeps every other character |
| `IdentityRules.VendorIsDropped` | catalog/sync/identity.ts:118 | What is dropped in front of an id is its vendor, everything to the first slash |
| `Identity.ExactFindsItsOwnExactly` | catalog/sync/identity.ts:74-130 | Asked for a model's very id, the exact rule matches that model if and only if the id has no second vendor or the model's slug has the key looked for |
| `Identity.ExactMissesItsOwn` | catalog/sync/identity.ts:74-130 | Asked for a/b/c, the rule misses a model of that id without a slug, and finds one whose slug is c |
| `IdentityRules.ExactMatches` | catalog/sync/identity.ts:74-131 | The exact rule matches a model if and only if the key of its id or of its slug is the key looked for |
| `IdentityRules.FreeMatches` | catalog/sync/identity.ts:133-138 | The free rule matches a model if and only if the id is a base of one line followed by -free and the model is known by the base's key |
| `IdentityRules.SizedExactly` | catalog/sync/identity.ts:140-144 | An id is taken apart into a stem and a size if and only if it is a non-empty stem of one line, a colon or hyphen, and digits, perhaps a point and digits, and a unit |
| `IdentityRules.RuleDecides` | catalog/sync/identity.ts:91-102 | A rule with a match decides by its matches alone: for the first of them if they all have one identity, and as ambiguous otherwise |
| `IdentityRules.FirstMatchDecides` | catalog/sync/identity.ts:129-155 | The first of the exact, free and sized rules with a match decides, and without any nothing is bound |
| `IdentityRules.ReviewedFirst` | catalog/sync/identity.ts:120-127 | A reviewed mapping of the raw id, or else of the id without vendor, decides before any rule: it binds a listed model or declines |
| `Identity.NormalizedIsClean` | catalog/sync/identity.ts:56-63 | A normalised id has no ASCII capital, point, underscore or colon |
| `Identity.TailKeepsSlashes` | catalog/sync/identity.ts:60-62 | Stripping plan and cloud suffixes and unifying separators loses no slash |
| `Identity.BuildIndex` | catalog/sync/identity.ts:74-85 | For every key the index lists what a scan of all models would: the first model of each id filed under it by id or slug |
| `Identity.FileModel` | catalog/sync/identity.ts:76-82 | A model is filed once under each key of its own |
| `Identity.DistinctIdentities` | catalog/sync/identity.ts:91-95 | The first hit of each identity is kept, in order |
| `Identity.Decide` | catalog/sync/identity.ts:97-102 | No hits decide nothing, one identity resolves, more are ambiguous |
| `Identity.ResolveIdentity` | catalog/sync/identity.ts:113-156 | Overlay, exact, free-variant and sized rules are tried in order through the index, and the first with hits decides |
| `Evidence.FirstsKeepKeys` | catalog/sync/identity.ts:91-95 | Keeping firsts keeps every identity exactly once |
| `Evidence.ScanningSees` | catalog/sync/identity.ts:74-85 | Listing each id once loses no identity |
| `Identity.FirstEvidenceDecides` | catalog/sync/identity.ts:104-156 | The first rule with any matching model decides by it alone: resolved means one identity behind all its matches and a target among them, ambiguous means several, each listed once, unresolved means no rule matched |
| `Identity.ResolutionIsOrderFree` | catalog/sync/identity.ts:104-156 | Permuting or repeating the upstream models changes neither the status nor the identities behind it |
| `Identity.TokensAreDelimited` | catalog/sync/identity.ts:146-150 | The size test holds exactly when the size is one of the pieces between hyphens |
| `Identity.ExactSizeIsAWholeToken` | catalog/sync/identity.ts:140-153 | A sized id binds only to a model one of whose own hyphen-delimited tokens is that size |
| `Identity.SizedRuleExactly` | catalog/sync/identity.ts:140-153 | The sized rule matches a model if and only if the size has no point, is one of the model's tokens, and the model's name without hyphens starts with the stem's |
| `Identity.DecimalSizesNeverBind` | catalog/sync/identity.ts:144-150 | A decimal size matches no normalised id |
| `SqlBoundary.HasMultipleStatements` | catalog/server/database-browser.ts:181-217 | The index-jumping lexer answers yes exactly when a block comment is unterminated or, comments and literals erased, some semicolon is followed by a character that is neither white space nor a semicolon |
| `SqlBoundary.IndexOf` | catalog/server/database-browser.ts:199-204 | The search yields the first occurrence at or after a position, or none |
| `SqlBoundary.SkipLineComment` | catalog/server/database-browser.ts:198-202 | A line comment ends past its newline or at the end of the text |
| `SqlBoundary.SkipBlockComment` | catalog/server/database-browser.ts:203-208 | A block comment ends past its first closing mark, or not at all |
| `SqlBoundary.ErasingUndoesWriting` | catalog/server/database-browser.ts:176-217 | Of SQL written from plain characters, quoted literals with doubled quotes, bracketed names and comments, erasing leaves exactly the plain characters |
| `SqlBoundary.MultipleAsWritten` | catalog/server/database-browser.ts:181-217 | Of SQL so written, there is more than one statement if and only if its plain characters go on, with neither white space nor a semicolon, after a semicolon |
| `SqlBoundary.OpenCommentIsMultiple` | catalog/server/database-browser.ts:203-208 | A block comment that is opened and not closed counts as more than one statement, whatever comes before it |
| `SqlBoundary.QuotesExactly` | catalog/server/database-browser.ts:209-212 | Quotation mark, apostrophe, backtick and bracket open a literal, and no other character does |
| `SqlBoundary.FirstKeyword` | catalog/server/database-browser.ts:155-174 | The keyword is the upper-cased run of letters after leading white space and comments, and none after an unterminated comment |
| `SqlBoundary.KeywordStartsTheStatement` | catalog/server/database-browser.ts:155-174 | The keyword checked is a prefix of the statement the boundary lexer sees, so a comment cannot hide another |
| `SqlBoundary.KeywordAsWritten` | catalog/server/database-browser.ts:155-174 | Behind any white space and comments the keyword is the whole first word of letters in capitals, and none if there is no such word |
| `Sorting.Sort` | internal/httpapi/benchmark_engine.go:200-225 | The in-place sort leaves the ordered permutation of the values |
| `Sorting.SortingPermutes` | internal/httpapi/benchmark_engine.go:200-225 | Sorting loses and invents no value |
| `Sorting.SortingOrders` | internal/httpapi/benchmark_engine.go:200-225 | Sorting leaves the values in the order of any total comparison |
| `BenchmarkRating.SortingPreservesDominance` | internal/httpapi/benchmark_engine.go:200-225 | If every value is at most its counterpart, so is every value after sorting both lists |
| `BenchmarkRating.MedianInt64` | internal/httpapi/benchmark_engine.go:200-213 | The median of whole milliseconds: the middle one, or the mean of the middle two rounded half away from zero |
| `BenchmarkRating.MedianFloat64` | internal/httpapi/benchmark_engine.go:217-225 | The median of rates: the middle one, or the mean of the middle two |
| `BenchmarkRating.MediansSplitTheValues` | internal/httpapi/benchmark_engine.go:190-225 | At least half of the values are at most their median, and for any bound below it no more than half are, for whole milliseconds and for rates |
| `BenchmarkRating.MediansAreOrderFree` | internal/httpapi/benchmark_engine.go:190-225 | Permuting the samples changes neither median |
| `BenchmarkRating.MediansAreMonotone` | internal/httpapi/benchmark_engine.go:190-225 | Pointwise larger samples have no smaller medians, rounding included |
| `BenchmarkRating.RunBenchmarkSuite` | internal/httpapi/benchmark_engine.go:141-175 | The suite loop counts successes and reports medians and rating of exactly the successful samples, in any mix of errors and refusals |
| `BenchmarkRating.RatedExactlyWhenAllSucceed` | internal/httpapi/benchmark_engine.go:171-174 | A rating is given exactly when something was asked and every request succeeded |
| `BenchmarkRating.RatingExactly` | internal/httpapi/benchmark_engine.go:184-188 | Half of a rating is for speed, all of it from 80 tokens a second on, and half for latency, none of it from 2000 milliseconds on, each in proportion below |
| `BenchmarkRating.MillisecondsExactly` | internal/httpapi/benchmark_engine.go:157 | A latency is counted in whole milliseconds, towards zero |
| `BenchmarkRating.MedianOfWhole` | internal/httpapi/benchmark_engine.go:200-213 | The median of an even number of latencies is half the sum of the middle two in order, a half rounded away from zero |
| `BenchmarkRating.MedianOfRates` | internal/httpapi/benchmark_engine.go:217-225 | The median of an even number of rates is half the sum of the middle two in order |
| `BenchmarkRating.SampleBySample` | internal/httpapi/benchmark_engine.go:151-159 | Each successful sample counts with its latency and its rate, and no other does |
| `BenchmarkRating.AggregatedExactly` | internal/httpapi/benchmark_engine.go:141-175 | The aggregate counts requests and successes, and its latency and rate split the successful samples in halves; a rating is of those two |
| `BenchmarkRating.FasterIsNotRatedLower` | internal/httpapi/benchmark_engine.go:184-188 | A suite every sample of which is at least as fast as its counterpart is not rated lower |
| `BenchmarkRating.RatingIsAScore` | internal/httpapi/benchmark_engine.go:177-188 | The rating of non-negative samples lies between nought and one |
| `ImageParts.ParsedUrlRebuilds` | internal/httpapi/chatcompletions.go:585-596 | A data URL taken apart is rebuilt byte for byte |
| `ImageParts.BuiltUrlParsesBackExactly` | internal/httpapi/chatcompletions.go:585-596 | Parsing a built data URL returns its parts if and only if the media type does not contain the base64 mark |
| `ImageParts.InlineExactly` | internal/httpapi/chatcompletions.go:585-596 | A URL can be sent inline if and only if it is data:, a non-empty media type without the mark, ;base64, and non-empty data |
| `ImageParts.DataUrlExactly` | internal/httpapi/chatcompletions.go:585-596 | A URL is taken apart if and only if it is data:, anything, ;base64, and anything |
| `ImageParts.ParseMessageContent` | internal/httpapi/chatcompletions.go:553-583 | Plain text, parts, absent and malformed content are told apart; texts and images with a URL become parts in order, anything else is skipped |
| `ImageParts.PartByPart` | internal/httpapi/chatcompletions.go:564-581 | Of a client's array texts and images with a URL are said, in order, and nothing else |
| `ImageParts.BuildContent` | internal/httpapi/chatcompletions.go:495-549 | A request is normalised message by message, or refused if any content is malformed |
| `ImageParts.ChatContentFor` | internal/execution/openaicompat.go:208-230 | The parts are mapped one to one, or the message is refused if any cannot be expressed |
| `ImageParts.InlinePartsFor` | internal/execution/geminiwire.go:159-182 | So they are inline, where an image needs data and media type |
| `ImageParts.PartsSurvive` | internal/execution/openaicompat.go:232-244 | Parts reach a wire as they were sent, byte for byte and in order, exactly when all of them are sendable |
| `ImageParts.UrlComesFirst` | internal/execution/openaicompat.go:235-244 | An image with a URL of its own goes by it whatever data it has besides, and else by the data URL of its data |
| `ImageParts.SendableExactly` | internal/execution/openaicompat.go:232-244 | Texts can always be sent; an image inline only as a whole data URL, and by URL unless it is empty or a data URL that is not whole |
| `ImageParts.ClientToOpenAI` | internal/execution/openaicompat.go:194-204 | A client's request is built for OpenAI exactly when well-formed and every image is neither an empty URL nor a data URL missing a half, and then every text and URL is the client's own |
| `ImageParts.BuildGeminiRequest` | internal/execution/geminiwire.go:116-154 | System parts and turns are separated in order; a tool choice, a response format or an inexpressible part of any message refuses the request |
| `ImageParts.ClientToGemini` | internal/execution/geminiwire.go:116-182 | For Gemini the request is built exactly when it is well-formed, asks for no tool choice or response format, and every image of every message is a whole data URL; then the emitted halves rebuild it |
| `ImageParts.GeminiSpeakers` | internal/execution/geminiwire.go:125-190 | On the Gemini wire each turn of a user is a user's, each other turn the model's, in order |
| `ImageParts.SystemIsApart` | internal/execution/geminiwire.go:125-136 | Message by message, one with the system role adds what it said to the system part, and any other adds a turn |
| `ImageParts.BuildAnthropicRequest` | internal/execution/anthropicwire.go:84-104 | System texts are joined, turns are built in order; a tool choice, a response format or an inexpressible part of a turn refuses the request, and no part of a system message does |
| `ImageParts.ClientToAnthropic` | internal/execution/anthropicwire.go:84-171 | For Anthropic the same holds of every message but the system ones, whose texts alone are joined and carried |
| `ImageParts.AnthropicSpeakers` | internal/execution/anthropicwire.go:93-147 | On the Anthropic wire each turn of the assistant is the assistant's, each other turn a user's, in order |
| `ImageParts.JoinedByBlankLines` | internal/execution/anthropicwire.go:92-104 | System texts are joined with a blank line between each two |
| `ImageParts.AnthropicCarriesAllImagesExactly` | internal/execution/anthropicwire.go:84-138 | A built request carries every image the client sent if and only if no system message holds one |
| `ImageParts.AnthropicSkipsRefusalsExactly` | internal/execution/anthropicwire.go:125-138 | A request that is built has parts the builder of turns would refuse if and only if some system message holds an image that is not a whole data URL |
| `ImageParts.SystemImageVanishes` | internal/execution/anthropicwire.go:125-138 | Any image put at the end of any system message is accepted and leaves the text that is sent as it was |
| `ImageParts.SystemMessagesLoseTheirImages` | internal/execution/anthropicwire.go:125-138 | Of a system message the Anthropic wire carries the text alone |
| `ImageParts.TextsAlone` | internal/execution/anthropicwire.go:127-138 | Part by part, a system message leaves the texts of its text parts, in order, and of any other part nothing, not even a text it has |

## Left out

- Databases, HTTP, timers, SQLite's authorizer, JSON text and regular-expression engines: a transaction is one step, a table a map, a query its result, decoded JSON a parameter, each regular expression a function on characters.
- Columns no branch reads: the providers table, display names, enrichment-owned specs, HTTP statuses and error texts of runs.
- SyncEngine.Catalog.SyncProvider: takes one finishing time for a run and does not model the text form of published values; two values are the same exactly when their texts are. The gate compares the exact quotient of absent and stored rows with the ratio, not its floating-point rounding.
- Identity.NormalizingTwiceExactly: lowercases ASCII letters only; other scripts' case mappings are not modelled.
- SqlBoundary.HasMultipleStatements: works on Unicode characters rather than UTF-16 units; no character it tests for lies outside the basic plane.
- Scoring, enrichment and evaluation planning: plans, spec lookups and executor results are arbitrary inputs.
- EvaluationQueue.EvaluationRunner.NextCall: does not model progress counters, timestamps or the score values of results, which decide nothing.
- AutoEvaluation.AutoEvaluate: sorts a copy, and takes the queue's answers as a function of the buying order, and the locale's comparison of offers as a rank.
- SyncLock.SyncRunner.LookForPass: the length of the waits between looks is arbitrary.
- SyncRunner's bodies between taking and releasing the lock, and the choice of newly added offers for evaluation.
- SseStreams.RunOpenAISSE: the timers are ticks that may come at any moment, so their durations are not modelled.
- SseScanner.ScanBody: the lines a body yields and the error its reads end with are a parameter; the channel's buffer bounds how far the scanner runs ahead and is not modelled.
- Classes of change in `changes.ts` other than the three that are announced, and the change feed's reads: the projection to notifications does not depend on them.
- Notifications.NotificationStore.MarkCatalogNotificationsRead: a provider filter of the empty string stands for none; listing and counting are not modelled.
- The wording of notification titles beyond the names filled in, and of policy and engine reasons.
- `publicState`, `toJob`, `loadResolution` and the parsers of configuration values: each is settled by reading one branch.
- AccountMaintenance.AccountMaintenanceTick.Run: what the closures do, and persisting the health stamp, which arrives with each listing.
- RateLimiter.FixedWindowLimiter.Allow: the mutex; a call is one step. Times are unbounded integers, without 64-bit overflow.
- BenchmarkRating.RunBenchmarkSuite: rates are reals, so floating-point rounding is not modelled; the library sort is stood for by an insertion sort, which yields an ordered permutation as any sort does.
- BenchmarkRating.RatingIsAScore: asks for non-negative samples, which is what the stream consumer measures with a clock that does not run back.
- ImageParts.BuildGeminiRequest: tools, token limits and the model name are not modelled.
