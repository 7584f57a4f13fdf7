# Verification model of the measurement platform

A Dafny 4.11 model of the platform's hard core, with proofs. The platform's promise is that delivery which may
repeat, stall or crash still counts once; most of the model is about that promise over whole runs.
`dafny verify dfyconfig.toml` checks everything.

Protocols are state machines: a `State`, an `Action` for every point at which something else may happen, a total
`Step` (an action that is not enabled changes nothing) and theorems over every sequence of actions. Code that
updates objects in place is a class or a loop whose contract is the function the state machine uses.

| file | what it models |
|---|---|
| `Buffer.dfy` | the tracker's bounded shipping buffer |
| `Pipeline.dfy`, `PipelineRuns.dfy`, `PipelineTheorems.dfy`, `Shipments.dfy`, `Consumer.dfy` | marks, buffer, stream, consumer group, writer and dead letters as one protocol; the window and the consumer as classes |
| `Engine.dfy`, `Candidates.dfy`, `Store.dfy`, `InstallFlow.dfy` | last-click decision, candidate loading, superseding store under overlapping transactions, and the order in which installs reach the postback sender |
| `Rollups.dfy`, `RollupTotals.dfy` | hourly recomputation by arrival, grouped by occurrence, and what a bucket's numbers are |
| `Postbacks.dfy` | claim, send, record, remember and retry |
| `QueryString.dfy`, `Referrer.dfy`, `ReferrerReads.dfy` | percent-encoding, query strings, the Play referrer printed and parsed; accepted destinations |
| `SdkQueue.dfy` | the SDK's queue, alone and interleaved with storage and crashes |
| `Consent.dfy`, `ConsentRuns.dfy` | the consent gate on one batch, and its records under overlapping recordings |
| `Sessions.dfy`, `SessionRaces.dfy` | sessions of a device, one event after another and with their commands interleaved |
| `LinkCache.dfy`, `LinkReloads.dfy` | the link cache, with reloads as one step and as a query and a later swap |
| `RateLimit.dfy` | the token bucket |
| `Skan.dfy`, `Uuid7.dfy` | the signed postback string; UUID version 7 |

Database transactions and single Redis commands are atomic steps. Clocks, random draws, the answers of partners and
servers, and which rows a database returns when its query leaves a choice are parameters.

## What the code does not do

Some properties the code reads as promising are false of it. Each has a run or an input that shows it and, where
there is a condition, the exact one.

- After shedding, the edge un-marks the first events of the new batch, not the ones shed: `PipelineTheorems.UnmarksWhatItShedIff`.
- Marks are on the text of an event id, rows on the UUID, so two spellings count twice: `PipelineTheorems.TwoSpellingsCountTwice`.
- A failed flush that finds the queue refilled loses its newest entries uncounted: `Buffer.UncountedLossIff`.
- Overlapping records of an install can drop the better evidence: a first record that loses the unique index is not compared again, and an upgrade whose row was superseded meanwhile fails its foreign key and is not retried: `Store.FinishHonoursEvidenceIff`.
- `lookup` may find a superseded row after a late cache write: `InstallFlow.LookupIsCurrentIff`. A device whose id begins with `user:` may be given another install's row: `InstallFlow.AliasReadsAnotherInstall`.
- The reason given for an organic decision speaks of all clicks but sees only the loaded ones, so it always says that none were recorded: `Candidates.ReasonsAgreeIff`.
- A trailing rollup pass can overwrite an exact bucket that holds an event from ahead of its arrival. A pass keeps an exact bucket exact only if it starts after the bucket's hour or the bucket's rows all arrived on one side of its start: `Rollups.PassKeepsExactIff`, over runs `Rollups.RightIff` and `Rollups.StaysExactIff`.
- The rollup documentation says a device offline for a week is bucketed at its occurrence times; the edge replaces any occurrence time more than 24 hours off by the arrival time: `Rollups.ClampKeepsTheClock`. The model follows the edge.
- Retries ignore the adapter's reading of the response: `Postbacks.RetryIgnoresAdapterIff`.
- A process that stops leaves its delivery in flight for good: `Postbacks.StoppedIsOrphaned`.
- A delivery put back by hand can be sent more than five times, and one that was refused has no remembered request, so it goes by its rule as it reads by then: `Postbacks.AtMostFiveSendsOneAtATime`, `Postbacks.ResendsRepeatTheFirstIff`.
- An event tracked while the SDK queue is still loading can vanish, or make the stored ones vanish: `SdkQueue.CarelessPushLoses`, `SdkQueue.PushOverwritesStorage`.
- Enabling an app does not bring back its registered destinations: `LinkCache.DestinationsExactIff`.
- A version 4 postback string does not tell an app id from a domain: `Skan.SourcesReadAlikeIff`.
- A refusal lapses with its cached record in permissive mode, and recording one through the API drops that record: `ConsentRuns.RefusedIff`.
- Recording consent reads the record and writes it back, so a recording that read earlier can undo a refusal, or bring back a record dropped meanwhile: `ConsentRuns.OverlapLosesARefusal`, `ConsentRuns.OverlapRevivesAGrant`. Exactly which word is known is `ConsentRuns.KnownIff`.
- A reload of a link that lands after a later one can bring a disabled link back until the next resync: `LinkReloads.OvertakenReloadRevives`. The cache comes to agree with the tables as long as none does so: `LinkReloads.SoundThroughoutIff`.
- Two overlapping engagements can still start two sessions, if the old one lapses between one's two looks: `SessionRaces.ReplacesLiveIff`.
- The attribution and postback consumers never take over stalled messages, so a message one of them leaves unacknowledged is not retried. The safety theorems hold regardless; nothing is claimed about progress.

## Model

| member | source | states |
|---|---|---|
| `Buffer.ShippingBuffer.Append` | services/tracker/src/mmp_tracker/buffer.py:60-75 | the queue is the newest `capacity` of old plus new, exactly the popped entries are counted as dropped, and their number is returned |
| `Buffer.ShippingBuffer.TakeChunk` | services/tracker/src/mmp_tracker/buffer.py:127-129 | chunk followed by remaining queue is the old queue, and the chunk is at most the flush size |
| `Buffer.ShippingBuffer.PublishSucceeded` | services/tracker/src/mmp_tracker/buffer.py:130-135 | the whole chunk is counted as shipped and the queue is left alone |
| `Buffer.ShippingBuffer.PublishFailed` | services/tracker/src/mmp_tracker/buffer.py:136-141 | the chunk goes back in front in its own order, and whatever does not fit is lost from the newest end without being counted |
| `Buffer.EveryScheduleConserves` | services/tracker/src/mmp_tracker/buffer.py:60-141 | for every schedule of appends, takes, successes and failures: depth within capacity, shipped then in-flight then queued is in append order, and every appended entry is in exactly one of shipped, in flight, queued, shed or lost |
| `Buffer.UncountedLossIff` | services/tracker/src/mmp_tracker/buffer.py:48-141 | nothing goes missing uncounted exactly when every failed chunk found room to go back |
| `Buffer.CountersAccountForEverything` | services/tracker/src/mmp_tracker/buffer.py:64-75 | with that room, appended = shipped + dropped + in flight + depth |
| `PipelineRuns.StepKeeps` | services/worker/src/mmp_worker/consumers.py:121-206 | each of the protocol's steps, on the edge, the stream and the workers, keeps the whole invariant: marks balance grants minus removals, everything published was granted a mark, and workers, pending list, acknowledgements and dead letters agree |
| `PipelineRuns.RunKeeps` | packages/mmp_ingest/src/mmp_ingest/stream.py:66-187 | the invariant holds after every run of those steps, crashes and takeovers included |
| `PipelineRuns.ChargeKeeps` | services/worker/src/mmp_worker/consumers.py:167-206 | counting a failed attempt and dead-lettering the fifth never lets a worker's own count exceed the failures that really happened |
| `PipelineTheorems.RowsBounded` | packages/mmp_ingest/src/mmp_ingest/dedup.py:42-70 | in every run, the rows of one event id are at most the marks standing for its spellings plus the marks of it that expired, were lost or were forgotten |
| `PipelineTheorems.CountedOnce` | services/tracker/src/mmp_tracker/ingest.py:164-230 | when an id is always spelled alike, it has at most 1 + (marks of it that went away) rows in every run |
| `PipelineTheorems.CountedExactlyOnce` | packages/mmp_ingest/src/mmp_ingest/writer.py:131-156 | and exactly one row when no mark went away and its message was acknowledged without being dead-lettered |
| `PipelineTheorems.TwoSpellingsCountTwice` | packages/mmp_ingest/src/mmp_ingest/dedup.py:38-60 | two textual spellings of one UUID are two marks but one id in the table: for any buffer sizes and any two spellings, a run with no mark lost that stores two rows |
| `PipelineTheorems.ExpiredMarkCountsTwice` | packages/mmp_ingest/src/mmp_ingest/dedup.py:42-70 | a run in which a mark expires and the same spelling of one id becomes two rows, so the bound is reached |
| `PipelineTheorems.NothingSilentlyLost` | services/worker/src/mmp_worker/consumers.py:133-206 | in every run an acknowledged message has its row or a dead-letter copy, every other message is undelivered or pending, a dead letter failed at least five writes, and nothing is stored that was not published |
| `PipelineTheorems.RowsAreForever` | packages/mmp_ingest/src/mmp_ingest/writer.py:73-75 | whatever happens next, a stored row stays and stays as it is |
| `Shipments.CleanFlushPublished` | packages/mmp_ingest/src/mmp_ingest/stream.py:66-80 | in every run, a flush taken to have succeeded has added to the stream exactly its chunk, each event once and in order |
| `Shipments.TrackerIsABuffer` | services/tracker/src/mmp_tracker/buffer.py:60-141 | each edge process of the protocol holds what the shipping buffer holds after the same operations |
| `Shipments.AcceptedIsSomewhere` | services/tracker/src/mmp_tracker/ingest.py:205-230 | in every run, each event a process accepted since it started is queued, in its chunk, shipped, shed or lost on a failed return, exactly once for each time it was accepted, and what is shipped is on the stream |
| `Shipments.AcceptedConcat` | services/tracker/src/mmp_tracker/ingest.py:205-218 | the filter of new events keeps the order of the batch |
| `Shipments.RowsCarryWhatWasSent` | packages/mmp_ingest/src/mmp_ingest/writer.py:131-156 | in every run, every row carries the id, body, app and arrival time of an event some request brought |
| `Shipments.StoppedProcessIsEmpty` | services/tracker/src/mmp_tracker/buffer.py:48-141 | a process that stops takes its queue, chunk and open requests with it, and nothing else |
| `PipelineTheorems.RequestShedsAndUnmarks` | services/tracker/src/mmp_tracker/ingest.py:205-230 | a marked request appends, sheds from the front exactly what exceeds the capacity, and takes back the marks of as many of its own first events |
| `PipelineTheorems.UnmarksWhatItShedIff` | services/tracker/src/mmp_tracker/ingest.py:219-230 | the ids un-marked after shedding are the ids shed when everything fits or the queue was empty, and only then unless the batch repeats what is queued |
| `PipelineTheorems.SheddingUnmarksTheWrongEvent` | services/tracker/src/mmp_tracker/buffer.py:64-67 | a full buffer that sheds one event and un-marks another |
| `Consumer.IdempotencyWindow.FilterNew` | packages/mmp_ingest/src/mmp_ingest/dedup.py:42-59 | returns exactly the ids without a mark before the call and leaves every id of the batch marked |
| `Consumer.ForgottenIsNewAgain` | packages/mmp_ingest/src/mmp_ingest/dedup.py:61-70 | the next request sees a forgotten id of its app as new, and everything else as before |
| `Consumer.MarkingStepsAreFilterNew` | packages/mmp_ingest/src/mmp_ingest/dedup.py:42-59 | the protocol's one-id-at-a-time marking steps, uninterrupted, do to marks and new ids what the batched call does |
| `Consumer.EventConsumer.Write` | packages/mmp_ingest/src/mmp_ingest/writer.py:131-156 | the table becomes the insert-ignoring-conflicts of the batch, and the reported count is the number of rows that really appeared |
| `Consumer.EventConsumer.Persist` | services/worker/src/mmp_worker/consumers.py:140-166 | write, then acknowledge exactly the batch; duplicates are received minus written |
| `Consumer.EventConsumer.Process` | services/worker/src/mmp_worker/consumers.py:140-166 | a batch either is all in the table and acknowledged, or changes no row, charges each message and acknowledges only what it dead-lettered |
| `Consumer.EventConsumer.HandleFailure` | services/worker/src/mmp_worker/consumers.py:167-206 | the loop's attempt counts, dead letters and acknowledgements are those of charging the batch message by message |
| `Consumer.DeadLettersTheFifth` | services/worker/src/mmp_worker/consumers.py:167-206 | of a batch of distinct messages, exactly those on their fifth failure are dead-lettered; every other count rises by one |
| `Consumer.CommitThenAckIsPersist` | services/worker/src/mmp_worker/consumers.py:140-166 | the protocol's write and acknowledgement, uninterrupted, leave what `Persist` leaves |
| `Consumer.ChargingStepsAreHandleFailure` | services/worker/src/mmp_worker/consumers.py:167-206 | the protocol's charging steps, uninterrupted, leave the counts and dead letters of the loop |
| `Consumer.AckOfCharged` | services/worker/src/mmp_worker/consumers.py:167-206 | and the acknowledgement after them takes exactly the dead-lettered messages |
| `Consumer.TakenOver` | services/worker/src/mmp_worker/consumers.py:121-166 | a message left by a worker that stopped can be taken over, and is then stored and acknowledged |
| `Consumer.HeldWasHandedOut` | packages/mmp_ingest/src/mmp_ingest/stream.py:100-187 | in every run no worker is at work on a message the group has not handed out |
| `Consumer.KeepsItsBatch` | services/worker/src/mmp_worker/consumers.py:121-166 | a worker lets go of a batch only by writing it, failing to, or stopping |
| `Consumer.ChargedBeforeAcked` | services/worker/src/mmp_worker/consumers.py:167-206 | a failed batch is not acknowledged before every message of it has been charged |
| `Engine.AttributeDecides` | packages/mmp_attrib/src/mmp_attrib/engine.py:147-221 | the decision is the one a declarative rule of strict tiers gives over the set of eligible clicks |
| `Engine.LastClickWins` | packages/mmp_attrib/src/mmp_attrib/engine.py:140-221 | in the clicks' own fields: a usable click the referrer names, else one the app names, else of the device's usable clicks the one with the latest time and then the highest id, else organic when there is none of these |
| `Engine.DecisionReports` | packages/mmp_attrib/src/mmp_attrib/engine.py:165-221 | a decision reports its window, its reason, the install time minus the click time, and suspicion exactly under ten seconds |
| `Engine.DecidesIsUnique` | packages/mmp_attrib/src/mmp_attrib/engine.py:140-221 | with unique click ids that rule leaves one method and one click |
| `Engine.OrderDoesNotMatter` | packages/mmp_attrib/src/mmp_attrib/engine.py:147-221 | the same clicks in any order, with any repetition, give the same method and click |
| `Candidates.LoadCandidates` | packages/mmp_attrib/src/mmp_attrib/candidates.py:72-107 | the dictionary holds exactly the rows found by id in the window and the device rows the database returned |
| `Candidates.LoadedAgreesIff` | packages/mmp_attrib/src/mmp_attrib/candidates.py:72-107 | deciding over the loaded clicks equals deciding over every click of the app exactly when an id decides the matter or the device query did not cut off the newest non-bot match |
| `Candidates.LimitNeverCutsWinnerIff` | packages/mmp_attrib/src/mmp_attrib/candidates.py:32-54 | however the database orders equal times, a row survives the limit exactly when fewer than fifty other matching rows, bots included, are at least as new |
| `Candidates.EveryLoadAgreesIff` | packages/mmp_attrib/src/mmp_attrib/candidates.py:32-107 | so, whatever the database returns, loading agrees with seeing every click exactly when an id decides the matter or the winner has fewer than fifty such rows beside it |
| `Candidates.LastRowWins` | packages/mmp_attrib/src/mmp_attrib/candidates.py:32-107 | whatever the database returns within the limit, the row chosen from the whole table is the one its tier should choose, in the table's own columns |
| `Candidates.ReasonsAgreeIff` | packages/mmp_attrib/src/mmp_attrib/engine.py:165-221 | of two organic decisions the reasons agree exactly when some non-bot click was loaded or there is none, taking all of the app's clicks, only those in the window or anything in between; since an organic load never has one, every organic install with clicks is explained as having none |
| `Candidates.ReasonMisreportsUnloadedClicks` | packages/mmp_attrib/src/mmp_attrib/candidates.py:72-107 | an input whose load is empty although a click was recorded in the window: that click is denied |
| `Store.AttributionStore.RecordDecision` | packages/mmp_attrib/src/mmp_attrib/store.py:104-204 | one serialised call leaves the table valid and records a new row exactly when none stood or the incoming method outranks it, referrer over click id over device match over probabilistic over organic; the old row then points at the new one, and nothing else changes |
| `Store.WriteKeepsValid` | packages/mmp_attrib/src/mmp_attrib/store.py:132-204 | a transaction that finishes against any later table keeps one current row per install, and extends the chain only upwards in fidelity |
| `Store.OneInstallOneAttribution` | packages/mmp_attrib/src/mmp_attrib/store.py:132-204 | for every interleaving of overlapping transactions and crashes: exactly one current row per install, every row reaches it through `superseded_by` with fidelity strictly rising, at most five rows (four without a probabilistic one) |
| `Store.StoppedLeavesNothing` | packages/mmp_attrib/src/mmp_attrib/store.py:132-204 | a worker that stops before its write leaves no trace and may begin again |
| `Store.CurrentIsBestConsidered` | packages/mmp_attrib/src/mmp_attrib/engine.py:224-235 | in every run what stands is the best evidence of the transactions that got to compare theirs, and one of them recorded it |
| `Store.StrongestConsideredStands` | packages/mmp_attrib/src/mmp_attrib/engine.py:224-235 | in every interleaving the method that stands is the strongest, by name, of those considered |
| `Store.RaceDropsBetterEvidence` | packages/mmp_db/src/mmp_db/models/attribution.py:44-51 | two overlapping first records: the referrer evidence loses the unique index and the organic row stands |
| `Store.AbortDropsBetterEvidence` | packages/mmp_db/src/mmp_db/models/attribution.py:87-99 | two overlapping upgrades of one row: the better one finishes second, fails the deferred foreign key, and the lesser stands |
| `Store.FinishHonoursEvidenceIff` | packages/mmp_attrib/src/mmp_attrib/store.py:132-204 | a finishing transaction, whatever its outcome, leaves evidence at least as good as its own exactly unless the current row is not the one it saw and is worse |
| `Store.BestEvidenceStands` | packages/mmp_attrib/src/mmp_attrib/store.py:132-204 | in every run in which no finishing transaction was overtaken that way, what stands is at least as good as everything any of them brought |
| `Store.SerialKeepsTheFirstBest` | packages/mmp_attrib/src/mmp_attrib/store.py:132-204 | recording a sequence one after another ends with the first of the best decisions |
| `Store.StrongestStands` | packages/mmp_attrib/src/mmp_attrib/engine.py:58-64 | what stands after serial recording is the first decision of the strongest method among them: referrer, else click id, else device match, else probabilistic, else organic |
| `Store.DeliveryOrderDoesNotMatter` | packages/mmp_attrib/src/mmp_attrib/engine.py:58-64 | whatever the order and duplication, serialised recording ends in the same method, and by `Store.StrongestStands` in the strongest |
| `InstallFlow.RunKeeps` | services/worker/src/mmp_worker/attribution.py:196-293 | record, then cache, then publish: over every run with crashes, nothing is on the attributed stream without a committed row |
| `InstallFlow.HandledInstallsAreAttributed` | services/worker/src/mmp_worker/postbacks.py:210-257 | in every run an install the sender handles has a current attribution, and `lookup` finds a row whatever the cache lost: one of that very install, unless the device's id reads as a user's entry |
| `InstallFlow.UninterruptedIsPublished` | services/worker/src/mmp_worker/attribution.py:196-293 | an install one worker takes through uninterrupted is recorded as the store records it and published, and a new row is what `lookup` then finds |
| `InstallFlow.LinkedUserFindsTheRow` | packages/mmp_attrib/src/mmp_attrib/store.py:284-326 | a linked user finds the row under the user's own key of the same app, and no other entry moves |
| `InstallFlow.SenderLooksUp` | packages/mmp_attrib/src/mmp_attrib/store.py:245-281 | from either stream, the sender is given the cached row, else the current one, else none |
| `InstallFlow.AliasReadsAnotherInstall` | packages/mmp_attrib/src/mmp_attrib/store.py:284-326 | a device whose id reads as a user's entry is given the row that user was linked from |
| `InstallFlow.StaleStateIsReachable` | packages/mmp_attrib/src/mmp_attrib/store.py:211-281 | the row found need not be the current one: a run of two installs in which a late cache write shadows a better decision |
| `InstallFlow.StaleAfterIff` | packages/mmp_attrib/src/mmp_attrib/store.py:211-281 | exactly what each step makes of an entry: a write leaves it out of date iff the row written is not current, a superseding commit iff there was an entry |
| `InstallFlow.LookupIsCurrentIff` | packages/mmp_attrib/src/mmp_attrib/store.py:191-281 | throughout a run `lookup` is current, or the superseder's own cache write is still to come, exactly when no step writes a superseded row with nobody left to correct it and no superseder goes away without writing |
| `Rollups.ClampKeepsTheClock` | packages/mmp_ingest/src/mmp_ingest/schema.py:140-162 | a stored occurrence time is within 24 hours of arrival and is the client's own exactly when that is, and the skew reported is within a millisecond of the real one and never overstates it |
| `Rollups.WindowsAreAligned` | services/worker/src/mmp_worker/rollups.py:61-125 | both passes start on an hour boundary, no later than the window promises |
| `Rollups.ScanSeesWholeBucketIff` | packages/mmp_db/src/mmp_db/rollups.py:136-164 | the scan totals a bucket as a direct group-by would exactly when none of its rows arrived before the start |
| `Rollups.RefreshIsExact` | packages/mmp_db/src/mmp_db/rollups.py:136-164 | every bucket at least the skew bound after the start equals the group-by of all rows received before the end, whose numbers `RollupTotals.BucketTotals` gives; buckets without rows are untouched |
| `Rollups.LatePassIsExact` | services/worker/src/mmp_worker/rollups.py:103-125 | the nightly pass is exact from the second day of its window on, whatever clocks clients had |
| `RollupTotals.BucketTotals` | packages/mmp_db/src/mmp_db/rollups.py:136-164 | a bucket is exact exactly when it holds the number of its rows, of their different devices and the sum of their amounts, by app, name, hour of occurrence and platform, and is there only with rows |
| `RollupTotals.OneMoreRow` | packages/mmp_db/src/mmp_db/rollups.py:147-149 | one more row of a bucket is one more event, one more device exactly if that is a new one, and its own amount |
| `RollupTotals.NightlyPassIsTrue` | services/worker/src/mmp_worker/rollups.py:103-125 | after the nightly pass every bucket of the last seven days with rows holds its true numbers |
| `RollupTotals.TrailingPassIsTrue` | services/worker/src/mmp_worker/rollups.py:61-101 | after a trailing pass so does every bucket of the last three hours, less the most a row runs ahead of its arrival |
| `RollupTotals.TrailingPassLeaves` | services/worker/src/mmp_worker/rollups.py:61-101 | and one that ended three hours ago or earlier is left as it was |
| `RollupTotals.NightlyPassLeaves` | services/worker/src/mmp_worker/rollups.py:103-125 | and by the nightly pass one that ended nine days ago or earlier |
| `Rollups.RefreshTwice` | packages/mmp_db/src/mmp_db/rollups.py:154-164 | repeating a refresh changes nothing |
| `Rollups.EarlierBucketsUntouched` | packages/mmp_db/src/mmp_db/rollups.py:136-164 | no bucket before the start changes |
| `Rollups.ExactAfterPassIff` | packages/mmp_db/src/mmp_db/rollups.py:136-164 | after a pass a bucket is exact exactly when the pass reached it and all its rows arrived since the start, or did not reach it and it was exact before |
| `Rollups.PassKeepsExactIff` | packages/mmp_db/src/mmp_db/rollups.py:136-164 | a pass keeps an exact bucket exact exactly when it starts after the bucket's hour or the bucket's rows all arrived on one side of the start |
| `Rollups.RightIff` | services/worker/src/mmp_worker/rollups.py:61-125 | once a bucket's rows have stopped arriving, any later run leaves it exact exactly when the last pass to visit it saw all of it, or none visited and it was exact |
| `Rollups.StaysExactIff` | services/worker/src/mmp_worker/rollups.py:61-125 | and an exact one is exact throughout such a run exactly when every pass that visits it sees all of it |
| `Rollups.RunIsGrounded` | packages/mmp_ingest/src/mmp_ingest/schema.py:156-162 | in every run of arrivals and passes the rows obey the clamp and no bucket exists without rows |
| `Rollups.StaysExact` | services/worker/src/mmp_worker/rollups.py:61-125 | so a bucket none of whose rows arrived before its hour stays exact under any later mix of passes and other arrivals |
| `Rollups.TrailingPassForgetsAheadOfTimeRow` | services/worker/src/mmp_worker/rollups.py:72-82 | a run of two paid events of one device on one platform and two passes: the nightly pass counts both, the trailing pass after it only one |
| `Rollups.RollupTable.RefreshTrailing` | services/worker/src/mmp_worker/rollups.py:61-101 | leaves every bucket before its aligned start alone and makes exact every later one that is as far into the window as any row runs ahead of its arrival |
| `Rollups.RollupTable.RefreshLateArrivals` | services/worker/src/mmp_worker/rollups.py:103-125 | the table becomes the recomputation over the last eight days, and is exact from the second of them on |
| `Postbacks.RetryIgnoresAdapterIff` | services/worker/src/mmp_worker/postbacks.py:716-722 | a retry records without the adapter's reading, so it agrees with a first attempt exactly when the adapter agrees with the success codes |
| `Postbacks.StepKeeps` | packages/mmp_providers/src/mmp_providers/delivery.py:93-155 | every step of consumers, sweeps, crashes, rule edits and re-queueing by hand keeps: a process owns its in-flight row, alone, and sends never outnumber attempts |
| `Postbacks.AtMostFiveSendsOneAtATime` | packages/mmp_providers/src/mmp_providers/delivery.py:210-256 | in every run each (rule, event) has at most one process at work, and at most five sends and one more for each time it was put back by hand |
| `Postbacks.NothingAfterFinished` | packages/mmp_providers/src/mmp_providers/delivery.py:93-155 | in every run, once delivered or sandboxed a delivery is never sent again and its row never changes; once abandoned, not until it is put back by hand |
| `Postbacks.NothingAfterClosed` | packages/mmp_providers/src/mmp_providers/delivery.py:150-155 | the same from any state, also for a delivery left in flight by a process that stopped |
| `Postbacks.RequeueSendsAgain` | services/api/src/mmp_api/routes/postbacks.py:613-633 | put back by hand, an abandoned delivery that is remembered is sent once more, even after its fifth attempt |
| `Postbacks.AnswerClosesIff` | packages/mmp_providers/src/mmp_providers/delivery.py:54-74 | after an answer no sweep touches the delivery again exactly when it was delivered, the answer was no reason to try again, the fifth attempt is spent, or its headers cannot be kept |
| `Postbacks.RecordedRowMeans` | packages/mmp_providers/src/mmp_providers/delivery.py:210-256 | delivered exactly when the adapter says so or, without its word, the code is a success code; failed exactly when not delivered, transient, before the fifth attempt and with headers that can be kept; abandoned otherwise; with what is remembered of the request |
| `Postbacks.StatusIsTrue` | packages/mmp_providers/src/mmp_providers/delivery.py:210-275 | in every run a delivered delivery was sent and some send of it answered with a success, and a rehearsed one was never sent |
| `Postbacks.SandboxNeverSends` | services/worker/src/mmp_worker/postbacks.py:413-567 | in every run in which a sandbox rule is left alone, nothing is ever sent under it |
| `Postbacks.StoppedIsOrphaned` | services/worker/src/mmp_worker/postbacks.py:413-567 | a process that stops leaves its delivery in flight, and then nothing ever sends or settles it |
| `Postbacks.ResendsRepeatTheFirstIff` | services/worker/src/mmp_worker/postbacks.py:680-715 | in every run every send repeats the first one's method, URL, headers and body exactly when no retry goes by a rule, for want of a remembered request, whose method has changed or whose first request had headers or a body |
| `Postbacks.ResendsRepeatTheFirst` | services/worker/src/mmp_worker/postbacks.py:569-723 | so it holds as long as no rule is edited, or as long as no process stops between recording and remembering and nothing is put back that was sent but not remembered |
| `Postbacks.RequeuedAfterEditedRule` | services/api/src/mmp_api/routes/postbacks.py:613-633 | no crash is needed to break it: a refused delivery put back by hand after its rule was edited |
| `Postbacks.LostRequestThenEditedRule` | services/worker/src/mmp_worker/postbacks.py:706-715 | both together break it: a run whose retry uses the edited rule's method |
| `Postbacks.ExactlyOneClaimWins` | packages/mmp_providers/src/mmp_providers/delivery.py:93-100 | of any claims on a (rule, event) the first wins if there was no row yet, and no other does |
| `Postbacks.DeliveryLog.Deliver` | services/worker/src/mmp_worker/postbacks.py:413-567 | one delivery is a run of the protocol, sends once at most and only when it won the claim and the rule is live, and leaves the row given up, rehearsed or settled by the answer, with the URL noted and a failed request remembered |
| `Postbacks.DeliveryLog.RetryDue` | services/worker/src/mmp_worker/postbacks.py:612-727 | a sweep is a run of the protocol, charges each due row once, sends again exactly the requests that can be sent, in order, settles each row by its own answer and touches no other |
| `Postbacks.BatchClaimIsARun` | services/worker/src/mmp_worker/postbacks.py:634-649 | the one claiming statement does what claiming its rows one by one does |
| `QueryString.FormValueComesBack` | services/tracker/src/mmp_tracker/redirect.py:68-74 | a form value survives being written into a query and read out of it |
| `QueryString.QuoteStandsIff` | services/tracker/src/mmp_tracker/redirect.py:97-101 | encoding leaves text as it is exactly when it is letters, digits and the four unreserved marks |
| `QueryString.FieldReadsIff` | packages/mmp_attrib/src/mmp_attrib/referrer.py:70-78 | a field is read exactly when it has an equals sign and something after it |
| `QueryString.WithQueryAddsOne` | services/tracker/src/mmp_tracker/redirect.py:68-74 | every parameter already in the destination reads as before, and the added one is read unless it was already set |
| `Referrer.ClickIdComesBack` | services/tracker/src/mmp_tracker/redirect.py:97-101 | for every deep link, however long, the click id written is the click id parsed |
| `Referrer.ClickIdComesBackEncoded` | packages/mmp_attrib/src/mmp_attrib/referrer.py:54-95 | also from a referrer form-encoded once more on its way |
| `Referrer.DeepLinkComesBackIff` | packages/mmp_attrib/src/mmp_attrib/referrer.py:54-95 | a deep link of any length comes back unchanged exactly when its encoding fits, or is cut inside the escape of a last percent sign that the link itself spells the start of, and it has no percent escape, no ampersand, and not both a plus and an equals sign |
| `Referrer.DeepLinkReadsAs` | packages/mmp_attrib/src/mmp_attrib/referrer.py:66-95 | however long, it comes back as what the cut leaves of it, decoded once more, and shorter if that has an ampersand |
| `Referrer.EncodedDeepLinkComesBackIff` | packages/mmp_attrib/src/mmp_attrib/referrer.py:54-95 | encoded once more on its way, a deep link of any length comes back unchanged exactly when the second encoding fits, or is cut inside such an escape, and it has no percent escape |
| `Referrer.EncodedDeepLinkReadsAs` | packages/mmp_attrib/src/mmp_attrib/referrer.py:54-95 | encoded once more and of any length, it comes back as what the cut leaves of its encoding, decoded twice |
| `Referrer.StoreLinkCarriesTheClick` | services/tracker/src/mmp_tracker/redirect.py:97-101 | from the store link's query to the click: the referrer read out of it gives the click id, unless the link already had a referrer of its own |
| `Referrer.AcceptedPathComesBackIff` | packages/mmp_core/src/mmp_core/deeplinks.py:35-81 | every accepted relative path fits, so the same condition decides |
| `ReferrerReads.PlainClickIdReads` | packages/mmp_attrib/src/mmp_attrib/referrer.py:82-84 | of a referrer of plain pairs the click id is the first of five names, in order, whose value reads as a UUID |
| `ReferrerReads.PlainCampaignReads` | packages/mmp_attrib/src/mmp_attrib/referrer.py:86-95 | the deep link is the first of three names, and source, medium and campaign are each their own |
| `ReferrerReads.UuidSpellings` | packages/mmp_attrib/src/mmp_attrib/referrer.py:45-51 | an id is read from digits in either case, hyphenated, in braces or as a URN, with white space around it |
| `ReferrerReads.ReadsOnlyIds` | packages/mmp_attrib/src/mmp_attrib/referrer.py:45-51 | whatever is read as an id is 32 lower-case hexadecimal digits |
| `ReferrerReads.AcceptedIff` | packages/mmp_core/src/mmp_core/deeplinks.py:35-81 | a destination is accepted exactly when it is at most 512 safe characters, starts with one slash, and no segment of it goes up, spelled out or encoded |
| `SdkQueue.EventQueue.Enqueue` | sdks/react-native/src/queue.ts:81-95 | the queue is the newest `maxQueueSize` of old plus new, stored, with exactly the oldest overflow counted as dropped |
| `SdkQueue.EventQueue.Remove` | sdks/react-native/src/queue.ts:182-185 | what is left is the events whose id is in no event of the batch, in order |
| `SdkQueue.EventQueue.ApplyOutcome` | sdks/react-native/src/queue.ts:137-180 | accepted and rejected batches leave and are counted apart, an unknown one stays, and the next attempt waits what the server asked or the jittered share of one second doubled with each failure, up to five minutes |
| `SdkQueue.EventQueue.Flush` | sdks/react-native/src/queue.ts:112-134 | an uninterleaved flush ends, drains to the specification's remainder, stores what is left, and reports progress exactly when its first batch was settled |
| `SdkQueue.DrainKeepsIff` | sdks/react-native/src/queue.ts:123-128 | an event is still queued after a drain exactly when no batch the server settled held it |
| `SdkQueue.DrainStopsOnUnknown` | sdks/react-native/src/queue.ts:123-128 | a drain leaves events behind exactly when its last answer left a batch's fate unknown |
| `SdkQueue.DrainSendsInOrder` | sdks/react-native/src/queue.ts:123-128 | over distinct ids a drain sends the queue from the front, in order, each event once, in full batches but for the last |
| `SdkQueue.FlushStartsIff` | sdks/react-native/src/queue.ts:112-125 | one flush at a time, starting with the front batch |
| `SdkQueue.FlushStopsIff` | sdks/react-native/src/queue.ts:123-134 | a flush goes on exactly when the server settled the last batch and something is left, and writes what is left when it stops |
| `SdkQueue.NothingVanishes` | sdks/react-native/src/queue.ts:62-193 | through any interleaving with crashes, an event whose tracking completed is in storage, was settled by the server, or was dropped as the oldest, if nothing is tracked while a load may still replace what is in memory |
| `SdkQueue.LeavesOnly` | sdks/react-native/src/queue.ts:62-193 | an event leaves memory only in a settled batch, as the oldest on overflow, with the process, or under a load that found a stored queue without it |
| `SdkQueue.NeverTooLong` | sdks/react-native/src/queue.ts:86-93 | memory, storage and every pending write stay within the bound, and every send within a batch, in every run |
| `SdkQueue.CarelessPushLoses` | sdks/react-native/src/queue.ts:62-71 | that condition is exact: wherever a run tracks an event while a load may still replace what is in memory, it can go on to lose an event whose tracking completed, counted nowhere |
| `SdkQueue.PushOverwritesStorage` | sdks/react-native/src/queue.ts:81-95 | the other half of the race: the tracked event's write replaces the stored queue, and a crash then loses every completed event it held |
| `RateLimit.Limiter.Check` | packages/mmp_core/src/mmp_core/ratelimit.py:21-56 | one call answers and updates the bucket as the level, allowance and waiting time specify |
| `RateLimit.AdmittedBound` | packages/mmp_core/src/mmp_core/ratelimit.py:32-46 | for any clock, admitted cost plus what is left is at most one full bucket plus the refill of the clock's forward moves |
| `RateLimit.IntervalBound` | packages/mmp_core/src/mmp_core/ratelimit.py:32-46 | with a clock that never steps back, any stretch of any run admits at most capacity plus refill over its duration |
| `RateLimit.SteppingBackRefillsTwice` | packages/mmp_core/src/mmp_core/ratelimit.py:37-46 | a clock that steps back exceeds that bound |
| `RateLimit.ForgettingIsInvisible` | packages/mmp_core/src/mmp_core/ratelimit.py:47-49 | forgetting buckets idle for their lifetime changes no answer and no later bucket, in any run |
| `RateLimit.RetryAfterIsExact` | packages/mmp_core/src/mmp_core/ratelimit.py:51-55 | left alone, a refused call is let through from `retry_after` on and not a millisecond sooner if it costs no more than the capacity, and never if it costs more |
| `Sessions.SharedSessionIff` | packages/mmp_ingest/src/mmp_ingest/sessions.py:56-96 | with three instants to each event, two engagements of a device share a session exactly when each engagement after the first, up to the second, finds the session before it alive at its set and at its read, and nothing ended it between |
| `Sessions.LapsesWhen` | packages/mmp_ingest/src/mmp_ingest/sessions.py:79-96 | when a session lapses after an engagement: a timeout after the command that stored or pushed it out, or as before if it lapsed just before the push |
| `Sessions.SharedByGapsIff` | packages/mmp_ingest/src/mmp_ingest/sessions.py:56-96 | at one instant to each event: exactly when no gap between consecutive engagements reaches the timeout and nothing ended it between |
| `Sessions.IdleIsInvisible` | packages/mmp_ingest/src/mmp_ingest/sessions.py:32-79 | a non-engagement event neither starts nor extends a session: dropping it changes no key thereafter |
| `Sessions.SessionTracker.Resolve` | packages/mmp_ingest/src/mmp_ingest/sessions.py:56-96 | decision and key are the specification's, with the three commands at three instants and expiry possible between any two; other devices are untouched |
| `Sessions.SessionTracker.ResolveMany` | packages/mmp_ingest/src/mmp_ingest/sessions.py:102-191 | every device of the batch is given what resolving it alone would give |
| `Sessions.ManyReadsAlikeIff` | packages/mmp_ingest/src/mmp_ingest/sessions.py:168-175 | the keys left by the two ways read alike from then on exactly when no session expired between the two trips |
| `Sessions.SessionTracker.Close` | packages/mmp_ingest/src/mmp_ingest/sessions.py:193-200 | reports the live session, if any, and leaves none |
| `SessionRaces.ReplacesLiveIff` | packages/mmp_ingest/src/mmp_ingest/sessions.py:65-96 | in every interleaving, an engagement replaces a live session exactly when its read found none and another engagement has started one since that is neither closed nor lapsed |
| `SessionRaces.LiveWasStarted` | packages/mmp_ingest/src/mmp_ingest/sessions.py:79-96 | a key that had lapsed and reads as live again holds a session started since and not closed |
| `SessionRaces.OverlapStartsTwoSessions` | packages/mmp_ingest/src/mmp_ingest/sessions.py:82-92 | such a run |
| `LinkCache.HandlersAreExact` | services/tracker/src/mmp_tracker/linkcache.py:235-249 | each handler sets exactly the codes it covers to what the tables say and leaves the rest alone |
| `LinkCache.HandledMeansExact` | services/tracker/src/mmp_tracker/linkcache.py:277-328 | from any state: after one resync, once every notification since is handled in any order, the cache is exactly the active links of active apps |
| `LinkCache.ResyncRestores` | services/tracker/src/mmp_tracker/linkcache.py:277-308 | a resync restores agreement whatever was lost before it |
| `LinkCache.Cache.ReloadOne` | services/tracker/src/mmp_tracker/linkcache.py:310-323 | the cache changes at this code only, to the row's live link or nothing |
| `LinkCache.Cache.ReloadAppLinks` | services/tracker/src/mmp_tracker/linkcache.py:235-249 | the loop leaves the other apps' links plus this app's live rows, in whatever order rows come |
| `LinkCache.Cache.Resync` | services/tracker/src/mmp_tracker/linkcache.py:277-308 | the cache becomes the active links and destinations, and negative entries are forgotten |
| `LinkCache.Cache.Find` | services/tracker/src/mmp_tracker/linkcache.py:326-367 | the answer is right whenever the cache is right for the code, and negative entries never hide a cached link |
| `LinkCache.MissIsLoaded` | services/tracker/src/mmp_tracker/linkcache.py:350-367 | a miss loads the code as the tables have it, a hit changes nothing |
| `LinkCache.DeepReloadAgreesIff` | services/tracker/src/mmp_tracker/linkcache.py:251-266 | reloading an app's registered destinations agrees with a resync exactly when the app is active or has none |
| `LinkCache.DestinationsExactIff` | services/tracker/src/mmp_tracker/linkcache.py:251-305 | from any state: after a resync, once every notification since is handled, the registered destinations are those of active apps exactly when the apps that have any are loaded just when active, loaded meaning active at the last resync or reloaded since |
| `LinkCache.EnablingForgetsDestinations` | services/tracker/src/mmp_tracker/linkcache.py:220-249 | a run in which enabling an app brings back its links but not its destinations |
| `LinkCache.LastAppliedWins` | services/tracker/src/mmp_tracker/linkcache.py:310-323 | two reloads applied out of order leave the cache right exactly when the older read was still current |
| `LinkReloads.LandedIs` | services/tracker/src/mmp_tracker/linkcache.py:235-367 | a reload sets exactly its own codes, to what its query saw |
| `LinkReloads.StepSoundIff` | services/tracker/src/mmp_tracker/linkcache.py:235-367 | with query and swap apart, an action leaves a code without correction to come exactly when it lands an out-of-date reload with no notification to come and no current reload under way |
| `LinkReloads.SoundThroughoutIff` | services/tracker/src/mmp_tracker/linkcache.py:192-367 | in every run from a sound state, every code the cache has wrong has a correction to come throughout exactly when no reload lands so |
| `LinkReloads.QueryAllIsSound` | services/tracker/src/mmp_tracker/linkcache.py:277-308 | the query of a resync makes any state sound, whatever was lost before |
| `LinkReloads.SoundAtRest` | services/tracker/src/mmp_tracker/linkcache.py:277-323 | a sound cache with nothing to come and nothing under way is exactly the active links |
| `LinkReloads.OrderedReloadsAreExact` | services/tracker/src/mmp_tracker/linkcache.py:192-323 | where reloads land in the order of their queries, no run from agreement ever leaves that way, and any that comes to rest agrees again |
| `LinkReloads.OnlyMissesAreQueried` | services/tracker/src/mmp_tracker/linkcache.py:326-367 | a cached code is not asked for again, a missing one is asked for as the tables are now |
| `LinkReloads.OvertakenReloadRevives` | services/tracker/src/mmp_tracker/linkcache.py:310-323 | out of order, a run that comes to rest with a deleted link cached |
| `Skan.SameStringIff` | packages/mmp_attrib/src/mmp_attrib/skadnetwork.py:178-208 | two checked postbacks have the same signed string exactly when they agree on version, every required field as printed, and the list of sources as printed |
| `Skan.SignedString` | packages/mmp_attrib/src/mmp_attrib/skadnetwork.py:69-112 | the string of every checked postback, version by version and field by field, with separators between, booleans in lower case and absent optional fields left out; none if a field holds a separator |
| `Skan.JoinIsInjective` | packages/mmp_attrib/src/mmp_attrib/skadnetwork.py:202-208 | joining separator-free parts loses nothing |
| `Skan.SourcesReadAlikeIff` | packages/mmp_attrib/src/mmp_attrib/skadnetwork.py:189-195 | a version 4 string fixes which source is which exactly when both postbacks carry the same source fields |
| `Skan.AppOrDomain` | packages/mmp_attrib/src/mmp_attrib/skadnetwork.py:189-195 | an app id and a domain that print alike give the same string |
| `Consent.ConsentGate.Record` | packages/mmp_ingest/src/mmp_ingest/consent.py:227-241 | with the read and the write at two instants and nothing between: until the lifetime is over the device reads as the answers live at the read with the new ones on top, and after it as nothing; other devices read as before |
| `Consent.SaysInWords` | services/tracker/src/mmp_tracker/ingest.py:341-354 | an update says of each purpose what its property of that name says, if that is one of three words |
| `Consent.SeparatorsDoNotMatter` | packages/mmp_ingest/src/mmp_ingest/schema.py:119-137 | a character that is neither letter nor digit does not matter to an event's name, wherever it stands |
| `Consent.CaseDoesNotMatter` | packages/mmp_ingest/src/mmp_ingest/schema.py:119-137 | nor does the case of a letter |
| `Consent.UpdateIsRecognised` | services/tracker/src/mmp_tracker/ingest.py:318-340 | the update's name is recognised with any one separator or none |
| `Consent.ConsentGate.ApplyConsent` | services/tracker/src/mmp_tracker/ingest.py:325-367 | every event is cut down in place under its device's state after all updates of the batch |
| `Consent.LastWordStands` | services/tracker/src/mmp_tracker/ingest.py:338-354 | for each purpose the last update of the batch stands |
| `Consent.SilenceKeeps` | packages/mmp_ingest/src/mmp_ingest/consent.py:227-241 | a purpose no update of the batch speaks of reads as before |
| `Consent.LastWordDecides` | services/tracker/src/mmp_tracker/ingest.py:338-367 | if the last word refuses attribution, every event of the device, earlier ones too, leaves without the identifiers and otherwise unchanged; if it grants, unchanged |
| `Consent.SilentDeviceAsBefore` | services/tracker/src/mmp_tracker/ingest.py:356-367 | a device the batch says nothing for is treated by what was known before |
| `ConsentRuns.KnownIff` | packages/mmp_ingest/src/mmp_ingest/consent.py:174-250 | in every run of reads, writes and drops, however they overlap, an answer is known exactly when a chain of writes leads from the one that gave it to the record now held, each by a recording that read what the one before left, alive, and is silent on the purpose |
| `ConsentRuns.RefusedIff` | services/api/src/mmp_api/routes/privacy.py:159-162 | so attribution is refused exactly when a refusal reaches the record held or, in strict mode, no grant does |
| `ConsentRuns.KnownAfterTouch` | packages/mmp_ingest/src/mmp_ingest/consent.py:227-241 | what is known after a write or drop: the word written, else what that recording had read, and nothing after a drop or a lapse |
| `ConsentRuns.WordSurvives` | packages/mmp_ingest/src/mmp_ingest/consent.py:227-250 | a word survives any overlap of later recordings if none of them read before it was written, none speaks on the purpose, the record is not dropped and no read comes too late |
| `ConsentRuns.StandsIff` | packages/mmp_ingest/src/mmp_ingest/consent.py:174-250 | where no write or drop falls between a recording's read and its write: an answer is known exactly when some write gave it, nothing since spoke on the purpose or dropped the record, and no lifetime passed between one write and the next one's read or since the last |
| `ConsentRuns.BatchIsARun` | services/tracker/src/mmp_tracker/ingest.py:338-354 | a batch handled without interruption is such a run, and leaves what recording its updates in order leaves |
| `ConsentRuns.StoppedRecordsNothing` | packages/mmp_ingest/src/mmp_ingest/consent.py:227-241 | a recording that stops before its write leaves every record as it was |
| `ConsentRuns.OverlapLosesARefusal` | packages/mmp_ingest/src/mmp_ingest/consent.py:227-241 | a run in which a recording that read before a refusal and wrote after it undoes the refusal |
| `ConsentRuns.OverlapRevivesAGrant` | services/api/src/mmp_api/routes/privacy.py:159-162 | a run in which a drop between a recording's read and its write does not take effect |
| `Uuid7.OrAdds` | packages/mmp_core/src/mmp_core/ids.py:31-35 | fields shifted clear of each other: combining them bit by bit is adding them |
| `Uuid7.BitByBit` | packages/mmp_core/src/mmp_core/ids.py:31-35 | each binary digit of a masked or combined value is the conjunction or disjunction of the digits |
| `Uuid7.MintIsV7` | packages/mmp_core/src/mmp_core/ids.py:23-43 | every minted value, masked, shifted and combined bit by bit, has version 7, variant 0b10, fits 128 bits and gives back its millisecond |
| `Uuid7.LaterSortsAfter` | packages/mmp_core/src/mmp_core/ids.py:23-36 | a later millisecond always gives a larger value |
| `Uuid7.Uuid7` | sdks/react-native/src/uuid7.ts:70-88 | the array becomes timestamp, version, variant and the untouched random bytes |
| `Uuid7.LayoutsAgree` | sdks/react-native/src/uuid7.ts:77-88 | read as one number, the device's bytes are what the server mints from the same millisecond and the same random bits |

## Left out

- Progress: no theorem says that a message is eventually handled, only what holds whenever it is.
- Stream and dead-letter trimming, Redis failover and erasure requests: excluded from runs; the loss of a mark is an explicit step.
- Click ingestion, the click rollup and the click consumer: the event side's protocol and recomputation again, with other columns.
- The daily campaign rollup: its outer join does not reset rows that drop out, so the exactness statement does not apply to it.
- The organization column of a rollup bucket: an app belongs to one organization, so it adds nothing to the key.
- Sealing, signatures, hashing and key handling: whether headers can be sealed or opened is a parameter, the signature check itself is not modelled.
- HTTP transport, address vetting, provider adapters and retry jitter: one send has one answer; a retry may run at any time after a failure.
- Fraud rules, user-agent classification, campaign and user-alias caches: single-branch facts.
- Routes other than the delivery retry, rule edits and consent endpoints, validation of request shapes, migrations, dashboards, metrics and logging.
- Text is its UTF-8 bytes in `QueryString` and `Referrer`; replacement of undecodable bytes and Unicode white space or case are not modelled.
- Referrer.AsUuid: reads hyphens, braces and prefixes, but not underscores or signs inside the digits.
- Uuid7.LayoutsAgree: is about the 16 bytes; printing them as hyphenated text is not modelled.
- Which event names engage a session: a parameter of `Sessions`.
- Sessions.SharedSessionIff: one event's commands do not interleave with another's; `SessionRaces` says what happens when they do.
- LinkCache.HandledMeansExact: each reload is one step with its query; `LinkReloads` keeps the two apart, for links.
- LinkReloads.SoundThroughoutIff: a code stays with one app, as no route moves a link; a lost notification is not a step, the next resync makes up for it.
- Consent.ConsentGate.ApplyConsent: a batch's recordings and its lookup are not overlapped by another request; `ConsentRuns` is about what is known when they are.
- Rollups.ClampKeepsTheClock: the reported skew is computed exactly, where the code rounds in floating point before it truncates.
- RateLimit.ForgettingIsInvisible: the clock that expires a bucket is the callers' clock; tokens are exact reals, not floating point.
- SdkQueue.NothingVanishes: storage applies writes in the order issued and does not fail; a corrupt stored queue is discarded by the code and not modelled.
- Postbacks.ResendsRepeatTheFirst: recording a failed first attempt and remembering its request are one step, as far as sweeps and re-queueing by hand can see; a process may still stop between the two.
- Postbacks.DeliveryLog.Deliver: the rule a first attempt works from is the one read with its claim.
