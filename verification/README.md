# Verified model of the export worker

The export worker takes `deployment.export.requested` events from a stream, renders and harvests a page,
uploads it as an artifact, writes a manifest, moves the deployment record to ARTIFACT_READY and emits a ready
event. It promises at-least-once processing that survives crashes, lost replies, duplicate deliveries and
concurrent workers. This project models the worker and proves what those promises rest on.
`dafny verify dfyconfig.toml` checks everything.

## How the model is built

**The protocol.** `Protocol` describes one delivery as a program counter: `OpOf` is the remote call a handler
waits on, `NextPc` what a reply leads to. Every reply may be an error, and an error may hide a call that took
effect (`Lost`). `Session`, `Export` and `Processor` hold the worker's imperative code: each method is proved to
make exactly the protocol's calls, in its order, whatever the systems answer, and `Processor.Handle` ends with the
write-then-ack contract. `Conversations` says the same from outside: what must have been said before each call, and how
a delivery may end, told from calls and answers alone. `Pipeline` and `Manifest` are the export's local computations, with the loops that
perform them.

**The step machine.** `Machine` interleaves any number of such handlers with dispatchers, producers, deliveries,
reclaims, crashes and status moves by others. `Dispatcher` holds the tick's code, written against a conversation like
the processor's; `DispatcherRuns` proves that the machine's dispatchers move exactly as a tick does. Records
are loaded before the lock is taken, so stale records are ordinary states. Lock replies are unconstrained: what is
proved about runs does not lean on the lock. The one standing assumption about others is that they never move a
record from a non-actionable status back to an actionable or pending one; every other hypothesis is a `requires`
of the theorem that needs it. `NoLoss`, `ReadyEvent`, `RetryBound`, `StatusSafety`, `EnvelopeStore`,
`ArtifactComplete`, `ReadyAgreement` and `RetryTiming` are theorems about whole runs; `Histories` shows that what they count
and except is what happened; `ExportRuns` discharges their hypotheses
on the configuration for the concrete pipeline, keys included. `Scripts` builds runs step by step; `LostEvents` and
`ExpiredUpload` use it to show what fails without a hypothesis, and `PoolAnswers` to show that the upload pool does
nothing the machine's uploads cannot do.

**The algorithms.** `Harvest` and `HarvestRun` (worklist walk against reachability), `Trim` and `StreamId` (three
interleaved Redis calls over 64-bit stream ids), `UploadPool` (the pool as a step machine), `Lock` (timed steps),
`Paths` (percent-decoding, section 2.1 of RFC 3986, and storage keys), `PathRules` and `References` (what paths, slugs and
references mean, told from their parts), `Backoff` (64-bit wrap-around), `Retry` and
`Queue` (the stores, changed in place).

## What came out false

Each failed promise has the exact condition, or the exact steps, that break it, and a run or input that does.

- A ready event can be lost. Envelope ids ignore the payload, so the retry of a schema-invalid payload naming the same
  deployment can replace the retry that still owed the event. Exactly two kinds of step end what a stored envelope
  carries: such a write, which puts nothing in its place, and the envelope's own re-enqueue, which puts an entry there
  (`ReadyEvent.CarryingEnvelopeEndsIff`). `ReadyEvent.ReadyEventIsNeverLost` excepts deployments whose valid retry was
  displaced so, or whose delivery was given up, while they were ARTIFACT_READY. Neither exception and neither hypothesis
  on interleavings can be dropped: for every configuration and every deployment whose export succeeds there are runs
  that lose the event with all rules kept (`LostEvents.InvalidPayloadCanLoseTheReadyEvent`,
  `LostEvents.DroppedDeliveryCanLoseTheReadyEvent`) and with one rule broken and nothing excepted
  (`LostEvents.ReclaimedTwinCanLoseTheReadyEvent`, `LostEvents.LateRemovalCanLoseTheReadyEvent`);
  `ExportRuns.PipelineCanLoseTheReadyEvent` has all four for the pipeline itself.
- The retry index can lose a stored envelope. In every run, with any number of dispatchers, hash and index agree in
  every state iff no tick drops an orphan whose payload is back (`EnvelopeStore.HalvesAgreeIffNoStaleDrop`); one tick at a
  time never does (`EnvelopeStore.StoreHalvesAgree`), and with two ticks a run from every initial state does
  (`EnvelopeStore.SecondDispatcherCanUnindex`).
- `UploadAll` is documented as stopping at the first error, but can return nil with nothing uploaded. A nil return can
  be trusted iff the caller's context cannot expire or there is nothing to upload (`UploadPool.NilIsReliableIff`), and in
  any run it is complete iff everything was handed out (`UploadPool.NilIsCompleteIffAllHandedOut`). The export goes on
  from such a nil: a run ends ARTIFACT_READY, announced and acked, with the page missing
  (`ExportRuns.ExpiryLeavesThePageUnstored`).
- `MaxTotalBytes` is documented as bounding the bundle including the page, but `Run` checks it only when a file is
  appended. What a harvest returned is within the limit iff the page alone is or there is a dependency
  (`HarvestRun.WalkEnforcesBundleLimitIff`); the bundles over the limit that are harvested are exactly the acceptable
  oversized pages without dependencies (`HarvestRun.OversizedPageWithoutDependenciesIsHarvested`, and such a page in
  `HarvestRun.OversizedPageExample`). The pipeline's own check catches them before any upload.
- A trim horizon before the epoch has no valid stream id, so it bounds nothing (`Trim.HorizonBoundsIffAtEpochOrLater`).
- A delivery between the two reads of a trim can let an unacked entry be removed. An entry is removed unacked iff it was
  delivered between the reads and is still there unacked, old enough, with nothing pending at the first read
  (`Trim.UnackedRemovalIff`). So a trim is safe whatever happens meanwhile iff, before its first call, something is
  pending or no id that may still be delivered is old enough (`Trim.TrimIsSafeIff`); otherwise delivering the next entry
  loses it (`Trim.NextDeliveryIsLost`, for one stream `Trim.DeliveryBetweenReadsLosesAnEntry`).
- Backoff wraps in 64 bits. A policy's ceiling is the intended one for an attempt iff the doubled base fits 64 bits or
  wraps to a value that is zero, negative or not below the cap (`Backoff.CeilingIsExactIff`). The default policy meets this
  for every attempt; any policy does up to `maxRetries` if its base, doubled for the last retry, still fits
  (`Backoff.FittingPolicyIsExact`); some do not (`Backoff.OtherPolicyWrapsBelowItsCeiling`).

## Model

| member | source | states |
|---|---|---|
| NoLoss.NoRequestIsLost | internal/worker/processor.go:327-446 | in every reachable state, for every entry ever put on the stream with a readable deployment id: the record is non-actionable, or the deployment is in the DLQ, or an undelivered/unacked entry of at least that attempt or an indexed envelope of a later one exists, or a delivery of at least that attempt was acked after a non-retryable failure with no actionable record |
| NoLoss.StepKeepsInv | internal/queue/dispatcher.go:55-73 | the accounting invariant survives every action, including a re-schedule between a dispatcher's publish and its remove |
| NoLoss.SameIdSameEnvelope | internal/queue/retry.go:20-25 | two well-formed envelopes with one id agree on deployment, attempt and code |
| ReadyEvent.ReadyEventIsNeverLost | internal/export/export.go:219-259 | while a deployment is ARTIFACT_READY through a worker's write, its ready event was appended or a DLQ entry, an unacked or undelivered entry, or an indexed envelope remains; exceptions, both only while it was ARTIFACT_READY: a delivery given up, or its stored valid retry displaced by a schema-invalid payload |
| ReadyEvent.CarryingEnvelopeEndsIff | internal/queue/retry.go:69-81 | in every state with the accounting invariant, so in every reachable one, a step ends what a stored envelope carries iff it writes a schema-invalid payload over its id or re-enqueues it |
| ReadyEvent.OwnHandlerKeepsSafe | internal/worker/processor.go:160-180 | a handler of a finished deployment either leaves its entry carrying the duty or discharges it or hands it on |
| ReadyEvent.PublishedEnvelopeCarriesOn | internal/queue/dispatcher.go:55-73 | an envelope carrying the duty passes it to the entry its re-enqueue appends |
| LostEvents.InvalidPayloadCanLoseTheReadyEvent | internal/queue/retry.go:69-81 | for every configuration with retries and every deployment whose export succeeds, a run keeping every rule of the guarantee ends ARTIFACT_READY with no event, DLQ entry, unacked entry, envelope, handler or re-enqueue left: an invalid payload displaced the retry |
| LostEvents.DroppedDeliveryCanLoseTheReadyEvent | internal/worker/processor.go:327-380 | the same by a reclaimed entry acked after a non-retryable failure to load the record |
| LostEvents.ReclaimedTwinCanLoseTheReadyEvent | internal/queue/redis.go:94-114 | the same with neither exception, breaking only one handler per entry: the twin acks on the conflict and the writer dies before it emits |
| LostEvents.LateRemovalCanLoseTheReadyEvent | internal/queue/dispatcher.go:55-73 | the same with neither exception, breaking only the rule on late writes: a retry parked between re-enqueue and removal of its id is removed with it |
| ExportRuns.PipelineCanLoseTheReadyEvent | internal/export/export.go:219-259 | all four runs for the pipeline itself and every queued deployment with a valid manifest |
| PoolAnswers.PoolRefinesUploading | internal/storage/storage.go:138-186 | whatever a returning pool run does, in every interleaving, with lost replies and expiry, answers one object at a time leave the same store and take the handler to the manifest on nil and to the failure of the pool's error otherwise |
| RetryBound.AckedExecutionsAreBounded | internal/worker/processor.go:336-340 | acked executions are at most (maxRetries+1) per publish plus maxRetries per interruption, and no attempt leaves its range |
| RetryBound.AckedExecutionLowersPotential | internal/worker/processor.go:383-409 | an acked execution takes its weight out of the potential, one unit more than its own handoff added |
| Histories.ExceptionsAreNarrow | internal/worker/processor.go:327-380 | the run theorems' exceptions grow only by an ack for want of a record of a pending entry, and by a schema-invalid payload in place of a stored valid one of a held deployment |
| Histories.MovesAreTheWorkersWrites | internal/deployment/client.go:79-100 | the recorded moves are exactly the record changes that are not others' doing |
| Histories.AcksAndPublishesAreCounted | internal/queue/redis.go:38-90 | an ack counts exactly when an entry leaves the pending list, a publish exactly when a producer makes it |
| Histories.CompletedWorkLeavesNoToken | internal/queue/dispatcher.go:55-73 | an acked handoff and a removed re-enqueue do not count as interruptions; only retries written and envelopes re-enqueued can |
| StatusSafety.WorkerMovesAreSafe | internal/worker/processor.go:451-469 | over whole runs worker status writes are only the four allowed moves, none leaves a non-actionable status, and no deployment gets both ARTIFACT_READY and EXPORT_FAILED |
| EnvelopeStore.StoreHalvesAgree | internal/queue/retry.go:84-129 | with one tick at a time hash keys equal index members after every step, at the right due times, and no tick ever drops an id |
| EnvelopeStore.HalvesAgreeIffNoStaleDrop | internal/queue/retry.go:84-129 | in every run with any number of dispatchers, hash and index agree in every state iff no tick drops an orphan whose payload is back |
| EnvelopeStore.UnindexesIffStaleDrop | internal/queue/retry.go:101-107 | from an agreeing store a step leaves a stored id unindexed iff it is such a drop |
| EnvelopeStore.SecondDispatcherCanUnindex | internal/queue/retry.go:94-107 | from every initial state, for every readable payload and retryable failure, a run with two ticks that leaves a stored envelope unindexed |
| ArtifactComplete.ReadyMeansComplete | internal/export/export.go:126-221 | in pinned runs with duplicates and stale records, whatever a worker set ARTIFACT_READY has its manifest stored, its pointer registered and every file stored under its key with its hash |
| ArtifactComplete.CallKeepsRight | internal/storage/storage.go:91-121 | no write of any export disturbs an object or manifest another export relies on |
| ExportRuns.ReadyArtifactIsStored | internal/export/export.go:74-260 | the same for the pipeline itself: a manifest that states record, place, entry, route, date and every file is stored under its key, the pointer states it field by field, and each listed file is stored with the recorded hash |
| ExportRuns.ManifestSays | internal/storage/manifest.go:71-95 | the manifest computed for an export states, field by field, the record, the artifact's place, entry and route of the slug, the date and each file's line |
| ExportRuns.ManifestStatesOneThing | internal/storage/manifest.go:71-95 | at most one manifest states all this |
| ExportRuns.PipelineEventsStateTheArtifact | internal/emit/emit.go:60-85 | in every pinned run of the pipeline every event on the outcome stream, fresh or re-emitted, states field by field its record, the artifact's place, the digest of the manifest that states the artifact, the slug's entry, and count and total size of the files |
| ExportRuns.ExpiryLeavesThePageUnstored | internal/export/export.go:154-178 | without the pinned upload context: for every queued deployment with a valid manifest, a run that ends ARTIFACT_READY, announced and acked, with the page the manifest lists missing |
| ExpiredUpload.ExpiryCanFinishIncomplete | internal/storage/storage.go:175-186 | the same for every configuration and every object the export should have stored |
| ExportRuns.PipelineKeysAreApart | internal/export/export.go:80-80 | slash-free ids and an allowlist admitting neither entry nor manifest name keep every two storage keys of all deployments apart |
| ExportRuns.PipelineNamesItsDeployment | internal/export/export.go:180-242 | the pipeline meets the configuration hypotheses of the ready-event guarantee |
| ReadyAgreement.ReadyEventsOfADeploymentAgree | internal/export/export.go:232-242 | any two ready events of one deployment are equal over whole runs, fresh or re-emitted |
| ExportRuns.PipelineEventsAgree | internal/export/export.go:322-354 | the same for the pipeline, from an invertible manifest codec on text manifests |
| Protocol.AckOnlyWithReason | internal/worker/processor.go:299-446 | an ack is the last call of a delivery and directly follows a durable reason |
| Protocol.OutcomeTellsAck | internal/worker/processor.go:33-43 | acking outcomes end with the ack; NoAck and LockConflict never ack; StopSafe acks or saw an active conflict |
| Protocol.StepKeepsWellFormed | internal/worker/processor.go:192-267 | from the lock on a handler works on an actionable record, in export on an EXPORTING one |
| Processor.Handle | internal/worker/processor.go:94-295 | one message, any answers: follows the protocol to its end, every call due by what was said before it and the end one that may be, acks only last and with a durable reason, and the outcome tells whether it acked |
| Conversations.EveryCallIsDue | internal/worker/processor.go:94-511 | told from the calls and answers alone: what must have been said before each kind of call, what the call then says, and on which answers a delivery may end, along every path of the protocol |
| Conversations.OnlyClearedRecordsAreWorkedOn | internal/worker/processor.go:149-215 | nothing is locked, moved, rendered, uploaded or registered unless the first call read an actionable record that matches the event, and nothing but the lock is asked for without the lock |
| Conversations.MismatchFailsTheDeployment | internal/worker/processor.go:189-191 | an event that does not match its actionable record leads to the EXPORT_FAILED write and to no lock, export or announcement |
| Conversations.RetriesAreDelayed | internal/worker/processor.go:383-391 | every retry asked for is the next attempt of the same message under the failed code, below the limit, after a retryable failure, and due between half and all of its intended delay after the clock reading |
| RetryTiming.StoredRetriesAreDelayed | internal/queue/retry.go:38-81 | over whole runs every stored envelope whose delay is exact is due in that window after some delivery's clock reading |
| Processor.HandleActionable | internal/worker/processor.go:192-295 | lock, status write with in-place record update, export, and the ack decision after each |
| Processor.HandleFinished | internal/worker/processor.go:155-180 | re-emit before acking a redelivery of a finished deployment; a failed re-emit does not ack |
| Processor.HandleInvalid | internal/worker/processor.go:101-123 | a schema-invalid payload is failed on its loaded record |
| Processor.Fail | internal/worker/processor.go:327-379 | the classified failure branches, each to its outcome |
| Processor.Exhausted | internal/worker/processor.go:413-446 | EXPORT_FAILED, then DLQ, then ack; a transient failure of the first leaves the entry pending |
| Processor.CasFailed | internal/worker/processor.go:451-469 | no write without an actionable record; a conflict with a non-actionable status counts as settled |
| Processor.ScheduleRetry | internal/worker/processor.go:383-409 | the envelope asked for is the next attempt's with its exact id and payload, due in its backoff window; acked only after the write succeeded |
| Processor.UnparseableToDlq | internal/worker/processor.go:299-324 | DLQ before ack, no status write |
| Processor.Ack | internal/worker/processor.go:503-512 | a failed ack changes no outcome |
| Session.Conversation.Call | internal/worker/processor.go:94-295 | only the call the protocol is at can be made, and the conversation stays on the protocol |
| Export.Export | internal/export/export.go:74-260 | stage order from slug to event: the exporter ends exactly where the protocol puts its result |
| Export.UploadObjects | internal/export/export.go:154-178 | waits for every object, stops at the first failure, and goes on when the context expired without one |
| Export.CasReady | internal/export/export.go:287-317 | emit after the write or on ARTIFACT_READY, stay quiet on other finished statuses, fail on active ones |
| Export.Register | internal/export/export.go:189-217 | the manifest is stored before its pointer, with its own digest, is registered |
| Export.Announce | internal/export/export.go:219-259 | the event follows the status write, is the last call, repeats the record's fields and states base path, manifest key, digest, entry, file count and size |
| Export.ReemitReady | internal/export/export.go:322-354 | the event sent again is the one the fetched manifest yields and repeats the record's fields; nothing without a manifest |
| Pipeline.CollectObjects | internal/export/export.go:127-146 | the loop yields one object and one manifest line per file in order and the byte total, or the first bad path's error |
| Pipeline.ObjectsMatchFiles | internal/export/export.go:131-141 | every object has its file's base-path key, body, MIME type, cache class and hash |
| Pipeline.ObjectsExistIff | internal/export/export.go:130-134 | every file has an object iff every path has a storage key |
| Pipeline.BundleLimitExactly | internal/export/export.go:147-153 | the objects are prepared iff all keys exist and the bodies together do not exceed a positive limit |
| Pipeline.ManifestObjectSays | internal/export/export.go:180-200 | the manifest object holds the encoding under the deployment's manifest key as uncached JSON with the encoding's hash, and passed its schema |
| Pipeline.DateHasAnOrder | internal/export/export.go:262-280 | the date is the event's, else that of a readable dated stored manifest, else the clock's |
| Pipeline.ReemitFidelity | internal/export/export.go:322-354 | the event rebuilt from a stored manifest equals the original in every modelled field, whatever the record's status now |
| Pipeline.RerunRebuildsTheManifest | internal/export/export.go:262-280 | a re-run builds the same manifest object, hence digest, with a dated event or a readable stored manifest |
| Export.ManifestCreatedAt | internal/export/export.go:269-280 | only an undated event asks the storage, once; the export goes on with the event's date, else a readable stored manifest's, else the clock's |
| Export.FinishExport | internal/export/export.go:180-259 | date, manifest, pointer, status write and event in this order, each failure ending the export where the protocol puts it |
| Manifest.BuildManifest | internal/storage/manifest.go:71-114 | one line per file in order, digest of the encoding; a manifest failing its schema is never returned |
| Dispatcher.Tick | internal/queue/dispatcher.go:45-73 | whatever the stores answer between calls: every envelope found is re-enqueued exactly once in order, and every removal directly follows its envelope's successful re-enqueue |
| Dispatcher.Due | internal/queue/retry.go:84-117 | a failed read ends the lookup; missing or unreadable payloads are dropped from the index as they are met, whether or not the drop gets through |
| Dispatcher.EverythingFoundIsReenqueued | internal/queue/dispatcher.go:55-68 | in every ended pass the re-enqueues are the envelopes the lookup found, in order |
| DispatcherRuns.MachineFollowsPass | internal/queue/dispatcher.go:45-73 | in every interleaving the step machine's dispatchers move exactly as a pass does on what it hears |
| DispatcherRuns.UndisturbedPass | internal/queue/dispatcher.go:45-73 | a pass nobody disturbs is a run of the step machine that leaves the stores as its turns say, whatever becomes of its drops, re-enqueues and removals |
| DispatcherRuns.RemovedOnlyAfterReenqueue | internal/queue/dispatcher.go:56-73 | an envelope leaves the store iff its publish succeeded and its removal took effect, and then its entry is on the stream |
| DispatcherRuns.StreamGrowsByReenqueues | internal/queue/dispatcher.go:55-68 | the stream grows by exactly the re-enqueues that took effect, in due order |
| Queue.DeliveredIsPublished | internal/queue/redis.go:38-54 | payload, attempt and metadata survive publishing and delivery |
| Queue.ForeignEntryIsOriginal | internal/queue/redis.go:166-176 | an entry whose attempt is missing or no number counts as an original publish |
| Queue.MainQueue.Publish | internal/queue/redis.go:38-54 | appends once unless the call failed |
| Queue.MainQueue.Fetch | internal/queue/redis.go:57-78 | delivers the next undelivered entries in order and makes exactly them pending |
| Queue.MainQueue.Ack | internal/queue/redis.go:82-90 | removes exactly the named entries from the pending set |
| Queue.MainQueue.Reclaim | internal/queue/redis.go:94-114 | hands out idle pending entries oldest first and unchanged, all of them when they fit |
| Queue.MainQueue.SendToDlq | internal/queue/redis.go:131-149 | appends the whole entry once unless the call failed |
| Queue.EnqueueTimeIsTheIdsTime | internal/queue/redis.go:153-163 | the enqueue time kept in a dead letter is the millisecond half of its stream id |
| Retry.EnvelopeIDInjective | internal/queue/retry.go:23-25 | the id determines deployment, attempt and code even when deployment ids hold colons |
| Retry.RetryStore.Schedule | internal/queue/retry.go:69-81 | writes payload and index together, overwriting the same id, and keeps their agreement |
| Retry.RetryStore.Due | internal/queue/retry.go:84-117 | returns the earliest due envelopes in order; ids without a readable payload leave the index, unreadable payloads are discarded, as far as these calls get through; none when hash and index agree |
| Retry.RetryStore.Remove | internal/queue/retry.go:121-129 | removes both halves and nothing else |
| Backoff.DefaultCeilingIsExact | internal/queue/retry.go:38-48 | min(10s * 2^(attempt-1), 5m) for every attempt although the 64-bit shift overflows |
| Backoff.DefaultDelayBounds | internal/queue/retry.go:49-55 | the delay lies between half the ceiling and the ceiling for any jitter |
| Backoff.JitterSpreadsEvenly | internal/queue/retry.go:49-55 | for every exact attempt the k-th of the equal parts of the jitter's range adds exactly k nanoseconds to half the intended delay |
| Backoff.EarlyAttemptsWaitLikeTheFirst | internal/queue/retry.go:38-48 | attempts below one wait like the first |
| Backoff.OverflowIsHarmless | internal/queue/retry.go:45-48 | past 29 doublings the wrapped value is zero, negative or above the cap |
| Backoff.CeilingIsExactIff | internal/queue/retry.go:41-48 | for every positive base and cap: the ceiling is the intended one iff the doubled base fits 64 bits or wraps to a harmless value |
| Backoff.FittingPolicyIsExact | internal/queue/retry.go:41-55 | a base that fits 64 bits when doubled for the last retry gives the intended ceiling and delay bounds for every retry |
| Backoff.OtherPolicyWrapsBelowItsCeiling | internal/queue/retry.go:30-48 | a policy that does not fit and waits about half its cap |
| Trim.TrimNeverRemovesUnackedEntry | internal/queue/trim.go:44-87 | with publishes, acks and other workers' trims anywhere, and something pending at the first read or no delivery between the reads, every removed entry is delivered, acked and older than the horizon |
| Trim.UnackedRemovalIff | internal/queue/trim.go:49-87 | for every interleaving, which entries are removed unacked: those delivered between the reads, still unacked and old, when nothing was pending at the first read |
| Trim.TrimIsSafeIff | internal/queue/trim.go:40-87 | a trim removes only acked old entries whatever happens meanwhile iff, before its first call, something is pending or no id still to be delivered is old enough |
| Trim.NextDeliveryIsLost | internal/queue/trim.go:49-87 | on every stream with nothing pending, delivering an old next entry between the reads loses it |
| Trim.BoundDenotesMinimum | internal/queue/trim.go:44-87 | the bound computed as text is the minimum of horizon, oldest pending and successor of last delivered |
| Trim.RedisDriver.TrimMain | internal/queue/trim.go:44-87 | run undisturbed it removes exactly the entries below all three bounds |
| Trim.RedisDriver.TrimStream | internal/queue/trim.go:32-38 | removes exactly the entries older than the horizon, none for a pre-epoch one |
| Trim.HorizonBoundsIffAtEpochOrLater | internal/queue/trim.go:91-93 | the horizon limits what is removed iff it is at or after the epoch |
| Trim.DeliveryBetweenReadsLosesAnEntry | internal/queue/trim.go:49-87 | one such stream |
| StreamId.NextParses | internal/queue/trim.go:130-139 | the successor text denotes the next 64-bit pair, wrapping to 0-0 at the last one |
| StreamId.SuccessorIsLeastAbove | internal/queue/trim.go:130-139 | the successor is the least larger id, except at the last id |
| StreamId.MinParses | internal/queue/trim.go:114-127 | the minimum of two texts denotes the smaller id |
| StreamId.UnparseableLoses | internal/queue/trim.go:114-139 | a side that is no id loses the minimum and has no successor; a bare time is that time's first id |
| StreamId.HorizonParses | internal/queue/trim.go:91-110 | a horizon text is an id iff the time is at or after the epoch |
| HarvestRun.Run | internal/harvest/harvest.go:130-219 | terminates for every origin, succeeds iff the page is harvestable, and returns the allowlisted closure, each path once, sorted, with fetched bodies |
| HarvestRun.KeepFile | internal/harvest/harvest.go:149-201 | a new file either breaks the budget for good or moves the walk's measure down |
| HarvestRun.EmptyQueueIsClosure | internal/harvest/harvest.go:160-215 | an empty queue means no reachable reference is bad and the visited paths are the closure |
| HarvestRun.WalkEnforcesBundleLimitIff | internal/harvest/harvest.go:146-158 | a harvestable page and its closure are within the whole-bundle limit iff the page alone is or the closure is not empty |
| HarvestRun.OversizedPageWithoutDependenciesIsHarvested | internal/harvest/harvest.go:130-219 | for every harvester and page whose bundle is over the limit: harvested iff acceptable and without dependencies |
| HarvestRun.OversizedPageExample | internal/harvest/harvest.go:130-219 | a page over the limit without references succeeds |
| HarvestRun.RelativeReferencesStayInOrigin | internal/harvest/harvest.go:203-210 | joining a relative reference to its stylesheet's directory leaves plain segments only |
| References.DirectoryOfFile | internal/harvest/harvest.go:280-280 | the directory of a path is the path without its last part, the root's files having the root |
| References.JoiningClimbs | internal/harvest/harvest.go:203-210 | a relative reference climbs one part per leading dot-dot, never above the root, and appends the rest |
| References.JoiningHere | internal/harvest/harvest.go:203-210 | a leading ./ changes nothing |
| References.StylesheetReferencesAreHarvested | internal/harvest/harvest.go:203-282 | a path a harvested stylesheet names from its own directory is in the closure if acceptable and allowlisted |
| References.RootedReferenceMeans | internal/harvest/harvest.go:191-260 | a rooted reference to an acceptable path, with any query, fragment and white space, means that path, used iff allowlisted |
| References.SkippedReferences | internal/harvest/harvest.go:169-190 | inline and external references are skipped |
| References.RelativeOrBlankIsSkipped | internal/harvest/harvest.go:163-213 | blank references and the page's own relative ones are skipped |
| References.AssetReferenceIsRejected | internal/harvest/harvest.go:174-177 | an asset reference rejects the page as unresolved |
| References.OptimizerReferenceIsRejected | internal/harvest/harvest.go:249-253 | an image optimizer reference rejects the page as unsupported |
| References.AllowlistMeans | internal/harvest/harvest.go:28-41 | a star entry admits what lies below its directory and nothing that merely begins alike, any other entry itself |
| References.PageGuardExactly | internal/harvest/harvest.go:222-232 | the page is refused iff it mentions an asset reference, or else the image optimizer, with the code of each |
| References.StylesheetGuardExactly | internal/harvest/harvest.go:235-241 | a fetched path is refused iff it is a stylesheet that mentions an asset reference |
| Harvest.PathLessIsByteOrder | internal/harvest/harvest.go:217-217 | the sort order is byte by byte, a proper prefix first |
| Harvest.Bundle.AppendFile | internal/harvest/harvest.go:149-158 | the budget check after the append: never more than one body over the limit |
| Harvest.HarvestSameOrigin | internal/harvest/harvest.go:243-286 | each allowlisted path is fetched once, guarded, and yields its stylesheet references |
| Paths.NormalizeAcceptsExactly | internal/harvest/paths.go:43-90 | accepted results are exactly the canonical paths reached within four decodings |
| Paths.NormalizeIsIdempotent | internal/harvest/paths.go:43-90 | an accepted result is canonical and comes back unchanged |
| Paths.EscapedPathIsRecovered | internal/harvest/paths.go:43-90 | a canonical path under up to four percent-escape layers, each digit in either case, is recovered |
| Paths.UnescapeOfSpelling | internal/harvest/paths.go:51-60 | every byte, escaped in either case, decodes to itself whatever follows |
| Paths.UnescapeFailsIff | internal/harvest/paths.go:51-54 | a decoding round fails iff some '%' is not followed by two hex digits |
| Paths.HexDigitsAre | internal/harvest/paths.go:51-51 | exactly the sixteen digits in upper and lower case are hex digits |
| PathRules.RootedPathAcceptedIff | internal/harvest/paths.go:60-90 | which unescaped rooted paths are accepted, by their parts: all names of printable characters without backslash, the first naming no drive |
| PathRules.UnrootedPathFails | internal/harvest/paths.go:76-78 | an unescaped path that is not rooted is rejected |
| PathRules.KeyExistsIff | internal/harvest/paths.go:98-113 | which artifact paths have a key, by their parts, and what it is |
| PathRules.UnrootedPathHasNoKey | internal/harvest/paths.go:103-105 | a path that is not rooted has no key |
| PathRules.SlugLeadsTo | internal/harvest/paths.go:24-35 | entry and route of every slug: white space and outer slashes do not matter, index is the root, an unacceptable route is INVALID_SLUG |
| PathRules.BlankSlugs | internal/harvest/paths.go:24-35 | blank slugs and one slash lead to the root, more slashes nowhere |
| Text.TrimSpaceKeeps | internal/harvest/harvest.go:163-166 | trimming takes the white space around a text and nothing else |
| Paths.NormalizePath | internal/harvest/paths.go:43-90 | the decoding loop computes the specified result |
| Paths.MapSlug | internal/harvest/paths.go:24-35 | entry and route of a slug |
| Paths.StorageKey | internal/harvest/paths.go:98-113 | the segment checks compute the specified key |
| Paths.ProducedPathsHaveKeys | internal/harvest/paths.go:24-113 | a storage key exists for whatever the path producers accept |
| Paths.KeyIsConfined | internal/harvest/paths.go:98-113 | a key resolves lexically to its base followed by plain segments |
| Paths.KeyIsInjective | internal/harvest/paths.go:98-113 | one key per path below a base |
| Paths.KeysOfDeploymentsAreDisjoint | internal/export/export.go:80-80 | keys of two (site, deployment) pairs with slash-free ids never coincide |
| UploadPool.NilMeansAllStored | internal/storage/storage.go:138-186 | without an expiring caller context: nil iff every object succeeded, counts add up, every key holds its hash, in every interleaving |
| UploadPool.CountsTellCompleteness | internal/storage/storage.go:138-186 | at any return all objects succeeded iff uploads and skips add up to their number |
| UploadPool.SecondCallSkipsEverything | internal/storage/storage.go:91-121 | a second call on the kept store writes nothing and, returning nil, skips all |
| UploadPool.NilIsReliableIff | internal/storage/storage.go:138-186 | nil means every object stored in all runs iff the caller's context cannot expire or there is nothing to upload |
| UploadPool.NilIsCompleteIffAllHandedOut | internal/storage/storage.go:174-186 | in any run returning nil, all objects succeeded iff all were handed out |
| UploadPool.ExpiryCanReturnNilIncomplete | internal/storage/storage.go:175-186 | for all objects, stores and concurrencies, an expiring context can make the call return nil with nothing done |
| UploadPool.StepConserves | internal/storage/storage.go:153-183 | every object handed out is with one worker or reported once |
| UploadPool.FirstErrorStays | internal/storage/storage.go:160-164 | the error returned is the first one reported |
| UploadPool.ObjectStore.EnsureUploaded | internal/storage/storage.go:91-121 | skips iff the key already holds the hash; success means it does; a failed check writes nothing |
| UploadPool.ObjectStore.FetchIfExists | internal/storage/storage.go:190-205 | absence is not an error |
| UploadPool.PoolSize | internal/storage/storage.go:139-144 | between one and sixteen workers: what was asked for, sixteen if more was, eight if nothing positive was |
| Lock.YoungLeaseExcludes | internal/lock/lock.go:78-96 | over timed steps with lost replies and dead workers, a lease that succeeded within the TTL and was not released has the lock, blocks every acquire and is the only such lease |
| Lock.OnlyReleaseOrTimeEndsIt | internal/lock/lock.go:101-143 | nothing but its own release or time stops a lease from excluding |
| Lock.OnlyTheOwnerChangesTheLock | internal/lock/lock.go:25-40 | renew or release by a non-owner leaves the table unchanged; an owner touches no other key |
| Lock.LockLives | internal/lock/lock.go:25-96 | a free lock goes to whoever asks, blocks everybody until its TTL has passed or its owner frees it, is free from then on, and a renewal starts the TTL anew |
| Lock.GapsBelowTtlKeepTheLock | internal/lock/lock.go:101-128 | failed heartbeats lose nothing while effective ones are less than a TTL apart |
| Lock.Lease.Heartbeat | internal/lock/lock.go:101-128 | one renewal per tick; ends at the first answered renewal that found the lock gone |
| Lock.Lease.Release | internal/lock/lock.go:131-143 | stops the heartbeat and frees only an owned lock |
| Lock.Locker.Acquire | internal/lock/lock.go:78-96 | a lease iff the key was free and the reply arrived; otherwise the holder keeps it |
| Lock.TtlFor | internal/lock/lock.go:44-50 | render plus upload timeout plus a minute, at least ninety seconds |
| Deployment.Service.Transition | internal/deployment/client.go:79-100 | a compare-and-set that moves the record iff it was in the expected status and the request got through; conflicts report the current status and every failure its code |
| Deployment.Service.SubmitArtifact | internal/deployment/client.go:163-176 | a registered pointer never changes; the same pointer is accepted again, a different one refused as VALIDATION_FAILED, and every other failure has its code |
| Deployment.ClassifyByStatus | internal/deployment/client.go:137-156 | the registry code of each HTTP status and of no answer |
| Deployment.Reconcile | internal/deployment/client.go:57-73 | accepts iff all hints equal the record's, otherwise a validation failure |
| Deployment.ClassifyRetriesExactly | internal/deployment/client.go:137-156 | retried iff there was no answer or a 5xx |
| Deployment.StatusesPartition | internal/deployment/client.go:113-131 | every status but PENDING is exactly one of actionable and non-actionable |
| ErrClass.From | internal/errclass/errclass.go:86-92 | a classified failure keeps its code; unclassified ones are retryable |
| ErrClass.RegistryClasses | internal/errclass/errclass.go:18-26 | the seven retryable codes by name, and the worker's own codes that are not retryable |

## Left out

- Dry-run mode, which acks without any handoff and is restricted to local development.
- HTTP, Redis and S3 plumbing and generated bindings: the systems are maps, sequences and replies.
- HTML tokenizing, the CSS url pattern, MIME and URL parsing: reference extraction, `isCSS` and fetch results are functions.
- Mirroring of external assets: the harvester is the one without an external fetcher, which skips external references.
- Multi-byte Unicode white space: trimming removes the ASCII white space characters.
- SHA-256, JSON and the schema validator: an arbitrary hash, a codec that inverts on text manifests, and a predicate.
- Parsing of request events: a payload arrives as unparseable, schema-invalid with an id, or valid with hints and date; the same payload always parses alike.
- Cache-control classes and the status-code tables of the storage and render clients.
- Emission of the failed event, which the worker does on a best-effort basis.
- Trace ids, stages, logs, metrics, timings and the job timeout as such: a timed-out call is an error reply.
- Which code a failed upload reports: any code, ARTIFACT_UPLOAD_TIMEOUT among them.
- A processor wired without a re-emitter, which acks ARTIFACT_READY redeliveries at once.
- The deployment id inside a loaded record: it is the id the record was loaded under.
- Requests that take effect after their caller has given up and moved on: a lost reply's effect happens at the call.
- Trimming inside the step machine: stream ids and trimming are modelled on their own, entries there are numbered.
- Floating-point rounding in the jitter product: it is computed over reals.
- When retries, reclaims and heartbeats happen: time is free in the step machine.
- Export.UploadObjects: objects are answered for one at a time in any order; the pool's counters, cancellation and interleavings are in UploadPool, and PoolAnswers.PoolRefinesUploading connects the two while nobody else writes to the storage.
- ReadyEvent.ReadyEventIsNeverLost: assumes one handler per pending entry and no schedule of an id a dispatcher is about to remove; without either the event can be lost (LostEvents.ReclaimedTwinCanLoseTheReadyEvent, LostEvents.LateRemovalCanLoseTheReadyEvent).
- ArtifactComplete.ReadyMeansComplete: assumes pinned renders, one manifest date per deployment and uploads whose context does not expire; without the last it fails (ExpiredUpload.ExpiryCanFinishIncomplete), and differing renders overwrite each other's objects.
- Unreadable stored envelopes inside the step machine, where every payload written can be read back.
