# Verified model of the CTI feed pipeline

A Dafny model of the feed pipeline of the `cti` package and proofs about it. `dafny verify dfyconfig.toml`
checks everything. The model covers five parts.

**The seven-stage pipeline** (`StageQueues`, `Deduping`, `PersistStage`, `PublishStage`, `PipelineMachine`,
`PipelineSafety`, `PipelineMeaning`, `Enriching`, `PipelineProgress`, `WindDowns`, `Publishers`). Fetch, parse,
normalize, enrich, dedup, persist and publish are seven programs over six bounded queues. A step is one turn of
one stage, a failure inside a stage, a cancellation, or the group's decision to wind down; any interleaving is a
run. Plugins, extra publishers among them, are arbitrary functions that may raise; a publisher may do so
half-way through a batch. The reference is one sequential program, `PipelineMachine.Meaning`: payload by
payload, record by record, each carried through on its own. What it holds is spelled out record by record: the
enrichers each sighting has been led through, and the run, the source and the raw record it carries.

**The store and recovery** (`IndicatorStore`, `Recovery`). One upsert statement per batch, the fold that any
history of statements amounts to, and the table after any number of interrupted runs and one complete one,
each with a clock of its own.

**The rate limiter** (`RateLimit`). The local bucket, the Lua script, the waiting loop, the per-host groups, and
the expiry of the Redis key.

**Running feeds** (`CircuitBreakers`, `FeedRunner`, `RunnerTheorems`, `Reports`, `Outcome`, `EndToEnd`). The
breaker against a predicate on its event history; any number of `execute` calls interleaved over semaphores,
breaker, run rows and watermarks; what each step writes and tells the breaker; how a tree of exceptions becomes an
outcome; and the runner with the pipelines it drives: a finished row tells what its run raised, and when a
watermark moves, what it stands for is stored.

**Identity and storage names** (`Text`, `Refanging`, `Spellings`, `Urls`, `PlainUrls`, `Hashing`, `FirstPass`,
`UrlFirstPass`, `Identity`, `Building`, `Defanging`, `Undefanging`, `NestedTokens`, `Partitioning`). What
canonicalizing gives for every way of writing a value, and when a second pass changes nothing; the ids derived
from that; the uniqueness of the table over whole runs, the enricher that can break it, and the monthly partitions.

`Sequences` and `Models` hold the shared vocabulary.

## What the code does not do

Each of these is a lemma below.

- Winding a run down can hang. A cancelled stage still waits to put its end marker into a full queue whose
  reader is gone. For a given feed this is possible if and only if queues are bounded and the records that
  parse puts before it raises fill one (`StickIffRecordsFillQueue`).
- Publishers that share a name share a buffer. Every publisher gets the whole stream if and only if names
  are distinct or batches hold one item (`CompleteIffUnshared`).
- Dedup forwards repetitions, as its comments promise, but the upsert statement refuses a batch that names a
  row twice. With all other plugins clean, a feed can succeed if and only if no batch repeats a row
  (`SuccessIffBatchesDistinct`); two equal records in one batch are enough (`RepeatedRowNeverSucceeds`).
- A run repeated after a crash does not leave quite the table of one run: normalization stamps each attempt's
  own times, and a stored first-seen time stays. All other columns agree (`CrashRecovery`), and the whole table
  does if and only if no attempt stored a new row with another first-seen time
  (`FullRecoveryIffSameFirstTimes`).
- A row is left RUNNING for ever by exactly three kinds of steps: an exception outside the framework's own, a
  cancellation while the row is owned, and a finalization that fails (`OrphanedExactlyByLettingGo`). A RUNNING
  row can still be finalized if and only if some execution owns it (`FinishableIffOwned`).
- A framework exception never leaves `run_with_outcome` (`Classify`), so the retry around it never retries a
  pipeline and the dead-letter branch never sees a pipeline error.
- A run that is admitted and then lost, because its specification does not build or it is cancelled, reports
  nothing to the breaker. Such runs are admitted without limit, below the threshold and while HALF_OPEN
  (`LostRunsAreUnlimited`, `LostProbesAreUnlimited`). The breaker bounds all admissions in windows without a
  success if and only if every admitted run reports (`BoundIffReported`, `AdmissionsBoundedIffReported`).
- The HALF_OPEN test in `on_failure` changes nothing: HALF_OPEN already implies enough failures
  (`StateMeaning`).
- With two runs of a source at a time a success can be reported to an open breaker, whatever the policy
  (`OpenAtSuccessIffParallel`).
- The one-hour expiry of a Redis key changes decisions if and only if an hour does not refill the bucket
  (`ExpiryInvisibleIffHourRefills`).
- Canonicalization is not always a projection. For domains and mail addresses it fails exactly when the name,
  refanged and without its final dots, ends in a line break, which the label pattern lets through; for URLs
  exactly when the result has lost its host, shows its default port again, has rejected brackets, ends in white
  space or still holds something to refang (`ProjectionIffStable`, `UrlIsFixedIffSettled`, `PortGivenTwice`,
  `PortWithoutHost`). On ordinary URLs none of this happens (`OrdinaryUrlProjects`).
- The defang enricher rewrites a value without its id. For built indicators, IP addresses aside, the id stays
  right if and only if the value holds none of the seven patterns (`EnrichedIsNamedIffNoPattern`); for URLs
  this supposes a canonical form that is a fixed point, and is false without (`RewrittenButNamed`). The
  mutexes `a[.]b` and `a.b` end up with one value and two ids, and so do `http://a{dot}b/` and `http://a.b/`;
  the table refuses each pair (`EnrichedMutexesCollide`, `EnrichedUrlsCollide`).
- The enricher describes itself as idempotent. A second application changes nothing if and only if replacing its
  five marks in turn has left none of them (`TwiceIsOnceIff`); `[(.)]` takes two (`TwiceIsMore`).
- A disguised at sign is refanged in the domain of a mail address only: an address whose one at sign is written
  `[at]` is rejected (`AtIsNeeded`).

## Model

| member | source | states |
|---|---|---|
| `StageQueues.Put` | src/cti/core/queue.py:26-28 | a put appends to what the consumer will see and, on an open queue, puts nothing behind an end marker |
| `StageQueues.Seal` | src/cti/core/queue.py:30-33 | closing changes neither the stream nor whether its end has been put |
| `StageQueues.PutEnd` | src/cti/core/queue.py:34 | the end marker is put once, last, and only on a closed queue |
| `StageQueues.Pop` | src/cti/core/queue.py:36-41 | receiving changes nothing that the producer can observe |
| `StageQueues.StageQueue.TryPut` | src/cti/core/queue.py:26-28 | the object moves as the value does; it waits exactly when a bounded queue is full |
| `StageQueues.StageQueue.BeginClose` | src/cti/core/queue.py:30-33 | a second close does nothing |
| `StageQueues.StageQueue.TryPutEnd` | src/cti/core/queue.py:34 | the end marker needs room like any item |
| `StageQueues.StageQueue.TryGet` | src/cti/core/queue.py:36-41 | items come in the order put; at the end marker everything put has been received |
| `PersistStage.RunPersist` | src/cti/core/stages/persist.py:26-52 | stored batches are a prefix of the reference cut, exactly the stored ones are forwarded, and the stage stops at the first refused batch |
| `PublishStage.RunPublish` | src/cti/core/stages/publish.py:25-49 | the loop over one dictionary of buffers succeeds exactly when every batch it plans is delivered; then it has handed over the whole plan, otherwise a part of it, and without shared buffers always a prefix of the reference batches |
| `PublishStage.DeliverKeeps` | src/cti/core/stages/publish.py:44-47 | what a publisher has received and holds grows by the sighting, in full batches |
| `PublishStage.DeliverSpares` | src/cti/core/stages/publish.py:44-47 | delivering to one publisher leaves the others alone when no buffer is shared |
| `PublishStage.PublishedIsComplete` | src/cti/core/stages/publish.py:43-49 | each publisher's batches are the reference cut of the stream |
| `PublishStage.CompleteIffUnshared` | src/cti/core/stages/publish.py:30-49 | completeness for every stream holds if and only if names are distinct or batches hold one item |
| `PipelineSafety.FetchTurnKeeps` | src/cti/core/stages/fetch.py:22-29 | what fetch has put is a prefix of the payloads; it closes only after all of them |
| `PipelineSafety.WorkerTurnKeeps` | src/cti/core/stages/parse.py:20-29 | a stage has put a prefix of what its received inputs stand for, and all of it when it ended normally |
| `PipelineSafety.WorkerInterruptKeeps` | src/cti/core/stages/enrich.py:19-31 | the same after a failure or cancellation at any point |
| `PipelineSafety.PersistTurnKeeps` | src/cti/core/stages/persist.py:28-52 | forwarded is a prefix of stored, which is a prefix of received, in accepted batches of the right size |
| `PipelineSafety.PersistInterruptKeeps` | src/cti/core/stages/persist.py:28-52 | the same when publishing is interrupted before or after its commit, or forwarding half-way |
| `PipelineSafety.PublishTurnKeeps` | src/cti/core/stages/publish.py:43-49 | every publisher has received a prefix of the stage's input |
| `PipelineSafety.PushKeeps` | src/cti/core/stages/publish.py:36-41 | a batch that is taken advances the plan; one that raises leaves its sent part behind and ends the stage |
| `PipelineSafety.PublishInterruptKeeps` | src/cti/plugins/publishers/kafka.py:64-76 | an interruption in the middle of a send leaves the next batch of the plan half-way out and nothing else |
| `PipelineSafety.StepKeeps` | src/cti/core/pipeline.py:61-78 | every turn, failure, cancellation and wind-down keeps all stage and queue invariants |
| `PipelineSafety.RunKeeps` | src/cti/core/pipeline.py:61-78 | they hold after every run |
| `PipelineSafety.ReachableInv` | src/cti/core/pipeline.py:61-78 | they hold in every reachable state |
| `PipelineMeaning.SequentialIsStages` | src/cti/core/pipeline.py:61-78 | carrying records through one at a time means the same as composing the stages on whole streams; what each stage makes of a record is said by `ChainIffTrace`, `MeaningIsWhatStems` and `CleanUpstreamIff` |
| `Enriching.ChainIffTrace` | src/cti/core/stages/enrich.py:20-29 | the chain keeps y exactly if the enrichers, each given what the one before kept, lead from x to y; it drops the indicator, or raises, exactly if they lead to one that does |
| `Enriching.EnrichInTurn` | src/cti/core/stages/enrich.py:20-29 | the loop answers what such a trace leads to |
| `Enriching.MeaningIsWhatStems` | src/cti/core/stages/persist.py:38-47 | a feed means exactly the sightings that stem from a record of a payload through its normalized form and the enrichers; each carries that record, the run, the source, and the enriched id, TLP and confidence |
| `Enriching.CleanUpstreamIff` | src/cti/core/stages/normalize.py:90-100 | nothing before the store raises exactly if fetch and parsing do not and every record is accepted, or is rejected while errors are skipped, and meets no raising enricher |
| `Deduping.BloomCache.Insert` | src/cti/core/stages/dedup.py:27-33 | sends one insertion if there is a server, and survives whatever it answers |
| `Deduping.BloomCache.Exists` | src/cti/core/stages/dedup.py:35-42 | answers yes exactly when a server is there, does not fail, and says so |
| `Deduping.RunDedup` | src/cti/core/stages/dedup.py:45-59 | for any server, answers and failures, the loop forwards exactly its input and inserts every id |
| `PipelineMeaning.DedupIsTransparent` | src/cti/core/stages/dedup.py:51-59 | so on whole streams the stage is the identity and never raises |
| `PipelineMeaning.InputsArePrefixes` | src/cti/core/pipeline.py:46-78 | in every reachable state each stage has seen a prefix of its stream in a complete run |
| `PipelineMeaning.DurabilityFence` | src/cti/core/stages/persist.py:3-4 | published is a prefix of forwarded, of stored, of the sequential meaning, at every step of every run under any failures |
| `PipelineMeaning.ReceivedIsPrefix` | src/cti/core/stages/publish.py:32-49 | what a publisher has taken, with the batch it was sending, is a prefix of the stage's input |
| `PipelineMeaning.AllTakenIsPerChunk` | src/cti/core/stages/publish.py:43-49 | without shared buffers, no planned batch raises exactly when no batch of the reference cut does |
| `PipelineMeaning.OneEndMarker` | src/cti/core/queue.py:15-19 | each queue holds at most one end marker and nothing is ever put behind it |
| `PipelineMeaning.SuccessIsComplete` | src/cti/core/pipeline.py:61-90 | a run that ends well has stored the whole meaning in order, handed it to every publisher, and no plugin raised |
| `PipelineProgress.SomeStageMoves` | src/cti/core/pipeline.py:46-78 | as long as no stage has returned early, an unfinished run has a stage that can move, for every queue and batch size |
| `PipelineProgress.NoDeadlock` | src/cti/core/pipeline.py:46-78 | an unfinished run that cannot go on holds a stage that returned by an exception or a cancellation, so failures surface and nothing else blocks |
| `PipelineProgress.StepDrops` | src/cti/core/pipeline.py:61-78 | every step lowers the lexicographic rank of the work left |
| `PipelineProgress.NoInfiniteRun` | src/cti/core/pipeline.py:61-78 | no infinite run exists, whatever the scheduling and the failures |
| `PipelineProgress.NextBatchAccepted` | src/cti/core/stages/persist.py:28-31 | the batch about to be published is the next one of the meaning's reference cut |
| `PipelineProgress.FaultFreeStaysHealthy` | src/cti/core/pipeline.py:61-78 | only a plugin that raises can end a stage in an exception |
| `PipelineProgress.RunPipeline` | src/cti/core/pipeline.py:44-90 | under any scheduler the run returns; it succeeds if and only if no plugin raises, and then all is stored and published |
| `PipelineProgress.SuccessIffFaultFree` | src/cti/core/pipeline.py:61-90 | some run succeeds if and only if no plugin, extra publishers included, raises on the feed |
| `PipelineProgress.MaximalRunSucceeds` | src/cti/core/pipeline.py:61-90 | and then every undisturbed run that cannot go on has succeeded |
| `WindDowns.StuckShape` | src/cti/core/stages/dedup.py:58-59 | an aborting run is stuck exactly when cancelled stages wait to close full queues and the rest have returned |
| `WindDowns.StuckNeedsRecords` | src/cti/core/queue.py:30-34 | getting stuck needs a bounded queue that the records of the feed fill, whichever stage hangs |
| `WindDowns.FullQueueSticks` | src/cti/core/queue.py:30-34 | for every such feed there is a run that is cancelled and gets stuck |
| `WindDowns.StickIffRecordsFillQueue` | src/cti/core/queue.py:23-34 | a run of a feed can hang if and only if its queues are bounded and its records fill one |
| `WindDowns.StickIffBounded` | src/cti/core/queue.py:23-34 | some run can hang if and only if the queues are bounded |
| `Publishers.PublishBatch` | src/cti/plugins/publishers/kafka.py:57-76 | sends the allowed sightings in order up to the first send that raises; a violation exactly when all are too strict |
| `Publishers.TooStrictIffAbove` | src/cti/plugins/publishers/webhook.py:42-45 | a sighting is held back exactly when its TLP is above the ceiling in the order CLEAR, GREEN, AMBER, AMBER+STRICT, RED; at the ceiling it is sent |
| `Publishers.AllowedArePicked` | src/cti/plugins/publishers/webhook.py:42-45 | what is sent is picked from the batch in order: every sighting that may be seen, and no other |
| `Publishers.EmittedIsAllowed` | src/cti/plugins/publishers/webhook.py:42-47 | how a stream is cut into batches does not change what is sent |
| `Publishers.BatchingIsInvisible` | src/cti/core/stages/publish.py:32-49 | at every step, even stopped half-way through a batch, a publisher has sent a prefix of the stored stream filtered by its ceiling; after success exactly the filtered meaning |
| `IndicatorStore.IndicatorRepo.UpsertBatch` | src/cti/persistence/repositories.py:29-80 | accepts exactly the batches with distinct ids that keep type and value unique; then the table is the fold and each sighting's observation is appended in order, otherwise nothing changes |
| `IndicatorStore.StatementIsUpserts` | src/cti/persistence/repositories.py:51-64 | one statement with distinct ids equals its rows upserted one by one |
| `IndicatorStore.BatchingIsIrrelevant` | src/cti/persistence/repositories.py:29-64 | any cut into batches with distinct ids stores the same table |
| `IndicatorStore.RowClosedForm` | src/cti/persistence/repositories.py:52-63 | a row keeps its first values, the maxima of confidence and last-seen, and the last tags |
| `IndicatorStore.OrderIsIrrelevant` | src/cti/persistence/repositories.py:54-60 | histories with the same sightings leave the same ids, confidences and last-seen times |
| `IndicatorStore.OrderMattersForTags` | src/cti/persistence/repositories.py:61 | tags and first-seen times do depend on the order |
| `IndicatorStore.RowsOnlyGrow` | src/cti/persistence/repositories.py:54-61 | rows never disappear, maxima never fall, other columns never change |
| `IndicatorStore.SameSightingsAbsorb` | src/cti/persistence/repositories.py:24-24 | folding in the very same sightings again from the beginning changes nothing |
| `IndicatorStore.ReplayAbsorbs` | src/cti/persistence/repositories.py:24-24 | a run that stopped anywhere, repeated at another time, gives the table of one full run in all columns but the two times |
| `IndicatorStore.CompleteRunRepairs` | src/cti/persistence/repositories.py:24-24 | the same after any number of stopped attempts, each at its own time |
| `IndicatorStore.TimesAfterRepair` | src/cti/persistence/repositories.py:54-61 | then first-seen is that of the first sighting of the row in any attempt, and last-seen the latest of all |
| `IndicatorStore.EarliestAttempt` | src/cti/persistence/repositories.py:54-61 | that first sighting is in the earliest attempt that stored the row |
| `IndicatorStore.SameTableIffSameFirstTimes` | src/cti/persistence/repositories.py:54-61 | if no attempt saw anything later than the complete run, the tables are equal exactly when first-seen times are |
| `Recovery.SameFeedSameStream` | src/cti/core/stages/normalize.py:73-80 | runs of one feed at different times mean the same indicators up to the times stamped on them |
| `Recovery.CrashRecovery` | src/cti/core/stages/persist.py:3-4 | after any attempts with any failures, each with its own clock and sizes, one successful run leaves every column but the two times as a single successful run does |
| `Recovery.RecoveredTimes` | src/cti/core/models.py:68-69 | the two times are those of the first and the latest sighting over all attempts |
| `Recovery.FullRecoveryIffSameFirstTimes` | src/cti/core/models.py:68-69 | the whole table is that of a single run exactly when no attempt stored a new row with another first-seen time |
| `Recovery.SuccessIffBatchesDistinct` | src/cti/core/stages/dedup.py:54-57 | judged by the store and with all other plugins clean, a feed can succeed if and only if no batch repeats a row |
| `Recovery.UndisturbedRunSucceedsIffDistinct` | src/cti/core/stages/dedup.py:54-57 | and exactly then every undisturbed run that cannot go on has succeeded |
| `Recovery.RepeatedRowNeverSucceeds` | src/cti/core/stages/dedup.py:54-57 | a concrete feed with two equal records in one default-sized batch never succeeds |
| `RateLimit.NoWaitMeansGranted` | src/cti/core/ratelimit.py:69-71 | a non-positive wait means the cost was charged, and only then |
| `RateLimit.TokenBucket.Create` | src/cti/core/ratelimit.py:57-60 | non-positive rates are refused and the burst defaults to at least one |
| `RateLimit.TokenBucket.TryLocal` | src/cti/core/ratelimit.py:79-92 | the try's wait and the key's new bucket; other keys stay |
| `RateLimit.FirstTry` | src/cti/core/ratelimit.py:82-91 | a key seen for the first time has its whole burst to spend |
| `RateLimit.WaitIsLeast` | src/cti/core/ratelimit.py:92 | the wait is the shortest after which the cost is covered |
| `RateLimit.TokenBucket.Acquire` | src/cti/core/ratelimit.py:66-72 | alone on its key, a cost within the burst is granted by the second try at the latest, a larger one never; until then every try is denied |
| `RateLimit.HostRateLimiter.Try` | src/cti/core/ratelimit.py:121-129 | an overridden host is judged by its own bucket and limits and leaves the default group alone; every other host is judged by the default group's; no other host's bucket is touched |
| `RateLimit.HostRateLimiter.Create` | src/cti/core/ratelimit.py:115-125 | one group of the default rate and one of each overridden host's own rate, all with the default burst and empty; a non-positive rate is refused |
| `RateLimit.AdmittedPlusLeft` | src/cti/core/ratelimit.py:86-91 | admitted cost plus what is left never exceeds the burst plus what has dripped in |
| `RateLimit.TokensInRange` | src/cti/core/ratelimit.py:86-91 | tokens stay between zero and the burst |
| `RateLimit.WindowBound` | src/cti/core/ratelimit.py:79-92 | in every window of every history at most burst plus rate times forward clock movement is admitted |
| `RateLimit.TooDearNeverGranted` | src/cti/core/ratelimit.py:87-92 | a cost above the burst is never granted |
| `RateLimit.RetryAfterWait` | src/cti/core/ratelimit.py:68-72 | after the returned wait the retry succeeds unless another call on the key was granted meanwhile |
| `RateLimit.HostsAreIndependent` | src/cti/core/ratelimit.py:127-129 | a host's bucket after any history depends on its own calls only |
| `RateLimit.ScriptIsTry` | src/cti/core/ratelimit.py:32-48 | the script gives the local bucket's answer from the same stored bucket |
| `RateLimit.RedisIsLocal` | src/cti/core/ratelimit.py:32-48 | on the same timestamped calls, expiry included, the Redis bucket equals the local one |
| `RateLimit.RedisDecidesLikeLocal` | src/cti/core/ratelimit.py:94-109 | every wait on the way is the same |
| `RateLimit.ExpiryInvisibleIffHourRefills` | src/cti/core/ratelimit.py:46 | the expiry never shows if and only if an hour refills the bucket |
| `RateLimit.DefaultBurstCondition` | src/cti/core/ratelimit.py:60 | with the default burst this is a rate of one request an hour or more |
| `CircuitBreakers.CircuitBreaker.Before` | src/cti/manager/circuit_breaker.py:32-41 | rejects while open and not recovered; lets a probe through as HALF_OPEN |
| `CircuitBreakers.CircuitBreaker.OnSuccess` | src/cti/manager/circuit_breaker.py:43-47 | closes and forgets the failures |
| `CircuitBreakers.CircuitBreaker.OnFailure` | src/cti/manager/circuit_breaker.py:49-58 | counts, and opens at the threshold or from HALF_OPEN |
| `CircuitBreakers.BreakerRegistry.Get` | src/cti/manager/circuit_breaker.py:79-85 | one breaker per source, with the policy seen first |
| `CircuitBreakers.StateMeaning` | src/cti/manager/circuit_breaker.py:32-58 | CLOSED exactly below the threshold; otherwise the opening time is the last failure; HALF_OPEN only after recovery |
| `CircuitBreakers.BreakerFollowsRule` | src/cti/manager/circuit_breaker.py:32-58 | rejects exactly when failures since the last success reach the threshold and the last is not recovered from |
| `CircuitBreakers.InFlightMeansNotOpen` | src/cti/manager/circuit_breaker.py:32-58 | one run at a time reports to a breaker that is not open |
| `CircuitBreakers.SuccessWhileOpen` | src/cti/manager/circuit_breaker.py:43-58 | for every policy, with two in flight it can be open |
| `CircuitBreakers.SerialFlightsTrack` | src/cti/manager/circuit_breaker.py:32-58 | once the failures since the last success reach the threshold, serial runs start at least the recovery time after every failed one |
| `CircuitBreakers.ProbeBound` | src/cti/manager/circuit_breaker.py:32-58 | in any window of a serial history without a success, admissions beyond threshold and lost runs, the one in flight included, times the recovery time are at most the window length |
| `CircuitBreakers.LostRunsAreUnlimited` | src/cti/manager/runner.py:56-62 | runs that report nothing are admitted without limit at one instant below the threshold |
| `CircuitBreakers.LostProbesAreUnlimited` | src/cti/manager/circuit_breaker.py:32-41 | and just so in HALF_OPEN once the threshold has been reached |
| `CircuitBreakers.AllowanceIsExact` | src/cti/manager/circuit_breaker.py:32-58 | with at most so many lost runs, an allowance bounds all windows without a success if and only if it is at least threshold plus lost runs |
| `CircuitBreakers.BoundIffReported` | src/cti/manager/circuit_breaker.py:32-58 | the threshold alone bounds all admissions in such windows if and only if every admitted run reports |
| `FeedRunner.RunStore.OpenRun` | src/cti/manager/state.py:16-35 | adds a PENDING row for a registered source and returns its watermark |
| `FeedRunner.RunStore.MarkRunning` | src/cti/manager/state.py:38-40 | only this row's state changes |
| `FeedRunner.RunStore.FinalizeRun` | src/cti/manager/state.py:43-67 | closes the row; the source's watermark moves only on SUCCESS |
| `FeedRunner.PerSourceConcurrency.Get` | src/cti/manager/concurrency.py:14-19 | the first request sizes the semaphore, at least one permit |
| `FeedRunner.PerSourceConcurrency.TryAcquire` | src/cti/manager/runner.py:55 | a permit is taken if one is free, otherwise the caller waits |
| `FeedRunner.PerSourceConcurrency.Release` | src/cti/manager/runner.py:55 | the permit is returned |
| `FeedRunner.SemaphoreSteps` | src/cti/manager/runner.py:55 | the interleaved steps on a source's semaphore do what its object does |
| `FeedRunner.PlannedIsSound` | src/cti/manager/runner.py:44-116 | every step of `execute` takes and returns the permits its position needs and leaves rows and watermarks consistent; what it tells the breaker is said by `BreakerIsTold` |
| `FeedRunner.UnwindingIsSound` | src/cti/manager/runner.py:55-60 | so does a cancellation at any point |
| `FeedRunner.NextKeeps` | src/cti/manager/runner.py:44-116 | every interleaved step keeps permits, breaker histories, rows and watermarks consistent |
| `FeedRunner.ReachableInv` | src/cti/manager/runner.py:44-116 | so they are in every reachable state |
| `RunnerTheorems.LimitsHold` | src/cti/manager/concurrency.py:8-32 | the global and per-source limits hold, and all permits are back when nobody is inside |
| `RunnerTheorems.FirstRequestDecides` | src/cti/manager/concurrency.py:14-19 | a source's limit never changes after its first request |
| `RunnerTheorems.NoDeadlockIffPermits` | src/cti/manager/runner.py:55 | taking the global permit first can block everything only if there is no global permit at all |
| `RunnerTheorems.AdmissionFollowsRule` | src/cti/manager/runner.py:56-60 | an execution is admitted exactly when the rule on the source's history allows it |
| `RunnerTheorems.FailingSourceIsProbedRarely` | src/cti/manager/runner.py:52-97 | with parallelism one, one run per source is in flight and all admissions in a window without a success obey the probe bound |
| `RunnerTheorems.LostRunsReachable` | src/cti/manager/runner.py:56-62 | for every policy any number of executions can be admitted at one instant and lost, by a failed build or a cancellation |
| `RunnerTheorems.AdmissionsBoundedIffReported` | src/cti/manager/runner.py:52-97 | in all reachable worlds with serial runs the threshold bounds all admissions in such windows if and only if no run is lost |
| `RunnerTheorems.SerialNeverOpenAtSuccess` | src/cti/manager/runner.py:94-95 | with parallelism one no success meets an open breaker |
| `RunnerTheorems.OpenAtSuccessIffParallel` | src/cti/manager/runner.py:94-95 | for every policy one can if and only if the source was first requested with parallelism of two or more |
| `RunnerTheorems.RowLifecycle` | src/cti/manager/state.py:27-62 | a visible row moves only from RUNNING to one terminal state, and has a finishing time exactly there |
| `RunnerTheorems.WatermarkMovesOnSuccess` | src/cti/manager/state.py:63-66 | a watermark moves only with the finalization of a successful run of that source, to that run's watermark |
| `RunnerTheorems.WatermarkIsEarned` | src/cti/manager/state.py:63-66 | a watermark is always the first one or that of a run recorded as SUCCESS |
| `RunnerTheorems.OrphanedExactlyByLettingGo` | src/cti/manager/runner.py:76-116 | a row becomes an orphan exactly by a foreign exception, a cancellation while it is owned or a failed finalization, and stays one |
| `RunnerTheorems.FinishableIffOwned` | src/cti/manager/runner.py:76-116 | a RUNNING row can still be finalized by some continuation if and only if it is not an orphan |
| `RunnerTheorems.OrphanedByForeignExceptions` | src/cti/core/pipeline.py:107-117 | the end of a pipeline orphans its row exactly when it raised and nothing in what it raised is the framework's own |
| `Reports.FirstRequestSetsUp` | src/cti/manager/runner.py:51-53 | the first request for a source sets up its breaker with that policy and its semaphore with that size, at least one; later ones change neither |
| `Reports.OpeningWrites` | src/cti/manager/runner.py:64-67 | opening a run makes a RUNNING row of that source visible, or fails and writes nothing |
| `Reports.PipelineLeaves` | src/cti/manager/runner.py:73-76 | what the pipeline returns is what is about to be recorded; what it raises writes nothing |
| `Reports.FinalizingWrites` | src/cti/manager/state.py:55-66 | finalizing writes result, time and watermark into the row; a success moves the watermark of its source, and nothing else does |
| `Reports.BreakerIsTold` | src/cti/manager/runner.py:52-116 | what every step of every execution tells each breaker: a success exactly for a run recorded as SUCCESS, a failure now for any other recorded or faulted run |
| `Reports.SuccessCloses` | src/cti/manager/runner.py:94-95 | once a run recorded as SUCCESS has reported, its source's breaker is CLOSED with no failures and its history is longer by one success |
| `Reports.OthersFail` | src/cti/manager/runner.py:96-114 | a run recorded as PARTIAL or FAILED, or one that raised, adds exactly one failure at the current time |
| `EndToEnd.WatermarkMeansStored` | src/cti/manager/state.py:63-66 | at every moment of every history a source's watermark is its first one, or some pipeline run of that source has stored its whole meaning and left this watermark |
| `EndToEnd.MovingWatermarkIsStored` | src/cti/manager/runner.py:73-92 | a watermark moves only when an execution whose own pipeline run stored everything is finalized |
| `EndToEnd.RowTellsOutcome` | src/cti/manager/runner.py:73-92 | every finished row has the watermark of its own pipeline run and its state tells what that run raised: SUCCESS nothing, FAILED something permanent, PARTIAL other framework errors; under SUCCESS the whole meaning is stored |
| `Outcome.Flatten` | src/cti/core/pipeline.py:93-99 | the leaves of the exception tree from left to right |
| `Outcome.LeavesAreOccurrences` | src/cti/core/pipeline.py:93-99 | flattening loses and invents no exception, at any depth |
| `Outcome.LeavesInOrder` | src/cti/core/pipeline.py:93-99 | the leaves of a group are those of its members, one after the other |
| `Outcome.ResultMeaning` | src/cti/core/pipeline.py:107-117 | FAILED exactly with a permanent error anywhere, raised on exactly when no framework error occurs, otherwise PARTIAL |
| `Outcome.Classify` | src/cti/core/pipeline.py:107-117 | the loop over the leaves gives that outcome |
| `Partitioning.EnsureNextMonths` | src/cti/persistence/partitioning.py:37-54 | n partitions, one for each of the next n months, and their names in order |
| `Partitioning.MonthAfterCounts` | src/cti/persistence/partitioning.py:41-42 | the month arithmetic counts months, across year ends |
| `Partitioning.PartitionsAreContiguous` | src/cti/persistence/partitioning.py:11-19 | each partition starts where the one before ends |
| `Partitioning.BoundsText` | src/cti/persistence/partitioning.py:11-19 | the name holds four digits of the year and two of the month, and the bounds are the first days of the month and of the next one |
| `Partitioning.NameInjective` | src/cti/persistence/partitioning.py:16 | a partition name gives back its year and month, for years of any length |
| `Partitioning.NamesAreDistinct` | src/cti/persistence/partitioning.py:40-53 | no two created partitions share a name |
| `Partitioning.TextOrderIsDateOrder` | src/cti/persistence/partitioning.py:17-18 | for four-digit years the order of the bound texts is the order of the dates |
| `Partitioning.CoverageIsByMonth` | src/cti/persistence/partitioning.py:11-19 | a date is in the i-th partition exactly when its month is the i-th |
| `Partitioning.CoveredExactlyOnce` | src/cti/persistence/partitioning.py:37-54 | every date of the next n months is in exactly one partition and no other date is in any |
| `Refanging.RefangInPlace` | src/cti/core/hashing.py:28-33 | the loop computes the five replacements in order and then the hxxp substitution |
| `Refanging.SubHxxpShape` | src/cti/core/hashing.py:25-32 | the substitution only changes letters, and changes the text exactly when there is a match at a word boundary |
| `Refanging.RefangShape` | src/cti/core/hashing.py:16-33 | refanging leaves a text alone exactly when nothing in it is defanged; a bracketed token shortens it |
| `Refanging.RefangAddsNoBreak` | src/cti/core/hashing.py:28-33 | refanging introduces no line break |
| `Spellings.DisguisesGo` | src/cti/core/hashing.py:18-31 | in a text with any number of marks written in any of the five disguises, the replacements give each mark its meaning and keep all the rest |
| `Urls.DissectShape` | src/cti/core/hashing.py:76-78 | a text with scheme and host is exactly its pieces put together |
| `Urls.OutputShape` | src/cti/core/hashing.py:76-86 | canonicalizing adds at most the slash of an empty path |
| `Urls.CanonicalForm` | src/cti/core/hashing.py:79-86 | every result has the canonical form: lower-case scheme and host, an absolute path, no fragment |
| `Urls.Reparse` | src/cti/core/hashing.py:76-86 | parsing a joined canonical URL gives its parts back |
| `Urls.SecondPass` | src/cti/core/hashing.py:76-86 | a second pass can only reject the host or drop one more default port |
| `Urls.CleaningChangedNothing` | src/cti/core/hashing.py:76-86 | a cleaned text that lands on the URL it was cleaned from is that URL |
| `Urls.UrlIsFixedIffSettled` | src/cti/core/hashing.py:73-86 | a canonical URL is a fixed point exactly when host, port, brackets, white space and tokens are settled |
| `Urls.OnePortDropped` | src/cti/core/hashing.py:81-84 | one pass drops one default port |
| `Urls.PortGivenTwice` | src/cti/core/hashing.py:81-84 | `http://a:80:80/` takes two passes to `http://a/` |
| `Urls.PortWithoutHost` | src/cti/core/hashing.py:81-84 | `http://:80/` loses its netloc, and the result is no URL |
| `PlainUrls.SubstitutedHasNone` | src/cti/core/hashing.py:25-32 | substituting http for hxxp leaves no hxxp at a word boundary behind |
| `PlainUrls.QuietUrl` | src/cti/core/hashing.py:76-86 | nor does cutting such a URL and joining it again, with a host and at most one colon, bring one about |
| `PlainUrls.OrdinaryIsStable` | src/cti/core/hashing.py:73-86 | a refanged text without brackets, parentheses and white space, with a scheme, a host and at most one colon in its netloc, is accepted and gives a fixed point |
| `UrlFirstPass.SchemeRefanged` | src/cti/core/hashing.py:25-32 | http, https, hxxp and hxxps in any case become a scheme of that meaning, and what follows the slashes is refanged on its own |
| `UrlFirstPass.Parsed` | src/cti/core/hashing.py:76 | the text of a URL is cut into its scheme, netloc, path, parameters and query; the fragment goes |
| `UrlFirstPass.PortDropped` | src/cti/core/hashing.py:81-84 | 80 is dropped under http and 443 under https; every other port stays |
| `UrlFirstPass.EveryWriting` | src/cti/core/hashing.py:73-86 | however a URL is written, the result is its scheme and host in lower case without default port, its path or a slash, its filled parameters and query, and no fragment |
| `UrlFirstPass.UrlValue` | src/cti/core/hashing.py:36-53 | the same through canonicalize, with white space around |
| `Hashing.ValidDomainText` | src/cti/core/hashing.py:14-69 | accepted names start with a letter or digit and hold nothing else than label characters, dots and line breaks |
| `Hashing.DomainIsFixedIffUnbroken` | src/cti/core/hashing.py:61-70 | a canonical domain is a fixed point exactly when it does not end in a line break; `DomainFirstPass` says what the first pass gives |
| `FirstPass.NameRefanged` | src/cti/core/hashing.py:16-33 | a name written with any choice of `.`, `[.]` and `(.)` is refanged to its labels with plain dots |
| `FirstPass.DomainFirstPass` | src/cti/core/hashing.py:61-70 | for all labels, with any choice of dots and any number of trailing ones, a name is accepted exactly when every label is, and becomes its lower-case labels with plain dots |
| `FirstPass.LabelPattern` | src/cti/core/hashing.py:14 | a label is one letter or digit, or two with up to 61 letters, digits and hyphens in between, a final line break aside |
| `FirstPass.MailFirstPass` | src/cti/core/hashing.py:99-103 | the domain of an address is read just so, and the local part put into lower case |
| `FirstPass.AtIsNeeded` | src/cti/core/hashing.py:100-101 | without a plain at sign there is no address |
| `FirstPass.StripSurrounded` | src/cti/core/hashing.py:42 | exactly the white space at both ends is stripped |
| `FirstPass.DomainValue` | src/cti/core/hashing.py:36-51 | what canonicalize gives for a name written in any of these ways, with white space around |
| `FirstPass.MailValue` | src/cti/core/hashing.py:36-57 | and for a mail address |
| `FirstPass.DigestValue` | src/cti/core/hashing.py:89-96 | a digest is accepted exactly with 32, 40 or 64 hex digits in any case, and becomes lower case |
| `FirstPass.TextValue` | src/cti/core/hashing.py:58 | other kinds are stripped and put into lower case |
| `FirstPass.AddressValue` | src/cti/core/hashing.py:46-49 | IP addresses are the library's answer on the stripped text |
| `FirstPass.BlankIsRejected` | src/cti/core/hashing.py:42-44 | white space alone is no value of any kind |
| `Hashing.HashIsStable` | src/cti/core/hashing.py:89-96 | canonical digests are fixed points |
| `Hashing.EmailIsFixedIffUnbroken` | src/cti/core/hashing.py:99-103 | a canonical address is a fixed point exactly when it does not end in a line break |
| `Hashing.ProjectionIffStable` | src/cti/core/hashing.py:36-58 | for the ten kinds that are not IP addresses, canonicalize is a projection exactly on the stable values; for names and mail addresses that is read off the input |
| `Hashing.ProjectionWithoutBreaks` | src/cti/core/hashing.py:36-58 | without line breaks it is one for every kind except addresses and URLs |
| `Hashing.OrdinaryUrlProjects` | src/cti/core/hashing.py:36-58 | on ordinary URLs canonicalize succeeds and is a projection |
| `Identity.NameIsInjective` | src/cti/core/hashing.py:109 | the hashed name gives back type and value |
| `Identity.BuiltIsNamed` | src/cti/core/models.py:75-93 | a built indicator's id is the one its own type and value give |
| `Identity.SameIdIffSameCanonical` | src/cti/core/hashing.py:106-109 | ids are equal exactly when type and canonical value are |
| `Identity.IdNamesCanonicalIffStable` | src/cti/core/models.py:88-92 | the id names the canonical value itself exactly when canonicalizing that again changes nothing; for the ten kinds, exactly when the value is stable |
| `Building.DomainIsBuilt` | src/cti/core/models.py:79-94 | however a domain is written, the built indicator has that canonical value, an id that names it, and all other fields as given, if the confidence is in range |
| `Building.MailIsBuilt` | src/cti/core/models.py:79-94 | so has a mail address |
| `Building.DigestIsBuilt` | src/cti/core/models.py:79-94 | and a digest of each kind, under the type's name |
| `Building.TextIsBuilt` | src/cti/core/models.py:79-94 | and every other text |
| `Building.UrlIsBuilt` | src/cti/core/models.py:79-94 | and a URL without brackets or white space behind its scheme |
| `Identity.NamedIsUnique` | migrations/versions/0001_initial.py:87 | a table whose ids come from type and value never repeats a type and value |
| `Identity.UpsertsStayNamed` | src/cti/persistence/repositories.py:51-63 | upserts keep that link |
| `Identity.OnlyRepetitionIsRefused` | src/cti/persistence/repositories.py:51-64 | so a batch of built indicators is refused only for naming a row twice |
| `Identity.VerdictIsDistinctIds` | src/cti/persistence/repositories.py:51-64 | on named rows and indicators the store accepts exactly the batches with distinct ids |
| `Identity.NamedFeedIsJudgedByStore` | src/cti/persistence/repositories.py:51-64 | so a feed whose plugins keep ids right is judged by distinctness alone, whatever the table |
| `Identity.RunsKeepTablesUnique` | src/cti/core/stages/dedup.py:3-5 | at every moment of every pipeline run the table it feeds is unique in type and value |
| `Identity.RewritingBreaksUniqueness` | src/cti/plugins/enrichers/defang.py:33-39 | rewriting a value and keeping its id breaks both the link and uniqueness |
| `Identity.RewritingKeepsNameIff` | src/cti/plugins/enrichers/defang.py:37-39 | rewriting a value keeps the id right exactly when the canonical form stays the same |
| `Defanging.EnrichInPlace` | src/cti/plugins/enrichers/defang.py:12-39 | the loop applies the seven patterns in order and keeps the id |
| `Defanging.RewrittenIffHoldsPattern` | src/cti/plugins/enrichers/defang.py:12-39 | a value is rewritten exactly if one of the seven patterns occurs in it, and gets shorter unless that is hxxp alone |
| `Undefanging.MarksAreUndone` | src/cti/plugins/enrichers/defang.py:12-18 | in a text with any number of its five marks, in any case, the enricher gives each its meaning, and then http for hxxp |
| `Undefanging.BracketedSchemeIsUndone` | src/cti/plugins/enrichers/defang.py:19 | a scheme with brackets, in any case, becomes http and keeps the letter behind it |
| `Undefanging.TwiceIsOnceIff` | src/cti/plugins/enrichers/defang.py:1 | a second application changes nothing if and only if replacing the five marks in turn has left none |
| `Undefanging.TwiceIsOnce` | src/cti/plugins/enrichers/defang.py:1 | so it is idempotent on texts whose only opening brackets belong to marks |
| `Undefanging.TwiceIsMore` | src/cti/plugins/enrichers/defang.py:1 | and not on all: `[(.)]` is changed twice |
| `Defanging.EnrichedIsNamedIffNoPattern` | src/cti/plugins/enrichers/defang.py:12-39 | the enricher leaves a built indicator's id right if and only if its value holds no pattern, for the ten kinds, URLs with a stable canonical form |
| `Defanging.DomainsAndDigestsAreKept` | src/cti/plugins/enrichers/defang.py:12-39 | built domains and digests hold nothing to rewrite |
| `Defanging.EnrichedMutexesCollide` | src/cti/plugins/enrichers/defang.py:12-39 | the mutexes `a[.]b` and `a.b`, built and enriched, get one value under two ids, which the table refuses |
| `Defanging.EnrichedUrlsCollide` | src/cti/plugins/enrichers/defang.py:12-39 | so do the URLs `http://a{dot}b/` and `http://a.b/`, both of which canonicalization leaves alone |
| `NestedTokens.ThreePasses` | src/cti/core/hashing.py:16-33 | `http://a/[(.)]/` is changed by two passes of canonicalization, because one replacement makes a token that has been looked for before |
| `NestedTokens.RewrittenButNamed` | src/cti/plugins/enrichers/defang.py:12-39 | its canonical form holds a pattern and is rewritten, and the id, taken from the second pass, is right all the same |

## Left out

- Stages as mutable objects: parse, normalize, enrich, dedup and fetch step on values in one transition system, because the point is their interleaving; only the queue, the buckets, the breaker, the stores and the persist and publish loops are also proved as imperative code.
- Normalization details: field maps, tag lists and coercions are an arbitrary function that emits, skips, rejects, or raises something that no setting skips.
- Connectors, parsers, archives, Redis, Kafka and HTTP clients, and all enrichers but defang: arbitrary functions, histories of calls, or nothing.
- RateLimit.TokenBucket.TryLocal: uses exact reals; floating-point rounding and the script's number formatting are not modelled, and clock readings are parameters.
- RateLimit.TokenBucket.Acquire: describes one caller alone on its key; with others, `RetryAfterWait` says what a retry can rely on.
- FirstPass.DomainFirstPass: ASCII labels free of dots, colons and opening brackets; dots disguised twice, as in `([.])`, are not among the ways it covers.
- UrlFirstPass.EveryWriting: http and https, a host without colons and brackets, a port of digits, and no further hxxp behind the scheme; other texts are covered by `CanonicalForm` and `UrlIsFixedIffSettled`.
- Hashing.ProjectionIffStable: says nothing about IPv4 and IPv6, whose parsing is a parameter.
- PlainUrls.OrdinaryIsStable: a sufficient condition that can be checked beforehand; the exact one, `UrlIsFixedIffSettled`, is read off the canonical parts.
- Urls.UrlIsFixedIffSettled: ASCII text only; splitting follows Python 3.12.4 and later, and the check of a bracketed host is a parameter.
- Hashing.DomainIsFixedIffUnbroken: ASCII names only; international names are not encoded.
- Defanging.EnrichedIsNamedIffNoPattern: for URLs it supposes a canonical form that is a fixed point, without which it is false (`RewrittenButNamed`); in general an enriched id is right exactly if the canonical form stays the same (`EnrichKeepsNameIff`).
- EndToEnd.WatermarkMeansStored: connectors set the watermark as they like; that it describes the payloads they fetched is theirs to keep.
- Defanging.EnrichInPlace: the enabled enricher on ASCII text; disabled, it returns its input.
- PublishStage.RunPublish: a TLP violation counts as delivered, because the batch is discarded and the loop goes on; `Publishers` says what is sent.
- IndicatorStore.IndicatorRepo.UpsertBatch: one statement at a time on one table; concurrent transactions are the database's business.
- UUIDv5 (section 4.3 of RFC 4122) is taken as injective in the hashed name.
- The row lock of `open_run` is released by the commit that follows it, so nothing excludes two workers; the model has one worker.
- Retries, backoff and dead letters: no pipeline error reaches them.
- `observed_at`, counters, raw URIs and error texts in rows; metrics, logs and tracing.
- Redis server time, key prefixes, and failures of the rate limiter's Redis calls.
- Command line, HTTP API, scheduling, configuration, secrets and plugin discovery.
