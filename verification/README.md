# Verification of the seeder pipeline

A Dafny model of the Go load generator under `app/internal/seeder` and proofs about it.
`dafny verify dfyconfig.toml` checks the whole project.

## What is modelled

**One core's pipeline** (`Pipeline.dfy`) is a labelled transition system: one producer, a bounded
first-in-first-out channel of capacity 2 * workers, N workers with their retry loops, the six
counters, the three gauges, and the index of the server they post to. Every atomic addition, channel
operation, `select` choice, context read and gauge store is a step of its own, and steps of different
goroutines interleave freely. The history (what was generated, enqueued, taken, posted, finished,
dropped) is part of the state so that conservation can be stated; the program keeps no such record.
`Channel.dfy`, `Ledger.dfy`, `Gauging.dfy` and `Indexing.dfy` prove inductive invariants of that
system, `Reachable.dfy` combines them, and `Theorems.dfy` states the main results for every state of
every run. `Snapshots.dfy` puts the six loads of a counter snapshot anywhere in a run.

**The shutdown** (`Shutdown.dfy`) composes the movies and books cores with the controller of `Run`:
signal, stop producers, drain, force-cancel on timeout, final totals. `Drain.dfy` adds clocks to a
core and `GracefulShutdown.dfy` to the whole system; `Durations.dfy` says how long waits, rests and posts
of a core last.

**Runs that break a promise** are built step by step: `Paths.dfy` has what one core can reach in an
instant, `Scenarios.dfy` the longest possible drain, in which all workers of a core go through jobs of
the greatest length side by side, and `Deliveries.dfy` runs that deliver batch after batch. With them
`Tightness.dfy` and `Deliveries.dfy` turn the bounds into exact conditions on the settings.

**Sequential code** that updates things in place stays imperative and is proved against the functions
the transition system uses: the producer on its reused buffer (`Producing.dfy`), the retry loop
(`Retry.dfy`), the worker's loop around it (`Working.dfy`), the counter cells (`Stats.dfy`), the gauge cells (`Telemetry.dfy`), `PostBatch` and its
error trees (`SolrClient.dfy`), the backoff (`Backoff.dfy`), document ids (`Ids.dfy`), ISBN-13 check
digits (`Isbn.dfy`) and sampling (`Sampling.dfy`). The heap-level producer and the transition system
meet in `Chunking.Chunk`; the imperative loops and the transition system meet in `Retry.Judge`;
the counter cells and the transition system share the additions of `Stats.Counters`.

Assumptions about the environment, each visible in the model:

- Contexts stay canceled once canceled.
- Before `forceCancel` no post fails with a cancellation: the only parent of a request context is the
  force context, and a request's own context is canceled after the post returned (`EndPost` in
  `Pipeline.WorkerEnabled`).
- A 2xx answer with envelope status 0 means every document of the batch is in the index. The server may
  apply any document of any batch that was posted, at any time after the post began, also when the
  post failed (`ServerApplies`).
- Reals stand in for `float64`; durations are whole nanoseconds.
- In the timed results only (`Drain.dfy`, `GracefulShutdown.dfy` and what builds on them): local steps cost
  no time and a post returns within the request timeout. The shutdown timer may fire late; the runs that
  break a promise need no such delay.

Where documentation and code differ: the usage text (`README.md:157` of the repository) says in-flight
requests finish within the shutdown timeout. `OldPostsCutExactly` shows that for requests in flight when
the drain begins this can fail exactly when both timeouts are equal, which `config.go:178-180` allows.
The text does not mention that a batch can be dropped, nor that queued and retried jobs are lost when
the timer fires. `DroppedSizesExactly`, `QueuedJobsLostExactly` and `NothingLostExactly` say exactly
when that can happen, `RunReturnsSettled` how it is accounted for and `LossIsBounded` how much can be
lost. With T the longest time one job can hold a worker, force-cancel loses nothing exactly when the
shutdown timeout exceeds 3 T less one worker sleep: for the default settings 102.5 seconds less twelve
nanoseconds, against a default of 20 seconds.

## Model

| member | source | states |
|---|---|---|
| Theorems.DocumentsAreConserved | app/internal/seeder/runner/worker.go:20-235 | in every state of every run the generated documents are, with multiplicity, the disjoint union of succeeded, failed, canceled, held, queued, buffered and dropped ones, and the document counters are the sizes of those parts |
| Theorems.ChannelIsDisciplined | app/internal/seeder/runner/worker.go:20-125 | competing workers take jobs in the order they were put, at most 2N wait, the channel closes at most once, and the jobs are the pure chunking of what was generated |
| Theorems.FatesAndPosts | app/internal/seeder/runner/worker.go:127-235 | the jobs taken are, with multiplicity, those finished and those held, so none finishes twice or vanishes; every finished job has the one fate its rounds dictate after 1 to attempts posts, no failure is recorded as canceled, nothing is canceled unless forced, completed posts equal the counted outcomes plus pending ones, and retries are at most (attempts - 1) per taken job |
| Theorems.RunsSettleJobs | app/internal/seeder/runner/worker.go:127-235 | the request, document, failure and retry counters of any run state are what the sequential retry loop leaves when it settles the finished jobs in turn from zero, up to half-counted successes and the retries of held jobs |
| Theorems.ForceEndsRetrying | app/internal/seeder/runner/worker.go:167-176 | after force-cancel at most one more retry or final failure per worker is counted, and only of a reply examined before |
| Theorems.DeliveryIsIdempotent | app/internal/seeder/solr/client.go:95-157 | at-least-once posting into an index that overwrites by id: all documents of succeeded jobs are there with their generated value, only documents of taken jobs are there, and successfulDocs <= index size <= generatedDocs |
| Theorems.IdsAreDistinct | app/internal/seeder/generator/common.go:134-136 | below 2^64 documents any two documents of a run have distinct ids whatever the clock reads |
| Theorems.GaugesAreBounded | app/internal/seeder/telemetry/telemetry.go:221-254 | 0 <= inFlight <= activeWorkers <= workers, 0 <= queueDepth <= 2 * workers, both worker gauges count exactly the workers between increment and decrement, and read 0 when all workers exited |
| Channel.DropsOnlyWhenFull | app/internal/seeder/runner/worker.go:25-39 | a batch is dropped only by a stopped producer facing exactly 2 * workers queued jobs, for the first time in the run |
| Channel.NothingAfterDropOrClose | app/internal/seeder/runner/worker.go:21-39 | after a drop or a close nothing is sent, dropped or closed again |
| Channel.EnqueuedAreChunks | app/internal/seeder/runner/worker.go:23-62 | enqueued jobs plus the unsent rest are the chunks of the generated documents |
| Channel.ShapeStep | app/internal/seeder/runner/worker.go:20-63 | every step keeps batch, queue and job sizes in bounds, order of jobs, and the account of generated documents |
| Ledger.TapesStep | app/internal/seeder/runner/worker.go:141-234 | every step keeps each worker's loop and each finished job consistent with the sequential retry loop |
| Ledger.CountedStep | app/internal/seeder/stats/stats.go:27-46 | every step keeps each counter equal to the events it counts, up to the additions that are pending |
| Ledger.ConservedStep | app/internal/seeder/runner/worker.go:102-124 | every step keeps taken documents equal to settled plus held ones |
| Ledger.JobsConservedStep | app/internal/seeder/runner/worker.go:102-124 | every step keeps taken jobs equal, with multiplicity, to finished plus held ones |
| Ledger.UndisturbedStep | app/internal/seeder/runner/worker.go:102-124 | without a forced shutdown nothing is canceled and workers leave only a closed, empty channel |
| Gauging.GaugedStep | app/internal/seeder/runner/worker.go:79-149 | every step keeps the gauges equal to the workers between increment and decrement |
| Gauging.StoredDepthExactly | app/internal/seeder/telemetry/telemetry.go:247-254 | the queue-depth gauge is 0 until the first store and without telemetry, and else the length the queue had when the goroutine of the last store made its latest read |
| Gauging.DepthWasSeen | app/internal/seeder/telemetry/telemetry.go:247-254 | the stored queue depth, even when stored late by competing workers, is a length the queue had at that or an earlier state of the run |
| Indexing.GeneratedAsDrawn | app/internal/seeder/generator/common.go:134-136 | the n-th generated document comes from its own Generate action: its id holds that action's clock reading and its serial number, its content is that action's |
| Indexing.IndicesStep | app/internal/seeder/solr/client.go:101 | every step, including late applications by the server, keeps succeeded documents indexed and the index free of anything else |
| Indexing.OverwriteIsIdempotent | solr/configsets/books-master/conf/managed-schema.xml:15 | a document overwritten by id is overwritten by itself |
| Reachable.InvAlways | app/internal/seeder/runner/worker.go:20-235 | all invariants hold in every state of every run |
| Reachable.FinalAccount | app/internal/seeder/runner/runner.go:165-168 | with the channel closed and all workers gone, generatedDocs = successfulDocs + failed + canceled + queued + dropped documents, and without force the canceled and queued parts are empty |
| Snapshots.LoadsAreTimely | app/internal/seeder/stats/stats.go:48-57 | each field of a snapshot covers exactly what was counted when its own load was made |
| Snapshots.LateLoadsAreExact | app/internal/seeder/runner/runner.go:165-168 | a field loaded after every worker has exited is the final total, however stale earlier loads are |
| Snapshots.WithinOneSnapshot | app/internal/seeder/stats/stats.go:48-57 | wherever the six loads fall, successfulRequests <= successfulDocs + N |
| Snapshots.AcrossSnapshots | app/internal/seeder/runner/runner.go:189-197 | successive snapshots grow in every field, and the first one's documents are at most batchSize times the second one's requests and at most its generated documents |
| Snapshots.TornInvertsExactly | app/internal/seeder/stats/stats.go:48-57 | a snapshot begun in a given state can show more documents than generated documents if and only if the run later counts more successes than were generated by then |
| Snapshots.TornMayInvert | app/internal/seeder/stats/stats.go:48-57 | some snapshot of a run can show it if and only if the run counts a success |
| Deliveries.InversionIsUnbounded | app/internal/seeder/stats/stats.go:48-57 | for any valid settings, some run and load times show any given number of generated documents and any number more of successful ones |
| Snapshots.FinalSnapshotIsExact | app/internal/seeder/runner/runner.go:165-168 | loads made after every worker has exited all read the final totals |
| Shutdown.RunReturnsSettled | app/internal/seeder/runner/runner.go:133-173 | when Run returns, forced or not, both cores' counters account for every generated document, at most one batch of at most batchSize documents was dropped, worker gauges read 0, and without force nothing is canceled or queued |
| Shutdown.LossIsBounded | app/internal/seeder/runner/runner.go:143-163 | when Run returns, forced or not, all but 3 * workers + 1 batches of each core's documents have succeeded or failed for good |
| Shutdown.CanReturn | app/internal/seeder/runner/runner.go:133-173 | every run extends to one in which Run has returned |
| Shutdown.ShutdownIsBounded | app/internal/seeder/runner/runner.go:139-163 | after the signal the steps of the rest of any run, the server's aside, fit in the fall of a natural-number measure, with or without force-cancel |
| Shutdown.CoreMeasureDrops | app/internal/seeder/runner/worker.go:20-235 | once stopped, every program step of a core lowers producer rank plus job cost times queue length plus worker residuals |
| Shutdown.CoresNeverStuck | app/internal/seeder/runner/runner.go:81-163 | in every state of every system run, before the signal too, each core that has not finished has a step of its producer or workers |
| Shutdown.NeverStuck | app/internal/seeder/runner/runner.go:133-168 | before the return the program always has a step of its own, apart from the signal, the timer and the server |
| Shutdown.ProducerCanMove | app/internal/seeder/runner/worker.go:53-61 | a stopped producer is never held up by a full queue |
| Shutdown.WorkerCanMove | app/internal/seeder/runner/worker.go:102-124 | every worker that has not exited can move, unless it is idle before an open, empty channel |
| Shutdown.CoreRuns | app/internal/seeder/runner/runner.go:81-124 | each core's part of a system run is a run of that core |
| Shutdown.SysInvAlways | app/internal/seeder/runner/runner.go:81-168 | the controller's phase fits the contexts, the closed channels and the workers in every state |
| Drain.TimedStep | app/internal/seeder/runner/worker.go:102-232 | every timed step keeps the core invariants and every worker within its deadline |
| Drain.QueueEmptiesSoon | app/internal/seeder/runner/runner.go:44-45 | an unforced drain with a queued job is at most 2 T old |
| Drain.DrainWithinThreeJobTimes | app/internal/seeder/runner/runner.go:143-154 | in an unforced drain older than 3 T every worker has exited |
| Drain.WorkEndsARestEarlier | app/internal/seeder/runner/runner.go:143-154 | in an unforced drain older than 3 T less one worker sleep no job is queued or held |
| Drain.JobTimeClosedForm | app/internal/seeder/runner/worker.go:141-232 | T = attempts * requestTimeout + longest waits + workerSleep, where the waits fall short of (1 + jitter) * sum of capped backoffs by at most a nanosecond each |
| Drain.RemainingDrops | app/internal/seeder/runner/worker.go:141-232 | no step but taking a job extends a worker's worst remaining time |
| Drain.TimeNeverStops | app/internal/seeder/runner/worker.go:102-124 | the clocks never block a drain |
| Durations.WaitsLastExactly | app/internal/seeder/retry/backoff.go:32-42 | a backoff wait that is not cut lasts exactly its jittered duration |
| Durations.RestsLastExactly | app/internal/seeder/runner/worker.go:114-122 | a rest that is not cut lasts exactly the worker sleep |
| Durations.PostsLastAtMost | app/internal/seeder/runner/worker.go:142-149 | a post lasts at most the request timeout |
| Durations.RetriesTakeTime | app/internal/seeder/runner/worker.go:141-232 | before the n-th post of a job at least the shortest waits after the first n - 1 attempts have passed since it was taken |
| GracefulShutdown.ForceFindsNothing | app/internal/seeder/runner/runner.go:149-163 | for each core whose 3 T less one worker sleep is below the shutdown timeout, force-cancel never finds a queued or held job in any timed run, and at return every document of that core has succeeded, failed for good or was in the dropped batch |
| GracefulShutdown.OldPostsFinish | app/internal/seeder/config/config.go:178-180 | under a request timeout below the shutdown timeout, the timer never fires on a post that was in flight when the drain began |
| Tightness.OldPostsCutExactly | app/internal/seeder/config/config.go:178-180 | it can do so, in some timed run, if and only if both timeouts are equal |
| Tightness.NothingLostExactly | app/internal/seeder/runner/runner.go:149-163 | every timed run that returns accounts for all documents by success, final failure or the dropped batch if and only if the shutdown timeout exceeds 3 T less one worker sleep |
| Tightness.QueuedJobsLostExactly | app/internal/seeder/runner/runner.go:149-163 | some timed run returns with jobs still queued if and only if the shutdown timeout is at most 2 T |
| Tightness.DroppedSizesExactly | app/internal/seeder/runner/worker.go:25-39 | the sizes of what some timed run drops are exactly those up to batchSize |
| Tightness.DefaultsLoseNothingExactly | app/internal/seeder/config/config.go:18-29 | under the default settings nothing is lost in any timed run if and only if the shutdown timeout exceeds 102.499999988 s |
| GracefulShutdown.TimedRefines | app/internal/seeder/runner/runner.go:133-168 | a timed step is an untimed step or none |
| GracefulShutdown.DefaultsAreRoomyExactly | app/internal/seeder/config/config.go:18-29 | under the default settings T is 34.249999996 s, so 3 T less the sleep is 102.499999988 s and 2 T is 68.499999992 s |
| Producing.Producer.Produce | app/internal/seeder/runner/worker.go:20-63 | the loop on its reused buffer sends the pure chunking of what it generated, sent jobs keep their documents, and what is buffered at the stop is dropped if and only if the stop finds no room |
| Producing.Producer.SendCopy | app/internal/seeder/runner/worker.go:52-58 | a sent job holds a fresh copy of the buffer |
| Producing.Producer.AddDoc | app/internal/seeder/runner/worker.go:43-44 | appending never exceeds the buffer and counts one document |
| Producing.Producer.Finish | app/internal/seeder/runner/worker.go:26-39 | with room the rest is sent, without room it is dropped and counted, and the channel is closed |
| Chunking.ChunkProperties | app/internal/seeder/runner/worker.go:23-62 | chunking loses and reorders nothing; chunks are non-empty and all but the last full |
| Retry.SendWithRetry | app/internal/seeder/runner/worker.go:127-235 | one request with its documents is counted if and only if some attempt succeeds after retried ones, one failure if and only if some attempt is rejected for good, and each retry there is; the in-flight gauge goes up and down once a post; the loop falls through exactly when no attempt is allowed |
| Retry.Attempt | app/internal/seeder/runner/worker.go:142-210 | one attempt counts a good answer as a request with its documents, a final rejection as a failure, a transient failure with an attempt left as a retry, and moves the in-flight gauge up and down once |
| Retry.OutcomeBounds | app/internal/seeder/runner/worker.go:141-234 | 1 to attempts posts, at most attempts - 1 retries, one real fate, posts = retries + 1 unless the backoff was cut |
| Retry.SucceedsExactly | app/internal/seeder/runner/worker.go:153-165 | success if and only if some allowed attempt is answered well after retried ones |
| Retry.FailsExactly | app/internal/seeder/runner/worker.go:178-208 | failure with a kind if and only if some allowed attempt is rejected with it, uncanceled and final or not retryable, after retried ones |
| Retry.CanceledExactly | app/internal/seeder/runner/worker.go:167-232 | a job is canceled at a post if and only if a failed attempt reached through retried ones carries a cancellation or finds the context done, and in a backoff if and only if a counted retry is cut |
| Retry.RetriesExactly | app/internal/seeder/runner/worker.go:212-232 | a retry is counted exactly for each transient failure with an attempt left that only retried rounds precede |
| Retry.PostsExactly | app/internal/seeder/runner/worker.go:141-147 | a post is made exactly for each round within the limit that only retried ones precede |
| Retry.FailureKinds | app/internal/seeder/runner/worker.go:167-208 | no failure is recorded as canceled or unknown |
| Retry.JudgeSnoc | app/internal/seeder/runner/worker.go:141-233 | retried rounds only shift the outcome of the last round |
| SolrClient.PostBatch | app/internal/seeder/solr/client.go:95-157 | success exactly for a 2xx answer with envelope status 0; otherwise a client error |
| SolrClient.IsExactly | app/internal/seeder/solr/client.go:54-56 | errors.Is finds a sentinel if and only if repeated unwrapping leads to an error that matches it |
| SolrClient.AsPicksFirst | app/internal/seeder/solr/client.go:58-68 | errors.As picks the first client error in depth-first order of unwrapping, if there is any |
| SolrClient.AsKeepsIs | app/internal/seeder/solr/client.go:54-93 | what errors.Is finds below the client error errors.As picks, it finds in the whole tree |
| SolrClient.GuardedFailureIsNotCanceled | app/internal/seeder/runner/worker.go:168-178 | an error of any shape that passes the cancellation guard is not labelled canceled |
| SolrClient.RetriedExactly | app/internal/seeder/solr/client.go:111-135 | retried if and only if the transport failed uncanceled or the status is 408, 429 (section 15.5.9 of RFC 9110, section 4 of RFC 6585) or at least 500 |
| SolrClient.LabelExactly | app/internal/seeder/solr/client.go:66-93 | the label of every failed exchange by its cause: cancellation, then deadline, then the status class, then client for a bare answer below 400 and network for the rest |
| SolrClient.RetriedLabel | app/internal/seeder/solr/client.go:66-93 | a retried failure is labelled timeout, network, http_4xx or http_5xx, each exactly for its cause |
| SolrClient.TimeoutRetriedExactly | app/internal/seeder/solr/client.go:113-127 | a timeout is retried if and only if it struck before the response headers |
| SolrClient.ReplyCarriesExactly | app/internal/seeder/solr/client.go:95-157 | errors.Is finds in a reply exactly the sentinels that the exchange carried |
| Backoff.Duration | app/internal/seeder/retry/backoff.go:10-30 | computes the capped, jittered, clamped and truncated wait |
| Backoff.JitterBand | app/internal/seeder/retry/backoff.go:20-29 | the wait is the scaled backoff in whole nanoseconds, lies within (1 - j) base - 1 and (1 + j) base, and the negative clamp never fires |
| Backoff.MultiplierIsLinear | app/internal/seeder/retry/backoff.go:20-22 | the jitter factor grows straight with the draw from 1 - j, by 2 j over the whole range, and opposite draws average to one |
| Backoff.BestWaitBounds | app/internal/seeder/retry/backoff.go:20-29 | the draw zero gives the shortest wait and no draw gives less |
| Backoff.WorstWaitBounds | app/internal/seeder/retry/backoff.go:15-29 | no draw gives more than the longest wait |
| Backoff.WorstWaitOccurs | app/internal/seeder/retry/backoff.go:15-29 | and some draw gives exactly that wait |
| Backoff.CapHoldsExactly | app/internal/seeder/retry/backoff.go:16-23 | the cap, applied before the jitter, bounds the wait for all draws if and only if the upper end of the jitter band is at most one nanosecond above it |
| Backoff.CapHoldsThroughout | app/internal/seeder/retry/backoff.go:16-23 | all waits of a retry loop respect the cap if and only if the band of the last one ends at most one nanosecond above it |
| Backoff.BaseRecurrence | app/internal/seeder/retry/backoff.go:15-18 | the capped waits are a monotone saturating doubling sequence |
| Backoff.EarlyAttempts | app/internal/seeder/retry/backoff.go:11-13 | attempt numbers below one count as the first |
| Backoff.UnsaturatedIsPrefix | app/internal/seeder/retry/backoff.go:15-18 | the doublings within the cap are exactly the first ones |
| Backoff.BackoffSumClosedForm | app/internal/seeder/retry/backoff.go:15-18 | m waits sum to I (2^s - 1) + (m - s) M with s unsaturated steps |
| Backoff.BackoffSumBounds | app/internal/seeder/retry/backoff.go:15-18 | and to at most m M and I (2^m - 1) |
| Ids.IdSource.NextId | app/internal/seeder/generator/common.go:134-136 | advances the uint64 counter with wrap-around and renders prefix, clock and counter |
| Ids.RoundTrip | app/internal/seeder/generator/common.go:134-136 | prefix, any clock reading and any counter, padded or longer, are parsed back |
| Ids.CollideExactly | app/internal/seeder/generator/common.go:134-136 | two ids collide if and only if clocks agree and counters agree modulo 2^64 |
| Ids.CounterWidth | app/internal/seeder/generator/common.go:134-136 | the part after the last dash is the counter, six digits wide below a million and without a leading zero from there on |
| Decimal.PadProperties | app/internal/seeder/generator/books.go:66 | zero padding keeps the value and gives numbers that fit exactly the width |
| Isbn.Checksum | app/internal/seeder/generator/common.go:184-196 | appends one digit; the checksum is valid if and only if the prefix length is even or the prefix sum divisible by five |
| Isbn.ChangedSum | app/internal/seeder/generator/common.go:186-193 | changing one digit moves the weighted sum by once or three times the change, by the parity of its position |
| Isbn.ZerosWeighNothing | app/internal/seeder/generator/common.go:185-193 | zeros sum to zero, which with the previous row fixes every sum |
| Isbn.BookIsbn | app/internal/seeder/generator/books.go:65-68 | 978, nine padded digits and the check digit make a valid 13-digit number |
| Isbn.SingleErrorDetected | app/internal/seeder/generator/generator_test.go:92-109 | changing one digit keeps a number valid if and only if the digit is unchanged, so the check digit is unique |
| Isbn.AdjacentSwapDetected | app/internal/seeder/generator/generator_test.go:92-109 | swapping neighbours goes unnoticed if and only if they are equal or differ by five |
| Sampling.PickDistinct | app/internal/seeder/generator/common.go:151-161 | halts exactly when the draws hold count distinct values and returns the first count of them in order of first appearance, all from the pool |
| Sampling.DedupProperties | app/internal/seeder/generator/common.go:151-161 | de-duplication keeps exactly the values drawn, once each |
| Sampling.SwappedAt | app/internal/seeder/generator/common.go:145-147 | what was at a position is where following the swaps leads |
| Sampling.ShuffledCopy | app/internal/seeder/generator/common.go:143-149 | each element of the copy is where the swaps take it, the copy is a permutation of the pool and the pool is untouched |
| Stats.CoreStats.IncGeneratedDocs | app/internal/seeder/stats/stats.go:27-29 | its cell grows modulo 2^64 and no other changes, so that the cells stay the unbounded totals modulo 2^64 |
| Stats.CoreStats.IncSuccessfulRequest | app/internal/seeder/stats/stats.go:31-34 | as above for the request cell and the document cell |
| Stats.CoreStats.Snapshot | app/internal/seeder/stats/stats.go:48-57 | undisturbed, a snapshot is the six cells, field by field, and so the totals modulo 2^64 |
| Stats.WrappedExactly | app/internal/seeder/stats/stats.go:14-34 | each cell holds its own total modulo 2^64, and below 2^64 the totals themselves |
| Stats.WrapSum | app/internal/seeder/stats/stats.go:27-46 | wrap-around commutes with addition |
| Telemetry.CoreState.StartRequest | app/internal/seeder/telemetry/telemetry.go:234-245 | one more request in flight, nothing else changed |
| Telemetry.CoreState.SetQueueDepth | app/internal/seeder/telemetry/telemetry.go:247-254 | the depth cell holds the given depth, nothing else changed |
| Working.Work | app/internal/seeder/runner/worker.go:86-125 | the worker's loop settles exactly the jobs it takes, each by the outcome of its own rounds, leaves the stored depth of its last take, and gives up its place among the active workers if and only if it leaves |
| Working.JobsCounted | app/internal/seeder/runner/worker.go:102-124 | a worker counts exactly the successes, their documents, the final failures and the retries of its jobs |
| Working.TakenExactly | app/internal/seeder/runner/worker.go:96-124 | no job is taken after a canceled context, a closed channel or a rest cut short, and one in every turn before |
| Working.EveryJobOnce | app/internal/seeder/runner/worker.go:102-124 | a worker counts each job it takes once, as a success or a failure, or finds it canceled |

## Left out

- HTTP transport, JSON encoding and decoding, URL building, response bodies and `compactBody`: a post is an abstract exchange that `Classify` turns into a reply.
- OpenTelemetry and Prometheus set-up, spans, metric counters and histograms, logging: no effect on the protocol; only the three gauges are kept.
- `config.Load`, environment and flag parsing, URL checks: only the numeric bounds, as `Config.Valid`; the cap of 100 on the batch size is not needed.
- Titles, synopses, ratings, years, page counts, runtimes: straight-line random text and range claims that would add only easy members.
- Solr commits, replication, schemas beyond the unique key, Docker, scripts and dashboards.
- `logProgress` ticks and the error value `Run` returns: no effect on the pipeline.
- Go's scheduler, and clocks that drift: the timed results assume free local steps and posts that return within the request timeout.
- The counters of the transition system are unbounded; `Stats.CoreStats` relates such totals to uint64 cells, exactly below 2^64 events.
- Both cores are assumed to have distinct names: with one shared name they would share one set of gauges.
- The controller is modelled as transitions, not as a method, because its behaviour is its interleaving.
- A panic for a negative count in `pickDistinct`, and `checksumISBN13` on characters that are not digits: no caller supplies them.
- Channel slots: a job in the transition system is the sequence of its documents; sharing of slices is covered by the heap-level producer only.
