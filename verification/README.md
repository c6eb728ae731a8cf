# Verification of the poem service's job pipeline and rate limiting

Two parts of the API package are modelled and proved here.

**The job pipeline.** A request commits a poem with its image and audio jobs and then pushes the job ids
onto one Redis list per type. One worker per type moves an id to a processing list, commits RUNNING, runs
the processor, commits the outcome, pushes the id again if it is to be retried, and only then removes its
copy from the processing list. A reaper and a reconciler repair the lists. Nothing here is transactional
across the database and Redis: correctness rests on the order of the operations.

- `Protocol` is the state machine: rows, lists, retry counters, the position of each worker between two
  operations, and every step the API, the workers, deletions and faults can take. A step that is not
  enabled changes nothing, so every sequence of events is a run, and the theorems are about all of them.
- `Worlds`, `WorkerCommon`, `WorkerGpu`, `WorkerTts` and `PoemApi` are the code in its own form: classes
  and methods that issue one command after the other. Before each command anybody else may move, and each
  command may fail before or after it took effect. The methods are proved to follow the state machine,
  command by command, and when left alone to compute exactly `Attempts.Attempt`, `WorkerCommon.Reaped` and
  `WorkerCommon.Reconciled`.
- `Safety`, `Delivery`, `Calm`, `Attempts`, `Recovery`, `Credits`, `AmidOthers`, `Maintenance`, `Orphans`,
  `Duplicates` and `Reopening` hold the theorems about runs.

**Rate limiting.** `SlidingWindow` is the in-memory limiter with its pruning and eviction, `SlidingLaws`,
`SlidingEviction` and `SlidingCap` what it promises; `FixedWindow` is the limiter that shares counters in
Redis; `ClientRules`, `Clients`, `Resolver`, `FirstListed`, `NamedLimiter`, `NamedExact` and `NamedShared` read the
configured callers, match peers to them through a cache of DNS answers, and give each name one bucket, in memory
or shared in Redis.

## Assumptions

- One worker per job type, as `reap_stuck` says. Row ids are never used twice. A commit is one atomic step;
  it raises if a row it must update is gone. A session in which nothing changed (both rows already RUNNING)
  issues no UPDATE and so cannot raise for that reason; rows keep their loaded values after a commit,
  because the session factory switches expiry on commit off.
- `Escape` stands both for a worker that dies and for an exception that leaves `run_once`: nothing of the
  attempt survives but what was committed, moved or pushed. A restart of Redis may bring back any lists made
  of ids that were once issued for that lane.
- The processor and the synthesizer may do anything: return a path, raise, or raise the unsupported
  language error.
- Rate limiting: `max >= 1` for the sliding window (its denial reads the oldest hit), `window > 0`, and
  times that do not decrease. For the fixed window, an INCR reaches Redis less than the time to live after
  the edge its window begins at, so it may also arrive after its window has closed. Times are real numbers.

## Where the code and its documentation differ

- `_evict` says the key just inserted is never evicted. That holds if and only if `max_keys >= 1`
  (`SlidingEviction.JustAdmittedSurvives`), ties included.
- `process` skips DONE jobs only, so FAILED is not final: a redelivered copy takes the job back to RUNNING
  (`Duplicates.FailedReopens`). As long as Redis keeps its lists, FAILED is final in every continuation with crashes, lost
  replies, reaps, reconciles and deletions if and only if the API's push of the job is done, no worker is past the DONE check
  for it, and no list entry, popped entry or planned push names it (`Reopening.FailedStaysIffGone`). In runs
  without faults FAILED is always final (`Calm.FailedIsFinal`).
- The periodic reconcile promises that an in-flight RUNNING job is never pushed again (worker_gpu.py:128-131,
  worker_common.py:119-121). That holds in every run in which Redis keeps its lists: what it is about to push is
  QUEUED or deleted (`Orphans.PlannedAreDue`). It does not promise, and does not keep, that a QUEUED job is
  pushed once: between an API commit and its push it finds the id missing. That happens for exactly the eligible
  jobs that are on neither list and whose API push is still due (`Orphans.OrphansAreDue`); the push that was due
  then makes a second copy (`Orphans.DuePushDuplicates`). DONE stays final all the same.
- One bucket per name carries the limit of the rule that was matched first, not of the rule listed first:
  answers can expire in the middle of a match, and then a later entry of the same name can be the one
  returned. Leaving aside entries no peer can reach, the two limits are equal in every run if and only if the
  entries for one name agree (`NamedLimiter.NamesGetTheirFirstLimit`), and a service is held to its first entry
  in every run if and only if no later entry of the name allows more (`NamedExact.FirstEntryBounds`).
- The shared counters bound a window although an INCR may be late, but not without end: the bound holds in
  every run if and only if no INCR is later after the edge of its window than the time to live lasts
  (`FixedWindow.LagThreshold`).
- The in-memory limiter bounds every window of every caller in every run with at most n active callers if and
  only if n is at most `max_keys`, for `max_keys >= 1` (`SlidingCap.CapThreshold`).
- "image not found" and "audio not found" are written for jobs whose asset is missing, but the only way
  there is a deletion between the two reads, and then the commit raises because the job is gone too
  (`Safety.AssetNotFoundOnlyAfterDelete`).

## Model

| member | source | states |
|---|---|---|
| Safety.ExecKeepsInv | api/app/worker_common.py:61-193 | every event of every run, faults included, keeps the invariant: paired rows, one job per asset, list entries and worker positions that belong to their lane |
| Safety.Lockstep | api/app/worker_gpu.py:93-114 | in every reachable state a job has its asset, the two are in one of the four status pairs, and the asset has a path exactly when the job is DONE |
| Safety.Bijection | api/app/models.py:147-170 | in every reachable state each asset is referred to by exactly one job, although image and audio numbers may coincide |
| Safety.ListsNameTheirOwnJobs | api/app/worker_gpu.py:75-86 | an id on a lane's lists never names a live job of the other type, although no worker checks the type of the job it loads |
| Safety.AssetNotFoundOnlyAfterDelete | api/app/worker_gpu.py:86-91 | a worker that found no asset holds a job that was deleted in between, and the commit that would fail it aborts and changes no row |
| Safety.DoneIsFinal | api/app/worker_gpu.py:75-84 | after DONE, in every continuation with any faults and redeliveries, the job and its asset keep their rows or are deleted, and the processor is not started for it again |
| Delivery.WorkKeepsCovered | api/app/worker_gpu.py:60-73 | no single step of a worker takes the last copy of an open job off the lists: status commit before retry push, push before ack |
| Delivery.NoLiveJobStranded | api/app/worker_gpu.py:52-73 | in every run in which Redis keeps its lists, between any two operations, each queued or running job that was pushed by the API has a copy on its queue or processing list |
| Delivery.RetriesBounded | api/app/worker_common.py:168-193 | in every run, with crashes, duplicates and lost lists, the retry pushes for one job never exceed max_retries while its counter is kept |
| Delivery.RetriesPerLifetime | api/app/worker_common.py:168-193 | from any state, for as long as the counter is kept from then on: further retry pushes are at most one that was due already and the retries the counter still allows, which after its loss is max_retries |
| Delivery.FirstInFirstOut | api/app/worker_common.py:61-78 | without reaping and list loss, popped entries followed by the queue are all pushes in order, and an entry with k before it is the one taken by the (k + 1)-th pop |
| Recovery.TurnInOrder | api/app/worker_gpu.py:52-73 | left alone, an entry with k others before it is the head after k calls of `run_once`, so the next call attempts it; under interference each call that returns true pops at least one entry (`RunOnce`) |
| Calm.CalmRunKeepsInv | api/app/worker_gpu.py:117-135 | what every fault-free run keeps: each id waits at most once and only if its job can still be tried, the processing list is what the worker has in hand, runs match the counter |
| Calm.NoDuplicates | api/app/worker_gpu.py:52-73 | in every fault-free run an id has at most one copy on both lists together, two only between the retry push and the ack |
| Calm.MaintenanceIsNoOp | api/app/worker_gpu.py:126-134 | in every fault-free run periodic reaping and reconciling move nothing, whatever order the query answers in |
| Calm.RunsBounded | api/app/worker_common.py:153-193 | in every fault-free run a job's processor is started at most max_retries + 1 times |
| Calm.FailedIsFinal | api/app/worker_common.py:189-193 | in every fault-free run FAILED is final: rows stay or are deleted, the processor is not started again |
| Duplicates.FailedReopens | api/app/worker_gpu.py:82-95 | a concrete run in which a duplicate made by a periodic reconcile takes a FAILED job back to RUNNING |
| Reopening.FailedStaysIffGone | api/app/worker_gpu.py:75-95 | for a FAILED job in any reachable state (reconciles ask for QUEUED or RUNNING jobs, as the workers' do): every continuation without a restart of Redis but with crashes, lost replies, reaps, reconciles and deletions leaves its rows as they are or deleted and starts no processor, if and only if its push is done and nothing in a worker's hands, on a list or among planned pushes leads back to it |
| Reopening.FailedStaysUnlessListed | api/app/worker_gpu.py:82-119 | for a restart that nobody else touches: the drain that follows runs a FAILED job again if and only if a copy of it was on one of the lists, and otherwise leaves its row unchanged |
| Attempts.RunOnceAddsUp | api/app/worker_gpu.py:60-73 | pop, process, retry push if asked for and ack, taken step by step, equal the one-piece reference of an attempt |
| Attempts.AttemptAddsUp | api/app/worker_gpu.py:93-115 | the reads, both commits, the processor and the retry bookkeeping, taken step by step, equal the reference of `process` |
| Attempts.AttemptRuns | api/app/worker_gpu.py:93-115 | what an attempt leaves, case by case: DONE with the path the processor returned; QUEUED with a new copy at the tail exactly if the exception is counted within max_retries; else FAILED, for an unsupported language at once and uncounted; one more start of the processor, no other row touched |
| Attempts.AttemptDrops | api/app/worker_gpu.py:63-91 | garbage, a missing job and a DONE job are dropped without a change of rows; a job without its asset is failed and dropped |
| Attempts.AttemptDecreases | api/app/worker_gpu.py:52-115 | for an attempt during which nothing else moves, queue length plus the retries left strictly decreases: garbage, missing jobs, duplicates, retries, whatever the processor does |
| Credits.StepPays | api/app/worker_gpu.py:52-115 | whoever makes it, every step that loses nothing of the lane keeps this balance: entries on the lists, retries left and a push that is due are only spent, one for each attempt that ends, unless something arrives |
| Credits.CreditBounds | api/app/worker_gpu.py:52-115 | over any run with the other worker, deletions, API commits, crashes, lost replies and reaps: attempts finished plus what can still be finished is at most what could be finished at the start plus what was pushed from outside; so with no such push, the calls of `run_once` that return true are at most the lists' entries plus the retries left |
| Credits.CoveredStays | api/app/worker_gpu.py:60-73 | from any consistent state, no run that keeps the lists takes the last copy of an open job away |
| Credits.EmptyMeansSettled | api/app/worker_gpu.py:52-73 | when both lists are empty, every covered job is DONE, FAILED or deleted |
| Recovery.ReconcileIsExact | api/app/worker_common.py:130-150 | a reconcile appends each eligible id that was on neither list exactly once behind what was there, touches nothing else, and a second one appends nothing |
| Recovery.StartupCovers | api/app/worker_gpu.py:119-120 | after reap and full reconcile nothing is parked and every open job of the lane waits on its queue |
| Recovery.AttemptKeepsWaiting | api/app/worker_gpu.py:52-73 | an attempt keeps every open job of the lane on the queue and the processing list empty |
| Recovery.DrainEnds | api/app/worker_gpu.py:52-115 | with nobody else moving, that many attempts as the measure says empty both lists and leave every job of the lane DONE or FAILED |
| Recovery.Recoverable | api/app/worker_gpu.py:117-125 | with nobody else moving, from any state of rows and lists, startup and then attempts end with both lists empty and every job of the type DONE or FAILED, whatever the processor does |
| AmidOthers.ReconcileCovers | api/app/worker_common.py:105-150 | whoever else moves, after a full reconcile that ran to its end every open job that was issued before it has a copy on the lists |
| AmidOthers.ReconcileLists | api/app/worker_common.py:127-150 | whoever else moves, after a reconcile for some statuses ran to its end every job with one of them that was issued before it has a copy on the lists |
| AmidOthers.RecoverableAmidOthers | api/app/worker_gpu.py:117-138 | from any consistent state, whoever else moves and whatever fails after a full reconcile: the attempts finished are at most the lists' entries, the retries left and what arrives, and whenever both lists are empty every job issued before is DONE, FAILED or deleted |
| AmidOthers.RunConcludes | api/app/worker_gpu.py:117-138 | the same for the recorded trace of a worker that started up and then finished some attempts |
| Maintenance.MaintenanceKeeps | api/app/worker_gpu.py:126-134 | whoever else moves, after a pass of maintenance every QUEUED job that was issued before it has a copy on the lists and keeps one while it is open |
| Maintenance.TurnsMaintain | api/app/worker_gpu.py:122-138 | the same for every due turn of a worker's loop, to the end of its trace |
| Orphans.OrphansAreDue | api/app/worker_common.py:138-147 | in every run in which Redis keeps the lists, an idle worker's reconcile pushes an eligible job if and only if it is on neither list and its API push is still due |
| Orphans.PlannedAreDue | api/app/worker_common.py:105-150 | amid others: a job that a reconcile is about to push was not pushed by the API at its first read, is of this type, and has a status asked for or is deleted, so the periodic one never pushes a RUNNING job |
| Orphans.DuePushDuplicates | api/app/service.py:42-43 | when a reconcile pushes a job whose API push is due, that push then makes the second copy on the queue |
| Recovery.MaintenanceIdle | api/app/worker_gpu.py:126-134 | while everything open is waiting, a pass of maintenance changes nothing |
| WorkerCommon.ReliablePop | api/app/worker_common.py:61-78 | returns the head of the queue, now parked and in hand; a socket timeout comes back as nothing, never as an exception, and the worker is then idle with the entry either unmoved or parked |
| WorkerCommon.Ack | api/app/worker_common.py:81-83 | takes one copy of the entry off the processing list and ends the attempt |
| WorkerCommon.PushAgain | api/app/worker_gpu.py:70-71 | the retry push happens between the commit of the status and the ack, never elsewhere |
| WorkerCommon.ReapStuck | api/app/worker_common.py:86-102 | leaves reverse(processing) before the old queue before what was pushed meanwhile, an empty processing list, and returns how many it moved, whoever else pushes |
| WorkerCommon.CollectIds | api/app/worker_common.py:130-136 | exactly the numeric entries of the lists are collected, the others passed over |
| WorkerCommon.ScanLists | api/app/worker_common.py:130-136 | whoever else is at work, the worker reads the queue and then the processing list and holds the ids the machine noted at the two reads; left alone these are the ids on the lists |
| WorkerCommon.PushMissing | api/app/worker_common.py:138-150 | whoever else is at work, the worker takes exactly one push step for each missing id, which the machine fixes to be the next one in the query's order, and counts them |
| WorkerCommon.ReconcileOrphans | api/app/worker_common.py:105-150 | whoever else is at work, the worker takes exactly the two reads, the query and as many pushes as it returns; left alone it appends exactly the eligible ids on neither list; QUEUED and RUNNING are eligible unless statuses are given |
| WorkerCommon.HandleJobFailure | api/app/worker_common.py:153-193 | the rows it leaves in the session, retry or dead letter, are those the next commit must write for the count it read; a Redis error fails the job |
| Worlds.World.Await | api/app/worker_common.py:86-91 | between two commands of a worker any others move, along a run of the state machine that holds no step of that worker |
| Worlds.World.Blmove | api/app/worker_common.py:67-70 | the atomic move of one entry; when it raises, the entry is unmoved, or parked without being in hand |
| Worlds.World.Lmove | api/app/worker_common.py:95-97 | one entry from the head of the processing list to the head of the queue, or none |
| Worlds.World.LrangeQueue | api/app/worker_common.py:131-132 | the queue as it is at this moment |
| Worlds.World.LrangeProcessing | api/app/worker_common.py:131-132 | the processing list as it is at this moment, read after the queue |
| Worlds.World.SelectJobs | api/app/worker_common.py:139-144 | each eligible job of the type once, in any order |
| Worlds.World.RpushOrphan | api/app/worker_common.py:145-147 | pushes the next missing id, and no other |
| Worlds.World.CountAttempt | api/app/worker_common.py:168-170 | the counter after the increment, or nothing when Redis failed, before or after the increment took effect |
| Worlds.World.GetJob | api/app/worker_gpu.py:78-84 | the job row as committed when it is read, or none |
| Worlds.World.GetAsset | api/app/worker_gpu.py:86-91 | the asset row of the worker's own type that the job refers to, or none |
| Worlds.World.CommitRows | api/app/worker_gpu.py:93-114 | the two rows are stored with the statuses and, when done, the path that the session's objects hold, and no other row changes; it raises when a row to be updated is gone |
| Worlds.CommitStores | api/app/worker_gpu.py:93-114 | the commit step of the state machine stores exactly the rows due at its point |
| Worlds.World.CommitJob | api/app/worker_gpu.py:88-91 | fails the job without an asset and changes nothing else, or raises when the job is gone too |
| Worlds.World.RunProcessor | api/app/worker_gpu.py:98-105 | the processor answers in any way it likes while others move |
| WorkerGpu.ImageWorker.Render | api/app/worker_gpu.py:97-115 | under any interference, when it returns the database holds the outcome: DONE with the returned path, QUEUED if the job is to be pushed again, else FAILED |
| WorkerGpu.ImageWorker.Process | api/app/worker_gpu.py:75-115 | under any interference ends in front of the retry push or the ack; left alone it is the reference of `process` |
| WorkerGpu.ImageWorker.Handle | api/app/worker_gpu.py:63-73 | with an entry in hand: ends with its ack, after the retry push if one is due; left alone it is the rest of an attempt |
| WorkerGpu.ImageWorker.RunOnce | api/app/worker_gpu.py:52-73 | follows the state machine under any interference; when it returns true it popped at least one entry and ended at least one attempt; left alone it is exactly one attempt, or nothing on an empty queue |
| WorkerGpu.ImageWorker.Maintain | api/app/worker_gpu.py:126-134 | under any interference the worker's own steps are reaps until nothing is parked and then exactly a reconcile of the QUEUED jobs, or its last event is an escaped exception; left alone exactly a reap and such a reconcile |
| WorkerGpu.ImageWorker.StartUp | api/app/worker_gpu.py:119-120 | under any interference the worker's own steps are reaps until nothing is parked and then exactly a full reconcile; left alone the result is a reap and a reconcile of all unfinished jobs |
| WorkerGpu.ImageWorker.Run | api/app/worker_gpu.py:117-138 | through any faults and whoever else moves: each turn ends as its log says, and a due turn whose `run_once` raised nothing ran maintenance through unless an exception ended it; the QUEUED jobs issued before such a turn keep their copies; the turns that finished an entry are paid for by what was there after startup and what arrived; every job issued at the start keeps a copy while it is open, and both lists empty means all of them are DONE, FAILED or deleted; left alone the loop drains the lane in that many turns |
| WorkerTts.AudioWorker.Render | api/app/worker_tts.py:118-144 | under any interference, when it returns the database holds the outcome: DONE with the returned path, QUEUED if the job is to be pushed again, else FAILED; an unsupported language fails the job at once without touching the retry counter |
| WorkerTts.AudioWorker.Process | api/app/worker_tts.py:96-144 | under any interference ends in front of the retry push or the ack; left alone it is the reference of `process` with the branch that fails fast |
| WorkerTts.AudioWorker.Handle | api/app/worker_tts.py:84-94 | with an entry in hand: ends with its ack, after the retry push if one is due; left alone it is the rest of an attempt |
| WorkerTts.AudioWorker.RunOnce | api/app/worker_tts.py:74-94 | follows the state machine under any interference; when it returns true it popped at least one entry and ended at least one attempt; left alone it is exactly one attempt, or nothing on an empty queue |
| WorkerTts.AudioWorker.Maintain | api/app/worker_tts.py:155-163 | under any interference the worker's own steps are reaps until nothing is parked and then exactly a reconcile of the QUEUED jobs, or its last event is an escaped exception; left alone exactly a reap and such a reconcile |
| WorkerTts.AudioWorker.StartUp | api/app/worker_tts.py:148-149 | under any interference the worker's own steps are reaps until nothing is parked and then exactly a full reconcile; left alone the result is a reap and a reconcile of all unfinished jobs |
| WorkerTts.AudioWorker.Run | api/app/worker_tts.py:146-167 | through any faults and whoever else moves: each turn ends as its log says, and a due turn whose `run_once` raised nothing ran maintenance through unless an exception ended it; the QUEUED jobs issued before such a turn keep their copies; the turns that finished an entry are paid for by what was there after startup and what arrived; every job issued at the start keeps a copy while it is open, and both lists empty means all of them are DONE, FAILED or deleted; left alone the loop drains the lane in that many turns |
| PoemApi.PersistPoemRows | api/app/repository.py:64-88 | one transaction creates, for each asset asked for, a PENDING asset and a QUEUED job that refers to it; it returns all the jobs it created and no others, image first; a clash of ids writes nothing |
| PoemApi.AllCreatedAreReturned | api/app/repository.py:80-88 | every job id that the transaction adds is in the result, and each asset asked for has its job there |
| PoemApi.PersistCreates | api/app/repository.py:64-88 | the transaction creates all wanted pairs and neither pushes anything nor touches a lane |
| PoemApi.Generate | api/app/service.py:19-44 | when it returns, every job id its transaction added, and so each job asked for, has been pushed to the lane of its own type; when a push raises, all its jobs have been committed and those before it pushed |
| PoemApi.RequestEnqueues | api/app/service.py:31-43 | left alone, the image job is then the tail of the image queue and the audio job the tail of the audio queue, and nothing else on the lists changed |
| PoemApi.EnqueuePushes | api/app/queue.py:72-73 | a push appends the id to the queue of its own type and leaves the other lane and the rows alone |
| PoemApi.RowsWithoutPoem | api/app/repository.py:147-159 | collecting ids per type and deleting jobs by type and reference removes exactly the jobs whose asset belongs to the poem |
| PoemApi.DeleteIsExact | api/app/repository.py:131-160 | in every reachable state a deletion takes a job if and only if it takes its asset, takes the assets of that poem and no others, and leaves every remaining row as it is, although numbers may coincide across types |
| PoemApi.DeletePoemRows | api/app/repository.py:131-160 | false and nothing changed if there is no such poem, else one atomic deletion |
| SlidingWindow.RecentIsSuffix | api/app/ratelimit.py:59 | pruning a sorted bucket keeps exactly its hits inside the window, which are a suffix of it |
| SlidingWindow.PruneAgain | api/app/ratelimit.py:59 | pruning early never changes what a later prune leaves |
| SlidingWindow.RateLimiter.Check | api/app/ratelimit.py:55-68 | the answer, the delay and the whole dictionary afterwards, insertion order included, are those of the specification the laws below are about |
| SlidingWindow.RateLimiter.Evict | api/app/ratelimit.py:70-87 | drops the expired buckets, then the head of the stable sort by last hit, in place |
| SlidingWindow.RateLimiter.CollectExpired | api/app/ratelimit.py:80 | the expired keys in insertion order |
| SlidingWindow.EvictedOk | api/app/ratelimit.py:70-87 | eviction leaves at most max_keys buckets, keeps the kept ones unchanged and the dictionary consistent |
| SlidingLaws.ForgettingIsUnobservable | api/app/ratelimit.py:55-87 | refinement: in every run with non-decreasing times whose active keys fit, the next check gives the answer and the delay of a limiter that remembers every admission forever |
| SlidingLaws.EvictionUnobservable | api/app/ratelimit.py:80-87 | while the active keys fit, eviction changes the recent hits of no key |
| SlidingLaws.AdmittedIsHistory | api/app/ratelimit.py:55-87 | over such a run, the admissions of each key are the ones of the limiter that forgets nothing |
| SlidingLaws.WindowBound | api/app/ratelimit.py:55-68 | over such a run, any half-open interval as long as the window holds at most max admissions of a key |
| SlidingLaws.ReferenceBound | api/app/ratelimit.py:59-65 | the limiter that forgets nothing keeps that bound in every run with non-decreasing times |
| SlidingLaws.OneKeyFits | api/app/ratelimit.py:132-138 | a limiter that sees one key only needs no condition on active keys |
| SlidingEviction.MemoryBounded | api/app/ratelimit.py:64-87 | after every check of every run there are at most max_keys buckets of at most max hits |
| SlidingEviction.HeadIsOldest | api/app/ratelimit.py:85 | the head of the stable sort has the oldest last hit and is the first such key in insertion order |
| SlidingEviction.RoomMeansKept | api/app/ratelimit.py:66-67 | while there is room, an admission or a denial leaves the bucket of every other key as it is |
| SlidingEviction.EvictionIsFair | api/app/ratelimit.py:70-87 | an active bucket is dropped only when all max_keys + 1 are active; it has the oldest last hit, is the first such in insertion order, and is not the key just admitted |
| SlidingEviction.JustAdmittedSurvives | api/app/ratelimit.py:77-78 | the key just admitted keeps its bucket if and only if max_keys is at least one, ties included |
| SlidingEviction.RetryAfterIsTight | api/app/ratelimit.py:59-63 | a denial's delay r is between 1 and floor(window) + 1 (delay-seconds of section 10.2.3 of RFC 9110), ends after the oldest hit leaves the window and by no more than a second, and is sufficient and tight for the bucket as the denial left it |
| SlidingEviction.RetryAfterHolds | api/app/ratelimit.py:55-87 | over whole runs: after a denial and any further requests, retries and evictions included, that let nothing of the key through, the key is admitted at any time from now + r, and until its bucket is evicted denied at any time before now + r - 1 |
| SlidingCap.FloodBreaksTheBound | api/app/ratelimit.py:75-77 | for every configuration with a bucket, a run with one active caller too many in which the first caller is let through max + 1 times in one window |
| SlidingCap.CapThreshold | api/app/ratelimit.py:55-87 | for max_keys at least one: every run with non-decreasing times and at most n active callers keeps every window of every caller within max, if and only if n is at most max_keys |
| FixedWindow.CounterNamesDiffer | api/app/ratelimit.py:110-111 | equal counter names mean equal key and window index, even when keys contain colons or digits |
| FixedWindow.TtlOutlivesWindow | api/app/ratelimit.py:114-116 | the time to live is a whole number of seconds, more than the window by at most one, so set at any point of a window it ends after the window does |
| FixedWindow.CounterCounts | api/app/ratelimit.py:112-116 | for any interleaving of processes on one clock, until a window's time to live can be over its counter holds exactly the number of its requests, those that arrive after the window closed included |
| FixedWindow.AlignedWindowBound | api/app/ratelimit.py:106-123 | each key gets the first max of its requests in an aligned window and no more, from all processes together |
| FixedWindow.AnyIntervalBound | api/app/ratelimit.py:106-123 | any interval as long as the window holds at most 2 * max admissions of a key |
| FixedWindow.RetryLeavesWindow | api/app/ratelimit.py:120-122 | now plus the delay lies past the current window, so the next request meets another counter, and a second less would not |
| FixedWindow.RedisRateLimiter.Check | api/app/ratelimit.py:106-123 | what a check does to the shared counters and answers, failing open on a Redis error before or after the command took effect |
| FixedWindow.LateIsAdmitted | api/app/ratelimit.py:114-116 | for every limit and window, one INCR that arrives when the time to live is over makes max + 1 admissions in its window |
| FixedWindow.LagThreshold | api/app/ratelimit.py:106-123 | the aligned bound holds in every run on one clock in which an INCR arrives less than a given lag after the edge of its window, if and only if the lag is at most the time to live |
| ClientRules.ParseClientRules | api/app/clients.py:52-86 | the loop gives the rules of the well-formed entries in order; an unset setting gives none |
| ClientRules.EntryReads | api/app/clients.py:61-85 | an entry with a limit, whatever white space it is written with: nothing without a name or with a limit that is not a positive number, the name alone without a limit after the sign, else name and limit |
| ClientRules.BareEntryReads | api/app/clients.py:61-85 | an entry without the sign is its name, or nothing when it is blank |
| ClientRules.StripPadded | api/app/clients.py:61-65 | stripping takes away the white space around a text and nothing else |
| ClientRules.RulesOk | api/app/clients.py:52-86 | whatever the setting holds, every rule has a trimmed name, a positive limit if it has one, and a network that depends on the name alone |
| ClientRules.EntriesAreIndependent | api/app/clients.py:55-57 | a malformed entry costs that entry only: the entries before and after it are read as without it |
| ClientRules.RoundTrip | api/app/clients.py:52-86 | a rule list is read back from its own text if and only if it is one the parser can produce |
| Clients.CacheIsLatest | api/app/clients.py:145-156 | the cached entry of a name is the answer to its latest lookup, and there is none only if the name was never asked for |
| Clients.OncePerTtl | api/app/clients.py:13-16 | with a monotone clock, two lookups of a name, failing ones included, are at least a time to live apart |
| Clients.SnapshotIsFresh | api/app/clients.py:145-156 | every snapshot used is an answer DNS gave for that name less than a time to live before |
| Clients.FirstMatchWins | api/app/clients.py:137-143 | the rule found covers the peer and no rule before it does; none is found only if none covers it |
| Clients.FirstMatchIs | api/app/clients.py:137-143 | the rule found is a range that the address is in, or a name that the address is an answer for, and no range and no name before it is |
| Clients.NormaliseIs | api/app/clients.py:133-136 | an address ::ffff:a.b.c.d is compared as a.b.c.d, every other one as it is |
| Resolver.CacheIsItsQueries | api/app/clients.py:126-156 | the cache that any run of matches leaves is the cache left by the queries those matches made |
| Resolver.MatchAgreesWithDns | api/app/clients.py:126-156 | in every run of matches on a monotone clock, the rule returned is the first that covers the normalised peer, where each name stands for an answer DNS gave for it less than a time to live before, and no name, failing ones included, is looked up twice within a time to live |
| Clients.ClientRegistry.ResolveCached | api/app/clients.py:145-156 | the answer and the cache afterwards: a fresh entry is used unchanged, else DNS is asked and the answer kept for one time to live |
| Clients.ClientRegistry.Match | api/app/clients.py:126-143 | the first covering rule for the normalised peer (mapped addresses of section 2.5.5.2 of RFC 4291), asking the cache for exactly the names up to it |
| FirstListed.RangesAreFirst | api/app/clients.py:137-143 | a rule for an address range is only returned if it is the first of its name, and no range before the returned rule covers the peer |
| FirstListed.LimitIs | api/app/ratelimit.py:160 | a limit that is configured counts as it is, smaller or larger than the default; without one the default counts |
| FirstListed.ReachableNames | api/app/clients.py:137-156 | an entry for a host name can be returned if and only if some peer escapes the ranges before it, earlier entries of the same name notwithstanding |
| FirstListed.QuickMatchIsFirst | api/app/clients.py:137-156 | when the clock shows one time during a match, the rule returned is the first of its name |
| NamedLimiter.OneLimiterPerName | api/app/ratelimit.py:139-162 | over every run, what the one limiter of a name let through is what the service of that name was let through, whatever its addresses |
| NamedLimiter.NamesGetTheirFirstLimit | api/app/ratelimit.py:152-162 | every name has the limit of the first rule listed with it in every run if and only if duplicates of a name that a peer can reach agree on their limit |
| NamedLimiter.NamedBound | api/app/ratelimit.py:126-162 | however addresses and DNS answers change, any window of 60 seconds holds at most as many admissions through one name as the first rule listed with it says, or the default if it says nothing, if no duplicate allows more or the clock stands still during each match |
| NamedExact.DuplicateOverruns | api/app/ratelimit.py:152-162 | whenever a reachable duplicate allows more, a run of one request after the other in which the service gets one admission more than its first entry allows |
| NamedExact.FirstEntryBounds | api/app/ratelimit.py:126-162 | every run of one request after the other keeps every name to its first entry, if and only if no duplicate that a peer can get to allows more |
| NamedLimiter.SettingBound | api/app/clients.py:52-86 | the same bound from the text of the setting, whatever it holds |
| NamedShared.SharedNameBound | api/app/deps.py:51-58 | with REDIS_URL set: over all processes together, however each came to its limiter, a service gets at most what the first rule listed with its name allows in an aligned minute, and at most twice that in any minute |
| NamedLimiter.NamedClientLimiter.ForPeer | api/app/ratelimit.py:152-162 | builds at most one limiter per name, the first time the name is matched, with the limit of the rule matched or the default, shares none between names, and never replaces one |
| NamedLimiter.Enforce | api/app/main.py:110-136 | a covered peer spends from its name's bucket only, is told that bucket's answer and delay, and leaves the default one alone; any other spends from the default bucket under its address or "anon" |

## Left out

- HTTP routes, authentication, CORS, health checks, logging, heartbeats and Sentry: no state that the protocols depend on.
- Poem text generation, prompt assembly, the image and speech engines: the processor and the synthesizer are arbitrary answers.
- Several workers on one queue: the code rules it out, and the safety claims fail there.
- SQLAlchemy, Postgres and Redis internals, redis-py's transport retries, and the driver's timeouts: a command is atomic and may fail with or without effect.
- Asset files on disk, `resolve_under`, and the removal of files in `delete_poem`.
- Error texts, timestamps, seeds and sizes of rows: nothing branches on them.
- The read-only queries (`get_poems`, `get_poem`, `get_stats`) and `combine_image_prompt`: no state of the protocols depends on them.
- `InMemoryJobQueue`: a test double of the queue.
- The spelling of numeric list entries: an id is pushed in one spelling only, so an entry is either that number or not a number.
- The endless loop of `run` and its clock: any finite number of turns, with maintenance after any of them.
- WorkerGpu.ImageWorker.Run: that the lists do become empty is claimed for turns in which nobody else moves; amid others a turn can find nothing or fail, and what is claimed is the bound on finished attempts and what empty lists mean.
- WorkerTts.AudioWorker.Run: the same.
- DNS, the syntax of addresses and networks, network membership, what counts as white space and as a number: parameters.
- Thread locks: each check, each cache access and each build of a limiter is one atomic step; two lookups of one name at once are not modelled.
- FixedWindow.AnyIntervalBound: stated for runs without Redis errors, because on an error the limiter lets requests through on purpose; an EXPIRE that never comes is covered.
- Machine floating point: times are real numbers and rounding is not modelled.
