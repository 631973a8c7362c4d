# ProxyLLM, modelled and proved in Dafny

ProxyLLM is a proxy in front of large-language-model servers. Requests wait in a bounded priority
queue, a pool of workers takes them out, a three-layer rate limiter admits or delays them, and each
admitted request is forwarded to one of several nodes with failover. Request logs go through an
asynchronous logger into SQLite, where a retention cycle prunes them. This project models that core and proves what
it keeps over every run, every interleaving and every input.

`dafny verify dfyconfig.toml` checks the whole project.

## What is proved

* **Request path** (`PriorityHeap`, `RequestQueue`, `Scheduler`, `Progress`). The in-place heap of
  `container/heap` refines a multiset that is served in order of priority and age. Handlers, queue, condition variable,
  workers, back-off goroutines and shutdown form one state machine. In every reachable state of every run: no
  wake-up is lost, each accepted request is in exactly one place and is forwarded at most once, the
  send of a result never blocks, and nothing enters a closed queue. While `stopCh` is open a queued request is
  served within a bound on the workers' turns; `Stop` may leave requests behind, and it returns.
* **Rate limiting** (`CounterKeys`, `MemoryCache`, `Limiter`, `LimiterProtocol`, `LimiterAlone`, `LimiterRuns`,
  `LimiterTheorems`). A call alone admits exactly the admissible requests and undoes its charges otherwise. Any number of
  calls interleaved at the level of single cache operations, with failing writes and background sweeps, keep every
  counter equal to the calls it stands for, and admit at most the limit per layer and minute. The steps of a
  call may lag behind its minute; the limits hold for all runs with lag at most b if and only if b is
  at most 61 seconds, and any sixty seconds make at most twice the limit of admissions if and only if b is at
  most 60 seconds. A call that runs alone in the protocol is the method.
* **Failover** (`Failover`). The retry loop with its buffering recorder is proved against a description of
  everything the client is sent. A call that answers sends exactly one response, the last attempt's alone,
  if and only if no attempt before the last had its output passed through and then broke off; and this is
  certain before the call if and only if the loop can make one attempt only.
* **Bodies, routes, streams** (`DeepMerge`, `Router`, `StreamTokens`). The in-place merge over shared
  references computes the merge of values and leaves the override intact; the alias index answers
  like a scan of the table after any sequence of changes; the one-pass token count equals a closed form.
* **Logs** (`AsyncLogger`, `Retention`). Accepted entries are conserved through channel, batches,
  flushes and table, and after `Close` all of them are stored if and only if no insert failed and a `Flush`
  took every late one; pruning keeps the newest rows, within all limits, and deletes no more than that.

`Basics` holds what the modules share.

Each state-changing Go type is a class whose methods are proved against specification functions and
predicates; concurrent behaviour is a state machine whose steps are the critical sections, or single cache
operations, of the source.

## Where code and comments disagree

The model follows the code.

* The retry loop tries another node after any failure, also when the error class is not retryable and
  also when the failed attempt's output has already gone to the client (`Failover.BrokenStreamIsRetried`).
* `openai.go:214-218` relies on the worker to have sent the last error, so the handler writes nothing; a call
  without candidates, or whose budget allows no attempt, has sent nothing (`Failover.SentByEnding`).
* `retention.go:14` gives the order rows, days, size; the code applies days, rows, size
  (`Retention.OrderOfPoliciesIsImmaterial` says exactly when that makes a difference).
* `retention.go:131` says that the database is vacuumed only after a deletion; the flag is also set
  whenever a row or day limit is configured (`Retention.CleanTier`, `Retention.ReportsWithoutDeleting`).
* `stream.go:28` estimates tokens as a quarter of the length; the code takes half the number of code
  points, and at least one for text that is not empty.
* `router.go:14` and `router.go:58` promise lists sorted by priority; nothing sorts them, and
  `domain.ModelNode` has no priority.
* `Flush` is described as part of shutdown, but `Close` alone is what the workers react to; entries logged
  after a worker's last look at its channel stay there (`AsyncLogger.LateEntryIsStranded`,
  `AsyncLogger.OnlyFlushRescues`).

## Model

| member | source | states |
|---|---|---|
| PriorityHeap.Up | src/internal/queue/priority_queue.go:108-108 | the sift-up of heap.Push restores the heap order that only the path above one slot broke, keeps the entries as a multiset, and touches nothing behind the heap |
| PriorityHeap.Down | src/internal/queue/priority_queue.go:136-136 | the sift-down of heap.Pop does the same below one slot; if nothing moved only the edge above that slot can still be out of order |
| PriorityHeap.RootIsFirst | src/internal/queue/priority_queue.go:51-56 | in a heap no entry precedes the one in the first slot, by priority and then age |
| PriorityHeap.Push | src/internal/queue/priority_queue.go:59-61 | a heap stays a heap and gains exactly the request |
| PriorityHeap.Pop | src/internal/queue/priority_queue.go:63-70 | takes out a request that none precedes; the rest stays, as a heap |
| PriorityHeap.RemoveAt | src/internal/queue/priority_queue.go:156-160 | removal from any slot leaves a heap of exactly the other entries |
| PriorityHeap.PopMany | src/internal/queue/priority_queue.go:63-70 | repeated popping yields a sorted run, and nothing left behind precedes anything in it |
| PriorityHeap.RankIsPopsBefore | src/internal/queue/priority_queue.go:109-116 | the position reported by Enqueue is at most the number of pops before the request's own in any such run, and equals it when no other entry ties with it, whatever the heap layout |
| RequestQueues.RequestQueue.constructor | src/internal/queue/priority_queue.go:82-89 | a new queue is empty and open |
| RequestQueues.RequestQueue.Close | src/internal/queue/priority_queue.go:91-96 | the queue is closed, its entries stay |
| RequestQueues.RequestQueue.Enqueue | src/internal/queue/priority_queue.go:100-120 | refuses, without a change, exactly when closed or full; otherwise adds the request and returns its rank and the new length; heap order and capacity are kept |
| RequestQueues.RequestQueue.Dequeue | src/internal/queue/priority_queue.go:124-142 | one critical section drops cancelled requests in service order and ends with the first live one, or asleep on an empty open queue, or with nil on an empty closed one; the heap length is its measure |
| RequestQueues.RequestQueue.Remove | src/internal/queue/priority_queue.go:152-163 | takes out the entry in the first slot with the ID and returns that slot, or -1 and no change exactly when there is none |
| RequestQueues.DeliversTheFirstLive | src/internal/queue/priority_queue.go:122-142 | a delivered request is live and no live request of the queue precedes it |
| Scheduler.SignalKeepsWakeups | src/internal/queue/priority_queue.go:108-118 | enqueueing with one Signal keeps the wake-up invariant whichever sleeper is woken |
| Scheduler.SectionKeepsWakeups | src/internal/queue/priority_queue.go:124-142 | so does every critical section of DequeueBlocking, also one that drops several cancelled requests on one signal |
| Scheduler.StepKeepsWakeups | src/internal/worker/pool.go:151-186 | every step of every party keeps the wake-up invariant |
| Scheduler.NoLostWakeup | src/internal/queue/priority_queue.go:118-131 | in every state of every run, while a worker sleeps unsignalled there are at least as many signalled workers as queued requests, and after Close's broadcast nobody sleeps |
| Scheduler.StepKeepsRequest | src/internal/worker/pool.go:159-184 | every step keeps each request in the places it was accounted for |
| Scheduler.OnePlaceEach | src/internal/worker/pool.go:151-186 | in every state of every run each accepted request is in exactly one of queue, worker, back-off, answered, discarded, dropped, removed; it is forwarded at most once; the queue is a heap within its capacity |
| Scheduler.ResultSendNeverBlocks | src/internal/worker/pool.go:181-184 | a worker about to send a result finds the request's channel of capacity one empty |
| Scheduler.StepKeepsQueue | src/internal/queue/priority_queue.go:100-163 | every step keeps the queue a heap within its capacity |
| Scheduler.StepKeepsStops | src/internal/worker/pool.go:153-160 | every step keeps that a worker has stopped only after stopCh was closed, or after the queue was closed and ran empty |
| Scheduler.StepKeepsInv | src/internal/worker/pool.go:119-186 | every step keeps the whole invariant |
| Scheduler.InvInEveryState | src/internal/worker/pool.go:119-186 | the invariant holds in every state of every run |
| Scheduler.NothingAddedAfterClose | src/internal/queue/priority_queue.go:104-106 | once closed, no step adds a request to the queue, a re-enqueue after back-off included |
| Scheduler.ShutdownProgress | src/internal/worker/pool.go:127-149 | after Stop's broadcast every step of a worker or of the monitor brings the pool closer to its exit and no other step takes it back |
| Scheduler.ShutdownTerminates | src/internal/worker/pool.go:127-149 | from then on the workers together take at most five turns each and the monitor one step, in any interleaving, and no worker sleeps |
| Progress.SectionPossible | src/internal/queue/priority_queue.go:128-141 | from any heap a critical section of DequeueBlocking can run to its end |
| Progress.AwakeCanMove | src/internal/worker/pool.go:151-186 | under the invariant a worker that is neither asleep nor stopped can take its next step |
| Progress.SomeWorkerCanMove | src/internal/worker/pool.go:151-186 | in every reachable state with a queued request and a worker that has not stopped, some worker can move, if only to its exit |
| Progress.StepNearsQueue | src/internal/worker/pool.go:153-184 | while stopCh is open every turn that is not a dequeue brings the workers closer to the queue, a dequeue puts one at most four steps away, and no other step counts |
| Progress.IdleWorkersDequeue | src/internal/worker/pool.go:159-159 | while stopCh is open, when no worker has anything else to do and a request is queued, some worker can dequeue at once |
| Progress.DequeueComesSoon | src/internal/worker/pool.go:151-186 | while stopCh is open at most four turns per worker pass before one of them dequeues |
| Progress.QueuedRequestsAreServed | src/internal/worker/pool.go:151-186 | while stopCh is open a request stays queued for at most four turns per worker, five per queued request, itself included, and five per later arrival, in any interleaving |
| Progress.QueuedRequestsAreAttended | src/internal/worker/pool.go:151-186 | and meanwhile some worker can always move |
| Progress.AbandonedAtStop | src/internal/worker/pool.go:153-157 | a run in which a worker that finds stopCh closed stops and leaves a queued request behind |
| Progress.OnlyStopAbandons | src/internal/worker/pool.go:153-160 | in every reachable state requests are left in the queue with all workers stopped only after stopCh was closed |
| Progress.StopReturns | src/internal/worker/pool.go:119-149 | in every reachable state after Stop's broadcast, workers and monitor have all returned if and only if none of them can move any more |
| CounterKeys.ParseFormat | src/internal/storage/memory/cache.go:119-125 | reading back a counter written as decimal text gives the counter, negative ones included |
| CounterKeys.KeysAreInjective | src/internal/ratelimit/limiter.go:205-217 | counters that differ in kind, scope, ID or minute have different keys, whatever the IDs contain |
| CounterKeys.KeysAreNotTheProbe | src/internal/ratelimit/limiter.go:178-187 | the health probe's key is no counter's key |
| MemoryCaches.MemoryCache.Get | src/internal/storage/memory/cache.go:63-74 | returns the value of an entry that is present and not expired |
| MemoryCaches.MemoryCache.Set | src/internal/storage/memory/cache.go:77-89 | stores the value under the key, with an expiry only for a positive lifetime |
| MemoryCaches.MemoryCache.Delete | src/internal/storage/memory/cache.go:92-97 | removes the key and nothing else |
| MemoryCaches.MemoryCache.IncrBy | src/internal/storage/memory/cache.go:103-127 | returns the old count plus the delta, which is also what the counter reads afterwards |
| MemoryCaches.MemoryCache.Sweep | src/internal/storage/memory/cache.go:46-54 | deletes exactly the expired entries, in whatever order the keys are visited |
| MemoryCaches.IncrementCounts | src/internal/storage/memory/cache.go:99-127 | an increment shifts its own counter by the delta, for as long as that lives, and no other key, seen from any later time |
| MemoryCaches.SweepsAreInvisible | src/internal/storage/memory/cache.go:39-59 | under a monotone clock two caches that agree on live entries answer alike, one with sweeps and one without |
| MemoryCaches.SweepRefinement | src/internal/storage/memory/cache.go:39-59 | sweeps inserted anywhere into any sequence of calls change no result |
| MemoryCaches.ExpiryIsFixed | src/internal/storage/memory/cache.go:99-102 | reads, increments and sweeps a key lives through never move its expiry |
| Limiters.Limiter.GetCount | src/internal/ratelimit/limiter.go:142-149 | reads the live count, zero if there is none |
| Limiters.Limiter.Undo | src/internal/ratelimit/limiter.go:151-155 | taking back the listed charges restores every counter as any later reader sees it, except for exactly the charges whose write fails |
| Limiters.ReadsThrough | src/internal/ratelimit/limiter.go:80-97 | the charges a call has made so far do not change what a later layer reads |
| Limiters.Limiter.ChargeLayer | src/internal/ratelimit/limiter.go:85-97 | each layer is judged by what its counters stood for when the call began, although earlier layers have been charged since; a failed charge is a cache error and changes nothing |
| Limiters.Limiter.ChargeRequest | src/internal/ratelimit/limiter.go:68-105 | passes exactly when every charge succeeds and every request layer has room on its own; otherwise reports the first layer that stops the call, by a cache error or with its estimate and limit, and leaves only the charges whose undo fails |
| Limiters.Limiter.CheckTokens | src/internal/ratelimit/limiter.go:107-137 | passes exactly when every token layer has tokens left; otherwise reports the first that has none |
| Limiters.ClearMeans | src/internal/ratelimit/limiter.go:80-105 | all request layers let a call pass if and only if each has room and no charge fails |
| Limiters.Limiter.AllowRequest | src/internal/ratelimit/limiter.go:50-140 | admits exactly the admissible requests whose charges all reach the cache; an admitted one is charged once to each limited request counter; a rejected one leaves only the charges whose undo fails, so every counter as it was if none does; the verdict is that of the first layer that stops it, a cache error included |
| Limiters.Limiter.RecordTokens | src/internal/ratelimit/limiter.go:157-176 | adds a positive number to the three token counters of the minute in order, up to the first write that fails, and to no other counter; otherwise changes nothing |
| LimiterProtocol.CacheRepresents | src/internal/ratelimit/limiter.go:88-89 | each cache operation on a text key is the operation on the abstract counter of the protocol |
| LimiterProtocol.TallyOfNext | src/internal/ratelimit/limiter.go:79-137 | every step changes each counter's tally by exactly what it writes to the cache |
| LimiterProtocol.WriteKeepsAccurate | src/internal/storage/memory/cache.go:103-127 | a write in time keeps a counter accurate although it may have to create it anew |
| LimiterProtocol.StepKeepsCounted | src/internal/ratelimit/limiter.go:50-176 | every timely step keeps every counter equal to its tally |
| LimiterProtocol.StepKeepsBounded | src/internal/ratelimit/limiter.go:88-104 | every timely step keeps the calls let through by a request layer within its limit |
| LimiterProtocol.StepKeepsFloors | src/internal/ratelimit/limiter.go:126-130 | no token tally falls below what a call in progress found when it began |
| LimiterProtocol.InvInEveryState | src/internal/ratelimit/limiter.go:50-176 | all of these hold in every state of every timely run |
| LimiterProtocol.CountersAreExact | src/internal/ratelimit/limiter.go:79-105 | in every state of every timely run a counter within 61 seconds of its minute's start reads exactly the admitted, leaked and tentatively charged calls, or the tokens written |
| LimiterProtocol.AdmissionsWithinLimit | src/internal/ratelimit/limiter.go:97-104 | in every interleaving a limited request layer admits at most its limit per minute |
| LimiterProtocol.ChargedOnce | src/internal/ratelimit/limiter.go:69-95 | an admission is charged once to each limited counter that covers it and to no other |
| LimiterAlone.AloneIsARun | src/internal/ratelimit/limiter.go:79-137 | a call's steps without interference are a stretch of the protocol's run that ends with the call over and admitted or not |
| LimiterAlone.AloneMeans | src/internal/ratelimit/limiter.go:79-137 | such a call is admitted exactly when every layer ahead of it has room, and leaves its charges then and nothing otherwise |
| LimiterAlone.AloneIsTheMethod | src/internal/ratelimit/limiter.go:50-140 | on a cache that represents the counters it is admitted if and only if the request is admissible, and any cache that meets AllowRequest's contract for that verdict reads the same for every counter at every later time |
| LimiterAlone.AllowAlone | src/internal/ratelimit/limiter.go:50-140 | calling AllowRequest on such a cache with all writes succeeding gives the verdict of the protocol's call and, for every counter and every later time, its readings |
| LimiterTheorems.AtMostTwiceTheLimit | src/internal/ratelimit/limiter.go:63-105 | of the calls that began within any sixty seconds at most twice a layer's limit are admitted |
| LimiterTheorems.SixtySecondsExactly | src/internal/ratelimit/limiter.go:63-105 | any sixty seconds make at most twice a layer's limit of admissions, in all runs in which no call takes a step later than b into its minute, if and only if b is at most 60 seconds |
| LimiterTheorems.ThreeInSixtySeconds | src/internal/ratelimit/limiter.go:88-104 | with a lag of 60 seconds and a nanosecond a run makes three admissions in sixty seconds under a limit of one |
| LimiterTheorems.TwiceTheLimitHappens | src/internal/ratelimit/limiter.go:88-104 | for every limit a timely run reaches twice the limit within sixty seconds, counted by when the calls began and by when they were admitted |
| LimiterTheorems.RejectionsLeaveNoTrace | src/internal/ratelimit/limiter.go:90-104 | when no call is under way and no undo has failed, a request counter reads exactly the calls admitted |
| LimiterTheorems.ExhaustedLayerAdmitsNobody | src/internal/ratelimit/limiter.go:118-137 | a call that began after a token counter reached its limit is not admitted in that minute |
| LimiterTheorems.TokenCountersAgree | src/internal/ratelimit/limiter.go:165-174 | when no recording is under way the global token counter exceeds the sum of the model counters, and of the key counters, by exactly what recordings that broke off put only there; they agree if and only if none broke off in between |
| LimiterTheorems.LateStepsBreakTheLimit | src/internal/ratelimit/limiter.go:89-104 | a run in which a call is held up for 61 seconds and a nanosecond and a limit of one admits two |
| LimiterTheorems.SixtyOneSecondsExactly | src/internal/ratelimit/limiter.go:63-104 | the limits hold in all runs in which no call takes a step later than b into its minute if and only if b is at most 61 seconds |
| Failover.Recorder.constructor | src/internal/worker/pool.go:31-36 | a fresh recorder has recorded nothing |
| Failover.Recorder.Commit | src/internal/worker/pool.go:56-68 | the first commit lays the recorded headers over the client's and sends one status line; later ones do nothing |
| Failover.Recorder.WriteHeader | src/internal/worker/pool.go:42-54 | only the first status counts, and it alone decides whether the response is passed through or buffered |
| Failover.Recorder.Write | src/internal/worker/pool.go:70-78 | bytes go to the client after a commit and into the buffer before; without a status they imply 200 |
| Failover.Forward | src/internal/proxy/proxy.go:111-165 | an upstream outcome shows at the client completely and in order, or not at all, according to its status |
| Failover.PickNode | src/internal/worker/pool.go:279-286 | returns an enabled candidate that is not excluded, and none exactly when there is none |
| Failover.WriteWorkerError | src/internal/worker/pool.go:294-309 | sends one JSON error response with the status and the message of the error type |
| Failover.GiveUp | src/internal/worker/pool.go:257-269 | a failed last attempt is flushed from the buffer, or answered with a made-up error, or left as already sent |
| Failover.AttemptOn | src/internal/worker/pool.go:212-271 | one attempt ends the call exactly on success, on the last allowed attempt, or when nobody is left |
| Failover.ForwardWithRetry | src/internal/worker/pool.go:188-277 | attempts are numbered from one, on enabled candidates with pairwise different IDs, all but the last failures, no more than the candidates' IDs or a positive budget allow and none without; the result and everything the client was sent follow from them |
| Failover.NeverFallsOutOfTheLoop | src/internal/worker/pool.go:206-207 | with enabled candidates and one allowed attempt the break on a nil node and the statement after the loop are unreachable |
| Failover.ExactStatusLines | src/internal/worker/pool.go:212-271 | the client is sent one status line per attempt passed through, and one more for a last attempt that was not |
| Failover.OneStatusLine | src/internal/worker/pool.go:21-68 | exactly one status line is sent if and only if no attempt before the last was passed through, and never none |
| Failover.CommittedBeforeLast | src/internal/worker/pool.go:235-254 | of the attempts followed by another, those passed through are exactly those whose response broke off after its status |
| Failover.OnlyTheLastAttemptShows | src/internal/worker/pool.go:212-264 | then headers, status and bytes at the client are those of the last attempt alone; a cancelled call has sent nothing |
| Failover.DeliversTheLastResponse | src/internal/worker/pool.go:235-269 | the client gets one whole response: status, headers over those already set, and the bytes in order, or a 502 if there was none |
| Failover.SentByEnding | src/internal/worker/pool.go:188-277 | a call that answers sends at least one status line, and exactly one if and only if no attempt before the last broke off; one without candidates or attempts sends nothing; a cancelled one sends nothing if and only if no attempt broke off |
| Failover.BrokenStreamIsRetried | src/internal/worker/pool.go:251-273 | on any two nodes with two attempts allowed, a stream that breaks after its 200 went out is followed by another attempt, and the client is sent two status lines |
| Failover.AtMostOneResponse | src/internal/worker/pool.go:188-277 | for given candidates and budget no call sends two status lines, whatever the upstream and the cancellations do, if and only if the budget is at most one or at most one enabled ID is a candidate |
| DeepMerge.OverrideWins | src/internal/proxy/override.go:3-7 | wherever the override has a value that is no object, a null included, the merge has that value |
| DeepMerge.BodyKept | src/internal/proxy/override.go:8-21 | wherever the override is silent the body keeps what it had |
| DeepMerge.NothingMadeUp | src/internal/proxy/override.go:8-21 | every value of the merge that is no object was in one of the two at the same path |
| DeepMerge.MergeIsIdempotent | src/internal/proxy/override.go:8-21 | merging the same override again changes nothing |
| DeepMerge.MergedValue | src/internal/proxy/override.go:8-21 | the references left by the in-place merge, sharing included, hold the merge of the two values |
| DeepMerge.StoreTurn | src/internal/proxy/override.go:19-19 | a turn that stores the override's value leaves every other key's slot as it was |
| DeepMerge.MergeTurn | src/internal/proxy/override.go:12-17 | so does a turn that merges two sub-maps, because no other key reaches the maps it changes |
| DeepMerge.DeepMerge | src/internal/proxy/override.go:8-21 | the in-place loop, visiting keys in any order, turns a tree-shaped body into the merged shape and leaves the override as it was |
| DeepMerge.ApplyOverride | src/internal/proxy/override.go:26-32 | returns the same map, holding the merge of the values; an empty override changes nothing |
| Routers.Router.constructor | src/internal/router/router.go:19-24 | a new router is empty and consistent |
| Routers.Router.RebuildAliasIdx | src/internal/router/router.go:103-111 | the rebuilt index lists each node once per mention of the alias, in whatever order the table is visited |
| Routers.LastStays | src/internal/router/router.go:31-34 | of several nodes with one ID in a Sync the last stays |
| Routers.Router.Sync | src/internal/router/router.go:27-36 | replaces the table, with an index that agrees |
| Routers.Router.AddOrUpdate | src/internal/router/router.go:39-45 | sets the node of its ID, with an index that agrees |
| Routers.Router.Remove | src/internal/router/router.go:48-54 | removes the ID, with an index that agrees |
| Routers.Router.Resolve | src/internal/router/router.go:59-77 | the lookup through the index returns what a scan of the table for enabled nodes with matching alias and endpoint returns, as a multiset |
| Routers.Router.Replay | src/internal/router/router.go:27-54 | after any sequence of changes the table is the one they describe and the index agrees with it |
| AsyncLogger.InsertKeepsRows | src/internal/storage/sqlite/logger.go:54-76 | a bulk insert adds exactly the IDs of its entries and never changes an existing row |
| AsyncLogger.BulkInsert | src/internal/storage/sqlite/logger.go:44-78 | all entries are inserted, or on an error in any statement or the commit none |
| AsyncLogger.StepConserves | src/internal/logging/logger.go:53-188 | every step of senders, worker and flushers conserves every accepted entry |
| AsyncLogger.StepKeepsInv | src/internal/logging/logger.go:53-188 | every step keeps conservation, batch limit, table contents and the account of late entries |
| AsyncLogger.EntriesAreConserved | src/internal/logging/logger.go:53-188 | in every state of every run each accepted entry is in the channel, a batch, a flush, written or lost, as often as it was accepted, and a running worker's batch is below its limit |
| AsyncLogger.AllWrittenAfterClose | src/internal/logging/logger.go:99-188 | after the worker's exit the late entries are exactly those in the channel and those a later Flush took, and everything accepted has been written if and only if no insert failed and a Flush took every late entry |
| AsyncLogger.TableIsComplete | src/internal/logging/logger.go:99-188 | then the table has a row for every accepted ID and for no other |
| AsyncLogger.LateEntryIsStranded | src/internal/logging/logger.go:136-188 | a run in which an entry logged after the worker's last look is accepted, stays in the channel and is not in the table |
| AsyncLogger.OnlyFlushRescues | src/internal/logging/logger.go:99-134 | however the run goes on, only a Flush ever takes such an entry out of the channel |
| AsyncLogger.TableHoldsTheWritten | src/internal/storage/sqlite/logger.go:54-59 | each written ID has one row, which is an accepted entry with that ID |
| Retention.AtMostIsTotal | src/internal/storage/sqlite/logger.go:215-224 | the text order of timestamps is total and antisymmetric |
| Retention.AtMostIsTransitive | src/internal/storage/sqlite/logger.go:215-224 | and transitive |
| Retention.LogTable.SizeBytes | src/internal/storage/sqlite/logger.go:367-388 | adds up the rows' sizes, in any order |
| Retention.TailGone | src/internal/storage/sqlite/logger.go:222-225 | deleting by ID what comes from position n on in newest-first order keeps n newest rows, however ties are ordered |
| Retention.LogTable.Prune | src/internal/storage/sqlite/logger.go:213-250 | keeps, of the rows not older than the cutoff, the newest up to the row limit; a statement that fails leaves what the ones before it did |
| Retention.PrunedIsNewest | src/internal/storage/sqlite/logger.go:213-230 | what is kept is newest, within the row limit and not older than the cutoff |
| Retention.LogTable.PruneBySize | src/internal/storage/sqlite/logger.go:392-435 | deletes whole batches of oldest rows, only while over the limit, and ends within it or at the first statement that fails |
| Retention.HistoryIsNewest | src/internal/storage/sqlite/logger.go:404-408 | over all batches together the newest rows are kept |
| Retention.CleanTier | src/internal/logging/retention.go:83-105 | whatever fails, one tier keeps the newest rows, enforces each limit whose statements succeed and leaves a table within its limits alone; if nothing fails it ends within all limits, by days, rows and size in that order and nothing beyond, and reports a change exactly when rows went or a row or day limit is on |
| Retention.ReportsWithoutDeleting | src/internal/logging/retention.go:86-88 | a table of one row with room for one, of which a change is reported although nothing is deleted |
| Retention.Clean | src/internal/logging/retention.go:77-142 | the same for both tiers of a cycle, and exactly when it goes on to vacuum |
| Retention.SameNumberKept | src/internal/logging/retention.go:13-15 | applying rows before days keeps as many rows, however ties are broken |
| Retention.OrderOfPoliciesIsImmaterial | src/internal/logging/retention.go:13-15 | both orders keep the same rows, however the database breaks ties, if and only if no tie among the recent rows straddles the row limit |
| Retention.TieLeavesChoice | src/internal/storage/sqlite/logger.go:222-225 | at every such tie two different sets of rows can be kept |
| Retention.DistinctTimesNeverTie | src/internal/storage/sqlite/logger.go:222-225 | distinct timestamps never tie |
| StreamTokens.LastIsLast | src/internal/proxy/stream.go:94-99 | the usage counted is that of the last line that carries an OpenAI-style one |
| StreamTokens.FirstIsFirst | src/internal/proxy/stream.go:110-118 | failing that, that of the first line with a responses-style usage with positive input tokens |
| StreamTokens.NextUsage | src/internal/proxy/stream.go:93-118 | what one more line does to the usage counted so far |
| StreamTokens.ForwardStream | src/internal/proxy/stream.go:32-140 | the one-pass loop forwards the lines in order and counts the reported usage, or for a completed stream without one half the code points of all deltas; a cancelled, failed or unreadable stream gets no estimate, and a line whose write fails is recorded but not counted |

## Left out

- HTTP routing, middleware, authentication, the admin API and configuration: plumbing without the state the proofs are about.
- The handler's own 504 on a queue timeout (`src/internal/api/openai.go:277-285`): what is proved about the client's responses concerns what the worker sends; the handler is in the model as a party that submits, cancels and receives.
- The upstream call and JSON decoding: an upstream is an arbitrary function of attempt and node, a stream line carries what decoding gave.
- `net/http` ignores a second status line; the model counts the calls that send one.
- Probabilities of `router.Pick`: any available node may be picked.
- The Redis and RabbitMQ back ends and the in-memory task queue: other implementations of interfaces modelled here through the cache and the request queue.
- SQL text, statistics, pagination and export: queries without a bearing on the invariants.
- Floating-point rounding of the estimate and 64-bit overflow of counters: the estimate is exact, counters are unbounded integers.
- Data races inside the cache: each cache operation is atomic, as its lock makes it.
- A write on a remote cache that is applied although its reply is lost: a failed write is taken to change nothing.
- Changes of the configured limits while calls are in progress: a run has one configuration.
- A body that is not tree-shaped, shares maps with the override, or is JSON null: decoding never gives the first two; assigning to the nil map of the third is a crash outside this model.
- The detail tier of the asynchronous logger: same shape as the request tier, with batch limit 64; the batch limit is a parameter.
- The partial output of a write to the client that fails: what such a write got across is not known.
- The stored timestamp text against real time: rows are ordered as SQLite orders the text.
- LimiterProtocol.AdmissionsWithinLimit: holds for timely runs; LimiterTheorems.SixtyOneSecondsExactly says why no later step can be allowed.
- PriorityHeap.Push: the slice, which grows and shrinks, is a sequence that the methods hand back, so aliasing of the underlying array is not modelled.
