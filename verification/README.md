# Runiq's job engine, verified

Runiq stores jobs in SQL tables or Redis keys, hands them to worker pools and keeps workflows, batches, unique keys,
limits and schedules consistent while many processes act at once. This project models that engine and proves what its
users rely on. `dafny verify dfyconfig.toml` checks everything.

**The SQL engine.** `Tables` holds the rows. `Storage` is the SQLite storage as a class whose fields are the tables and
whose methods are the transactions, loops and recursion included. Each method is proved equal to a function or relation
in `Operations` (or, for the failure cascade, to `Cascade.Killed`, which says what becomes of every row without saying
in which order). `Runs` turns these calls into runs: any sequence of calls by clients, workers and administrators, one
after another, that keeps to `Runs.Allowed`. All claims about workflows (`WorkflowSafety`, `Stranded`), unique keys
(`UniqueLocks`), batches (`SqlBatch`) and the life of jobs (`Lifecycle`) hold in every state of every run. `Graph` is
the reachability theory beneath, `Termination` the exact condition under which the cascade ends.

**What was asked for.** A third group of claims ties what happens in a run to the calls in its history, whatever the
rows in between look like. `Requests` says what a call asks for a job or a batch, and that its row keeps to it.
`Schedule` says when, where, in which order and to whom jobs and callbacks are then handed out, `Progress` which calls
move a job from status to status, `KeyHolders` and `KeyTerms` when a unique key is taken and for how long.

**Interrupted calls.** Four calls are no single transaction. Enqueue commits its statements one by one, and Ack, Fail
and Cancel read columns of the row before their transaction begins. `Interleaving` takes these calls apart and lets the
statements and transactions of all clients come in between; `Reports` says what a report or cancellation does whose row
is as it was read, or has gone since. Workflows stay healthy all the same. `BatchRace` and `BatchOutcome` say exactly
what becomes of a batch, `KeyRace`, `KeySafety` and `KeyRelease` exactly when a unique key gets two live jobs
(`KeyTouches` says what whole transactions do to keys). Where nobody cancels or purges a job between the read of a call
about it and that call's transaction, the claims for calls that run one after another carry over.

**Protocols of single steps.** `RedisBatch` interleaves the Redis commands of the clients that fill and submit a batch
with those of the workers that finish its jobs; `RedisOrder` says which order of commands makes the callback run twice,
`RedisOverlap` what can happen when jobs finish while others are still being enqueued, and `RedisHash` what the
operations do when nothing comes in between. `Autoscaler` interleaves the processing loop, jobs, autoscaler and
deposit goroutines around one bounded channel. `Throttle` interleaves claims, counts and postponements of all pools.
`Lease` separates the lease transaction from the storing of its answer. `Intervals` interleaves the clean-ups and
inserts of all replicas, `RedisIntervals` their requests to Redis. The classes in these files are the code's own
objects; the machines beside them say which of their steps may come in between.

**Values and loops.** `RateLimit`, `Dequeuing`, `Rotation`, `Cron` and `RedisFail` compare what a piece of code
computes with an independent account of what it is for.

Where code and documentation differ, the model follows the code:

- The repository's README (lines 373-374) rests batch safety on the status: a failed batch is said never to run its
  callback. In the code a later submission overwrites `failed` with `sealed`. While calls run
  one after another the claim holds all the same, because the counter can no longer reach zero
  (`SqlBatch.SuppressedForever`). An acknowledgement that has read the row of a member before the member is cancelled
  can still enqueue the callback (`BatchOutcome.LateAckFires`); `BatchOutcome.CountableIff` says exactly when.
- The same lines call batches immune to races. On Redis they are not. When all jobs are enqueued before the first one
  finishes, the callback is enqueued once or twice (`RedisOrder.TwiceIffInOrder`). When enqueueing and working overlap,
  it can be enqueued by every worker and the submitter, and before the last job ran (`RedisOverlap.MostCallbacks`,
  `RedisOverlap.EarlyIffHeld`).
- Unique keys are said to prevent a second job while one is pending or processing (line 198). Two clients that enqueue
  with the same key at the same time can both succeed (`KeySafety.TwoCallsRace`); `KeySafety.ContestedIff` and
  `KeySafety.TransactionIff` say exactly when. So can two that enqueue one after the other when the report of an
  earlier, cancelled job comes late (`KeyRelease.LateAckFreesKey`); `KeyRelease.ReleaseIff` says exactly when.
- Intervals are said to be served once per block (line 245). `Intervals.OncePerBlockIff` gives the exact intervals on
  SQL storage, `RedisIntervals.OncePerBlockIff` on Redis.
- Cron fields are the usual five (line 219), but day of month and day of week must both match.
- Queues are said to share fetches by weight (line 293). Across the wrap of the fetch counter several queues do so
  exactly when the total weight divides 2^64 (`Rotation.FairAcrossWrapIff`).

## Model

| member | source | states |
|---|---|---|
| Graph.DescendantsByChildren | queue/sqlite_workflow.go:92-98 | the jobs below a job are its children and everything below those, which is what one level of the cascade relies on |
| Graph.FewerDescendants | queue/sqlite_workflow.go:100-116 | on an acyclic graph a child has strictly fewer descendants than its parent, also in a table from which rows were deleted: the measure of the recursion |
| Cascade.KilledAround | queue/sqlite_admin.go:133-149 | burying a row, releasing the key and failing the batch it was read with, and killing everything below it amounts to killing it together with all below it, when the columns read are those of the row |
| Cascade.ClosureAdd | queue/sqlite_workflow.go:100-116 | after the closure of earlier children is gone from the table, what is left below the next child completes the closure of both, so a stale child list does no harm |
| Cascade.KilledTurn | queue/sqlite_workflow.go:100-116 | one turn of the loop over children extends the set of killed jobs by exactly the child's closure in the original table |
| Cascade.KilledExactly | queue/sqlite_workflow.go:92-116 | a row ends dead exactly when it was dead, is the failed job or is reachable from it; a dependency row survives exactly when its child is not reachable |
| Cascade.KilledReleases | queue/sqlite_admin.go:133-149 | exactly the keys that killed rows have are released and exactly the batches with a killed row fail; of no other row any column changes |
| Cascade.VisitsCounted | queue/sqlite_workflow.go:100-116 | the failed job counts exactly one more attempt, and so does every killed job with a single killed parent; any killed job counts at most one for each killed parent |
| Cascade.OrderIrrelevant | queue/sqlite_workflow.go:75-116 | in whatever order children are listed, the outcome differs at most in the attempts counted on dead rows |
| Termination.WalkSound | queue/sqlite_workflow.go:92-116 | a walk that ends has met no cycle and has deleted exactly the dependency rows of the descendants |
| Termination.WalkComplete | queue/sqlite_workflow.go:92-116 | without a reachable cycle a call depth of one more than the number of descendants suffices |
| Termination.CascadeTerminatesIff | queue/sqlite_workflow.go:92-116 | the cascade terminates exactly when no cycle is reachable from the failed job; enqueueing a workflow does not check this |
| Termination.SelfParentNeverEnds | queue/sqlite_workflow.go:9-31 | a workflow job that names itself as a parent is accepted, and the cascade from it does not end at any depth |
| Storage.SqliteStorage.QueryChildJobIDs | queue/sqlite_workflow.go:75-90 | each child of the job once, in any order |
| Storage.SqliteStorage.DeleteUniqueLock | queue/sqlite_admin.go:9-16 | releases the lock row of the key, whoever holds it; no key, no change |
| Storage.SqliteStorage.TransitionToDead | queue/sqlite_admin.go:133-149 | exactly the job and its descendants are buried, their locks released, their batches failed, and exactly the descendants' dependency rows deleted, with one more attempt for the job and at most one for each killed parent of a descendant; for columns that are not those of the row, the lock and the batch that they name |
| Storage.SqliteStorage.CascadeDependencyFailure | queue/sqlite_workflow.go:92-98 | the same for the descendants alone |
| Storage.SqliteStorage.FailChildren | queue/sqlite_workflow.go:100-116 | kills the closure that the listed children had before the loop began |
| Storage.SqliteStorage.AcquireUniqueLock | queue/sqlite.go:79-132 | refuses exactly when another, existing job holds an unexpired lock for the key; otherwise the row names the new job |
| Storage.SqliteStorage.TryInsertLock | queue/sqlite.go:99-105 | a lock row, unless the key has one |
| Storage.SqliteStorage.HandleLockCollision | queue/sqlite.go:120-132 | refuses exactly while the holder has a row and its lock has not run out, else the lock changes hands |
| Storage.SqliteStorage.InsertJob | queue/sqlite.go:149-161 | the new row with run time, priority and tags of the envelope, or the old one revived |
| Storage.SqliteStorage.Enqueue | queue/sqlite.go:134-147 | all statements of the call in a row: the job inserted, or nothing changed when the lock is refused |
| Storage.SqliteStorage.InsertJobDependencies | queue/sqlite_workflow.go:63-73 | one dependency row for each parent named |
| Storage.SqliteStorage.InsertWorkflowJob | queue/sqlite_workflow.go:33-61 | lock, row (blocked when it has parents) and dependency rows of one workflow job |
| Storage.SqliteStorage.EnqueueWorkflow | queue/sqlite_workflow.go:9-31 | all jobs of the workflow or, on a refused lock, none |
| Storage.SqliteStorage.CreateBatch | queue/sqlite_batch.go:9-15 | an open, empty batch; a known id is an error |
| Storage.SqliteStorage.EnqueueInBatch | queue/sqlite_batch.go:17-59 | counter, lock and row, with the run time of the envelope, together or not at all |
| Storage.SqliteStorage.EnqueueCallback | queue/sqlite_admin.go:51-58 | a pending row of three attempts under the generated id, or an error on a clash |
| Storage.SqliteStorage.CompleteBatchAndEnqueue | queue/sqlite_batch.go:119-130 | the batch completed and its callback inserted, in the queue and under the name that the batch row has |
| Storage.SqliteStorage.SubmitBatch | queue/sqlite_batch.go:68-117 | an expired batch fails; otherwise it is sealed whatever its status was, and completed when its counter is zero |
| Storage.SqliteStorage.HandleBatchAck | queue/sqlite_admin.go:18-49 | counts down, fails a batch past its deadline, and completes a sealed one that reaches zero; a missing batch is an error |
| Storage.SqliteStorage.CheckBlockedChildren | queue/sqlite_workflow.go:129-144 | exactly the listed children without a dependency row become pending |
| Storage.SqliteStorage.ResolveDependencies | queue/sqlite_workflow.go:118-127 | the parent's dependency rows go, and exactly the children left without any become pending |
| Storage.SqliteStorage.ReadColumns | queue/sqlite_admin.go:60-65 | the columns of the row, or that there is none |
| Storage.SqliteStorage.PerformAck | queue/sqlite_admin.go:66-92 | processed row, released lock, resolved children and batch countdown in one transaction that rolls back as a whole, for whatever columns were read |
| Storage.SqliteStorage.PerformFail | queue/sqlite_admin.go:105-131 | another attempt at the new time while the attempts read leave one, else the cascade; the job counts exactly one more attempt |
| Storage.SqliteStorage.PerformCancel | queue/sqlite_admin.go:163-178 | the row and the lock of the columns read go, and the descendants are killed |
| Storage.SqliteStorage.Ack | queue/sqlite_admin.go:60-92 | the read and the transaction in a row |
| Storage.SqliteStorage.Fail | queue/sqlite_admin.go:94-131 | the read and the transaction in a row, counting exactly one attempt; without a row an error |
| Storage.SqliteStorage.Cancel | queue/sqlite_admin.go:160-178 | the read and the transaction in a row |
| Storage.SqliteStorage.PostponeJob | queue/sqlite_process.go:133-137 | the row is pending again from the new time on, attempts untouched |
| Storage.SqliteStorage.FailExpiredBatches | queue/sqlite_admin.go:377-386 | exactly the open and sealed batches past their deadline fail |
| Storage.SqliteStorage.MatchTags | queue/helpers.go:63-80 | true exactly when the job's tags are among the worker's |
| Storage.SqliteStorage.FindMatchingJob | queue/sqlite.go:200-211 | the first row of the cursor that the worker may take |
| Storage.SqliteStorage.Dequeue | queue/sqlite.go:163-231 | claims that row and no other |
| Operations.AckRows | queue/sqlite_admin.go:77-92 | an acknowledgement changes nothing of other rows but the status of freed children, and adds at most a callback |
| Operations.AckAddsCallback | queue/sqlite_admin.go:18-58 | a row is added exactly when the batch was completed |
| Operations.CancelledExactly | queue/sqlite_admin.go:160-178 | the row is gone, exactly what is reachable from it is dead, exactly the keys of all these are released, and the batches of the others fail but not that of the cancelled job |
| WorkflowSafety.AcyclicUnion | queue/sqlite_workflow.go:9-31 | edges of fresh jobs added to an acyclic table leave it acyclic exactly when they are acyclic themselves |
| WorkflowSafety.WorkflowKeepsHealthIff | queue/sqlite_workflow.go:9-45 | inserting a workflow of fresh ids keeps the workflow invariant exactly when its graph has no cycle and each parent is in the call or not yet finished |
| WorkflowSafety.Resolve | queue/sqlite_workflow.go:118-144 | acknowledging a running job and resolving its children keeps the workflow invariant |
| WorkflowSafety.Kill | queue/sqlite_admin.go:133-149 | killing a job and all below it keeps the invariant: no survivor waits for a dead job |
| WorkflowSafety.LateReport | queue/sqlite_admin.go:60-103 | the report of a worker whose job was cancelled before the report read the row changes nothing |
| WorkflowSafety.EveryRun | queue/sqlite_workflow.go:33-144 | the workflow invariant holds in every state of every run |
| Reports.UpToDateIsStep | queue/sqlite_admin.go:60-131 | while the row is as the call read it, the transaction of Ack, Fail or Cancel does what reading and writing at once would do |
| Reports.StaleDoes | queue/sqlite_admin.go:77-149 | when the row has gone since, it releases the key it has read and counts down or fails the batch it has read, and nothing else |
| Interleaving.Undisturbed | queue/sqlite.go:134-147 | the single statements of Enqueue, in a row, are the atomic step |
| Interleaving.WorkflowsStayHealthy | queue/sqlite_admin.go:60-178 | the workflow invariant holds however calls interrupt each other, late reports and cancellations included |
| Interleaving.NeverStale | queue/sqlite_admin.go:160-178 | if nobody cancels or purges a job between the read of a call about it and that call's transaction, every transaction finds the row that was read |
| WorkflowSafety.NoEarlyStart | queue/sqlite_workflow.go:33-45 | a job is pending, running or processed only when every parent it was declared with has been acknowledged |
| WorkflowSafety.BlockedIffHeldBack | queue/sqlite_workflow.go:118-144 | a row is blocked exactly while it has a dependency row, and each such row names a live parent |
| WorkflowSafety.FreesOnlyBlocked | queue/sqlite_workflow.go:129-144 | the update of freed children to pending, which does not look at their status, meets blocked rows only |
| WorkflowSafety.NotStuck | queue/sqlite_workflow.go:100-144 | above every blocked job there is a pending or running one from which it is reachable |
| Stranded.LateChildNeverRuns | queue/sqlite_workflow.go:33-45 | a workflow job that names an already finished parent is committed and then never becomes pending or running in any continuation in which that parent is not acknowledged again |
| Stranded.LateAckFreesIff | queue/sqlite_workflow.go:118-144 | a worker that still acknowledges such a parent after its row has gone frees the job exactly when nothing else holds it back |
| Requests.StandsSince | queue/sqlite.go:149-161 | at every later moment the row of a job, callbacks included, has the queue, name, priority, tags and maximum that the call which inserted it asked for, as far as that call takes them |
| Requests.Asker | queue/sqlite_workflow.go:47-61 | every row of a run was asked for by some call: an enqueue of its id, or the completion of a batch |
| Requests.BatchAsCreated | queue/sqlite_batch.go:9-15 | every batch keeps the callback queue, callback name and deadline given to the CreateBatch call that made it |
| Schedule.NotEarly | queue/sqlite.go:213-219 | no Dequeue hands a job out whose clock is below the time that its enqueue, its last failure or its last postponement set |
| Schedule.DueFrom | queue/sqlite.go:149-161 | while pending, a job is a candidate exactly in the queue asked for, from exactly that time on, and for exactly the workers with the tags asked for |
| Schedule.HandedOutAsAsked | queue/sqlite.go:163-231 | a job that is handed out goes to a worker of its queue that has its tags, under the name asked for |
| Schedule.MostUrgentFirst | queue/sqlite.go:213-231 | a job is handed out only if no other that could be was asked for with a higher priority, or with the same priority earlier |
| Schedule.ServesSomeone | queue/sqlite.go:200-231 | with a candidate, and at most a hundred due rows, Dequeue hands out exactly one job and changes nothing else |
| Schedule.CallsBackAsAsked | queue/sqlite_admin.go:18-58 | a callback is enqueued before the deadline given to CreateBatch, and waits at once in exactly the queue given there, under the name given there, for any worker |
| Schedule.DiesAsAsked | queue/sqlite_admin.go:105-131 | a job dies exactly on the failure whose number its enqueue asked for, the third when it asked for none |
| Schedule.SweepsExpired | queue/sqlite_admin.go:377-386 | a sweep fails exactly the open and sealed batches whose deadline, as given to CreateBatch, is past, and changes nothing else |
| Schedule.WaitsAfterEnqueue | queue/sqlite.go:149-161 | an Enqueue of any id, known or not, leaves the job waiting from the time on that it asks for, afresh, in the queue of the row if there was one |
| Schedule.WaitsAfterWorkflow | queue/sqlite_workflow.go:47-61 | the same for a workflow job without parents, whose row also keeps tags and priority |
| Progress.MovesOnlyAsMay | queue/sqlite_admin.go:60-149 | in every run a job goes from pending to running by Dequeue only, from there on by a report on it, from blocked to pending by the acknowledgement of a declared parent, and dies of a failure of its own or a failure or cancellation above it; a finished job never moves |
| Progress.RowsGo | queue/sqlite_admin.go:160-178 | a row disappears only when its job is cancelled or, finished, archived |
| Progress.BlockedIffUnacknowledged | queue/sqlite_workflow.go:118-144 | in every run a job that has not died is blocked exactly while a parent it was declared with is unacknowledged |
| Progress.AckFinishes | queue/sqlite_admin.go:77-92 | in a run no acknowledgement of a job with a row is refused: the row ends processed |
| Progress.StartsWaiting | queue/sqlite_admin.go:120-129 | after an enqueue, a failure that does not kill it and a postponement a job is pending, unless it is a workflow job with parents |
| Progress.WaitsUntilTaken | queue/sqlite.go:213-219 | from then on, until somebody is handed it or it is cancelled, it waits in its queue, for its workers, from exactly the time set on |
| UniqueLocks.OneLiveJobPerKey | queue/sqlite.go:79-132 | when every call runs undisturbed, read and transaction included, locks outlive their jobs and only unfinished jobs are cancelled, no two unfinished jobs share a lock key, and the lock row names the unfinished job of its key |
| UniqueLocks.CancelKeepsLocksIff | queue/sqlite_admin.go:160-178 | releasing by key is safe exactly when no other unfinished job has the key, as is so for a cancelled job that is itself unfinished |
| KeyHolders.ShareLockIff | queue/sqlite.go:79-89 | two jobs of one queue share a lock exactly when their keys are equal, two of different queues exactly when one queue continues the other across the colon into its key |
| KeyHolders.HeldAsAsked | queue/sqlite.go:91-132 | in every run a lock whose holder has a row was taken by that job, which is unfinished, and runs out exactly when its envelope asked, after 24 hours if it asked nothing |
| KeyHolders.RunOutIsFree | queue/sqlite.go:120-132 | in every run a call that enqueues under different keys succeeds once the times that the unfinished jobs of these keys asked for are over |
| KeyTerms.EnqueuedIff | queue/sqlite.go:79-132 | while no job outlives the time it asked for, a call that enqueues is refused, and changes nothing, exactly when an unfinished job has one of its keys or two of its jobs share one |
| KeyTerms.KeptAsAsked | queue/sqlite.go:91-105 | and while a job is unfinished the lock of its key is its own, for exactly the time it asked for |
| KeyTerms.InTermRun | queue/sqlite.go:79-132 | runs in which nobody enqueues after the time an unfinished job asked for, and only unfinished jobs are cancelled, are runs of which the claims about keys speak |
| KeySafety.OneLivePerKey | queue/sqlite.go:79-147 | while no acquisition of a key is contested and no release hits a key in use, the key never has two live jobs, however the statements of all clients interleave |
| KeySafety.ContestedIff | queue/sqlite.go:99-132 | the statement that acquires a key can lead to two live jobs exactly when the key has a live job, or another Enqueue has acquired it and not inserted its job yet |
| KeySafety.TransactionIff | queue/sqlite_workflow.go:33-45 | a committed workflow or batch enqueue can lead to two live jobs exactly when one of its keys belongs to an Enqueue that has decided to insert its job |
| KeySafety.OneAtATime | queue/sqlite.go:134-147 | if nobody enqueues with a key while an Enqueue of that key is under way, locks outlive their jobs and no report or cancellation releases a key in use, the key never has two live jobs |
| KeySafety.TwoCallsRace | queue/sqlite.go:107-132 | any two Enqueue calls of one key can end with two live jobs |
| KeyRelease.ReleaseIff | queue/sqlite_admin.go:9-16 | while callers keep out of each other's way, the transaction of a report or cancellation can lead to two live jobs exactly when the key it has read and releases belongs to another live job or to an Enqueue that is about to insert one |
| KeyRelease.OrderlyCallersAreSafe | queue/sqlite_admin.go:60-178 | that never happens, and no key has two live jobs, if moreover only unfinished jobs are cancelled, and no job is cancelled or purged between the read of a call about it and that call's transaction |
| KeyRelease.LateAckFreesKey | queue/sqlite_admin.go:60-84 | for any two envelopes of one key a run without overlapping Enqueues: the first job is taken, its row read by Ack, the job cancelled, the second one enqueued; now Ack deletes the second one's lock and two live jobs can follow |
| SqlBatch.Conserved | queue/sqlite_batch.go:17-39 | when every call runs undisturbed, the counter is the number of members not yet acknowledged, the total the number of members, and callbacks never outnumber submissions |
| SqlBatch.FiresIff | queue/sqlite_admin.go:18-44 | and a step enqueues a callback exactly when it is a submission with nothing open, or the last open acknowledgement of a sealed batch, before the deadline; and then once |
| SqlBatch.ExactlyOnce | queue/sqlite_batch.go:68-88 | and one submission, all members acknowledged, none dead, deadline kept until then: exactly one callback, in whatever order these happened |
| SqlBatch.SuppressedForever | queue/sqlite_batch.go:106-117 | and a member that died or was cancelled suppresses the callback in every continuation, resealing included |
| BatchRace.Conserved | queue/sqlite_admin.go:29-44 | however calls interrupt each other, the counter is the number of members that no acknowledgement has counted down, late ones of cancelled members included, and callbacks never outnumber submissions |
| BatchOutcome.FiresIff | queue/sqlite_admin.go:18-44 | and a step enqueues the callback exactly when it is a submission with nothing open, or counts down the last open member of a sealed batch, before the deadline; and then once |
| BatchOutcome.SuppressedForever | queue/sqlite_batch.go:106-117 | and a member that died, was cancelled or purged suppresses the callback in every continuation, unless an acknowledgement that has read its row is under way |
| BatchOutcome.CountableIff | queue/sqlite_admin.go:60-92 | such a member can still be counted down exactly while an acknowledgement that has read its row is under way |
| BatchOutcome.CancelledAlone | queue/sqlite_admin.go:160-178 | none is, where every row that a call has read is still there |
| BatchOutcome.ExactlyOnce | queue/sqlite_batch.go:68-88 | one submission, all members counted down, none dead or failed for good after its row had gone, deadline kept until then: exactly one callback |
| BatchOutcome.LateAckFires | queue/sqlite_admin.go:60-92 | for any batch with one job a run in which Ack reads the row, the job is cancelled, and Ack enqueues the callback |
| BatchOutcome.HarmlessIff | queue/sqlite_admin.go:60-178 | a report or cancellation whose row has gone leaves counters and locks right exactly when it counts no batch down and frees no key of a live job |
| Lifecycle.DiesOnLastFailure | queue/sqlite_admin.go:105-131 | a failure kills its job exactly when it is failure number `max_attempts` of that job |
| Lifecycle.WorkIsBounded | queue/sqlite_admin.go:60-149 | without insertions, submissions and postponements, the tables bound how many jobs can still be taken, acknowledged and failed, retries and callbacks included |
| RedisFail.RedisStorage.RescheduleJob | queue/redis_admin.go:129-136 | the counted envelope is stored and scheduled |
| RedisFail.RedisStorage.ListDead | queue/redis_admin.go:141-148 | the newest fifty dead jobs of the queue are listed, all are counted |
| RedisFail.RedisStorage.SettleDead | queue/redis_admin.go:149-155 | the lock is released, the batch fails and is no longer watched |
| RedisFail.RedisStorage.HandleDeadJob | queue/redis_admin.go:138-156 | the whole new state of the keys when a job dies |
| RedisFail.RedisStorage.PrepareFailStep | queue/redis_admin.go:114-127 | dead exactly when no attempt is left, a missing maximum counting as three |
| RedisFail.RedisStorage.Fail | queue/redis_admin.go:84-112 | the whole new state of the keys after a failure; an unknown job changes nothing |
| RedisFail.DiesLikeSql | queue/redis_admin.go:84-156 | when the calls of any run reach both storages, a failure puts the job on the dead list of Redis exactly when it turns its SQL row dead, and then releases the key and fails the batch of that row; otherwise the job is due again in the queue of the row at the time given; the attempts agree |
| RedisFail.ShowsNewest | queue/redis_admin.go:138-156 | over any calls the dead list of a queue is its newest fifty deaths, newest first, and the counter is their number |
| RedisBatch.TotalCounts | queue/redis_batch.go:50-57 | in every interleaving the total counts the members whose enqueue has begun, refused ones included |
| RedisBatch.AtLeastOnce | queue/redis_batch.go:85-128 | filled before submitted, no enqueue refused: once every client is done, the callback has been enqueued |
| RedisBatch.CalledIffNoneRefused | queue/redis_batch.go:36-57 | once every client is done, and if no member was counted in while a worker sat on a 0, the callback has been enqueued exactly when no enqueue was refused by its unique lock |
| RedisBatch.AtMostTwice | queue/redis_admin.go:11-44 | if no member is counted in while a worker sits on a 0, at most two callbacks, none before every member has been counted down |
| RedisBatch.FillThenWorkIsCareful | queue/redis_batch.go:36-57 | that is so in particular when all members are enqueued before the first acknowledgement |
| RedisOrder.TwiceIffInOrder | queue/redis_admin.go:11-31 | two callbacks exactly when no enqueue was refused, the last decrement precedes the submitter's read of the counter, and its worker reads the status after the sealing and before the submitter's completion; none exactly when an enqueue was refused; otherwise one |
| RedisOrder.OnceWhenSubmittedEarly | queue/redis_batch.go:85-102 | a submission that returns while a member is open gives exactly one callback |
| RedisOrder.OnceWhenSubmittedLate | queue/redis_batch.go:85-102 | a submission that starts after the last acknowledgement returned gives exactly one callback |
| RedisOrder.FiresTwice | queue/redis_batch.go:85-128 | a run with two callbacks |
| RedisOverlap.AtMostOncePerClient | queue/redis_batch.go:85-128 | filled before submitted, whatever overlaps: at most one callback per member and one more |
| RedisOverlap.MostCallbacks | queue/redis_admin.go:11-31 | from a batch about to be submitted, the largest number of callbacks that can follow is the number of workers that sit on a 0 and, unless an enqueue was refused, one more if the batch is not empty and one more |
| RedisOverlap.EarlyIffHeld | queue/redis_admin.go:11-31 | from a batch about to be submitted, the callback can come while the counter is above 0 exactly when a worker sits on a 0 and the batch is not empty |
| RedisOverlap.CarelessFiresEarly | queue/redis_batch.go:50-57 | whenever a member is counted in while a worker sits on a 0, some continuation enqueues the callback too early |
| RedisOverlap.EveryClientCanFire | queue/redis_admin.go:24-44 | for any set of jobs there is a run in which each of their workers and the submitter enqueue the callback |
| RedisHash.BatchHash.CheckBatchExpired | queue/redis_batch.go:130-155 | a batch past its deadline fails when somebody looks, and its deadline is watched no longer |
| RedisHash.BatchHash.IncrementBatchCounts | queue/redis_batch.go:50-57 | what the two increments of the interleaved machine do to the hash |
| RedisHash.BatchHash.CompleteBatch | queue/redis_batch.go:114-128 | status completed, one callback more |
| RedisHash.BatchHash.SubmitBatch | queue/redis_batch.go:85-102 | past the deadline the batch fails, otherwise what the submitter's commands of the interleaved machine, in a row, do to the hash |
| RedisHash.BatchHash.HandleBatchAck | queue/redis_admin.go:11-22 | past the deadline the batch fails and nothing is counted down, otherwise what a worker's commands, in a row, do to the hash |
| RedisHash.BatchHash.CompleteBatchIfSealedAndDone | queue/redis_admin.go:24-31 | acts only on a sealed batch with count zero |
| RedisHash.SubmitAgreesWithSql | queue/sqlite_batch.go:68-88 | undisturbed and in time, Redis and SQL do the same to a batch on submission |
| RedisHash.AckAgreesWithSql | queue/sqlite_admin.go:18-44 | and on an acknowledgement |
| Autoscaler.ClampTarget | queue/autoscaler.go:39-47 | the point of the range nearest to the target |
| Autoscaler.AdjustMoves | queue/autoscaler.go:63-77 | an adjustment of the interleaved machine moves the level to the point of the range nearest to the target, leaves exactly the rise to be received or the fall to be deposited, and touches nothing else |
| Autoscaler.TokensConserved | queue/autoscaler.go:25-77 | under every interleaving tokens = slots held + (maximum - current) - undeposited + unreceived, and current stays in range |
| Autoscaler.SettledAdmitsIff | queue/worker.go:371-396 | with nothing outstanding, another job is admitted exactly when fewer than `current` slots are held |
| Autoscaler.BlockedReceiverIsServed | queue/autoscaler.go:49-61 | a release or scale-up that finds the channel empty always has a deposit ready to go |
| Autoscaler.BlockedDepositIsServed | queue/autoscaler.go:49-61 | a deposit that finds the channel full always has a release or scale-up ready to go |
| Autoscaler.WorkerPool.SetupSemaphore | queue/autoscaler.go:25-37 | a pool at its minimum, the channel filled with one phantom token for each slot above it; without autoscaling as many slots as configured and no token |
| Autoscaler.WorkerPool.AdjustConcurrency | queue/autoscaler.go:63-77 | the level moves to the point of the range nearest to the target; what it rose by is still to be received, what it fell by still to be deposited, and the tokens stay |
| Autoscaler.WorkerPool.ScaleUp | queue/autoscaler.go:49-53 | takes out as many tokens as the level rose, as far as it gets without waiting |
| Autoscaler.WorkerPool.ScaleDown | queue/autoscaler.go:55-61 | puts in as many tokens as the level fell, as far as it gets without waiting |
| Autoscaler.WorkerPool.RunAutoscaleIteration | queue/autoscaler.go:79-131 | a deep queue raises the level by a step up to the maximum, an empty one lowers it by a step down to the minimum, any other leaves it; a step that is not positive counts as one; the difference is left to be received or deposited and the conservation law kept |
| Autoscaler.ScaleUpRepeats | queue/autoscaler.go:49-53 | the loop is that many single receives of the interleaved machine |
| Autoscaler.ScaleDownRepeats | queue/autoscaler.go:55-61 | the loop is that many single deposits of the interleaved machine |
| Throttle.PostgresStorage.TryLockJob | queue/postgres.go:210-224 | claims the row exactly when it is still pending |
| Throttle.PostgresStorage.LockFirstMatch | queue/postgres.go:191-208 | claims the first candidate that fits and is still pending, or nothing when there is none |
| Throttle.NoDoubleClaim | queue/postgres.go:191-224 | however claims on stale candidate lists interleave, no two workers hold the same job |
| Throttle.LimitKept | queue/worker.go:467-492 | counting after claiming never admits more unfinished jobs of a name than its limit |
| Throttle.PassesIff | queue/worker.go:473-480 | in every run a count lets the claimed job pass exactly when its name has no positive limit or fewer other jobs of the name are running than the limit |
| Throttle.LimitReached | queue/worker.go:467-492 | as many waiting jobs as the limit, or any number without one, can be admitted at once |
| Throttle.RateDecides | queue/worker.go:482-491 | after the count the rate limit alone decides |
| Throttle.HandedBack | queue/sqlite_process.go:133-137 | a rejected job waits again from the time given on, attempts untouched, and no other job is changed |
| Throttle.EndsCounting | queue/sqlite_process.go:97-101 | a job that ends no longer counts against its limit, and nothing else changes that count |
| Throttle.WorkersCanMove | queue/worker.go:406-418 | whatever a worker is doing, its next step can be taken |
| RateLimit.SqliteStorage.DeleteBefore | queue/sqlite_process.go:117-123 | exactly the outdated rows of the name go |
| RateLimit.SqliteStorage.CountRows | queue/sqlite_process.go:124-128 | how many rows of the name there are |
| RateLimit.SqliteStorage.CheckRateLimit | queue/sqlite_process.go:103-131 | the decision and the table after it; a refusal rolls the pruning back |
| RateLimit.GrantedIff | queue/sqlite_process.go:117-131 | a call is granted exactly when the full history of grants holds fewer than the limit in the closed window before it |
| RateLimit.NeverExceeded | queue/sqlite_process.go:117-131 | no closed window of the period's length ever holds more grants than the limit |
| Lease.SqliteStorage.AcquireLeader | queue/sqlite.go:238-264 | granted exactly when there is no row, the row is the caller's or it has run out; the row is then the caller's |
| Lease.SqliteStorage.ReleaseLeader | queue/sqlite.go:266-269 | deletes the caller's own row only |
| Lease.WorkerPool.ElectLeader | queue/worker.go:731-747 | the flag is the answer, and an error clears it |
| Lease.WorkerPool.CheckLeader | queue/worker.go:710-715 | without a lease time everybody leads |
| Lease.GrantsDoNotOverlap | queue/sqlite.go:238-269 | of two grants to different clients, the earlier has ended or was given back when the later is made |
| Lease.OneLeader | queue/worker.go:717-747 | of the running workers whose last grant has not ended, at most one has its leader flag set |
| Lease.RenewalSucceeds | queue/worker.go:717-747 | until its grant ends, exactly the running holder can acquire the lease |
| Lease.AcquirableIff | queue/sqlite.go:251-264 | in every run a client can acquire the lease exactly when every grant to another client has ended or was given back by its holder |
| Lease.ReleasedAtOnce | queue/sqlite.go:266-269 | a lease that its holder gives back is free for everyone at once; another's release changes nothing |
| Lease.FlagIsAnswer | queue/worker.go:731-747 | in every run a flag is set exactly when the last lease call whose answer was stored was granted; an error clears it and nothing else changes it |
| Lease.SecondLeaderIff | queue/worker.go:731-747 | in any run with a leader, the next election of another worker makes a second one exactly when it can acquire the lease, for which the leader must be late; as long as the row is the leader's, being late suffices |
| Lease.LateWorkerLeadsToo | queue/worker.go:717-747 | a run with two leaders, one of which asked too late |
| Intervals.SqlStorage.LockCronExecution | queue/sqlite_process.go:79-95 | the clean-up and the insert in a row: granted exactly when no row of the name and minute survives the clean-up; the new rows |
| Intervals.WorkerPool.ProcessIntervalJobs | queue/worker.go:790-807 | the lock requests sent off and the blocks remembered |
| Intervals.ScanAsks | queue/worker.go:790-807 | with distinct names, a scan asks for the current block of exactly the jobs that are due |
| Intervals.ReplicaAsksOnce | queue/worker.go:797-805 | one replica asks for each block at most once, however its clock moves |
| Intervals.ReplicaAsksIff | queue/worker.go:790-807 | a scan asks for the block in which its clock stands exactly when the job has an interval and the block is later than the first one and than the blocks of all scans before |
| Intervals.OncePerBlockIff | queue/postgres_process.go:77-93 | for exactly the intervals of a minute or more whose blocks end within an hour of their first minute, in every interleaving of the clean-ups and inserts of any number of replicas an insert is granted exactly when it is the first for its block |
| Intervals.SafeIntervals | queue/worker.go:790-825 | all of 60 to 3541 seconds, and whole minutes up to an hour, are such intervals |
| RedisIntervals.RedisStorage.LockCronExecution | queue/redis_admin_helper.go:149-157 | granted exactly when the key is not there or has run out; then it lasts five minutes |
| RedisIntervals.OncePerBlockIff | queue/redis_admin_helper.go:149-157 | on Redis, for exactly the intervals from one to five minutes, in every interleaving of the requests of any number of replicas, a request is granted exactly when it is the first for its block |
| Rotation.WorkerPool.SetupWeightedQueues | queue/worker.go:249-264 | each queue as often as it weighs, a missing or non-positive weight counting as one; without weights nothing |
| Rotation.WorkerPool.BuildSearchOrder | queue/worker.go:439-454 | the primary of the old counter first, then the other queues as listed; the counter wraps at 64 bits |
| Rotation.WorkerPool.FetchFromOrder | queue/worker.go:428-437 | the first answer that is not empty, or none when all are, whatever each call yields |
| Rotation.SearchesEachQueueOnceIff | queue/worker.go:439-454 | a search order is a permutation of the queues exactly when the primary is listed once |
| Rotation.OthersAsListed | queue/worker.go:444-454 | after the primary the other queues are searched in the order in which they are listed |
| Rotation.ExpandsInOrder | queue/worker.go:249-264 | the expanded list goes through the queues as listed |
| Rotation.WeightedFairly | queue/worker.go:249-264 | in any W consecutive fetches, W being the total weight, each queue is primary exactly weight times, and each fetch searches each queue once |
| Rotation.FairAcrossWrapIff | queue/worker.go:439-441 | turns that cross the wrap of the counter are fair too exactly when the total weight divides 2^64 or there is only one queue |
| Cron.AtomMatches | queue/cron.go:45-99 | a printed `*`, step, range or number matches exactly the values it stands for |
| Cron.FieldMatches | queue/cron.go:45-69 | a printed comma list matches exactly the union of its parts |
| Cron.MatchesWhatItSays | queue/cron.go:10-43 | a printed schedule, however spaced, matches a time exactly when all five fields include it, Sunday being day 0 or 7 |
| Cron.AtoiIff | queue/cron.go:71-99 | a number is read exactly when the text is an optional sign and decimal digits, leading zeros included, that show it in 64 bits |
| Cron.PartMatchesIff | queue/cron.go:45-99 | a part of any text matches exactly the values of which it says so as a star, step, range or number; other parts match nothing |
| Cron.TextMatchesIff | queue/cron.go:9-43 | any text matches a time exactly when it is five words, however spaced, of each of which a comma-separated part says so of the time |
| Strings.SplitJoin | queue/cron.go:61-69 | splitting undoes joining when no part holds the separator |
| Dequeuing.ClaimsTheBest | queue/sqlite.go:200-231 | the claimed job is due and may be taken, and no other such job ranks strictly above it, also with more than 100 due rows |
| Dequeuing.NothingOnlyWhenCutOff | queue/sqlite.go:213-231 | none is claimed exactly when the candidate query returned none that may be taken, which for an existing candidate takes 100 rows in its way |
| Dequeuing.NothingMeansNone | queue/sqlite.go:213-231 | with at most 100 due rows, none is claimed exactly when there is no candidate |
| Dequeuing.TagsSurviveIff | queue/sqlite.go:149-198 | for every worker the tags matched are the tags enqueued, exactly when no tag holds a comma and the tags are not one empty tag |

## Left out

- The HTTP server, dashboard, CLI, telemetry, logging, encryption, statistics, pagination and circuit breaker.
- SQL text, migrations, namespaces and JSON; storage calls succeed except for the errors the tables themselves cause. Dequeue compares run times with the clock as texts of whole seconds; here that is a comparison of integers, which count whole seconds.
- Every transaction reads the clock once.
- Time zones: a cron text is matched against the fields of a time. Error messages, arguments, trace ids and time stamps other than creation and due time. The backoff delay is a parameter of Fail, generated ids are parameters assumed fresh.
- SQLite does not enforce foreign keys here, so Cancel leaves the cancelled job's own dependency rows behind, as the code does; Postgres would delete them.
- Retry, bulk operations and ClearQueue are not steps of a run: they bypass dependency, lock and batch bookkeeping. So are revivals of a known id, of which `Schedule.WaitsAfterEnqueue` and `Schedule.WaitsAfterWorkflow` speak alone; clients use fresh ids.
- The Postgres workflow, batch and administration code. The results for SQLite are not claimed there: at READ COMMITTED two acknowledgements of two parents of one child can each still count the other's dependency row, so that neither frees the child.
- The Redis workflow engine, unique locks, queues and rate limiter, and in the interleaved batch machine deadlines and deaths. A Redis callback counts as enqueued when its command ran.
- The Postgres rate limiter, whose check and insert are not serialized.
- RedisFail.DiesLikeSql: does not model the cascade that follows on Redis, which may list a job twice. Batch callbacks are not compared: on SQL they always get three attempts, on Redis what the client asked for.
- RedisFail.RedisStorage.Fail: reading the envelope and the pipeline that follows are one step, which only the worker holding the job takes.
- Storage.SqliteStorage.Enqueue: as a method it runs without interruption, and so it does in `Runs`; `Interleaving` lets others come in between.
- Storage.SqliteStorage.Ack: as a method the read and the transaction follow each other, and so they do in `Runs`; `Interleaving` lets others come in between.
- Storage.SqliteStorage.Fail: the same.
- Storage.SqliteStorage.Cancel: the same.
- WorkflowSafety.LateReport: speaks of a job that was cancelled before the report read its row; what a report does whose job is cancelled after that is `Reports.StaleDoes`.
- SqlBatch.Conserved: speaks of calls that run one after another, as do the other claims of `SqlBatch`; `BatchRace` and `BatchOutcome` speak of calls that interrupt each other.
- SqlBatch.SuppressedForever: false when an acknowledgement read the row before the member was cancelled (`BatchOutcome.LateAckFires`).
- Interleaving.WorkflowsStayHealthy: callers keep to `Runs.Allowed`, and a worker has one report on its job under way at a time.
- UniqueLocks.OneLiveJobPerKey: assumes that no other acquisition of the key falls between an Enqueue's acquisition and its insert; without that it is false (`KeySafety.TwoCallsRace`); and that no job is cancelled or purged between the read of a report or cancellation of it and that call's transaction, without which it is false too (`KeyRelease.LateAckFreesKey`). Postgres enqueues in the same way.
- KeySafety.TransactionIff: a workflow or batch enqueue, being a transaction, is one step.
- RedisOverlap.MostCallbacks: the client submits once, after its enqueues have returned; no member dies.
- Autoscaler.WorkerPool.ScaleUp: as a method it runs as far as it gets without interruption; the interleaved machine takes one token at a time, and `Autoscaler.ScaleUpRepeats` relates the two. The same holds for ScaleDown.
- Throttle.LimitKept: all pools use the same limit, and no administrator touches a running job.
- Lease.OneLeader: a worker starts once; a pool started again would keep its old flag until its first election.
- Intervals.OncePerBlockIff: a request reads the same clock as the block computation before it. The enqueueing that follows a granted request is not modelled, nor are times before 1970.
- Rotation.WeightedFairly: the turn does not cross the wrap of the 64-bit counter; `Rotation.FairAcrossWrapIff` says when crossing it is fair.
