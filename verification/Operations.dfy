/**
 * The storage transactions as functions and relations on database values.
 * `None` stands for a transaction that ends in an error and is rolled back.
 */
module Operations {
  import opened Graph
  import opened Strings
  import opened Tables
  import opened Cascade

  const DAY := 86400

  /** A committed transaction; `fired` says whether it enqueued the callback of a batch. */
  datatype Effect = Effect(db: Database, fired: bool)

  /** The database after a transaction: its result, or the old tables when it is rolled back. */
  function Commit(db: Database, result: Option<Database>): Database {
    if result.None? then db else result.value
  }

  function CommitEffect(db: Database, result: Option<Effect>): Database {
    if result.None? then db else result.value.db
  }

  /** When a lock taken now runs out. */
  function LockExpires(env: Envelope, now: int): int {
    now + if env.uniqueTTL <= 0 then DAY else env.uniqueTTL
  }

  /** The insertion of a lock row that does nothing when the key is taken. */
  function TryInsertLock(locks: map<string, Lock>, key: string, lock: Lock): map<string, Lock> {
    if key in locks then locks else locks[key := lock]
  }

  function AcquireLock(locks: map<string, Lock>, jobs: map<JobId, Job>, env: Envelope, now: int): Option<map<string,
                       Lock>>
  {
    if env.uniqueKey == "" then Some(locks)
    else
      var key := LockKey(env.queue, env.uniqueKey);
      var lock := Lock(env.jobId, LockExpires(env, now));
      if key !in locks then Some(locks[key := lock])
      else if locks[key].holder == env.jobId then Some(locks)
      else if now < locks[key].expiresAt && locks[key].holder in jobs then None
      else Some(locks[key := lock])
  }

  function RunAtOr(env: Envelope, now: int): int {
    if env.runAt.Some? then env.runAt.value else now
  }

  function Enqueue(db: Database, env: Envelope, now: int): Option<Database>
  {
    var locks := AcquireLock(db.locks, db.jobs, env, now);
    if locks.None? then None
    else Some(db.(locks := locks.value, jobs := db.jobs[env.jobId := EnqueuedRow(db.jobs, env, now)]))
  }

  function EnqueuedRow(jobs: map<JobId, Job>, env: Envelope, now: int): Job
  {
    var max, runAt, tags := GetMaxAttempts(env.maxAttempts), RunAtOr(env, now), Join(env.tags, ',');
    if env.jobId in jobs then
      jobs[env.jobId].(status := Pending, attempts := 0, maxAttempts := max, runAt := runAt,
                       uniqueKey := env.uniqueKey, priority := env.priority, tags := tags)
    else
      Job(env.queue, env.name, Pending, 0, max, runAt, now, env.uniqueKey, "", env.priority, tags)
  }

  function WorkflowRow(jobs: map<JobId, Job>, env: Envelope, now: int): Job
  {
    var status := if |env.dependencies| > 0 then Blocked else Pending;
    var max, runAt := GetMaxAttempts(env.maxAttempts), RunAtOr(env, now);
    if env.jobId in jobs then
      jobs[env.jobId].(status := status, attempts := 0, maxAttempts := max, runAt := runAt, uniqueKey := env.uniqueKey)
    else
      Job(env.queue, env.name, status, 0, max, runAt, now, env.uniqueKey, "", 0, "")
  }

  function DependencyRows(env: Envelope): set<Edge>
  {
    set p | p in env.dependencies :: Edge(env.jobId, p)
  }

  function InsertWorkflowJob(db: Database, env: Envelope, now: int): Option<Database>
  {
    var locks := AcquireLock(db.locks, db.jobs, env, now);
    if locks.None? then None
    else Some(db.(locks := locks.value,
                  jobs := db.jobs[env.jobId := WorkflowRow(db.jobs, env, now)],
                  deps := db.deps + DependencyRows(env)))
  }

  function EnqueueWorkflow(db: Database, envs: seq<Envelope>, now: int): Option<Database>
    decreases |envs|
  {
    if envs == [] then Some(db)
    else
      var first := InsertWorkflowJob(db, envs[0], now);
      if first.None? then None else EnqueueWorkflow(first.value, envs[1..], now)
  }

  function CreateBatch(db: Database, batchId: string, queue: string, name: string,
                       expiresAt: Option<int>): Option<Database>
  {
    if batchId in db.batches then None
    else Some(db.(batches := db.batches[batchId := Batch(queue, name, 0, 0, Open, expiresAt)]))
  }

  function CountMember(batches: map<string, Batch>, batchId: string): map<string, Batch>
  {
    if batchId !in batches then batches
    else
      var b := batches[batchId];
      batches[batchId := b.(total := b.total + 1, pending := b.pending + 1)]
  }

  function EnqueueInBatch(db: Database, batchId: string, env: Envelope, now: int): Option<Database>
  {
    var locks := AcquireLock(db.locks, db.jobs, env, now);
    if locks.None? || env.jobId in db.jobs then None
    else
      var row := Job(env.queue, env.name, Pending, 0, GetMaxAttempts(env.maxAttempts), RunAtOr(env, now), now,
                     env.uniqueKey, batchId, 0, "");
      Some(db.(batches := CountMember(db.batches, batchId), locks := locks.value, jobs := db.jobs[env.jobId := row]))
  }

  /** Apart from batches, the effect is at most the callback's row. */
  ghost predicate AddsCallbackOnly(s: Database, e: Effect, callbackId: JobId)
  {
    && e.db.deps == s.deps && e.db.locks == s.locks && e.db.batches.Keys == s.batches.Keys
    && if !e.fired then e.db.jobs == s.jobs
       else
         && callbackId !in s.jobs && e.db.jobs.Keys == s.jobs.Keys + {callbackId}
         && (forall id :: id in s.jobs ==> e.db.jobs[id] == s.jobs[id])
         && var row := e.db.jobs[callbackId];
            row.status.Pending? && row.attempts == 0 && row.maxAttempts == 3 && row.uniqueKey == "" && row.batchId == ""
  }

  /** Only the row of `b` changed among the batches, and of that row only the counter and the status. */
  ghost predicate TouchesBatch(s: Database, t: Database, b: string, pending: int)
    requires b in s.batches
  {
    && t.batches.Keys == s.batches.Keys
    && (forall c :: c in s.batches && c != b ==> t.batches[c] == s.batches[c])
    && t.batches[b] == s.batches[b].(pending := pending, status := t.batches[b].status)
  }

  /** Marks the batch completed and enqueues its callback under a generated id. */
  function Complete(db: Database, batchId: string, now: int, callbackId: JobId): (r: Option<Effect>)
    requires batchId in db.batches
    ensures r.Some? ==> AddsCallbackOnly(db, r.value, callbackId)
    ensures r.Some? ==> r.value.fired && r.value.db.batches[batchId].status.Completed?
    ensures r.Some? ==> TouchesBatch(db, r.value.db, batchId, db.batches[batchId].pending)
  {
    if callbackId in db.jobs then None
    else
      var b := db.batches[batchId];
      var row := Job(b.callbackQueue, b.callbackName, Pending, 0, 3, now, now, "", "", 0, "");
      var t := db.(batches := db.batches[batchId := b.(status := Completed)], jobs := db.jobs[callbackId := row]);
      Some(Effect(t, true))
  }

  function SubmitBatch(db: Database, batchId: string, now: int, callbackId: JobId): (r: Option<Effect>)
    ensures r.Some? ==> AddsCallbackOnly(db, r.value, callbackId)
    ensures r.Some? ==> batchId in db.batches && TouchesBatch(db, r.value.db, batchId, db.batches[batchId].pending)
    ensures r.Some? ==>
      var b := db.batches[batchId];
      && (r.value.fired <==> b.pending == 0 && !b.Expired(now))
      && r.value.db.batches[batchId].status ==
         if r.value.fired then Completed else if b.Expired(now) then Failed else Sealed
  {
    if batchId !in db.batches then None
    else
      var b := db.batches[batchId];
      if b.Expired(now) then Some(Effect(db.(batches := db.batches[batchId := b.(status := Failed)]), false))
      else
        var sealed := db.(batches := db.batches[batchId := b.(status := Sealed)]);
        if b.pending == 0 then Complete(sealed, batchId, now, callbackId) else Some(Effect(sealed, false))
  }

  /** The decrement that an acknowledged member causes, and the completion it may trigger. */
  function HandleBatchAck(db: Database, batchId: string, now: int, callbackId: JobId): (r: Option<Effect>)
    ensures r.Some? ==> AddsCallbackOnly(db, r.value, callbackId)
    ensures r.Some? ==> batchId in db.batches && TouchesBatch(db, r.value.db, batchId, db.batches[batchId].pending - 1)
    ensures r.Some? ==>
      var b := db.batches[batchId];
      && (r.value.fired <==> b.status.Sealed? && b.pending == 1 && !b.Expired(now))
      && r.value.db.batches[batchId].status ==
         if r.value.fired then Completed else if b.Expired(now) then Failed else b.status
  {
    if batchId !in db.batches then None
    else
      var b := db.batches[batchId];
      var b' := b.(pending := b.pending - 1, status := if b.Expired(now) then Failed else b.status);
      var counted := db.(batches := db.batches[batchId := b']);
      if b'.status.Sealed? && b'.pending == 0 then Complete(counted, batchId, now, callbackId)
      else Some(Effect(counted, false))
  }

  /** The children of `parent` that no dependency row holds back any more become pending. */
  function ResolveDependencies(db: Database, parent: JobId): Database
  {
    var deps := set e | e in db.deps && e.parent != parent;
    var waiting := set e | e in deps :: e.child;
    var free := Children(db.deps, parent) - waiting;
    db.(deps := deps,
        jobs := map id | id in db.jobs :: if id in free then db.jobs[id].(status := Pending) else db.jobs[id])
  }

  function MarkProcessed(db: Database, id: JobId): Database
  {
    if id !in db.jobs then db
    else
      var job := db.jobs[id];
      db.(jobs := db.jobs[id := job.(status := Processed)], locks := ReleaseLock(db.locks, job.queue, job.uniqueKey))
  }

  function Ack(db: Database, id: JobId, now: int, callbackId: JobId): Option<Effect>
  {
    var resolved := ResolveDependencies(MarkProcessed(db, id), id);
    var batchId := BatchIdOf(db.jobs, id);
    if batchId == "" then Some(Effect(resolved, false)) else HandleBatchAck(resolved, batchId, now, callbackId)
  }

  /** The row marked processed, and the lock of the columns read earlier released. */
  function MarkProcessedWith(db: Database, id: JobId, c: Columns): Database {
    db.(jobs := if id in db.jobs then db.jobs[id := db.jobs[id].(status := Processed)] else db.jobs,
        locks := ReleaseLock(db.locks, c.queue, c.uniqueKey))
  }

  /** The transaction of an acknowledgement, which goes by columns read before it began. */
  function AckWith(db: Database, id: JobId, c: Columns, now: int, callbackId: JobId): Option<Effect> {
    var resolved := ResolveDependencies(MarkProcessedWith(db, id, c), id);
    if c.batchId == "" then Some(Effect(resolved, false)) else HandleBatchAck(resolved, c.batchId, now, callbackId)
  }

  /** Acknowledging a job that has no row, and for which nobody waits, changes nothing. */
  lemma AckWithoutRow(db: Database, id: JobId, now: int, callbackId: JobId)
    requires id !in db.jobs && forall e :: e in db.deps ==> e.parent != id
    ensures Ack(db, id, now, callbackId) == Some(Effect(db, false))
  {
    var t := ResolveDependencies(db, id);
    assert t.deps == db.deps && Children(db.deps, id) == {};
    assert t.jobs == db.jobs;
  }

  /**
   * What an acknowledgement does to the rows: the job is processed, some of its children become pending, and a
   * callback may be added; nothing but the status of a row ever changes.
   */
  lemma AckRows(db: Database, id: JobId, now: int, callbackId: JobId)
    requires id in db.jobs && Ack(db, id, now, callbackId).Some?
    ensures AckedRows(db, id, callbackId, Ack(db, id, now, callbackId).value.db)
  {
    var resolved := ResolveDependencies(MarkProcessed(db, id), id);
    assert resolved.jobs.Keys == db.jobs.Keys;
    assert forall j :: j in db.jobs ==> resolved.jobs[j] == db.jobs[j].(status := resolved.jobs[j].status);
  }

  /** A callback row appears only when the acknowledgement completed the batch. */
  lemma AckAddsCallback(db: Database, id: JobId, now: int, callbackId: JobId)
    requires callbackId !in db.jobs && Ack(db, id, now, callbackId).Some?
    ensures var e := Ack(db, id, now, callbackId).value;
            e.db.jobs.Keys == db.jobs.Keys + if e.fired then {callbackId} else {}
  {
    var resolved := ResolveDependencies(MarkProcessed(db, id), id);
    assert resolved.jobs.Keys == db.jobs.Keys;
  }

  ghost predicate AckedRows(db: Database, id: JobId, callbackId: JobId, t: Database)
  {
    && (forall e :: e in t.deps <==> e in db.deps && e.parent != id)
    && (forall j :: j in db.jobs ==> j in t.jobs && t.jobs[j] == db.jobs[j].(status := t.jobs[j].status))
    && (forall j :: j in db.jobs && j !in Children(db.deps, id) ==>
          t.jobs[j].status == if j == id then Processed else db.jobs[j].status)
    && (forall e :: e in t.deps && e.child in db.jobs && e.child != id ==>
          t.jobs[e.child].status == db.jobs[e.child].status)
    && forall j :: j in t.jobs && j !in db.jobs ==>
         j == callbackId && t.jobs[j].batchId == "" && t.jobs[j].attempts == 0 && t.jobs[j].maxAttempts == 3
  }

  /** The failure uses up the last attempt of the row. */
  predicate LastAttempt(job: Job) {
    job.attempts + 1 >= GetMaxAttempts(job.maxAttempts)
  }

  function RetryLater(db: Database, id: JobId, nextRun: int): Database
    requires id in db.jobs
  {
    var job := db.jobs[id];
    db.(jobs := db.jobs[id := job.(status := Pending, attempts := job.attempts + 1, runAt := nextRun)])
  }

  ghost predicate Fail(s: Database, id: JobId, nextRun: int, t: Database)
  {
    if id !in s.jobs then t == s
    else if !LastAttempt(s.jobs[id]) then t == RetryLater(s, id, nextRun)
    else Killed(s, {id} + Descendants(s.deps, id), Descendants(s.deps, id), t)
  }

  /** The transaction of a failure, which goes by columns read before it began. */
  ghost predicate FailWith(s: Database, id: JobId, c: Columns, nextRun: int, t: Database)
  {
    if c.attempts + 1 < GetMaxAttempts(c.maxAttempts) then t == if id in s.jobs then RetryLater(s, id, nextRun) else s
    else KilledWith(s, id, c, t)
  }

  function DeleteJob(db: Database, id: JobId): Database
  {
    if id !in db.jobs then db
    else db.(jobs := db.jobs - {id}, locks := ReleaseLock(db.locks, db.jobs[id].queue, db.jobs[id].uniqueKey))
  }

  ghost predicate Cancel(s: Database, id: JobId, t: Database)
  {
    Killed(DeleteJob(s, id), Descendants(s.deps, id), Descendants(s.deps, id), t)
  }

  /** A job that the cancellation of `root` kills, which is not that job itself. */
  ghost predicate KillsOtherMember(s: Database, root: JobId, b: string) {
    b != "" && exists id :: id != root && Killable(s, root, id) && s.jobs[id].batchId == b
  }

  /**
   * What a cancellation leaves: the job's row is gone, exactly what was reachable from it is dead, exactly the keys of
   * all these jobs are released. Its own batch does not fail, the batches of the others do.
   */
  lemma CancelledExactly(s: Database, id: JobId, t: Database)
    requires Cancel(s, id, t)
    ensures t.jobs.Keys == s.jobs.Keys - {id}
    ensures forall j :: j in t.jobs ==>
      (t.jobs[j].status.Dead? <==> s.jobs[j].status.Dead? || Reach(s.deps, id, j))
    ensures forall j :: j in t.jobs && !Reach(s.deps, id, j) ==> t.jobs[j] == s.jobs[j]
    ensures forall k :: k in t.locks <==> (k in s.locks && !KillsKey(s, id, k))
    ensures forall b :: b in s.batches ==>
      b in t.batches
      && t.batches[b] == if KillsOtherMember(s, id, b) then s.batches[b].(status := Failed) else s.batches[b]
    ensures forall e :: e in t.deps <==> (e in s.deps && !Reach(s.deps, id, e.child))
  {
    var below, u := Descendants(s.deps, id), DeleteJob(s, id);
    forall j ensures j in below <==> Reach(s.deps, id, j) {
      DescendantsAre(s.deps, id, j);
    }
    assert u.deps == s.deps && u.batches == s.batches;
    CancelledKeys(s, id);
    forall b ensures b in BatchesOf(u.jobs, below) <==> KillsOtherMember(s, id, b) {
      if b in BatchesOf(u.jobs, below) {
        var j :| j in below && j in u.jobs && u.jobs[j].batchId == b;
        assert Killable(s, id, j);
      }
    }
  }

  lemma CancelledKeys(s: Database, id: JobId)
    ensures var u := DeleteJob(s, id);
            forall k :: k in u.locks - LockKeysOf(u.jobs, Descendants(s.deps, id)) <==>
                        (k in s.locks && !KillsKey(s, id, k))
  {
    var below, u := Descendants(s.deps, id), DeleteJob(s, id);
    forall k | k in s.locks ensures KillsKey(s, id, k) <==> k !in u.locks || k in LockKeysOf(u.jobs, below) {
      if k in LockKeysOf(u.jobs, below) {
        var j :| j in below && j in u.jobs && u.jobs[j].uniqueKey != ""
                 && LockKey(u.jobs[j].queue, u.jobs[j].uniqueKey) == k;
        DescendantsAre(s.deps, id, j);
        assert Killable(s, id, j);
      }
      if k !in u.locks {
        assert Killable(s, id, id);
      }
      if KillsKey(s, id, k) {
        var j :| Killable(s, id, j) && s.jobs[j].uniqueKey != "" && LockKey(s.jobs[j].queue, s.jobs[j].uniqueKey) == k;
        DescendantsAre(s.deps, id, j);
      }
    }
  }

  function DeleteWith(db: Database, id: JobId, c: Columns): Database {
    db.(jobs := db.jobs - {id}, locks := ReleaseLock(db.locks, c.queue, c.uniqueKey))
  }

  /** The transaction of a cancellation, which goes by columns read before it began. */
  ghost predicate CancelWith(s: Database, id: JobId, c: Columns, t: Database)
  {
    Killed(DeleteWith(s, id, c), Descendants(s.deps, id), Descendants(s.deps, id), t)
  }

  function ReadColumns(jobs: map<JobId, Job>, id: JobId): Option<Columns> {
    if id in jobs then Some(ColumnsOf(jobs[id])) else None
  }

  /** A missing row leaves the variables that Ack and Cancel read into empty. */
  function OrEmpty(read: Option<Columns>): Columns {
    if read.Some? then read.value else NO_COLUMNS
  }

  lemma AckByRow(db: Database, id: JobId, c: Columns, now: int, callbackId: JobId)
    requires ReadsRow(db.jobs, id, c)
    ensures AckWith(db, id, c, now, callbackId) == Ack(db, id, now, callbackId)
  {
    assert MarkProcessedWith(db, id, c) == MarkProcessed(db, id);
  }

  lemma FailByRow(s: Database, id: JobId, c: Columns, nextRun: int, t: Database)
    requires id in s.jobs && c == ColumnsOf(s.jobs[id]) && FailWith(s, id, c, nextRun, t)
    ensures Fail(s, id, nextRun, t)
  {
    if LastAttempt(s.jobs[id]) {
      KilledAround(s, id, c, t);
    }
  }

  lemma CancelByRow(s: Database, id: JobId, c: Columns, t: Database)
    requires ReadsRow(s.jobs, id, c)
    ensures CancelWith(s, id, c, t) <==> Cancel(s, id, t)
  {
    assert id !in s.jobs ==> s.jobs - {id} == s.jobs;
    assert DeleteWith(s, id, c) == DeleteJob(s, id);
  }

  function Postpone(db: Database, id: JobId, runAt: int): Database
  {
    if id !in db.jobs then db
    else db.(jobs := db.jobs[id := db.jobs[id].(status := Pending, runAt := runAt)])
  }

  function FailExpiredBatches(db: Database, now: int): Database
  {
    db.(batches := map b | b in db.batches ::
      if (db.batches[b].status.Open? || db.batches[b].status.Sealed?) && db.batches[b].Expired(now)
      then db.batches[b].(status := Failed) else db.batches[b])
  }

  // Dequeue

  const LIMIT := 100

  predicate Due(job: Job, queue: string, now: int) {
    job.queue == queue && job.status.Pending? && job.runAt <= now
  }

  /** Strictly earlier in the order (priority descending, creation time ascending). */
  predicate Before(a: Job, b: Job) {
    a.priority > b.priority || (a.priority == b.priority && a.createdAt < b.createdAt)
  }

  /** What the candidate query may return: the first rows in order, ties in any order, at most `LIMIT`. */
  ghost predicate IsQueryResult(db: Database, queue: string, now: int, rows: seq<JobId>)
  {
    && |rows| <= LIMIT
    && (forall i :: 0 <= i < |rows| ==> rows[i] in db.jobs && Due(db.jobs[rows[i]], queue, now))
    && (forall i, j :: 0 <= i < j < |rows| ==> rows[i] != rows[j] && !Before(db.jobs[rows[j]], db.jobs[rows[i]]))
    && forall id :: id in db.jobs && Due(db.jobs[id], queue, now) && id !in rows ==>
         |rows| == LIMIT && forall i :: 0 <= i < |rows| ==> !Before(db.jobs[id], db.jobs[rows[i]])
  }

  predicate Eligible(job: Job, workerTags: seq<string>) {
    forall t :: t in job.Tags() ==> t in workerTags
  }

  function FirstEligible(jobs: map<JobId, Job>, rows: seq<JobId>, workerTags: seq<string>): (r: Option<JobId>)
    requires forall id :: id in rows ==> id in jobs
    ensures r.Some? ==> r.value in rows
  {
    if rows == [] then None
    else if Eligible(jobs[rows[0]], workerTags) then Some(rows[0])
    else FirstEligible(jobs, rows[1..], workerTags)
  }

  function Claim(db: Database, id: Option<JobId>): Database
    requires id.Some? ==> id.value in db.jobs
  {
    if id.None? then db else db.(jobs := db.jobs[id.value := db.jobs[id.value].(status := Running)])
  }
}
