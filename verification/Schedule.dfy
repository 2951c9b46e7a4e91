/**
 * When, where and in which order a job is handed out, by what the calls of a run have asked for it. Nothing here
 * looks at how the storage computes its rows: a job is known by the call that enqueued it, and by what Dequeue does.
 */
module Schedule {
  import opened Graph
  import opened Tables
  import Ops = Operations
  import opened Runs
  import Workflow = WorkflowSafety
  import Batch = SqlBatch
  import opened Dequeuing
  import Lifecycle
  import opened Requests

  /** Call `k` says that the job may be handed out from `t` on: it enqueues it, postpones it or fails it for now. */
  ghost predicate SetsTime(ws: seq<World>, ops: seq<Op>, k: nat, id: JobId, t: int)
    requires |ws| == |ops| + 1
  {
    && k < |ops| && id in ws[k + 1].db.jobs
    && (|| (exists a :: Asks(ws, ops, k, id, a) && a.at == t)
        || (id in ws[k].db.jobs && ops[k] == Postpone(id, t))
        || (id in ws[k].db.jobs && ops[k] == Fail(id, t) && !ws[k + 1].db.jobs[id].status.Dead?))
  }

  /** Between call `k` and the state before call `m` nobody gives the job another time. */
  ghost predicate Unmoved(ops: seq<Op>, k: nat, m: nat, id: JobId)
    requires m <= |ops|
  {
    forall j {:trigger ops[j]} :: k < j < m ==> !Moves(ops[j], id)
  }

  lemma TimeSet(ws: seq<World>, ops: seq<Op>, k: nat, id: JobId, t: int)
    requires IsRun(ws, ops) && SetsTime(ws, ops, k, id, t)
    ensures ws[k + 1].db.jobs[id].runAt == t
  {
    if a :| Asks(ws, ops, k, id, a) && a.at == t {
      AskedRow(ws, ops, k, id, a);
    } else {
      assert Next(ws[k], ops[k], ws[k + 1]);
    }
  }

  lemma {:induction false} TimeSince(ws: seq<World>, ops: seq<Op>, k: nat, m: nat, id: JobId, t: int)
    requires IsRun(ws, ops) && SetsTime(ws, ops, k, id, t) && k < m < |ws| && Unmoved(ops, k, m, id)
    requires id in ws[m].db.jobs
    ensures ws[m].db.jobs[id].runAt == t
    decreases m
  {
    if m == k + 1 {
      TimeSet(ws, ops, k, id, t);
    } else {
      KnownSince(ws, ops, k + 1, m - 1, id);
      StepKeeps(ws[m - 1], ops[m - 1], ws[m], id);
      TimeSince(ws, ops, k, m - 1, id, t);
    }
  }

  // What Dequeue does

  /** Call `m` is a Dequeue that hands the job out. */
  ghost predicate HandsOut(ws: seq<World>, ops: seq<Op>, m: nat, id: JobId)
    requires |ws| == |ops| + 1
  {
    m < |ops| && ops[m].Dequeue? && id in ws[m].db.jobs && id in ws[m + 1].db.jobs
    && !ws[m].db.jobs[id].status.Running? && ws[m + 1].db.jobs[id].status.Running?
  }

  lemma HandedOut(ws: seq<World>, ops: seq<Op>, m: nat, id: JobId)
    requires IsRun(ws, ops) && HandsOut(ws, ops, m, id)
    ensures Ops.IsQueryResult(ws[m].db, ops[m].queue, ops[m].now, ops[m].rows)
    ensures forall j :: j in ops[m].rows ==> j in ws[m].db.jobs
    ensures Ops.FirstEligible(ws[m].db.jobs, ops[m].rows, ops[m].workerTags) == Some(id)
    ensures Candidate(ws[m].db, ops[m].queue, ops[m].now, ops[m].workerTags, id)
    ensures ws[m + 1].db.jobs[id] == ws[m].db.jobs[id].(status := Running)
  {
    assert Allowed(ws[m], ops[m]) && Next(ws[m], ops[m], ws[m + 1]);
    var k := FirstEligibleIs(ws[m].db.jobs, ops[m].rows, ops[m].workerTags);
  }

  /**
   * The job can be handed out in exactly that queue, from exactly that time on, and to exactly the workers that have
   * those tags.
   */
  ghost predicate Waits(db: Database, id: JobId, queue: string, at: int, tags: seq<string>) {
    forall q, clock, workerTags ::
      Candidate(db, q, clock, workerTags, id) <==> q == queue && at <= clock && Covers(tags, workerTags)
  }

  /** Tags that can be read back. */
  predicate Readable(tags: seq<string>) {
    tags != [""] && forall t :: t in tags ==> ',' !in t
  }

  /**
   * A job is not handed out early: as long as nobody moves it, no Dequeue hands it out whose clock is below the time
   * that was asked for when it was enqueued, or that its last failure or postponement set.
   */
  lemma NotEarly(ws: seq<World>, ops: seq<Op>, k: nat, m: nat, id: JobId, t: int)
    requires IsRun(ws, ops) && SetsTime(ws, ops, k, id, t)
    requires k < m && HandsOut(ws, ops, m, id) && Unmoved(ops, k, m, id)
    ensures ops[m].now >= t
  {
    HandedOut(ws, ops, m, id);
    TimeSince(ws, ops, k, m, id, t);
  }

  /**
   * Nor is it forgotten: while it is pending, it waits from exactly that time on, in the queue and for the workers that
   * were asked for.
   */
  lemma DueFrom(ws: seq<World>, ops: seq<Op>, i: nat, k: nat, m: nat, id: JobId, a: Ask, t: int)
    requires IsRun(ws, ops) && Asks(ws, ops, i, id, a) && SetsTime(ws, ops, k, id, t)
    requires i < m < |ws| && k < m && Unmoved(ops, k, m, id) && Readable(a.tags)
    requires id in ws[m].db.jobs && ws[m].db.jobs[id].status.Pending?
    ensures Waits(ws[m].db, id, a.queue, t, a.tags)
  {
    StandsSince(ws, ops, i, m, id, a);
    TimeSince(ws, ops, k, m, id, t);
    TagsReadBack(a.tags, ws[m].db.jobs[id]);
  }

  /** A job that is handed out goes to a worker that may have it, under the name asked for. */
  lemma HandedOutAsAsked(ws: seq<World>, ops: seq<Op>, i: nat, m: nat, id: JobId, a: Ask)
    requires IsRun(ws, ops) && Asks(ws, ops, i, id, a) && i < m && HandsOut(ws, ops, m, id)
    ensures ops[m].queue == a.queue && ws[m + 1].db.jobs[id].name == a.name
    ensures Readable(a.tags) ==> Covers(a.tags, ops[m].workerTags)
  {
    HandedOut(ws, ops, m, id);
    StandsSince(ws, ops, i, m, id, a);
    CandidateOf(ws[m].db, ops[m].queue, ops[m].now, ops[m].workerTags, id, a);
  }

  lemma CandidateOf(db: Database, queue: string, now: int, workerTags: seq<string>, id: JobId, a: Ask)
    requires Candidate(db, queue, now, workerTags, id) && StandsFor(db.jobs[id], a)
    ensures queue == a.queue && (Readable(a.tags) ==> Covers(a.tags, workerTags))
  {
    if Readable(a.tags) {
      TagsReadBack(a.tags, db.jobs[id]);
    }
  }

  /**
   * And before all others: a job is handed out only when no other job that could be handed out instead was asked for
   * with a higher priority, or with the same priority earlier.
   */
  lemma MostUrgentFirst(ws: seq<World>, ops: seq<Op>, m: nat, i: nat, id: JobId, a: Ask, j: nat, other: JobId, b: Ask)
    requires IsRun(ws, ops) && HandsOut(ws, ops, m, id) && i < m && j < m
    requires Asks(ws, ops, i, id, a) && Asks(ws, ops, j, other, b)
    requires Candidate(ws[m].db, ops[m].queue, ops[m].now, ops[m].workerTags, other)
    ensures a.priority > b.priority || (a.priority == b.priority && a.since <= b.since)
  {
    HandedOut(ws, ops, m, id);
    StandsSince(ws, ops, i, m, id, a);
    StandsSince(ws, ops, j, m, other, b);
    ClaimsTheBest(ws[m].db, ops[m].queue, ops[m].now, ops[m].workerTags, ops[m].rows, other);
  }

  /**
   * And somebody is served: when there is a job that the worker may have, and at most a hundred are due in the queue,
   * Dequeue hands out exactly one.
   */
  lemma ServesSomeone(ws: seq<World>, ops: seq<Op>, m: nat, other: JobId) returns (id: JobId)
    requires IsRun(ws, ops) && m < |ops| && ops[m].Dequeue?
    requires Candidate(ws[m].db, ops[m].queue, ops[m].now, ops[m].workerTags, other)
    requires |DueJobs(ws[m].db, ops[m].queue, ops[m].now)| <= 100
    ensures HandsOut(ws, ops, m, id)
    ensures ws[m + 1].db == ws[m].db.(jobs := ws[m].db.jobs[id := ws[m].db.jobs[id].(status := Running)])
  {
    assert Allowed(ws[m], ops[m]) && Next(ws[m], ops[m], ws[m + 1]);
    NothingMeansNone(ws[m].db, ops[m].queue, ops[m].now, ops[m].workerTags, ops[m].rows);
    id := Ops.FirstEligible(ws[m].db.jobs, ops[m].rows, ops[m].workerTags).value;
    ClaimsTheBest(ws[m].db, ops[m].queue, ops[m].now, ops[m].workerTags, ops[m].rows, other);
  }

  // Callbacks

  lemma SubmitFires(w: World, op: Op, w': World, b: string)
    requires op.SubmitBatch? && Fresh(w, op.callbackId) && w' == AfterSubmit(w, op.batchId, op.now, op.callbackId)
    requires Count(w'.fired, b) > Count(w.fired, b)
    ensures op.batchId == b && b in w.db.batches && op.callbackId in w'.db.jobs
    ensures IsCallback(w'.db.jobs[op.callbackId], w.db.batches[b], op.now)
  {
    var r := Ops.SubmitBatch(w.db, op.batchId, op.now, op.callbackId);
    assert r.Some? && r.value.fired && w'.db == r.value.db;
    SubmitCallback(w.db, op.batchId, op.now, op.callbackId, r.value);
  }

  lemma AckFires(w: World, op: Op, w': World, b: string)
    requires Workflow.EdgesOk(w.db, w.declared) && op.Ack? && Fresh(w, op.callbackId)
    requires w' == AfterAck(w, op.id, op.now, op.callbackId) && Count(w'.fired, b) > Count(w.fired, b)
    ensures op.id in w.db.jobs && w.db.jobs[op.id].batchId == b && b != "" && b in w.db.batches
    ensures op.callbackId in w'.db.jobs && IsCallback(w'.db.jobs[op.callbackId], w.db.batches[b], op.now)
  {
    if op.id !in w.db.jobs {
      Workflow.LateReport(w, op, w');
    } else {
      Batch.AckShape(w, op.id, op.now, op.callbackId, w');
      Ops.AckAddsCallback(w.db, op.id, op.now, op.callbackId);
      AckedCallback(w, op.id, op.now, op.callbackId, w');
    }
  }

  /** The batch that call `k` calls back for. */
  ghost predicate CallsBackFor(ws: seq<World>, ops: seq<Op>, k: nat, b: string)
    requires |ws| == |ops| + 1
  {
    k < |ops| && Count(ws[k + 1].fired, b) > Count(ws[k].fired, b)
  }

  lemma CallbackRow(ws: seq<World>, ops: seq<Op>, k: nat, b: string)
    requires IsRun(ws, ops) && CallsBackFor(ws, ops, k, b)
    ensures (ops[k].SubmitBatch? && ops[k].batchId == b) || (ops[k].Ack? && ops[k].id in MembersOf(ws[k], b))
    ensures ops[k].callbackId !in ws[k].db.jobs && ops[k].callbackId in ws[k + 1].db.jobs
    ensures b in ws[k].db.batches && !ws[k].db.batches[b].Expired(ops[k].now)
    ensures IsCallback(ws[k + 1].db.jobs[ops[k].callbackId], ws[k].db.batches[b], ops[k].now)
  {
    Batch.EveryRun(ws, ops, k);
    Batch.FiresIff(ws, ops, k, b);
    assert Allowed(ws[k], ops[k]) && Next(ws[k], ops[k], ws[k + 1]);
    if ops[k].SubmitBatch? {
      SubmitFires(ws[k], ops[k], ws[k + 1], b);
    } else {
      AckFires(ws[k], ops[k], ws[k + 1], b);
      OnlyMember(ws[k], ops[k].id);
    }
  }

  /**
   * The callback of a batch is enqueued before the deadline given to CreateBatch, is due at once, and waits in exactly
   * the queue given there, under the name given there, for any worker.
   */
  lemma CallsBackAsAsked(ws: seq<World>, ops: seq<Op>, k: nat, b: string) returns (i: nat)
    requires IsRun(ws, ops) && CallsBackFor(ws, ops, k, b)
    ensures (ops[k].SubmitBatch? || ops[k].Ack?) && i < k && Creates(ws, ops, i, b)
    ensures ops[i].expiresAt.Some? ==> ops[k].now <= ops[i].expiresAt.value
    ensures Asks(ws, ops, k, ops[k].callbackId,
                 Ask(ops[i].callbackQueue, ops[i].callbackName, ops[k].now, ops[k].now, 0, [], 3))
    ensures ws[k + 1].db.jobs[ops[k].callbackId].name == ops[i].callbackName
    ensures Waits(ws[k + 1].db, ops[k].callbackId, ops[i].callbackQueue, ops[k].now, [])
  {
    CallbackRow(ws, ops, k, b);
    i := Creator(ws, ops, k, b);
    BatchAsCreated(ws, ops, i, k, b);
  }

  // Failures and sweeps

  /** A job dies exactly on the failure whose number is the one asked for, three when none was asked for. */
  lemma DiesAsAsked(ws: seq<World>, ops: seq<Op>, k: nat, n: nat, id: JobId, a: Ask)
    requires IsRun(ws, ops) && Asks(ws, ops, k, id, a) && k < n < |ops| && ops[n].Fail? && ops[n].id == id
    requires id in ws[n].db.jobs
    ensures id in ws[n + 1].db.jobs
    ensures ws[n + 1].db.jobs[id].status.Dead? <==> Count(ws[n + 1].failures, id) == a.attempts
  {
    StandsSince(ws, ops, k, n, id, a);
    Lifecycle.DiesOnLastFailure(ws, ops, n);
  }

  /**
   * A sweep fails exactly the open and sealed batches whose deadline, as given to CreateBatch, lies before its clock,
   * and changes nothing else.
   */
  lemma SweepsExpired(ws: seq<World>, ops: seq<Op>, k: nat, i: nat, b: string)
    requires IsRun(ws, ops) && k < |ops| && ops[k].FailExpiredBatches? && i < k && Creates(ws, ops, i, b)
    ensures b in ws[k].db.batches && b in ws[k + 1].db.batches
    ensures var before, after := ws[k].db.batches[b], ws[k + 1].db.batches[b];
            var swept := (before.status.Open? || before.status.Sealed?)
                         && ops[i].expiresAt.Some? && ops[i].expiresAt.value < ops[k].now;
            after == if swept then before.(status := Failed) else before
    ensures ws[k + 1].db.jobs == ws[k].db.jobs && ws[k + 1].db.locks == ws[k].db.locks
    ensures ws[k + 1].db.deps == ws[k].db.deps
  {
    BatchAsCreated(ws, ops, i, k, b);
    assert Next(ws[k], ops[k], ws[k + 1]);
  }

  // Ids that are used again

  /** No attempt is used, and limit and key are as asked; a row that was there keeps its name, queue, age and batch. */
  ghost predicate StartsOver(jobs: map<JobId, Job>, env: Envelope, row: Job) {
    && row.attempts == 0 && row.uniqueKey == env.uniqueKey
    && row.maxAttempts == (if env.maxAttempts > 0 then env.maxAttempts else 3)
    && (env.jobId in jobs ==>
          var was := jobs[env.jobId];
          && row.name == was.name && row.queue == was.queue
          && row.createdAt == was.createdAt && row.batchId == was.batchId)
  }

  /** Where a job waits after an Enqueue of its id, which need not be fresh: a row that is there keeps its queue. */
  lemma WaitsAfterEnqueue(db: Database, env: Envelope, now: int)
    requires Ops.Enqueue(db, env, now).Some? && Readable(env.tags)
    ensures Waits(Ops.Enqueue(db, env, now).value, env.jobId,
                  if env.jobId in db.jobs then db.jobs[env.jobId].queue else env.queue,
                  if env.runAt.Some? then env.runAt.value else now, env.tags)
    ensures var row := Ops.Enqueue(db, env, now).value.jobs[env.jobId];
            StartsOver(db.jobs, env, row) && row.priority == env.priority
  {
    TagsReadBack(env.tags, Ops.Enqueue(db, env, now).value.jobs[env.jobId]);
  }

  /** And after its insertion as a workflow job without parents: such a row keeps its tags and its priority as well. */
  lemma WaitsAfterWorkflow(db: Database, env: Envelope, now: int)
    requires Ops.InsertWorkflowJob(db, env, now).Some? && env.dependencies == []
    ensures Waits(Ops.InsertWorkflowJob(db, env, now).value, env.jobId,
                  if env.jobId in db.jobs then db.jobs[env.jobId].queue else env.queue,
                  if env.runAt.Some? then env.runAt.value else now,
                  if env.jobId in db.jobs then db.jobs[env.jobId].Tags() else [])
    ensures var row := Ops.InsertWorkflowJob(db, env, now).value.jobs[env.jobId];
            StartsOver(db.jobs, env, row) &&
            row.priority == if env.jobId in db.jobs then db.jobs[env.jobId].priority else 0
  {
  }
}
