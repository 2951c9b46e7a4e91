/** What the transactions of a run do to ids without rows and to the lock rows of unique keys. */
module KeyTouches {
  import opened Graph
  import opened Tables
  import opened Cascade
  import Ops = Operations
  import opened Runs
  import Workflow = WorkflowSafety
  import Unique = UniqueLocks

  ghost predicate LiveJobWith(db: Database, key: string) {
    exists j :: Unique.Keyed(db, j) && Unique.KeyOf(db.jobs[j]) == key
  }

  function EnvelopeKeys(envs: seq<Envelope>): set<string> {
    set env | env in envs && env.uniqueKey != "" :: LockKey(env.queue, env.uniqueKey)
  }

  /** The keys for which a transaction takes locks. */
  function KeysOf(op: Op): set<string> {
    match op
    case EnqueueWorkflow(envs, _) => EnvelopeKeys(envs)
    case EnqueueInBatch(_, env, _) => EnvelopeKeys([env])
    case _ => {}
  }

  /** A transaction leaves an id alone that is known but has no row. */
  ghost predicate Untouched(w: World, w': World, id: JobId)
    requires id in w.declared
  {
    && id !in w'.db.jobs && id in w'.declared && w'.declared[id] == w.declared[id]
    && (id in w'.acked <==> id in w.acked)
  }

  ghost predicate Idle(w: World, id: JobId) {
    id in w.declared && id !in w.db.jobs
  }

  lemma InsertLeaves(w: World, op: Op, w': World, id: JobId)
    requires Allowed(w, op) && Runs.Next(w, op, w') && Idle(w, id)
    requires op.EnqueueInBatch? || op.CreateBatch? || op.FailExpiredBatches?
    ensures Untouched(w, w', id)
  {
  }

  lemma WorkflowLeaves(w: World, envs: seq<Envelope>, now: int, w': World, id: JobId)
    requires DistinctIds(envs) && (forall env :: env in envs ==> Fresh(w, env.jobId)) && Idle(w, id)
    requires w' == AfterWorkflow(w, envs, now)
    ensures Untouched(w, w', id)
  {
    if Ops.EnqueueWorkflow(w.db, envs, now).Some? {
      Workflow.WorkflowInserted(w.db, envs, now);
      Workflow.WorkflowDeclared(w.declared, envs);
    }
  }

  lemma SubmitLeaves(w: World, b: string, now: int, callbackId: JobId, w': World, id: JobId)
    requires Fresh(w, callbackId) && w' == AfterSubmit(w, b, now, callbackId) && Idle(w, id)
    ensures Untouched(w, w', id)
  {
    var r := Ops.SubmitBatch(w.db, b, now, callbackId);
    assert r.Some? ==> Ops.AddsCallbackOnly(w.db, r.value, callbackId);
  }

  lemma EffectLeaves(w: World, j: JobId, e: Ops.Effect, callbackId: JobId, w': World, id: JobId)
    requires w' == WithEffect(w, e, BatchIdOf(w.db.jobs, j), callbackId).(acked := w.acked + {j})
    requires Idle(w, id) && id != callbackId && id != j && id !in e.db.jobs
    ensures Untouched(w, w', id)
  {
  }

  lemma AckLeaves(w: World, j: JobId, now: int, callbackId: JobId, w': World, id: JobId)
    requires IsRunning(w.db, j) && Fresh(w, callbackId) && w' == AfterAck(w, j, now, callbackId) && Idle(w, id)
    ensures Untouched(w, w', id)
  {
    var r := Ops.Ack(w.db, j, now, callbackId);
    if r.Some? {
      Ops.AckAddsCallback(w.db, j, now, callbackId);
      EffectLeaves(w, j, r.value, callbackId, w', id);
    }
  }

  lemma RowsLeave(w: World, op: Op, w': World, id: JobId)
    requires Runs.Next(w, op, w') && Idle(w, id)
    requires op.Dequeue? || op.Postpone? || op.Fail? || op.Cancel? || op.Forget?
    ensures Untouched(w, w', id)
  {
  }

  lemma TransactLeaves(w: World, op: Op, w': World, id: JobId)
    requires Workflow.EdgesOk(w.db, w.declared) && Allowed(w, op) && Runs.Next(w, op, w') && !op.Enqueue? && Idle(w, id)
    ensures Untouched(w, w', id)
  {
    if Workflow.IsLateReport(w, op) {
      Workflow.LateReport(w, op, w');
      return;
    }
    match op
    case EnqueueWorkflow(envs, now) => WorkflowLeaves(w, envs, now, w', id);
    case SubmitBatch(b, now, callbackId) => SubmitLeaves(w, b, now, callbackId, w', id);
    case Ack(j, now, callbackId) => AckLeaves(w, j, now, callbackId, w', id);
    case EnqueueInBatch(_, _, _) => InsertLeaves(w, op, w', id);
    case CreateBatch(_, _, _, _) => InsertLeaves(w, op, w', id);
    case FailExpiredBatches(_) => InsertLeaves(w, op, w', id);
    case _ => RowsLeave(w, op, w', id);
  }

  /** The keyed jobs a transaction inserts. */
  function IdsOf(op: Op): set<JobId> {
    match op
    case EnqueueWorkflow(envs, _) => EnvelopeIds(envs)
    case EnqueueInBatch(_, env, _) => EnvelopeIds([env])
    case _ => {}
  }

  /**
   * Locks are written, and keyed jobs added, only for `keys`, and in the name of `ids`; locks are deleted only with a
   * live job of their key.
   */
  ghost predicate TouchesKeys(s: Database, keys: set<string>, ids: set<JobId>, t: Database)
  {
    && (forall k :: k in t.locks ==>
          (k in s.locks && t.locks[k] == s.locks[k]) || (k in keys && t.locks[k].holder in ids))
    && (forall k :: k in s.locks && k !in t.locks ==> LiveJobWith(s, k))
    && (forall j :: Unique.Keyed(t, j) ==>
          Unique.KeyOf(t.jobs[j]) in keys || (Unique.Keyed(s, j) && Unique.KeyOf(s.jobs[j]) == Unique.KeyOf(t.jobs[j])))
  }

  lemma FinishesTouch(s: Database, t: Database)
    requires Unique.OnlyFinishes(s, t)
    ensures TouchesKeys(s, {}, {}, t)
  {
  }

  lemma EffectTouches(s: Database, t: Database, e: Ops.Effect, callbackId: JobId)
    requires TouchesKeys(s, {}, {}, t) && Ops.AddsCallbackOnly(t, e, callbackId)
    ensures TouchesKeys(s, {}, {}, e.db)
  {
    forall j | Unique.Keyed(e.db, j)
      ensures Unique.Keyed(s, j) && Unique.KeyOf(s.jobs[j]) == Unique.KeyOf(e.db.jobs[j])
    {
      assert Unique.Keyed(t, j);
    }
  }

  lemma TouchesTwice(s: Database, k1: set<string>, i1: set<JobId>, t: Database, k2: set<string>, i2: set<JobId>,
                     u: Database)
    requires TouchesKeys(s, k1, i1, t) && TouchesKeys(t, k2, i2, u) && s.locks.Keys <= t.locks.Keys <= u.locks.Keys
    ensures TouchesKeys(s, k1 + k2, i1 + i2, u)
  {
    forall j | Unique.Keyed(u, j) && Unique.KeyOf(u.jobs[j]) !in k1 + k2
      ensures Unique.Keyed(s, j) && Unique.KeyOf(s.jobs[j]) == Unique.KeyOf(u.jobs[j])
    {
      assert Unique.Keyed(t, j);
    }
  }

  lemma InsertTouches(s: Database, env: Envelope, now: int, t: Database)
    requires Ops.AcquireLock(s.locks, s.jobs, env, now) == Some(t.locks)
    requires t.jobs.Keys == s.jobs.Keys + {env.jobId} && env.jobId !in s.jobs
    requires forall id :: id in s.jobs ==> t.jobs[id] == s.jobs[id]
    requires t.jobs[env.jobId].queue == env.queue && t.jobs[env.jobId].uniqueKey == env.uniqueKey
    ensures TouchesKeys(s, EnvelopeKeys([env]), EnvelopeIds([env]), t) && s.locks.Keys <= t.locks.Keys
  {
    assert env in [env];
    forall j | Unique.Keyed(t, j) && j != env.jobId ensures Unique.Keyed(s, j) {
    }
  }

  lemma OneMore(envs: seq<Envelope>)
    requires envs != []
    ensures EnvelopeKeys([envs[0]]) + EnvelopeKeys(envs[1..]) == EnvelopeKeys(envs)
    ensures EnvelopeIds([envs[0]]) + EnvelopeIds(envs[1..]) == EnvelopeIds(envs)
  {
    assert forall env :: env in envs <==> env in [envs[0]] || env in envs[1..];
  }

  lemma {:induction false} WorkflowTouches(s: Database, envs: seq<Envelope>, now: int)
    requires DistinctIds(envs) && forall env :: env in envs ==> env.jobId !in s.jobs
    requires Ops.EnqueueWorkflow(s, envs, now).Some?
    ensures var t := Ops.EnqueueWorkflow(s, envs, now).value;
            TouchesKeys(s, EnvelopeKeys(envs), EnvelopeIds(envs), t) && s.locks.Keys <= t.locks.Keys
    decreases |envs|
  {
    if envs != [] {
      var first := Ops.InsertWorkflowJob(s, envs[0], now).value;
      assert envs[0] in envs;
      InsertTouches(s, envs[0], now, first);
      forall env | env in envs[1..] ensures env.jobId !in first.jobs {
        assert env in envs;
        var k :| 0 < k < |envs| && envs[k] == env;
        assert envs[0].jobId != envs[k].jobId;
      }
      WorkflowTouches(first, envs[1..], now);
      var t := Ops.EnqueueWorkflow(first, envs[1..], now).value;
      TouchesTwice(s, EnvelopeKeys([envs[0]]), EnvelopeIds([envs[0]]), first,
                   EnvelopeKeys(envs[1..]), EnvelopeIds(envs[1..]), t);
      OneMore(envs);
    }
  }

  lemma AckRowsTouch(db: Database, id: JobId, now: int, callbackId: JobId)
    requires IsRunning(db, id) && Unique.Named(db) && Ops.Ack(db, id, now, callbackId).Some?
    requires forall e :: e in db.deps && e.child in db.jobs ==> db.jobs[e.child].status.Blocked?
    ensures TouchesKeys(db, {}, {}, Ops.Ack(db, id, now, callbackId).value.db)
  {
    Unique.AckFinishes(db, id);
    var t := Ops.ResolveDependencies(Ops.MarkProcessed(db, id), id);
    FinishesTouch(db, t);
    if BatchIdOf(db.jobs, id) != "" {
      EffectTouches(db, t, Ops.Ack(db, id, now, callbackId).value, callbackId);
    }
  }

  lemma AckTouches(w: World, id: JobId, now: int, callbackId: JobId, w': World)
    requires Unique.Inv(w) && IsRunning(w.db, id) && w' == AfterAck(w, id, now, callbackId)
    ensures TouchesKeys(w.db, {}, {}, w'.db)
  {
    var r := Ops.Ack(w.db, id, now, callbackId);
    if r.Some? {
      AckRowsTouch(w.db, id, now, callbackId);
      assert w'.db == r.value.db;
    } else {
      FinishesTouch(w.db, w.db);
    }
  }

  lemma SubmitTouches(w: World, b: string, now: int, callbackId: JobId, w': World)
    requires w' == AfterSubmit(w, b, now, callbackId)
    ensures TouchesKeys(w.db, {}, {}, w'.db)
  {
    var r := Ops.SubmitBatch(w.db, b, now, callbackId);
    if r.Some? {
      FinishesTouch(w.db, w.db);
      EffectTouches(w.db, w.db, r.value, callbackId);
      assert w'.db == r.value.db;
    }
  }

  lemma FailTouches(w: World, id: JobId, nextRun: int, w': World)
    requires Unique.Inv(w) && IsRunning(w.db, id) && AfterFail(w, id, nextRun, w')
    ensures TouchesKeys(w.db, {}, {}, w'.db)
  {
    if Ops.LastAttempt(w.db.jobs[id]) {
      Unique.KillFinishes(w, id, w'.db);
    }
    FinishesTouch(w.db, w'.db);
  }

  /** Rows that change without finishing, or vanish. */
  lemma RowsOnlyTouch(s: Database, t: Database)
    requires t.locks == s.locks && t.jobs.Keys <= s.jobs.Keys
    requires forall id :: id in t.jobs ==>
      && t.jobs[id].queue == s.jobs[id].queue && t.jobs[id].uniqueKey == s.jobs[id].uniqueKey
      && (t.jobs[id].Live() ==> s.jobs[id].Live())
    ensures TouchesKeys(s, {}, {}, t)
  {
    assert forall j :: Unique.Keyed(t, j) ==> Unique.Keyed(s, j);
  }

  lemma ClaimTouches(s: Database, id: Option<JobId>)
    requires id.Some? ==> id.value in s.jobs && s.jobs[id.value].status.Pending?
    ensures TouchesKeys(s, {}, {}, Ops.Claim(s, id))
  {
    RowsOnlyTouch(s, Ops.Claim(s, id));
  }

  lemma MovesTouch(w: World, op: Op, w': World)
    requires Runs.Next(w, op, w') && Allowed(w, op) && (op.Dequeue? || op.Postpone?)
    ensures TouchesKeys(w.db, {}, {}, w'.db)
  {
    if op.Postpone? {
      RowsOnlyTouch(w.db, Ops.Postpone(w.db, op.id, op.runAt));
    } else {
      ClaimTouches(w.db, Ops.FirstEligible(w.db.jobs, op.rows, op.workerTags));
    }
  }

  lemma RowsTouch(w: World, op: Op, w': World)
    requires Runs.Next(w, op, w') && (op.CreateBatch? || op.FailExpiredBatches? || op.Forget?)
    ensures TouchesKeys(w.db, {}, {}, w'.db)
  {
    RowsOnlyTouch(w.db, w'.db);
  }

  lemma EnqueuesTouch(w: World, op: Op, w': World)
    requires Allowed(w, op) && Runs.Next(w, op, w') && (op.EnqueueWorkflow? || op.EnqueueInBatch?)
    ensures TouchesKeys(w.db, KeysOf(op), IdsOf(op), w'.db)
  {
    if w' != w {
      if op.EnqueueWorkflow? {
        WorkflowTouches(w.db, op.envs, op.now);
      } else {
        InsertTouches(w.db, op.env, op.now, w'.db);
      }
    }
  }

  lemma TransactTouches(w: World, op: Op, w': World)
    requires Unique.Inv(w) && Allowed(w, op) && Unique.LockAllowed(w, op) && Runs.Next(w, op, w') && !op.Enqueue?
    ensures TouchesKeys(w.db, KeysOf(op), IdsOf(op), w'.db)
  {
    if Workflow.IsLateReport(w, op) {
      Workflow.LateReport(w, op, w');
      FinishesTouch(w.db, w.db);
      return;
    }
    match op
    case EnqueueWorkflow(_, _) => EnqueuesTouch(w, op, w');
    case EnqueueInBatch(_, _, _) => EnqueuesTouch(w, op, w');
    case SubmitBatch(b, now, callbackId) => SubmitTouches(w, b, now, callbackId, w');
    case Ack(id, now, callbackId) => AckTouches(w, id, now, callbackId, w');
    case Fail(id, nextRun) => FailTouches(w, id, nextRun, w');
    case Cancel(id) => CancelTouches(w, id, w');
    case Dequeue(_, _, _, _) => MovesTouch(w, op, w');
    case Postpone(_, _) => MovesTouch(w, op, w');
    case _ => RowsTouch(w, op, w');
  }

  lemma CancelTouches(w: World, id: JobId, w': World)
    requires Workflow.EdgesOk(w.db, w.declared) && (id in w.db.jobs ==> w.db.jobs[id].Live())
    requires Ops.Cancel(w.db, id, w'.db)
    ensures TouchesKeys(w.db, {}, {}, w'.db)
  {
    Unique.CancelFinishes(w, id, w'.db);
    FinishesTouch(w.db, w'.db);
  }
}
