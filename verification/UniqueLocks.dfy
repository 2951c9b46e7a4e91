/** Unique keys: while a job lives, the lock row of its key names it, so no second live job can have that key. */
module UniqueLocks {
  import opened Graph
  import opened Tables
  import opened Cascade
  import Ops = Operations
  import opened Runs
  import Workflow = WorkflowSafety

  function KeyOf(job: Job): string {
    LockKey(job.queue, job.uniqueKey)
  }

  /** The job has not finished and was enqueued with a unique key. */
  predicate Keyed(db: Database, id: JobId) {
    id in db.jobs && db.jobs[id].Live() && db.jobs[id].uniqueKey != ""
  }

  ghost predicate Named(db: Database) {
    forall id :: Keyed(db, id) ==> KeyOf(db.jobs[id]) in db.locks && db.locks[KeyOf(db.jobs[id])].holder == id
  }

  ghost predicate HoldersDeclared(db: Database, declared: map<JobId, set<JobId>>) {
    forall k :: k in db.locks ==> db.locks[k].holder in declared
  }

  ghost predicate Inv(w: World) {
    && Workflow.Inv(w)
    && Named(w.db)
    && HoldersDeclared(w.db, w.declared)
  }

  /** At `now`, no lock of a live job has run out. */
  ghost predicate NoneExpired(db: Database, now: int) {
    forall id :: Keyed(db, id) && KeyOf(db.jobs[id]) in db.locks ==> now < db.locks[KeyOf(db.jobs[id])].expiresAt
  }

  /** Locks outlive their jobs, and only unfinished or unknown jobs are cancelled. */
  ghost predicate LockAllowed(w: World, op: Op) {
    match op
    case Enqueue(env, now) => NoneExpired(w.db, now)
    case EnqueueWorkflow(envs, now) => NoneExpired(w.db, now)
    case EnqueueInBatch(b, env, now) => NoneExpired(w.db, now)
    case Cancel(id) => id in w.db.jobs ==> w.db.jobs[id].Live()
    case _ => true
  }

  /** Neither a job nor a lock has this id. */
  ghost predicate Unheard(db: Database, id: JobId) {
    id !in db.jobs && forall k :: k in db.locks ==> db.locks[k].holder != id
  }

  /** Every lock of `t` is held by one of `ids` or by its old holder. */
  ghost predicate LocksPassTo(s: Database, ids: set<JobId>, t: Database) {
    forall k :: k in t.locks ==> t.locks[k].holder in ids || (k in s.locks && t.locks[k].holder == s.locks[k].holder)
  }

  /** A new row of a fresh job whose lock was acquired. */
  lemma Acquired(s: Database, env: Envelope, now: int, t: Database)
    requires Named(s) && NoneExpired(s, now) && Unheard(s, env.jobId)
    requires Ops.AcquireLock(s.locks, s.jobs, env, now) == Some(t.locks)
    requires t.jobs.Keys == s.jobs.Keys + {env.jobId} && forall id :: id in s.jobs ==> t.jobs[id] == s.jobs[id]
    requires t.jobs[env.jobId].queue == env.queue && t.jobs[env.jobId].uniqueKey == env.uniqueKey
    ensures Named(t) && NoneExpired(t, now)
    ensures LocksPassTo(s, {env.jobId}, t)
  {
    forall id | Keyed(t, id)
      ensures KeyOf(t.jobs[id]) in t.locks && t.locks[KeyOf(t.jobs[id])].holder == id
      ensures now < t.locks[KeyOf(t.jobs[id])].expiresAt
    {
      assert id != env.jobId ==> Keyed(s, id);
    }
  }

  lemma AcquiredFirst(s: Database, env: Envelope, now: int)
    requires Named(s) && NoneExpired(s, now) && Unheard(s, env.jobId)
    requires Ops.InsertWorkflowJob(s, env, now).Some?
    ensures var t := Ops.InsertWorkflowJob(s, env, now).value;
            && Named(t) && NoneExpired(t, now) && LocksPassTo(s, {env.jobId}, t)
            && forall id :: Unheard(s, id) && id != env.jobId ==> Unheard(t, id)
  {
    Acquired(s, env, now, Ops.InsertWorkflowJob(s, env, now).value);
  }

  lemma {:induction false} WorkflowLocks(s: Database, envs: seq<Envelope>, now: int)
    requires Named(s) && NoneExpired(s, now) && DistinctIds(envs)
    requires forall env :: env in envs ==> Unheard(s, env.jobId)
    requires Ops.EnqueueWorkflow(s, envs, now).Some?
    ensures Named(Ops.EnqueueWorkflow(s, envs, now).value)
    ensures LocksPassTo(s, EnvelopeIds(envs), Ops.EnqueueWorkflow(s, envs, now).value)
    decreases |envs|
  {
    if envs != [] {
      var first := Ops.InsertWorkflowJob(s, envs[0], now).value;
      assert envs[0] in envs;
      AcquiredFirst(s, envs[0], now);
      Workflow.Snoc(envs);
      forall env | env in envs[1..] ensures Unheard(first, env.jobId) {
        assert env in envs;
        var k :| 0 < k < |envs| && envs[k] == env;
        assert envs[0].jobId != envs[k].jobId;
      }
      WorkflowLocks(first, envs[1..], now);
      var t := Ops.EnqueueWorkflow(first, envs[1..], now).value;
      LocksPassTwice(s, {envs[0].jobId}, first, EnvelopeIds(envs[1..]), t);
    }
  }

  lemma LocksPassTwice(s: Database, ids: set<JobId>, t: Database, more: set<JobId>, u: Database)
    requires LocksPassTo(s, ids, t) && LocksPassTo(t, more, u)
    ensures LocksPassTo(s, ids + more, u)
  {
  }

  /** Jobs only finish or vanish, and only the locks of jobs that do so are deleted. */
  ghost predicate OnlyFinishes(s: Database, t: Database)
  {
    && t.jobs.Keys <= s.jobs.Keys
    && (forall id :: id in t.jobs ==>
          && t.jobs[id].queue == s.jobs[id].queue && t.jobs[id].uniqueKey == s.jobs[id].uniqueKey
          && (t.jobs[id].Live() ==> s.jobs[id].Live()))
    && t.locks.Keys <= s.locks.Keys
    && (forall k :: k in t.locks ==> t.locks[k] == s.locks[k])
    && (forall k :: k in s.locks && k !in t.locks ==>
          exists id :: Keyed(s, id) && KeyOf(s.jobs[id]) == k && !Keyed(t, id))
  }

  lemma Finished(s: Database, t: Database)
    requires Named(s) && OnlyFinishes(s, t)
    ensures Named(t)
  {
    forall id | Keyed(t, id) ensures KeyOf(t.jobs[id]) in t.locks {
      assert Keyed(s, id);
    }
  }

  lemma KillReleases(s: Database, dead: set<JobId>, freed: set<JobId>, t: Database)
    requires Killed(s, dead, freed, t)
    requires forall id :: id in dead && id in s.jobs ==> s.jobs[id].Live()
    ensures OnlyFinishes(s, t)
  {
    forall k | k in s.locks && k !in t.locks
      ensures exists id :: Keyed(s, id) && KeyOf(s.jobs[id]) == k && !Keyed(t, id)
    {
      var id :| id in dead && id in s.jobs && s.jobs[id].uniqueKey != "" && KeyOf(s.jobs[id]) == k;
      assert Keyed(s, id);
    }
  }

  lemma KillFinishes(w: World, root: JobId, t: Database)
    requires Workflow.EdgesOk(w.db, w.declared) && IsRunning(w.db, root)
    requires Killed(w.db, {root} + Descendants(w.db.deps, root), Descendants(w.db.deps, root), t)
    ensures OnlyFinishes(w.db, t)
  {
    KillReleases(w.db, {root} + Descendants(w.db.deps, root), Descendants(w.db.deps, root), t);
  }

  lemma CancelReleases(w: World, root: JobId, t: Database, k: string)
    requires Workflow.EdgesOk(w.db, w.declared) && (root in w.db.jobs ==> w.db.jobs[root].Live())
    requires Ops.Cancel(w.db, root, t) && k in w.db.locks && k !in t.locks
    ensures exists id :: Keyed(w.db, id) && KeyOf(w.db.jobs[id]) == k && !Keyed(t, id)
  {
    var below := Descendants(w.db.deps, root);
    var s := Ops.DeleteJob(w.db, root);
    if k !in s.locks {
      assert Keyed(w.db, root);
    } else {
      var id :| id in below && id in s.jobs && s.jobs[id].uniqueKey != "" && KeyOf(s.jobs[id]) == k;
      assert Keyed(w.db, id);
    }
  }

  lemma CancelFinishes(w: World, root: JobId, t: Database)
    requires Workflow.EdgesOk(w.db, w.declared) && (root in w.db.jobs ==> w.db.jobs[root].Live())
    requires Ops.Cancel(w.db, root, t)
    ensures OnlyFinishes(w.db, t)
  {
    forall k | k in w.db.locks && k !in t.locks
      ensures exists id :: Keyed(w.db, id) && KeyOf(w.db.jobs[id]) == k && !Keyed(t, id)
    {
      CancelReleases(w, root, t, k);
    }
  }

  lemma AckFinishes(db: Database, id: JobId)
    requires IsRunning(db, id) && Named(db)
    requires forall e :: e in db.deps && e.child in db.jobs ==> db.jobs[e.child].status.Blocked?
    ensures OnlyFinishes(db, Ops.ResolveDependencies(Ops.MarkProcessed(db, id), id))
  {
    var t := Ops.ResolveDependencies(Ops.MarkProcessed(db, id), id);
    assert id !in Children(db.deps, id);
    forall k | k in db.locks && k !in t.locks
      ensures exists j :: Keyed(db, j) && KeyOf(db.jobs[j]) == k && !Keyed(t, j)
    {
      assert Keyed(db, id);
    }
  }

  // Every step and every run

  lemma EnqueueStep(w: World, op: Op, w': World)
    requires Inv(w) && Allowed(w, op) && LockAllowed(w, op) && Next(w, op, w')
    requires op.Enqueue? || op.EnqueueInBatch?
    ensures Named(w'.db) && HoldersDeclared(w'.db, w'.declared)
  {
    if w' != w {
      Acquired(w.db, op.env, op.now, w'.db);
    }
  }

  lemma WorkflowStep(w: World, envs: seq<Envelope>, now: int, w': World)
    requires Inv(w) && Allowed(w, EnqueueWorkflow(envs, now)) && NoneExpired(w.db, now)
    requires Next(w, EnqueueWorkflow(envs, now), w')
    ensures Named(w'.db) && HoldersDeclared(w'.db, w'.declared)
  {
    if w' != w {
      WorkflowLocks(w.db, envs, now);
      Workflow.WorkflowDeclared(w.declared, envs);
    }
  }

  lemma EffectNamed(s: Database, e: Ops.Effect, callbackId: JobId)
    requires Named(s) && Ops.AddsCallbackOnly(s, e, callbackId)
    ensures Named(e.db)
  {
    forall id | Keyed(e.db, id)
      ensures KeyOf(e.db.jobs[id]) in e.db.locks && e.db.locks[KeyOf(e.db.jobs[id])].holder == id
    {
      assert Keyed(s, id);
    }
  }

  /** Locks only go, and the rest still names the live jobs. */
  ghost predicate KeepsNamed(s: Database, t: Database) {
    Named(t) && forall k :: k in t.locks ==> k in s.locks && t.locks[k] == s.locks[k]
  }

  lemma AckNamed(db: Database, id: JobId, now: int, callbackId: JobId)
    requires IsRunning(db, id) && Named(db) && Ops.Ack(db, id, now, callbackId).Some?
    requires forall e :: e in db.deps && e.child in db.jobs ==> db.jobs[e.child].status.Blocked?
    ensures KeepsNamed(db, Ops.Ack(db, id, now, callbackId).value.db)
  {
    AckFinishes(db, id);
    var t := Ops.ResolveDependencies(Ops.MarkProcessed(db, id), id);
    Finished(db, t);
    if BatchIdOf(db.jobs, id) != "" {
      EffectNamed(t, Ops.Ack(db, id, now, callbackId).value, callbackId);
    }
  }

  lemma AckStep(w: World, op: Op, w': World)
    requires Inv(w) && op.Ack? && IsRunning(w.db, op.id) && w' == AfterAck(w, op.id, op.now, op.callbackId)
    ensures Named(w'.db) && HoldersDeclared(w'.db, w'.declared)
  {
    var r := Ops.Ack(w.db, op.id, op.now, op.callbackId);
    if r.Some? {
      AckNamed(w.db, op.id, op.now, op.callbackId);
      HoldersStay(w, r.value.db, w'.declared);
    }
  }

  lemma HoldersStay(w: World, t: Database, declared: map<JobId, set<JobId>>)
    requires HoldersDeclared(w.db, w.declared) && KeepsNamed(w.db, t) && w.declared.Keys <= declared.Keys
    ensures Named(t) && HoldersDeclared(t, declared)
  {
  }

  lemma SubmitStep(w: World, op: Op, w': World)
    requires Inv(w) && op.SubmitBatch? && w' == AfterSubmit(w, op.batchId, op.now, op.callbackId)
    ensures Named(w'.db) && HoldersDeclared(w'.db, w'.declared)
  {
    var r := Ops.SubmitBatch(w.db, op.batchId, op.now, op.callbackId);
    if r.Some? {
      EffectNamed(w.db, r.value, op.callbackId);
      HoldersStay(w, r.value.db, w'.declared);
    }
  }

  lemma KillStep(w: World, op: Op, w': World)
    requires Inv(w) && Allowed(w, op) && LockAllowed(w, op) && Next(w, op, w')
    requires op.Cancel? || (op.Fail? && op.id in w.db.jobs)
    ensures Named(w'.db) && HoldersDeclared(w'.db, w'.declared)
  {
    if op.Cancel? {
      CancelFinishes(w, op.id, w'.db);
    } else if Ops.LastAttempt(w.db.jobs[op.id]) {
      KillFinishes(w, op.id, w'.db);
    }
    Finished(w.db, w'.db);
  }

  /** Rows that change without finishing, or vanish finished. */
  lemma RowsOnly(s: Database, t: Database)
    requires Named(s) && t.locks == s.locks && t.jobs.Keys <= s.jobs.Keys
    requires forall id :: id in t.jobs ==>
      && t.jobs[id].queue == s.jobs[id].queue && t.jobs[id].uniqueKey == s.jobs[id].uniqueKey
      && (t.jobs[id].Live() ==> s.jobs[id].Live())
    ensures Named(t)
  {
    Finished(s, t);
  }

  lemma OtherStep(w: World, op: Op, w': World)
    requires Inv(w) && Next(w, op, w') && (op.CreateBatch? || op.FailExpiredBatches? || op.Forget?)
    ensures Named(w'.db) && HoldersDeclared(w'.db, w'.declared)
  {
    RowsOnly(w.db, w'.db);
  }

  lemma MoveStep(w: World, op: Op, w': World)
    requires Inv(w) && Allowed(w, op) && Next(w, op, w') && (op.Dequeue? || op.Postpone?)
    ensures Named(w'.db) && HoldersDeclared(w'.db, w'.declared)
  {
    RowsOnly(w.db, w'.db);
  }

  lemma Step(w: World, op: Op, w': World)
    requires Inv(w) && Allowed(w, op) && LockAllowed(w, op) && Next(w, op, w')
    ensures Inv(w')
  {
    Workflow.Step(w, op, w');
    if Workflow.IsLateReport(w, op) {
      Workflow.LateReport(w, op, w');
      return;
    }
    match op
    case Enqueue(_, _) => EnqueueStep(w, op, w');
    case EnqueueInBatch(_, _, _) => EnqueueStep(w, op, w');
    case EnqueueWorkflow(envs, now) => WorkflowStep(w, envs, now, w');
    case Ack(_, _, _) => AckStep(w, op, w');
    case SubmitBatch(_, _, _) => SubmitStep(w, op, w');
    case Fail(_, _) => KillStep(w, op, w');
    case Cancel(_) => KillStep(w, op, w');
    case Dequeue(_, _, _, _) => MoveStep(w, op, w');
    case Postpone(_, _) => MoveStep(w, op, w');
    case _ => OtherStep(w, op, w');
  }

  ghost predicate IsLockRun(ws: seq<World>, ops: seq<Op>)
  {
    && IsRun(ws, ops)
    && forall i {:trigger ops[i]} :: 0 <= i < |ops| ==> LockAllowed(ws[i], ops[i])
  }

  lemma {:induction false} EveryRun(ws: seq<World>, ops: seq<Op>, n: nat)
    requires IsLockRun(ws, ops) && n < |ws|
    ensures Inv(ws[n])
    decreases n
  {
    Workflow.EveryRun(ws, ops, n);
    if n > 0 {
      EveryRun(ws, ops, n - 1);
      Step(ws[n - 1], ops[n - 1], ws[n]);
    }
  }

  /** In every run, two live jobs never share a lock key, and the lock row names the live job of its key. */
  lemma OneLiveJobPerKey(ws: seq<World>, ops: seq<Op>, n: nat, a: JobId, b: JobId)
    requires IsLockRun(ws, ops) && n < |ws|
    requires Keyed(ws[n].db, a) && Keyed(ws[n].db, b)
    requires KeyOf(ws[n].db.jobs[a]) == KeyOf(ws[n].db.jobs[b])
    ensures a == b
    ensures KeyOf(ws[n].db.jobs[a]) in ws[n].db.locks && ws[n].db.locks[KeyOf(ws[n].db.jobs[a])].holder == a
  {
    EveryRun(ws, ops, n);
  }

  /**
   * Cancel releases by key, not by holder. It keeps the locks of live jobs exactly when no other live job has the
   * key of the cancelled row, which is always so while that row is live itself.
   */
  lemma CancelKeepsLocksIff(w: World, id: JobId, t: Database)
    requires Inv(w) && id in w.db.jobs && w.db.jobs[id].uniqueKey != ""
    requires Ops.Cancel(w.db, id, t)
    ensures Named(t) <==> forall j :: j != id && Keyed(w.db, j) ==> KeyOf(w.db.jobs[j]) != KeyOf(w.db.jobs[id])
  {
    if w.db.jobs[id].Live() {
      CancelFinishes(w, id, t);
      Finished(w.db, t);
    } else {
      forall d ensures d !in Descendants(w.db.deps, id) {
        DescendantsAre(w.db.deps, id, d);
        if Reach(w.db.deps, id, d) {
          var c := ReachFirst(w.db.deps, id, d);
        }
      }
      assert forall j :: Keyed(t, j) <==> j != id && Keyed(w.db, j);
      assert t.locks.Keys == w.db.locks.Keys - {KeyOf(w.db.jobs[id])};
    }
  }
}
