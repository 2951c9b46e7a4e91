/**
 * The SQLite storage over the tables held in the fields. A public method is one transaction, with four exceptions.
 * Enqueue commits its statements one by one, and Ack, Fail and Cancel read columns of the row before their transaction
 * (PerformAck, PerformFail and PerformCancel) begins. Here they run without interruption; module Interleaving lets
 * others come in between.
 */
module Storage {
  import opened Graph
  import opened Tables
  import opened Cascade
  import Ops = Operations

  class SqliteStorage {
    var jobs: map<JobId, Job>
    var deps: set<Edge>
    var locks: map<string, Lock>
    var batches: map<string, Batch>

    ghost function Snapshot(): Database
      reads this
    {
      Database(jobs, deps, locks, batches)
    }

    /** The children of a job, in an order the database is free to choose. */
    method QueryChildJobIDs(parentJobId: JobId) returns (childIds: seq<JobId>)
      ensures forall c :: c in childIds <==> c in Children(deps, parentJobId)
      ensures Distinct(childIds)
    {
      var rest := Children(deps, parentJobId);
      childIds := [];
      while rest != {}
        invariant rest <= Children(deps, parentJobId)
        invariant forall c :: c in childIds <==> c in Children(deps, parentJobId) - rest
        invariant Distinct(childIds)
        decreases rest
      {
        var c :| c in rest;
        assert c !in childIds;
        childIds, rest := childIds + [c], rest - {c};
      }
    }

    method DeleteUniqueLock(queueName: string, uniqueKey: string)
      modifies this`locks
      ensures locks == ReleaseLock(old(locks), queueName, uniqueKey)
    {
      if uniqueKey == "" {
        return;
      }
      locks := locks - {LockKey(queueName, uniqueKey)};
    }

    /** Buries the job and everything below it. Its own dependency rows are left to the caller. */
    method TransitionToDead(jobId: JobId, uniqueKey: string, queueName: string, batchId: string)
      requires AcyclicFrom(deps, jobId)
      modifies this
      ensures KilledWith(old(Snapshot()), jobId, Columns(queueName, uniqueKey, batchId, 0, 0), Snapshot())
      ensures ReadsRow(old(jobs), jobId, Columns(queueName, uniqueKey, batchId, 0, 0)) ==>
        KilledFrom(old(Snapshot()), jobId, Snapshot())
      ensures jobId in old(jobs) ==> jobId in jobs && jobs[jobId].attempts == old(jobs)[jobId].attempts + 1
      decreases |Descendants(deps, jobId)|, 2
    {
      ghost var s, c := Snapshot(), Columns(queueName, uniqueKey, batchId, 0, 0);
      if jobId in jobs {
        jobs := jobs[jobId := jobs[jobId].(status := Dead, attempts := jobs[jobId].attempts + 1)];
      }
      DeleteUniqueLock(queueName, uniqueKey);
      assert Snapshot() == BuryRow(s, jobId, c);
      CascadeDependencyFailure(jobId);
      FailsLast(s, jobId, c, Snapshot());
      if batchId != "" && batchId in batches {
        batches := batches[batchId := batches[batchId].(status := Failed)];
      }
      if ReadsRow(s.jobs, jobId, c) {
        KilledAround(s, jobId, c, Snapshot());
      }
    }

    /** Kills every descendant of the job and deletes their dependency rows. */
    method CascadeDependencyFailure(failedJobId: JobId)
      requires AcyclicFrom(deps, failedJobId)
      modifies this
      ensures var below := Descendants(old(deps), failedJobId); Killed(old(Snapshot()), below, below, Snapshot())
      ensures CountsVisits(old(jobs), {}, old(deps), {failedJobId} + Descendants(old(deps), failedJobId), jobs)
      decreases |Descendants(deps, failedJobId)|, 1
    {
      var childIds := QueryChildJobIDs(failedJobId);
      DescendantsByChildren(deps, failedJobId);
      assert Children(deps, failedJobId) == Elems(childIds);
      FailChildren(failedJobId, childIds);
      VisitsBelow(old(jobs), old(deps), failedJobId, jobs);
    }

    method FailChildren(parentId: JobId, childIds: seq<JobId>)
      requires AcyclicFrom(deps, parentId)
      requires forall c :: c in childIds ==> Edge(c, parentId) in deps
      requires Distinct(childIds)
      modifies this
      ensures KilledBelow(old(Snapshot()), Elems(childIds), Snapshot())
      decreases |Descendants(deps, parentId)|, 0
    {
      ghost var s := Snapshot();
      KilledNothing(s);
      assert Closure(s.deps, Elems(childIds[..0])) == {};
      for i := 0 to |childIds|
        invariant KilledBelow(s, Elems(childIds[..i]), Snapshot())
      {
        var cid := childIds[i];
        ghost var t := Snapshot();
        var uniqueKey, queueName, batchId := "", "", "";
        if cid in jobs {
          uniqueKey, queueName, batchId := jobs[cid].uniqueKey, jobs[cid].queue, jobs[cid].batchId;
        }
        ChildSmaller(s.deps, deps, parentId, cid);
        TransitionToDead(cid, uniqueKey, queueName, batchId);
        ghost var u := Snapshot();
        deps := Cut(deps, {cid});
        NextChild(childIds, i);
        TurnDone(s, Elems(childIds[..i]), t, cid, u, Snapshot());
      }
      assert childIds[..|childIds|] == childIds;
    }

    /** Puts the tables back to what they were when the transaction began. */
    method Rollback(db: Database)
      modifies this
      ensures Snapshot() == db
    {
      jobs, deps, locks, batches := db.jobs, db.deps, db.locks, db.batches;
    }

    method CurrentTables() returns (db: Database)
      ensures db == Snapshot()
    {
      db := Database(jobs, deps, locks, batches);
    }

    method TryInsertLock(lockKey: string, jobId: JobId, expiresAt: int)
      modifies this`locks
      ensures locks == Ops.TryInsertLock(old(locks), lockKey, Lock(jobId, expiresAt))
    {
      if lockKey !in locks {
        locks := locks[lockKey := Lock(jobId, expiresAt)];
      }
    }

    /** Refuses while the holder has a row and its lock has not run out; otherwise the lock changes hands. */
    method HandleLockCollision(lockKey: string, jobId: JobId, expiresAt: int, existing: Lock, now: int)
      returns (ok: bool)
      modifies this`locks
      ensures ok <==> !(now < existing.expiresAt && existing.holder in jobs)
      ensures locks == if ok then old(locks)[lockKey := Lock(jobId, expiresAt)] else old(locks)
    {
      var held := existing.holder in jobs;
      if now < existing.expiresAt && held {
        return false;
      }
      locks := locks[lockKey := Lock(jobId, expiresAt)];
      return true;
    }

    method AcquireUniqueLock(env: Envelope, now: int) returns (ok: bool)
      modifies this`locks
      ensures ok <==> Ops.AcquireLock(old(locks), jobs, env, now).Some?
      ensures locks == if ok then Ops.AcquireLock(old(locks), jobs, env, now).value else old(locks)
    {
      if env.uniqueKey == "" {
        return true;
      }
      var lockKey := LockKey(env.queue, env.uniqueKey);
      var expiresAt := Ops.LockExpires(env, now);
      TryInsertLock(lockKey, env.jobId, expiresAt);
      var existing := locks[lockKey];
      if existing.holder == env.jobId {
        return true;
      }
      ok := HandleLockCollision(lockKey, env.jobId, expiresAt, existing, now);
    }

    method InsertJob(env: Envelope, now: int)
      modifies this`jobs
      ensures jobs == old(jobs)[env.jobId := Ops.EnqueuedRow(old(jobs), env, now)]
    {
      jobs := jobs[env.jobId := Ops.EnqueuedRow(jobs, env, now)];
    }

    /** All statements of the call in a row. */
    method Enqueue(env: Envelope, now: int) returns (ok: bool)
      modifies this
      ensures ok <==> Ops.Enqueue(old(Snapshot()), env, now).Some?
      ensures Snapshot() == Ops.Commit(old(Snapshot()), Ops.Enqueue(old(Snapshot()), env, now))
    {
      ok := AcquireUniqueLock(env, now);
      if ok {
        InsertJob(env, now);
      }
    }

    method InsertJobDependencies(env: Envelope)
      modifies this`deps
      ensures deps == old(deps) + Ops.DependencyRows(env)
    {
      for i := 0 to |env.dependencies|
        invariant deps == old(deps) + set p | p in env.dependencies[..i] :: Edge(env.jobId, p)
      {
        deps := deps + {Edge(env.jobId, env.dependencies[i])};
      }
      assert env.dependencies[..|env.dependencies|] == env.dependencies;
    }

    method InsertWorkflowJob(env: Envelope, now: int) returns (ok: bool)
      modifies this
      ensures ok <==> Ops.InsertWorkflowJob(old(Snapshot()), env, now).Some?
      ensures ok ==> Some(Snapshot()) == Ops.InsertWorkflowJob(old(Snapshot()), env, now)
    {
      ok := AcquireUniqueLock(env, now);
      if ok {
        jobs := jobs[env.jobId := Ops.WorkflowRow(jobs, env, now)];
        InsertJobDependencies(env);
      }
    }

    method EnqueueWorkflow(envs: seq<Envelope>, now: int) returns (ok: bool)
      modifies this
      ensures ok <==> Ops.EnqueueWorkflow(old(Snapshot()), envs, now).Some?
      ensures Snapshot() == Ops.Commit(old(Snapshot()), Ops.EnqueueWorkflow(old(Snapshot()), envs, now))
    {
      var before := CurrentTables();
      for i := 0 to |envs|
        invariant Ops.EnqueueWorkflow(before, envs, now) == Ops.EnqueueWorkflow(Snapshot(), envs[i..], now)
      {
        var inserted := InsertWorkflowJob(envs[i], now);
        assert envs[i..][1..] == envs[i + 1..];
        if !inserted {
          Rollback(before);
          return false;
        }
      }
      return true;
    }

    method CreateBatch(batchId: string, callbackQueue: string, callbackName: string, expiresAt: Option<int>)
      returns (ok: bool)
      modifies this
      ensures ok <==> batchId !in old(batches)
      ensures Snapshot() == Ops.Commit(
        old(Snapshot()), Ops.CreateBatch(old(Snapshot()), batchId, callbackQueue, callbackName, expiresAt))
    {
      ok := batchId !in batches;
      if ok {
        batches := batches[batchId := Batch(callbackQueue, callbackName, 0, 0, Open, expiresAt)];
      }
    }

    method EnqueueInBatch(batchId: string, env: Envelope, now: int) returns (ok: bool)
      modifies this
      ensures ok <==> Ops.EnqueueInBatch(old(Snapshot()), batchId, env, now).Some?
      ensures Snapshot() == Ops.Commit(old(Snapshot()), Ops.EnqueueInBatch(old(Snapshot()), batchId, env, now))
    {
      var before := CurrentTables();
      if batchId in batches {
        var b := batches[batchId];
        batches := batches[batchId := b.(total := b.total + 1, pending := b.pending + 1)];
      }
      ok := AcquireUniqueLock(env, now);
      if !ok || env.jobId in jobs {
        Rollback(before);
        return false;
      }
      var runAt := if env.runAt.Some? then env.runAt.value else now;
      var maxAttempts := if env.maxAttempts <= 0 then 3 else env.maxAttempts;
      var row := Job(env.queue, env.name, Pending, 0, maxAttempts, runAt, now, env.uniqueKey, batchId, 0, "");
      jobs := jobs[env.jobId := row];
    }

    /** Inserts the callback job; a clash of the generated id with an existing row is an error. */
    method EnqueueCallback(callbackId: JobId, queue: string, name: string, now: int) returns (ok: bool)
      modifies this`jobs
      ensures ok <==> callbackId !in old(jobs)
      ensures jobs ==
              if !ok then old(jobs)
              else old(jobs)[callbackId := Job(queue, name, Pending, 0, 3, now, now, "", "", 0, "")]
    {
      ok := callbackId !in jobs;
      if ok {
        jobs := jobs[callbackId := Job(queue, name, Pending, 0, 3, now, now, "", "", 0, "")];
      }
    }

    method CompleteBatchAndEnqueue(batchId: string, now: int, callbackId: JobId) returns (ok: bool)
      requires batchId in batches
      modifies this
      ensures ok <==> Ops.Complete(old(Snapshot()), batchId, now, callbackId).Some?
      ensures ok ==> Some(Ops.Effect(Snapshot(), true)) == Ops.Complete(old(Snapshot()), batchId, now, callbackId)
    {
      var b := batches[batchId];
      batches := batches[batchId := b.(status := Completed)];
      ok := EnqueueCallback(callbackId, b.callbackQueue, b.callbackName, now);
    }

    method SubmitBatch(batchId: string, now: int, callbackId: JobId) returns (ok: bool)
      modifies this
      ensures ok <==> Ops.SubmitBatch(old(Snapshot()), batchId, now, callbackId).Some?
      ensures Snapshot() == Ops.CommitEffect(
        old(Snapshot()), Ops.SubmitBatch(old(Snapshot()), batchId, now, callbackId))
    {
      var before := CurrentTables();
      if batchId !in batches {
        return false;
      }
      if batches[batchId].Expired(now) {
        batches := batches[batchId := batches[batchId].(status := Failed)];
        return true;
      }
      batches := batches[batchId := batches[batchId].(status := Sealed)];
      ok := true;
      if batches[batchId].pending == 0 {
        ok := CompleteBatchAndEnqueue(batchId, now, callbackId);
        if !ok {
          Rollback(before);
        }
      }
    }

    method HandleBatchAck(batchId: string, now: int, callbackId: JobId) returns (ok: bool)
      modifies this
      ensures ok <==> Ops.HandleBatchAck(old(Snapshot()), batchId, now, callbackId).Some?
      ensures ok ==> Snapshot() == Ops.HandleBatchAck(old(Snapshot()), batchId, now, callbackId).value.db
    {
      if batchId !in batches {
        return false;
      }
      var b := batches[batchId];
      b := b.(pending := b.pending - 1);
      if b.Expired(now) {
        b := b.(status := Failed);
      }
      batches := batches[batchId := b];
      if !b.status.Sealed? || b.pending != 0 {
        return true;
      }
      ok := CompleteBatchAndEnqueue(batchId, now, callbackId);
    }

    method CheckBlockedChildren(childIds: seq<JobId>)
      modifies this`jobs
      ensures jobs.Keys == old(jobs.Keys)
      ensures forall id :: id in jobs ==>
        jobs[id] ==
        if id in childIds && (forall e :: e in deps ==> e.child != id) then old(jobs)[id].(status := Pending)
        else old(jobs)[id]
    {
      for i := 0 to |childIds|
        invariant jobs.Keys == old(jobs.Keys)
        invariant forall id :: id in jobs ==>
          jobs[id] ==
          if id in childIds[..i] && (forall e :: e in deps ==> e.child != id) then old(jobs)[id].(status := Pending)
          else old(jobs)[id]
      {
        var cid := childIds[i];
        var waiting := set e | e in deps && e.child == cid;
        if |waiting| == 0 {
          assert forall e :: e in deps && e.child == cid ==> e in waiting;
          if cid in jobs {
            jobs := jobs[cid := jobs[cid].(status := Pending)];
          }
        } else {
          var e :| e in waiting;
        }
      }
      assert childIds[..|childIds|] == childIds;
    }

    method ResolveDependencies(parentJobId: JobId)
      modifies this
      ensures Snapshot() == Ops.ResolveDependencies(old(Snapshot()), parentJobId)
    {
      var childIds := QueryChildJobIDs(parentJobId);
      deps := set e | e in deps && e.parent != parentJobId;
      CheckBlockedChildren(childIds);
      assert jobs == Ops.ResolveDependencies(old(Snapshot()), parentJobId).jobs;
    }

    /** The columns of the row, as they stand when nothing protects them yet. */
    method ReadColumns(jobId: JobId) returns (read: Option<Columns>)
      ensures read == Ops.ReadColumns(jobs, jobId)
    {
      if jobId !in jobs {
        return None;
      }
      var job := jobs[jobId];
      return Some(Columns(job.queue, job.uniqueKey, job.batchId, job.attempts, job.maxAttempts));
    }

    /** The transaction of Ack, on columns that may be out of date. */
    method PerformAck(jobId: JobId, c: Columns, now: int, callbackId: JobId) returns (ok: bool)
      modifies this
      ensures ok <==> Ops.AckWith(old(Snapshot()), jobId, c, now, callbackId).Some?
      ensures Snapshot() == Ops.CommitEffect(old(Snapshot()), Ops.AckWith(old(Snapshot()), jobId, c, now, callbackId))
    {
      var before := CurrentTables();
      if jobId in jobs {
        jobs := jobs[jobId := jobs[jobId].(status := Processed)];
      }
      DeleteUniqueLock(c.queue, c.uniqueKey);
      ResolveDependencies(jobId);
      ok := true;
      if c.batchId != "" {
        ok := HandleBatchAck(c.batchId, now, callbackId);
        if !ok {
          Rollback(before);
        }
      }
    }

    method Ack(jobId: JobId, now: int, callbackId: JobId) returns (ok: bool)
      modifies this
      ensures ok <==> Ops.Ack(old(Snapshot()), jobId, now, callbackId).Some?
      ensures Snapshot() == Ops.CommitEffect(old(Snapshot()), Ops.Ack(old(Snapshot()), jobId, now, callbackId))
    {
      var read := ReadColumns(jobId);
      var c := Ops.OrEmpty(read);
      Ops.AckByRow(Snapshot(), jobId, c, now, callbackId);
      ok := PerformAck(jobId, c, now, callbackId);
    }

    /** The transaction of Fail, on columns that may be out of date. */
    method PerformFail(jobId: JobId, c: Columns, nextRun: int)
      requires AcyclicFrom(deps, jobId)
      modifies this
      ensures Ops.FailWith(old(Snapshot()), jobId, c, nextRun, Snapshot())
      ensures jobId in old(jobs) ==> jobId in jobs && jobs[jobId].attempts == old(jobs)[jobId].attempts + 1
    {
      var maxAttempts := if c.maxAttempts <= 0 then 3 else c.maxAttempts;
      if c.attempts + 1 < maxAttempts {
        if jobId in jobs {
          var job := jobs[jobId];
          jobs := jobs[jobId := job.(status := Pending, attempts := job.attempts + 1, runAt := nextRun)];
        }
      } else {
        TransitionToDead(jobId, c.uniqueKey, c.queue, c.batchId);
      }
    }

    method Fail(jobId: JobId, nextRun: int) returns (ok: bool)
      requires AcyclicFrom(deps, jobId)
      modifies this
      ensures ok <==> jobId in old(jobs)
      ensures Ops.Fail(old(Snapshot()), jobId, nextRun, Snapshot())
      ensures ok ==> jobId in jobs && jobs[jobId].attempts == old(jobs)[jobId].attempts + 1
    {
      var read := ReadColumns(jobId);
      if read.None? {
        return false;
      }
      PerformFail(jobId, read.value, nextRun);
      Ops.FailByRow(old(Snapshot()), jobId, read.value, nextRun, Snapshot());
      return true;
    }

    /** The transaction of Cancel, on columns that may be out of date. */
    method PerformCancel(jobId: JobId, c: Columns)
      requires AcyclicFrom(deps, jobId)
      modifies this
      ensures Ops.CancelWith(old(Snapshot()), jobId, c, Snapshot())
    {
      jobs := jobs - {jobId};
      DeleteUniqueLock(c.queue, c.uniqueKey);
      assert Snapshot() == Ops.DeleteWith(old(Snapshot()), jobId, c);
      CascadeDependencyFailure(jobId);
    }

    method Cancel(jobId: JobId)
      requires AcyclicFrom(deps, jobId)
      modifies this
      ensures Ops.Cancel(old(Snapshot()), jobId, Snapshot())
    {
      var read := ReadColumns(jobId);
      PerformCancel(jobId, Ops.OrEmpty(read));
      Ops.CancelByRow(old(Snapshot()), jobId, Ops.OrEmpty(read), Snapshot());
    }

    method PostponeJob(jobId: JobId, runAt: int)
      modifies this
      ensures Snapshot() == Ops.Postpone(old(Snapshot()), jobId, runAt)
    {
      if jobId in jobs {
        jobs := jobs[jobId := jobs[jobId].(status := Pending, runAt := runAt)];
      }
    }

    method FailExpiredBatches(now: int)
      modifies this
      ensures Snapshot() == Ops.FailExpiredBatches(old(Snapshot()), now)
    {
      batches := map b | b in batches ::
        if (batches[b].status.Open? || batches[b].status.Sealed?) && batches[b].Expired(now)
        then batches[b].(status := Failed) else batches[b];
    }

    /** Whether every tag of the job is among the tags of the worker. */
    static method MatchTags(jobTags: seq<string>, workerTags: seq<string>) returns (all: bool)
      ensures all <==> forall t :: t in jobTags ==> t in workerTags
    {
      if |jobTags| == 0 {
        return true;
      }
      for i := 0 to |jobTags|
        invariant forall t :: t in jobTags[..i] ==> t in workerTags
      {
        var found := false;
        for j := 0 to |workerTags|
          invariant !found && jobTags[i] !in workerTags[..j]
        {
          if jobTags[i] == workerTags[j] {
            found := true;
            break;
          }
        }
        if !found {
          assert workerTags[..|workerTags|] == workerTags;
          return false;
        }
      }
      assert jobTags[..|jobTags|] == jobTags;
      return true;
    }

    method FindMatchingJob(rows: seq<JobId>, workerTags: seq<string>) returns (selected: Option<JobId>)
      requires forall id :: id in rows ==> id in jobs
      ensures selected == Ops.FirstEligible(jobs, rows, workerTags)
    {
      for i := 0 to |rows|
        invariant Ops.FirstEligible(jobs, rows, workerTags) == Ops.FirstEligible(jobs, rows[i..], workerTags)
      {
        var matches := MatchTags(jobs[rows[i]].Tags(), workerTags);
        if matches {
          return Some(rows[i]);
        }
        assert rows[i..][1..] == rows[i + 1..];
      }
      return None;
    }

    /** Claims the first eligible row of the candidate query, whose result the database hands over as `rows`. */
    method Dequeue(queueName: string, workerTags: seq<string>, now: int, rows: seq<JobId>)
      returns (claimed: Option<JobId>)
      requires Ops.IsQueryResult(Snapshot(), queueName, now, rows)
      modifies this
      ensures claimed == Ops.FirstEligible(old(jobs), rows, workerTags)
      ensures Snapshot() == Ops.Claim(old(Snapshot()), claimed)
    {
      claimed := FindMatchingJob(rows, workerTags);
      if claimed.Some? {
        jobs := jobs[claimed.value := jobs[claimed.value].(status := Running)];
      }
    }
  }

  predicate Distinct(ids: seq<JobId>) {
    forall i, j :: 0 <= i < j < |ids| ==> ids[i] != ids[j]
  }

  lemma NextChild(childIds: seq<JobId>, i: nat)
    requires i < |childIds| && Distinct(childIds)
    ensures childIds[i] !in Elems(childIds[..i])
    ensures Elems(childIds[..i + 1]) == Elems(childIds[..i]) + {childIds[i]}
  {
  }

  /** In a table from which rows were deleted, a child still has no cycle below it, and fewer descendants. */
  lemma ChildSmaller(full: set<Edge>, edges: set<Edge>, parent: JobId, child: JobId)
    requires edges <= full && AcyclicFrom(full, parent) && Edge(child, parent) in full
    ensures AcyclicFrom(edges, child) && |Descendants(edges, child)| < |Descendants(full, parent)|
  {
    AcyclicFromChild(full, parent, child);
    AcyclicFromSubset(edges, full, child);
    FewerDescendants(edges, full, parent, child);
  }
}
