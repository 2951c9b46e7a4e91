/** What happens to a workflow job that names a parent which has already finished. */
module Stranded {
  import opened Graph
  import opened Tables
  import Ops = Operations
  import opened Runs
  import Workflow = WorkflowSafety

  /** The part of the workflow invariant that survives a workflow with finished parents. */
  ghost predicate Tidy(w: World)
  {
    && w.db.jobs.Keys <= w.declared.Keys
    && forall e :: e in w.db.deps ==>
         e.child in w.declared && (e.child in w.db.jobs ==> w.db.jobs[e.child].status.Blocked?)
  }

  ghost predicate Finished(w: World, p: JobId) {
    p in w.declared && (p in w.db.jobs ==> !w.db.jobs[p].Live())
  }

  /** The job waits for a parent that has finished. */
  ghost predicate Waits(w: World, id: JobId, p: JobId) {
    Edge(id, p) in w.db.deps && id in w.db.jobs && Finished(w, p)
  }

  lemma TidyInsert(w: World, op: Op, w': World, id: JobId, p: JobId)
    requires Tidy(w) && Allowed(w, op) && Next(w, op, w')
    requires op.Enqueue? || op.EnqueueInBatch? || op.CreateBatch?
    ensures Tidy(w')
    ensures Finished(w, p) ==> Finished(w', p)
    ensures Waits(w, id, p) ==> Waits(w', id, p)
  {
  }

  lemma TidySubmit(w: World, b: string, now: int, callbackId: JobId, w': World, id: JobId, p: JobId)
    requires Tidy(w) && Fresh(w, callbackId) && w' == AfterSubmit(w, b, now, callbackId)
    ensures Tidy(w')
    ensures Finished(w, p) ==> Finished(w', p)
    ensures Waits(w, id, p) ==> Waits(w', id, p)
  {
    var r := Ops.SubmitBatch(w.db, b, now, callbackId);
    assert r.Some? ==> w'.db == r.value.db && Ops.AddsCallbackOnly(w.db, r.value, callbackId);
  }

  lemma TidyWorkflow(w: World, envs: seq<Envelope>, now: int, w': World, id: JobId, p: JobId)
    requires Tidy(w) && DistinctIds(envs) && (forall env :: env in envs ==> Fresh(w, env.jobId))
    requires w' == AfterWorkflow(w, envs, now)
    ensures Tidy(w')
    ensures Finished(w, p) ==> Finished(w', p)
    ensures Waits(w, id, p) ==> Waits(w', id, p)
  {
    if w' != w {
      Workflow.WorkflowInserted(w.db, envs, now);
      Workflow.WorkflowDeclared(w.declared, envs);
      forall e | e in w'.db.deps
        ensures e.child in w'.declared && (e.child in w'.db.jobs ==> w'.db.jobs[e.child].status.Blocked?)
      {
        if e !in w.db.deps {
          var env, p :| env in envs && p in env.dependencies && e == Edge(env.jobId, p);
        }
      }
    }
  }

  lemma TidyRows(w: World, j: JobId, callbackId: JobId, w': World)
    requires Tidy(w) && IsRunning(w.db, j) && callbackId !in w.declared
    requires Ops.AckedRows(w.db, j, callbackId, w'.db)
    requires w.declared.Keys <= w'.declared.Keys && w'.db.jobs.Keys <= w'.declared.Keys
    ensures Tidy(w')
  {
  }

  lemma FinishedRows(w: World, j: JobId, callbackId: JobId, t: Database, p: JobId)
    requires Tidy(w) && IsRunning(w.db, j) && callbackId !in w.declared
    requires Ops.AckedRows(w.db, j, callbackId, t) && Finished(w, p)
    ensures p in t.jobs ==> !t.jobs[p].Live()
  {
  }

  lemma TidyAck(w: World, j: JobId, now: int, callbackId: JobId, w': World)
    requires Tidy(w) && IsRunning(w.db, j) && Fresh(w, callbackId) && w' == AfterAck(w, j, now, callbackId)
    ensures Tidy(w')
  {
    if w' != w {
      Ops.AckRows(w.db, j, now, callbackId);
      Ops.AckAddsCallback(w.db, j, now, callbackId);
      TidyRows(w, j, callbackId, w');
    }
  }

  lemma FinishedAck(w: World, j: JobId, now: int, callbackId: JobId, w': World, p: JobId)
    requires Tidy(w) && IsRunning(w.db, j) && Fresh(w, callbackId) && w' == AfterAck(w, j, now, callbackId)
    requires Finished(w, p)
    ensures Finished(w', p)
  {
    var r := Ops.Ack(w.db, j, now, callbackId);
    if r.Some? {
      Ops.AckRows(w.db, j, now, callbackId);
      FinishedRows(w, j, callbackId, r.value.db, p);
      assert w'.db == r.value.db;
    }
  }

  /** A running job is not finished, so its acknowledgement leaves the rows that name a finished parent alone. */
  lemma WaitsAck(w: World, j: JobId, now: int, callbackId: JobId, w': World, id: JobId, p: JobId)
    requires Tidy(w) && IsRunning(w.db, j) && Fresh(w, callbackId) && w' == AfterAck(w, j, now, callbackId)
    requires Waits(w, id, p)
    ensures Waits(w', id, p)
  {
    FinishedAck(w, j, now, callbackId, w', p);
    if w' != w {
      Ops.AckRows(w.db, j, now, callbackId);
    }
  }

  /** The acknowledgement of a job without a row deletes its dependency rows and frees whom nothing else holds back. */
  lemma LateAck(w: World, j: JobId, now: int, callbackId: JobId, w': World, id: JobId, p: JobId)
    requires Tidy(w) && j !in w.db.jobs && w' == AfterAck(w, j, now, callbackId)
    ensures Tidy(w')
    ensures Finished(w, p) ==> Finished(w', p)
    ensures Waits(w, id, p) && j != p ==> Waits(w', id, p)
  {
    var t := Ops.ResolveDependencies(w.db, j);
    assert w'.db == t && w'.declared == w.declared;
    assert Waits(w, id, p) && j != p ==> Edge(id, p) in t.deps && Edge(id, p).child == id;
  }

  /** The one thing that can free such a child: the parent's row is gone and a worker that held it still reports. */
  lemma LateAckFreesIff(w: World, id: JobId, p: JobId, now: int, callbackId: JobId)
    requires Tidy(w) && Waits(w, id, p) && p !in w.db.jobs
    ensures var w' := AfterAck(w, p, now, callbackId);
            && id in w'.db.jobs
            && (w'.db.jobs[id].status.Pending? <==> forall e :: e in w.db.deps && e.child == id ==> e.parent == p)
  {
    var t := Ops.ResolveDependencies(w.db, p);
    assert Edge(id, p).child == id && id in Children(w.db.deps, p);
    if e :| e in w.db.deps && e.child == id && e.parent != p {
      assert e in t.deps;
    }
  }

  lemma TidyKill(w: World, op: Op, w': World, id: JobId, p: JobId)
    requires Tidy(w) && Allowed(w, op) && Next(w, op, w') && (op.Fail? || op.Cancel?)
    ensures Tidy(w')
    ensures Finished(w, p) ==> Finished(w', p)
    ensures Waits(w, id, p) ==> Waits(w', id, p) || (id in w'.db.jobs ==> w'.db.jobs[id].status.Dead?)
  {
  }

  lemma TidyOther(w: World, op: Op, w': World, id: JobId, p: JobId)
    requires Tidy(w) && Allowed(w, op) && Next(w, op, w')
    requires op.Dequeue? || op.Postpone? || op.FailExpiredBatches? || op.Forget?
    ensures Tidy(w')
    ensures Finished(w, p) ==> Finished(w', p)
    ensures Waits(w, id, p) ==> Waits(w', id, p)
  {
  }

  /** Waiting for a finished parent, or dead, or deleted. */
  ghost predicate NeverRuns(w: World, id: JobId, p: JobId) {
    Tidy(w) && (Waits(w, id, p) || Finished(w, id))
  }

  lemma Step(w: World, op: Op, w': World, id: JobId, p: JobId)
    requires NeverRuns(w, id, p) && Allowed(w, op) && Next(w, op, w') && (op.Ack? ==> op.id != p)
    ensures NeverRuns(w', id, p)
  {
    match op
    case EnqueueWorkflow(envs, now) =>
      TidyWorkflow(w, envs, now, w', id, p);
      TidyWorkflow(w, envs, now, w', p, id);
    case SubmitBatch(b, now, callbackId) =>
      TidySubmit(w, b, now, callbackId, w', id, p);
      TidySubmit(w, b, now, callbackId, w', p, id);
    case Ack(j, now, callbackId) =>
      if j in w.db.jobs {
        TidyAck(w, j, now, callbackId, w');
        if Waits(w, id, p) {
          WaitsAck(w, j, now, callbackId, w', id, p);
        } else {
          FinishedAck(w, j, now, callbackId, w', id);
        }
      } else {
        LateAck(w, j, now, callbackId, w', id, p);
        LateAck(w, j, now, callbackId, w', p, id);
      }
    case Fail(_, _) => KillStep(w, op, w', id, p);
    case Cancel(_) => KillStep(w, op, w', id, p);
    case Enqueue(_, _) =>
      TidyInsert(w, op, w', id, p);
      TidyInsert(w, op, w', p, id);
    case EnqueueInBatch(_, _, _) =>
      TidyInsert(w, op, w', id, p);
      TidyInsert(w, op, w', p, id);
    case CreateBatch(_, _, _, _) =>
      TidyInsert(w, op, w', id, p);
      TidyInsert(w, op, w', p, id);
    case _ =>
      TidyOther(w, op, w', id, p);
      TidyOther(w, op, w', p, id);
  }

  lemma KillStep(w: World, op: Op, w': World, id: JobId, p: JobId)
    requires NeverRuns(w, id, p) && Allowed(w, op) && Next(w, op, w') && (op.Fail? || op.Cancel?)
    ensures NeverRuns(w', id, p)
  {
    TidyKill(w, op, w', id, p);
    TidyKill(w, op, w', p, id);
    assert Waits(w, id, p) ==> id in w.declared && w'.declared == w.declared;
  }

  /** Nobody reports success of `p` any more. */
  ghost predicate NeverAcked(ops: seq<Op>, p: JobId) {
    forall op :: op in ops && op.Ack? ==> op.id != p
  }

  ghost predicate IsSegment(ws: seq<World>, ops: seq<Op>)
  {
    && |ws| == |ops| + 1
    && forall i {:trigger ops[i]} :: 0 <= i < |ops| ==> Allowed(ws[i], ops[i]) && Next(ws[i], ops[i], ws[i + 1])
  }

  lemma {:induction false} Forever(ws: seq<World>, ops: seq<Op>, n: nat, id: JobId, p: JobId)
    requires IsSegment(ws, ops) && NeverAcked(ops, p) && n < |ws| && NeverRuns(ws[0], id, p)
    ensures NeverRuns(ws[n], id, p)
    decreases n
  {
    if n > 0 {
      Forever(ws, ops, n - 1, id, p);
      Step(ws[n - 1], ops[n - 1], ws[n], id, p);
    }
  }

  /**
   * A workflow job that names a parent which has already finished is committed all the same, and then never becomes
   * pending or running in any continuation: the parent's acknowledgement is over and will not release it. Only a
   * worker that still holds a parent cancelled under it could, see `LateAckFreesIff`.
   */
  lemma LateChildNeverRuns(w: World, envs: seq<Envelope>, now: int, env: Envelope, p: JobId, ws: seq<World>,
                           ops: seq<Op>, n: nat)
    requires Workflow.Inv(w) && DistinctIds(envs) && (forall e :: e in envs ==> Fresh(w, e.jobId))
    requires env in envs && p in env.dependencies && Finished(w, p)
    requires Ops.EnqueueWorkflow(w.db, envs, now).Some?
    requires IsSegment(ws, ops) && NeverAcked(ops, p) && ws[0] == AfterWorkflow(w, envs, now) && n < |ws|
    ensures env.jobId in ws[n].db.jobs ==> ws[n].db.jobs[env.jobId].status.Blocked? || !ws[n].db.jobs[env.jobId].Live()
  {
    TidyWorkflow(w, envs, now, ws[0], env.jobId, p);
    Workflow.WorkflowInserted(w.db, envs, now);
    assert Edge(env.jobId, p) in ws[0].db.deps;
    Forever(ws, ops, n, env.jobId, p);
    if Waits(ws[n], env.jobId, p) {
      assert Edge(env.jobId, p).child == env.jobId;
    }
  }
}
