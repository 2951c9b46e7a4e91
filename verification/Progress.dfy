/** How jobs move from status to status: which call may move a job where, and that reports do. */
module Progress {
  import opened Graph
  import opened Tables
  import opened Cascade
  import Ops = Operations
  import opened Runs
  import Workflow = WorkflowSafety
  import Batch = SqlBatch
  import Lifecycle
  import opened Requests
  import opened Schedule

  /**
   * A waiting job is taken by Dequeue; the worker that took it hands it back or finishes it; a blocked job waits
   * once a parent it was declared with is acknowledged; and a job dies of a failure or cancellation of its own, or of
   * one above it.
   */
  ghost predicate MayMove(w: World, op: Op, id: JobId, from: Status, to: Status) {
    match (from, to)
    case (Pending, Running) => op.Dequeue?
    case (Running, Pending) => Moves(op, id)
    case (Running, Processed) => op.Ack? && op.id == id
    case (Running, Dead) => op.Fail? && op.id == id
    case (Blocked, Pending) => op.Ack? && id in w.declared && op.id in w.declared[id]
    case (Blocked, Dead) => (op.Fail? || op.Cancel?) && Reach(w.db.deps, op.id, id)
    case _ => from == to
  }

  ghost predicate MovesAsMay(w: World, op: Op, w': World, id: JobId) {
    id in w.db.jobs && id in w'.db.jobs ==> MayMove(w, op, id, w.db.jobs[id].status, w'.db.jobs[id].status)
  }

  lemma EnqueueMoves(w: World, op: Op, w': World, id: JobId)
    requires Allowed(w, op) && Next(w, op, w') && (op.Enqueue? || op.EnqueueInBatch? || op.EnqueueWorkflow?)
    ensures MovesAsMay(w, op, w', id)
  {
    if op.EnqueueWorkflow? && w' != w {
      Workflow.WorkflowInserted(w.db, op.envs, op.now);
    }
  }

  lemma SubmitMoves(w: World, op: Op, w': World, id: JobId)
    requires op.SubmitBatch? && w' == AfterSubmit(w, op.batchId, op.now, op.callbackId)
    ensures MovesAsMay(w, op, w', id)
  {
    var r := Ops.SubmitBatch(w.db, op.batchId, op.now, op.callbackId);
    assert r.Some? ==> w'.db == r.value.db && Ops.AddsCallbackOnly(w.db, r.value, op.callbackId);
  }

  lemma DequeueMoves(w: World, op: Op, w': World, id: JobId)
    requires Allowed(w, op) && Next(w, op, w') && op.Dequeue?
    ensures MovesAsMay(w, op, w', id)
  {
  }

  /** The rows after an acknowledgement: only children of the job are set to pending. */
  lemma ResolvedRow(db: Database, parent: JobId, now: int, callbackId: JobId, id: JobId)
    requires parent in db.jobs && id in db.jobs && Ops.Ack(db, parent, now, callbackId).Some?
    ensures var t := Ops.Ack(db, parent, now, callbackId).value.db;
            && id in t.jobs
            && (t.jobs[id].status == (if id == parent then Processed else db.jobs[id].status)
                || (Edge(id, parent) in db.deps && t.jobs[id].status.Pending?))
  {
    var t := Ops.ResolveDependencies(Ops.MarkProcessed(db, parent), parent);
    assert t.jobs.Keys == db.jobs.Keys;
  }

  lemma AckMoves(w: World, op: Op, w': World, id: JobId)
    requires Workflow.Inv(w) && op.Ack? && IsRunning(w.db, op.id)
    requires w' == AfterAck(w, op.id, op.now, op.callbackId)
    ensures MovesAsMay(w, op, w', id)
  {
    var r := Ops.Ack(w.db, op.id, op.now, op.callbackId);
    if r.Some? && id in w.db.jobs {
      ResolvedRow(w.db, op.id, op.now, op.callbackId, id);
      assert w'.db == r.value.db;
      if Edge(id, op.id) in w.db.deps {
        assert w.db.jobs[id].status.Blocked?;
      }
    }
  }

  lemma FailMoves(w: World, op: Op, w': World, id: JobId)
    requires Workflow.Inv(w) && op.Fail? && IsRunning(w.db, op.id) && AfterFail(w, op.id, op.nextRun, w')
    ensures MovesAsMay(w, op, w', id)
  {
    if Ops.LastAttempt(w.db.jobs[op.id]) && id in w.db.jobs && id != op.id {
      KilledExactly(w.db, op.id, w'.db);
      Below(w, op.id, id);
    }
  }

  /** What is below a job is blocked, if it is still there. */
  lemma Below(w: World, root: JobId, id: JobId)
    requires Workflow.Inv(w) && id in w.db.jobs
    ensures Reach(w.db.deps, root, id) ==> w.db.jobs[id].status.Blocked?
  {
    if Reach(w.db.deps, root, id) {
      DescendantsAre(w.db.deps, root, id);
      var e :| e in w.db.deps && e.child == id;
    }
  }

  lemma CancelMoves(w: World, op: Op, w': World, id: JobId)
    requires Workflow.Inv(w) && op.Cancel? && Ops.Cancel(w.db, op.id, w'.db)
    ensures MovesAsMay(w, op, w', id)
  {
    if id in w.db.jobs && id in w'.db.jobs {
      Ops.CancelledExactly(w.db, op.id, w'.db);
      Below(w, op.id, id);
    }
  }

  lemma StepMoves(w: World, op: Op, w': World, id: JobId)
    requires Workflow.Inv(w) && Allowed(w, op) && Next(w, op, w')
    ensures MovesAsMay(w, op, w', id)
  {
    if Workflow.IsLateReport(w, op) {
      Workflow.LateReport(w, op, w');
      return;
    }
    match op
    case Enqueue(_, _) => EnqueueMoves(w, op, w', id);
    case EnqueueInBatch(_, _, _) => EnqueueMoves(w, op, w', id);
    case EnqueueWorkflow(_, _) => EnqueueMoves(w, op, w', id);
    case SubmitBatch(_, _, _) => SubmitMoves(w, op, w', id);
    case Dequeue(_, _, _, _) => DequeueMoves(w, op, w', id);
    case Ack(_, _, _) => AckMoves(w, op, w', id);
    case Fail(_, _) => FailMoves(w, op, w', id);
    case Cancel(_) => CancelMoves(w, op, w', id);
    case _ =>
  }

  /** In every run a job moves only as it may, and a finished one never again. */
  lemma MovesOnlyAsMay(ws: seq<World>, ops: seq<Op>, n: nat, id: JobId)
    requires IsRun(ws, ops) && n < |ops| && id in ws[n].db.jobs && id in ws[n + 1].db.jobs
    ensures MayMove(ws[n], ops[n], id, ws[n].db.jobs[id].status, ws[n + 1].db.jobs[id].status)
  {
    Workflow.EveryRun(ws, ops, n);
    StepMoves(ws[n], ops[n], ws[n + 1], id);
  }

  /** A row goes only when its job is cancelled or, finished, archived. */
  lemma RowsGo(ws: seq<World>, ops: seq<Op>, n: nat, id: JobId)
    requires IsRun(ws, ops) && n < |ops| && id in ws[n].db.jobs && id !in ws[n + 1].db.jobs
    ensures ops[n] == Cancel(id) || (ops[n].Forget? && id in ops[n].ids && !ws[n].db.jobs[id].Live())
  {
    var w, op, w' := ws[n], ops[n], ws[n + 1];
    Workflow.EveryRun(ws, ops, n);
    assert Allowed(w, op) && Next(w, op, w');
    if Workflow.IsLateReport(w, op) {
      Workflow.LateReport(w, op, w');
    } else if op.Ack? {
      KeptByAck(w, op, w', id);
    } else if op.Enqueue? || op.EnqueueInBatch? || op.EnqueueWorkflow? || op.SubmitBatch? {
      KeptByEnqueue(w, op, w', id);
    }
  }

  lemma KeptByEnqueue(w: World, op: Op, w': World, id: JobId)
    requires Allowed(w, op) && Next(w, op, w') && id in w.db.jobs
    requires op.Enqueue? || op.EnqueueInBatch? || op.EnqueueWorkflow? || op.SubmitBatch?
    ensures id in w'.db.jobs
  {
    if op.SubmitBatch? {
      var r := Ops.SubmitBatch(w.db, op.batchId, op.now, op.callbackId);
      assert r.Some? ==> w'.db == r.value.db && Ops.AddsCallbackOnly(w.db, r.value, op.callbackId);
    } else if op.EnqueueWorkflow? && w' != w {
      Workflow.WorkflowInserted(w.db, op.envs, op.now);
    }
  }

  lemma KeptByAck(w: World, op: Op, w': World, id: JobId)
    requires op.Ack? && op.id in w.db.jobs && w' == AfterAck(w, op.id, op.now, op.callbackId) && id in w.db.jobs
    ensures id in w'.db.jobs
  {
    var r := Ops.Ack(w.db, op.id, op.now, op.callbackId);
    if r.Some? {
      ResolvedRow(w.db, op.id, op.now, op.callbackId, id);
      assert w'.db == r.value.db;
    }
  }

  // Reports take effect

  /** In every run, a job that has not died is blocked exactly while a parent it was declared with is unacknowledged. */
  lemma BlockedIffUnacknowledged(ws: seq<World>, ops: seq<Op>, n: nat, id: JobId)
    requires IsRun(ws, ops) && n < |ws| && id in ws[n].db.jobs && !ws[n].db.jobs[id].status.Dead?
    ensures id in ws[n].declared
    ensures ws[n].db.jobs[id].status.Blocked? <==> !(ws[n].declared[id] <= ws[n].acked)
  {
    Workflow.EveryRun(ws, ops, n);
    var w := ws[n];
    assert Workflow.RowOk(w.db.deps, w.declared[id], w.acked, id, w.db.jobs[id].status);
    if w.db.jobs[id].status.Blocked? {
      var e :| e in w.db.deps && e.child == id;
      assert Workflow.RowOk(w.db.deps, w.declared[e.parent], w.acked, e.parent, w.db.jobs[e.parent].status);
    }
  }

  lemma AckAccepted(db: Database, id: JobId, now: int, callbackId: JobId)
    requires id in db.jobs && callbackId !in db.jobs
    requires db.jobs[id].batchId != "" ==> db.jobs[id].batchId in db.batches
    ensures Ops.Ack(db, id, now, callbackId).Some?
  {
    var t := Ops.ResolveDependencies(Ops.MarkProcessed(db, id), id);
    assert t.jobs.Keys == db.jobs.Keys && t.batches == db.batches;
  }

  /** An acknowledgement of a job that has a row is never refused: the job is finished, and known to be. */
  lemma AckFinishes(ws: seq<World>, ops: seq<Op>, n: nat)
    requires IsRun(ws, ops) && n < |ops| && ops[n].Ack? && ops[n].id in ws[n].db.jobs
    ensures ws[n + 1].acked == ws[n].acked + {ops[n].id}
    ensures ops[n].id in ws[n + 1].db.jobs && ws[n + 1].db.jobs[ops[n].id].status.Processed?
  {
    var w, op := ws[n], ops[n];
    Batch.EveryRun(ws, ops, n);
    assert Allowed(w, op) && Next(w, op, ws[n + 1]);
    AckAccepted(w.db, op.id, op.now, op.callbackId);
    ResolvedRow(w.db, op.id, op.now, op.callbackId, op.id);
    Workflow.EveryRun(ws, ops, n + 1);
  }

  /** Whoever is given a time waits for it at once, apart from workflow jobs that have parents. */
  lemma StartsWaiting(ws: seq<World>, ops: seq<Op>, k: nat, id: JobId, t: int)
    requires IsRun(ws, ops) && SetsTime(ws, ops, k, id, t)
    ensures ws[k + 1].db.jobs[id].status.Pending? ||
            (ops[k].EnqueueWorkflow? && ws[k + 1].db.jobs[id].status.Blocked? &&
             exists env :: env in ops[k].envs && env.jobId == id && env.dependencies != [])
  {
    assert Allowed(ws[k], ops[k]) && Next(ws[k], ops[k], ws[k + 1]);
    if a :| Asks(ws, ops, k, id, a) && a.at == t {
      NewWaits(ws, ops, k, id, a);
    } else if ops[k].Fail? {
      Lifecycle.DiesOnLastFailure(ws, ops, k);
    }
  }

  lemma NewWaits(ws: seq<World>, ops: seq<Op>, k: nat, id: JobId, a: Ask)
    requires IsRun(ws, ops) && Asks(ws, ops, k, id, a)
    ensures ws[k + 1].db.jobs[id].status.Pending? ||
            (ops[k].EnqueueWorkflow? && ws[k + 1].db.jobs[id].status.Blocked? &&
             exists env :: env in ops[k].envs && env.jobId == id && env.dependencies != [])
  {
    var w, op, w' := ws[k], ops[k], ws[k + 1];
    assert Allowed(w, op) && Next(w, op, w');
    match op
    case EnqueueWorkflow(envs, now) =>
      Workflow.WorkflowInserted(w.db, envs, now);
    case SubmitBatch(b, now, callbackId) =>
      var r := Ops.SubmitBatch(w.db, b, now, callbackId);
      assert r.Some? && w'.db == r.value.db;
      SubmitCallback(w.db, b, now, callbackId, r.value);
    case Ack(_, _, _) => AckedRowBy(ws, ops, k);
    case _ =>
  }

  /** Between call `k` and the state before call `m` nobody is handed the job. */
  ghost predicate NotTaken(ws: seq<World>, ops: seq<Op>, k: nat, m: nat, id: JobId)
    requires |ws| == |ops| + 1 && m <= |ops|
  {
    forall j: nat {:trigger HandsOut(ws, ops, j, id)} :: k < j < m ==> !HandsOut(ws, ops, j, id)
  }

  lemma {:induction false} StaysPending(ws: seq<World>, ops: seq<Op>, k: nat, m: nat, id: JobId)
    requires IsRun(ws, ops) && k < m < |ws| && NotTaken(ws, ops, k, m, id) && id in ws[m].db.jobs
    requires id in ws[k + 1].db.jobs && ws[k + 1].db.jobs[id].status.Pending?
    ensures ws[m].db.jobs[id].status.Pending? && Unmoved(ops, k, m, id)
    decreases m
  {
    if m > k + 1 {
      KnownSince(ws, ops, k + 1, m - 1, id);
      StepKeeps(ws[m - 1], ops[m - 1], ws[m], id);
      StaysPending(ws, ops, k, m - 1, id);
      MovesOnlyAsMay(ws, ops, m - 1, id);
      assert Allowed(ws[m - 1], ops[m - 1]) && !HandsOut(ws, ops, m - 1, id);
    }
  }

  /**
   * From the time on that its last enqueue, failure or postponement set, a job waits in the queue, and for the workers,
   * that its enqueue asked for, as long as nobody is handed it and its row is there.
   */
  lemma WaitsUntilTaken(ws: seq<World>, ops: seq<Op>, i: nat, k: nat, m: nat, id: JobId, a: Ask, t: int)
    requires IsRun(ws, ops) && Asks(ws, ops, i, id, a) && SetsTime(ws, ops, k, id, t) && Readable(a.tags)
    requires ws[k + 1].db.jobs[id].status.Pending?
    requires i < m && k < m < |ws| && NotTaken(ws, ops, k, m, id) && id in ws[m].db.jobs
    ensures Waits(ws[m].db, id, a.queue, t, a.tags)
  {
    StaysPending(ws, ops, k, m, id);
    DueFrom(ws, ops, i, k, m, id, a, t);
  }
}
