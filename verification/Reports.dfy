/**
 * Reports on jobs, and cancellations. Ack, Fail and Cancel read columns of the row first and go by them in a
 * transaction of their own, before which others may come in between.
 */
module Reports {
  import opened Graph
  import opened Tables
  import opened Cascade
  import Ops = Operations
  import opened Runs
  import Workflow = WorkflowSafety

  datatype Kind = Acks | Fails | Cancels

  /** A call between its read and its transaction; `read` is `None` when there was no row. */
  datatype Report = Report(kind: Kind, id: JobId, read: Option<Columns>) {
    function Seen(): Columns {
      Ops.OrEmpty(read)
    }
  }

  function AfterAckWith(w: World, id: JobId, c: Columns, now: int, callbackId: JobId): World {
    var r := Ops.AckWith(w.db, id, c, now, callbackId);
    if r.None? then w
    else
      var done := if id in w.db.jobs then {id} else {};
      WithEffect(w, r.value, c.batchId, callbackId).(acked := w.acked + done)
  }

  /** The transaction of the call. */
  ghost predicate Performs(w: World, r: Report, now: int, nextRun: int, callbackId: JobId, w': World)
  {
    match r.kind
    case Acks => w' == AfterAckWith(w, r.id, r.Seen(), now, callbackId)
    case Fails =>
      && Ops.FailWith(w.db, r.id, r.Seen(), nextRun, w'.db)
      && w' == w.(db := w'.db, failures := if r.id in w.db.jobs then Bump(w.failures, r.id) else w.failures)
    case Cancels => Ops.CancelWith(w.db, r.id, r.Seen(), w'.db) && w' == w.(db := w'.db)
  }

  function OpOf(r: Report, now: int, nextRun: int, callbackId: JobId): Op {
    match r.kind
    case Acks => Ack(r.id, now, callbackId)
    case Fails => Fail(r.id, nextRun)
    case Cancels => Cancel(r.id)
  }

  /** What the call has read is what it would read now. */
  predicate UpToDate(db: Database, r: Report) {
    if r.kind.Fails? then r.id in db.jobs && r.read == Ops.ReadColumns(db.jobs, r.id)
    else ReadsRow(db.jobs, r.id, r.Seen())
  }

  /** The row was cancelled or purged since the call read it. */
  predicate Stale(db: Database, r: Report) {
    r.read.Some? && r.id !in db.jobs
  }

  /** While the row is as the call read it, the transaction is the step that reads and writes at once. */
  lemma UpToDateIsStep(w: World, r: Report, now: int, nextRun: int, callbackId: JobId, w': World)
    requires UpToDate(w.db, r) && Performs(w, r, now, nextRun, callbackId, w')
    ensures Next(w, OpOf(r, now, nextRun, callbackId), w')
  {
    match r.kind
    case Acks => Ops.AckByRow(w.db, r.id, r.Seen(), now, callbackId);
    case Fails => Ops.FailByRow(w.db, r.id, r.Seen(), nextRun, w'.db);
    case Cancels => Ops.CancelByRow(w.db, r.id, r.Seen(), w'.db);
  }

  // Out of date

  /** Nobody waits for a job that has finished or has no row. */
  lemma NothingBelow(w: World, id: JobId)
    requires Workflow.EdgesOk(w.db, w.declared) && (id in w.db.jobs ==> !w.db.jobs[id].Live())
    ensures Descendants(w.db.deps, id) == {} && Children(w.db.deps, id) == {}
  {
    forall d ensures d !in Descendants(w.db.deps, id) {
      DescendantsAre(w.db.deps, id, d);
      if Reach(w.db.deps, id, d) {
        var c := ReachFirst(w.db.deps, id, d);
      }
    }
  }

  function Released(db: Database, c: Columns): Database {
    db.(locks := ReleaseLock(db.locks, c.queue, c.uniqueKey))
  }

  /** The call acknowledges a member of a batch, as it has read. */
  predicate CountsDown(db: Database, r: Report) {
    r.kind.Acks? && r.Seen().batchId != "" && r.Seen().batchId in db.batches
  }

  /** The transaction of the call releases the key it has read, whoever holds it. */
  predicate FreesKey(db: Database, r: Report) {
    && r.Seen().uniqueKey != ""
    && (r.kind.Fails? ==> r.Seen().attempts + 1 >= GetMaxAttempts(r.Seen().maxAttempts))
    && (r.kind.Acks? && r.Seen().batchId != "" ==> r.Seen().batchId in db.batches)
  }

  function FreedKey(r: Report): string {
    LockKey(r.Seen().queue, r.Seen().uniqueKey)
  }

  /** What a call does to the tables whose row has gone, if it counts no batch down. */
  function StaleTables(db: Database, r: Report): (t: Database)
    ensures t.jobs == db.jobs && t.deps == db.deps && t.batches.Keys == db.batches.Keys
  {
    var c := r.Seen();
    match r.kind
    case Acks => if c.batchId == "" then Released(db, c) else db
    case Fails =>
      if c.attempts + 1 < GetMaxAttempts(c.maxAttempts) then db
      else Released(db, c).(batches := FailBatch(db.batches, c.batchId))
    case Cancels => Released(db, c)
  }

  /** It releases the key all the same, and counts the batch down or fails it. */
  function AfterStale(w: World, r: Report, now: int, callbackId: JobId): World
  {
    if CountsDown(w.db, r) then
      var e := Ops.HandleBatchAck(Released(w.db, r.Seen()), r.Seen().batchId, now, callbackId);
      if e.None? then w else WithEffect(w, e.value, r.Seen().batchId, callbackId)
    else w.(db := StaleTables(w.db, r))
  }

  lemma StaleAck(w: World, id: JobId, c: Columns, now: int, callbackId: JobId)
    requires Workflow.EdgesOk(w.db, w.declared) && id !in w.db.jobs
    ensures Ops.ResolveDependencies(Ops.MarkProcessedWith(w.db, id, c), id) == Released(w.db, c)
  {
    NothingBelow(w, id);
    var t := Ops.ResolveDependencies(Ops.MarkProcessedWith(w.db, id, c), id);
    assert t.deps == w.db.deps;
    assert t.jobs == w.db.jobs;
  }

  lemma KilledNothingIs(s: Database, t: Database)
    ensures Killed(s, {}, {}, t) <==> t == s
  {
    KilledNothing(s);
    if Killed(s, {}, {}, t) {
      OrderIrrelevant(s, {}, {}, t, s);
      assert t.jobs == s.jobs;
    }
  }

  lemma StaleFail(s: Database, id: JobId, c: Columns, nextRun: int, t: Database)
    requires id !in s.jobs && Descendants(s.deps, id) == {}
    ensures Ops.FailWith(s, id, c, nextRun, t) <==>
            t == if c.attempts + 1 < GetMaxAttempts(c.maxAttempts) then s
                 else Released(s, c).(batches := FailBatch(s.batches, c.batchId))
  {
    var failed := Released(s, c).(batches := FailBatch(s.batches, c.batchId));
    assert BuryRow(s, id, c).(batches := FailBatch(s.batches, c.batchId)) == failed;
    KilledNothingIs(failed, t);
  }

  lemma StaleCancel(s: Database, id: JobId, c: Columns, t: Database)
    requires id !in s.jobs && Descendants(s.deps, id) == {}
    ensures Ops.CancelWith(s, id, c, t) <==> t == Released(s, c)
  {
    assert s.jobs - {id} == s.jobs;
    assert Ops.DeleteWith(s, id, c) == Released(s, c);
    KilledNothingIs(Released(s, c), t);
  }

  lemma StaleDoes(w: World, r: Report, now: int, nextRun: int, callbackId: JobId, w': World)
    requires Workflow.EdgesOk(w.db, w.declared) && r.id !in w.db.jobs
    ensures Performs(w, r, now, nextRun, callbackId, w') <==> w' == AfterStale(w, r, now, callbackId)
  {
    NothingBelow(w, r.id);
    match r.kind
    case Acks =>
      StaleAck(w, r.id, r.Seen(), now, callbackId);
      StaleAcked(w, r, now, callbackId);
    case Fails => StaleFail(w.db, r.id, r.Seen(), nextRun, w'.db);
    case Cancels => StaleCancel(w.db, r.id, r.Seen(), w'.db);
  }

  lemma StaleAcked(w: World, r: Report, now: int, callbackId: JobId)
    requires r.kind.Acks? && r.id !in w.db.jobs
    requires Ops.ResolveDependencies(Ops.MarkProcessedWith(w.db, r.id, r.Seen()), r.id) == Released(w.db, r.Seen())
    ensures AfterAckWith(w, r.id, r.Seen(), now, callbackId) == AfterStale(w, r, now, callbackId)
  {
    var freed, b := Released(w.db, r.Seen()), r.Seen().batchId;
    if b != "" {
      var e := Ops.HandleBatchAck(freed, b, now, callbackId);
      if e.Some? {
        NoneAcked(w, e.value, b, callbackId);
      }
    } else {
      NoneAcked(w, Ops.Effect(freed, false), b, callbackId);
    }
  }

  lemma NoneAcked(w: World, e: Ops.Effect, b: string, callbackId: JobId)
    ensures WithEffect(w, e, b, callbackId).(acked := w.acked + {}) == WithEffect(w, e, b, callbackId)
    ensures !e.fired ==> WithEffect(w, e, b, callbackId) == w.(db := e.db)
  {
    assert w.acked + {} == w.acked;
  }

  /** Apart from locks and batches, at most the callback is new, and it is declared. */
  ghost predicate AddsAtMost(w: World, callbackId: JobId, w': World)
  {
    && w'.db.deps == w.db.deps && w'.acked == w.acked
    && (|| (w'.db.jobs == w.db.jobs && w'.declared == w.declared)
        || (&& w'.db.jobs.Keys == w.db.jobs.Keys + {callbackId} && w'.db.jobs[callbackId].status.Pending?
            && w'.db.jobs[callbackId].uniqueKey == ""
            && (forall id :: id in w.db.jobs ==> w'.db.jobs[id] == w.db.jobs[id])
            && w'.declared == w.declared[callbackId := {}]))
  }

  lemma EffectAddsAtMost(w: World, s: Database, e: Ops.Effect, b: string, callbackId: JobId, w': World)
    requires s.jobs == w.db.jobs && s.deps == w.db.deps
    requires Ops.AddsCallbackOnly(s, e, callbackId) && w' == WithEffect(w, e, b, callbackId)
    ensures AddsAtMost(w, callbackId, w')
  {
  }

  lemma TablesAddNothing(w: World, t: Database, callbackId: JobId)
    requires t.jobs == w.db.jobs && t.deps == w.db.deps
    ensures AddsAtMost(w, callbackId, w.(db := t))
  {
  }

  lemma StaleAddsAtMost(w: World, r: Report, now: int, callbackId: JobId, w': World)
    requires Fresh(w, callbackId) && w' == AfterStale(w, r, now, callbackId)
    ensures AddsAtMost(w, callbackId, w')
  {
    if CountsDown(w.db, r) {
      var freed := Released(w.db, r.Seen());
      var e := Ops.HandleBatchAck(freed, r.Seen().batchId, now, callbackId);
      if e.Some? {
        EffectAddsAtMost(w, freed, e.value, r.Seen().batchId, callbackId, w');
      } else {
        TablesAddNothing(w, w.db, callbackId);
      }
    } else {
      TablesAddNothing(w, StaleTables(w.db, r), callbackId);
    }
  }

  lemma TablesKeepWorkflow(w: World, t: Database)
    requires Workflow.Inv(w) && t.jobs == w.db.jobs && t.deps == w.db.deps
    ensures Workflow.Inv(w.(db := t))
  {
    Workflow.SameStatuses(w.db, t, w.declared, w.acked);
  }

  lemma StaleKeepsWorkflow(w: World, r: Report, now: int, callbackId: JobId, w': World)
    requires Workflow.Inv(w) && Fresh(w, callbackId) && w' == AfterStale(w, r, now, callbackId)
    ensures Workflow.Inv(w')
  {
    StaleAddsAtMost(w, r, now, callbackId, w');
    AddingKeepsWorkflow(w, callbackId, w');
  }

  lemma AddingKeepsWorkflow(w: World, callbackId: JobId, w': World)
    requires Workflow.Inv(w) && Fresh(w, callbackId) && AddsAtMost(w, callbackId, w')
    ensures Workflow.Inv(w')
  {
    if w'.db.jobs == w.db.jobs {
      Workflow.SameStatuses(w.db, w'.db, w.declared, w.acked);
    } else {
      Workflow.InsertFree(w.db, callbackId, w'.db, w.declared, w.acked);
    }
  }

  /** A cancellation that found no row, but meets one by now, deletes it and leaves its lock. */
  lemma BlindKeepsWorkflow(w: World, id: JobId, w': World)
    requires Workflow.Inv(w) && Ops.CancelWith(w.db, id, NO_COLUMNS, w'.db) && w' == w.(db := w'.db)
    ensures Workflow.Inv(w')
  {
    Workflow.Kill(w.db, id, w'.db, w.declared, w.acked);
  }

  // What a step leaves of a row

  /** No row appears under a known id, and what a cancellation reads of a row does not change. */
  ghost predicate KeepsColumns(w: World, w': World, id: JobId) {
    && id in w'.declared
    && (id in w'.db.jobs ==> id in w.db.jobs && SameColumns(ColumnsOf(w'.db.jobs[id]), ColumnsOf(w.db.jobs[id])))
  }

  /** The row is as it was or has gone, and no acknowledgement is recorded. */
  ghost predicate KeepsHeld(w: World, w': World, id: JobId) {
    && (id in w'.db.jobs ==> id in w.db.jobs && w'.db.jobs[id] == w.db.jobs[id])
    && (id in w'.acked ==> id in w.acked)
  }

  predicate ReportsOn(op: Op, id: JobId) {
    (op.Ack? || op.Fail? || op.Postpone?) && op.id == id
  }

  lemma WorkflowKeeps(w: World, envs: seq<Envelope>, now: int, w': World, id: JobId)
    requires DistinctIds(envs) && (forall env :: env in envs ==> Fresh(w, env.jobId)) && id in w.declared
    requires w' == AfterWorkflow(w, envs, now)
    ensures KeepsColumns(w, w', id) && KeepsHeld(w, w', id)
  {
    if Ops.EnqueueWorkflow(w.db, envs, now).Some? {
      Workflow.WorkflowInserted(w.db, envs, now);
      Workflow.WorkflowDeclared(w.declared, envs);
    }
  }

  lemma SubmitKeeps(w: World, b: string, now: int, callbackId: JobId, w': World, id: JobId)
    requires Fresh(w, callbackId) && w' == AfterSubmit(w, b, now, callbackId) && id in w.declared
    ensures KeepsColumns(w, w', id) && KeepsHeld(w, w', id)
  {
    var r := Ops.SubmitBatch(w.db, b, now, callbackId);
    assert r.Some? ==> w'.db == r.value.db && Ops.AddsCallbackOnly(w.db, r.value, callbackId);
  }

  lemma AckKeeps(w: World, j: JobId, now: int, callbackId: JobId, w': World, id: JobId)
    requires j in w.db.jobs && Fresh(w, callbackId) && w' == AfterAck(w, j, now, callbackId) && id in w.declared
    requires forall e :: e in w.db.deps && e.child in w.db.jobs ==> w.db.jobs[e.child].status.Blocked?
    ensures KeepsColumns(w, w', id)
    ensures HeldOrGone(w.db, id) && id != j ==> KeepsHeld(w, w', id)
  {
    var r := Ops.Ack(w.db, j, now, callbackId);
    if r.Some? {
      Ops.AckRows(w.db, j, now, callbackId);
      AckKeepsRow(w.db, j, callbackId, r.value.db, id);
      AckKeepsHistory(w, j, r.value, callbackId, w', id);
    }
  }

  lemma AckKeepsHistory(w: World, j: JobId, e: Ops.Effect, callbackId: JobId, w': World, id: JobId)
    requires w' == WithEffect(w, e, BatchIdOf(w.db.jobs, j), callbackId).(acked := w.acked + {j}) && id in w.declared
    ensures w'.db == e.db && id in w'.declared && (id in w'.acked && id != j ==> id in w.acked)
  {
  }

  lemma AckKeepsRow(s: Database, j: JobId, callbackId: JobId, t: Database, id: JobId)
    requires Ops.AckedRows(s, j, callbackId, t) && id != callbackId
    requires forall e :: e in s.deps && e.child in s.jobs ==> s.jobs[e.child].status.Blocked?
    ensures id in t.jobs ==> id in s.jobs && SameColumns(ColumnsOf(t.jobs[id]), ColumnsOf(s.jobs[id]))
    ensures id in t.jobs && s.jobs[id].status.Running? && id != j ==> t.jobs[id] == s.jobs[id]
  {
    assert id in s.jobs && s.jobs[id].status.Running? ==> id !in Children(s.deps, j);
  }

  lemma KillKeeps(w: World, op: Op, w': World, id: JobId)
    requires Workflow.EdgesOk(w.db, w.declared) && Next(w, op, w') && (op.Fail? || op.Cancel?) && id in w.declared
    ensures KeepsColumns(w, w', id)
    ensures HeldOrGone(w.db, id) && !ReportsOn(op, id) ==> KeepsHeld(w, w', id)
  {
  }

  lemma MovesKeep(w: World, op: Op, w': World, id: JobId)
    requires Allowed(w, op) && Next(w, op, w') && id in w.declared
    requires op.Dequeue? || op.Postpone? || op.Forget?
    ensures KeepsColumns(w, w', id)
    ensures HeldOrGone(w.db, id) && !ReportsOn(op, id) ==> KeepsHeld(w, w', id)
  {
  }

  lemma OthersKeep(w: World, op: Op, w': World, id: JobId)
    requires Allowed(w, op) && Next(w, op, w') && id in w.declared
    requires op.Enqueue? || op.EnqueueInBatch? || op.CreateBatch? || op.FailExpiredBatches?
    ensures KeepsColumns(w, w', id) && KeepsHeld(w, w', id)
  {
  }

  lemma StepKeeps(w: World, op: Op, w': World, id: JobId)
    requires Workflow.EdgesOk(w.db, w.declared) && Allowed(w, op) && Next(w, op, w') && id in w.declared
    ensures KeepsColumns(w, w', id)
    ensures HeldOrGone(w.db, id) && !ReportsOn(op, id) ==> KeepsHeld(w, w', id)
  {
    if Workflow.IsLateReport(w, op) {
      Workflow.LateReport(w, op, w');
      return;
    }
    match op
    case EnqueueWorkflow(envs, now) => WorkflowKeeps(w, envs, now, w', id);
    case SubmitBatch(b, now, callbackId) => SubmitKeeps(w, b, now, callbackId, w', id);
    case Ack(j, now, callbackId) => AckKeeps(w, j, now, callbackId, w', id);
    case Fail(_, _) => KillKeeps(w, op, w', id);
    case Cancel(_) => KillKeeps(w, op, w', id);
    case Dequeue(_, _, _, _) => MovesKeep(w, op, w', id);
    case Postpone(_, _) => MovesKeep(w, op, w', id);
    case Forget(_) => MovesKeep(w, op, w', id);
    case _ => OthersKeep(w, op, w', id);
  }

  lemma AddingKeeps(w: World, callbackId: JobId, w': World, id: JobId)
    requires Fresh(w, callbackId) && AddsAtMost(w, callbackId, w') && id in w.declared
    ensures KeepsColumns(w, w', id) && KeepsHeld(w, w', id)
  {
  }

  lemma BlindKeeps(w: World, j: JobId, w': World, id: JobId)
    requires Workflow.EdgesOk(w.db, w.declared) && id in w.declared
    requires Ops.CancelWith(w.db, j, NO_COLUMNS, w'.db) && w' == w.(db := w'.db)
    ensures KeepsColumns(w, w', id)
    ensures HeldOrGone(w.db, id) ==> KeepsHeld(w, w', id)
  {
  }

  lemma StaleLocks(w: World, r: Report, now: int, callbackId: JobId, w': World)
    requires callbackId !in w.db.jobs && w' == AfterStale(w, r, now, callbackId)
    ensures w'.db.locks == if FreesKey(w.db, r) then w.db.locks - {FreedKey(r)} else w.db.locks
  {
    if CountsDown(w.db, r) {
      var e := Ops.HandleBatchAck(Released(w.db, r.Seen()), r.Seen().batchId, now, callbackId);
      assert e.Some? && w'.db == e.value.db;
    }
  }
}
