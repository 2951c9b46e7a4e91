/** The batch protocol on the SQL storage: the counter, and how often the callback is enqueued. */
module SqlBatch {
  import opened Graph
  import opened Tables
  import opened Cascade
  import Ops = Operations
  import opened Runs
  import Workflow = WorkflowSafety

  /** The members of a batch that have not been acknowledged. */
  function Open(w: World, b: string): set<JobId> {
    set id | id in MembersOf(w, b) && id !in w.acked
  }

  ghost predicate CounterOk(w: World, b: string)
    requires b in w.db.batches
  {
    && w.db.batches[b].total == |MembersOf(w, b)|
    && w.db.batches[b].pending == |Open(w, b)|
  }

  ghost predicate IsSealed(w: World, b: string) {
    b in w.db.batches && w.db.batches[b].status.Sealed?
  }

  /** Each submission allows one callback, and a sealed batch has one left. */
  ghost predicate FiredOk(w: World) {
    forall b :: Count(w.fired, b) + One(IsSealed(w, b)) <= Count(w.submits, b)
  }

  /** Rows and member lists agree. */
  ghost predicate MembersOk(w: World)
  {
    && w.members.Keys == w.db.batches.Keys && "" !in w.members
    && (forall b :: b in w.members ==> w.members[b] <= w.declared.Keys)
    && (forall id :: id in w.db.jobs && w.db.jobs[id].batchId != "" ==> w.db.jobs[id].batchId in w.members)
    && forall id, b :: id in w.db.jobs && b in w.members ==> (id in w.members[b] <==> w.db.jobs[id].batchId == b)
  }

  ghost predicate CountersOk(w: World) {
    forall b :: b in w.db.batches ==> CounterOk(w, b)
  }

  ghost predicate Inv(w: World)
  {
    Workflow.Inv(w) && MembersOk(w) && CountersOk(w) && FiredOk(w)
  }

  /** A batch whose counter and members a step leaves alone. */
  lemma SameCounter(w: World, w': World, b: string)
    requires b in w.db.batches && CounterOk(w, b) && b in w'.db.batches
    requires MembersOf(w', b) == MembersOf(w, b) && Open(w', b) == Open(w, b)
    requires w'.db.batches[b].total == w.db.batches[b].total && w'.db.batches[b].pending == w.db.batches[b].pending
    ensures CounterOk(w', b)
  {
  }

  /** A step that leaves counters and histories alone and can only move batches to failed. */
  ghost predicate NoCounterMoves(w: World, w': World)
  {
    && w'.members == w.members && w'.acked == w.acked && w'.fired == w.fired && w'.submits == w.submits
    && w'.db.batches.Keys == w.db.batches.Keys
    && forall b :: b in w.db.batches ==>
         w'.db.batches[b] == w.db.batches[b] || w'.db.batches[b] == w.db.batches[b].(status := Failed)
  }

  lemma Unrelated(w: World, w': World)
    requires CountersOk(w) && FiredOk(w) && NoCounterMoves(w, w')
    ensures CountersOk(w') && FiredOk(w')
  {
    forall b | b in w'.db.batches ensures CounterOk(w', b) {
      SameCounter(w, w', b);
    }
  }

  lemma KillMovesNoCounter(w: World, op: Op, w': World)
    requires Next(w, op, w') && (op.Fail? || op.Cancel?)
    ensures NoCounterMoves(w, w')
  {
  }

  lemma WorkflowMovesNoCounter(w: World, envs: seq<Envelope>, now: int, w': World)
    requires Allowed(w, EnqueueWorkflow(envs, now)) && w' == AfterWorkflow(w, envs, now)
    ensures NoCounterMoves(w, w') && w'.db.batches == w.db.batches
  {
    if w' != w {
      Workflow.WorkflowInserted(w.db, envs, now);
    }
  }

  lemma OthersMoveNoCounter(w: World, op: Op, w': World)
    requires Next(w, op, w')
    requires op.Enqueue? || op.Dequeue? || op.Postpone? || op.FailExpiredBatches? || op.Forget?
    ensures NoCounterMoves(w, w')
  {
  }

  lemma JoinedCounter(w: World, b: string, id: JobId, w': World)
    requires b in w.db.batches && CounterOk(w, b) && b in w'.db.batches
    requires id !in MembersOf(w, b) && id !in w.acked && w'.acked == w.acked
    requires MembersOf(w', b) == MembersOf(w, b) + {id}
    requires w'.db.batches[b].total == w.db.batches[b].total + 1
    requires w'.db.batches[b].pending == w.db.batches[b].pending + 1
    ensures CounterOk(w', b)
  {
    assert Open(w', b) == Open(w, b) + {id};
  }

  /** A member joins the batch. */
  lemma Joined(w: World, b: string, id: JobId, w': World)
    requires CountersOk(w) && b in w.db.batches
    requires id !in MembersOf(w, b) && id !in w.acked
    requires w'.acked == w.acked && w'.members == w.members[b := MembersOf(w, b) + {id}]
    requires w'.db.batches == Ops.CountMember(w.db.batches, b)
    ensures CountersOk(w')
  {
    forall c | c in w'.db.batches ensures CounterOk(w', c) {
      if c == b {
        JoinedCounter(w, b, id, w');
      } else {
        SameCounter(w, w', c);
      }
    }
  }

  /** A member of the batch is acknowledged. */
  lemma Left(w: World, b: string, id: JobId, w': World)
    requires CountersOk(w) && b in w.db.batches
    requires id !in w.acked && forall c :: c in w.db.batches ==> (id in MembersOf(w, c) <==> c == b)
    requires w'.acked == w.acked + {id} && w'.members == w.members
    requires Ops.TouchesBatch(w.db, w'.db, b, w.db.batches[b].pending - 1)
    ensures CountersOk(w')
  {
    forall c | c in w'.db.batches ensures CounterOk(w', c) {
      assert CounterOk(w, c);
      if c == b {
        assert Open(w', b) == Open(w, b) - {id};
      } else {
        assert Open(w', c) == Open(w, c);
        SameCounter(w, w', c);
      }
    }
  }

  /** No counter moves, and nothing is acknowledged. */
  lemma Stayed(w: World, b: string, w': World)
    requires CountersOk(w) && b in w.db.batches
    requires w'.acked == w.acked && w'.members == w.members
    requires Ops.TouchesBatch(w.db, w'.db, b, w.db.batches[b].pending)
    ensures CountersOk(w')
  {
    forall c | c in w'.db.batches ensures CounterOk(w', c) {
      SameCounter(w, w', c);
    }
  }

  /** A job that belongs to no batch is acknowledged. */
  lemma AckedOutside(w: World, id: JobId, w': World)
    requires CountersOk(w)
    requires w'.acked == w.acked + {id} && w'.members == w.members && w'.db.batches == w.db.batches
    requires forall c :: c in w.db.batches ==> id !in MembersOf(w, c)
    ensures CountersOk(w')
  {
    forall c | c in w'.db.batches ensures CounterOk(w', c) {
      assert Open(w', c) == Open(w, c);
      SameCounter(w, w', c);
    }
  }

  /** What an effect on batch `b` does to the bound on callbacks. */
  lemma Fired(w: World, e: Ops.Effect, b: string, pending: int, submissions: nat, w': World)
    requires FiredOk(w) && b in w.db.batches && w'.db == e.db
    requires forall c :: Count(w'.fired, c) == Count(w.fired, c) + if e.fired && c == b then 1 else 0
    requires forall c :: Count(w'.submits, c) == Count(w.submits, c) + if c == b then submissions else 0
    requires Ops.TouchesBatch(w.db, e.db, b, pending)
    requires e.fired ==> e.db.batches[b].status.Completed?
    requires e.fired || e.db.batches[b].status.Sealed? ==> IsSealed(w, b) || submissions > 0
    ensures FiredOk(w')
  {
    forall c ensures Count(w'.fired, c) + One(IsSealed(w', c)) <= Count(w'.submits, c) {
      assert Count(w.fired, c) + One(IsSealed(w, c)) <= Count(w.submits, c);
    }
  }

  lemma BatchAdded(w: World, b: string, w': World)
    requires CountersOk(w) && b !in w.db.batches && b in w'.db.batches
    requires w'.acked == w.acked && w'.members == w.members[b := {}]
    requires w'.db.batches == w.db.batches[b := w'.db.batches[b]]
    requires w'.db.batches[b].total == 0 && w'.db.batches[b].pending == 0
    ensures CountersOk(w')
  {
    forall c | c in w'.db.batches ensures CounterOk(w', c) {
      if c == b {
        assert Open(w', c) == {};
      } else {
        SameCounter(w, w', c);
      }
    }
  }

  lemma CreateBatchCounters(w: World, b: string, queue: string, name: string, expiresAt: Option<int>, w': World)
    requires CountersOk(w) && w' == AfterCreateBatch(w, b, queue, name, expiresAt)
    ensures CountersOk(w')
  {
    if w' != w {
      BatchAdded(w, b, w');
    }
  }

  lemma CreateBatchFired(w: World, b: string, queue: string, name: string, expiresAt: Option<int>, w': World)
    requires FiredOk(w) && w' == AfterCreateBatch(w, b, queue, name, expiresAt)
    ensures FiredOk(w')
  {
  }

  lemma SubmitCounters(w: World, b: string, now: int, callbackId: JobId, w': World)
    requires CountersOk(w) && w' == AfterSubmit(w, b, now, callbackId)
    ensures CountersOk(w')
  {
    if Ops.SubmitBatch(w.db, b, now, callbackId).Some? {
      Stayed(w, b, w');
    }
  }

  lemma SubmitFired(w: World, b: string, now: int, callbackId: JobId, w': World)
    requires FiredOk(w) && w' == AfterSubmit(w, b, now, callbackId)
    ensures FiredOk(w')
  {
    var r := Ops.SubmitBatch(w.db, b, now, callbackId);
    if r.Some? {
      Fired(w, r.value, b, w.db.batches[b].pending, 1, w');
    }
  }

  /** What an acknowledgement does to the batches and the history. */
  lemma AckShape(w: World, id: JobId, now: int, callbackId: JobId, w': World)
    requires id in w.db.jobs && w' == AfterAck(w, id, now, callbackId) && w' != w
    ensures w'.acked == w.acked + {id} && w'.members == w.members && w'.submits == w.submits
    ensures var b := w.db.jobs[id].batchId;
            if b == "" then w'.db.batches == w.db.batches && w'.fired == w.fired
            else
              && b in w.db.batches && Ops.TouchesBatch(w.db, w'.db, b, w.db.batches[b].pending - 1)
              && var e := Ops.Ack(w.db, id, now, callbackId).value;
                 && w'.db == e.db
                 && var row := w.db.batches[b];
                 && (e.fired <==> row.status.Sealed? && row.pending == 1 && !row.Expired(now))
                 && w'.db.batches[b].status ==
                    (if e.fired then Completed else if row.Expired(now) then Failed else row.status)
                 && forall c :: Count(w'.fired, c) == Count(w.fired, c) + if e.fired && c == b then 1 else 0
  {
    var t := Ops.ResolveDependencies(Ops.MarkProcessed(w.db, id), id);
    var r := Ops.Ack(w.db, id, now, callbackId);
    assert t.batches == w.db.batches;
    assert r.Some? && w' == WithEffect(w, r.value, w.db.jobs[id].batchId, callbackId).(acked := w.acked + {id});
  }

  lemma AckCounters(w: World, id: JobId, now: int, callbackId: JobId, w': World)
    requires MembersOk(w) && CountersOk(w) && id in w.db.jobs && id !in w.acked
    requires w' == AfterAck(w, id, now, callbackId) && w' != w
    ensures CountersOk(w')
  {
    AckShape(w, id, now, callbackId, w');
    if w.db.jobs[id].batchId == "" {
      AckedOutside(w, id, w');
    } else {
      Left(w, w.db.jobs[id].batchId, id, w');
    }
  }

  lemma AckFired(w: World, id: JobId, now: int, callbackId: JobId, w': World)
    requires FiredOk(w) && id in w.db.jobs
    requires w' == AfterAck(w, id, now, callbackId) && w' != w
    ensures FiredOk(w')
  {
    AckShape(w, id, now, callbackId, w');
    var b := w.db.jobs[id].batchId;
    if b != "" {
      Fired(w, Ops.Ack(w.db, id, now, callbackId).value, b, w.db.batches[b].pending - 1, 0, w');
    }
  }

  lemma EnqueueInBatchStep(w: World, b: string, env: Envelope, now: int, w': World)
    requires Inv(w) && Fresh(w, env.jobId) && b in w.db.batches && w' == AfterEnqueueInBatch(w, b, env, now)
    ensures CountersOk(w') && FiredOk(w')
  {
    if w' != w {
      assert env.jobId !in MembersOf(w, b);
      Joined(w, b, env.jobId, w');
    }
  }

  lemma CounterStep(w: World, op: Op, w': World)
    requires Inv(w) && Allowed(w, op) && Next(w, op, w')
    ensures CountersOk(w') && FiredOk(w')
  {
    if Workflow.IsLateReport(w, op) {
      Workflow.LateReport(w, op, w');
      return;
    }
    match op
    case CreateBatch(b, queue, name, expiresAt) =>
      CreateBatchCounters(w, b, queue, name, expiresAt, w');
      CreateBatchFired(w, b, queue, name, expiresAt, w');
    case EnqueueInBatch(b, env, now) => EnqueueInBatchStep(w, b, env, now, w');
    case SubmitBatch(b, now, callbackId) =>
      SubmitCounters(w, b, now, callbackId, w');
      SubmitFired(w, b, now, callbackId, w');
    case Ack(id, now, callbackId) =>
      assert Workflow.RowOk(w.db.deps, w.declared[id], w.acked, id, w.db.jobs[id].status);
      if w' != w {
        AckCounters(w, id, now, callbackId, w');
        AckFired(w, id, now, callbackId, w');
      }
    case EnqueueWorkflow(envs, now) =>
      WorkflowMovesNoCounter(w, envs, now, w');
      Unrelated(w, w');
    case Fail(_, _) =>
      KillMovesNoCounter(w, op, w');
      Unrelated(w, w');
    case Cancel(_) =>
      KillMovesNoCounter(w, op, w');
      Unrelated(w, w');
    case _ =>
      OthersMoveNoCounter(w, op, w');
      Unrelated(w, w');
  }

  /** A step that enrols nobody: old rows keep their batch, new rows are fresh and belong to none. */
  ghost predicate EnrolsNobody(w: World, w': World)
  {
    && w'.members == w.members && w'.db.batches.Keys == w.db.batches.Keys && w.declared.Keys <= w'.declared.Keys
    && forall id :: id in w'.db.jobs ==>
         if id in w.db.jobs then w'.db.jobs[id].batchId == w.db.jobs[id].batchId
         else id !in w.declared && w'.db.jobs[id].batchId == ""
  }

  lemma MembersKept(w: World, w': World)
    requires MembersOk(w) && EnrolsNobody(w, w')
    ensures MembersOk(w')
  {
  }

  lemma AckEnrolsNobody(w: World, id: JobId, now: int, callbackId: JobId, w': World)
    requires id in w.db.jobs && Fresh(w, callbackId) && w' == AfterAck(w, id, now, callbackId)
    ensures EnrolsNobody(w, w')
  {
    if w' != w {
      Ops.AckRows(w.db, id, now, callbackId);
      AckShape(w, id, now, callbackId, w');
    }
  }

  lemma SubmitEnrolsNobody(w: World, b: string, now: int, callbackId: JobId, w': World)
    requires Fresh(w, callbackId) && w' == AfterSubmit(w, b, now, callbackId)
    ensures EnrolsNobody(w, w')
  {
    var r := Ops.SubmitBatch(w.db, b, now, callbackId);
    assert r.Some? ==> w'.db == r.value.db && Ops.AddsCallbackOnly(w.db, r.value, callbackId);
  }

  lemma WorkflowEnrolsNobody(w: World, envs: seq<Envelope>, now: int, w': World)
    requires Allowed(w, EnqueueWorkflow(envs, now)) && w' == AfterWorkflow(w, envs, now)
    ensures EnrolsNobody(w, w')
  {
    if w' != w {
      Workflow.WorkflowInserted(w.db, envs, now);
      Workflow.WorkflowDeclared(w.declared, envs);
    }
  }

  lemma KillEnrolsNobody(w: World, op: Op, w': World)
    requires Next(w, op, w') && (op.Fail? || op.Cancel? || op.Forget?)
    ensures EnrolsNobody(w, w')
  {
  }

  lemma Enrolled(w: World, b: string, id: JobId, w': World)
    requires MembersOk(w) && b in w.members && id !in w.declared && id !in w.db.jobs
    requires w'.members == w.members[b := w.members[b] + {id}] && w'.db.batches.Keys == w.db.batches.Keys
    requires w'.declared == w.declared[id := {}]
    requires w'.db.jobs.Keys == w.db.jobs.Keys + {id} && w'.db.jobs[id].batchId == b
    requires forall j :: j in w.db.jobs ==> w'.db.jobs[j] == w.db.jobs[j]
    ensures MembersOk(w')
  {
  }

  lemma OthersEnrolNobody(w: World, op: Op, w': World)
    requires Allowed(w, op) && Next(w, op, w')
    requires op.Enqueue? || op.Dequeue? || op.Postpone? || op.FailExpiredBatches?
    ensures EnrolsNobody(w, w')
  {
  }

  lemma CreateBatchMembers(w: World, b: string, queue: string, name: string, expiresAt: Option<int>, w': World)
    requires MembersOk(w) && b != "" && w' == AfterCreateBatch(w, b, queue, name, expiresAt)
    ensures MembersOk(w')
  {
  }

  lemma MembersStep(w: World, op: Op, w': World)
    requires Workflow.EdgesOk(w.db, w.declared) && MembersOk(w) && Allowed(w, op) && Next(w, op, w')
    ensures MembersOk(w')
  {
    if Workflow.IsLateReport(w, op) {
      Workflow.LateReport(w, op, w');
      return;
    }
    match op {
      case CreateBatch(b, queue, name, expiresAt) => CreateBatchMembers(w, b, queue, name, expiresAt, w'); return;
      case EnqueueInBatch(b, env, _) =>
        if w' != w {
          Enrolled(w, b, env.jobId, w');
        }
        return;
      case EnqueueWorkflow(envs, now) => WorkflowEnrolsNobody(w, envs, now, w');
      case SubmitBatch(b, now, callbackId) => SubmitEnrolsNobody(w, b, now, callbackId, w');
      case Ack(id, now, callbackId) => AckEnrolsNobody(w, id, now, callbackId, w');
      case Fail(_, _) => KillEnrolsNobody(w, op, w');
      case Cancel(_) => KillEnrolsNobody(w, op, w');
      case Forget(_) => KillEnrolsNobody(w, op, w');
      case _ => OthersEnrolNobody(w, op, w');
    }
    MembersKept(w, w');
  }

  lemma Step(w: World, op: Op, w': World)
    requires Inv(w) && Allowed(w, op) && Next(w, op, w')
    ensures Inv(w')
  {
    Workflow.Step(w, op, w');
    CounterStep(w, op, w');
    MembersStep(w, op, w');
  }

  lemma {:induction false} EveryRun(ws: seq<World>, ops: seq<Op>, n: nat)
    requires IsRun(ws, ops) && n < |ws|
    ensures Inv(ws[n])
    decreases n
  {
    Workflow.EveryRun(ws, ops, n);
    if n > 0 {
      EveryRun(ws, ops, n - 1);
      Step(ws[n - 1], ops[n - 1], ws[n]);
    }
  }

  /**
   * In every run the counter of a batch is the number of members not yet acknowledged, so it is never negative, and
   * the callback is enqueued at most once per submission.
   */
  lemma Conserved(ws: seq<World>, ops: seq<Op>, n: nat, b: string)
    requires IsRun(ws, ops) && n < |ws| && b in ws[n].db.batches
    ensures ws[n].db.batches[b].total == |MembersOf(ws[n], b)|
    ensures ws[n].db.batches[b].pending == |Open(ws[n], b)|
    ensures Count(ws[n].fired, b) <= Count(ws[n].submits, b)
  {
    EveryRun(ws, ops, n);
    assert CounterOk(ws[n], b);
  }

  /** The time at which a step reads the clock. */
  function ClockOf(op: Op): Option<int> {
    match op
    case Enqueue(_, now) => Some(now)
    case EnqueueWorkflow(_, now) => Some(now)
    case EnqueueInBatch(_, _, now) => Some(now)
    case SubmitBatch(_, now, _) => Some(now)
    case Dequeue(_, _, now, _) => Some(now)
    case Ack(_, now, _) => Some(now)
    case FailExpiredBatches(now) => Some(now)
    case _ => None
  }

  predicate Late(w: World, op: Op, b: string) {
    b in w.db.batches && ClockOf(op).Some? && w.db.batches[b].Expired(ClockOf(op).value)
  }

  lemma {:induction false} EmptyOpen(w: World, b: string)
    requires b in w.db.batches && CounterOk(w, b)
    ensures w.db.batches[b].pending == 0 <==> MembersOf(w, b) <= w.acked
  {
    if w.db.batches[b].pending == 0 {
      assert Open(w, b) == {};
      forall id | id in MembersOf(w, b) ensures id in w.acked {
        assert id !in Open(w, b);
      }
    }
    if MembersOf(w, b) <= w.acked {
      assert Open(w, b) == {};
    }
  }

  /** The step completes the batch: a submission when nothing is open, or the last acknowledgement of a sealed batch. */
  ghost predicate Completes(w: World, op: Op, b: string)
  {
    b in w.db.batches && !Late(w, op, b) &&
    match op
    case SubmitBatch(c, _, _) => c == b && MembersOf(w, b) <= w.acked
    case Ack(id, _, _) => BatchIdOf(w.db.jobs, id) == b && IsSealed(w, b) && MembersOf(w, b) <= w.acked + {id}
    case _ => false
  }

  lemma SubmitFiresIff(w: World, c: string, now: int, callbackId: JobId, w': World, b: string)
    requires Inv(w) && Fresh(w, callbackId) && w' == AfterSubmit(w, c, now, callbackId)
    ensures Count(w'.fired, b) == Count(w.fired, b) + One(Completes(w, SubmitBatch(c, now, callbackId), b))
  {
    var r := Ops.SubmitBatch(w.db, c, now, callbackId);
    if c in w.db.batches {
      assert CounterOk(w, c);
      EmptyOpen(w, c);
      assert r.Some? && w'.fired == WithEffect(w, r.value, c, callbackId).fired;
    }
  }

  /** An open member is the last one exactly when the counter stands at one. */
  lemma LastOpen(w: World, b: string, id: JobId)
    requires b in w.db.batches && CounterOk(w, b) && id in MembersOf(w, b) && id !in w.acked
    ensures w.db.batches[b].pending == 1 <==> MembersOf(w, b) <= w.acked + {id}
  {
    var rest := Open(w, b) - {id};
    assert Open(w, b) == rest + {id};
    if MembersOf(w, b) <= w.acked + {id} {
      assert rest == {};
    } else {
      var other :| other in MembersOf(w, b) && other !in w.acked + {id};
      assert other in rest;
    }
  }

  lemma NotYetAcked(w: World, id: JobId)
    requires Workflow.Inv(w) && IsRunning(w.db, id)
    ensures id !in w.acked
  {
    assert Workflow.RowOk(w.db.deps, w.declared[id], w.acked, id, w.db.jobs[id].status);
  }

  lemma AckFiresIff(w: World, id: JobId, now: int, callbackId: JobId, w': World, b: string)
    requires Inv(w) && IsRunning(w.db, id) && Fresh(w, callbackId) && w' == AfterAck(w, id, now, callbackId)
    ensures Count(w'.fired, b) == Count(w.fired, b) + One(Completes(w, Ack(id, now, callbackId), b))
  {
    NotYetAcked(w, id);
    AckCommits(w, id, now, callbackId);
    assert w'.acked == w.acked + {id};
    assert w' != w;
    AckShape(w, id, now, callbackId, w');
    AckedLast(w, id, now, Ops.Ack(w.db, id, now, callbackId).value.fired, callbackId, w', b);
  }

  /** Whether the acknowledgement fired, by the counter, is whether it was the last one, by the member list. */
  lemma AckedLast(w: World, id: JobId, now: int, fired: bool, callbackId: JobId, w': World, b: string)
    requires MembersOk(w) && CountersOk(w) && IsRunning(w.db, id) && id !in w.acked
    requires w.db.jobs[id].batchId == "" ==> w'.fired == w.fired
    requires w.db.jobs[id].batchId != "" ==> FiredByCounter(w, w.db.jobs[id].batchId, now, fired, w')
    ensures Count(w'.fired, b) == Count(w.fired, b) + One(Completes(w, Ack(id, now, callbackId), b))
  {
    var c := w.db.jobs[id].batchId;
    if c != "" {
      assert CounterOk(w, c);
      LastOpen(w, c, id);
    }
  }

  ghost predicate FiredByCounter(w: World, c: string, now: int, fired: bool, w': World)
  {
    && c in w.db.batches
    && (fired <==> w.db.batches[c].status.Sealed? && w.db.batches[c].pending == 1 && !w.db.batches[c].Expired(now))
    && forall b :: Count(w'.fired, b) == Count(w.fired, b) + if fired && b == c then 1 else 0
  }

  /** With a fresh callback id and its batch in place, an acknowledgement commits. */
  lemma AckCommits(w: World, id: JobId, now: int, callbackId: JobId)
    requires MembersOk(w) && IsRunning(w.db, id) && callbackId !in w.db.jobs
    ensures Ops.Ack(w.db, id, now, callbackId).Some?
  {
    var t := Ops.ResolveDependencies(Ops.MarkProcessed(w.db, id), id);
    assert t.batches == w.db.batches && t.jobs.Keys == w.db.jobs.Keys;
  }

  /** Nobody else touches the record of callbacks. */
  lemma OthersFireNothing(w: World, op: Op, w': World)
    requires Next(w, op, w') && !op.SubmitBatch? && !op.Ack?
    ensures w'.fired == w.fired
  {
  }

  lemma FiresStep(w: World, op: Op, w': World, b: string)
    requires Inv(w) && Allowed(w, op) && Next(w, op, w')
    ensures Count(w'.fired, b) == Count(w.fired, b) + One(Completes(w, op, b))
  {
    if op.SubmitBatch? {
      SubmitFiresIff(w, op.batchId, op.now, op.callbackId, w', b);
    } else if op.Ack? && op.id in w.db.jobs {
      AckFiresIff(w, op.id, op.now, op.callbackId, w', b);
    } else if op.Ack? {
      Workflow.LateReport(w, op, w');
    } else {
      OthersFireNothing(w, op, w');
    }
  }

  /** In every run, a step enqueues the callback of a batch exactly when it completes the batch, and then once. */
  lemma FiresIff(ws: seq<World>, ops: seq<Op>, k: nat, b: string)
    requires IsRun(ws, ops) && k < |ops|
    ensures Count(ws[k + 1].fired, b) == Count(ws[k].fired, b) + One(Completes(ws[k], ops[k], b))
  {
    EveryRun(ws, ops, k);
    FiresStep(ws[k], ops[k], ws[k + 1], b);
  }

  // Exactly once

  ghost predicate NoneDead(w: World, b: string) {
    forall id :: id in MembersOf(w, b) && id in w.db.jobs ==> !w.db.jobs[id].status.Dead?
  }

  /** Up to the state `n`, no member dies and the deadline is kept. */
  ghost predicate Quiet(ws: seq<World>, ops: seq<Op>, n: nat, b: string)
    requires |ws| == |ops| + 1 && n < |ws|
  {
    && (forall i :: 0 <= i <= n ==> NoneDead(ws[i], b))
    && forall i {:trigger ops[i]} :: 0 <= i < n ==> !Late(ws[i], ops[i], b)
  }

  /** While nothing fails, the status tells whether the callback is still to come. */
  ghost predicate Calm(w: World, b: string)
  {
    var submits, fired := Count(w.submits, b), Count(w.fired, b);
    if b !in w.db.batches then submits == 0
    else
      var row := w.db.batches[b];
      match row.status
      case Open => submits == 0
      case Sealed => submits > 0 && row.pending > 0
      case Completed => submits > 0 && fired > 0
      case Failed => false
  }

  /** A kill that buries no member leaves the batch alone. */
  lemma KillSpares(s: Database, dead: set<JobId>, freed: set<JobId>, t: Database, b: string)
    requires Killed(s, dead, freed, t) && b in s.batches
    requires forall id :: id in s.jobs && s.jobs[id].batchId == b ==> !t.jobs[id].status.Dead?
    ensures b in t.batches && t.batches[b] == s.batches[b]
  {
    assert b !in BatchesOf(s.jobs, dead);
  }

  lemma CalmFail(w: World, id: JobId, nextRun: int, w': World, b: string)
    requires MembersOk(w) && AfterFail(w, id, nextRun, w') && NoneDead(w', b) && Calm(w, b)
    ensures Calm(w', b)
  {
    if b in w.db.batches && id in w.db.jobs && Ops.LastAttempt(w.db.jobs[id]) {
      assert forall j :: j in w.db.jobs && w.db.jobs[j].batchId == b ==> j in MembersOf(w', b);
      var below := Descendants(w.db.deps, id);
      KillSpares(w.db, {id} + below, below, w'.db, b);
    }
  }

  lemma CalmCancel(w: World, id: JobId, w': World, b: string)
    requires MembersOk(w) && Ops.Cancel(w.db, id, w'.db) && w' == w.(db := w'.db) && NoneDead(w', b) && Calm(w, b)
    ensures Calm(w', b)
  {
    if b in w.db.batches {
      assert forall j :: j in w.db.jobs && w.db.jobs[j].batchId == b ==> j in MembersOf(w', b);
      var below := Descendants(w.db.deps, id);
      KillSpares(Ops.DeleteJob(w.db, id), below, below, w'.db, b);
    }
  }

  lemma CalmStays(w: World, op: Op, w': World, b: string)
    requires Next(w, op, w') && Calm(w, b) && !Late(w, op, b)
    requires op.Enqueue? || op.Dequeue? || op.Postpone? || op.FailExpiredBatches? || op.Forget? || op.CreateBatch?
    ensures Calm(w', b)
  {
  }

  lemma CalmEnqueue(w: World, c: string, env: Envelope, now: int, w': World, b: string)
    requires Calm(w, b) && w' == AfterEnqueueInBatch(w, c, env, now)
    requires b in w.db.batches ==> w.db.batches[b].pending >= 0
    ensures Calm(w', b)
  {
  }

  lemma CalmSubmit(w: World, c: string, now: int, callbackId: JobId, w': World, b: string)
    requires Calm(w, b) && w' == AfterSubmit(w, c, now, callbackId)
    requires b in w.db.batches ==> w.db.batches[b].pending >= 0 && !w.db.batches[b].Expired(now)
    ensures Calm(w', b)
  {
    var r := Ops.SubmitBatch(w.db, c, now, callbackId);
    if r.Some? && c == b {
      assert Count(w'.submits, b) > 0 && Count(w'.fired, b) == Count(w.fired, b) + One(r.value.fired);
    }
  }

  lemma CalmAck(w: World, id: JobId, now: int, callbackId: JobId, w': World, b: string)
    requires Calm(w, b) && id in w.db.jobs && w' == AfterAck(w, id, now, callbackId)
    requires b in w.db.batches ==> w.db.batches[b].pending >= 0 && !w.db.batches[b].Expired(now)
    ensures Calm(w', b)
  {
    if w' != w {
      AckShape(w, id, now, callbackId, w');
    }
  }

  lemma CalmStep(w: World, op: Op, w': World, b: string)
    requires Workflow.EdgesOk(w.db, w.declared) && MembersOk(w)
    requires Allowed(w, op) && Next(w, op, w') && Calm(w, b) && !Late(w, op, b)
    requires b in w.db.batches ==> w.db.batches[b].pending >= 0
    requires NoneDead(w', b)
    ensures Calm(w', b)
  {
    if Workflow.IsLateReport(w, op) {
      Workflow.LateReport(w, op, w');
      return;
    }
    match op
    case SubmitBatch(c, now, callbackId) => CalmSubmit(w, c, now, callbackId, w', b);
    case Ack(id, now, callbackId) => CalmAck(w, id, now, callbackId, w', b);
    case EnqueueInBatch(c, env, now) => CalmEnqueue(w, c, env, now, w', b);
    case EnqueueWorkflow(envs, now) => WorkflowMovesNoCounter(w, envs, now, w');
    case Fail(id, nextRun) => CalmFail(w, id, nextRun, w', b);
    case Cancel(id) => CalmCancel(w, id, w', b);
    case _ => CalmStays(w, op, w', b);
  }

  lemma {:induction false} CalmRun(ws: seq<World>, ops: seq<Op>, n: nat, b: string)
    requires IsRun(ws, ops) && n < |ws| && Quiet(ws, ops, n, b)
    ensures Calm(ws[n], b)
    decreases n
  {
    if n > 0 {
      CalmRun(ws, ops, n - 1, b);
      EveryRun(ws, ops, n - 1);
      assert b in ws[n - 1].db.batches ==> CounterOk(ws[n - 1], b);
      CalmStep(ws[n - 1], ops[n - 1], ws[n], b);
    }
  }

  /**
   * A batch that was submitted once, whose members were all acknowledged, of which none died and whose deadline was
   * kept has had its callback enqueued exactly once, in whatever order it was filled, worked off and submitted.
   */
  lemma ExactlyOnce(ws: seq<World>, ops: seq<Op>, n: nat, b: string)
    requires IsRun(ws, ops) && n < |ws| && Quiet(ws, ops, n, b)
    requires b in ws[n].db.batches && Count(ws[n].submits, b) == 1
    requires MembersOf(ws[n], b) <= ws[n].acked
    ensures Count(ws[n].fired, b) == 1
  {
    EveryRun(ws, ops, n);
    CalmRun(ws, ops, n, b);
    assert CounterOk(ws[n], b);
    EmptyOpen(ws[n], b);
  }

  // A lost member suppresses the callback

  /** The row, if it is still there, is a finished one. */
  ghost predicate Gone(db: Database, id: JobId) {
    id in db.jobs ==> !db.jobs[id].Live()
  }

  /** A member that can no longer be acknowledged: dead, cancelled or purged. */
  ghost predicate Lost(w: World, b: string, id: JobId)
  {
    id in MembersOf(w, b) && id !in w.acked && Gone(w.db, id)
  }

  lemma GoneInRows(s: Database, j: JobId, callbackId: JobId, t: Database, id: JobId)
    requires Ops.AckedRows(s, j, callbackId, t) && Gone(s, id) && id != callbackId
    requires forall e :: e in s.deps && e.child in s.jobs ==> s.jobs[e.child].status.Blocked?
    ensures Gone(t, id)
  {
    assert id in s.jobs ==> id !in Children(s.deps, j);
  }

  lemma GoneAfterAck(w: World, j: JobId, now: int, callbackId: JobId, w': World, id: JobId)
    requires Workflow.EdgesOk(w.db, w.declared) && IsRunning(w.db, j) && w' == AfterAck(w, j, now, callbackId)
    requires Gone(w.db, id) && id != callbackId
    ensures Gone(w'.db, id)
  {
    if w' != w {
      Ops.AckRows(w.db, j, now, callbackId);
      GoneInRows(w.db, j, callbackId, w'.db, id);
    }
  }

  lemma GoneAfterWorkflow(w: World, envs: seq<Envelope>, now: int, w': World, id: JobId)
    requires Allowed(w, EnqueueWorkflow(envs, now)) && w' == AfterWorkflow(w, envs, now)
    requires Gone(w.db, id) && id in w.declared
    ensures Gone(w'.db, id) && id in w'.declared
  {
    if w' != w {
      Workflow.WorkflowInserted(w.db, envs, now);
      Workflow.WorkflowDeclared(w.declared, envs);
    }
  }

  lemma GoneAfterInsert(w: World, op: Op, w': World, id: JobId)
    requires Allowed(w, op) && Next(w, op, w') && (op.Enqueue? || op.EnqueueInBatch?)
    requires Gone(w.db, id) && id in w.declared
    ensures Gone(w'.db, id)
  {
  }

  lemma GoneAfterSubmit(w: World, b: string, now: int, callbackId: JobId, w': World, id: JobId)
    requires Fresh(w, callbackId) && w' == AfterSubmit(w, b, now, callbackId)
    requires Gone(w.db, id) && id in w.declared
    ensures Gone(w'.db, id)
  {
    var r := Ops.SubmitBatch(w.db, b, now, callbackId);
    assert r.Some? ==> w'.db == r.value.db && Ops.AddsCallbackOnly(w.db, r.value, callbackId);
  }

  lemma GoneAfterOther(w: World, op: Op, w': World, id: JobId)
    requires Workflow.EdgesOk(w.db, w.declared) && Allowed(w, op) && Next(w, op, w')
    requires !op.Enqueue? && !op.EnqueueInBatch? && !op.SubmitBatch? && !op.Ack? && !op.EnqueueWorkflow?
    requires Gone(w.db, id)
    ensures Gone(w'.db, id)
  {
  }

  lemma GoneStep(w: World, op: Op, w': World, id: JobId)
    requires Workflow.EdgesOk(w.db, w.declared) && Allowed(w, op) && Next(w, op, w')
    requires Gone(w.db, id) && id in w.declared
    ensures Gone(w'.db, id)
  {
    if Workflow.IsLateReport(w, op) {
      Workflow.LateReport(w, op, w');
      return;
    }
    match op
    case EnqueueWorkflow(envs, now) => GoneAfterWorkflow(w, envs, now, w', id);
    case Ack(j, now, callbackId) => GoneAfterAck(w, j, now, callbackId, w', id);
    case Enqueue(_, _) => GoneAfterInsert(w, op, w', id);
    case EnqueueInBatch(_, _, _) => GoneAfterInsert(w, op, w', id);
    case SubmitBatch(b, now, callbackId) => GoneAfterSubmit(w, b, now, callbackId, w', id);
    case _ => GoneAfterOther(w, op, w', id);
  }

  /** Members stay enrolled. */
  lemma MembersStay(w: World, op: Op, w': World, b: string, id: JobId)
    requires Next(w, op, w') && w.members.Keys == w.db.batches.Keys && id in MembersOf(w, b)
    ensures id in MembersOf(w', b)
  {
    if !op.CreateBatch? && !op.EnqueueInBatch? {
      assert w'.members == w.members;
    }
  }

  /** Only a job with a row becomes acknowledged. */
  lemma OnlyRowsAcked(w: World, op: Op, w': World, id: JobId)
    requires Next(w, op, w') && id in w'.acked && id !in w.acked
    ensures op.Ack? && op.id == id && id in w.db.jobs
  {
  }

  lemma StaysLost(w: World, op: Op, w': World, b: string, id: JobId)
    requires Workflow.EdgesOk(w.db, w.declared) && MembersOk(w)
    requires Allowed(w, op) && Next(w, op, w') && Lost(w, b, id)
    ensures Lost(w', b, id)
  {
    GoneStep(w, op, w', id);
    MembersStay(w, op, w', b, id);
    if id in w'.acked {
      OnlyRowsAcked(w, op, w', id);
    }
  }

  lemma LostStep(w: World, op: Op, w': World, b: string, id: JobId)
    requires Inv(w) && Allowed(w, op) && Next(w, op, w') && Lost(w, b, id)
    ensures Lost(w', b, id) && Count(w'.fired, b) == Count(w.fired, b)
  {
    StaysLost(w, op, w', b, id);
    FiresStep(w, op, w', b);
  }

  lemma LostInRun(ws: seq<World>, ops: seq<Op>, k: nat, b: string, id: JobId)
    requires IsRun(ws, ops) && k < |ops| && Lost(ws[k], b, id)
    ensures Lost(ws[k + 1], b, id) && Count(ws[k + 1].fired, b) == Count(ws[k].fired, b)
  {
    EveryRun(ws, ops, k);
    LostStep(ws[k], ops[k], ws[k + 1], b, id);
  }

  /**
   * Once a member is dead, cancelled or purged without having been acknowledged, the callback is never enqueued
   * again, even when a later SubmitBatch overwrites the failed status.
   */
  lemma {:induction false} SuppressedForever(ws: seq<World>, ops: seq<Op>, n: nat, m: nat, b: string, id: JobId)
    requires IsRun(ws, ops) && n <= m < |ws| && Lost(ws[n], b, id)
    ensures Lost(ws[m], b, id) && Count(ws[m].fired, b) == Count(ws[n].fired, b)
    decreases m
  {
    if m > n {
      SuppressedForever(ws, ops, n, m - 1, b, id);
      LostInRun(ws, ops, m - 1, b, id);
    }
  }
}
