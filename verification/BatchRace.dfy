/**
 * The batch protocol on the SQL storage when acknowledgements and cancellations of its members interrupt each other.
 */
module BatchRace {
  import opened Graph
  import opened Tables
  import Ops = Operations
  import opened Runs
  import opened Reports
  import Workflow = WorkflowSafety
  import opened Interleaving
  import Batch = SqlBatch

  /** The world in which a job counts as acknowledged also when only its batch was counted down. */
  function Counted(s: State): World {
    s.w.(acked := s.w.acked + s.late)
  }

  /** No member while its Enqueue is under way. */
  ghost predicate CallsOutside(s: State) {
    forall id, b :: id in s.calls ==> id !in MembersOf(s.w, b)
  }

  /** A call that has read a row has read which batch the job is in. */
  ghost predicate ReadsBatch(s: State) {
    forall n, b :: n in s.reports && s.reports[n].read.Some? ==>
      (s.reports[n].id in MembersOf(s.w, b) <==> b != "" && b == s.reports[n].Seen().batchId)
  }

  ghost predicate Inv(s: State) {
    Sound(s) && Batch.Inv(Counted(s)) && CallsOutside(s) && ReadsBatch(s)
  }

  // Steps of the atomic machine

  lemma AckCounted(w: World, id: JobId, now: int, callbackId: JobId, late: set<JobId>)
    ensures AfterAck(w.(acked := w.acked + late), id, now, callbackId)
         == AfterAck(w, id, now, callbackId).(acked := AfterAck(w, id, now, callbackId).acked + late)
  {
    var r, done := Ops.Ack(w.db, id, now, callbackId), if id in w.db.jobs then {id} else {};
    if r.Some? {
      assert w.acked + late + done == w.acked + done + late;
    }
  }

  lemma SubmitCounted(w: World, b: string, now: int, callbackId: JobId, late: set<JobId>)
    ensures AfterSubmit(w.(acked := w.acked + late), b, now, callbackId)
         == AfterSubmit(w, b, now, callbackId).(acked := w.acked + late)
  {
    var r := Ops.SubmitBatch(w.db, b, now, callbackId);
    if r.Some? {
      EffectCounted(w, r.value, b, callbackId, late);
    }
  }

  lemma EffectCounted(w: World, e: Ops.Effect, b: string, callbackId: JobId, late: set<JobId>)
    ensures WithEffect(w.(acked := w.acked + late), e, b, callbackId)
         == WithEffect(w, e, b, callbackId).(acked := w.acked + late)
  {
  }

  lemma FailCounted(w: World, id: JobId, nextRun: int, w': World, late: set<JobId>)
    requires AfterFail(w, id, nextRun, w')
    ensures AfterFail(w.(acked := w.acked + late), id, nextRun, w'.(acked := w'.acked + late))
  {
  }

  lemma TablesCounted(w: World, op: Op, w': World, late: set<JobId>)
    requires Next(w, op, w') && (op.Cancel? || op.Dequeue? || op.Postpone? || op.FailExpiredBatches? || op.Forget?)
    ensures Next(w.(acked := w.acked + late), op, w'.(acked := w'.acked + late))
  {
  }

  lemma WorkflowCounted(w: World, op: Op, w': World, late: set<JobId>)
    requires Next(w, op, w') && (op.EnqueueWorkflow? || op.CreateBatch?)
    ensures Next(w.(acked := w.acked + late), op, w'.(acked := w'.acked + late))
  {
  }

  lemma InsertCounted(w: World, op: Op, w': World, late: set<JobId>)
    requires Next(w, op, w') && (op.Enqueue? || op.EnqueueInBatch?)
    ensures Next(w.(acked := w.acked + late), op, w'.(acked := w'.acked + late))
  {
  }

  lemma OthersCounted(w: World, op: Op, w': World, late: set<JobId>)
    requires Next(w, op, w') && !op.Ack? && !op.Fail? && !op.SubmitBatch?
    ensures Next(w.(acked := w.acked + late), op, w'.(acked := w'.acked + late))
  {
    if op.Enqueue? || op.EnqueueInBatch? {
      InsertCounted(w, op, w', late);
    } else if op.EnqueueWorkflow? || op.CreateBatch? {
      WorkflowCounted(w, op, w', late);
    } else {
      TablesCounted(w, op, w', late);
    }
  }

  lemma NextCounted(w: World, op: Op, w': World, late: set<JobId>)
    requires Next(w, op, w')
    ensures Next(w.(acked := w.acked + late), op, w'.(acked := w'.acked + late))
  {
    match op
    case Ack(id, now, callbackId) => AckCounted(w, id, now, callbackId, late);
    case Fail(id, nextRun) => FailCounted(w, id, nextRun, w', late);
    case SubmitBatch(b, now, callbackId) => SubmitCounted(w, b, now, callbackId, late);
    case _ => OthersCounted(w, op, w', late);
  }

  lemma StepCounted(s: State, op: Op, t: State)
    requires Batch.Inv(Counted(s)) && Allowed(s.w, op) && Next(s.w, op, t.w) && t.late == s.late
    ensures Allowed(Counted(s), op) && Next(Counted(s), op, Counted(t)) && Batch.Inv(Counted(t))
  {
    NextCounted(s.w, op, t.w, s.late);
    Batch.Step(Counted(s), op, Counted(t));
  }

  /** At most the member `id` of batch `b` is new. */
  ghost predicate AddsMember(w: World, b: string, id: JobId, w': World) {
    forall c :: MembersOf(w', c) == MembersOf(w, c) || (c == b && MembersOf(w', c) == MembersOf(w, c) + {id})
  }

  lemma CreateAddsNone(w: World, b: string, queue: string, name: string, expiresAt: Option<int>, id: JobId, w': World)
    requires Batch.MembersOk(w) && w' == AfterCreateBatch(w, b, queue, name, expiresAt)
    ensures AddsMember(w, b, id, w')
  {
  }

  lemma EnqueueAdds(w: World, b: string, env: Envelope, now: int, w': World)
    requires w' == AfterEnqueueInBatch(w, b, env, now)
    ensures AddsMember(w, b, env.jobId, w')
  {
  }

  lemma GrownMembers(s: State, added: JobId, batchId: string, t: State)
    requires CallsOutside(s) && ReadsBatch(s) && t.calls == s.calls
    requires forall n :: n in t.reports ==> n in s.reports && t.reports[n] == s.reports[n]
    requires added !in s.calls && forall n :: n in s.reports && s.reports[n].read.Some? ==> s.reports[n].id != added
    requires AddsMember(s.w, batchId, added, t.w)
    ensures CallsOutside(t) && ReadsBatch(t)
  {
  }

  lemma SameMembers(s: State, t: State)
    requires CallsOutside(s) && ReadsBatch(s) && t.w.members == s.w.members && t.calls.Keys <= s.calls.Keys
    requires forall n :: n in t.reports ==> n in s.reports && t.reports[n] == s.reports[n]
    ensures CallsOutside(t) && ReadsBatch(t)
  {
    assert forall b :: MembersOf(t.w, b) == MembersOf(s.w, b);
  }

  lemma ReadsKnown(s: State, id: JobId)
    requires ReportsOk(s) && id !in s.w.declared
    ensures forall n :: n in s.reports && s.reports[n].read.Some? ==> s.reports[n].id != id
  {
    forall n | n in s.reports && s.reports[n].read.Some? ensures s.reports[n].id != id {
      assert ReportOk(s, s.reports[n]);
    }
  }

  lemma StepMembers(s: State, op: Op, t: State)
    requires Inv(s) && Allowed(s.w, op) && Next(s.w, op, t.w) && t.calls == s.calls
    requires forall n :: n in t.reports ==> n in s.reports && t.reports[n] == s.reports[n]
    ensures CallsOutside(t) && ReadsBatch(t)
  {
    if op.EnqueueInBatch? {
      EnqueueAdds(s.w, op.batchId, op.env, op.now, t.w);
      ReadsKnown(s, op.env.jobId);
      GrownMembers(s, op.env.jobId, op.batchId, t);
    } else if op.CreateBatch? {
      assert Batch.MembersOk(Counted(s));
      CreateMembers(s, op, t);
    } else {
      OthersAddNone(s.w, op, t.w);
      SameMembers(s, t);
    }
  }

  lemma OthersAddNone(w: World, op: Op, w': World)
    requires Next(w, op, w') && !op.EnqueueInBatch? && !op.CreateBatch?
    ensures w'.members == w.members
  {
    match op
    case Ack(id, now, callbackId) => assert AfterAck(w, id, now, callbackId).members == w.members;
    case SubmitBatch(b, now, callbackId) => assert AfterSubmit(w, b, now, callbackId).members == w.members;
    case _ =>
  }

  lemma CreateMembers(s: State, op: Op, t: State)
    requires Batch.MembersOk(s.w) && ReportsOk(s) && CallsOutside(s) && ReadsBatch(s) && t.calls == s.calls
    requires op.CreateBatch?
    requires t.w == AfterCreateBatch(s.w, op.batchId, op.callbackQueue, op.callbackName, op.expiresAt)
    requires forall n :: n in t.reports ==> n in s.reports && t.reports[n] == s.reports[n]
    ensures CallsOutside(t) && ReadsBatch(t)
  {
    var id := Unused(s.w.declared.Keys + s.calls.Keys);
    CreateAddsNone(s.w, op.batchId, op.callbackQueue, op.callbackName, op.expiresAt, id, t.w);
    ReadsKnown(s, id);
    GrownMembers(s, id, op.batchId, t);
  }

  // Calls whose row has gone

  /** A job without a row may count as acknowledged. */
  lemma AckedMore(w: World, id: JobId)
    requires Workflow.Inv(w) && id in w.declared && id !in w.db.jobs
    ensures Workflow.Inv(w.(acked := w.acked + {id}))
  {
    forall j | j in w.db.jobs
      ensures Workflow.RowOk(w.db.deps, w.declared[j], w.acked + {id}, j, w.db.jobs[j].status)
    {
      assert Workflow.RowOk(w.db.deps, w.declared[j], w.acked, j, w.db.jobs[j].status);
    }
  }

  lemma AddingEnrolsNobody(w: World, callbackId: JobId, w': World)
    requires Fresh(w, callbackId) && AddsAtMost(w, callbackId, w') && w'.members == w.members
    requires w'.db.batches.Keys == w.db.batches.Keys
    requires callbackId in w'.db.jobs ==> w'.db.jobs[callbackId].batchId == ""
    ensures Batch.EnrolsNobody(w, w')
  {
  }

  /** The acknowledgement of a member whose row has gone: its batch is counted down all the same. */
  lemma LateCounters(w: World, b: string, id: JobId, s: Database, e: Ops.Effect, now: int, callbackId: JobId, w': World)
    requires Batch.CountersOk(w) && Batch.FiredOk(w) && b in w.db.batches && s.batches == w.db.batches
    requires id !in w.acked && forall c :: c in w.db.batches ==> (id in MembersOf(w, c) <==> c == b)
    requires Ops.HandleBatchAck(s, b, now, callbackId) == Some(e)
    requires w' == WithEffect(w, e, b, callbackId).(acked := w.acked + {id})
    ensures Batch.CountersOk(w') && Batch.FiredOk(w')
  {
    assert Ops.TouchesBatch(w.db, w'.db, b, w.db.batches[b].pending - 1);
    Batch.Left(w, b, id, w');
    Batch.Fired(w, e, b, w.db.batches[b].pending - 1, 0, w');
  }

  lemma LateAck(w: World, b: string, id: JobId, s: Database, e: Ops.Effect, now: int, callbackId: JobId, w': World)
    requires Batch.Inv(w) && b in w.db.batches && Fresh(w, callbackId)
    requires s == w.db.(locks := s.locks) && id !in w.db.jobs && id in w.declared
    requires id !in w.acked && forall c :: c in w.db.batches ==> (id in MembersOf(w, c) <==> c == b)
    requires Ops.HandleBatchAck(s, b, now, callbackId) == Some(e)
    requires w' == WithEffect(w, e, b, callbackId).(acked := w.acked + {id})
    ensures Batch.Inv(w')
  {
    LateCounters(w, b, id, s, e, now, callbackId, w');
    var u := WithEffect(w, e, b, callbackId);
    EffectAddsAtMost(w, s, e, b, callbackId, u);
    AddingKeepsWorkflow(w, callbackId, u);
    AckedMore(u, id);
    AddingEnrolsNobody(w, callbackId, u);
    Batch.MembersKept(w, w');
  }

  /** A call that counts nothing down and at most fails batches. */
  lemma Bystander(w: World, w': World)
    requires Batch.Inv(w) && Workflow.Inv(w') && Batch.NoCounterMoves(w, w') && Batch.EnrolsNobody(w, w')
    ensures Batch.Inv(w')
  {
    Batch.Unrelated(w, w');
    Batch.MembersKept(w, w');
  }

  lemma TablesMoveNoCounter(w: World, t: Database)
    requires t.jobs == w.db.jobs && t.deps == w.db.deps && t.batches.Keys == w.db.batches.Keys
    requires forall b :: b in w.db.batches ==>
      t.batches[b] == w.db.batches[b] || t.batches[b] == w.db.batches[b].(status := Failed)
    ensures Batch.NoCounterMoves(w, w.(db := t)) && Batch.EnrolsNobody(w, w.(db := t))
  {
  }

  lemma StaleFailsAtMost(db: Database, r: Report, b: string)
    requires b in db.batches
    ensures StaleTables(db, r).batches[b] in {db.batches[b], db.batches[b].(status := Failed)}
  {
  }

  /** A stale call that counts nothing down. */
  lemma StaleBystander(w: World, r: Report)
    requires Batch.Inv(w)
    ensures Batch.Inv(w.(db := StaleTables(w.db, r)))
  {
    var t := StaleTables(w.db, r);
    forall b | b in w.db.batches ensures t.batches[b] in {w.db.batches[b], w.db.batches[b].(status := Failed)} {
      StaleFailsAtMost(w.db, r, b);
    }
    TablesBystander(w, t);
  }

  lemma TablesBystander(w: World, t: Database)
    requires Batch.Inv(w) && t.jobs == w.db.jobs && t.deps == w.db.deps && t.batches.Keys == w.db.batches.Keys
    requires forall b :: b in w.db.batches ==>
      t.batches[b] == w.db.batches[b] || t.batches[b] == w.db.batches[b].(status := Failed)
    ensures Batch.Inv(w.(db := t))
  {
    TablesMoveNoCounter(w, t);
    TablesKeepWorkflow(w, t);
    Bystander(w, w.(db := t));
  }

  // Commits

  lemma StaleCommit(s: State, n: nat, now: int, nextRun: int, callbackId: JobId, t: State)
    requires Inv(s) && CanCommit(s, n, now, nextRun, callbackId, t) && Stale(s.w.db, s.reports[n])
    ensures Batch.Inv(Counted(t)) && t.w.members == s.w.members
    ensures CountsDown(s.w.db, s.reports[n]) ==> LateFires(s, n, now, callbackId, t)
    ensures !CountsDown(s.w.db, s.reports[n]) ==> t.w.fired == s.w.fired && t.late == s.late
  {
    var r := s.reports[n];
    assert ReportOk(s, r);
    StaleDoes(s.w, r, now, nextRun, callbackId, t.w);
    if CountsDown(s.w.db, r) {
      LateCommit(s, n, now, callbackId, t);
    } else {
      assert Counted(t) == Counted(s).(db := StaleTables(s.w.db, r));
      StaleBystander(Counted(s), r);
    }
  }

  /** The callback is enqueued when the counter reaches zero, and the job counts as acknowledged from now on. */
  ghost predicate LateFires(s: State, n: nat, now: int, callbackId: JobId, t: State)
    requires n in s.reports && CountsDown(s.w.db, s.reports[n])
  {
    var r := s.reports[n];
    var e := Ops.HandleBatchAck(Released(s.w.db, r.Seen()), r.Seen().batchId, now, callbackId);
    e.Some? && t.w == WithEffect(s.w, e.value, r.Seen().batchId, callbackId) && t.late == s.late + {r.id}
  }

  lemma OnlyBatch(s: State, n: nat)
    requires Inv(s) && n in s.reports && CountsDown(s.w.db, s.reports[n]) && Stale(s.w.db, s.reports[n])
    ensures var w, r := Counted(s), s.reports[n];
            && r.id in w.declared && r.id !in w.acked
            && forall c :: c in w.db.batches ==> (r.id in MembersOf(w, c) <==> c == r.Seen().batchId)
  {
    var r := s.reports[n];
    assert ReportOk(s, r);
    forall c | c in s.w.db.batches ensures r.id in MembersOf(Counted(s), c) <==> c == r.Seen().batchId {
      assert c in Counted(s).members;
      assert MembersOf(Counted(s), c) == MembersOf(s.w, c);
    }
  }

  lemma LateCommit(s: State, n: nat, now: int, callbackId: JobId, t: State)
    requires Inv(s) && n in s.reports && Fresh(s.w, callbackId) && Stale(s.w.db, s.reports[n])
    requires CountsDown(s.w.db, s.reports[n]) && t.w == AfterStale(s.w, s.reports[n], now, callbackId)
    requires t.late == s.late + CountedLate(s.w, s.reports[n])
    ensures Batch.Inv(Counted(t)) && t.w.members == s.w.members && LateFires(s, n, now, callbackId, t)
  {
    var r := s.reports[n];
    var b, freed := r.Seen().batchId, Released(s.w.db, r.Seen());
    var e := Ops.HandleBatchAck(freed, b, now, callbackId);
    OnlyBatch(s, n);
    LateCounted(s, e.value, b, callbackId, r.id, t);
    LateAck(Counted(s), b, r.id, freed, e.value, now, callbackId, Counted(t));
  }

  lemma LateCounted(s: State, e: Ops.Effect, b: string, callbackId: JobId, id: JobId, t: State)
    requires t.w == WithEffect(s.w, e, b, callbackId) && t.late == s.late + {id}
    ensures Counted(t) == WithEffect(Counted(s), e, b, callbackId).(acked := Counted(s).acked + {id})
    ensures t.w.members == s.w.members
  {
    assert t.w.acked + t.late == s.w.acked + s.late + {id};
  }

  lemma BlindCommit(s: State, n: nat, now: int, nextRun: int, callbackId: JobId, t: State)
    requires Inv(s) && CanCommit(s, n, now, nextRun, callbackId, t)
    requires s.reports[n].kind.Cancels? && s.reports[n].read.None?
    ensures Batch.Inv(Counted(t)) && t.w.members == s.w.members && t.w.fired == s.w.fired && t.late == s.late
  {
    BlindKeepsWorkflow(Counted(s), s.reports[n].id, Counted(t));
    BlindMoves(Counted(s), s.reports[n].id, Counted(t));
    Bystander(Counted(s), Counted(t));
  }

  lemma BlindMoves(w: World, id: JobId, w': World)
    requires Ops.CancelWith(w.db, id, NO_COLUMNS, w'.db) && w' == w.(db := w'.db)
    ensures Batch.NoCounterMoves(w, w') && Batch.EnrolsNobody(w, w')
  {
  }

  lemma UpToDateCommitKeeps(s: State, n: nat, now: int, nextRun: int, callbackId: JobId, t: State)
    requires Inv(s) && CanCommit(s, n, now, nextRun, callbackId, t)
    requires UpToDate(s.w.db, s.reports[n]) && !Stale(s.w.db, s.reports[n])
    ensures Batch.Inv(Counted(t)) && CallsOutside(t) && ReadsBatch(t)
  {
    var op := OpOf(s.reports[n], now, nextRun, callbackId);
    UpToDateCommit(s, n, now, nextRun, callbackId, t);
    assert s.late + {} == s.late;
    StepCounted(s, op, t);
    StepMembers(s, op, t);
  }

  lemma CommitKeeps(s: State, n: nat, now: int, nextRun: int, callbackId: JobId, t: State)
    requires Inv(s) && CanCommit(s, n, now, nextRun, callbackId, t)
    ensures Inv(t)
  {
    CommitIsSound(s, n, now, nextRun, callbackId, t);
    assert ReportOk(s, s.reports[n]);
    ReportCases(s, s.reports[n]);
    if Stale(s.w.db, s.reports[n]) {
      StaleCommit(s, n, now, nextRun, callbackId, t);
      SameMembers(s, t);
    } else if UpToDate(s.w.db, s.reports[n]) {
      UpToDateCommitKeeps(s, n, now, nextRun, callbackId, t);
    } else {
      BlindCommit(s, n, now, nextRun, callbackId, t);
      SameMembers(s, t);
    }
  }

  // Statements of Enqueue

  lemma BeginKeeps(s: State, env: Envelope, now: int, t: State)
    requires Inv(s) && Fresh(s.w, env.jobId) && env.jobId !in s.calls && t == AfterBegin(s, env, now)
    ensures Inv(t)
  {
    BeginIsSound(s, env, now, t);
    DeclaredAhead(Counted(s), env.jobId, Counted(t));
    forall b ensures env.jobId !in MembersOf(s.w, b) {
      assert MembersOf(Counted(s), b) == MembersOf(s.w, b);
    }
    BegunMembers(s, env.jobId, t);
  }

  lemma BegunMembers(s: State, id: JobId, t: State)
    requires CallsOutside(s) && ReadsBatch(s) && t.w.members == s.w.members && t.reports == s.reports
    requires t.calls.Keys == s.calls.Keys + {id} && forall b :: id !in MembersOf(s.w, b)
    ensures CallsOutside(t) && ReadsBatch(t)
  {
    assert forall b :: MembersOf(t.w, b) == MembersOf(s.w, b);
  }

  lemma DeclaredAhead(w: World, id: JobId, w': World)
    requires Batch.Inv(w) && Fresh(w, id) && w' == w.(declared := w.declared[id := {}])
    ensures Batch.Inv(w')
  {
    forall e | e in w.db.deps ensures e.child != id {
    }
    assert Workflow.Inv(w');
    Bystander(w, w');
  }

  lemma AdvanceKeeps(s: State, id: JobId, now: int, t: State)
    requires Inv(s) && id in s.calls && t == AfterAdvance(s, id, now)
    ensures Inv(t)
  {
    AdvanceIsSound(s, id, now, t);
    if s.calls[id].phase.Ready? {
      InsertKeeps(s, id, now, t);
    } else {
      AdvanceOnLocks(s, id, now, t);
      LocksKeep(Counted(s), t.w.db.locks, Counted(t));
      SameMembers(s, t);
    }
  }

  lemma LocksKeep(w: World, locks: map<string, Lock>, w': World)
    requires Batch.Inv(w) && w' == w.(db := w.db.(locks := locks))
    ensures Batch.Inv(w')
  {
    TablesBystander(w, w'.db);
  }

  lemma InsertKeeps(s: State, id: JobId, now: int, t: State)
    requires Inv(s) && id in s.calls && s.calls[id].phase.Ready? && t == AfterAdvance(s, id, now)
    ensures Batch.Inv(Counted(t)) && CallsOutside(t) && ReadsBatch(t)
  {
    SameMembers(s, t);
    var w, w' := Counted(s), Counted(t);
    InsertKnown(w.db, id, w'.db, w.declared, w.acked);
    Batch.Unrelated(w, w');
    forall b ensures MembersOf(w, b) == MembersOf(s.w, b) {
    }
    InsertedOutside(w, id, w');
  }

  lemma InsertedOutside(w: World, id: JobId, w': World)
    requires Batch.MembersOk(w) && id !in w.db.jobs && forall b :: id !in MembersOf(w, b)
    requires w'.members == w.members && w'.declared == w.declared && w'.db.batches == w.db.batches
    requires w'.db.jobs.Keys == w.db.jobs.Keys + {id} && w'.db.jobs[id].batchId == ""
    requires forall j :: j in w.db.jobs ==> w'.db.jobs[j] == w.db.jobs[j]
    ensures Batch.MembersOk(w')
  {
    forall b | b in w.members ensures id !in w.members[b] {
      assert id !in MembersOf(w, b);
    }
  }

  lemma LookKeeps(s: State, n: nat, kind: Kind, id: JobId, t: State)
    requires Inv(s) && CanStep(s, Look(n, kind, id), t)
    ensures Inv(t)
  {
    LookIsSound(s, n, kind, id, t);
    if id in s.w.db.jobs {
      ReadsItsBatch(s, id);
    }
  }

  lemma ReadsItsBatch(s: State, id: JobId)
    requires Inv(s) && id in s.w.db.jobs
    ensures forall b :: id in MembersOf(s.w, b) <==> b != "" && b == s.w.db.jobs[id].batchId
  {
    var w := Counted(s);
    forall b ensures id in MembersOf(s.w, b) <==> b != "" && b == s.w.db.jobs[id].batchId {
      assert MembersOf(w, b) == MembersOf(s.w, b);
      assert b in w.members ==> (id in w.members[b] <==> w.db.jobs[id].batchId == b);
    }
  }

  lemma TransactKeeps(s: State, op: Op, t: State)
    requires Inv(s) && CanTransact(s, op, t)
    ensures Inv(t)
  {
    TransactIsSound(s, op, t);
    StepCounted(s, op, t);
    StepMembers(s, op, t);
  }

  lemma Step(s: State, act: Action, t: State)
    requires Inv(s) && CanStep(s, act, t)
    ensures Inv(t)
  {
    match act
    case Begin(env, now) => BeginKeeps(s, env, now, t);
    case Advance(id, now) => AdvanceKeeps(s, id, now, t);
    case Abandon(_) =>
      StepIsSound(s, act, t);
      SameMembers(s, t);
    case Look(n, kind, id) => LookKeeps(s, n, kind, id, t);
    case Commit(n, now, nextRun, callbackId) => CommitKeeps(s, n, now, nextRun, callbackId, t);
    case Drop(_) =>
      StepIsSound(s, act, t);
      SameMembers(s, t);
    case Transact(op) => TransactKeeps(s, op, t);
  }

  lemma EmptyKeeps()
    ensures Inv(EMPTY_STATE)
  {
    EmptyIsSound();
    assert Counted(EMPTY_STATE) == EMPTY;
  }

  lemma {:induction false} PathKeeps(ss: seq<State>, acts: seq<Action>, n: nat)
    requires IsPath(ss, acts) && n < |ss| && Inv(ss[0])
    ensures Inv(ss[n])
    decreases n
  {
    if n > 0 {
      PathKeeps(ss, acts, n - 1);
      Step(ss[n - 1], acts[n - 1], ss[n]);
    }
  }

  lemma EveryRun(ss: seq<State>, acts: seq<Action>, n: nat)
    requires IsInterleaving(ss, acts) && n < |ss|
    ensures Inv(ss[n])
  {
    EmptyKeeps();
    PathKeeps(ss, acts, n);
  }

  /** The members that no acknowledgement has counted down, with or without a row. */
  function Uncounted(s: State, b: string): set<JobId> {
    set id | id in MembersOf(s.w, b) && id !in s.w.acked && id !in s.late
  }

  /**
   * Whatever interrupts what, the counter of a batch is the number of members that no acknowledgement has counted down,
   * a late one of a cancelled member included, and callbacks never outnumber submissions.
   */
  lemma Conserved(ss: seq<State>, acts: seq<Action>, n: nat, b: string)
    requires IsInterleaving(ss, acts) && n < |ss| && b in ss[n].w.db.batches
    ensures ss[n].w.db.batches[b].total == |MembersOf(ss[n].w, b)|
    ensures ss[n].w.db.batches[b].pending == |Uncounted(ss[n], b)|
    ensures Count(ss[n].w.fired, b) <= Count(ss[n].w.submits, b)
  {
    EveryRun(ss, acts, n);
    assert Batch.CounterOk(Counted(ss[n]), b);
    assert Batch.Open(Counted(ss[n]), b) == Uncounted(ss[n], b);
  }
}
