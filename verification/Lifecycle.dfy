/** The life of a job: it dies on its last allowed failure, and work on a closed set of jobs ends. */
module Lifecycle {
  import opened Graph
  import opened Tables
  import opened Cascade
  import Ops = Operations
  import opened Runs
  import Workflow = WorkflowSafety

  /** An unfinished job has attempts left, and they count the failures reported for it. */
  ghost predicate AttemptsOk(w: World)
  {
    forall id :: id in w.db.jobs && w.db.jobs[id].Live() ==>
      w.db.jobs[id].attempts == Count(w.failures, id) < w.db.jobs[id].maxAttempts
  }

  ghost predicate Inv(w: World)
  {
    && Workflow.Inv(w)
    && AttemptsOk(w)
    && w.failures.Keys <= w.declared.Keys
  }

  /** Rows only keep their attempts, finish, or are fresh with no attempt used. */
  ghost predicate AttemptsKept(w: World, w': World)
  {
    && w'.failures == w.failures && w.declared.Keys <= w'.declared.Keys
    && forall id :: id in w'.db.jobs && w'.db.jobs[id].Live() ==>
         if id in w.db.jobs then
           && w.db.jobs[id].Live()
           && w'.db.jobs[id].attempts == w.db.jobs[id].attempts
           && w'.db.jobs[id].maxAttempts == w.db.jobs[id].maxAttempts
         else id !in w.declared && w'.db.jobs[id].attempts == 0 < w'.db.jobs[id].maxAttempts
  }

  lemma Kept(w: World, w': World)
    requires AttemptsOk(w) && w.failures.Keys <= w.declared.Keys && AttemptsKept(w, w')
    ensures AttemptsOk(w') && w'.failures.Keys <= w'.declared.Keys
  {
  }

  lemma WorkflowKeeps(w: World, envs: seq<Envelope>, now: int, w': World)
    requires Allowed(w, EnqueueWorkflow(envs, now)) && w' == AfterWorkflow(w, envs, now)
    ensures AttemptsKept(w, w')
  {
    if w' != w {
      Workflow.WorkflowInserted(w.db, envs, now);
      Workflow.WorkflowDeclared(w.declared, envs);
    }
  }

  lemma RowsKeep(w: World, id: JobId, callbackId: JobId, w': World)
    requires Workflow.EdgesOk(w.db, w.declared) && IsRunning(w.db, id) && callbackId !in w.declared
    requires Ops.AckedRows(w.db, id, callbackId, w'.db)
    requires w'.failures == w.failures && w.declared.Keys <= w'.declared.Keys
    ensures AttemptsKept(w, w')
  {
    forall j | j in w.db.jobs && j in w'.db.jobs && w'.db.jobs[j].Live() ensures w.db.jobs[j].Live() {
      if j in Children(w.db.deps, id) {
        assert w.db.jobs[j].status.Blocked?;
      }
    }
  }

  lemma EffectKeepsHistory(w: World, id: JobId, e: Ops.Effect, callbackId: JobId, w': World)
    requires w' == WithEffect(w, e, BatchIdOf(w.db.jobs, id), callbackId).(acked := w.acked + {id})
    ensures w'.db == e.db && w'.failures == w.failures && w.declared.Keys <= w'.declared.Keys
  {
  }

  lemma AckKeeps(w: World, id: JobId, now: int, callbackId: JobId, w': World)
    requires Workflow.EdgesOk(w.db, w.declared) && IsRunning(w.db, id) && Fresh(w, callbackId)
    requires w' == AfterAck(w, id, now, callbackId)
    ensures AttemptsKept(w, w')
  {
    var r := Ops.Ack(w.db, id, now, callbackId);
    if r.Some? {
      Ops.AckRows(w.db, id, now, callbackId);
      EffectKeepsHistory(w, id, r.value, callbackId, w');
      RowsKeep(w, id, callbackId, w');
    }
  }

  lemma SubmitKeeps(w: World, b: string, now: int, callbackId: JobId, w': World)
    requires Fresh(w, callbackId) && w' == AfterSubmit(w, b, now, callbackId)
    ensures AttemptsKept(w, w')
  {
    var r := Ops.SubmitBatch(w.db, b, now, callbackId);
    assert r.Some? ==> w'.db == r.value.db && Ops.AddsCallbackOnly(w.db, r.value, callbackId);
  }

  lemma InsertKeeps(w: World, op: Op, w': World)
    requires Allowed(w, op) && Next(w, op, w') && (op.Enqueue? || op.EnqueueInBatch?)
    ensures AttemptsKept(w, w')
  {
  }

  lemma MovesKeep(w: World, op: Op, w': World)
    requires Allowed(w, op) && Next(w, op, w') && (op.Dequeue? || op.Postpone?)
    ensures AttemptsKept(w, w')
  {
  }

  lemma OthersKeep(w: World, op: Op, w': World)
    requires Next(w, op, w') && (op.CreateBatch? || op.Cancel? || op.FailExpiredBatches? || op.Forget?)
    ensures AttemptsKept(w, w')
  {
  }

  lemma FailStep(w: World, id: JobId, nextRun: int, w': World)
    requires AttemptsOk(w) && w.failures.Keys <= w.declared.Keys && id in w.declared
    requires IsRunning(w.db, id) && AfterFail(w, id, nextRun, w')
    ensures AttemptsOk(w') && w'.failures.Keys <= w'.declared.Keys
  {
  }

  /** Only reports of failure count attempts. */
  lemma OnlyFailCounts(w: World, op: Op, w': World)
    requires Workflow.Inv(w) && Allowed(w, op) && Next(w, op, w') && !op.Fail?
    ensures AttemptsKept(w, w')
  {
    if Workflow.IsLateReport(w, op) {
      Workflow.LateReport(w, op, w');
      return;
    }
    match op
    case EnqueueWorkflow(envs, now) => WorkflowKeeps(w, envs, now, w');
    case Ack(id, now, callbackId) => AckKeeps(w, id, now, callbackId, w');
    case Enqueue(_, _) => InsertKeeps(w, op, w');
    case EnqueueInBatch(_, _, _) => InsertKeeps(w, op, w');
    case SubmitBatch(b, now, callbackId) => SubmitKeeps(w, b, now, callbackId, w');
    case Dequeue(_, _, _, _) => MovesKeep(w, op, w');
    case Postpone(_, _) => MovesKeep(w, op, w');
    case _ => OthersKeep(w, op, w');
  }

  lemma Step(w: World, op: Op, w': World)
    requires Inv(w) && Allowed(w, op) && Next(w, op, w')
    ensures Inv(w')
  {
    Workflow.Step(w, op, w');
    if Workflow.IsLateReport(w, op) {
      Workflow.LateReport(w, op, w');
    } else if op.Fail? {
      FailStep(w, op.id, op.nextRun, w');
    } else {
      OnlyFailCounts(w, op, w');
      Kept(w, w');
    }
  }

  lemma {:induction false} EveryRun(ws: seq<World>, ops: seq<Op>, n: nat)
    requires IsRun(ws, ops) && n < |ws|
    ensures Inv(ws[n])
    decreases n
  {
    Workflow.EveryRun(ws, ops, n);
    if n > 0 {
      EveryRun(ws, ops, n - 1);
      Step(ws[n - 1], ops[n - 1], ws[n]);
    }
  }

  /**
   * In every run, a failure report kills its job exactly when it is failure number `maxAttempts` of that job; the
   * report of a worker whose job was cancelled changes nothing.
   */
  lemma DiesOnLastFailure(ws: seq<World>, ops: seq<Op>, n: nat)
    requires IsRun(ws, ops) && n < |ops| && ops[n].Fail?
    ensures var id := ops[n].id;
      if id !in ws[n].db.jobs then ws[n + 1] == ws[n]
      else
        && id in ws[n + 1].db.jobs
        && (ws[n + 1].db.jobs[id].status.Dead? <==> Count(ws[n + 1].failures, id) == ws[n].db.jobs[id].maxAttempts)
        && (ws[n + 1].db.jobs[id].status.Dead? || ws[n + 1].db.jobs[id].status.Pending?)
  {
    EveryRun(ws, ops, n);
    assert Allowed(ws[n], ops[n]) && Next(ws[n], ops[n], ws[n + 1]);
  }

  // Termination

  /** What a row can still cause: two units per attempt left, one more while it waits to be taken. */
  function Weight(job: Job): nat {
    var left := if job.attempts < job.maxAttempts then 2 * (job.maxAttempts - job.attempts) else 0;
    match job.status
    case Running => left
    case Pending => left + 1
    case Blocked => left + 1
    case _ => 0
  }

  function WeightAt(jobs: map<JobId, Job>, id: JobId): nat {
    if id in jobs then Weight(jobs[id]) else 0
  }

  ghost function Sum(ids: set<JobId>, jobs: map<JobId, Job>): nat
  {
    if ids == {} then 0
    else
      var x :| x in ids;
      WeightAt(jobs, x) + Sum(ids - {x}, jobs)
  }

  lemma {:induction false} SumPick(ids: set<JobId>, jobs: map<JobId, Job>, y: JobId)
    requires y in ids
    ensures Sum(ids, jobs) == WeightAt(jobs, y) + Sum(ids - {y}, jobs)
    decreases ids
  {
    var x :| x in ids && Sum(ids, jobs) == WeightAt(jobs, x) + Sum(ids - {x}, jobs);
    if x != y {
      SumPick(ids - {x}, jobs, y);
      SumPick(ids - {y}, jobs, x);
      assert ids - {x} - {y} == ids - {y} - {x};
    }
  }

  lemma {:induction false} SumLe(small: set<JobId>, t: map<JobId, Job>, ids: set<JobId>, s: map<JobId, Job>)
    requires small <= ids
    requires forall id :: id in small ==> WeightAt(t, id) <= WeightAt(s, id)
    ensures Sum(small, t) <= Sum(ids, s)
    decreases ids
  {
    if ids != {} {
      var x :| x in ids;
      SumPick(ids, s, x);
      if x in small {
        SumPick(small, t, x);
      } else {
        assert small - {x} == small;
      }
      SumLe(small - {x}, t, ids - {x}, s);
    }
  }

  ghost function SealedBatches(db: Database): set<string> {
    set b | b in db.batches && db.batches[b].status.Sealed?
  }

  /** The work the tables still hold; a sealed batch stands for the callback it may yet enqueue. */
  ghost function Potential(db: Database): nat {
    Sum(db.jobs.Keys, db.jobs) + 8 * |SealedBatches(db)|
  }

  /** A step that adds no work, and takes at least `drop` from the job `x`. */
  lemma Shrinks(s: Database, t: Database, x: JobId, drop: nat)
    requires t.jobs.Keys <= s.jobs.Keys && x in s.jobs
    requires forall id :: id in t.jobs ==> Weight(t.jobs[id]) <= Weight(s.jobs[id])
    requires WeightAt(t.jobs, x) + drop <= Weight(s.jobs[x])
    requires SealedBatches(t) <= SealedBatches(s)
    ensures Potential(t) + drop <= Potential(s)
  {
    SumPick(s.jobs.Keys, s.jobs, x);
    if x in t.jobs {
      SumPick(t.jobs.Keys, t.jobs, x);
    } else {
      assert t.jobs.Keys - {x} == t.jobs.Keys;
    }
    SumLe(t.jobs.Keys - {x}, t.jobs, s.jobs.Keys - {x}, s.jobs);
    SubsetCard(SealedBatches(t), SealedBatches(s));
  }

  lemma NeverGrows(s: Database, t: Database)
    requires t.jobs.Keys <= s.jobs.Keys
    requires forall id :: id in t.jobs ==> Weight(t.jobs[id]) <= Weight(s.jobs[id])
    requires SealedBatches(t) <= SealedBatches(s)
    ensures Potential(t) <= Potential(s)
  {
    SumLe(t.jobs.Keys, t.jobs, s.jobs.Keys, s.jobs);
    SubsetCard(SealedBatches(t), SealedBatches(s));
  }

  /** Enqueueing the callback of a sealed batch costs less than the sealed batch was worth. */
  lemma CallbackPaid(s: Database, t: Database, callbackId: JobId, b: string)
    requires callbackId !in s.jobs && t.jobs.Keys == s.jobs.Keys + {callbackId}
    requires forall id :: id in s.jobs ==> t.jobs[id] == s.jobs[id]
    requires Weight(t.jobs[callbackId]) <= 7
    requires SealedBatches(t) <= SealedBatches(s) - {b} && b in SealedBatches(s)
    ensures Potential(t) < Potential(s)
  {
    SumPick(t.jobs.Keys, t.jobs, callbackId);
    assert t.jobs.Keys - {callbackId} == s.jobs.Keys;
    SumLe(s.jobs.Keys, t.jobs, s.jobs.Keys, s.jobs);
    SubsetCard(SealedBatches(t), SealedBatches(s) - {b});
  }

  lemma FailShrinks(w: World, id: JobId, nextRun: int, w': World)
    requires Inv(w) && IsRunning(w.db, id) && AfterFail(w, id, nextRun, w')
    ensures Potential(w'.db) < Potential(w.db)
  {
    Shrinks(w.db, w'.db, id, 1);
  }

  lemma ResolveShrinks(w: World, id: JobId)
    requires Workflow.EdgesOk(w.db, w.declared) && AttemptsOk(w) && IsRunning(w.db, id)
    ensures Potential(Ops.ResolveDependencies(Ops.MarkProcessed(w.db, id), id)) < Potential(w.db)
  {
    var t := Ops.ResolveDependencies(Ops.MarkProcessed(w.db, id), id);
    assert forall j :: j in w.db.jobs && j in Children(w.db.deps, id) ==> w.db.jobs[j].status.Blocked?;
    Shrinks(w.db, t, id, 1);
  }

  lemma BatchAckNeverGrows(db: Database, b: string, now: int, callbackId: JobId)
    requires Ops.HandleBatchAck(db, b, now, callbackId).Some?
    ensures Potential(Ops.HandleBatchAck(db, b, now, callbackId).value.db) <= Potential(db)
  {
    var e := Ops.HandleBatchAck(db, b, now, callbackId).value;
    if e.fired {
      CallbackPaid(db, e.db, callbackId, b);
    } else {
      NeverGrows(db, e.db);
    }
  }

  lemma AckAfterResolve(db: Database, id: JobId, now: int, callbackId: JobId, t: Database)
    requires t == Ops.ResolveDependencies(Ops.MarkProcessed(db, id), id) && Potential(t) < Potential(db)
    requires Ops.Ack(db, id, now, callbackId).Some?
    ensures Potential(Ops.Ack(db, id, now, callbackId).value.db) < Potential(db)
  {
    var b := BatchIdOf(db.jobs, id);
    if b != "" {
      BatchAckNeverGrows(t, b, now, callbackId);
    }
  }

  lemma AckShrinks(w: World, id: JobId, now: int, callbackId: JobId, w': World)
    requires Inv(w) && IsRunning(w.db, id) && w' == AfterAck(w, id, now, callbackId) && w' != w
    ensures Potential(w'.db) < Potential(w.db)
  {
    ResolveShrinks(w, id);
    AckAfterResolve(w.db, id, now, callbackId, Ops.ResolveDependencies(Ops.MarkProcessed(w.db, id), id));
  }

  lemma ClaimShrinks(w: World, op: Op, w': World)
    requires Inv(w) && Allowed(w, op) && Next(w, op, w') && op.Dequeue?
    ensures w' == w || Potential(w'.db) < Potential(w.db)
  {
    var id := Ops.FirstEligible(w.db.jobs, op.rows, op.workerTags);
    if id.Some? {
      Shrinks(w.db, w'.db, id.value, 1);
    }
  }

  /** Steps that only work off what is there: no insertion, submission or postponement. */
  predicate WorksOff(op: Op) {
    op.Dequeue? || op.Ack? || op.Fail? || op.Cancel? || op.FailExpiredBatches? || op.Forget?
  }

  /** Taking a job, acknowledging it or reporting its failure, when the transaction commits a change. */
  ghost predicate Works(w: World, op: Op, w': World) {
    (op.Dequeue? || op.Ack? || op.Fail?) && w' != w
  }

  lemma CleanupNeverGrows(w: World, op: Op, w': World)
    requires Next(w, op, w') && (op.Cancel? || op.FailExpiredBatches? || op.Forget?)
    ensures Potential(w'.db) <= Potential(w.db)
  {
    NeverGrows(w.db, w'.db);
  }

  lemma WorkShrinks(w: World, op: Op, w': World)
    requires Inv(w) && Allowed(w, op) && Next(w, op, w') && WorksOff(op)
    ensures Potential(w'.db) + (if Works(w, op, w') then 1 else 0) <= Potential(w.db)
  {
    if Workflow.IsLateReport(w, op) {
      Workflow.LateReport(w, op, w');
      return;
    }
    match op
    case Dequeue(_, _, _, _) => ClaimShrinks(w, op, w');
    case Ack(id, now, callbackId) =>
      if w' != w {
        AckShrinks(w, id, now, callbackId, w');
      }
    case Fail(id, nextRun) => FailShrinks(w, id, nextRun, w');
    case _ => CleanupNeverGrows(w, op, w');
  }

  /** The number of working steps between two positions of a run. */
  ghost function Work(ws: seq<World>, ops: seq<Op>, n: nat, m: nat): nat
    requires |ws| == |ops| + 1 && n <= m < |ws|
    decreases m
  {
    if m == n then 0 else Work(ws, ops, n, m - 1) + if Works(ws[m - 1], ops[m - 1], ws[m]) then 1 else 0
  }

  /**
   * While nothing is inserted, submitted or postponed, the tables at the start bound how many jobs can still be
   * taken, acknowledged and failed, retries and callbacks included.
   */
  lemma {:induction false} WorkIsBounded(ws: seq<World>, ops: seq<Op>, n: nat, m: nat)
    requires IsRun(ws, ops) && n <= m < |ws|
    requires forall i :: n <= i < m ==> WorksOff(ops[i])
    ensures Work(ws, ops, n, m) + Potential(ws[m].db) <= Potential(ws[n].db)
    decreases m
  {
    if m > n {
      WorkIsBounded(ws, ops, n, m - 1);
      EveryRun(ws, ops, m - 1);
      WorkShrinks(ws[m - 1], ops[m - 1], ws[m]);
    }
  }
}
