/** What the calls of a run have asked for a job or a batch, and that its row keeps to it for good. */
module Requests {
  import opened Graph
  import opened Strings
  import opened Tables
  import Ops = Operations
  import opened Runs
  import Workflow = WorkflowSafety
  import Batch = SqlBatch

  /** What a call asks for a job: `at` is when it may be handed out first, `since` when it was asked for. */
  datatype Ask = Ask(queue: string, name: string, at: int, since: int, priority: int, tags: seq<string>, attempts: int)

  /** Batches and workflows take no tags and no priority. */
  predicate AskedBy(env: Envelope, now: int, plain: bool, a: Ask) {
    && a.queue == env.queue && a.name == env.name && a.since == now
    && (env.runAt.Some? ==> a.at == env.runAt.value) && (env.runAt.None? ==> a.at == now)
    && (plain ==> a.priority == env.priority && a.tags == env.tags)
    && (!plain ==> a.priority == 0 && a.tags == [])
    && (env.maxAttempts > 0 ==> a.attempts == env.maxAttempts) && (env.maxAttempts <= 0 ==> a.attempts == 3)
  }

  /** Call `i` created the batch. */
  ghost predicate Creates(ws: seq<World>, ops: seq<Op>, i: nat, b: string)
    requires |ws| == |ops| + 1
  {
    i < |ops| && ops[i].CreateBatch? && ops[i].batchId == b && b !in ws[i].db.batches
  }

  /** Call `k` calls back for batch `b`, as asked when the batch was created. */
  ghost predicate CalledBack(ws: seq<World>, ops: seq<Op>, k: nat, b: string, now: int, a: Ask)
    requires |ws| == |ops| + 1
  {
    exists i: nat {:trigger Creates(ws, ops, i, b)} :: i < k && Creates(ws, ops, i, b) &&
      a == Ask(ops[i].callbackQueue, ops[i].callbackName, now, now, 0, [], 3)
  }

  /** Call `k` is the one that inserts the job, and this is what it asks for. */
  ghost predicate Asks(ws: seq<World>, ops: seq<Op>, k: nat, id: JobId, a: Ask)
    requires |ws| == |ops| + 1
  {
    k < |ops| && id !in ws[k].db.jobs && id in ws[k + 1].db.jobs &&
    match ops[k]
    case Enqueue(env, now) => id == env.jobId && AskedBy(env, now, true, a)
    case EnqueueInBatch(_, env, now) => id == env.jobId && AskedBy(env, now, false, a)
    case EnqueueWorkflow(envs, now) => exists env :: env in envs && env.jobId == id && AskedBy(env, now, false, a)
    case SubmitBatch(b, now, callbackId) => id == callbackId && CalledBack(ws, ops, k, b, now, a)
    case Ack(j, now, callbackId) =>
      id == callbackId && exists b :: j in MembersOf(ws[k], b) && CalledBack(ws, ops, k, b, now, a)
    case _ => false
  }

  /** Call `op` is about to give the job another time. */
  predicate Moves(op: Op, id: JobId) {
    (op.Fail? || op.Postpone?) && op.id == id
  }

  // Columns that stay

  /** Apart from status, attempts and run time a row stays as it is, and the run time stays too unless it is moved. */
  ghost predicate KeepsRow(w: World, op: Op, w': World, id: JobId)
  {
    && id in w'.declared
    && (id in w'.db.jobs ==>
          && id in w.db.jobs
          && var row, row' := w.db.jobs[id], w'.db.jobs[id];
             && row' == row.(status := row'.status, attempts := row'.attempts, runAt := row'.runAt)
             && (!Moves(op, id) ==> row'.runAt == row.runAt))
  }

  lemma WorkflowKeeps(w: World, envs: seq<Envelope>, now: int, w': World, id: JobId)
    requires DistinctIds(envs) && (forall env :: env in envs ==> Fresh(w, env.jobId)) && id in w.declared
    requires w' == AfterWorkflow(w, envs, now)
    ensures KeepsRow(w, EnqueueWorkflow(envs, now), w', id)
  {
    if Ops.EnqueueWorkflow(w.db, envs, now).Some? {
      Workflow.WorkflowInserted(w.db, envs, now);
      Workflow.WorkflowDeclared(w.declared, envs);
    }
  }

  lemma SubmitKeeps(w: World, op: Op, w': World, id: JobId)
    requires op.SubmitBatch? && Fresh(w, op.callbackId) && id in w.declared
    requires w' == AfterSubmit(w, op.batchId, op.now, op.callbackId)
    ensures KeepsRow(w, op, w', id)
  {
    var r := Ops.SubmitBatch(w.db, op.batchId, op.now, op.callbackId);
    assert r.Some? ==> w'.db == r.value.db && Ops.AddsCallbackOnly(w.db, r.value, op.callbackId);
  }

  lemma AckKeeps(w: World, op: Op, w': World, id: JobId)
    requires op.Ack? && op.id in w.db.jobs && Fresh(w, op.callbackId) && id in w.declared
    requires w' == AfterAck(w, op.id, op.now, op.callbackId)
    ensures KeepsRow(w, op, w', id)
  {
    var r := Ops.Ack(w.db, op.id, op.now, op.callbackId);
    if r.Some? {
      Ops.AckRows(w.db, op.id, op.now, op.callbackId);
      AckedKeeps(w.db, op.id, op.callbackId, r.value.db, id);
      assert w'.db == r.value.db;
    }
  }

  lemma AckedKeeps(s: Database, j: JobId, callbackId: JobId, t: Database, id: JobId)
    requires Ops.AckedRows(s, j, callbackId, t) && id != callbackId
    ensures id in t.jobs ==> id in s.jobs && t.jobs[id] == s.jobs[id].(status := t.jobs[id].status)
  {
  }

  lemma FailKeeps(w: World, op: Op, w': World, id: JobId)
    requires Next(w, op, w') && op.Fail? && id in w.declared
    ensures KeepsRow(w, op, w', id)
  {
  }

  lemma CancelKeeps(w: World, op: Op, w': World, id: JobId)
    requires Next(w, op, w') && (op.Cancel? || op.Forget?) && id in w.declared
    ensures KeepsRow(w, op, w', id)
  {
  }

  lemma ClaimKeeps(w: World, op: Op, w': World, id: JobId)
    requires Next(w, op, w') && (op.Dequeue? || op.Postpone?) && id in w.declared
    ensures KeepsRow(w, op, w', id)
  {
  }

  lemma OthersKeep(w: World, op: Op, w': World, id: JobId)
    requires Allowed(w, op) && Next(w, op, w') && id in w.declared
    requires op.Enqueue? || op.EnqueueInBatch? || op.CreateBatch? || op.FailExpiredBatches?
    ensures KeepsRow(w, op, w', id)
  {
  }

  lemma StepKeeps(w: World, op: Op, w': World, id: JobId)
    requires Workflow.EdgesOk(w.db, w.declared) && Allowed(w, op) && Next(w, op, w') && id in w.declared
    ensures KeepsRow(w, op, w', id)
  {
    if Workflow.IsLateReport(w, op) {
      Workflow.LateReport(w, op, w');
      return;
    }
    match op
    case EnqueueWorkflow(envs, now) => WorkflowKeeps(w, envs, now, w', id);
    case SubmitBatch(_, _, _) => SubmitKeeps(w, op, w', id);
    case Ack(_, _, _) => AckKeeps(w, op, w', id);
    case Fail(_, _) => FailKeeps(w, op, w', id);
    case Cancel(_) => CancelKeeps(w, op, w', id);
    case Forget(_) => CancelKeeps(w, op, w', id);
    case Dequeue(_, _, _, _) => ClaimKeeps(w, op, w', id);
    case Postpone(_, _) => ClaimKeeps(w, op, w', id);
    case _ => OthersKeep(w, op, w', id);
  }

  /** A batch is there for good, and keeps its callback and its deadline. */
  ghost predicate KeepsBatch(w: World, w': World, b: string)
    requires b in w.db.batches
  {
    && b in w'.db.batches
    && w'.db.batches[b].callbackQueue == w.db.batches[b].callbackQueue
    && w'.db.batches[b].callbackName == w.db.batches[b].callbackName
    && w'.db.batches[b].expiresAt == w.db.batches[b].expiresAt
  }

  lemma AckKeepsBatch(w: World, id: JobId, now: int, callbackId: JobId, w': World, b: string)
    requires id in w.db.jobs && w' == AfterAck(w, id, now, callbackId) && b in w.db.batches
    ensures KeepsBatch(w, w', b)
  {
    if w' != w {
      Batch.AckShape(w, id, now, callbackId, w');
    }
  }

  lemma SubmitKeepsBatch(w: World, c: string, now: int, callbackId: JobId, w': World, b: string)
    requires w' == AfterSubmit(w, c, now, callbackId) && b in w.db.batches
    ensures KeepsBatch(w, w', b)
  {
    var r := Ops.SubmitBatch(w.db, c, now, callbackId);
    assert r.Some? ==> w'.db == r.value.db;
  }

  lemma FillKeepsBatch(w: World, op: Op, w': World, b: string)
    requires Next(w, op, w') && b in w.db.batches && (op.CreateBatch? || op.EnqueueInBatch?)
    ensures KeepsBatch(w, w', b)
  {
  }

  lemma StepKeepsBatch(w: World, op: Op, w': World, b: string)
    requires Workflow.EdgesOk(w.db, w.declared) && Allowed(w, op) && Next(w, op, w') && b in w.db.batches
    ensures KeepsBatch(w, w', b)
  {
    if Workflow.IsLateReport(w, op) {
      Workflow.LateReport(w, op, w');
      return;
    }
    match op
    case EnqueueWorkflow(envs, now) => Batch.WorkflowMovesNoCounter(w, envs, now, w');
    case SubmitBatch(c, now, callbackId) => SubmitKeepsBatch(w, c, now, callbackId, w', b);
    case Ack(id, now, callbackId) => AckKeepsBatch(w, id, now, callbackId, w', b);
    case CreateBatch(_, _, _, _) => FillKeepsBatch(w, op, w', b);
    case EnqueueInBatch(_, _, _) => FillKeepsBatch(w, op, w', b);
    case Fail(_, _) => Batch.KillMovesNoCounter(w, op, w');
    case Cancel(_) => Batch.KillMovesNoCounter(w, op, w');
    case _ => Batch.OthersMoveNoCounter(w, op, w');
  }

  /** At every later moment the batch has the callback and the deadline it was created with. */
  lemma {:induction false} BatchAsCreated(ws: seq<World>, ops: seq<Op>, i: nat, n: nat, b: string)
    requires IsRun(ws, ops) && Creates(ws, ops, i, b) && i < n < |ws|
    ensures b in ws[n].db.batches
    ensures ws[n].db.batches[b].callbackQueue == ops[i].callbackQueue
    ensures ws[n].db.batches[b].callbackName == ops[i].callbackName
    ensures ws[n].db.batches[b].expiresAt == ops[i].expiresAt
    decreases n
  {
    if n > i + 1 {
      BatchAsCreated(ws, ops, i, n - 1, b);
      Workflow.EveryRun(ws, ops, n - 1);
      StepKeepsBatch(ws[n - 1], ops[n - 1], ws[n], b);
    } else {
      assert Next(ws[i], ops[i], ws[i + 1]);
    }
  }

  lemma OnlyCreateAdds(w: World, op: Op, w': World, b: string)
    requires Workflow.EdgesOk(w.db, w.declared) && Allowed(w, op) && Next(w, op, w')
    requires b !in w.db.batches && b in w'.db.batches
    ensures op.CreateBatch? && op.batchId == b
  {
    if Workflow.IsLateReport(w, op) {
      Workflow.LateReport(w, op, w');
    } else if op.EnqueueWorkflow? {
      Batch.WorkflowMovesNoCounter(w, op.envs, op.now, w');
    } else if op.Ack? && w' != w {
      Batch.AckShape(w, op.id, op.now, op.callbackId, w');
    }
  }

  /** And it was created by some call. */
  lemma {:induction false} Creator(ws: seq<World>, ops: seq<Op>, n: nat, b: string) returns (i: nat)
    requires IsRun(ws, ops) && n < |ws| && b in ws[n].db.batches
    ensures i < n && Creates(ws, ops, i, b)
    decreases n
  {
    if b in ws[n - 1].db.batches {
      i := Creator(ws, ops, n - 1, b);
    } else {
      Workflow.EveryRun(ws, ops, n - 1);
      OnlyCreateAdds(ws[n - 1], ops[n - 1], ws[n], b);
      i := n - 1;
    }
  }

  // New rows

  /** The columns of a row that no call changes, as asked. */
  predicate StandsFor(row: Job, a: Ask) {
    && row.queue == a.queue && row.name == a.name && row.createdAt == a.since && row.priority == a.priority
    && row.tags == Join(a.tags, ',') && row.maxAttempts == a.attempts
  }

  predicate IsNew(row: Job, a: Ask) {
    StandsFor(row, a) && row.runAt == a.at && row.attempts == 0
  }

  /** What CreateBatch asked for, as the batch row has it. */
  function CallbackOf(batch: Tables.Batch, now: int): Ask {
    Ask(batch.callbackQueue, batch.callbackName, now, now, 0, [], 3)
  }

  predicate IsCallback(row: Job, batch: Tables.Batch, now: int) {
    row.status.Pending? && IsNew(row, CallbackOf(batch, now))
  }

  lemma SubmitCallback(db: Database, b: string, now: int, callbackId: JobId, e: Ops.Effect)
    requires Ops.SubmitBatch(db, b, now, callbackId) == Some(e) && callbackId !in db.jobs && callbackId in e.db.jobs
    ensures b in db.batches && IsCallback(e.db.jobs[callbackId], db.batches[b], now)
  {
  }

  lemma AckCallback(db: Database, b: string, now: int, callbackId: JobId, e: Ops.Effect)
    requires Ops.HandleBatchAck(db, b, now, callbackId) == Some(e) && callbackId !in db.jobs && callbackId in e.db.jobs
    ensures b in db.batches && IsCallback(e.db.jobs[callbackId], db.batches[b], now)
  {
  }

  lemma CallbackOfAck(db: Database, j: JobId, now: int, callbackId: JobId, e: Ops.Effect)
    requires j in db.jobs && Ops.Ack(db, j, now, callbackId) == Some(e)
    requires callbackId !in db.jobs && callbackId in e.db.jobs
    ensures var b := db.jobs[j].batchId;
            b != "" && b in db.batches && IsCallback(e.db.jobs[callbackId], db.batches[b], now)
  {
    var t := Ops.ResolveDependencies(Ops.MarkProcessed(db, j), j);
    assert t.batches == db.batches && t.jobs.Keys == db.jobs.Keys;
    AckCallback(t, db.jobs[j].batchId, now, callbackId, e);
  }

  lemma AckedCallback(w: World, j: JobId, now: int, callbackId: JobId, w': World)
    requires j in w.db.jobs && Fresh(w, callbackId) && w' == AfterAck(w, j, now, callbackId) && callbackId in w'.db.jobs
    ensures var b := w.db.jobs[j].batchId;
            b != "" && b in w.db.batches && IsCallback(w'.db.jobs[callbackId], w.db.batches[b], now)
  {
    var r := Ops.Ack(w.db, j, now, callbackId);
    assert r.Some? && w'.db == r.value.db;
    CallbackOfAck(w.db, j, now, callbackId, r.value);
  }

  lemma AskedByOne(env: Envelope, now: int, plain: bool, a: Ask, row: Job)
    requires AskedBy(env, now, plain, a)
    requires row.queue == env.queue && row.name == env.name && row.createdAt == now && row.attempts == 0
    requires row.runAt == Ops.RunAtOr(env, now) && row.maxAttempts == GetMaxAttempts(env.maxAttempts)
    requires row.priority == (if plain then env.priority else 0)
    requires row.tags == if plain then Join(env.tags, ',') else ""
    ensures IsNew(row, a)
  {
  }

  lemma AskedEnqueue(w: World, op: Op, w': World, a: Ask)
    requires op.Enqueue? || op.EnqueueInBatch?
    requires Allowed(w, op) && Next(w, op, w') && op.env.jobId in w'.db.jobs && AskedBy(op.env, op.now, op.Enqueue?, a)
    ensures IsNew(w'.db.jobs[op.env.jobId], a) && w'.db.jobs[op.env.jobId].status.Pending?
  {
    AskedByOne(op.env, op.now, op.Enqueue?, a, w'.db.jobs[op.env.jobId]);
  }

  lemma AskedWorkflow(w: World, envs: seq<Envelope>, now: int, w': World, env: Envelope, a: Ask)
    requires Allowed(w, EnqueueWorkflow(envs, now)) && w' == AfterWorkflow(w, envs, now) && w' != w
    requires env in envs && AskedBy(env, now, false, a)
    ensures env.jobId in w'.db.jobs && IsNew(w'.db.jobs[env.jobId], a)
    ensures w'.db.jobs[env.jobId].status == if env.dependencies == [] then Pending else Blocked
  {
    Workflow.WorkflowInserted(w.db, envs, now);
    AskedByOne(env, now, false, a, w'.db.jobs[env.jobId]);
  }

  lemma CalledBackAs(ws: seq<World>, ops: seq<Op>, k: nat, b: string, now: int, a: Ask)
    requires IsRun(ws, ops) && k < |ops| && CalledBack(ws, ops, k, b, now, a)
    ensures b in ws[k].db.batches && a == CallbackOf(ws[k].db.batches[b], now)
  {
    var i: nat :| i < k && Creates(ws, ops, i, b) &&
      a == Ask(ops[i].callbackQueue, ops[i].callbackName, now, now, 0, [], 3);
    BatchAsCreated(ws, ops, i, k, b);
  }

  lemma CalledBackBy(ws: seq<World>, ops: seq<Op>, k: nat, b: string, now: int)
    requires IsRun(ws, ops) && k < |ops| && b in ws[k].db.batches
    ensures CalledBack(ws, ops, k, b, now, CallbackOf(ws[k].db.batches[b], now))
  {
    var i := Creator(ws, ops, k, b);
    BatchAsCreated(ws, ops, i, k, b);
  }

  /** The row that a call inserts is the one asked for. */
  lemma AskedRow(ws: seq<World>, ops: seq<Op>, k: nat, id: JobId, a: Ask)
    requires IsRun(ws, ops) && Asks(ws, ops, k, id, a)
    ensures IsNew(ws[k + 1].db.jobs[id], a)
  {
    var w, op, w' := ws[k], ops[k], ws[k + 1];
    assert Allowed(w, op) && Next(w, op, w');
    match op
    case Enqueue(_, _) => AskedEnqueue(w, op, w', a);
    case EnqueueInBatch(_, _, _) => AskedEnqueue(w, op, w', a);
    case EnqueueWorkflow(envs, now) =>
      var env :| env in envs && env.jobId == id && AskedBy(env, now, false, a);
      AskedWorkflow(w, envs, now, w', env, a);
    case SubmitBatch(b, now, callbackId) => AskedSubmit(ws, ops, k, a);
    case Ack(j, now, callbackId) => AskedAck(ws, ops, k, a);
  }

  lemma AskedSubmit(ws: seq<World>, ops: seq<Op>, k: nat, a: Ask)
    requires IsRun(ws, ops) && k < |ops| && ops[k].SubmitBatch? && Asks(ws, ops, k, ops[k].callbackId, a)
    ensures IsNew(ws[k + 1].db.jobs[ops[k].callbackId], a)
  {
    var op := ops[k];
    assert Allowed(ws[k], op) && Next(ws[k], op, ws[k + 1]);
    var r := Ops.SubmitBatch(ws[k].db, op.batchId, op.now, op.callbackId);
    assert r.Some? && ws[k + 1].db == r.value.db;
    SubmitCallback(ws[k].db, op.batchId, op.now, op.callbackId, r.value);
    CalledBackAs(ws, ops, k, op.batchId, op.now, a);
  }

  lemma AskedAck(ws: seq<World>, ops: seq<Op>, k: nat, a: Ask)
    requires IsRun(ws, ops) && k < |ops| && ops[k].Ack? && Asks(ws, ops, k, ops[k].callbackId, a)
    ensures IsNew(ws[k + 1].db.jobs[ops[k].callbackId], a)
  {
    var op := ops[k];
    var b :| op.id in MembersOf(ws[k], b) && CalledBack(ws, ops, k, b, op.now, a);
    AckedRowBy(ws, ops, k);
    CalledBackAs(ws, ops, k, b, op.now, a);
  }

  /** A callback that an acknowledgement adds is that of the batch of which its job is a member. */
  lemma AckedRowBy(ws: seq<World>, ops: seq<Op>, k: nat)
    requires IsRun(ws, ops) && k < |ops| && ops[k].Ack?
    requires ops[k].callbackId !in ws[k].db.jobs && ops[k].callbackId in ws[k + 1].db.jobs
    ensures ops[k].id in ws[k].db.jobs
    ensures var b := ws[k].db.jobs[ops[k].id].batchId;
            && (forall c :: ops[k].id in MembersOf(ws[k], c) <==> c == b) && b in ws[k].db.batches
            && IsCallback(ws[k + 1].db.jobs[ops[k].callbackId], ws[k].db.batches[b], ops[k].now)
  {
    var w, op := ws[k], ops[k];
    Batch.EveryRun(ws, ops, k);
    assert Allowed(w, op) && Next(w, op, ws[k + 1]);
    if op.id !in w.db.jobs {
      Workflow.LateReport(w, op, ws[k + 1]);
    } else {
      AckedCallback(w, op.id, op.now, op.callbackId, ws[k + 1]);
      OnlyMember(w, op.id);
    }
  }

  lemma OnlyMember(w: World, id: JobId)
    requires Batch.MembersOk(w) && id in w.db.jobs && w.db.jobs[id].batchId != ""
    ensures forall c :: id in MembersOf(w, c) <==> c == w.db.jobs[id].batchId
  {
    forall c ensures id in MembersOf(w, c) <==> c == w.db.jobs[id].batchId {
      assert c in w.members ==> (id in w.members[c] <==> w.db.jobs[id].batchId == c);
    }
  }

  /** What an envelope asks for, spelled out. */
  function AskIn(env: Envelope, now: int, plain: bool): (a: Ask)
    ensures AskedBy(env, now, plain, a)
  {
    Ask(env.queue, env.name, if env.runAt.Some? then env.runAt.value else now, now, if plain then env.priority else 0,
        if plain then env.tags else [], if env.maxAttempts > 0 then env.maxAttempts else 3)
  }

  lemma SubmitAdds(w: World, op: Op, w': World, id: JobId)
    requires op.SubmitBatch? && w' == AfterSubmit(w, op.batchId, op.now, op.callbackId)
    requires id !in w.db.jobs && id in w'.db.jobs
    ensures id == op.callbackId
  {
    var r := Ops.SubmitBatch(w.db, op.batchId, op.now, op.callbackId);
    assert r.Some? && w'.db == r.value.db && Ops.AddsCallbackOnly(w.db, r.value, op.callbackId);
  }

  /** Only the calls that enqueue jobs, and those that may call back, add a row. */
  lemma Adds(w: World, op: Op, w': World, id: JobId)
    requires Workflow.EdgesOk(w.db, w.declared) && Allowed(w, op) && Next(w, op, w')
    requires id !in w.db.jobs && id in w'.db.jobs
    ensures match op
            case Enqueue(env, _) => id == env.jobId
            case EnqueueInBatch(_, env, _) => id == env.jobId
            case EnqueueWorkflow(envs, _) => w' != w && exists env :: env in envs && env.jobId == id
            case SubmitBatch(_, _, callbackId) => id == callbackId
            case Ack(_, _, callbackId) => id == callbackId
            case _ => false
  {
    if Workflow.IsLateReport(w, op) {
      Workflow.LateReport(w, op, w');
    } else if op.EnqueueWorkflow? {
      if w' != w {
        Workflow.WorkflowInserted(w.db, op.envs, op.now);
      }
    } else if op.SubmitBatch? {
      SubmitAdds(w, op, w', id);
    } else if op.Ack? && w' != w {
      Ops.AckRows(w.db, op.id, op.now, op.callbackId);
    }
  }

  /** Every row that a call adds was asked for. */
  lemma AskedFor(ws: seq<World>, ops: seq<Op>, k: nat, id: JobId) returns (a: Ask)
    requires IsRun(ws, ops) && k < |ops| && id !in ws[k].db.jobs && id in ws[k + 1].db.jobs
    ensures Asks(ws, ops, k, id, a)
  {
    Workflow.EveryRun(ws, ops, k);
    assert Allowed(ws[k], ops[k]) && Next(ws[k], ops[k], ws[k + 1]);
    Adds(ws[k], ops[k], ws[k + 1], id);
    match ops[k]
    case Enqueue(env, now) => a := AskIn(env, now, true);
    case EnqueueInBatch(_, env, now) => a := AskIn(env, now, false);
    case EnqueueWorkflow(envs, now) =>
      var env :| env in envs && env.jobId == id;
      a := AskIn(env, now, false);
    case SubmitBatch(b, now, callbackId) =>
      var r := Ops.SubmitBatch(ws[k].db, b, now, callbackId);
      assert r.Some?;
      CalledBackBy(ws, ops, k, b, now);
      a := CallbackOf(ws[k].db.batches[b], now);
    case Ack(j, now, callbackId) =>
      AckedRowBy(ws, ops, k);
      var b := ws[k].db.jobs[j].batchId;
      assert j in MembersOf(ws[k], b);
      CalledBackBy(ws, ops, k, b, now);
      a := CallbackOf(ws[k].db.batches[b], now);
  }

  /** Every job was asked for by some call. */
  lemma {:induction false} Asker(ws: seq<World>, ops: seq<Op>, n: nat, id: JobId) returns (k: nat, a: Ask)
    requires IsRun(ws, ops) && n < |ws| && id in ws[n].db.jobs
    ensures k < n && Asks(ws, ops, k, id, a)
    decreases n
  {
    if id in ws[n - 1].db.jobs {
      k, a := Asker(ws, ops, n - 1, id);
    } else {
      k := n - 1;
      a := AskedFor(ws, ops, k, id);
    }
  }

  // From a call to a later moment

  /** Once a job has a row it is known, and a known job gets no new row. */
  lemma {:induction false} KnownSince(ws: seq<World>, ops: seq<Op>, k: nat, m: nat, id: JobId)
    requires IsRun(ws, ops) && k <= m < |ws| && id in ws[k].db.jobs
    ensures id in ws[m].declared && Workflow.Inv(ws[m])
    decreases m
  {
    Workflow.EveryRun(ws, ops, m);
    if m > k {
      KnownSince(ws, ops, k, m - 1, id);
      StepKeeps(ws[m - 1], ops[m - 1], ws[m], id);
    }
  }

  /** At every later moment the job's row, if it is still there, stands for what was asked. */
  lemma {:induction false} StandsSince(ws: seq<World>, ops: seq<Op>, k: nat, m: nat, id: JobId, a: Ask)
    requires IsRun(ws, ops) && Asks(ws, ops, k, id, a) && k < m < |ws| && id in ws[m].db.jobs
    ensures StandsFor(ws[m].db.jobs[id], a)
    decreases m
  {
    if m == k + 1 {
      AskedRow(ws, ops, k, id, a);
    } else {
      KnownSince(ws, ops, k + 1, m - 1, id);
      StepKeeps(ws[m - 1], ops[m - 1], ws[m], id);
      StandsSince(ws, ops, k, m - 1, id, a);
    }
  }
}
