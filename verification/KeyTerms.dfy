/** When a unique key is taken and for how long, by what the calls of a run have asked for. */
module KeyTerms {
  import opened Graph
  import opened Tables
  import Ops = Operations
  import opened Runs
  import Workflow = WorkflowSafety
  import Batch = SqlBatch
  import Requests
  import opened UniqueLocks
  import opened KeyTouches
  import opened KeyHolders

  // Steps that insert

  /** The transaction is refused a lock exactly when an unfinished job has the key. */
  lemma AcquiresIff(s: Database, env: Envelope, now: int)
    requires Named(s) && HoldersLive(s) && NoneExpired(s, now) && Unheard(s, env.jobId)
    ensures Ops.AcquireLock(s.locks, s.jobs, env, now).None? <==>
            env.uniqueKey != "" && LiveJobWith(s, LockKey(env.queue, env.uniqueKey))
  {
    var k := LockKey(env.queue, env.uniqueKey);
    if env.uniqueKey != "" && k in s.locks && s.locks[k].holder in s.jobs {
      assert HoldsFor(s, k);
    }
  }

  lemma LiveAfterInsert(s: Database, env: Envelope, t: Database, k: string)
    requires env.jobId !in s.jobs
    requires t.jobs.Keys == s.jobs.Keys + {env.jobId} && forall id :: id in s.jobs ==> t.jobs[id] == s.jobs[id]
    requires t.jobs[env.jobId].queue == env.queue && t.jobs[env.jobId].uniqueKey == env.uniqueKey
    requires t.jobs[env.jobId].Live()
    ensures LiveJobWith(t, k) <==> LiveJobWith(s, k) || (env.uniqueKey != "" && k == LockKey(env.queue, env.uniqueKey))
  {
    if j :| Keyed(s, j) && KeyOf(s.jobs[j]) == k {
      assert Keyed(t, j) && KeyOf(t.jobs[j]) == k;
    }
    if env.uniqueKey != "" && k == LockKey(env.queue, env.uniqueKey) {
      assert Keyed(t, env.jobId) && KeyOf(t.jobs[env.jobId]) == k;
    }
    if j :| Keyed(t, j) && KeyOf(t.jobs[j]) == k {
      assert j != env.jobId ==> Keyed(s, j);
    }
  }

  /** The envelopes ask for different keys, none of which an unfinished job has. */
  ghost predicate KeysFree(s: Database, envs: seq<Envelope>) {
    && (forall env :: env in envs && env.uniqueKey != "" ==> !LiveJobWith(s, LockKey(env.queue, env.uniqueKey)))
    && forall i, j :: 0 <= i < j < |envs| ==> !SameKey(envs[i], envs[j])
  }

  lemma FreeBySteps(s: Database, envs: seq<Envelope>, first: Database)
    requires envs != [] && forall k :: LiveJobWith(first, k) <==>
      LiveJobWith(s, k) || (envs[0].uniqueKey != "" && k == LockKey(envs[0].queue, envs[0].uniqueKey))
    requires envs[0].uniqueKey != "" ==> !LiveJobWith(s, LockKey(envs[0].queue, envs[0].uniqueKey))
    ensures KeysFree(s, envs) <==> KeysFree(first, envs[1..])
  {
    assert forall env :: env in envs <==> env == envs[0] || env in envs[1..];
    if KeysFree(s, envs) {
      forall env | env in envs[1..] && env.uniqueKey != ""
        ensures !LiveJobWith(first, LockKey(env.queue, env.uniqueKey))
      {
        var i :| 0 < i < |envs| && envs[i] == env;
        assert !SameKey(envs[0], envs[i]);
      }
    }
    if KeysFree(first, envs[1..]) {
      forall i, j | 0 <= i < j < |envs| ensures !SameKey(envs[i], envs[j]) {
        assert envs[j] in envs[1..];
        assert i > 0 ==> envs[i] == envs[1..][i - 1] && envs[j] == envs[1..][j - 1];
      }
    }
  }

  lemma InsertedFirst(s: Database, env: Envelope, now: int)
    requires Named(s) && NoneExpired(s, now) && HoldersLive(s) && Unheard(s, env.jobId)
    requires Ops.InsertWorkflowJob(s, env, now).Some?
    ensures var t := Ops.InsertWorkflowJob(s, env, now).value;
            && HoldersLive(t)
            && (env.uniqueKey != "" ==> var k := LockKey(env.queue, env.uniqueKey);
                  k in t.locks && t.locks[k] == Lock(env.jobId, Ops.LockExpires(env, now)))
            && forall k :: LiveJobWith(t, k) <==>
                 LiveJobWith(s, k) || (env.uniqueKey != "" && k == LockKey(env.queue, env.uniqueKey))
  {
    var t := Ops.InsertWorkflowJob(s, env, now).value;
    InsertHolds(s, env, now, t);
    forall k ensures LiveJobWith(t, k) <==>
                     LiveJobWith(s, k) || (env.uniqueKey != "" && k == LockKey(env.queue, env.uniqueKey))
    {
      LiveAfterInsert(s, env, t, k);
    }
  }

  /** A workflow is committed exactly when its keys are free, and then has locked them all. */
  lemma {:induction false} WorkflowCommitsIff(s: Database, envs: seq<Envelope>, now: int)
    requires Named(s) && NoneExpired(s, now) && HoldersLive(s) && DistinctIds(envs)
    requires forall env :: env in envs ==> Unheard(s, env.jobId)
    ensures Ops.EnqueueWorkflow(s, envs, now).Some? <==> KeysFree(s, envs)
    ensures Ops.EnqueueWorkflow(s, envs, now).Some? ==> HoldersLive(Ops.EnqueueWorkflow(s, envs, now).value)
    decreases |envs|
  {
    if envs != [] {
      AcquiresIff(s, envs[0], now);
      if Ops.InsertWorkflowJob(s, envs[0], now).Some? {
        var first := Ops.InsertWorkflowJob(s, envs[0], now).value;
        AcquiredFirst(s, envs[0], now);
        InsertedFirst(s, envs[0], now);
        RestUnheard(s, envs, first);
        FreeBySteps(s, envs, first);
        WorkflowCommitsIff(first, envs[1..], now);
      } else {
        assert envs[0] in envs;
      }
    }
  }

  /** What each key of a committed workflow is locked for. */
  lemma {:induction false} WorkflowTerms(s: Database, envs: seq<Envelope>, now: int, env: Envelope)
    requires Named(s) && NoneExpired(s, now) && HoldersLive(s) && DistinctIds(envs)
    requires forall e :: e in envs ==> Unheard(s, e.jobId)
    requires Ops.EnqueueWorkflow(s, envs, now).Some? && env in envs && env.uniqueKey != ""
    ensures var t, k := Ops.EnqueueWorkflow(s, envs, now).value, LockKey(env.queue, env.uniqueKey);
            k in t.locks && t.locks[k] == Lock(env.jobId, Ops.LockExpires(env, now))
    decreases |envs|
  {
    var first, t := Ops.InsertWorkflowJob(s, envs[0], now).value, Ops.EnqueueWorkflow(s, envs, now).value;
    AcquiredFirst(s, envs[0], now);
    InsertedFirst(s, envs[0], now);
    RestUnheard(s, envs, first);
    if env in envs[1..] {
      WorkflowTerms(first, envs[1..], now, env);
    } else {
      WorkflowCommitsIff(s, envs, now);
      WorkflowTouches(first, envs[1..], now);
      FirstUntouched(s, envs, env);
    }
  }

  /** No later envelope of a workflow has the key of the first one. */
  lemma FirstUntouched(s: Database, envs: seq<Envelope>, env: Envelope)
    requires KeysFree(s, envs) && envs != [] && env == envs[0] && env.uniqueKey != ""
    ensures LockKey(env.queue, env.uniqueKey) !in EnvelopeKeys(envs[1..])
  {
    forall e | e in envs[1..] && e.uniqueKey != ""
      ensures LockKey(e.queue, e.uniqueKey) != LockKey(env.queue, env.uniqueKey)
    {
      var i :| 0 < i < |envs| && envs[i] == e;
      assert !SameKey(envs[0], envs[i]);
    }
  }

  /** The keys that a call asks for are all different, and no unfinished job has one of them. */
  ghost predicate AsksForFreeKeys(db: Database, op: Op) {
    match op
    case Enqueue(env, _) => KeysFree(db, [env])
    case EnqueueInBatch(_, env, _) => KeysFree(db, [env])
    case EnqueueWorkflow(envs, _) => KeysFree(db, envs)
    case _ => true
  }

  lemma OneEnqueuedIff(w: World, op: Op, w': World)
    requires UniqueLocks.Inv(w) && HoldersLive(w.db) && Allowed(w, op) && LockAllowed(w, op) && Next(w, op, w')
    requires op.Enqueue? || op.EnqueueInBatch?
    ensures op.env.jobId in w'.db.jobs <==> KeysFree(w.db, [op.env])
  {
    AcquiresIff(w.db, op.env, op.now);
    assert op.env in [op.env];
  }

  /**
   * In every run in which locks outlive their jobs, a call that enqueues is refused exactly when an unfinished job has
   * one of its keys, or two of its own jobs share one.
   */
  lemma EnqueuedIff(ws: seq<World>, ops: seq<Op>, n: nat)
    requires IsLockRun(ws, ops) && n < |ops|
    requires ops[n].Enqueue? || ops[n].EnqueueInBatch? || (ops[n].EnqueueWorkflow? && ops[n].envs != [])
    ensures Enqueued(ws[n + 1], ops[n]) <==> AsksForFreeKeys(ws[n].db, ops[n])
    ensures !Enqueued(ws[n + 1], ops[n]) ==> ws[n + 1] == ws[n]
  {
    UniqueLocks.EveryRun(ws, ops, n);
    HoldersRun(ws, ops, n);
    var w, op, w' := ws[n], ops[n], ws[n + 1];
    assert Allowed(w, op) && LockAllowed(w, op) && Next(w, op, w');
    if op.EnqueueWorkflow? {
      WorkflowCommitsIff(w.db, op.envs, op.now);
      assert op.envs[0] in op.envs;
      if Ops.EnqueueWorkflow(w.db, op.envs, op.now).Some? {
        Workflow.WorkflowInserted(w.db, op.envs, op.now);
      }
    } else {
      OneEnqueuedIff(w, op, w');
    }
  }

  // How long

  lemma WorkflowTermSet(w: World, envs: seq<Envelope>, now: int, w': World, env: Envelope)
    requires UniqueLocks.Inv(w) && HoldersLive(w.db) && NoneExpired(w.db, now)
    requires Allowed(w, EnqueueWorkflow(envs, now)) && w' == AfterWorkflow(w, envs, now) && w' != w
    requires env in envs && env.uniqueKey != "" && Keyed(w'.db, env.jobId)
    ensures var k := KeyOf(w'.db.jobs[env.jobId]);
            k in w'.db.locks && w'.db.locks[k] == Lock(env.jobId, Ops.LockExpires(env, now))
  {
    WorkflowTerms(w.db, envs, now, env);
    Workflow.WorkflowInserted(w.db, envs, now);
  }

  lemma TermSet(w: World, op: Op, w': World, id: JobId, until: int)
    requires UniqueLocks.Inv(w) && HoldersLive(w.db) && Allowed(w, op) && LockAllowed(w, op) && Next(w, op, w')
    requires w' != w && AsksTerm(op, id, until) && Keyed(w'.db, id)
    ensures KeyOf(w'.db.jobs[id]) in w'.db.locks && w'.db.locks[KeyOf(w'.db.jobs[id])] == Lock(id, until)
  {
    if op.EnqueueWorkflow? {
      var env :| env in op.envs && env.jobId == id && IsTerm(env, op.now, until);
      WorkflowTermSet(w, op.envs, op.now, w', env);
    } else {
      InsertHolds(w.db, op.env, op.now, w'.db);
    }
  }

  /** A lock that a known job keeps is not written. */
  lemma TermKept(w: World, op: Op, w': World, id: JobId)
    requires UniqueLocks.Inv(w) && UniqueLocks.Inv(w') && Allowed(w, op) && LockAllowed(w, op) && Next(w, op, w')
    requires id in w.declared && Keyed(w.db, id) && Keyed(w'.db, id) && KeyOf(w'.db.jobs[id]) == KeyOf(w.db.jobs[id])
    ensures w'.db.locks[KeyOf(w'.db.jobs[id])] == w.db.locks[KeyOf(w.db.jobs[id])]
  {
    if op.Enqueue? {
      if w' != w {
        InsertTouches(w.db, op.env, op.now, w'.db);
        assert id !in EnvelopeIds([op.env]);
      }
    } else {
      TransactTouches(w, op, w');
      assert id !in IdsOf(op);
    }
  }

  /** A job that is unfinished under a key was so before, unless it is new. */
  lemma KeyedBefore(w: World, op: Op, w': World, id: JobId)
    requires Workflow.EdgesOk(w.db, w.declared) && Allowed(w, op) && Next(w, op, w')
    requires id in w.declared && Keyed(w'.db, id)
    ensures Keyed(w.db, id) && KeyOf(w.db.jobs[id]) == KeyOf(w'.db.jobs[id])
  {
    Requests.StepKeeps(w, op, w', id);
    if Batch.Gone(w.db, id) {
      Batch.GoneStep(w, op, w', id);
    }
  }

  /** While a job is unfinished, the lock of its key is its own, for the time asked for and no longer. */
  lemma {:induction false} KeptAsAsked(ws: seq<World>, ops: seq<Op>, k: nat, m: nat, id: JobId, until: int)
    requires IsLockRun(ws, ops) && Takes(ws, ops, k, id, until) && k < m < |ws| && Keyed(ws[m].db, id)
    ensures KeyOf(ws[m].db.jobs[id]) in ws[m].db.locks && ws[m].db.locks[KeyOf(ws[m].db.jobs[id])] == Lock(id, until)
    decreases m
  {
    UniqueLocks.EveryRun(ws, ops, m - 1);
    UniqueLocks.EveryRun(ws, ops, m);
    if m == k + 1 {
      HoldersRun(ws, ops, k);
      assert Allowed(ws[k], ops[k]) && LockAllowed(ws[k], ops[k]) && Next(ws[k], ops[k], ws[k + 1]);
      TermSet(ws[k], ops[k], ws[k + 1], id, until);
    } else {
      Requests.KnownSince(ws, ops, k + 1, m - 1, id);
      KeyedBefore(ws[m - 1], ops[m - 1], ws[m], id);
      KeptAsAsked(ws, ops, k, m - 1, id, until);
      TermKept(ws[m - 1], ops[m - 1], ws[m], id);
    }
  }

  // Locks that outlive their jobs, by the times asked for

  lemma NewRowKey(w: World, op: Op, w': World, id: JobId) returns (until: int)
    requires Workflow.EdgesOk(w.db, w.declared) && Allowed(w, op) && Next(w, op, w')
    requires id !in w.db.jobs && Keyed(w'.db, id)
    ensures AsksTerm(op, id, until)
  {
    Requests.Adds(w, op, w', id);
    match op
    case Enqueue(env, now) => until := now + if env.uniqueTTL > 0 then env.uniqueTTL else 86400;
    case EnqueueInBatch(_, env, now) => until := now + if env.uniqueTTL > 0 then env.uniqueTTL else 86400;
    case EnqueueWorkflow(envs, now) =>
      var env :| env in envs && env.jobId == id;
      Workflow.WorkflowInserted(w.db, envs, now);
      until := now + if env.uniqueTTL > 0 then env.uniqueTTL else 86400;
      assert IsTerm(env, now, until);
    case SubmitBatch(_, _, _) => CallbackHasNoKey(w, op, w');
    case Ack(_, _, _) => CallbackHasNoKey(w, op, w');
  }

  lemma CallbackHasNoKey(w: World, op: Op, w': World)
    requires Workflow.EdgesOk(w.db, w.declared) && Allowed(w, op) && Next(w, op, w') && (op.SubmitBatch? || op.Ack?)
    requires op.callbackId !in w.db.jobs && op.callbackId in w'.db.jobs
    ensures w'.db.jobs[op.callbackId].uniqueKey == ""
  {
    if Workflow.IsLateReport(w, op) {
      Workflow.LateReport(w, op, w');
    } else if op.SubmitBatch? {
      var r := Ops.SubmitBatch(w.db, op.batchId, op.now, op.callbackId);
      assert r.Some? ==> w'.db == r.value.db && Ops.AddsCallbackOnly(w.db, r.value, op.callbackId);
    } else {
      AckCallbackKey(w.db, op.id, op.now, op.callbackId);
    }
  }

  lemma AckCallbackKey(db: Database, id: JobId, now: int, callbackId: JobId)
    requires id in db.jobs && callbackId !in db.jobs && Ops.Ack(db, id, now, callbackId).Some?
    ensures var t := Ops.Ack(db, id, now, callbackId).value.db;
            callbackId in t.jobs ==> t.jobs[callbackId].uniqueKey == ""
  {
    var t := Ops.ResolveDependencies(Ops.MarkProcessed(db, id), id);
    assert t.jobs.Keys == db.jobs.Keys;
  }

  /** Every unfinished job with a key has taken it by some call. */
  lemma {:induction false} Taker(ws: seq<World>, ops: seq<Op>, n: nat, id: JobId) returns (k: nat, until: int)
    requires IsRun(ws, ops) && n < |ws| && Keyed(ws[n].db, id)
    ensures k < n && Takes(ws, ops, k, id, until)
    decreases n
  {
    Workflow.EveryRun(ws, ops, n - 1);
    if id in ws[n - 1].db.jobs {
      KeyedBefore(ws[n - 1], ops[n - 1], ws[n], id);
      k, until := Taker(ws, ops, n - 1, id);
    } else {
      k := n - 1;
      until := NewRowKey(ws[k], ops[k], ws[n], id);
    }
  }

  /** No call enqueues after a key of an unfinished job was asked to run out, and only unfinished jobs are cancelled. */
  ghost predicate InTerm(ws: seq<World>, ops: seq<Op>, n: nat)
    requires |ws| == |ops| + 1 && n < |ops|
  {
    && (ops[n].Cancel? && ops[n].id in ws[n].db.jobs ==> ws[n].db.jobs[ops[n].id].Live())
    && (ops[n].Enqueue? || ops[n].EnqueueInBatch? || ops[n].EnqueueWorkflow? ==>
          forall k: nat, id, until :: k < n && Takes(ws, ops, k, id, until) && Keyed(ws[n].db, id) ==>
            ops[n].now < until)
  }

  lemma Prefix(ws: seq<World>, ops: seq<Op>, n: nat, k: nat, id: JobId, until: int)
    requires |ws| == |ops| + 1 && k < n <= |ops| && Takes(ws, ops, k, id, until)
    ensures Takes(ws[..n + 1], ops[..n], k, id, until)
  {
  }

  lemma TermAllows(ws: seq<World>, ops: seq<Op>, n: nat)
    requires IsRun(ws, ops) && n < |ops| && InTerm(ws, ops, n) && IsLockRun(ws[..n + 1], ops[..n])
    ensures LockAllowed(ws[n], ops[n])
  {
    if ops[n].Enqueue? || ops[n].EnqueueInBatch? || ops[n].EnqueueWorkflow? {
      forall id | Keyed(ws[n].db, id) && KeyOf(ws[n].db.jobs[id]) in ws[n].db.locks
        ensures ops[n].now < ws[n].db.locks[KeyOf(ws[n].db.jobs[id])].expiresAt
      {
        var k, until := Taker(ws, ops, n, id);
        Prefix(ws, ops, n, k, id, until);
        KeptAsAsked(ws[..n + 1], ops[..n], k, n, id, until);
      }
    }
  }

  lemma {:induction false} TermsSuffice(ws: seq<World>, ops: seq<Op>, n: nat)
    requires IsRun(ws, ops) && n <= |ops| && forall i :: 0 <= i < n ==> InTerm(ws, ops, i)
    ensures IsLockRun(ws[..n + 1], ops[..n])
    decreases n
  {
    var vs, qs := ws[..n + 1], ops[..n];
    if n > 0 {
      TermsSuffice(ws, ops, n - 1);
      TermAllows(ws, ops, n - 1);
      forall i {:trigger qs[i]} | 0 <= i < n ensures LockAllowed(vs[i], qs[i]) {
        if i < n - 1 {
          assert ws[..n][i] == vs[i] && ops[..n - 1][i] == qs[i];
        }
      }
    }
  }

  /** A run whose calls all keep to the times asked for is one for which the claims about keys hold. */
  lemma InTermRun(ws: seq<World>, ops: seq<Op>)
    requires IsRun(ws, ops) && forall i :: 0 <= i < |ops| ==> InTerm(ws, ops, i)
    ensures IsLockRun(ws, ops)
  {
    TermsSuffice(ws, ops, |ops|);
    assert ws[..|ops| + 1] == ws && ops[..|ops|] == ops;
  }
}
