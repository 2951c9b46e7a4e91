/** Whom a lock row names, and until when, in every run: the unfinished job that took the key, for the time it asked. */
module KeyHolders {
  import opened Graph
  import opened Tables
  import opened Cascade
  import Ops = Operations
  import opened Runs
  import Workflow = WorkflowSafety
  import Requests
  import opened UniqueLocks

  // Which jobs share a key

  /** The second queue is the first one and a colon and more, and that much of it stands in the first key. */
  ghost predicate RunsOver(q1: string, k1: string, q2: string, k2: string) {
    exists m: string {:trigger m + ":" + k2} :: q2 == q1 + ":" + m && k1 == m + ":" + k2
  }

  lemma SharedPrefix(q1: string, k1: string, q2: string, k2: string)
    requires q1 + ":" + k1 == q2 + ":" + k2 && |q1| < |q2|
    ensures RunsOver(q1, k1, q2, k2)
  {
    var m := q2[|q1| + 1..];
    var s := q1 + ":" + k1;
    assert s[..|q2|] == q2 && s[|q1| + 1..] == k1 && s[|q2|..] == ":" + k2;
    assert q2 == s[..|q1|] + s[|q1|..|q1| + 1] + m;
    assert k1 == m + ":" + k2;
  }

  /**
   * Two jobs of one queue share a lock exactly when their keys are equal. Two of different queues share one exactly
   * when one queue runs over into the other's key, for which it must hold a colon.
   */
  lemma ShareLockIff(q1: string, k1: string, q2: string, k2: string)
    ensures LockKey(q1, k1) == LockKey(q2, k2) <==>
            (q1 == q2 && k1 == k2) || RunsOver(q1, k1, q2, k2) || RunsOver(q2, k2, q1, k1)
    ensures RunsOver(q1, k1, q2, k2) ==> ':' in q2 && q1 != q2
  {
    if LockKey(q1, k1) == LockKey(q2, k2) {
      if |q1| < |q2| {
        SharedPrefix(q1, k1, q2, k2);
      } else if |q2| < |q1| {
        SharedPrefix(q2, k2, q1, k1);
      } else {
        assert LockKey(q1, k1)[..|q1|] == q1 && LockKey(q2, k2)[..|q1|] == q2;
        assert LockKey(q1, k1)[|q1| + 1..] == k1 && LockKey(q2, k2)[|q1| + 1..] == k2;
      }
    }
    if RunsOver(q1, k1, q2, k2) {
      RunningOverShares(q1, k1, q2, k2);
    }
    if RunsOver(q2, k2, q1, k1) {
      RunningOverShares(q2, k2, q1, k1);
    }
  }

  lemma RunningOverShares(q1: string, k1: string, q2: string, k2: string)
    requires RunsOver(q1, k1, q2, k2)
    ensures LockKey(q1, k1) == LockKey(q2, k2) && ':' in q2 && q1 != q2
  {
    var m: string :| q2 == q1 + ":" + m && k1 == m + ":" + k2;
    assert q2[|q1|] == ':';
    assert q1 + ":" + (m + ":" + k2) == q1 + ":" + m + ":" + k2;
  }

  // Who holds a lock

  /** A lock whose holder has a row belongs to an unfinished job of that key. */
  ghost predicate HoldersLive(db: Database) {
    forall k :: k in db.locks && db.locks[k].holder in db.jobs ==> HoldsFor(db, k)
  }

  predicate HoldsFor(db: Database, k: string)
    requires k in db.locks
  {
    Keyed(db, db.locks[k].holder) && KeyOf(db.jobs[db.locks[k].holder]) == k
  }

  // Steps that insert

  lemma InsertHolds(s: Database, env: Envelope, now: int, t: Database)
    requires HoldersLive(s) && Unheard(s, env.jobId)
    requires Ops.AcquireLock(s.locks, s.jobs, env, now) == Some(t.locks)
    requires t.jobs.Keys == s.jobs.Keys + {env.jobId} && forall id :: id in s.jobs ==> t.jobs[id] == s.jobs[id]
    requires t.jobs[env.jobId].queue == env.queue && t.jobs[env.jobId].uniqueKey == env.uniqueKey
    requires t.jobs[env.jobId].Live()
    ensures HoldersLive(t)
    ensures env.uniqueKey != "" ==> var k := LockKey(env.queue, env.uniqueKey);
              k in t.locks && t.locks[k] == Lock(env.jobId, Ops.LockExpires(env, now))
  {
  }

  lemma RestUnheard(s: Database, envs: seq<Envelope>, first: Database)
    requires envs != [] && DistinctIds(envs) && forall env :: env in envs ==> Unheard(s, env.jobId)
    requires forall id :: Unheard(s, id) && id != envs[0].jobId ==> Unheard(first, id)
    ensures DistinctIds(envs[1..]) && forall env :: env in envs[1..] ==> Unheard(first, env.jobId)
  {
    forall env | env in envs[1..] ensures Unheard(first, env.jobId) {
      var k :| 0 < k < |envs| && envs[k] == env;
      assert envs[0].jobId != envs[k].jobId;
    }
  }

  /** The lock is as it was, or was taken for one of the envelopes. */
  ghost predicate KeptOrTaken(s: Database, envs: seq<Envelope>, now: int, t: Database, k: string)
    requires k in t.locks
  {
    || (k in s.locks && t.locks[k] == s.locks[k])
    || exists env :: env in envs && env.uniqueKey != "" && k == LockKey(env.queue, env.uniqueKey) &&
         t.locks[k] == Lock(env.jobId, Ops.LockExpires(env, now))
  }

  ghost predicate AllKeptOrTaken(s: Database, envs: seq<Envelope>, now: int, t: Database) {
    forall k :: k in t.locks ==> KeptOrTaken(s, envs, now, t, k)
  }

  lemma InsertTakes(s: Database, env: Envelope, now: int, t: Database)
    requires Ops.AcquireLock(s.locks, s.jobs, env, now) == Some(t.locks)
    ensures AllKeptOrTaken(s, [env], now, t)
  {
    assert env in [env];
  }

  lemma MoreTaken(s: Database, envs: seq<Envelope>, now: int, first: Database, t: Database)
    requires envs != [] && AllKeptOrTaken(s, [envs[0]], now, first) && AllKeptOrTaken(first, envs[1..], now, t)
    ensures AllKeptOrTaken(s, envs, now, t)
  {
    forall k | k in t.locks ensures KeptOrTaken(s, envs, now, t, k) {
      assert KeptOrTaken(first, envs[1..], now, t, k);
      if k in first.locks && t.locks[k] == first.locks[k] {
        assert KeptOrTaken(s, [envs[0]], now, first, k);
      }
    }
  }

  lemma FirstTaken(s: Database, env: Envelope, now: int)
    requires HoldersLive(s) && Unheard(s, env.jobId) && Ops.InsertWorkflowJob(s, env, now).Some?
    ensures var t := Ops.InsertWorkflowJob(s, env, now).value;
            && HoldersLive(t) && AllKeptOrTaken(s, [env], now, t)
            && forall id :: Unheard(s, id) && id != env.jobId ==> Unheard(t, id)
  {
    var t := Ops.InsertWorkflowJob(s, env, now).value;
    InsertHolds(s, env, now, t);
    InsertTakes(s, env, now, t);
  }

  lemma {:induction false} WorkflowTakes(s: Database, envs: seq<Envelope>, now: int)
    requires HoldersLive(s) && DistinctIds(envs) && forall env :: env in envs ==> Unheard(s, env.jobId)
    requires Ops.EnqueueWorkflow(s, envs, now).Some?
    ensures var t := Ops.EnqueueWorkflow(s, envs, now).value; HoldersLive(t) && AllKeptOrTaken(s, envs, now, t)
    decreases |envs|
  {
    if envs != [] {
      var first := Ops.InsertWorkflowJob(s, envs[0], now).value;
      assert envs[0] in envs;
      FirstTaken(s, envs[0], now);
      RestUnheard(s, envs, first);
      WorkflowTakes(first, envs[1..], now);
      MoreTaken(s, envs, now, first, Ops.EnqueueWorkflow(s, envs, now).value);
    }
  }

  // The other steps

  /** Locks only go, and a holder that keeps its row and its lock stays unfinished under its key. */
  ghost predicate KeepsHolders(s: Database, t: Database) {
    forall k :: k in t.locks ==>
      && k in s.locks && t.locks[k] == s.locks[k]
      && (t.locks[k].holder in t.jobs && t.locks[k].holder in s.jobs && HoldsFor(s, k) ==> HoldsFor(t, k))
      && (t.locks[k].holder in t.jobs ==> t.locks[k].holder in s.jobs)
  }

  lemma HoldersKept(s: Database, t: Database)
    requires HoldersLive(s) && KeepsHolders(s, t)
    ensures HoldersLive(t)
  {
  }

  lemma ResolveHolds(s: Database, id: JobId)
    requires id in s.jobs
    ensures KeepsHolders(s, Ops.ResolveDependencies(Ops.MarkProcessed(s, id), id))
  {
    var t := Ops.ResolveDependencies(Ops.MarkProcessed(s, id), id);
    assert t.locks == ReleaseLock(s.locks, s.jobs[id].queue, s.jobs[id].uniqueKey) && t.jobs.Keys == s.jobs.Keys;
    assert forall j :: j in s.jobs && j != id ==>
      t.jobs[j].status in {s.jobs[j].status, Pending} && t.jobs[j] == s.jobs[j].(status := t.jobs[j].status);
  }

  lemma EffectHolds(s: Database, t: Database, e: Ops.Effect, callbackId: JobId)
    requires HoldersLive(t) && Ops.AddsCallbackOnly(t, e, callbackId)
    requires forall k :: k in t.locks ==> t.locks[k].holder != callbackId
    ensures HoldersLive(e.db)
  {
  }

  lemma AckHolds(w: World, id: JobId, now: int, callbackId: JobId, w': World)
    requires HoldersDeclared(w.db, w.declared) && HoldersLive(w.db) && id in w.db.jobs && Fresh(w, callbackId)
    requires w' == AfterAck(w, id, now, callbackId)
    ensures HoldersLive(w'.db)
  {
    var r := Ops.Ack(w.db, id, now, callbackId);
    if r.Some? {
      AckedHolds(w.db, id, now, callbackId, r.value);
      assert w'.db == r.value.db;
    }
  }

  lemma AckedHolds(s: Database, id: JobId, now: int, callbackId: JobId, e: Ops.Effect)
    requires HoldersLive(s) && id in s.jobs && Ops.Ack(s, id, now, callbackId) == Some(e)
    requires forall k :: k in s.locks ==> s.locks[k].holder != callbackId
    ensures HoldersLive(e.db)
  {
    var t := Ops.ResolveDependencies(Ops.MarkProcessed(s, id), id);
    ResolveHolds(s, id);
    HoldersKept(s, t);
    if BatchIdOf(s.jobs, id) != "" {
      EffectHolds(s, t, e, callbackId);
    }
  }

  lemma SubmitHolds(w: World, op: Op, w': World)
    requires HoldersDeclared(w.db, w.declared) && HoldersLive(w.db) && op.SubmitBatch? && Fresh(w, op.callbackId)
    requires w' == AfterSubmit(w, op.batchId, op.now, op.callbackId)
    ensures HoldersLive(w'.db)
  {
    var r := Ops.SubmitBatch(w.db, op.batchId, op.now, op.callbackId);
    if r.Some? {
      EffectHolds(w.db, w.db, r.value, op.callbackId);
      assert w'.db == r.value.db;
    }
  }

  lemma KillHolds(s: Database, dead: set<JobId>, freed: set<JobId>, t: Database)
    requires Killed(s, dead, freed, t)
    ensures KeepsHolders(s, t)
  {
    forall k | k in t.locks && t.locks[k].holder in t.jobs && HoldsFor(s, k) ensures t.locks[k].holder !in dead {
      assert t.locks[k].holder in dead ==> k in LockKeysOf(s.jobs, dead);
    }
  }

  lemma FailHolds(s: Database, id: JobId, nextRun: int, t: Database)
    requires HoldersLive(s) && Ops.Fail(s, id, nextRun, t)
    ensures HoldersLive(t)
  {
    if id in s.jobs && Ops.LastAttempt(s.jobs[id]) {
      KillHolds(s, {id} + Descendants(s.deps, id), Descendants(s.deps, id), t);
    }
    HoldersKept(s, t);
  }

  lemma CancelHolds(s: Database, id: JobId, t: Database)
    requires HoldersLive(s) && Ops.Cancel(s, id, t)
    ensures HoldersLive(t)
  {
    var u := Ops.DeleteJob(s, id);
    assert KeepsHolders(s, u);
    HoldersKept(s, u);
    KillHolds(u, Descendants(s.deps, id), Descendants(s.deps, id), t);
    HoldersKept(u, t);
  }

  lemma MovesHold(w: World, op: Op, w': World)
    requires HoldersLive(w.db) && Allowed(w, op) && Next(w, op, w')
    requires op.Dequeue? || op.Postpone? || op.Forget? || op.CreateBatch? || op.FailExpiredBatches?
    ensures HoldersLive(w'.db)
  {
    HoldersKept(w.db, w'.db);
  }

  // Every run

  function EnvelopesOf(op: Op): seq<Envelope> {
    match op
    case Enqueue(env, _) => [env]
    case EnqueueInBatch(_, env, _) => [env]
    case EnqueueWorkflow(envs, _) => envs
    case _ => []
  }

  function ClockOf(op: Op): int {
    match op
    case Enqueue(_, now) => now
    case EnqueueInBatch(_, _, now) => now
    case EnqueueWorkflow(_, now) => now
    case _ => 0
  }

  predicate Enqueues(op: Op) {
    op.Enqueue? || op.EnqueueInBatch? || op.EnqueueWorkflow?
  }

  lemma EnqueueHolds(w: World, op: Op, w': World)
    requires HoldersDeclared(w.db, w.declared) && HoldersLive(w.db) && Allowed(w, op) && Next(w, op, w') && Enqueues(op)
    ensures HoldersLive(w'.db) && AllKeptOrTaken(w.db, EnvelopesOf(op), ClockOf(op), w'.db)
  {
    if w' != w {
      if op.EnqueueWorkflow? {
        WorkflowTakes(w.db, op.envs, op.now);
      } else {
        InsertHolds(w.db, op.env, op.now, w'.db);
        InsertTakes(w.db, op.env, op.now, w'.db);
      }
    }
  }

  lemma StepHolds(w: World, op: Op, w': World)
    requires Workflow.EdgesOk(w.db, w.declared) && HoldersDeclared(w.db, w.declared) && HoldersLive(w.db)
    requires Allowed(w, op) && Next(w, op, w')
    ensures HoldersLive(w'.db)
  {
    if Workflow.IsLateReport(w, op) {
      Workflow.LateReport(w, op, w');
    } else if Enqueues(op) {
      EnqueueHolds(w, op, w');
    } else if op.SubmitBatch? {
      SubmitHolds(w, op, w');
    } else if op.Ack? {
      AckHolds(w, op.id, op.now, op.callbackId, w');
    } else if op.Fail? {
      FailHolds(w.db, op.id, op.nextRun, w'.db);
    } else if op.Cancel? {
      CancelHolds(w.db, op.id, w'.db);
    } else {
      MovesHold(w, op, w');
    }
  }

  lemma AckKeepsLocks(w: World, id: JobId, now: int, callbackId: JobId, w': World)
    requires w' == AfterAck(w, id, now, callbackId)
    ensures forall k :: k in w'.db.locks ==> k in w.db.locks && w'.db.locks[k] == w.db.locks[k]
  {
    var r := Ops.Ack(w.db, id, now, callbackId);
    if r.Some? {
      var t := Ops.ResolveDependencies(Ops.MarkProcessed(w.db, id), id);
      assert r.value.db.locks == t.locks && w'.db == r.value.db;
    }
  }

  lemma SubmitKeepsLocks(w: World, b: string, now: int, callbackId: JobId, w': World)
    requires w' == AfterSubmit(w, b, now, callbackId)
    ensures w'.db.locks == w.db.locks
  {
    var r := Ops.SubmitBatch(w.db, b, now, callbackId);
    assert r.Some? ==> w'.db == r.value.db;
  }

  lemma StepLocks(w: World, op: Op, w': World)
    requires HoldersDeclared(w.db, w.declared) && HoldersLive(w.db) && Allowed(w, op) && Next(w, op, w')
    ensures AllKeptOrTaken(w.db, EnvelopesOf(op), ClockOf(op), w'.db)
  {
    if Enqueues(op) {
      EnqueueHolds(w, op, w');
    } else if op.SubmitBatch? {
      SubmitKeepsLocks(w, op.batchId, op.now, op.callbackId, w');
    } else if op.Ack? {
      AckKeepsLocks(w, op.id, op.now, op.callbackId, w');
    }
  }

  /** Envelopes of a committed call are known afterwards, as are the jobs known before. */
  lemma StepDeclares(w: World, op: Op, w': World)
    requires Allowed(w, op) && Next(w, op, w')
    ensures w.declared.Keys <= w'.declared.Keys
    ensures w' != w ==> forall env :: env in EnvelopesOf(op) ==> env.jobId in w'.declared
  {
    if op.EnqueueWorkflow? && w' != w {
      Workflow.WorkflowDeclared(w.declared, op.envs);
    }
  }

  lemma {:induction false} HoldersRun(ws: seq<World>, ops: seq<Op>, n: nat)
    requires IsRun(ws, ops) && n < |ws|
    ensures HoldersDeclared(ws[n].db, ws[n].declared) && HoldersLive(ws[n].db)
    decreases n
  {
    if n > 0 {
      HoldersRun(ws, ops, n - 1);
      Workflow.EveryRun(ws, ops, n - 1);
      StepHolds(ws[n - 1], ops[n - 1], ws[n]);
      StepLocks(ws[n - 1], ops[n - 1], ws[n]);
      StepDeclares(ws[n - 1], ops[n - 1], ws[n]);
      forall k | k in ws[n].db.locks ensures ws[n].db.locks[k].holder in ws[n].declared {
        assert KeptOrTaken(ws[n - 1].db, EnvelopesOf(ops[n - 1]), ClockOf(ops[n - 1]), ws[n].db, k);
      }
    }
  }

  predicate IsTerm(env: Envelope, now: int, until: int) {
    env.uniqueKey != "" && until == now + if env.uniqueTTL > 0 then env.uniqueTTL else 86400
  }

  /** The call asks for the job under a unique key, to be kept until `until`. */
  ghost predicate AsksTerm(op: Op, id: JobId, until: int) {
    match op
    case Enqueue(env, now) => env.jobId == id && IsTerm(env, now, until)
    case EnqueueInBatch(_, env, now) => env.jobId == id && IsTerm(env, now, until)
    case EnqueueWorkflow(envs, now) => exists env :: env in envs && env.jobId == id && IsTerm(env, now, until)
    case _ => false
  }

  /** Call `k` inserts the job, under a unique key to be kept until `until`. */
  ghost predicate Takes(ws: seq<World>, ops: seq<Op>, k: nat, id: JobId, until: int)
    requires |ws| == |ops| + 1
  {
    k < |ops| && id !in ws[k].db.jobs && id in ws[k + 1].db.jobs && AsksTerm(ops[k], id, until)
  }

  /** A lock whose holder has a row was taken by that job, and runs out when the job asked that it should. */
  lemma {:induction false} HeldAsAsked(ws: seq<World>, ops: seq<Op>, n: nat, k: string) returns (i: nat)
    requires IsRun(ws, ops) && n < |ws| && k in ws[n].db.locks && ws[n].db.locks[k].holder in ws[n].db.jobs
    ensures i < n && Takes(ws, ops, i, ws[n].db.locks[k].holder, ws[n].db.locks[k].expiresAt)
    ensures HoldsFor(ws[n].db, k)
    decreases n
  {
    HoldersRun(ws, ops, n);
    HoldersRun(ws, ops, n - 1);
    Workflow.EveryRun(ws, ops, n - 1);
    var w, op, w' := ws[n - 1], ops[n - 1], ws[n];
    StepLocks(w, op, w');
    assert KeptOrTaken(w.db, EnvelopesOf(op), ClockOf(op), w'.db, k);
    if k in w.db.locks && w'.db.locks[k] == w.db.locks[k] {
      Requests.StepKeeps(w, op, w', w'.db.locks[k].holder);
      i := HeldAsAsked(ws, ops, n - 1, k);
    } else {
      i := n - 1;
    }
  }

  predicate SameKey(a: Envelope, b: Envelope) {
    a.uniqueKey != "" && b.uniqueKey != "" && LockKey(a.queue, a.uniqueKey) == LockKey(b.queue, b.uniqueKey)
  }

  /** The jobs that a call asks for have rows afterwards. */
  ghost predicate Enqueued(w': World, op: Op) {
    match op
    case Enqueue(env, _) => env.jobId in w'.db.jobs
    case EnqueueInBatch(_, env, _) => env.jobId in w'.db.jobs
    case EnqueueWorkflow(envs, _) => forall env :: env in envs ==> env.jobId in w'.db.jobs
    case _ => true
  }

  /** The lock of the key is that of a job with a row, and has not run out. */
  predicate Refuses(db: Database, env: Envelope, now: int) {
    var k := LockKey(env.queue, env.uniqueKey);
    env.uniqueKey != "" && k in db.locks && db.locks[k].holder in db.jobs && now < db.locks[k].expiresAt
  }

  lemma RestNotRefused(s: Database, envs: seq<Envelope>, now: int, env: Envelope)
    requires envs != [] && env in envs[1..] && !Refuses(s, env, now) && Unheard(s, envs[0].jobId)
    requires Ops.InsertWorkflowJob(s, envs[0], now).Some?
    requires forall i, j :: 0 <= i < j < |envs| ==> !SameKey(envs[i], envs[j])
    ensures !Refuses(Ops.InsertWorkflowJob(s, envs[0], now).value, env, now)
  {
    var i :| 0 < i < |envs| && envs[i] == env;
    assert !SameKey(envs[0], envs[i]);
  }

  lemma {:induction false} UnrefusedCommits(s: Database, envs: seq<Envelope>, now: int)
    requires HoldersLive(s) && DistinctIds(envs) && forall env :: env in envs ==> Unheard(s, env.jobId)
    requires forall env :: env in envs ==> !Refuses(s, env, now)
    requires forall i, j :: 0 <= i < j < |envs| ==> !SameKey(envs[i], envs[j])
    ensures Ops.EnqueueWorkflow(s, envs, now).Some?
    decreases |envs|
  {
    if envs != [] {
      assert envs[0] in envs;
      var first := Ops.InsertWorkflowJob(s, envs[0], now).value;
      FirstTaken(s, envs[0], now);
      RestUnheard(s, envs, first);
      forall env | env in envs[1..] ensures !Refuses(first, env, now) {
        RestNotRefused(s, envs, now, env);
      }
      UnrefusedCommits(first, envs[1..], now);
    }
  }

  /** The time that each unfinished job of the key asked for is over at `now`. */
  ghost predicate TermsOver(ws: seq<World>, ops: seq<Op>, n: nat, key: string, now: int)
    requires |ws| == |ops| + 1 && n < |ws|
  {
    forall i: nat, j, until {:trigger Takes(ws, ops, i, j, until)} ::
      i < n && Takes(ws, ops, i, j, until) && HasKey(ws[n].db, j, key) ==> until <= now
  }

  predicate HasKey(db: Database, id: JobId, key: string) {
    Keyed(db, id) && KeyOf(db.jobs[id]) == key
  }

  lemma OverNotRefused(ws: seq<World>, ops: seq<Op>, n: nat, env: Envelope, now: int)
    requires IsRun(ws, ops) && n < |ws|
    requires env.uniqueKey != "" ==> TermsOver(ws, ops, n, LockKey(env.queue, env.uniqueKey), now)
    ensures !Refuses(ws[n].db, env, now)
  {
    if Refuses(ws[n].db, env, now) {
      var i := HeldAsAsked(ws, ops, n, LockKey(env.queue, env.uniqueKey));
    }
  }

  /**
   * In every run, a key to which no unfinished job still has a right is free: a call that enqueues under different keys
   * succeeds once the times that all unfinished jobs of these keys asked for are over.
   */
  lemma RunOutIsFree(ws: seq<World>, ops: seq<Op>, n: nat)
    requires IsRun(ws, ops) && n < |ops| && Enqueues(ops[n])
    requires forall env :: env in EnvelopesOf(ops[n]) && env.uniqueKey != "" ==>
      TermsOver(ws, ops, n, LockKey(env.queue, env.uniqueKey), ClockOf(ops[n]))
    requires var envs := EnvelopesOf(ops[n]); forall i, j :: 0 <= i < j < |envs| ==> !SameKey(envs[i], envs[j])
    ensures Enqueued(ws[n + 1], ops[n])
  {
    var db, op := ws[n].db, ops[n];
    assert Allowed(ws[n], op) && Next(ws[n], op, ws[n + 1]);
    forall env | env in EnvelopesOf(op) ensures !Refuses(db, env, ClockOf(op)) {
      OverNotRefused(ws, ops, n, env, ClockOf(op));
    }
    HoldersRun(ws, ops, n);
    if op.EnqueueWorkflow? {
      UnrefusedCommits(db, op.envs, op.now);
      Workflow.WorkflowInserted(db, op.envs, op.now);
    } else {
      assert op.env in EnvelopesOf(op);
    }
  }
}
