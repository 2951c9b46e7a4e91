/** What every run keeps about workflows: no job starts early, none waits for a finished parent, none is stuck. */
module WorkflowSafety {
  import opened Graph
  import opened Tables
  import opened Cascade
  import Ops = Operations
  import opened Runs

  /**
   * Each dependency row holds back a blocked job (or a cancelled one) and names a declared parent that is still live.
   */
  ghost predicate EdgesOk(db: Database, declared: map<JobId, set<JobId>>)
  {
    forall e :: e in db.deps ==>
      && e.parent in db.jobs && db.jobs[e.parent].Live()
      && e.child in declared && e.parent in declared[e.child]
      && (e.child in db.jobs ==> db.jobs[e.child].status.Blocked?)
  }

  ghost predicate HeldBack(deps: set<Edge>, id: JobId) {
    exists e :: e in deps && e.child == id
  }

  ghost predicate RowOk(deps: set<Edge>, parents: set<JobId>, acked: set<JobId>, id: JobId, status: Status)
  {
    && (id in acked <==> status.Processed?)
    && match status
       case Blocked => HeldBack(deps, id) && forall p :: p in parents ==> p in acked || Edge(id, p) in deps
       case Dead => true
       case _ => parents <= acked
  }

  ghost predicate RowsOk(db: Database, declared: map<JobId, set<JobId>>, acked: set<JobId>)
  {
    forall id :: id in db.jobs ==>
      id in declared && RowOk(db.deps, declared[id], acked, id, db.jobs[id].status)
  }

  ghost predicate Healthy(db: Database, declared: map<JobId, set<JobId>>, acked: set<JobId>)
  {
    && EdgesOk(db, declared)
    && RowsOk(db, declared, acked)
    && Acyclic(db.deps)
    && acked <= declared.Keys
  }

  ghost predicate Inv(w: World) {
    Healthy(w.db, w.declared, w.acked)
  }

  /** The workflow invariant looks at the statuses and the dependency rows only. */
  lemma SameStatuses(s: Database, t: Database, declared: map<JobId, set<JobId>>, acked: set<JobId>)
    requires Healthy(s, declared, acked)
    requires t.deps == s.deps && t.jobs.Keys == s.jobs.Keys
    requires forall id :: id in s.jobs ==> t.jobs[id].status == s.jobs[id].status
    ensures Healthy(t, declared, acked)
  {
  }

  /** Taking a pending job, or handing back a running one. */
  lemma Reschedule(s: Database, id: JobId, row: Job, declared: map<JobId, set<JobId>>, acked: set<JobId>)
    requires Healthy(s, declared, acked)
    requires id in s.jobs && (s.jobs[id].status.Pending? || s.jobs[id].status.Running?)
    requires row.status.Pending? || row.status.Running?
    ensures Healthy(s.(jobs := s.jobs[id := row]), declared, acked)
  {
  }

  /** A fresh job without parents. */
  lemma InsertFree(s: Database, id: JobId, t: Database, declared: map<JobId, set<JobId>>, acked: set<JobId>)
    requires Healthy(s, declared, acked)
    requires id !in declared && t.deps == s.deps
    requires t.jobs.Keys == s.jobs.Keys + {id} && t.jobs[id].status.Pending?
    requires forall j :: j in s.jobs ==> t.jobs[j] == s.jobs[j]
    ensures Healthy(t, declared[id := {}], acked)
  {
    forall e | e in s.deps ensures e.child != id && e.parent != id {
    }
  }

  lemma Removal(s: Database, ids: set<JobId>, declared: map<JobId, set<JobId>>, acked: set<JobId>)
    requires Healthy(s, declared, acked)
    requires forall id :: id in ids && id in s.jobs ==> !s.jobs[id].Live()
    ensures Healthy(s.(jobs := s.jobs - ids), declared, acked)
  {
  }

  lemma Resolve(s: Database, id: JobId, declared: map<JobId, set<JobId>>, acked: set<JobId>)
    requires Healthy(s, declared, acked)
    requires IsRunning(s, id)
    ensures Healthy(Ops.ResolveDependencies(Ops.MarkProcessed(s, id), id), declared, acked + {id})
  {
    var m := Ops.MarkProcessed(s, id);
    var t := Ops.ResolveDependencies(m, id);
    AcyclicSubset(t.deps, s.deps);
    forall e | e in t.deps ensures e.child in t.jobs ==> t.jobs[e.child].status.Blocked? {
    }
    forall j | j in t.jobs ensures RowOk(t.deps, declared[j], acked + {id}, j, t.jobs[j].status) {
      assert RowOk(s.deps, declared[j], acked, j, s.jobs[j].status);
      if s.jobs[j].status.Blocked? {
        if t.jobs[j].status.Blocked? {
          var e :| e in s.deps && e.child == j;
          assert e.parent == id ==> j in Children(m.deps, id);
          assert HeldBack(t.deps, j);
        } else {
          assert forall p :: Edge(j, p) in s.deps && p != id ==> Edge(j, p) in t.deps && Edge(j, p).child == j;
        }
      }
    }
  }

  /** A job and everything below it killed: either a running job that fails for good or one that is cancelled. */
  lemma Kill(s: Database, root: JobId, t: Database, declared: map<JobId, set<JobId>>, acked: set<JobId>)
    requires Healthy(s, declared, acked)
    requires forall e :: e in s.deps && e.child == root ==> root !in t.jobs
    requires t.deps == Cut(s.deps, Descendants(s.deps, root))
    requires t.jobs.Keys <= s.jobs.Keys && s.jobs.Keys - {root} <= t.jobs.Keys
    requires forall id :: id in t.jobs && id != root && id !in Descendants(s.deps, root) ==> t.jobs[id] == s.jobs[id]
    requires forall id :: id in t.jobs && id in Descendants(s.deps, root) ==> t.jobs[id].status.Dead?
    requires root in t.jobs ==> t.jobs[root].status.Dead? && !s.jobs[root].status.Processed?
    ensures Healthy(t, declared, acked)
  {
    var below := Descendants(s.deps, root);
    AcyclicSubset(t.deps, s.deps);
    forall e | e in t.deps ensures e.parent != root && e.parent !in below {
      DescendantsAre(s.deps, root, e.child);
      DescendantsAre(s.deps, root, e.parent);
      assert e == Edge(e.child, e.parent);
      ReachEdge(s.deps, e.parent, e.child);
      if Reach(s.deps, root, e.parent) {
        ReachTrans(s.deps, root, e.parent, e.child);
      }
    }
    forall id | id in t.jobs ensures RowOk(t.deps, declared[id], acked, id, t.jobs[id].status) {
      assert RowOk(s.deps, declared[id], acked, id, s.jobs[id].status);
      if id in below {
        var e :| e in s.deps && e.child == id;
      } else if id != root && s.jobs[id].status.Blocked? {
        assert forall e :: e in s.deps && e.child == id ==> e in t.deps;
      }
    }
  }

  // Enqueueing a workflow

  lemma Snoc(envs: seq<Envelope>)
    requires envs != []
    ensures EnvelopeIds(envs) == {envs[0].jobId} + EnvelopeIds(envs[1..])
    ensures EnvelopeEdges(envs) == Ops.DependencyRows(envs[0]) + EnvelopeEdges(envs[1..])
  {
    assert forall env :: env in envs <==> env == envs[0] || env in envs[1..];
  }

  /** What a committed EnqueueWorkflow of fresh, distinct ids leaves behind. */
  ghost predicate Inserted(s: Database, envs: seq<Envelope>, now: int, t: Database)
  {
    && t.jobs.Keys == s.jobs.Keys + EnvelopeIds(envs)
    && (forall id :: id in s.jobs ==> t.jobs[id] == s.jobs[id])
    && (forall env :: env in envs ==> t.jobs[env.jobId] == Ops.WorkflowRow(map[], env, now))
    && t.deps == s.deps + EnvelopeEdges(envs)
    && t.batches == s.batches
  }

  ghost predicate Declared(declared: map<JobId, set<JobId>>, envs: seq<Envelope>, d: map<JobId, set<JobId>>)
  {
    && d.Keys == declared.Keys + EnvelopeIds(envs)
    && (forall id :: id in declared ==> d[id] == declared[id])
    && (forall env :: env in envs ==> d[env.jobId] == Elems(env.dependencies))
  }

  lemma InsertedOne(s: Database, env: Envelope, now: int)
    requires env.jobId !in s.jobs && Ops.InsertWorkflowJob(s, env, now).Some?
    ensures var t := Ops.InsertWorkflowJob(s, env, now).value;
            && t.jobs == s.jobs[env.jobId := Ops.WorkflowRow(map[], env, now)]
            && t.deps == s.deps + Ops.DependencyRows(env)
            && t.batches == s.batches
  {
  }

  lemma InsertedMore(s: Database, envs: seq<Envelope>, now: int, first: Database, t: Database)
    requires envs != []
    requires first.jobs == s.jobs[envs[0].jobId := Ops.WorkflowRow(map[], envs[0], now)] && envs[0].jobId !in s.jobs
    requires first.deps == s.deps + Ops.DependencyRows(envs[0]) && first.batches == s.batches
    requires Inserted(first, envs[1..], now, t)
    ensures Inserted(s, envs, now, t)
  {
    Snoc(envs);
    var ids, edges := EnvelopeIds(envs[1..]), EnvelopeEdges(envs[1..]);
    assert t.jobs.Keys == s.jobs.Keys + ({envs[0].jobId} + ids);
    assert t.deps == s.deps + (Ops.DependencyRows(envs[0]) + edges);
    forall env | env in envs ensures t.jobs[env.jobId] == Ops.WorkflowRow(map[], env, now) {
      if env !in envs[1..] {
        assert env == envs[0] && env.jobId in first.jobs;
      }
    }
    forall id | id in s.jobs ensures t.jobs[id] == s.jobs[id] {
      assert id in first.jobs && first.jobs[id] == s.jobs[id];
    }
  }

  lemma {:induction false} WorkflowInserted(s: Database, envs: seq<Envelope>, now: int)
    requires DistinctIds(envs) && forall env :: env in envs ==> env.jobId !in s.jobs
    requires Ops.EnqueueWorkflow(s, envs, now).Some?
    ensures Inserted(s, envs, now, Ops.EnqueueWorkflow(s, envs, now).value)
    decreases |envs|
  {
    if envs != [] {
      var first := Ops.InsertWorkflowJob(s, envs[0], now).value;
      assert envs[0] in envs;
      InsertedOne(s, envs[0], now);
      forall env | env in envs[1..] ensures env.jobId !in first.jobs {
        var k :| 0 < k < |envs| && envs[k] == env;
        assert envs[0].jobId != envs[k].jobId;
      }
      WorkflowInserted(first, envs[1..], now);
      InsertedMore(s, envs, now, first, Ops.EnqueueWorkflow(first, envs[1..], now).value);
    }
  }

  lemma {:induction false} WorkflowDeclared(declared: map<JobId, set<JobId>>, envs: seq<Envelope>)
    requires DistinctIds(envs) && forall env :: env in envs ==> env.jobId !in declared
    ensures Declared(declared, envs, Declare(declared, envs))
    decreases |envs|
  {
    if envs != [] {
      var first := declared[envs[0].jobId := Elems(envs[0].dependencies)];
      Snoc(envs);
      forall env | env in envs[1..] ensures env.jobId !in first {
        var k :| 0 < k < |envs| && envs[k] == env;
      }
      WorkflowDeclared(first, envs[1..]);
      assert forall env :: env in envs <==> env == envs[0] || env in envs[1..];
    }
  }

  /** New rows that name old jobs only as parents cannot close a cycle through the old table. */
  lemma {:induction false} NewSide(before: set<Edge>, added: set<Edge>, ids: set<JobId>, a: JobId, b: JobId, n: nat)
    requires forall e :: e in before ==> e.parent !in ids
    requires forall e :: e in added ==> e.child in ids
    requires ReachIn(before + added, a, b, n) && a in ids
    ensures b in ids && ReachIn(added, a, b, n)
    decreases n
  {
    if n == 0 {
      assert Edge(b, a).parent == a;
      assert Edge(b, a).child == b;
    } else {
      var c :| Edge(c, a) in before + added && ReachIn(before + added, c, b, n - 1);
      assert Edge(c, a).parent == a;
      assert Edge(c, a).child == c;
      NewSide(before, added, ids, c, b, n - 1);
    }
  }

  lemma {:induction false} OldSide(before: set<Edge>, added: set<Edge>, ids: set<JobId>, a: JobId, b: JobId, n: nat)
    requires forall e :: e in before ==> e.parent !in ids
    requires forall e :: e in added ==> e.child in ids
    requires ReachIn(before + added, a, b, n) && b !in ids
    ensures ReachIn(before, a, b, n)
    decreases n
  {
    if n == 0 {
      assert Edge(b, a).child == b;
    } else {
      var c :| Edge(c, a) in before + added && ReachIn(before + added, c, b, n - 1);
      OldSide(before, added, ids, c, b, n - 1);
      assert Edge(c, a).child == c;
    }
  }

  lemma AcyclicUnion(before: set<Edge>, added: set<Edge>, ids: set<JobId>)
    requires forall e :: e in before ==> e.parent !in ids
    requires forall e :: e in added ==> e.child in ids
    requires Acyclic(before)
    ensures Acyclic(before + added) <==> Acyclic(added)
  {
    if Acyclic(added) {
      forall a ensures !Reach(before + added, a, a) {
        if n: nat :| ReachIn(before + added, a, a, n) {
          if a in ids {
            NewSide(before, added, ids, a, a, n);
            assert Reach(added, a, a);
          } else {
            OldSide(before, added, ids, a, a, n);
            assert Reach(before, a, a);
          }
        }
      }
    }
    if Acyclic(before + added) {
      AcyclicSubset(added, before + added);
    }
  }

  lemma WorkflowEdgesOk(w: World, envs: seq<Envelope>, now: int, t: Database, d: map<JobId, set<JobId>>)
    requires Inv(w) && ParentsLive(w.db, envs)
    requires forall env :: env in envs ==> Fresh(w, env.jobId)
    requires Inserted(w.db, envs, now, t) && Declared(w.declared, envs, d)
    ensures EdgesOk(t, d)
  {
    forall e | e in t.deps
      ensures e.parent in t.jobs && t.jobs[e.parent].Live()
      ensures e.child in d && e.parent in d[e.child]
      ensures e.child in t.jobs ==> t.jobs[e.child].status.Blocked?
    {
      if e !in w.db.deps {
        var env, p :| env in envs && p in env.dependencies && e == Edge(env.jobId, p);
        assert t.jobs[env.jobId].status.Blocked?;
        if p in EnvelopeIds(envs) {
          var env' :| env' in envs && env'.jobId == p;
        }
      }
    }
  }

  lemma WorkflowRowsOk(w: World, envs: seq<Envelope>, now: int, t: Database, d: map<JobId, set<JobId>>)
    requires Inv(w)
    requires forall env :: env in envs ==> Fresh(w, env.jobId)
    requires Inserted(w.db, envs, now, t) && Declared(w.declared, envs, d)
    ensures RowsOk(t, d, w.acked)
  {
    forall id | id in t.jobs ensures id in d && RowOk(t.deps, d[id], w.acked, id, t.jobs[id].status) {
      if id in w.db.jobs {
        assert RowOk(w.db.deps, w.declared[id], w.acked, id, w.db.jobs[id].status);
      } else {
        var env :| env in envs && env.jobId == id;
        assert forall p :: p in env.dependencies ==> Edge(id, p) in t.deps;
        if |env.dependencies| > 0 {
          var p := env.dependencies[0];
          assert p in env.dependencies && Edge(id, p).child == id;
        }
      }
    }
  }

  lemma ParentsAreLive(w: World, envs: seq<Envelope>, now: int, t: Database, d: map<JobId, set<JobId>>)
    requires Inserted(w.db, envs, now, t) && EdgesOk(t, d)
    ensures ParentsLive(w.db, envs)
  {
    forall env, p | env in envs && p in env.dependencies
      ensures p in EnvelopeIds(envs) || (p in w.db.jobs && w.db.jobs[p].Live())
    {
      assert Edge(env.jobId, p) in t.deps;
    }
  }

  lemma InsertedAcyclic(w: World, envs: seq<Envelope>, now: int, t: Database)
    requires Inv(w)
    requires forall env :: env in envs ==> Fresh(w, env.jobId)
    requires Inserted(w.db, envs, now, t)
    ensures Acyclic(t.deps) <==> Acyclic(EnvelopeEdges(envs))
  {
    AcyclicUnion(w.db.deps, EnvelopeEdges(envs), EnvelopeIds(envs));
  }

  /**
   * Inserting a workflow of fresh ids keeps the tables healthy exactly when its graph has no cycle and every parent
   * it names is in the call or still live. The storage checks neither.
   */
  lemma WorkflowKeepsHealthIff(w: World, envs: seq<Envelope>, now: int)
    requires Inv(w)
    requires DistinctIds(envs) && forall env :: env in envs ==> Fresh(w, env.jobId)
    requires Ops.EnqueueWorkflow(w.db, envs, now).Some?
    ensures Healthy(Ops.EnqueueWorkflow(w.db, envs, now).value, Declare(w.declared, envs), w.acked)
       <==> ParentsLive(w.db, envs) && Acyclic(EnvelopeEdges(envs))
  {
    var t, d := Ops.EnqueueWorkflow(w.db, envs, now).value, Declare(w.declared, envs);
    WorkflowInserted(w.db, envs, now);
    WorkflowDeclared(w.declared, envs);
    InsertedAcyclic(w, envs, now, t);
    WorkflowRowsOk(w, envs, now, t, d);
    if EdgesOk(t, d) {
      ParentsAreLive(w, envs, now, t, d);
    } else if ParentsLive(w.db, envs) {
      WorkflowEdgesOk(w, envs, now, t, d);
    }
  }

  // Every step and every run

  lemma EnqueueStep(w: World, env: Envelope, now: int, w': World)
    requires Inv(w) && Fresh(w, env.jobId) && Next(w, Enqueue(env, now), w')
    ensures Inv(w')
  {
    if w' != w {
      InsertFree(w.db, env.jobId, w'.db, w.declared, w.acked);
    }
  }

  lemma EnqueueInBatchStep(w: World, b: string, env: Envelope, now: int, w': World)
    requires Inv(w) && Fresh(w, env.jobId) && Next(w, EnqueueInBatch(b, env, now), w')
    ensures Inv(w')
  {
    if w' != w {
      InsertFree(w.db, env.jobId, w'.db, w.declared, w.acked);
    }
  }

  lemma SubmitBatchStep(w: World, b: string, now: int, callbackId: JobId, w': World)
    requires Inv(w) && Fresh(w, callbackId) && Next(w, SubmitBatch(b, now, callbackId), w')
    ensures Inv(w')
  {
    var r := Ops.SubmitBatch(w.db, b, now, callbackId);
    if r.Some? {
      EffectStep(w.db, r.value, callbackId, w.declared, w.acked);
    }
  }

  lemma EffectStep(s: Database, e: Ops.Effect, callbackId: JobId, declared: map<JobId, set<JobId>>, acked: set<JobId>)
    requires Healthy(s, declared, acked) && callbackId !in declared
    requires Ops.AddsCallbackOnly(s, e, callbackId)
    ensures Healthy(e.db, if e.fired then declared[callbackId := {}] else declared, acked)
  {
    if e.fired {
      InsertFree(s, callbackId, e.db, declared, acked);
    } else {
      SameStatuses(s, e.db, declared, acked);
    }
  }

  /** The report of a worker whose job was cancelled before the report read its row. */
  predicate IsLateReport(w: World, op: Op) {
    (op.Ack? || op.Fail? || op.Postpone?) && op.id !in w.db.jobs
  }

  /** A late report changes nothing: no row is touched, and no dependency row names a job without a row. */
  lemma LateReport(w: World, op: Op, w': World)
    requires EdgesOk(w.db, w.declared) && IsLateReport(w, op) && Next(w, op, w')
    ensures w' == w
  {
    if op.Ack? {
      Ops.AckWithoutRow(w.db, op.id, op.now, op.callbackId);
    }
  }

  lemma KillStep(w: World, op: Op, w': World)
    requires Inv(w) && Allowed(w, op) && Next(w, op, w') && !IsLateReport(w, op)
    requires op.Fail? || op.Cancel?
    ensures Inv(w')
  {
    if op.Fail? && !Ops.LastAttempt(w.db.jobs[op.id]) {
      Reschedule(w.db, op.id, w'.db.jobs[op.id], w.declared, w.acked);
    } else {
      Kill(w.db, op.id, w'.db, w.declared, w.acked);
    }
  }

  lemma Step(w: World, op: Op, w': World)
    requires Inv(w) && Allowed(w, op) && Next(w, op, w')
    ensures Inv(w')
  {
    if IsLateReport(w, op) {
      LateReport(w, op, w');
    } else if op.Enqueue? {
      EnqueueStep(w, op.env, op.now, w');
    } else if op.EnqueueInBatch? {
      EnqueueInBatchStep(w, op.batchId, op.env, op.now, w');
    } else if op.SubmitBatch? {
      SubmitBatchStep(w, op.batchId, op.now, op.callbackId, w');
    } else if op.EnqueueWorkflow? {
      if w' != w {
        WorkflowKeepsHealthIff(w, op.envs, op.now);
      }
    } else if op.Dequeue? {
      var id := Ops.FirstEligible(w.db.jobs, op.rows, op.workerTags);
      if id.Some? {
        Reschedule(w.db, id.value, w'.db.jobs[id.value], w.declared, w.acked);
      }
    } else if op.Postpone? {
      Reschedule(w.db, op.id, w'.db.jobs[op.id], w.declared, w.acked);
    } else if op.Ack? {
      AckStep(w, op.id, op.now, op.callbackId, w');
    } else if op.Fail? || op.Cancel? {
      KillStep(w, op, w');
    } else if op.Forget? {
      Removal(w.db, op.ids, w.declared, w.acked);
    }
  }

  lemma AckStep(w: World, id: JobId, now: int, callbackId: JobId, w': World)
    requires Inv(w) && IsRunning(w.db, id) && Fresh(w, callbackId) && w' == AfterAck(w, id, now, callbackId)
    ensures Inv(w')
  {
    var r := Ops.Ack(w.db, id, now, callbackId);
    if r.Some? {
      Resolve(w.db, id, w.declared, w.acked);
      var t := Ops.ResolveDependencies(Ops.MarkProcessed(w.db, id), id);
      if BatchIdOf(w.db.jobs, id) != "" {
        EffectStep(t, r.value, callbackId, w.declared, w.acked + {id});
      }
    }
  }

  lemma {:induction false} EveryRun(ws: seq<World>, ops: seq<Op>, n: nat)
    requires IsRun(ws, ops) && n < |ws|
    ensures Inv(ws[n])
    decreases n
  {
    if n > 0 {
      EveryRun(ws, ops, n - 1);
      Step(ws[n - 1], ops[n - 1], ws[n]);
    } else {
      forall a ensures !Reach(EMPTY.db.deps, a, a) {
        DescendantsAre(EMPTY.db.deps, a, a);
      }
    }
  }

  /** No job of a run is ready, running or done before every parent it declared was acknowledged. */
  lemma NoEarlyStart(ws: seq<World>, ops: seq<Op>, n: nat, id: JobId)
    requires IsRun(ws, ops) && n < |ws| && id in ws[n].db.jobs
    requires var status := ws[n].db.jobs[id].status; status.Pending? || status.Running? || status.Processed?
    ensures id in ws[n].declared && ws[n].declared[id] <= ws[n].acked
  {
    EveryRun(ws, ops, n);
    assert RowOk(ws[n].db.deps, ws[n].declared[id], ws[n].acked, id, ws[n].db.jobs[id].status);
  }

  /** A row is blocked exactly while dependency rows hold it back, and each of those names a live parent. */
  lemma BlockedIffHeldBack(ws: seq<World>, ops: seq<Op>, n: nat, id: JobId)
    requires IsRun(ws, ops) && n < |ws| && id in ws[n].db.jobs
    ensures ws[n].db.jobs[id].status.Blocked? <==> HeldBack(ws[n].db.deps, id)
    ensures forall e :: e in ws[n].db.deps && e.child == id ==>
      e.parent in ws[n].db.jobs && ws[n].db.jobs[e.parent].Live()
  {
    EveryRun(ws, ops, n);
    assert RowOk(ws[n].db.deps, ws[n].declared[id], ws[n].acked, id, ws[n].db.jobs[id].status);
  }

  /**
   * The update that frees children does not look at their status, and need not: in a run it meets blocked rows only.
   */
  lemma FreesOnlyBlocked(ws: seq<World>, ops: seq<Op>, k: nat, child: JobId)
    requires IsRun(ws, ops) && k < |ops| && ops[k].Ack?
    requires child in Children(ws[k].db.deps, ops[k].id) && child in ws[k].db.jobs
    ensures ws[k].db.jobs[child].status.Blocked?
  {
    EveryRun(ws, ops, k);
  }

  /** Above every blocked job there is one that is pending or running, so the workflow can still move. */
  lemma NotStuck(ws: seq<World>, ops: seq<Op>, n: nat, id: JobId) returns (source: JobId)
    requires IsRun(ws, ops) && n < |ws| && id in ws[n].db.jobs && ws[n].db.jobs[id].status.Blocked?
    ensures source in ws[n].db.jobs && Reach(ws[n].db.deps, source, id)
    ensures ws[n].db.jobs[source].status.Pending? || ws[n].db.jobs[source].status.Running?
  {
    EveryRun(ws, ops, n);
    source := Source(ws[n], id);
  }

  lemma {:induction false} Source(w: World, id: JobId) returns (source: JobId)
    requires Inv(w) && id in w.db.jobs && w.db.jobs[id].status.Blocked?
    ensures source in w.db.jobs && Reach(w.db.deps, source, id)
    ensures w.db.jobs[source].status.Pending? || w.db.jobs[source].status.Running?
    decreases |(set e | e in w.db.deps :: e.child) - Descendants(w.db.deps, id)|
  {
    var deps := w.db.deps;
    assert RowOk(deps, w.declared[id], w.acked, id, w.db.jobs[id].status);
    var e :| e in deps && e.child == id;
    assert e == Edge(id, e.parent);
    ReachEdge(deps, e.parent, id);
    source := e.parent;
    if w.db.jobs[e.parent].status.Blocked? {
      forall d | d in Descendants(deps, id) ensures d in Descendants(deps, e.parent) {
        DescendantsAre(deps, id, d);
        ReachTrans(deps, e.parent, id, d);
        DescendantsAre(deps, e.parent, d);
      }
      DescendantsAre(deps, id, id);
      DescendantsAre(deps, e.parent, id);
      var all := set e | e in deps :: e.child;
      SubsetCard(all - Descendants(deps, e.parent), all - Descendants(deps, id));
      source := Source(w, e.parent);
      ReachTrans(deps, source, e.parent, id);
    }
  }
}
