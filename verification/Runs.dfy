/**
 * Runs of the storage: the database together with what has happened to it so far. Calls run one after another here;
 * module Interleaving lets them interrupt each other.
 */
module Runs {
  import opened Graph
  import opened Tables
  import opened Cascade
  import Ops = Operations

  /**
   * The database and its history.
   * `declared` maps every job ever inserted to the parents it was inserted with; `acked` holds the acknowledged
   * jobs; `members` and `fired` record, per batch, the jobs enqueued in it and how often its callback was enqueued;
   * `submits` and `failures` count the committed calls of SubmitBatch and Fail.
   */
  datatype World = World(
    db: Database,
    declared: map<JobId, set<JobId>>,
    acked: set<JobId>,
    members: map<string, set<JobId>>,
    fired: map<string, nat>,
    submits: map<string, nat>,
    failures: map<JobId, nat>)

  datatype Op =
    | Enqueue(env: Envelope, now: int)
    | EnqueueWorkflow(envs: seq<Envelope>, now: int)
    | CreateBatch(batchId: string, callbackQueue: string, callbackName: string, expiresAt: Option<int>)
    | EnqueueInBatch(batchId: string, env: Envelope, now: int)
    | SubmitBatch(batchId: string, now: int, callbackId: JobId)
    | Dequeue(queue: string, workerTags: seq<string>, now: int, rows: seq<JobId>)
    | Postpone(id: JobId, runAt: int)
    | Ack(id: JobId, now: int, callbackId: JobId)
    | Fail(id: JobId, nextRun: int)
    | Cancel(id: JobId)
    | FailExpiredBatches(now: int)
    | Forget(ids: set<JobId>) // archival and purging of finished rows

  function Count<K>(counts: map<K, nat>, k: K): nat {
    if k in counts then counts[k] else 0
  }

  function Bump<K>(counts: map<K, nat>, k: K): map<K, nat> {
    counts[k := Count(counts, k) + 1]
  }

  function MembersOf(w: World, batchId: string): set<JobId> {
    if batchId in w.members then w.members[batchId] else {}
  }

  function Declare(declared: map<JobId, set<JobId>>, envs: seq<Envelope>): map<JobId, set<JobId>>
    decreases |envs|
  {
    if envs == [] then declared
    else Declare(declared[envs[0].jobId := Elems(envs[0].dependencies)], envs[1..])
  }

  function WithEffect(w: World, e: Ops.Effect, batchId: string, callbackId: JobId): (w': World)
    ensures forall b :: Count(w'.fired, b) == Count(w.fired, b) + if e.fired && b == batchId then 1 else 0
  {
    if e.fired then w.(db := e.db, fired := Bump(w.fired, batchId), declared := w.declared[callbackId := {}])
    else w.(db := e.db)
  }

  function AfterEnqueue(w: World, env: Envelope, now: int): World {
    var r := Ops.Enqueue(w.db, env, now);
    if r.None? then w else w.(db := r.value, declared := w.declared[env.jobId := {}])
  }

  function AfterWorkflow(w: World, envs: seq<Envelope>, now: int): World {
    var r := Ops.EnqueueWorkflow(w.db, envs, now);
    if r.None? then w else w.(db := r.value, declared := Declare(w.declared, envs))
  }

  function AfterCreateBatch(w: World, b: string, queue: string, name: string, expiresAt: Option<int>): World {
    var r := Ops.CreateBatch(w.db, b, queue, name, expiresAt);
    if r.None? then w else w.(db := r.value, members := w.members[b := {}])
  }

  function AfterEnqueueInBatch(w: World, b: string, env: Envelope, now: int): World {
    var r := Ops.EnqueueInBatch(w.db, b, env, now);
    if r.None? then w
    else w.(db := r.value, declared := w.declared[env.jobId := {}],
            members := w.members[b := MembersOf(w, b) + {env.jobId}])
  }

  function AfterSubmit(w: World, b: string, now: int, callbackId: JobId): World {
    var r := Ops.SubmitBatch(w.db, b, now, callbackId);
    if r.None? then w else WithEffect(w, r.value, b, callbackId).(submits := Bump(w.submits, b))
  }

  function AfterAck(w: World, id: JobId, now: int, callbackId: JobId): World {
    var r := Ops.Ack(w.db, id, now, callbackId);
    if r.None? then w
    else
      var done := if id in w.db.jobs then {id} else {};
      WithEffect(w, r.value, BatchIdOf(w.db.jobs, id), callbackId).(acked := w.acked + done)
  }

  ghost predicate AfterFail(w: World, id: JobId, nextRun: int, w': World) {
    && Ops.Fail(w.db, id, nextRun, w'.db)
    && w' == w.(db := w'.db, failures := if id in w.db.jobs then Bump(w.failures, id) else w.failures)
  }

  /** One call, with nothing in between. */
  ghost predicate Next(w: World, op: Op, w': World)
  {
    match op
    case Enqueue(env, now) => w' == AfterEnqueue(w, env, now)
    case EnqueueWorkflow(envs, now) => w' == AfterWorkflow(w, envs, now)
    case CreateBatch(b, queue, name, expiresAt) => w' == AfterCreateBatch(w, b, queue, name, expiresAt)
    case EnqueueInBatch(b, env, now) => w' == AfterEnqueueInBatch(w, b, env, now)
    case SubmitBatch(b, now, callbackId) => w' == AfterSubmit(w, b, now, callbackId)
    case Dequeue(queue, tags, now, rows) =>
      && (forall id :: id in rows ==> id in w.db.jobs)
      && w' == w.(db := Ops.Claim(w.db, Ops.FirstEligible(w.db.jobs, rows, tags)))
    case Postpone(id, runAt) => w' == w.(db := Ops.Postpone(w.db, id, runAt))
    case Ack(id, now, callbackId) => w' == AfterAck(w, id, now, callbackId)
    case Fail(id, nextRun) => AfterFail(w, id, nextRun, w')
    case Cancel(id) => Ops.Cancel(w.db, id, w'.db) && w' == w.(db := w'.db)
    case FailExpiredBatches(now) => w' == w.(db := Ops.FailExpiredBatches(w.db, now))
    case Forget(ids) => w' == w.(db := w.db.(jobs := w.db.jobs - ids))
  }

  /** The id was never used by an earlier insertion. */
  predicate Fresh(w: World, id: JobId) {
    id !in w.declared && id !in w.db.jobs
  }

  lemma {:induction false} LongerThanAll(ids: set<JobId>) returns (n: nat)
    ensures forall id :: id in ids ==> |id| < n
    decreases ids
  {
    if ids == {} {
      n := 0;
    } else {
      var id :| id in ids;
      var m := LongerThanAll(ids - {id});
      n := if |id| < m then m else |id| + 1;
    }
  }

  /** There is always another id. */
  lemma Unused(ids: set<JobId>) returns (id: JobId)
    ensures id !in ids
  {
    var n := LongerThanAll(ids);
    id := seq(n, _ => 'x');
  }

  predicate IsRunning(db: Database, id: JobId) {
    id in db.jobs && db.jobs[id].status.Running?
  }

  /** The worker that reports on the job holds it, or held it until the row was cancelled. */
  predicate HeldOrGone(db: Database, id: JobId) {
    id in db.jobs ==> db.jobs[id].status.Running?
  }

  function EnvelopeIds(envs: seq<Envelope>): set<JobId> {
    set env | env in envs :: env.jobId
  }

  function EnvelopeEdges(envs: seq<Envelope>): set<Edge> {
    set env, p | env in envs && p in env.dependencies :: Edge(env.jobId, p)
  }

  predicate DistinctIds(envs: seq<Envelope>) {
    forall i, j :: 0 <= i < j < |envs| ==> envs[i].jobId != envs[j].jobId
  }

  /** Every parent named in the call is in the call or is a job that has not finished. */
  predicate ParentsLive(db: Database, envs: seq<Envelope>) {
    forall env, p :: env in envs && p in env.dependencies ==>
      p in EnvelopeIds(envs) || (p in db.jobs && db.jobs[p].Live())
  }

  /**
   * What callers owe the storage: ids are fresh; workflow graphs are acyclic and name live parents; a batch exists
   * before jobs are put in it; a job is acknowledged, failed or postponed only by the worker that runs it, even if
   * it was cancelled meanwhile; only finished rows are archived or purged.
   */
  ghost predicate Allowed(w: World, op: Op)
  {
    match op
    case Enqueue(env, now) => Fresh(w, env.jobId)
    case EnqueueWorkflow(envs, now) =>
      && DistinctIds(envs)
      && (forall env :: env in envs ==> Fresh(w, env.jobId))
      && ParentsLive(w.db, envs)
      && Acyclic(EnvelopeEdges(envs))
    case CreateBatch(b, queue, name, expiresAt) => b != ""
    case EnqueueInBatch(b, env, now) => Fresh(w, env.jobId) && b in w.db.batches
    case SubmitBatch(b, now, callbackId) => Fresh(w, callbackId)
    case Dequeue(queue, tags, now, rows) => Ops.IsQueryResult(w.db, queue, now, rows)
    case Postpone(id, runAt) => HeldOrGone(w.db, id)
    case Ack(id, now, callbackId) => HeldOrGone(w.db, id) && Fresh(w, callbackId)
    case Fail(id, nextRun) => HeldOrGone(w.db, id)
    case Cancel(id) => true
    case FailExpiredBatches(now) => true
    case Forget(ids) => forall id :: id in ids && id in w.db.jobs ==> !w.db.jobs[id].Live()
  }

  const EMPTY: World := World(Database(map[], {}, map[], map[]), map[], {}, map[], map[], map[], map[])

  /** `ws` are the worlds a run goes through, from empty tables on, while callers keep to `Allowed`. */
  ghost predicate IsRun(ws: seq<World>, ops: seq<Op>)
  {
    && |ws| == |ops| + 1
    && ws[0] == EMPTY
    && forall i {:trigger ops[i]} :: 0 <= i < |ops| ==> Allowed(ws[i], ops[i]) && Next(ws[i], ops[i], ws[i + 1])
  }
}
