/**
 * How the Redis storage decides between another attempt and the dead list, and that it decides like the SQL storage.
 */
module RedisFail {
  import opened Graph
  import opened Tables
  import opened Runs
  import Workflow = WorkflowSafety
  import Lifecycle
  import Requests

  const DEAD_SHOWN := 50

  /** The envelope as kept in the hash of jobs; `maxAttempts` is as the client sent it. */
  datatype Stored = Stored(queue: string, attempts: int, maxAttempts: int, uniqueKey: string, batchId: string)

  /** The keys that a failure touches; sets and lists kept per queue are maps here. */
  datatype Keys = Keys(
    jobs: map<JobId, Stored>,
    active: set<(string, JobId)>,
    scheduled: map<(string, JobId), int>,
    dead: map<string, seq<JobId>>,
    deadCount: map<string, int>,
    deadTtl: set<(string, JobId)>,
    errors: set<JobId>,
    locks: set<string>,
    failedBatches: set<string>,
    expiring: set<string>)

  function DeadOf(dead: map<string, seq<JobId>>, queue: string): seq<JobId> {
    if queue in dead then dead[queue] else []
  }

  function CountOf(counts: map<string, int>, queue: string): int {
    if queue in counts then counts[queue] else 0
  }

  function Shown(dead: seq<JobId>): seq<JobId> {
    if |dead| > DEAD_SHOWN then dead[..DEAD_SHOWN] else dead
  }

  /** No attempt is left once this failure is counted. */
  predicate IsDead(s: Stored) {
    s.attempts + 1 >= GetMaxAttempts(s.maxAttempts)
  }

  function Rescheduled(k: Keys, id: JobId, env: Stored, nextRun: int): Keys {
    k.(jobs := k.jobs[id := env], scheduled := k.scheduled[(env.queue, id) := nextRun])
  }

  function Buried(k: Keys, id: JobId, env: Stored): Keys {
    k.(jobs := k.jobs[id := env],
       dead := k.dead[env.queue := Shown([id] + DeadOf(k.dead, env.queue))],
       deadCount := k.deadCount[env.queue := CountOf(k.deadCount, env.queue) + 1],
       deadTtl := k.deadTtl + {(env.queue, id)},
       errors := k.errors + {id},
       locks := if env.uniqueKey == "" then k.locks else k.locks - {LockKey(env.queue, env.uniqueKey)},
       failedBatches := if env.batchId == "" then k.failedBatches else k.failedBatches + {env.batchId},
       expiring := if env.batchId == "" then k.expiring else k.expiring - {env.batchId})
  }

  /** The keys after a failure of `id`; a job that is not in the hash changes nothing. */
  function KeysAfterFail(k: Keys, id: JobId, nextRun: int): Keys {
    if id !in k.jobs then k
    else
      var env := k.jobs[id].(attempts := k.jobs[id].attempts + 1);
      var k' := k.(active := k.active - {(env.queue, id)});
      if IsDead(k.jobs[id]) then Buried(k', id, env) else Rescheduled(k', id, env, nextRun)
  }

  class RedisStorage {
    var jobs: map<JobId, Stored>
    var active: set<(string, JobId)>
    var scheduled: map<(string, JobId), int>
    var dead: map<string, seq<JobId>>
    var deadCount: map<string, int>
    var deadTtl: set<(string, JobId)>
    var errors: set<JobId>
    var locks: set<string>
    var failedBatches: set<string>
    var expiring: set<string>

    ghost function State(): Keys
      reads this
    {
      Keys(jobs, active, scheduled, dead, deadCount, deadTtl, errors, locks, failedBatches, expiring)
    }

    method RescheduleJob(id: JobId, env: Stored, nextRun: int)
      modifies this
      ensures State() == Rescheduled(old(State()), id, env, nextRun)
    {
      jobs := jobs[id := env];
      scheduled := scheduled[(env.queue, id) := nextRun];
    }

    /** Lists the job, of which the list keeps the newest only, and counts it. */
    method ListDead(queue: string, id: JobId)
      modifies this`dead, this`deadCount, this`deadTtl, this`errors
      ensures dead == old(dead)[queue := Shown([id] + DeadOf(old(dead), queue))]
      ensures deadCount == old(deadCount)[queue := CountOf(old(deadCount), queue) + 1]
      ensures deadTtl == old(deadTtl) + {(queue, id)} && errors == old(errors) + {id}
    {
      var list := [id] + DeadOf(dead, queue);
      if |list| > DEAD_SHOWN {
        list := list[..DEAD_SHOWN];
      }
      dead := dead[queue := list];
      errors := errors + {id};
      deadTtl := deadTtl + {(queue, id)};
      deadCount := deadCount[queue := CountOf(deadCount, queue) + 1];
    }

    method HandleDeadJob(id: JobId, env: Stored)
      modifies this
      ensures State() == Buried(old(State()), id, env)
    {
      jobs := jobs[id := env];
      ListDead(env.queue, id);
      SettleDead(env);
    }

    /** Releases the dead job's lock and fails its batch. */
    method SettleDead(env: Stored)
      modifies this`locks, this`failedBatches, this`expiring
      ensures locks == if env.uniqueKey == "" then old(locks) else old(locks) - {LockKey(env.queue, env.uniqueKey)}
      ensures failedBatches == if env.batchId == "" then old(failedBatches) else old(failedBatches) + {env.batchId}
      ensures expiring == if env.batchId == "" then old(expiring) else old(expiring) - {env.batchId}
    {
      if env.uniqueKey != "" {
        locks := locks - {LockKey(env.queue, env.uniqueKey)};
      }
      if env.batchId != "" {
        failedBatches := failedBatches + {env.batchId};
        expiring := expiring - {env.batchId};
      }
    }

    method PrepareFailStep(id: JobId, env: Stored, nextRun: int) returns (isDead: bool)
      modifies this
      ensures isDead <==> env.attempts >= GetMaxAttempts(env.maxAttempts)
      ensures State() == if isDead then Buried(old(State()), id, env) else Rescheduled(old(State()), id, env, nextRun)
    {
      var maxAttempts := env.maxAttempts;
      if maxAttempts <= 0 {
        maxAttempts := 3;
      }
      if env.attempts < maxAttempts {
        RescheduleJob(id, env, nextRun);
        return false;
      }
      HandleDeadJob(id, env);
      return true;
    }

    /** Everything but the cascade that the caller starts when the job is dead. */
    method Fail(id: JobId, nextRun: int) returns (isDead: bool)
      modifies this
      ensures State() == KeysAfterFail(old(State()), id, nextRun)
      ensures isDead <==> id in old(jobs) && IsDead(old(jobs)[id])
    {
      if id !in jobs {
        return false;
      }
      var env := jobs[id].(attempts := jobs[id].attempts + 1);
      active := active - {(env.queue, id)};
      isDead := PrepareFailStep(id, env, nextRun);
    }
  }

  // The same calls on both storages

  function StoredOf(env: Envelope, batchId: string): Stored {
    Stored(env.queue, 0, env.maxAttempts, env.uniqueKey, batchId)
  }

  function SentAll(envs: seq<Envelope>): map<JobId, Stored> {
    if envs == [] then map[] else SentAll(envs[..|envs| - 1])[envs[|envs| - 1].jobId := StoredOf(envs[|envs| - 1], "")]
  }

  /** What a call puts into the hash of jobs. */
  function SentBy(op: Op): map<JobId, Stored> {
    match op
    case Enqueue(env, _) => map[env.jobId := StoredOf(env, "")]
    case EnqueueWorkflow(envs, _) => SentAll(envs)
    case EnqueueInBatch(b, env, _) => map[env.jobId := StoredOf(env, b)]
    case _ => map[]
  }

  /** A cancelled job leaves the hash. */
  function AfterOp(k: Keys, op: Op): Keys {
    match op
    case Fail(id, nextRun) => KeysAfterFail(k, id, nextRun)
    case Cancel(id) => k.(jobs := k.jobs - {id})
    case _ => k.(jobs := k.jobs + SentBy(op))
  }

  const NO_KEYS := Keys(map[], {}, map[], map[], map[], {}, {}, {}, {}, {})

  /** The keys after the first `n` calls of a run, calls that the tables refuse left out. */
  ghost function KeysAt(ws: seq<World>, ops: seq<Op>, n: nat): Keys
    requires |ws| == |ops| + 1 && n <= |ops|
  {
    if n == 0 then NO_KEYS
    else
      var k := KeysAt(ws, ops, n - 1);
      if ws[n] == ws[n - 1] && !ops[n - 1].Fail? then k else AfterOp(k, ops[n - 1])
  }

  /** Both storages count the same attempts against the same maximum. */
  ghost predicate Agree(w: World, k: Keys)
  {
    && k.jobs.Keys <= w.declared.Keys
    && forall id :: id in k.jobs && id in w.db.jobs && w.db.jobs[id].Live() ==>
         && w.db.jobs[id].attempts == k.jobs[id].attempts
         && w.db.jobs[id].maxAttempts == GetMaxAttempts(k.jobs[id].maxAttempts)
         && SamePlace(w.db.jobs[id], k.jobs[id])
  }

  predicate SamePlace(row: Job, env: Stored) {
    row.queue == env.queue && row.uniqueKey == env.uniqueKey && row.batchId == env.batchId
  }

  lemma {:induction false} SentAllIs(envs: seq<Envelope>, id: JobId)
    requires DistinctIds(envs)
    ensures id in SentAll(envs) <==> exists env :: env in envs && env.jobId == id
    ensures forall env :: env in envs && env.jobId == id ==> SentAll(envs)[id] == StoredOf(env, "")
    decreases |envs|
  {
    if envs != [] {
      var front, last := envs[..|envs| - 1], envs[|envs| - 1];
      SentAllIs(front, id);
      assert envs == front + [last];
    }
  }

  /** A new row has the maximum its client sent, or the default. */
  lemma NewRowsAsSent(w: World, op: Op, w': World, id: JobId)
    requires Allowed(w, op) && Next(w, op, w') && id in w'.db.jobs && id !in w.declared && id !in w.db.jobs
    requires op.Enqueue? || op.EnqueueWorkflow? || op.EnqueueInBatch?
    ensures id in SentBy(op) && SentBy(op)[id].attempts == 0
    ensures w'.db.jobs[id].maxAttempts == GetMaxAttempts(SentBy(op)[id].maxAttempts)
    ensures SamePlace(w'.db.jobs[id], SentBy(op)[id])
  {
    if op.EnqueueWorkflow? {
      Workflow.WorkflowInserted(w.db, op.envs, op.now);
      var env :| env in op.envs && env.jobId == id;
      SentAllIs(op.envs, id);
    }
  }

  lemma SentIsDeclared(w: World, op: Op, w': World)
    requires Allowed(w, op) && Next(w, op, w') && w' != w
    ensures SentBy(op).Keys <= w'.declared.Keys
  {
    if op.EnqueueWorkflow? {
      Workflow.WorkflowDeclared(w.declared, op.envs);
      forall id | id in SentBy(op) ensures id in w'.declared {
        SentAllIs(op.envs, id);
      }
    }
  }

  /** In the hash a failure counts one attempt of its job, and nothing else. */
  lemma FailCounts(k: Keys, id: JobId, nextRun: int)
    ensures var k' := KeysAfterFail(k, id, nextRun);
            && k'.jobs.Keys == k.jobs.Keys
            && (forall j :: j in k.jobs && j != id ==> k'.jobs[j] == k.jobs[j])
            && (id in k.jobs ==> k'.jobs[id] == k.jobs[id].(attempts := k.jobs[id].attempts + 1))
  {
  }

  /** A failure counts one attempt on each side, unless the job dies of it; and rows that die leave the comparison. */
  lemma AgreeFail(w: World, id: JobId, nextRun: int, w': World, k: Keys, k': Keys)
    requires Agree(w, k) && AfterFail(w, id, nextRun, w') && (id in w.db.jobs ==> w.db.jobs[id].status.Running?)
    requires k' == KeysAfterFail(k, id, nextRun)
    ensures Agree(w', k')
  {
    FailCounts(k, id, nextRun);
    FailRows(w, id, nextRun, w');
  }

  lemma FailRows(w: World, id: JobId, nextRun: int, w': World)
    requires AfterFail(w, id, nextRun, w')
    ensures w'.declared == w.declared
    ensures forall j :: j in w'.db.jobs && w'.db.jobs[j].Live() ==>
              j in w.db.jobs && (j != id ==> w'.db.jobs[j] == w.db.jobs[j])
    ensures id in w'.db.jobs && w'.db.jobs[id].Live() ==>
              && w'.db.jobs[id].attempts == w.db.jobs[id].attempts + 1
              && w'.db.jobs[id].maxAttempts == w.db.jobs[id].maxAttempts
              && w'.db.jobs[id] == w.db.jobs[id].(status := Pending, attempts := w'.db.jobs[id].attempts,
                                                  runAt := w'.db.jobs[id].runAt)
  {
  }

  lemma AgreeOther(w: World, op: Op, w': World, k: Keys)
    requires Lifecycle.Inv(w) && Agree(w, k) && Allowed(w, op) && Next(w, op, w') && !op.Fail? && w' != w
    ensures Agree(w', AfterOp(k, op))
  {
    Lifecycle.OnlyFailCounts(w, op, w');
    SentIsDeclared(w, op, w');
    var k' := AfterOp(k, op);
    forall id | id in k'.jobs && id in w'.db.jobs && w'.db.jobs[id].Live()
      ensures w'.db.jobs[id].attempts == k'.jobs[id].attempts
      ensures w'.db.jobs[id].maxAttempts == GetMaxAttempts(k'.jobs[id].maxAttempts)
      ensures SamePlace(w'.db.jobs[id], k'.jobs[id])
    {
      if id !in w.db.jobs {
        NewRowsAsSent(w, op, w', id);
      } else {
        SentIsNew(w, op, id);
        PlaceStays(w, op, w', id);
      }
    }
  }

  /** Calls never send an id again that already has a row. */
  lemma SentIsNew(w: World, op: Op, id: JobId)
    requires Allowed(w, op) && id in w.db.jobs
    ensures id !in SentBy(op)
  {
    if op.EnqueueWorkflow? {
      SentAllIs(op.envs, id);
    }
  }

  lemma PlaceStays(w: World, op: Op, w': World, id: JobId)
    requires Lifecycle.Inv(w) && Allowed(w, op) && Next(w, op, w') && id in w.db.jobs && id in w'.db.jobs
    ensures var row, row' := w.db.jobs[id], w'.db.jobs[id];
            row'.queue == row.queue && row'.uniqueKey == row.uniqueKey && row'.batchId == row.batchId
  {
    Requests.StepKeeps(w, op, w', id);
  }

  lemma AgreeStep(w: World, op: Op, w': World, k: Keys)
    requires Lifecycle.Inv(w) && Agree(w, k) && Allowed(w, op) && Next(w, op, w')
    ensures Agree(w', if w' == w && !op.Fail? then k else AfterOp(k, op))
  {
    if op.Fail? {
      AgreeFail(w, op.id, op.nextRun, w', k, AfterOp(k, op));
    } else if w' != w {
      AgreeOther(w, op, w', k);
    }
  }

  lemma {:induction false} AgreeAt(ws: seq<World>, ops: seq<Op>, n: nat)
    requires IsRun(ws, ops) && n < |ws|
    ensures Agree(ws[n], KeysAt(ws, ops, n))
    decreases n
  {
    if n > 0 {
      AgreeAt(ws, ops, n - 1);
      Lifecycle.EveryRun(ws, ops, n - 1);
      AgreeStep(ws[n - 1], ops[n - 1], ws[n], KeysAt(ws, ops, n - 1));
    }
  }

  /** On Redis the job of the row joins the dead list, its key is released and its batch fails. */
  predicate DiesOnRedis(row: Job, id: JobId, k: Keys, k': Keys) {
    && id in k'.jobs && k'.jobs[id].attempts == row.attempts + 1
    && DeadOf(k'.dead, row.queue) == Shown([id] + DeadOf(k.dead, row.queue)) && k'.scheduled == k.scheduled
    && id in k'.errors && (row.queue, id) in k'.deadTtl
    && k'.locks == k.locks - (if row.uniqueKey == "" then {} else {LockKey(row.queue, row.uniqueKey)})
    && k'.failedBatches == k.failedBatches + (if row.batchId == "" then {} else {row.batchId})
    && k'.expiring == k.expiring - (if row.batchId == "" then {} else {row.batchId})
  }

  /** On Redis the job of the row is due again in its queue at the time given, and nothing is lost. */
  predicate ComesBackOnRedis(row: Job, id: JobId, nextRun: int, k: Keys, k': Keys) {
    && id in k'.jobs && k'.jobs[id].attempts == row.attempts + 1
    && k'.scheduled == k.scheduled[(row.queue, id) := nextRun] && k'.dead == k.dead
    && k'.locks == k.locks && k'.failedBatches == k.failedBatches && k'.expiring == k.expiring
  }

  lemma FailsAsRow(row: Job, id: JobId, nextRun: int, k: Keys, k': Keys)
    requires id in k.jobs && SamePlace(row, k.jobs[id]) && row.attempts == k.jobs[id].attempts
    requires k' == KeysAfterFail(k, id, nextRun)
    ensures k'.active == k.active - {(row.queue, id)}
    ensures if IsDead(k.jobs[id]) then DiesOnRedis(row, id, k, k') else ComesBackOnRedis(row, id, nextRun, k, k')
  {
  }

  /**
   * When the same calls reach both storages, a failure puts a job on the dead list of Redis exactly when it turns its
   * SQL row dead, and then releases the key and fails the batch that the row has; otherwise it schedules the job again,
   * in the queue of the row.
   */
  lemma DiesLikeSql(ws: seq<World>, ops: seq<Op>, n: nat)
    requires IsRun(ws, ops) && n < |ops| && ops[n].Fail?
    requires ops[n].id in ws[n].db.jobs && ops[n].id in KeysAt(ws, ops, n).jobs
    ensures ops[n].id in ws[n + 1].db.jobs
    ensures var id, k, k' := ops[n].id, KeysAt(ws, ops, n), KeysAt(ws, ops, n + 1);
            var row := ws[n].db.jobs[id];
            && k'.active == k.active - {(row.queue, id)}
            && if ws[n + 1].db.jobs[id].status.Dead? then DiesOnRedis(row, id, k, k')
               else ComesBackOnRedis(row, id, ops[n].nextRun, k, k')
  {
    Lifecycle.EveryRun(ws, ops, n);
    AgreeAt(ws, ops, n);
    assert Allowed(ws[n], ops[n]) && Next(ws[n], ops[n], ws[n + 1]);
    FailsAsRow(ws[n].db.jobs[ops[n].id], ops[n].id, ops[n].nextRun, KeysAt(ws, ops, n), KeysAt(ws, ops, n + 1));
  }

  /** The failure is the last one allowed, the third when no number is given. */
  predicate UsesLast(s: Stored) {
    s.attempts + 1 >= if s.maxAttempts > 0 then s.maxAttempts else 3
  }

  /** The job, if it dies of a failure now and is of that queue. */
  function DiesIn(k: Keys, id: JobId, queue: string): seq<JobId> {
    if id in k.jobs && k.jobs[id].queue == queue && UsesLast(k.jobs[id]) then [id] else []
  }

  /** The jobs of the queue that have died on Redis so far, in that order. */
  ghost function Deaths(ws: seq<World>, ops: seq<Op>, n: nat, queue: string): seq<JobId>
    requires |ws| == |ops| + 1 && n <= |ops|
  {
    if n == 0 then []
    else
      var earlier := Deaths(ws, ops, n - 1, queue);
      if ops[n - 1].Fail? then earlier + DiesIn(KeysAt(ws, ops, n - 1), ops[n - 1].id, queue) else earlier
  }

  /** The list shows the newest fifty deaths, newest first, and the counter counts them all. */
  ghost predicate ShowsOf(k: Keys, queue: string, deaths: seq<JobId>) {
    var shown := DeadOf(k.dead, queue);
    && |shown| == (if |deaths| < 50 then |deaths| else 50)
    && (forall i :: 0 <= i < |shown| ==> shown[i] == deaths[|deaths| - 1 - i])
    && CountOf(k.deadCount, queue) == |deaths|
  }

  lemma DeathShows(k: Keys, id: JobId, env: Stored, queue: string, deaths: seq<JobId>)
    requires ShowsOf(k, queue, deaths)
    ensures ShowsOf(Buried(k, id, env), queue, if env.queue == queue then deaths + [id] else deaths)
  {
  }

  lemma FailShows(k: Keys, id: JobId, nextRun: int, queue: string, deaths: seq<JobId>)
    requires ShowsOf(k, queue, deaths)
    ensures ShowsOf(KeysAfterFail(k, id, nextRun), queue, deaths + DiesIn(k, id, queue))
  {
    if id in k.jobs {
      var env := k.jobs[id].(attempts := k.jobs[id].attempts + 1);
      var k' := k.(active := k.active - {(env.queue, id)});
      assert ShowsOf(k', queue, deaths);
      if IsDead(k.jobs[id]) {
        DeathShows(k', id, env, queue, deaths);
      }
    }
    assert deaths + [] == deaths;
  }

  /** What the dead list of a queue shows are its newest fifty deaths, newest first; the counter counts them all. */
  lemma {:induction false} ShowsNewest(ws: seq<World>, ops: seq<Op>, n: nat, queue: string)
    requires |ws| == |ops| + 1 && n <= |ops|
    ensures ShowsOf(KeysAt(ws, ops, n), queue, Deaths(ws, ops, n, queue))
    decreases n
  {
    if n > 0 {
      ShowsNewest(ws, ops, n - 1, queue);
      if ops[n - 1].Fail? {
        FailShows(KeysAt(ws, ops, n - 1), ops[n - 1].id, ops[n - 1].nextRun, queue, Deaths(ws, ops, n - 1, queue));
      }
    }
  }
}
