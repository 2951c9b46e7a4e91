/**
 * The concurrency limit of a job name, enforced by worker pools that share a database: a worker claims a job first,
 * then counts the running rows of its name, and hands the job back when there are too many. Claiming works on a
 * candidate list that may be stale, so the claim checks the status again.
 */
module Throttle {
  import opened Graph
  import opened Tables
  import Ops = Operations

  /** A row of the candidate query as the worker read it. */
  datatype Candidate = Candidate(id: JobId, tags: seq<string>)

  predicate Claimable(jobs: map<JobId, Job>, id: JobId) {
    id in jobs && jobs[id].status.Pending?
  }

  predicate Fits(c: Candidate, workerTags: seq<string>) {
    forall t :: t in c.tags ==> t in workerTags
  }

  predicate Matches(jobs: map<JobId, Job>, c: Candidate, workerTags: seq<string>) {
    Fits(c, workerTags) && Claimable(jobs, c.id)
  }

  predicate IsFirstMatch(jobs: map<JobId, Job>, rows: seq<Candidate>, workerTags: seq<string>, k: int) {
    && 0 <= k < |rows| && Matches(jobs, rows[k], workerTags)
    && forall i :: 0 <= i < k ==> !Matches(jobs, rows[i], workerTags)
  }

  class PostgresStorage {
    var jobs: map<JobId, Job>

    /** The conditional update: it claims the row only if it is still pending. */
    method TryLockJob(id: JobId) returns (locked: bool)
      modifies this
      ensures locked <==> Claimable(old(jobs), id)
      ensures jobs == if locked then old(jobs)[id := old(jobs)[id].(status := Running)] else old(jobs)
    {
      locked := id in jobs && jobs[id].status.Pending?;
      if locked {
        jobs := jobs[id := jobs[id].(status := Running)];
      }
    }

    /** Claims the first candidate that fits the worker and is still pending, and no other row. */
    method LockFirstMatch(rows: seq<Candidate>, workerTags: seq<string>) returns (claimed: Option<JobId>)
      modifies this
      ensures claimed.Some? ==> exists k :: IsFirstMatch(old(jobs), rows, workerTags, k) && rows[k].id == claimed.value
      ensures claimed.None? ==> forall i :: 0 <= i < |rows| ==> !Matches(old(jobs), rows[i], workerTags)
      ensures claimed.None? ==> jobs == old(jobs)
      ensures claimed.Some? ==> claimed.value in old(jobs)
      ensures claimed.Some? ==> jobs == old(jobs)[claimed.value := old(jobs)[claimed.value].(status := Running)]
    {
      for i := 0 to |rows|
        invariant jobs == old(jobs)
        invariant forall k :: 0 <= k < i ==> !Matches(jobs, rows[k], workerTags)
      {
        var fits := forall t :: t in rows[i].tags ==> t in workerTags;
        if fits {
          var locked := TryLockJob(rows[i].id);
          if locked {
            assert IsFirstMatch(old(jobs), rows, workerTags, i);
            return Some(rows[i].id);
          }
        }
      }
      return None;
    }
  }

  // Workers of all pools, interleaved

  type WorkerId = int

  datatype Worker =
    | Idle
    | Scanning(rows: seq<Candidate>)
    | Claimed(id: JobId)   // claimed, running rows not counted yet
    | Rejected(id: JobId)  // to be postponed
    | Counted(id: JobId)   // passed the concurrency check, the rate limit still to be checked
    | Admitted(id: JobId)  // the handler runs

  datatype State = State(jobs: map<JobId, Job>, workers: map<WorkerId, Worker>)

  /** The limit of a name; none means the name is not limited. */
  type Limits = map<string, int>

  datatype Action =
    | List(w: WorkerId, rows: seq<Candidate>)
    | TryLock(w: WorkerId, workerTags: seq<string>)
    | CountRunning(w: WorkerId)
    | CheckRate(w: WorkerId, ok: bool)
    | Postpone(w: WorkerId, runAt: int)
    | Finish(w: WorkerId, status: Status)
    | Elsewhere(jobs: map<JobId, Job>)

  function WorkerAt(s: State, w: WorkerId): Worker {
    if w in s.workers then s.workers[w] else Idle
  }

  function RunningOf(jobs: map<JobId, Job>, name: string): set<JobId> {
    set id | id in jobs && jobs[id].name == name && jobs[id].status.Running?
  }

  function SetStatus(s: State, id: JobId, status: Status): State
    requires id in s.jobs
  {
    s.(jobs := s.jobs[id := s.jobs[id].(status := status)])
  }

  function Move(s: State, w: WorkerId, to: Worker): State {
    s.(workers := s.workers[w := to])
  }

  predicate Holds(x: Worker) {
    x.Claimed? || x.Rejected? || x.Counted? || x.Admitted?
  }

  /** Enqueues, releases of blocked jobs and purges by others: they neither start nor touch a running job. */
  ghost predicate LeavesRunningAlone(jobs: map<JobId, Job>, jobs': map<JobId, Job>) {
    forall id :: (id in jobs && jobs[id].status.Running?) || (id in jobs' && jobs'[id].status.Running?) ==>
      id in jobs && id in jobs' && jobs'[id] == jobs[id]
  }

  ghost predicate Next(limits: Limits, s: State, a: Action, t: State)
  {
    match a
    case List(w, rows) => WorkerAt(s, w).Idle? && t == Move(s, w, Scanning(rows))
    case TryLock(w, tags) =>
      var x := WorkerAt(s, w);
      && x.Scanning?
      && t == if x.rows == [] then Move(s, w, Idle)
              else if Fits(x.rows[0], tags) && Claimable(s.jobs, x.rows[0].id)
                then Move(SetStatus(s, x.rows[0].id, Running), w, Claimed(x.rows[0].id))
              else Move(s, w, Scanning(x.rows[1..]))
    case CountRunning(w) =>
      var x := WorkerAt(s, w);
      && x.Claimed? && x.id in s.jobs
      && var name := s.jobs[x.id].name;
         var over := name in limits && limits[name] > 0 && |RunningOf(s.jobs, name)| > limits[name];
         t == Move(s, w, if over then Rejected(x.id) else Counted(x.id))
    case CheckRate(w, ok) =>
      var x := WorkerAt(s, w);
      x.Counted? && t == Move(s, w, if ok then Admitted(x.id) else Rejected(x.id))
    case Postpone(w, runAt) =>
      var x := WorkerAt(s, w);
      x.Rejected? && t == Move(s.(jobs := Ops.Postpone(Database(s.jobs, {}, map[], map[]), x.id, runAt).jobs), w, Idle)
    case Finish(w, status) =>
      var x := WorkerAt(s, w);
      && x.Admitted? && x.id in s.jobs && !status.Running? && t == Move(SetStatus(s, x.id, status), w, Idle)
    case Elsewhere(jobs) => LeavesRunningAlone(s.jobs, jobs) && t == s.(jobs := jobs)
  }

  /** Every job a worker holds is running, and no two workers hold the same one. */
  ghost predicate Exclusive(s: State)
  {
    && (forall w :: Holds(WorkerAt(s, w)) ==>
          WorkerAt(s, w).id in s.jobs && s.jobs[WorkerAt(s, w).id].status.Running?)
    && forall v, w :: Holds(WorkerAt(s, v)) && Holds(WorkerAt(s, w)) && WorkerAt(s, v).id == WorkerAt(s, w).id ==>
         v == w
  }

  /** The job passed the concurrency check and has not ended: a worker is past the count and holds it. */
  predicate Passed(x: Worker) {
    x.Counted? || x.Admitted?
  }

  ghost function PassedOf(s: State, name: string): set<JobId> {
    set w | w in s.workers && Passed(s.workers[w]) && s.workers[w].id in s.jobs && s.jobs[s.workers[w].id].name == name
      :: s.workers[w].id
  }

  ghost predicate WithinLimits(limits: Limits, s: State) {
    forall name :: name in limits && limits[name] > 0 ==> |PassedOf(s, name)| <= limits[name]
  }

  ghost predicate Inv(limits: Limits, s: State) {
    Exclusive(s) && WithinLimits(limits, s)
  }

  lemma ExclusiveStep(limits: Limits, s: State, a: Action, t: State)
    requires Exclusive(s) && Next(limits, s, a, t)
    ensures Exclusive(t)
  {
    if a.Elsewhere? {
      assert forall w :: WorkerAt(t, w) == WorkerAt(s, w);
    } else {
      assert forall w :: w != a.w ==> WorkerAt(t, w) == WorkerAt(s, w);
    }
  }

  /** Only counting lets a job pass. */
  lemma PassedShrinks(limits: Limits, s: State, a: Action, t: State, name: string)
    requires Exclusive(s) && Next(limits, s, a, t) && !a.CountRunning?
    ensures PassedOf(t, name) <= PassedOf(s, name)
  {
    forall id | id in PassedOf(t, name) ensures id in PassedOf(s, name) {
      var w :| w in t.workers && Passed(t.workers[w]) && t.workers[w].id == id
               && id in t.jobs && t.jobs[id].name == name;
      assert WorkerAt(t, w) == t.workers[w];
      assert Holds(WorkerAt(s, w)) && Passed(WorkerAt(s, w)) && WorkerAt(s, w).id == id;
      assert w in s.workers;
    }
  }

  lemma CountAdmitsWithin(limits: Limits, s: State, w: WorkerId, t: State, name: string)
    requires Exclusive(s) && Next(limits, s, CountRunning(w), t)
    requires name in limits && limits[name] > 0 && |PassedOf(s, name)| <= limits[name]
    ensures |PassedOf(t, name)| <= limits[name]
  {
    var id := WorkerAt(s, w).id;
    forall j | j in PassedOf(t, name)
      ensures j in PassedOf(s, name) || (j == id && s.jobs[id].name == name && t.workers[w].Counted?)
    {
      var v :| v in t.workers && Passed(t.workers[v]) && t.workers[v].id == j && j in t.jobs && t.jobs[j].name == name;
      assert v != w ==> v in s.workers && s.workers[v] == t.workers[v];
    }
    if t.workers[w].Counted? && s.jobs[id].name == name {
      forall j | j in PassedOf(t, name) ensures j in RunningOf(s.jobs, name) {
        var v :| v in t.workers && Passed(t.workers[v]) && t.workers[v].id == j
                 && j in t.jobs && t.jobs[j].name == name;
        assert v != w ==> Holds(WorkerAt(s, v)) && WorkerAt(s, v).id == j;
      }
      SubsetCard(PassedOf(t, name), RunningOf(s.jobs, name));
    } else {
      SubsetCard(PassedOf(t, name), PassedOf(s, name));
    }
  }

  lemma Step(limits: Limits, s: State, a: Action, t: State)
    requires Inv(limits, s) && Next(limits, s, a, t)
    ensures Inv(limits, t)
  {
    ExclusiveStep(limits, s, a, t);
    forall name | name in limits && limits[name] > 0 ensures |PassedOf(t, name)| <= limits[name] {
      if a.CountRunning? {
        CountAdmitsWithin(limits, s, a.w, t, name);
      } else {
        PassedShrinks(limits, s, a, t, name);
        SubsetCard(PassedOf(t, name), PassedOf(s, name));
      }
    }
  }

  ghost predicate IsRun(limits: Limits, ss: seq<State>, acts: seq<Action>)
  {
    && |ss| == |acts| + 1 && ss[0].workers == map[]
    && forall i {:trigger acts[i]} :: 0 <= i < |acts| ==> Next(limits, ss[i], acts[i], ss[i + 1])
  }

  lemma {:induction false} EveryRun(limits: Limits, ss: seq<State>, acts: seq<Action>, n: nat)
    requires IsRun(limits, ss, acts) && n < |ss|
    ensures Inv(limits, ss[n])
    decreases n
  {
    if n > 0 {
      EveryRun(limits, ss, acts, n - 1);
      Step(limits, ss[n - 1], acts[n - 1], ss[n]);
    } else {
      forall name ensures PassedOf(ss[0], name) == {} {
      }
    }
  }

  /** However claims, counts and postponements of all pools interleave, no job runs twice at once. */
  lemma NoDoubleClaim(limits: Limits, ss: seq<State>, acts: seq<Action>, n: nat, v: WorkerId, w: WorkerId)
    requires IsRun(limits, ss, acts) && n < |ss|
    requires Holds(WorkerAt(ss[n], v)) && Holds(WorkerAt(ss[n], w)) && WorkerAt(ss[n], v).id == WorkerAt(ss[n], w).id
    ensures v == w
  {
    EveryRun(limits, ss, acts, n);
  }

  /** And never are more jobs of a name admitted and unfinished than its limit allows. */
  lemma LimitKept(limits: Limits, ss: seq<State>, acts: seq<Action>, n: nat, name: string)
    requires IsRun(limits, ss, acts) && n < |ss| && name in limits && limits[name] > 0
    ensures |PassedOf(ss[n], name)| <= limits[name]
  {
    EveryRun(limits, ss, acts, n);
  }

  /**
   * A count lets the claimed job pass exactly when its name has no limit, or fewer other jobs of the name are running
   * than the limit allows.
   */
  lemma PassesIff(limits: Limits, ss: seq<State>, acts: seq<Action>, n: nat, w: WorkerId)
    requires IsRun(limits, ss, acts) && n < |acts| && acts[n] == CountRunning(w)
    ensures WorkerAt(ss[n], w).Claimed? && WorkerAt(ss[n], w).id in ss[n].jobs
    ensures var id := WorkerAt(ss[n], w).id;
            var name := ss[n].jobs[id].name;
            var passes := name !in limits || limits[name] <= 0 || |RunningOf(ss[n].jobs, name) - {id}| < limits[name];
            WorkerAt(ss[n + 1], w) == if passes then Counted(id) else Rejected(id)
  {
    EveryRun(limits, ss, acts, n);
    assert Next(limits, ss[n], acts[n], ss[n + 1]);
    var id := WorkerAt(ss[n], w).id;
    assert Holds(WorkerAt(ss[n], w)) && id in RunningOf(ss[n].jobs, ss[n].jobs[id].name);
  }

  /** A job that is handed back waits again, from the time given on, and no other job is touched. */
  lemma HandedBack(limits: Limits, ss: seq<State>, acts: seq<Action>, n: nat, w: WorkerId, runAt: int)
    requires IsRun(limits, ss, acts) && n < |acts| && acts[n] == Postpone(w, runAt)
    ensures WorkerAt(ss[n], w).Rejected? && WorkerAt(ss[n], w).id in ss[n].jobs && WorkerAt(ss[n + 1], w).Idle?
    ensures var id := WorkerAt(ss[n], w).id;
            && Claimable(ss[n + 1].jobs, id) && ss[n + 1].jobs[id].runAt == runAt
            && ss[n + 1].jobs[id].attempts == ss[n].jobs[id].attempts
            && ss[n + 1].jobs.Keys == ss[n].jobs.Keys
            && forall j :: j in ss[n].jobs && j != id ==> ss[n + 1].jobs[j] == ss[n].jobs[j]
  {
    EveryRun(limits, ss, acts, n);
    assert Next(limits, ss[n], acts[n], ss[n + 1]);
    assert Holds(WorkerAt(ss[n], w));
  }

  /** After the count, the rate limit alone decides; the handler runs only when it has agreed. */
  lemma RateDecides(limits: Limits, ss: seq<State>, acts: seq<Action>, n: nat, w: WorkerId, ok: bool)
    requires IsRun(limits, ss, acts) && n < |acts| && acts[n] == CheckRate(w, ok)
    ensures WorkerAt(ss[n], w).Counted? && ss[n + 1].jobs == ss[n].jobs
    ensures var id := WorkerAt(ss[n], w).id; WorkerAt(ss[n + 1], w) == if ok then Admitted(id) else Rejected(id)
  {
    assert Next(limits, ss[n], acts[n], ss[n + 1]);
  }

  /** A job that ends no longer counts against the limit, and its worker is free. */
  lemma EndsCounting(limits: Limits, ss: seq<State>, acts: seq<Action>, n: nat, w: WorkerId, status: Status)
    requires IsRun(limits, ss, acts) && n < |acts| && acts[n] == Finish(w, status)
    ensures WorkerAt(ss[n], w).Admitted? && WorkerAt(ss[n], w).id in ss[n].jobs && WorkerAt(ss[n + 1], w).Idle?
    ensures var id := WorkerAt(ss[n], w).id;
            var name := ss[n].jobs[id].name;
            && RunningOf(ss[n + 1].jobs, name) == RunningOf(ss[n].jobs, name) - {id}
            && PassedOf(ss[n + 1], name) == PassedOf(ss[n], name) - {id}
            && id in PassedOf(ss[n], name) && id in RunningOf(ss[n].jobs, name)
  {
    EveryRun(limits, ss, acts, n);
    assert Next(limits, ss[n], acts[n], ss[n + 1]);
    var s, t, id := ss[n], ss[n + 1], WorkerAt(ss[n], w).id;
    var name := s.jobs[id].name;
    assert Holds(WorkerAt(s, w)) && s.workers[w] == WorkerAt(s, w);
    assert forall v :: v != w ==> WorkerAt(t, v) == WorkerAt(s, v);
    forall j ensures j in PassedOf(t, name) <==> j in PassedOf(s, name) - {id} {
      if j in PassedOf(t, name) {
        var v :| v in t.workers && Passed(t.workers[v]) && t.workers[v].id == j
                 && j in t.jobs && t.jobs[j].name == name;
        assert v != w && WorkerAt(s, v) == t.workers[v] && Holds(WorkerAt(s, v));
      }
      if j in PassedOf(s, name) && j != id {
        var v :| v in s.workers && Passed(s.workers[v]) && s.workers[v].id == j
                 && j in s.jobs && s.jobs[j].name == name;
        assert v != w && t.workers[v] == s.workers[v];
      }
    }
  }

  /** No worker is ever stuck: the next step of whatever it is doing can be taken. */
  lemma WorkersCanMove(limits: Limits, ss: seq<State>, acts: seq<Action>, n: nat, w: WorkerId)
    returns (a: Action, t: State)
    requires IsRun(limits, ss, acts) && n < |ss|
    ensures Next(limits, ss[n], a, t) && !a.Elsewhere? && a.w == w && WorkerAt(t, w) != WorkerAt(ss[n], w)
  {
    EveryRun(limits, ss, acts, n);
    var s := ss[n];
    match WorkerAt(s, w)
    case Idle => a, t := List(w, []), Move(s, w, Scanning([]));
    case Scanning(rows) =>
      a := TryLock(w, []);
      t := if rows == [] then Move(s, w, Idle)
           else if Fits(rows[0], []) && Claimable(s.jobs, rows[0].id)
             then Move(SetStatus(s, rows[0].id, Running), w, Claimed(rows[0].id))
           else Move(s, w, Scanning(rows[1..]));
    case Claimed(id) =>
      var name := s.jobs[id].name;
      var over := name in limits && limits[name] > 0 && |RunningOf(s.jobs, name)| > limits[name];
      a, t := CountRunning(w), Move(s, w, if over then Rejected(id) else Counted(id));
    case Counted(id) => a, t := CheckRate(w, true), Move(s, w, Admitted(id));
    case Rejected(id) =>
      a, t := Postpone(w, 0), Move(s.(jobs := s.jobs[id := s.jobs[id].(status := Pending, runAt := 0)]), w, Idle);
    case Admitted(id) => a, t := Finish(w, Processed), Move(SetStatus(s, id, Processed), w, Idle);
  }

  // The limit is reached

  lemma Then(limits: Limits, ss: seq<State>, acts: seq<Action>, a: Action, t: State)
    returns (tt: seq<State>, more: seq<Action>)
    requires IsRun(limits, ss, acts) && Next(limits, ss[|acts|], a, t)
    ensures IsRun(limits, tt, more) && tt[|more|] == t && tt[0] == ss[0]
  {
    tt, more := ss + [t], acts + [a];
  }

  predicate Waiting(jobs: map<JobId, Job>, name: string, ids: seq<JobId>) {
    && (forall i, j :: 0 <= i < j < |ids| ==> ids[i] != ids[j])
    && forall id :: id in ids ==> Claimable(jobs, id) && jobs[id].name == name
  }

  /** The first `k` jobs have been admitted, each by a worker of its own. */
  function Admitting(jobs: map<JobId, Job>, ids: seq<JobId>, k: nat): State
    requires k <= |ids| && forall id :: id in ids ==> id in jobs
  {
    State(map id | id in jobs :: if id in ids[..k] then jobs[id].(status := Running) else jobs[id],
          map w: int | 0 <= w < k :: Admitted(ids[w]))
  }

  lemma {:induction false} DistinctSize(ids: seq<JobId>)
    requires forall i, j :: 0 <= i < j < |ids| ==> ids[i] != ids[j]
    ensures |Elems(ids)| == |ids|
    decreases |ids|
  {
    if ids != [] {
      var n := |ids| - 1;
      DistinctSize(ids[..n]);
      assert Elems(ids) == Elems(ids[..n]) + {ids[n]};
    } else {
      assert Elems(ids) == {};
    }
  }

  /** With the next job claimed, the running jobs of the name are the first `k + 1`. */
  lemma RunningAre(jobs: map<JobId, Job>, name: string, ids: seq<JobId>, k: nat, t: map<JobId, Job>)
    requires Waiting(jobs, name, ids) && RunningOf(jobs, name) == {} && k < |ids|
    requires t == Admitting(jobs, ids, k).jobs[ids[k] := jobs[ids[k]].(status := Running)]
    ensures |RunningOf(t, name)| == k + 1
  {
    DistinctSize(ids[..k + 1]);
    forall id ensures id in RunningOf(t, name) <==> id in Elems(ids[..k + 1]) {
      assert id in jobs && jobs[id].name == name && jobs[id].status.Running? ==> id in RunningOf(jobs, name);
      assert id in ids[..k + 1] <==> id in ids[..k] || id == ids[k];
    }
    assert RunningOf(t, name) == Elems(ids[..k + 1]);
  }

  lemma AdmitNext(limits: Limits, ss: seq<State>, acts: seq<Action>, name: string, jobs: map<JobId, Job>,
                  ids: seq<JobId>, k: nat)
    returns (tt: seq<State>, more: seq<Action>)
    requires IsRun(limits, ss, acts) && Waiting(jobs, name, ids) && RunningOf(jobs, name) == {}
    requires k < |ids| && (name in limits && limits[name] > 0 ==> |ids| <= limits[name])
    requires ss[|acts|] == Admitting(jobs, ids, k)
    ensures IsRun(limits, tt, more) && tt[0] == ss[0] && tt[|more|] == Admitting(jobs, ids, k + 1)
  {
    var id := ids[k];
    assert id in ids && id !in ids[..k];
    tt, more := ClaimNext(limits, ss, acts, k, id);
    var s2 := tt[|more|];
    var s3 := Move(s2, k, Counted(id));
    RunningAre(jobs, name, ids, k, s2.jobs);
    tt, more := Then(limits, tt, more, CountRunning(k), s3);
    tt, more := Then(limits, tt, more, CheckRate(k, true), Move(s3, k, Admitted(id)));
    AdmittedNext(jobs, ids, k, Move(s3, k, Admitted(id)));
  }

  lemma ClaimNext(limits: Limits, ss: seq<State>, acts: seq<Action>, k: nat, id: JobId)
    returns (tt: seq<State>, more: seq<Action>)
    requires IsRun(limits, ss, acts) && WorkerAt(ss[|acts|], k).Idle? && Claimable(ss[|acts|].jobs, id)
    ensures IsRun(limits, tt, more) && tt[0] == ss[0]
    ensures tt[|more|] == Move(SetStatus(ss[|acts|], id, Running), k, Claimed(id))
  {
    var s1 := Move(ss[|acts|], k, Scanning([Candidate(id, [])]));
    tt, more := Then(limits, ss, acts, List(k, [Candidate(id, [])]), s1);
    tt, more := Then(limits, tt, more, TryLock(k, []), Move(SetStatus(s1, id, Running), k, Claimed(id)));
  }

  lemma AdmittedNext(jobs: map<JobId, Job>, ids: seq<JobId>, k: nat, t: State)
    requires k < |ids| && (forall id :: id in ids ==> id in jobs) && ids[k] !in ids[..k]
    requires t.jobs == Admitting(jobs, ids, k).jobs[ids[k] := jobs[ids[k]].(status := Running)]
    requires t.workers == Admitting(jobs, ids, k).workers[k := Admitted(ids[k])]
    ensures t == Admitting(jobs, ids, k + 1)
  {
    assert ids[..k + 1] == ids[..k] + [ids[k]];
    assert t.jobs == Admitting(jobs, ids, k + 1).jobs;
    assert t.workers == Admitting(jobs, ids, k + 1).workers;
  }

  lemma {:induction false} AdmitAll(limits: Limits, name: string, jobs: map<JobId, Job>, ids: seq<JobId>, k: nat)
    returns (ss: seq<State>, acts: seq<Action>)
    requires Waiting(jobs, name, ids) && RunningOf(jobs, name) == {} && k <= |ids|
    requires name in limits && limits[name] > 0 ==> |ids| <= limits[name]
    ensures IsRun(limits, ss, acts) && ss[0].jobs == jobs && ss[|acts|] == Admitting(jobs, ids, k)
    decreases k
  {
    if k == 0 {
      ss, acts := [State(jobs, map[])], [];
      assert Admitting(jobs, ids, 0).jobs == jobs;
    } else {
      ss, acts := AdmitAll(limits, name, jobs, ids, k - 1);
      ss, acts := AdmitNext(limits, ss, acts, name, jobs, ids, k - 1);
    }
  }

  /** As many waiting jobs as the limit allows, or any number without a limit, can all be admitted at once. */
  lemma LimitReached(limits: Limits, name: string, jobs: map<JobId, Job>, ids: seq<JobId>)
    returns (ss: seq<State>, acts: seq<Action>)
    requires Waiting(jobs, name, ids) && RunningOf(jobs, name) == {}
    requires name in limits && limits[name] > 0 ==> |ids| <= limits[name]
    ensures IsRun(limits, ss, acts) && ss[0].jobs == jobs
    ensures forall i :: 0 <= i < |ids| ==> WorkerAt(ss[|acts|], i) == Admitted(ids[i])
    ensures |PassedOf(ss[|acts|], name)| == |ids|
  {
    ss, acts := AdmitAll(limits, name, jobs, ids, |ids|);
    var t := ss[|acts|];
    DistinctSize(ids);
    forall id ensures id in PassedOf(t, name) <==> id in Elems(ids) {
      if id in ids {
        var w :| 0 <= w < |ids| && ids[w] == id;
        assert t.workers[w] == Admitted(id) && t.jobs[id].name == name;
      }
    }
    assert PassedOf(t, name) == Elems(ids);
  }
}
