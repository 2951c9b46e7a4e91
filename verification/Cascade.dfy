/** What a failure cascade does to the tables, stated without the walk that does it. */
module Cascade {
  import opened Graph
  import opened Tables

  /** The same row, moved to the dead status, with at least one more attempt counted. */
  ghost predicate Buried(before: Job, after: Job) {
    && after.attempts > before.attempts
    && after == before.(status := Dead, attempts := after.attempts)
  }

  ghost function LockKeysOf(jobs: map<JobId, Job>, ids: set<JobId>): set<string> {
    set id | id in ids && id in jobs && jobs[id].uniqueKey != "" :: LockKey(jobs[id].queue, jobs[id].uniqueKey)
  }

  ghost function BatchesOf(jobs: map<JobId, Job>, ids: set<JobId>): set<string> {
    set id | id in ids && id in jobs && jobs[id].batchId != "" :: jobs[id].batchId
  }

  ghost predicate JobsBuried(s: map<JobId, Job>, dead: set<JobId>, t: map<JobId, Job>) {
    && t.Keys == s.Keys
    && forall id :: id in s ==> if id in dead then Buried(s[id], t[id]) else t[id] == s[id]
  }

  ghost predicate BatchesFailed(s: map<string, Batch>, failed: set<string>, t: map<string, Batch>) {
    && t.Keys == s.Keys
    && forall b :: b in s ==> t[b] == if b in failed then s[b].(status := Failed) else s[b]
  }

  /**
   * From `s` to `t`, exactly the rows of `dead` were buried, their locks released and their batches failed,
   * and exactly the dependency rows of the jobs in `freed` were deleted.
   */
  ghost predicate Killed(s: Database, dead: set<JobId>, freed: set<JobId>, t: Database) {
    && JobsBuried(s.jobs, dead, t.jobs)
    && t.deps == Cut(s.deps, freed)
    && t.locks == s.locks - LockKeysOf(s.jobs, dead)
    && BatchesFailed(s.batches, BatchesOf(s.jobs, dead), t.batches)
  }

  lemma KilledNothing(s: Database)
    ensures Killed(s, {}, {}, s)
  {
    assert Cut(s.deps, {}) == s.deps;
    assert s.locks - LockKeysOf(s.jobs, {}) == s.locks;
  }

  lemma JobsBuriedTrans(s: map<JobId, Job>, d1: set<JobId>, t: map<JobId, Job>, d2: set<JobId>, u: map<JobId, Job>)
    requires JobsBuried(s, d1, t) && JobsBuried(t, d2, u)
    ensures JobsBuried(s, d1 + d2, u)
    ensures LockKeysOf(s, d1 + d2) == LockKeysOf(s, d1) + LockKeysOf(t, d2)
    ensures BatchesOf(s, d1 + d2) == BatchesOf(s, d1) + BatchesOf(t, d2)
  {
    SameKeys(s, d1, t, d2);
    assert LockKeysOf(s, d1 + d2) == LockKeysOf(s, d1) + LockKeysOf(s, d2);
    assert BatchesOf(s, d1 + d2) == BatchesOf(s, d1) + BatchesOf(s, d2);
  }

  lemma SameKeys(s: map<JobId, Job>, d1: set<JobId>, t: map<JobId, Job>, d2: set<JobId>)
    requires JobsBuried(s, d1, t)
    ensures LockKeysOf(t, d2) == LockKeysOf(s, d2)
    ensures BatchesOf(t, d2) == BatchesOf(s, d2)
  {
  }

  lemma KilledTrans(s: Database, d1: set<JobId>, f1: set<JobId>, t: Database, d2: set<JobId>, f2: set<JobId>,
                    u: Database)
    requires Killed(s, d1, f1, t) && Killed(t, d2, f2, u)
    ensures Killed(s, d1 + d2, f1 + f2, u)
  {
    JobsBuriedTrans(s.jobs, d1, t.jobs, d2, u.jobs);
    assert Cut(Cut(s.deps, f1), f2) == Cut(s.deps, f1 + f2);
    var k1, k2 := LockKeysOf(s.jobs, d1), LockKeysOf(t.jobs, d2);
    assert s.locks - k1 - k2 == s.locks - (k1 + k2);
  }

  /** Deleting the dependency rows of one job. */
  lemma KilledFree(s: Database, id: JobId)
    ensures Killed(s, {}, {id}, s.(deps := Cut(s.deps, {id})))
  {
    assert s.locks - LockKeysOf(s.jobs, {}) == s.locks;
  }

  function FailedOnceMore(job: Job): Job {
    job.(status := Dead, attempts := job.attempts + 1)
  }

  /** The row of one job buried and the lock of the given columns released; no batch is touched yet. */
  function BuryRow(s: Database, id: JobId, c: Columns): Database {
    s.(jobs := if id in s.jobs then s.jobs[id := FailedOnceMore(s.jobs[id])] else s.jobs,
       locks := ReleaseLock(s.locks, c.queue, c.uniqueKey))
  }

  /** What a failure for good does that goes by columns read earlier: the row and everything below it are buried. */
  ghost predicate KilledWith(s: Database, id: JobId, c: Columns, t: Database) {
    var below := Descendants(s.deps, id);
    Killed(BuryRow(s, id, c).(batches := FailBatch(s.batches, c.batchId)), below, below, t)
  }

  function ReleaseLock(locks: map<string, Lock>, queue: string, uniqueKey: string): map<string, Lock> {
    if uniqueKey == "" then locks else locks - {LockKey(queue, uniqueKey)}
  }

  function FailBatch(batches: map<string, Batch>, batchId: string): map<string, Batch> {
    if batchId == "" || batchId !in batches then batches
    else batches[batchId := batches[batchId].(status := Failed)]
  }

  function BatchIdOf(jobs: map<JobId, Job>, id: JobId): string {
    if id in jobs then jobs[id].batchId else ""
  }

  /** The columns say what the row says, or that there is none. */
  predicate ReadsRow(jobs: map<JobId, Job>, id: JobId, c: Columns) {
    SameColumns(c, if id in jobs then ColumnsOf(jobs[id]) else NO_COLUMNS)
  }

  lemma BuriedRow(s: Database, id: JobId, c: Columns)
    requires ReadsRow(s.jobs, id, c)
    ensures JobsBuried(s.jobs, {id}, BuryRow(s, id, c).jobs)
    ensures BuryRow(s, id, c).locks == s.locks - LockKeysOf(s.jobs, {id})
    ensures forall b :: b in BatchesOf(s.jobs, {id}) <==> b == c.batchId && b != ""
  {
    if id !in s.jobs || s.jobs[id].uniqueKey == "" {
      assert LockKeysOf(s.jobs, {id}) == {};
    } else {
      assert LockKeysOf(s.jobs, {id}) == {LockKey(s.jobs[id].queue, s.jobs[id].uniqueKey)};
    }
    assert id in s.jobs ==> id in {id};
  }

  lemma BatchesFailedPlus(s: map<string, Batch>, failed: set<string>, t: map<string, Batch>, batchId: string,
                          all: set<string>)
    requires BatchesFailed(FailBatch(s, batchId), failed, t)
    requires all == failed + if batchId == "" then {} else {batchId}
    ensures BatchesFailed(s, all, t)
  {
  }

  /** When the columns are those of the row, the row is killed together with everything below it. */
  lemma KilledAround(s: Database, id: JobId, c: Columns, t: Database)
    requires KilledWith(s, id, c, t) && ReadsRow(s.jobs, id, c)
    ensures Killed(s, {id} + Descendants(s.deps, id), Descendants(s.deps, id), t)
  {
    var s1, below := BuryRow(s, id, c), Descendants(s.deps, id);
    BuriedRow(s, id, c);
    JobsBuriedTrans(s.jobs, {id}, s1.jobs, below, t.jobs);
    var k1, k2 := LockKeysOf(s.jobs, {id}), LockKeysOf(s1.jobs, below);
    assert s.locks - k1 - k2 == s.locks - (k1 + k2);
    BatchesFailedPlus(s.batches, BatchesOf(s1.jobs, below), t.batches, c.batchId, BatchesOf(s.jobs, {id} + below));
  }

  /** It makes no difference whether a batch fails before the cascade or after it. */
  lemma FailsLast(s: Database, id: JobId, c: Columns, t: Database)
    requires Killed(BuryRow(s, id, c), Descendants(s.deps, id), Descendants(s.deps, id), t)
    ensures KilledWith(s, id, c, t.(batches := FailBatch(t.batches, c.batchId)))
  {
  }

  /**
   * One turn of the loop over a child list taken from `edges` before the loop started. By then the closure of
   * the earlier children is gone from the table, and the child's own descendants are what is left of them.
   */
  lemma ClosureAdd(edges: set<Edge>, done: set<JobId>, c: JobId)
    ensures Closure(edges, done + {c})
         == Closure(edges, done) + {c} + Descendants(Cut(edges, Closure(edges, done)), c)
  {
    var gone := Closure(edges, done);
    ClosureClosed(edges, done);
    forall b ensures b in Closure(edges, done + {c}) <==> b in gone + {c} + Descendants(Cut(edges, gone), c) {
      ClosureIs(edges, done + {c}, b);
      ClosureIs(edges, done, b);
      DescendantsAre(Cut(edges, gone), c, b);
      if b !in gone {
        CutKeepsReach(edges, gone, c, b);
      } else {
        assert b in Closure(edges, done + {c});
      }
    }
  }

  /** One turn of the loop of the cascade, on the whole database. */
  lemma KilledTurn(s: Database, done: set<JobId>, t: Database, c: JobId, below: set<JobId>, u: Database)
    requires Killed(s, Closure(s.deps, done), Closure(s.deps, done), t)
    requires below == Descendants(t.deps, c)
    requires Killed(t, {c} + below, below, u)
    ensures var all := Closure(s.deps, done + {c}); Killed(s, all, all, u.(deps := Cut(u.deps, {c})))
  {
    var v := u.(deps := Cut(u.deps, {c}));
    KilledFree(u, c);
    KilledTrans(t, {c} + below, below, u, {}, {c}, v);
    var gone := Closure(s.deps, done);
    KilledTrans(s, gone, gone, t, {c} + below + {}, below + {c}, v);
    ClosureAdd(s.deps, done, c);
    assert gone + ({c} + below + {}) == gone + {c} + below == gone + (below + {c});
  }

  /**
   * What a failure does to other rows: a row ends dead exactly when it was dead, is the failed job or is reachable
   * from it; a dependency row survives exactly when its child is not reachable.
   */
  lemma KilledExactly(s: Database, root: JobId, t: Database)
    requires Killed(s, {root} + Descendants(s.deps, root), Descendants(s.deps, root), t)
    ensures t.jobs.Keys == s.jobs.Keys
    ensures forall id :: id in s.jobs ==>
              (t.jobs[id].status.Dead? <==> s.jobs[id].status.Dead? || id == root || Reach(s.deps, root, id))
    ensures forall e :: e in t.deps <==> e in s.deps && !Reach(s.deps, root, e.child)
  {
    forall id ensures id in Descendants(s.deps, root) <==> Reach(s.deps, root, id) {
      DescendantsAre(s.deps, root, id);
    }
  }

  /** The row of a job that the failure of `root` kills. */
  ghost predicate Killable(s: Database, root: JobId, id: JobId) {
    id in s.jobs && (id == root || Reach(s.deps, root, id))
  }

  /** A killed row has the key. */
  ghost predicate KillsKey(s: Database, root: JobId, k: string) {
    exists id :: Killable(s, root, id) && s.jobs[id].uniqueKey != "" &&
      LockKey(s.jobs[id].queue, s.jobs[id].uniqueKey) == k
  }

  /** A killed row is in the batch. */
  ghost predicate KillsMember(s: Database, root: JobId, b: string) {
    b != "" && exists id :: Killable(s, root, id) && s.jobs[id].batchId == b
  }

  /** Killed rows have at least one more attempt counted; apart from that and the status no row changes. */
  ghost predicate OnlyBuries(s: Database, root: JobId, t: Database) {
    forall id :: id in s.jobs ==>
      && id in t.jobs
      && t.jobs[id] == s.jobs[id].(status := t.jobs[id].status, attempts := t.jobs[id].attempts)
      && (if Killable(s, root, id) then t.jobs[id].attempts > s.jobs[id].attempts else t.jobs[id] == s.jobs[id])
  }

  /** A lock is released exactly when a killed row has its key, and a batch fails exactly when a killed row is in it. */
  lemma KilledReleases(s: Database, root: JobId, t: Database)
    requires Killed(s, {root} + Descendants(s.deps, root), Descendants(s.deps, root), t)
    ensures forall k :: k in t.locks <==> (k in s.locks && !KillsKey(s, root, k))
    ensures forall k :: k in t.locks ==> t.locks[k] == s.locks[k]
    ensures t.batches.Keys == s.batches.Keys
    ensures forall b :: b in s.batches ==>
      t.batches[b] == if KillsMember(s, root, b) then s.batches[b].(status := Failed) else s.batches[b]
    ensures OnlyBuries(s, root, t)
  {
    var dead := {root} + Descendants(s.deps, root);
    forall id ensures id in s.jobs && id in dead <==> Killable(s, root, id) {
      DescendantsAre(s.deps, root, id);
    }
    forall k | k in LockKeysOf(s.jobs, dead) ensures KillsKey(s, root, k) {
      var id :| id in dead && id in s.jobs && s.jobs[id].uniqueKey != ""
                && LockKey(s.jobs[id].queue, s.jobs[id].uniqueKey) == k;
      assert Killable(s, root, id);
    }
  }

  // How many attempts are counted

  /** The parents of a job that are among `ps`. */
  function ParentsIn(edges: set<Edge>, ps: set<JobId>, id: JobId): set<JobId> {
    set p | p in ps && Edge(id, p) in edges
  }

  /** One attempt at most for every visit: one to each job listed, and one from each parent among `ps`. */
  predicate CountsVisits(s: map<JobId, Job>, listed: set<JobId>, edges: set<Edge>, ps: set<JobId>, t: map<JobId, Job>) {
    forall id :: id in s && id in t ==>
      t[id].attempts <= s[id].attempts + One(id in listed) + |ParentsIn(edges, ps, id)|
  }

  /** One turn of the loop: the parents of a job all lie within the closure before it, or all beyond. */
  lemma VisitsTurn(s: Database, done: set<JobId>, t: Database, c: JobId, u: map<JobId, Job>)
    requires c !in done && t.deps == Cut(s.deps, Closure(s.deps, done)) && t.jobs.Keys == s.jobs.Keys
    requires CountsVisits(s.jobs, done, s.deps, Closure(s.deps, done), t.jobs)
    requires CountsVisits(t.jobs, {c}, t.deps, {c} + Descendants(t.deps, c), u)
    ensures CountsVisits(s.jobs, done + {c}, s.deps, Closure(s.deps, done + {c}), u)
  {
    var gone, below := Closure(s.deps, done), {c} + Descendants(t.deps, c);
    ClosureClosed(s.deps, done);
    ClosureAdd(s.deps, done, c);
    assert Closure(s.deps, done + {c}) == gone + below;
    forall id | id in s.jobs && id in u
      ensures u[id].attempts <= s.jobs[id].attempts + One(id in done + {c}) + |ParentsIn(s.deps, gone + below, id)|
    {
      if id in gone {
        assert ParentsIn(t.deps, below, id) == {};
        SubsetCard(ParentsIn(s.deps, gone, id), ParentsIn(s.deps, gone + below, id));
      } else {
        assert ParentsIn(s.deps, gone, id) == {};
        SubsetCard(ParentsIn(t.deps, below, id), ParentsIn(s.deps, gone + below, id));
      }
    }
  }

  /** What the loop over a child list does when it has come through the children in `done`. */
  ghost predicate KilledBelow(s: Database, done: set<JobId>, t: Database) {
    var below := Closure(s.deps, done);
    Killed(s, below, below, t) && CountsVisits(s.jobs, done, s.deps, below, t.jobs)
  }

  /** What the failure of one job does to it and to all below it. */
  ghost predicate KilledFrom(s: Database, root: JobId, t: Database) {
    var below := Descendants(s.deps, root);
    Killed(s, {root} + below, below, t) && CountsVisits(s.jobs, {root}, s.deps, {root} + below, t.jobs)
  }

  lemma TurnDone(s: Database, done: set<JobId>, t: Database, c: JobId, u: Database, v: Database)
    requires KilledBelow(s, done, t) && c !in done && KilledFrom(t, c, u)
    requires v == u.(deps := Cut(u.deps, {c}))
    ensures KilledBelow(s, done + {c}, v)
  {
    KilledTurn(s, done, t, c, Descendants(t.deps, c), u);
    VisitsTurn(s, done, t, c, u.jobs);
  }

  /** Being listed as a child is being visited from the parent. */
  lemma VisitsBelow(s: map<JobId, Job>, edges: set<Edge>, parent: JobId, t: map<JobId, Job>)
    requires AcyclicFrom(edges, parent)
    requires CountsVisits(s, Children(edges, parent), edges, Descendants(edges, parent), t)
    ensures CountsVisits(s, {}, edges, {parent} + Descendants(edges, parent), t)
  {
    var below := Descendants(edges, parent);
    DescendantsAre(edges, parent, parent);
    forall id | id in s && id in t
      ensures t[id].attempts <= s[id].attempts + |ParentsIn(edges, {parent} + below, id)|
    {
      if id in Children(edges, parent) {
        assert ParentsIn(edges, {parent} + below, id) == ParentsIn(edges, below, id) + {parent};
      } else {
        assert ParentsIn(edges, {parent} + below, id) == ParentsIn(edges, below, id);
      }
    }
  }

  /** `p` is the only parent of the job that the failure of `root` kills. */
  ghost predicate OnlyKilledParent(edges: set<Edge>, root: JobId, id: JobId, p: JobId) {
    forall e :: e in edges && e.child == id && (e.parent == root || Reach(edges, root, e.parent)) ==> e.parent == p
  }

  /**
   * The failed job itself counts exactly one more attempt, and so does every killed job of whose parents only one is
   * killed. Any killed job counts at most as many as it has killed parents.
   */
  lemma VisitsCounted(s: Database, root: JobId, t: Database, id: JobId, p: JobId)
    requires AcyclicFrom(s.deps, root) && KilledFrom(s, root, t)
    ensures root in s.jobs ==> t.jobs[root].attempts == s.jobs[root].attempts + 1
    ensures id in s.jobs && Reach(s.deps, root, id) && OnlyKilledParent(s.deps, root, id, p) ==>
              t.jobs[id].attempts == s.jobs[id].attempts + 1
  {
    var dead := {root} + Descendants(s.deps, root);
    forall q | q in dead ensures Edge(root, q) !in s.deps {
      DescendantsAre(s.deps, root, q);
      if Edge(root, q) in s.deps {
        ReachEdge(s.deps, q, root);
        if q != root {
          ReachTrans(s.deps, root, q, root);
        }
      }
    }
    assert ParentsIn(s.deps, dead, root) == {};
    if id in s.jobs && Reach(s.deps, root, id) && OnlyKilledParent(s.deps, root, id, p) {
      forall q | q in ParentsIn(s.deps, dead, id) ensures q == p {
        DescendantsAre(s.deps, root, q);
      }
      SubsetCard(ParentsIn(s.deps, dead, id), {p});
      DescendantsAre(s.deps, root, id);
    }
  }

  /** Whatever order the children come in, the outcome differs at most in the attempts counted on buried rows. */
  lemma OrderIrrelevant(s: Database, dead: set<JobId>, freed: set<JobId>, t: Database, u: Database)
    requires Killed(s, dead, freed, t) && Killed(s, dead, freed, u)
    ensures t.deps == u.deps && t.locks == u.locks && t.batches == u.batches && t.jobs.Keys == u.jobs.Keys
    ensures forall id :: id in t.jobs ==> t.jobs[id] == u.jobs[id].(attempts := t.jobs[id].attempts)
    ensures forall id :: id in t.jobs && id !in dead ==> t.jobs[id] == u.jobs[id]
  {
    assert t.batches == u.batches;
  }
}
