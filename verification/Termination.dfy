/** When the cascade terminates: its control flow over the dependency table, with a bound on the call depth. */
module Termination {
  import opened Graph
  import opened Tables
  import opened Cascade
  import Ops = Operations

  /** The order in which the database lists the children of a job. */
  type Listing = (set<Edge>, JobId) -> seq<JobId>

  ghost predicate ListsChildren(order: Listing) {
    forall edges, a :: Elems(order(edges, a)) == Children(edges, a)
  }

  /** The table the cascade leaves behind, or none when it nests deeper than `depth` calls. */
  function Walk(depth: nat, edges: set<Edge>, failed: JobId, order: Listing): Option<set<Edge>>
    decreases depth, 0
  {
    if depth == 0 then None else WalkChildren(depth - 1, edges, order(edges, failed), order)
  }

  function WalkChildren(depth: nat, edges: set<Edge>, children: seq<JobId>, order: Listing): Option<set<Edge>>
    decreases depth, |children|
  {
    if children == [] then Some(edges)
    else
      var below := Walk(depth, edges, children[0], order);
      if below.None? then None
      else WalkChildren(depth, Cut(below.value, {children[0]}), children[1..], order)
  }

  ghost predicate AllAcyclicFrom(edges: set<Edge>, roots: set<JobId>) {
    forall r :: r in roots ==> AcyclicFrom(edges, r)
  }

  /** A child whose remaining table has no cycle below it has none in the full table either. */
  lemma AcyclicInFull(edges: set<Edge>, done: set<JobId>, c: JobId)
    requires AllAcyclicFrom(edges, done)
    requires AcyclicFrom(Cut(edges, Closure(edges, done)), c)
    ensures AcyclicFrom(edges, c)
  {
    var gone := Closure(edges, done);
    ClosureClosed(edges, done);
    forall d | d == c || Reach(edges, c, d) ensures !Reach(edges, d, d) {
      ClosureIs(edges, done, d);
      if d !in gone {
        CutKeepsReach(edges, gone, d, d);
        CutKeepsReach(edges, gone, c, d);
      }
    }
  }

  lemma CutTwice(edges: set<Edge>, done: set<JobId>, c: JobId)
    ensures Cut(Cut(Cut(edges, Closure(edges, done)), Descendants(Cut(edges, Closure(edges, done)), c)), {c})
         == Cut(edges, Closure(edges, done + {c}))
  {
    ClosureAdd(edges, done, c);
  }

  lemma AcyclicFromChildren(edges: set<Edge>, a: JobId)
    requires AllAcyclicFrom(edges, Children(edges, a))
    ensures AcyclicFrom(edges, a)
  {
    forall d | Reach(edges, a, d) ensures d != a && !Reach(edges, d, d) {
      var c := ReachFirst(edges, a, d);
      assert Edge(c, a).child in Children(edges, a);
    }
  }

  lemma {:induction false} WalkSound(depth: nat, edges: set<Edge>, failed: JobId, order: Listing)
    requires ListsChildren(order)
    requires Walk(depth, edges, failed, order).Some?
    ensures AcyclicFrom(edges, failed)
    ensures Walk(depth, edges, failed, order) == Some(Cut(edges, Descendants(edges, failed)))
    decreases depth, 0
  {
    assert edges == Cut(edges, Closure(edges, {}));
    WalkChildrenSound(depth - 1, edges, {}, order(edges, failed), order);
    assert Elems(order(edges, failed)) == Children(edges, failed);
    AcyclicFromChildren(edges, failed);
    DescendantsByChildren(edges, failed);
    assert {} + Children(edges, failed) == Children(edges, failed);
  }

  lemma {:induction false} WalkChildrenSound(depth: nat, edges: set<Edge>, done: set<JobId>, children: seq<JobId>,
                                             order: Listing)
    requires ListsChildren(order)
    requires AllAcyclicFrom(edges, done)
    requires WalkChildren(depth, Cut(edges, Closure(edges, done)), children, order).Some?
    ensures AllAcyclicFrom(edges, Elems(children))
    ensures WalkChildren(depth, Cut(edges, Closure(edges, done)), children, order)
         == Some(Cut(edges, Closure(edges, done + Elems(children))))
    decreases depth, |children|
  {
    if children == [] {
      assert done + Elems(children) == done;
    } else {
      var c := children[0];
      WalkSound(depth, Cut(edges, Closure(edges, done)), c, order);
      AcyclicInFull(edges, done, c);
      CutTwice(edges, done, c);
      WalkChildrenSound(depth, edges, done + {c}, children[1..], order);
      assert done + {c} + Elems(children[1..]) == done + Elems(children);
      forall r | r in Elems(children) ensures AcyclicFrom(edges, r) {
        assert r == c || r in Elems(children[1..]);
      }
    }
  }

  lemma {:induction false} WalkComplete(depth: nat, edges: set<Edge>, failed: JobId, order: Listing)
    requires ListsChildren(order)
    requires AcyclicFrom(edges, failed) && depth > |Descendants(edges, failed)|
    ensures Walk(depth, edges, failed, order).Some?
    decreases depth, 0
  {
    var children := order(edges, failed);
    assert Elems(children) == Children(edges, failed);
    forall c | c in children ensures Edge(c, failed) in edges {
      assert c in Elems(children);
    }
    WalkChildrenComplete(depth - 1, edges, failed, edges, children, order);
  }

  lemma {:induction false} WalkChildrenComplete(depth: nat, full: set<Edge>, parent: JobId, edges: set<Edge>,
                                                children: seq<JobId>, order: Listing)
    requires ListsChildren(order)
    requires edges <= full && AcyclicFrom(full, parent) && depth >= |Descendants(full, parent)|
    requires forall c :: c in children ==> Edge(c, parent) in full
    ensures WalkChildren(depth, edges, children, order).Some?
    decreases depth, |children|
  {
    if children != [] {
      var c := children[0];
      AcyclicFromChild(full, parent, c);
      AcyclicFromSubset(edges, full, c);
      FewerDescendants(edges, full, parent, c);
      WalkComplete(depth, edges, c, order);
      WalkSound(depth, edges, c, order);
      WalkChildrenComplete(depth, full, parent, Cut(Walk(depth, edges, c, order).value, {c}), children[1..], order);
    }
  }

  /**
   * The cascade from a failed job terminates exactly when no cycle of the dependency table can be reached from it,
   * in whatever order children are listed; it then deletes exactly the dependency rows of the job's descendants.
   */
  lemma CascadeTerminatesIff(edges: set<Edge>, failed: JobId, order: Listing)
    requires ListsChildren(order)
    ensures (exists depth :: Walk(depth, edges, failed, order).Some?) <==> AcyclicFrom(edges, failed)
    ensures forall depth :: Walk(depth, edges, failed, order).Some? ==>
              Walk(depth, edges, failed, order).value == Cut(edges, Descendants(edges, failed))
  {
    forall depth | Walk(depth, edges, failed, order).Some?
      ensures AcyclicFrom(edges, failed)
      ensures Walk(depth, edges, failed, order).value == Cut(edges, Descendants(edges, failed))
    {
      WalkSound(depth, edges, failed, order);
    }
    if AcyclicFrom(edges, failed) {
      WalkComplete(|Descendants(edges, failed)| + 1, edges, failed, order);
    }
  }

  /** A job that names itself as a parent is accepted, and the cascade from it never ends. */
  lemma SelfParentNeverEnds(db: Database, env: Envelope, now: int, order: Listing, depth: nat)
    requires env.uniqueKey == "" && env.jobId in env.dependencies && ListsChildren(order)
    ensures Ops.EnqueueWorkflow(db, [env], now).Some?
    ensures Walk(depth, Ops.EnqueueWorkflow(db, [env], now).value.deps, env.jobId, order).None?
  {
    var first := Ops.InsertWorkflowJob(db, env, now).value;
    assert [env][1..] == [];
    assert Ops.EnqueueWorkflow(db, [env], now) == Some(first);
    assert Edge(env.jobId, env.jobId) in first.deps;
    ReachEdge(first.deps, env.jobId, env.jobId);
    CascadeTerminatesIff(first.deps, env.jobId, order);
  }
}
