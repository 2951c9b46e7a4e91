/** The dependency table as a directed graph: an edge leads from a parent job to the child that waits for it. */
module Graph {
  type JobId = string

  /** One row of the dependency table. */
  datatype Edge = Edge(child: JobId, parent: JobId)

  /** `b` can be reached from `a` along `n + 1` edges. */
  ghost predicate ReachIn(edges: set<Edge>, a: JobId, b: JobId, n: nat)
    decreases n
  {
    if n == 0 then Edge(b, a) in edges
    else exists c :: Edge(c, a) in edges && ReachIn(edges, c, b, n - 1)
  }

  /** `b` is a proper descendant of `a`: there is a non-empty path from `a` to `b`. */
  ghost predicate Reach(edges: set<Edge>, a: JobId, b: JobId)
  {
    exists n: nat :: ReachIn(edges, a, b, n)
  }

  function Children(edges: set<Edge>, a: JobId): set<JobId>
  {
    set e | e in edges && e.parent == a :: e.child
  }

  ghost function Descendants(edges: set<Edge>, a: JobId): set<JobId>
  {
    set e | e in edges && Reach(edges, a, e.child) :: e.child
  }

  /** The nodes of `roots` together with all their descendants. */
  ghost function Closure(edges: set<Edge>, roots: set<JobId>): set<JobId>
  {
    roots + set e, r | e in edges && r in roots && Reach(edges, r, e.child) :: e.child
  }

  /** The table after deleting every row whose child is in `gone`. */
  function Cut(edges: set<Edge>, gone: set<JobId>): set<Edge>
  {
    set e | e in edges && e.child !in gone
  }

  ghost predicate Acyclic(edges: set<Edge>)
  {
    forall a :: !Reach(edges, a, a)
  }

  /** No cycle can be reached from `a`. */
  ghost predicate AcyclicFrom(edges: set<Edge>, a: JobId)
  {
    && !Reach(edges, a, a)
    && forall d :: Reach(edges, a, d) ==> !Reach(edges, d, d)
  }

  ghost predicate Closed(edges: set<Edge>, nodes: set<JobId>)
  {
    forall e :: e in edges && e.parent in nodes ==> e.child in nodes
  }

  lemma ReachEdge(edges: set<Edge>, a: JobId, b: JobId)
    requires Edge(b, a) in edges
    ensures Reach(edges, a, b)
  {
    assert ReachIn(edges, a, b, 0);
  }

  lemma ReachStep(edges: set<Edge>, a: JobId, c: JobId, b: JobId)
    requires Edge(c, a) in edges && Reach(edges, c, b)
    ensures Reach(edges, a, b)
  {
    var n: nat :| ReachIn(edges, c, b, n);
    assert ReachIn(edges, a, b, n + 1);
  }

  lemma ReachFirst(edges: set<Edge>, a: JobId, b: JobId) returns (c: JobId)
    requires Reach(edges, a, b)
    ensures Edge(c, a) in edges && (c == b || Reach(edges, c, b))
  {
    var n: nat :| ReachIn(edges, a, b, n);
    if n == 0 {
      c := b;
    } else {
      c :| Edge(c, a) in edges && ReachIn(edges, c, b, n - 1);
    }
  }

  lemma {:induction false} ReachTransIn(edges: set<Edge>, a: JobId, b: JobId, c: JobId, n: nat)
    requires ReachIn(edges, a, b, n) && Reach(edges, b, c)
    ensures Reach(edges, a, c)
    decreases n
  {
    if n == 0 {
      ReachStep(edges, a, b, c);
    } else {
      var x :| Edge(x, a) in edges && ReachIn(edges, x, b, n - 1);
      ReachTransIn(edges, x, b, c, n - 1);
      ReachStep(edges, a, x, c);
    }
  }

  lemma ReachTrans(edges: set<Edge>, a: JobId, b: JobId, c: JobId)
    requires Reach(edges, a, b) && Reach(edges, b, c)
    ensures Reach(edges, a, c)
  {
    var n: nat :| ReachIn(edges, a, b, n);
    ReachTransIn(edges, a, b, c, n);
  }

  lemma {:induction false} ReachMonoIn(small: set<Edge>, big: set<Edge>, a: JobId, b: JobId, n: nat)
    requires small <= big && ReachIn(small, a, b, n)
    ensures ReachIn(big, a, b, n)
    decreases n
  {
    if n != 0 {
      var c :| Edge(c, a) in small && ReachIn(small, c, b, n - 1);
      ReachMonoIn(small, big, c, b, n - 1);
    }
  }

  lemma ReachMono(small: set<Edge>, big: set<Edge>, a: JobId, b: JobId)
    requires small <= big && Reach(small, a, b)
    ensures Reach(big, a, b)
  {
    var n: nat :| ReachIn(small, a, b, n);
    ReachMonoIn(small, big, a, b, n);
  }

  /** A path never leaves a closed set. */
  lemma {:induction false} ClosedReachIn(edges: set<Edge>, nodes: set<JobId>, a: JobId, b: JobId, n: nat)
    requires Closed(edges, nodes) && ReachIn(edges, a, b, n) && a in nodes
    ensures b in nodes
    decreases n
  {
    if n == 0 {
      assert Edge(b, a).child in nodes;
    } else {
      var c :| Edge(c, a) in edges && ReachIn(edges, c, b, n - 1);
      assert Edge(c, a).child in nodes;
      ClosedReachIn(edges, nodes, c, b, n - 1);
    }
  }

  /** The last node of a path is the child of some row. */
  lemma {:induction false} ReachLastIn(edges: set<Edge>, a: JobId, b: JobId, n: nat)
    requires ReachIn(edges, a, b, n)
    ensures exists e :: e in edges && e.child == b
    decreases n
  {
    if n == 0 {
      assert Edge(b, a).child == b;
    } else {
      var c :| Edge(c, a) in edges && ReachIn(edges, c, b, n - 1);
      ReachLastIn(edges, c, b, n - 1);
    }
  }

  lemma DescendantsAre(edges: set<Edge>, a: JobId, b: JobId)
    ensures b in Descendants(edges, a) <==> Reach(edges, a, b)
  {
    if Reach(edges, a, b) {
      var n: nat :| ReachIn(edges, a, b, n);
      ReachLastIn(edges, a, b, n);
      var e :| e in edges && e.child == b;
    }
  }

  lemma ClosureIs(edges: set<Edge>, roots: set<JobId>, b: JobId)
    ensures b in Closure(edges, roots) <==> b in roots || exists r :: r in roots && Reach(edges, r, b)
  {
    if r :| r in roots && Reach(edges, r, b) {
      DescendantsAre(edges, r, b);
    }
  }

  lemma ClosureClosed(edges: set<Edge>, roots: set<JobId>)
    ensures Closed(edges, Closure(edges, roots))
  {
    forall e | e in edges && e.parent in Closure(edges, roots) ensures e.child in Closure(edges, roots) {
      ClosureIs(edges, roots, e.parent);
      ClosureIs(edges, roots, e.child);
      ReachEdge(edges, e.parent, e.child);
      if e.parent !in roots {
        var r :| r in roots && Reach(edges, r, e.parent);
        ReachTrans(edges, r, e.parent, e.child);
      }
    }
  }

  /** The descendants of a node are its children and everything below them. */
  lemma DescendantsByChildren(edges: set<Edge>, a: JobId)
    ensures Descendants(edges, a) == Closure(edges, Children(edges, a))
  {
    forall b ensures b in Descendants(edges, a) <==> b in Closure(edges, Children(edges, a)) {
      DescendantsAre(edges, a, b);
      ClosureIs(edges, Children(edges, a), b);
      if Reach(edges, a, b) {
        var c := ReachFirst(edges, a, b);
        assert Edge(c, a).child in Children(edges, a);
      }
      if b in Children(edges, a) {
        assert Edge(b, a) in edges;
        ReachEdge(edges, a, b);
      } else if r :| r in Children(edges, a) && Reach(edges, r, b) {
        assert Edge(r, a) in edges;
        ReachStep(edges, a, r, b);
      }
    }
  }

  /** Deleting the rows of a closed set of children keeps every path that ends outside that set. */
  lemma {:induction false} CutKeepsReachIn(edges: set<Edge>, gone: set<JobId>, a: JobId, b: JobId, n: nat)
    requires Closed(edges, gone) && ReachIn(edges, a, b, n) && b !in gone
    ensures ReachIn(Cut(edges, gone), a, b, n)
    decreases n
  {
    if n != 0 {
      var c :| Edge(c, a) in edges && ReachIn(edges, c, b, n - 1);
      if c in gone {
        ClosedReachIn(edges, gone, c, b, n - 1);
      }
      CutKeepsReachIn(edges, gone, c, b, n - 1);
      assert Edge(c, a) in Cut(edges, gone);
    }
  }

  lemma CutKeepsReach(edges: set<Edge>, gone: set<JobId>, a: JobId, b: JobId)
    requires Closed(edges, gone) && b !in gone
    ensures Reach(Cut(edges, gone), a, b) <==> Reach(edges, a, b)
  {
    if Reach(edges, a, b) {
      var n: nat :| ReachIn(edges, a, b, n);
      CutKeepsReachIn(edges, gone, a, b, n);
    }
    if Reach(Cut(edges, gone), a, b) {
      ReachMono(Cut(edges, gone), edges, a, b);
    }
  }

  lemma AcyclicSubset(small: set<Edge>, big: set<Edge>)
    requires small <= big && Acyclic(big)
    ensures Acyclic(small)
  {
    forall a ensures !Reach(small, a, a) {
      if Reach(small, a, a) {
        ReachMono(small, big, a, a);
      }
    }
  }

  lemma AcyclicFromSubset(small: set<Edge>, big: set<Edge>, a: JobId)
    requires small <= big && AcyclicFrom(big, a)
    ensures AcyclicFrom(small, a)
  {
    if Reach(small, a, a) {
      ReachMono(small, big, a, a);
    }
    forall d | Reach(small, a, d) ensures !Reach(small, d, d) {
      ReachMono(small, big, a, d);
      if Reach(small, d, d) {
        ReachMono(small, big, d, d);
      }
    }
  }

  lemma AcyclicFromChild(edges: set<Edge>, a: JobId, c: JobId)
    requires AcyclicFrom(edges, a) && Edge(c, a) in edges
    ensures AcyclicFrom(edges, c)
  {
    ReachEdge(edges, a, c);
    forall d | Reach(edges, c, d) ensures !Reach(edges, d, d) {
      ReachTrans(edges, a, c, d);
    }
  }

  lemma SubsetCard<T>(small: set<T>, big: set<T>)
    requires small <= big
    ensures |small| <= |big|
    ensures small != big ==> |small| < |big|
  {
    assert big == small + (big - small);
    assert |big| == |small| + |big - small|;
    if small != big {
      assert big - small != {};
    }
  }

  /** Below an acyclic node, each child has strictly fewer descendants, also in a table with fewer rows. */
  lemma FewerDescendants(small: set<Edge>, big: set<Edge>, a: JobId, c: JobId)
    requires small <= big && AcyclicFrom(big, a) && Edge(c, a) in big
    ensures |Descendants(small, c)| < |Descendants(big, a)|
  {
    ReachEdge(big, a, c);
    forall d | d in Descendants(small, c) ensures d in Descendants(big, a) && d != c {
      DescendantsAre(small, c, d);
      ReachMono(small, big, c, d);
      ReachTrans(big, a, c, d);
      DescendantsAre(big, a, d);
    }
    DescendantsAre(big, a, c);
    SubsetCard(Descendants(small, c), Descendants(big, a));
  }
}
