/**
 * What can happen to a batch on Redis when its jobs are worked off while others are still being enqueued: a worker may
 * sit on a 0 that its decrement returned when the batch was empty for a moment.
 */
module RedisOverlap {
  import opened Graph
  import opened Tables
  import opened RedisBatch

  /** Whatever happens, a client enqueues the callback at most once: each member's worker, and the submitter. */
  lemma AtMostOncePerClient(ss: seq<Redis>, acts: seq<Action>, n: nat)
    requires IsRun(ss, acts, FillThenSubmit) && n < |ss|
    ensures ss[n].callbacks <= |ss[n].members| + 1
  {
    SubmitRun(ss, acts, n);
    assert FiredMembers(ss[n]) <= ss[n].members.Keys;
    SubsetCard(FiredMembers(ss[n]), ss[n].members.Keys);
    assert |ss[n].members.Keys| == |ss[n].members|;
  }

  /** What can still happen once the client enqueues nothing more. */
  predicate NoMore(s: Redis, a: Action) {
    FillThenSubmit(s, a) && !a.IncrTotal?
  }

  /** The batch is full and about to be submitted. */
  ghost predicate Filled(s: Redis) {
    EnqueuesDone(s) && s.submitter.Idle?
  }

  /** The workers that sit on a 0. */
  ghost function Held(s: Redis): set<JobId> {
    set m | m in s.members && s.members[m] == Decremented(0)
  }

  /** How many decrements have returned or can return 0 to a worker that has not looked at the status yet. */
  ghost function Zeros(s: Redis): nat {
    |Held(s)| + One(s.pending > 0 && NoneRefused(s))
  }

  ghost function Promising(s: Redis): set<JobId> {
    set m | m in s.members && (s.members[m] == Decremented(0) || Firing(s.members[m]))
  }

  /** The callbacks enqueued and those that may still be. */
  ghost function Budget(s: Redis): nat {
    s.callbacks + |Promising(s)| + One(s.pending > 0 && NoneRefused(s)) + One(SubmitterMayCall(s))
  }

  /** A refused member keeps the submitter from reading 0. */
  ghost predicate SubmitterMayCall(s: Redis) {
    s.submitter.SubCompleting? || s.submitter.SubCalling? || (!s.submitter.SubDone? && NoneRefused(s))
  }

  /** A member that was refused keeps the counter up. */
  lemma RefusedIsOpen(s: Redis)
    requires Accounted(s) && !NoneRefused(s)
    ensures s.pending > 0
  {
    var k :| k in s.members && s.members[k].Refused?;
    assert k in OutstandingMembers(s);
  }

  lemma RefusedKeepsUp(s: Redis, m: JobId)
    requires Accounted(s) && !NoneRefused(s) && At(s, m, Finished)
    ensures s.pending > 1
  {
    var k :| k in s.members && s.members[k].Refused?;
    SubsetCard({k, m}, OutstandingMembers(s));
  }

  lemma SubmitterBudget(s: Redis, a: Action)
    requires Accounted(s) && EnqueuesDone(s) && NoMore(s, a)
    requires a.Seal? || a.ReadPending? || a.SubSetCompleted? || a.SubCall?
    ensures Budget(After(s, a)) <= Budget(s)
  {
    var t := After(s, a);
    assert Promising(t) == Promising(s);
    assert NoneRefused(t) <==> NoneRefused(s);
    if !NoneRefused(s) {
      RefusedIsOpen(s);
    }
  }

  lemma WorkerBudget(s: Redis, a: Action)
    requires Accounted(s) && EnqueuesDone(s) && NoMore(s, a)
    requires !(a.Seal? || a.ReadPending? || a.SubSetCompleted? || a.SubCall?)
    ensures EnqueuesDone(After(s, a)) && Budget(After(s, a)) <= Budget(s)
  {
    var t := After(s, a);
    SameRefused(s, a);
    OneElement(Promising(s), Promising(t), a.m);
    if a.Decrement? {
      assert a.m in OutstandingMembers(s);
      if !NoneRefused(s) {
        RefusedKeepsUp(s, a.m);
      }
    }
  }

  /** Once all enqueues are done, nobody is refused any more. */
  lemma SameRefused(s: Redis, a: Action)
    requires EnqueuesDone(s) && NoMore(s, a)
    ensures NoneRefused(After(s, a)) <==> NoneRefused(s)
  {
    var t := After(s, a);
    forall m | m in s.members ensures m in t.members && (t.members[m].Refused? <==> s.members[m].Refused?) {
    }
  }

  lemma BudgetStep(s: Redis, a: Action)
    requires Accounted(s) && EnqueuesDone(s) && NoMore(s, a)
    ensures EnqueuesDone(After(s, a)) && Budget(After(s, a)) <= Budget(s)
  {
    if a.Seal? || a.ReadPending? || a.SubSetCompleted? || a.SubCall? {
      SubmitterBudget(s, a);
    } else {
      WorkerBudget(s, a);
    }
  }

  lemma {:induction false} BudgetPath(ss: seq<Redis>, acts: seq<Action>, n: nat)
    requires IsPath(ss, acts, NoMore) && Accounted(ss[0]) && EnqueuesDone(ss[0]) && n < |ss|
    ensures Accounted(ss[n]) && EnqueuesDone(ss[n]) && Budget(ss[n]) <= Budget(ss[0])
    decreases n
  {
    if n > 0 {
      BudgetPath(ss, acts, n - 1);
      BudgetStep(ss[n - 1], acts[n - 1]);
      AccountedStep(ss[n - 1], acts[n - 1]);
    }
  }

  /** From `s` the commands of the clients at work can lead to `t`. */
  ghost predicate Reaches(s: Redis, t: Redis) {
    exists ss: seq<Redis>, acts: seq<Action> :: IsPath(ss, acts, NoMore) && ss[0] == s && ss[|acts|] == t
  }

  lemma ReachesItself(s: Redis)
    ensures Reaches(s, s)
  {
    assert IsPath([s], [], NoMore) && [s][0] == s;
  }

  lemma ReachesOn(s: Redis, t: Redis, a: Action)
    requires Reaches(s, t) && NoMore(t, a)
    ensures Reaches(s, After(t, a))
  {
    var ss: seq<Redis>, acts: seq<Action> :| IsPath(ss, acts, NoMore) && ss[0] == s && ss[|acts|] == t;
    var tt, bcts := ss + [After(t, a)], acts + [a];
    assert IsPath(tt, bcts, NoMore) && tt[0] == s && tt[|bcts|] == After(t, a);
  }

  /** One more member is counted down. */
  lemma DrainOne(origin: Redis, s: Redis, m: JobId) returns (u: Redis)
    requires Reaches(origin, s) && Accounted(s) && EnqueuesDone(s) && NoneRefused(s) && m in OutstandingMembers(s)
    ensures Reaches(origin, u) && Accounted(u) && EnqueuesDone(u) && NoneRefused(u) && u.pending == s.pending - 1
    ensures u.callbacks == s.callbacks
    ensures u.status == s.status && u.submitter == s.submitter
    ensures u.members == s.members[m := Decremented(s.pending - 1)]
  {
    var t := s;
    if s.members[m].Queued? {
      t := After(s, Finish(m));
      ReachesOn(origin, s, Finish(m));
      AccountedStep(s, Finish(m));
    }
    u := After(t, Decrement(m));
    ReachesOn(origin, t, Decrement(m));
    AccountedStep(t, Decrement(m));
  }

  /** The workers still at work count the batch down to 0. */
  lemma {:induction false} Drain(origin: Redis, s: Redis) returns (t: Redis)
    requires NoneRefused(s) && Reaches(origin, s) && Accounted(s) && EnqueuesDone(s) && s.status.Sealed?
    requires s.submitter.Sealing?
    ensures Reaches(origin, t) && Accounted(t) && EnqueuesDone(t) && t.status.Sealed? && t.submitter.Sealing?
    ensures t.pending == 0 && t.callbacks == s.callbacks && |Held(t)| == Zeros(s)
    ensures forall m :: m in t.members && Firing(t.members[m]) ==> m in s.members && Firing(s.members[m])
    decreases s.pending
  {
    t := s;
    if s.pending > 0 {
      assert OutstandingMembers(s) != {};
      var m :| m in OutstandingMembers(s);
      var u := DrainOne(origin, s, m);
      OneElement(Held(s), Held(u), m);
      t := Drain(origin, u);
    }
  }

  /** Every worker that sits on a 0 sees the batch sealed. */
  lemma {:induction false} ReadAll(origin: Redis, s: Redis) returns (t: Redis)
    requires Reaches(origin, s) && s.status.Sealed?
    requires forall m :: m in s.members ==> !s.members[m].Calling?
    ensures Reaches(origin, t) && t.submitter == s.submitter && t.callbacks == s.callbacks
    ensures |Promising(t)| == |Promising(s)|
    ensures forall m :: m in t.members ==> !t.members[m].Calling? && t.members[m] != Decremented(0)
    decreases |Held(s)|
  {
    t := s;
    if m :| m in s.members && s.members[m] == Decremented(0) {
      var u := After(s, ReadStatus(m));
      ReachesOn(origin, s, ReadStatus(m));
      assert m in Held(s);
      OneElement(Held(s), Held(u), m);
      OneElement(Promising(s), Promising(u), m);
      t := ReadAll(origin, u);
    }
  }

  /** And each of them enqueues the callback. */
  lemma {:induction false} FireAll(origin: Redis, s: Redis) returns (t: Redis)
    requires Reaches(origin, s)
    requires forall m :: m in s.members ==> !s.members[m].Calling? && s.members[m] != Decremented(0)
    ensures Reaches(origin, t) && t.submitter == s.submitter && t.callbacks == s.callbacks + |Promising(s)|
    decreases |Promising(s)|
  {
    t := s;
    if m :| m in s.members && Firing(s.members[m]) {
      var u := After(s, SetCompleted(m));
      ReachesOn(origin, s, SetCompleted(m));
      var v := After(u, Call(m));
      ReachesOn(origin, u, Call(m));
      assert m in Promising(s);
      OneElement(Promising(s), Promising(v), m);
      t := FireAll(origin, v);
    } else {
      assert Promising(s) == {};
    }
  }

  ghost predicate RunTo(s: Redis) {
    exists ss: seq<Redis>, acts: seq<Action> :: IsRun(ss, acts, FillThenSubmit) && ss[|acts|] == s
  }

  lemma RunToInv(s: Redis)
    requires RunTo(s)
    ensures Accounted(s) && SubmitInv(s)
  {
    var ss: seq<Redis>, acts: seq<Action> :| IsRun(ss, acts, FillThenSubmit) && ss[|acts|] == s;
    SubmitRun(ss, acts, |acts|);
  }

  lemma AllFire(s: Redis) returns (t: Redis)
    requires Accounted(s) && SubmitInv(s) && Filled(s) && NoneRefused(s)
    ensures Reaches(s, t) && t.callbacks == Zeros(s) + 1
  {
    ReachesItself(s);
    var u := After(s, Seal);
    ReachesOn(s, s, Seal);
    assert Held(u) == Held(s) && OutstandingMembers(u) == OutstandingMembers(s) && FiredMembers(u) == FiredMembers(s);
    u := Drain(s, u);
    assert Promising(u) == Held(u);
    var v := After(u, ReadPending);
    ReachesOn(s, u, ReadPending);
    assert Promising(v) == Promising(u);
    v := ReadAll(s, v);
    v := FireAll(s, v);
    ReachesOn(s, v, SubSetCompleted);
    ReachesOn(s, After(v, SubSetCompleted), SubCall);
    t := After(After(v, SubSetCompleted), SubCall);
  }

  /** With a refused member, the workers that sit on a 0 still fire. */
  lemma HoldersFire(s: Redis) returns (t: Redis)
    requires SubmitInv(s) && Filled(s)
    ensures Reaches(s, t) && t.callbacks == |Held(s)|
  {
    ReachesItself(s);
    var u := After(s, Seal);
    ReachesOn(s, s, Seal);
    assert Promising(u) == Held(s);
    u := ReadAll(s, u);
    t := FireAll(s, u);
  }

  /**
   * When the client is about to submit a batch, the callback can be enqueued as often as workers sit on a 0 and, unless
   * an enqueue was refused, once more by a worker that will get one and once by the submitter; this bound is reached.
   */
  lemma MostCallbacks(s: Redis)
    requires RunTo(s) && Filled(s)
    ensures forall t :: Reaches(s, t) ==> t.callbacks <= Zeros(s) + One(NoneRefused(s))
    ensures exists t :: Reaches(s, t) && t.callbacks == Zeros(s) + One(NoneRefused(s))
  {
    RunToInv(s);
    assert Promising(s) == Held(s);
    forall t | Reaches(s, t) ensures t.callbacks <= Zeros(s) + One(NoneRefused(s)) {
      var ss: seq<Redis>, acts: seq<Action> :| IsPath(ss, acts, NoMore) && ss[0] == s && ss[|acts|] == t;
      BudgetPath(ss, acts, |acts|);
    }
    if NoneRefused(s) {
      var t := AllFire(s);
    } else {
      var t := HoldersFire(s);
    }
  }

  /** The callback can be enqueued while the counter is above 0. */
  ghost predicate CanFireEarly(s: Redis) {
    exists t, a :: Reaches(s, t) && NoMore(t, a) && After(t, a).callbacks > t.callbacks && t.pending > 0
  }

  ghost predicate FiresOnlyEmpty(s: Redis)
  {
    && Accounted(s) && EnqueuesDone(s)
    && (forall m :: m in s.members && (s.members[m] == Decremented(0) || Firing(s.members[m])) ==> s.pending == 0)
    && (s.submitter.SubCompleting? || s.submitter.SubCalling? ==> s.pending == 0)
  }

  lemma FiresOnlyEmptyStep(s: Redis, a: Action)
    requires FiresOnlyEmpty(s) && NoMore(s, a)
    ensures FiresOnlyEmpty(After(s, a))
  {
    AccountedStep(s, a);
    if a.Decrement? {
      assert a.m in OutstandingMembers(s);
    }
  }

  lemma {:induction false} FiresOnlyEmptyPath(ss: seq<Redis>, acts: seq<Action>, n: nat)
    requires IsPath(ss, acts, NoMore) && FiresOnlyEmpty(ss[0]) && n < |ss|
    ensures FiresOnlyEmpty(ss[n])
    decreases n
  {
    if n > 0 {
      FiresOnlyEmptyPath(ss, acts, n - 1);
      FiresOnlyEmptyStep(ss[n - 1], acts[n - 1]);
    }
  }

  lemma HeldFiresEarly(origin: Redis, s: Redis, m: JobId)
    requires Reaches(origin, s) && SubmitInv(s) && Filled(s) && At(s, m, Decremented(0)) && s.pending > 0
    ensures CanFireEarly(origin)
  {
    var s1 := After(s, Seal);
    ReachesOn(origin, s, Seal);
    var s2 := After(s1, ReadStatus(m));
    ReachesOn(origin, s1, ReadStatus(m));
    var s3 := After(s2, SetCompleted(m));
    ReachesOn(origin, s2, SetCompleted(m));
    assert NoMore(s3, Call(m)) && After(s3, Call(m)).callbacks > s3.callbacks && s3.pending > 0;
  }

  /**
   * When the client is about to submit a batch, the callback can come too early exactly when a worker sits on a 0
   * although the batch is not empty.
   */
  lemma EarlyIffHeld(s: Redis)
    requires RunTo(s) && Filled(s)
    ensures CanFireEarly(s) <==> Held(s) != {} && s.pending > 0
  {
    RunToInv(s);
    if Held(s) != {} && s.pending > 0 {
      var m :| m in Held(s);
      ReachesItself(s);
      HeldFiresEarly(s, s, m);
    } else {
      forall m | m in s.members && s.members[m] == Decremented(0) ensures s.pending == 0 {
        assert m in Held(s);
      }
      forall t, a | Reaches(s, t) && NoMore(t, a) && t.pending > 0 ensures After(t, a).callbacks == t.callbacks {
        var ss: seq<Redis>, acts: seq<Action> :| IsPath(ss, acts, NoMore) && ss[0] == s && ss[|acts|] == t;
        FiresOnlyEmptyPath(ss, acts, |acts|);
      }
    }
  }

  ghost function Unpushed(s: Redis): set<JobId> {
    set m | m in s.members && (s.members[m].Counting? || s.members[m].Counted?)
  }

  /** The enqueues under way come to their end. */
  lemma {:induction false} FinishFilling(origin: Redis, s: Redis, m: JobId) returns (t: Redis)
    requires Reaches(origin, s) && Accounted(s) && SubmitInv(s) && s.submitter.Idle? && At(s, m, Decremented(0))
    requires s.pending > 0
    ensures Reaches(origin, t) && SubmitInv(t) && Filled(t) && At(t, m, Decremented(0)) && t.pending > 0
    decreases |Unpushed(s)|
  {
    t := s;
    if k :| k in s.members && (s.members[k].Counting? || s.members[k].Counted?) {
      if s.members[k].Counting? {
        t := After(s, IncrPending(k));
        ReachesOn(origin, s, IncrPending(k));
        AccountedStep(s, IncrPending(k));
        SubmitStep(s, IncrPending(k));
      }
      var u := After(t, Push(k));
      ReachesOn(origin, t, Push(k));
      AccountedStep(t, Push(k));
      SubmitStep(t, Push(k));
      assert k in Unpushed(s);
      OneElement(Unpushed(s), Unpushed(u), k);
      t := FinishFilling(origin, u, m);
    }
  }

  /** One careless count is enough: from then on the callback can come too early. */
  lemma CarelessFiresEarly(s: Redis, m: JobId, k: JobId)
    requires RunTo(s) && At(s, m, Decremented(0)) && NoMore(s, IncrPending(k))
    ensures CanFireEarly(After(s, IncrPending(k)))
  {
    RunToInv(s);
    var t := After(s, IncrPending(k));
    AccountedStep(s, IncrPending(k));
    SubmitStep(s, IncrPending(k));
    ReachesItself(t);
    var u := FinishFilling(t, t, m);
    HeldFiresEarly(t, u, m);
  }

  // Runs that reach the bounds

  lemma RunOn(s: Redis, a: Action)
    requires RunTo(s) && FillThenSubmit(s, a)
    ensures RunTo(After(s, a))
  {
    var ss: seq<Redis>, acts: seq<Action> :| IsRun(ss, acts, FillThenSubmit) && ss[|acts|] == s;
    var tt, bcts := ss + [After(s, a)], acts + [a];
    assert IsRun(tt, bcts, FillThenSubmit) && tt[|bcts|] == After(s, a);
  }

  lemma PushOne(s: Redis, m: JobId, t: Redis)
    requires RunTo(s) && s.submitter.Idle? && s.pending == 0 && m !in s.members
    requires t == s.(total := s.total + 1, pending := 1, members := s.members[m := Queued])
    ensures RunTo(t)
  {
    var s1 := After(s, IncrTotal(m));
    RunOn(s, IncrTotal(m));
    var s2 := After(s1, IncrPending(m));
    RunOn(s1, IncrPending(m));
    RunOn(s2, Push(m));
    assert After(s2, Push(m)) == t;
  }

  /** A member is enqueued and worked off while the batch is open, and its worker sits on the 0. */
  lemma OverlapOne(s: Redis, m: JobId)
    requires RunTo(s) && s.submitter.Idle? && s.pending == 0 && m !in s.members
    ensures RunTo(s.(total := s.total + 1, members := s.members[m := Decremented(0)], acking := true))
  {
    var s3 := s.(total := s.total + 1, pending := 1, members := s.members[m := Queued]);
    PushOne(s, m, s3);
    var s4 := After(s3, Finish(m));
    RunOn(s3, Finish(m));
    RunOn(s4, Decrement(m));
    assert After(s4, Decrement(m)) ==
           s.(total := s.total + 1, members := s.members[m := Decremented(0)], acking := true);
  }

  lemma {:induction false} OverlapAll(ids: set<JobId>) returns (s: Redis)
    ensures RunTo(s) && Filled(s) && s.pending == 0 && s.members.Keys == ids && Held(s) == ids
    decreases |ids|
  {
    if ids == {} {
      s := CREATED;
      var none: seq<Action> := [];
      assert IsRun([CREATED], none, FillThenSubmit) && [CREATED][|none|] == CREATED;
    } else {
      var m :| m in ids;
      var t := OverlapAll(ids - {m});
      OverlapOne(t, m);
      s := t.(total := t.total + 1, members := t.members[m := Decremented(0)], acking := true);
      assert forall k :: k in ids ==> k in s.members && s.members[k] == Decremented(0) by {
        forall k | k in ids && k != m ensures k in s.members && s.members[k] == Decremented(0) {
          assert k in Held(t);
        }
      }
    }
  }

  /** Whatever the jobs of a batch, each of its workers and the submitter can enqueue the callback. */
  lemma EveryClientCanFire(ids: set<JobId>) returns (s: Redis, t: Redis)
    ensures RunTo(s) && Filled(s) && s.members.Keys == ids && Reaches(s, t) && t.callbacks == |ids| + 1
  {
    s := OverlapAll(ids);
    MostCallbacks(s);
    forall m | m in s.members ensures !s.members[m].Refused? {
      assert m in Held(s);
    }
    t :| Reaches(s, t) && t.callbacks == Zeros(s) + One(NoneRefused(s));
  }
}
