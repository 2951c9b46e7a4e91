/** Which order of Redis commands makes a batch enqueue its callback twice. */
module RedisOrder {
  import opened Graph
  import opened Tables
  import opened RedisBatch

  /** The member was counted down. */
  predicate CountedDown(pc: Member) {
    pc.Decremented? || Firing(pc) || pc.Done?
  }

  /** A member that is counted down by `n` but was not at `i` is decremented in between. */
  lemma DecrementBetween(ss: seq<Redis>, acts: seq<Action>, i: nat, n: nat, m: JobId) returns (k: nat)
    requires IsRun(ss, acts, FillCarefully) && i <= n < |ss|
    requires m in ss[n].members && CountedDown(ss[n].members[m])
    requires !(m in ss[i].members && CountedDown(ss[i].members[m]))
    ensures i <= k < n && acts[k] == Decrement(m)
  {
    k := Crossing(ss, (s: Redis) => m in s.members && CountedDown(s.members[m]), i, n);
    assert ss[k + 1] == After(ss[k], acts[k]);
  }

  /** After the last decrement of a finished run nothing is outstanding. */
  lemma NothingAfterLast(ss: seq<Redis>, acts: seq<Action>, d: nat, i: nat, n: nat)
    requires IsRun(ss, acts, FillCarefully) && d < i <= n < |ss| && AllDone(ss[n])
    requires forall j :: d < j < n ==> !acts[j].Decrement?
    ensures ss[i].pending == 0
  {
    CarefulRun(ss, acts, i);
    forall m ensures m !in OutstandingMembers(ss[i]) {
      if m in OutstandingMembers(ss[i]) {
        MembersStay(ss, acts, i, n, m);
        var k := DecrementBetween(ss, acts, i, n, m);
        assert false;
      }
    }
    assert OutstandingMembers(ss[i]) == {};
  }

  lemma MembersStay(ss: seq<Redis>, acts: seq<Action>, i: nat, n: nat, m: JobId)
    requires IsRun(ss, acts, FillCarefully) && i <= n < |ss| && m in ss[i].members
    ensures m in ss[n].members
  {
    forall k | i <= k < n && m in ss[k].members ensures m in ss[k + 1].members {
      assert ss[k + 1] == After(ss[k], acts[k]);
    }
    Stays(ss, (s: Redis) => m in s.members, i, n);
  }

  /** What a decrement returned is not forgotten before the status is read, and a firing worker fires. */
  lemma KeepsLeft(ss: seq<Redis>, acts: seq<Action>, i: nat, n: nat, m: JobId)
    requires IsRun(ss, acts, FillCarefully) && i <= n < |ss| && m in ss[i].members && CountedDown(ss[i].members[m])
    ensures m in ss[n].members && CountedDown(ss[n].members[m])
    ensures ss[n].members[m].Decremented? ==> ss[n].members[m] == ss[i].members[m]
    ensures Firing(ss[i].members[m]) ==> Firing(ss[n].members[m]) || ss[n].members[m] == Done(true)
    ensures ss[n].members[m] == Done(true) ==>
      ss[i].members[m] == Done(true) || Firing(ss[i].members[m]) || ss[i].members[m] == Decremented(0)
  {
    var was := ss[i].members[m];
    var p := (s: Redis) =>
      m in s.members && CountedDown(s.members[m]) && (s.members[m].Decremented? ==> s.members[m] == was)
      && (Firing(was) ==> Firing(s.members[m]) || s.members[m] == Done(true))
      && (Firing(s.members[m]) || s.members[m] == Done(true) ==>
            was == Done(true) || Firing(was) || was == Decremented(0));
    forall k | i <= k < n && p(ss[k]) ensures p(ss[k + 1]) {
      assert ss[k + 1] == After(ss[k], acts[k]);
    }
    Stays(ss, p, i, n);
  }

  /** A batch is completed only by someone who then enqueues the callback. */
  ghost predicate CompletedBySomeone(s: Redis) {
    s.status.Completed? ==>
      || s.submitter.SubCalling? || s.submitter == SubDone(true)
      || exists m :: m in s.members && (s.members[m].Calling? || s.members[m] == Done(true))
  }

  lemma CompletedStep(s: Redis, a: Action)
    requires CompletedBySomeone(s) && FillThenSubmit(s, a) && (s.submitter.Idle? <==> s.status.Open?)
    ensures CompletedBySomeone(After(s, a))
  {
    var t := After(s, a);
    if m :| m in s.members && (s.members[m].Calling? || s.members[m] == Done(true)) {
      assert m in t.members && (t.members[m].Calling? || t.members[m] == Done(true));
    }
    if a.SetCompleted? {
      assert t.members[a.m].Calling?;
    }
  }

  lemma {:induction false} CompletedRun(ss: seq<Redis>, acts: seq<Action>, n: nat)
    requires IsRun(ss, acts, FillCarefully) && n < |ss|
    ensures CompletedBySomeone(ss[n])
    decreases n
  {
    if n > 0 {
      CompletedRun(ss, acts, n - 1);
      CarefulRun(ss, acts, n - 1);
      CompletedStep(ss[n - 1], acts[n - 1]);
    }
  }

  predicate SubmitterFires(s: Redis) {
    s.submitter.SubCompleting? || s.submitter.SubCalling? || s.submitter == SubDone(true)
  }

  predicate WroteCompleted(s: Redis) {
    s.submitter.SubCalling? || s.submitter == SubDone(true)
  }

  /**
   * Of the commands up to `n`, the last decrement `d` precedes the submitter's reading `p` of the counter, and the
   * worker that made it reads the status, at `q`, after the batch is sealed and before the submitter completes it.
   */
  ghost predicate InOrder(acts: seq<Action>, n: nat, d: nat, p: nat, q: nat)
    requires n <= |acts|
  {
    && d < p < n && d < q < n
    && acts[d].Decrement? && (forall j :: d < j < n ==> !acts[j].Decrement?)
    && acts[p].ReadPending? && acts[q] == ReadStatus(acts[d].m)
    && (exists r :: 0 <= r < q && acts[r].Seal?)
    && (forall r :: 0 <= r < q ==> !acts[r].SubSetCompleted?)
  }

  lemma WhoCompleted(ss: seq<Redis>, acts: seq<Action>, q: nat) returns (k: nat)
    requires IsRun(ss, acts, FillCarefully) && q < |ss| && WroteCompleted(ss[q])
    ensures k < q && acts[k].SubSetCompleted?
  {
    k := Crossing(ss, WroteCompleted, 0, q);
    assert ss[k + 1] == After(ss[k], acts[k]);
  }

  /** Once sealed, and until the submitter completes it, a batch whose 0 is still held stays sealed. */
  lemma StillSealed(ss: seq<Redis>, acts: seq<Action>, r: nat, q: nat, m: JobId)
    requires IsRun(ss, acts, FillCarefully) && r < q < |ss| && acts[r].Seal? && At(ss[q], m, Decremented(0))
    requires forall k :: 0 <= k < q ==> !acts[k].SubSetCompleted?
    ensures ss[q].status.Sealed?
  {
    CarefulRun(ss, acts, q);
    CompletedRun(ss, acts, q);
    assert ss[r + 1] == After(ss[r], acts[r]);
    forall k | r + 1 <= k < q && !ss[k].submitter.Idle? ensures !ss[k + 1].submitter.Idle? {
      assert ss[k + 1] == After(ss[k], acts[k]);
    }
    Stays(ss, (s: Redis) => !s.submitter.Idle?, r + 1, q);
    if WroteCompleted(ss[q]) {
      var k := WhoCompleted(ss, acts, q);
      assert false;
    }
  }

  /** At `q` the batch is sealed, and the worker that reads the status holds the 0. */
  lemma SealedAtRead(ss: seq<Redis>, acts: seq<Action>, n: nat, d: nat, p: nat, q: nat)
    requires IsRun(ss, acts, FillCarefully) && n < |ss| && AllDone(ss[n]) && InOrder(acts, n, d, p, q)
    ensures ss[q].status.Sealed? && At(ss[q], acts[d].m, Decremented(0))
  {
    assert ss[d + 1] == After(ss[d], acts[d]);
    NothingAfterLast(ss, acts, d, d + 1, n);
    KeepsLeft(ss, acts, d + 1, q, acts[d].m);
    var r :| 0 <= r < q && acts[r].Seal?;
    StillSealed(ss, acts, r, q, acts[d].m);
  }

  lemma SubmitterEndsFired(ss: seq<Redis>, acts: seq<Action>, n: nat, p: nat)
    requires IsRun(ss, acts, FillCarefully) && p < n < |ss| && AllDone(ss[n])
    requires acts[p].ReadPending? && ss[p].pending == 0
    ensures ss[n].submitter == SubDone(true)
  {
    assert ss[p + 1] == After(ss[p], acts[p]);
    forall k | p + 1 <= k < n && SubmitterFires(ss[k]) ensures SubmitterFires(ss[k + 1]) {
      assert ss[k + 1] == After(ss[k], acts[k]);
    }
    Stays(ss, SubmitterFires, p + 1, n);
  }

  lemma OrderFires(ss: seq<Redis>, acts: seq<Action>, n: nat, d: nat, p: nat, q: nat)
    requires IsRun(ss, acts, FillCarefully) && n < |ss| && AllDone(ss[n]) && InOrder(acts, n, d, p, q)
    ensures ss[n].submitter == SubDone(true) && At(ss[n], acts[d].m, Done(true))
  {
    NothingAfterLast(ss, acts, d, p, n);
    SubmitterEndsFired(ss, acts, n, p);
    SealedAtRead(ss, acts, n, d, p, q);
    assert ss[q + 1] == After(ss[q], acts[q]);
    KeepsLeft(ss, acts, q + 1, n, acts[d].m);
  }

  /** Once the batch is being submitted and all members are counted down, nobody is decremented any more. */
  predicate AllCountedDown(s: Redis) {
    !s.submitter.Idle? && forall m :: m in s.members ==> CountedDown(s.members[m])
  }

  lemma NoDecrementAfter(ss: seq<Redis>, acts: seq<Action>, p: nat, d: nat)
    requires IsRun(ss, acts, FillCarefully) && p <= d < |acts|
    requires ss[p].pending == 0 && !ss[p].submitter.Idle?
    ensures !acts[d].Decrement?
  {
    CarefulRun(ss, acts, p);
    NoneToDecrement(ss[p]);
    forall k | p <= k < d && AllCountedDown(ss[k]) ensures AllCountedDown(ss[k + 1]) {
      assert ss[k + 1] == After(ss[k], acts[k]);
    }
    Stays(ss, AllCountedDown, p, d);
  }

  lemma FiringNeedsOrder(ss: seq<Redis>, acts: seq<Action>, n: nat, m: JobId) returns (d: nat, p: nat, q: nat)
    requires IsRun(ss, acts, FillCarefully) && n < |ss|
    requires ss[n].submitter == SubDone(true) && At(ss[n], m, Done(true))
    ensures InOrder(acts, n, d, p, q)
  {
    p := Crossing(ss, SubmitterFires, 0, n);
    assert ss[p + 1] == After(ss[p], acts[p]);
    q := Crossing(ss, (s: Redis) => m in s.members && (Firing(s.members[m]) || s.members[m] == Done(true)), 0, n);
    assert ss[q + 1] == After(ss[q], acts[q]);
    d := DecrementBetween(ss, acts, 0, q, m);
    assert ss[d + 1] == After(ss[d], acts[d]);
    KeepsLeft(ss, acts, d + 1, q, m);
    forall j | d < j < n ensures !acts[j].Decrement? {
      LastDecrement(ss, acts, n, m, d, j);
    }
    if p <= d {
      NoDecrementAfter(ss, acts, p, d);
    }
    CarefulRun(ss, acts, q);
    var r := Crossing(ss, (s: Redis) => !s.submitter.Idle?, 0, q);
    assert ss[r + 1] == After(ss[r], acts[r]);
    forall r | 0 <= r < q ensures !acts[r].SubSetCompleted? {
      NotYetCompleted(ss, acts, r, q);
    }
  }

  lemma NoneToDecrement(s: Redis)
    requires Accounted(s) && s.pending == 0
    ensures forall m :: m in s.members ==> !Outstanding(s.members[m])
  {
    assert OutstandingMembers(s) == {};
    forall m | m in s.members ensures !Outstanding(s.members[m]) {
      assert m !in OutstandingMembers(s);
    }
  }

  /** After the decrement that made a worker fire there is no other one. */
  lemma LastDecrement(ss: seq<Redis>, acts: seq<Action>, n: nat, m: JobId, d: nat, j: nat)
    requires IsRun(ss, acts, FillCarefully) && d < j < n < |ss|
    requires At(ss[n], m, Done(true)) && At(ss[d + 1], m, Decremented(0))
    ensures !acts[j].Decrement?
  {
    KeepsLeft(ss, acts, d + 1, j, m);
    KeepsLeft(ss, acts, j, n, m);
    CarefulRun(ss, acts, j);
    NoneToDecrement(ss[j]);
  }

  lemma NotYetCompleted(ss: seq<Redis>, acts: seq<Action>, r: nat, q: nat)
    requires IsRun(ss, acts, FillCarefully) && r < q < |ss| && ss[q].status.Sealed?
    ensures !acts[r].SubSetCompleted?
  {
    if acts[r].SubSetCompleted? {
      var p := (s: Redis) => s.status.Completed? && !s.submitter.Idle?;
      assert ss[r + 1] == After(ss[r], acts[r]);
      forall k | r + 1 <= k < q && p(ss[k]) ensures p(ss[k + 1]) {
        assert ss[k + 1] == After(ss[k], acts[k]);
      }
      Stays(ss, p, r + 1, q);
    }
  }

  lemma TwiceWhenDone(ss: seq<Redis>, acts: seq<Action>, n: nat)
    requires IsRun(ss, acts, FillCarefully) && n < |ss| && AllDone(ss[n])
    ensures ss[n].callbacks == 2 <==> exists d: nat, p: nat, q: nat :: InOrder(acts, n, d, p, q)
    ensures ss[n].callbacks == 1 || ss[n].callbacks == 2
  {
    CarefulRun(ss, acts, n);
    AtMostOneFired(ss[n]);
    assert OutstandingMembers(ss[n]) == {};
    if d: nat, p: nat, q: nat :| InOrder(acts, n, d, p, q) {
      OrderFires(ss, acts, n, d, p, q);
    }
    if ss[n].callbacks == 2 {
      var m :| m in ss[n].members && ss[n].members[m] == Done(true);
      var d, p, q := FiringNeedsOrder(ss, acts, n, m);
    }
  }

  /**
   * Once everybody is done, the callback was enqueued twice exactly when no enqueue was refused and the commands came
   * in that order, not at all exactly when an enqueue was refused, and otherwise once.
   */
  lemma TwiceIffInOrder(ss: seq<Redis>, acts: seq<Action>, n: nat)
    requires IsRun(ss, acts, FillCarefully) && n < |ss| && AllEnded(ss[n])
    ensures ss[n].callbacks == 2 <==> NoneRefused(ss[n]) && exists d: nat, p: nat, q: nat :: InOrder(acts, n, d, p, q)
    ensures ss[n].callbacks == 0 <==> !NoneRefused(ss[n])
    ensures ss[n].callbacks <= 2
  {
    CalledIffNoneRefused(ss, acts, n);
    AtMostTwice(ss, acts, n);
    if NoneRefused(ss[n]) {
      TwiceWhenDone(ss, acts, n);
    }
  }

  /** If SubmitBatch returns while a member is still to be counted down, the callback is enqueued exactly once. */
  lemma OnceWhenSubmittedEarly(ss: seq<Redis>, acts: seq<Action>, k: nat, n: nat)
    requires IsRun(ss, acts, FillCarefully) && k <= n < |ss| && AllDone(ss[n])
    requires ss[k].submitter.SubDone? && ss[k].pending > 0
    ensures ss[n].callbacks == 1
  {
    CarefulRun(ss, acts, k);
    forall i | k <= i < n && ss[i].submitter == SubDone(false) ensures ss[i + 1].submitter == SubDone(false) {
      assert ss[i + 1] == After(ss[i], acts[i]);
    }
    Stays(ss, (s: Redis) => s.submitter == SubDone(false), k, n);
    TwiceWhenDone(ss, acts, n);
    CarefulRun(ss, acts, n);
    AtMostOneFired(ss[n]);
  }

  /** If SubmitBatch starts after every member's acknowledgement has returned, the callback is enqueued exactly once. */
  lemma OnceWhenSubmittedLate(ss: seq<Redis>, acts: seq<Action>, k: nat, n: nat)
    requires IsRun(ss, acts, FillCarefully) && k < n < |ss| && AllDone(ss[n])
    requires acts[k].Seal? && forall m :: m in ss[k].members ==> ss[k].members[m].Done?
    ensures ss[n].callbacks == 1
  {
    var p := (s: Redis) => !s.submitter.Idle? && forall m :: m in s.members ==> s.members[m] == Done(false);
    CarefulRun(ss, acts, k);
    assert ss[k + 1] == After(ss[k], acts[k]);
    forall m | m in ss[k].members ensures ss[k].members[m] == Done(false) {
      NoneFiredYet(ss[k], m);
    }
    forall i | k + 1 <= i < n && p(ss[i]) ensures p(ss[i + 1]) {
      assert ss[i + 1] == After(ss[i], acts[i]);
    }
    Stays(ss, p, k + 1, n);
    TwiceWhenDone(ss, acts, n);
    CarefulRun(ss, acts, n);
    AtMostOneFired(ss[n]);
  }

  // Such a run exists

  lemma Extend(ss: seq<Redis>, acts: seq<Action>, a: Action) returns (tt: seq<Redis>, bcts: seq<Action>)
    requires IsRun(ss, acts, FillThenWork) && FillThenWork(ss[|acts|], a)
    ensures IsRun(tt, bcts, FillThenWork) && tt[|bcts|] == After(ss[|acts|], a)
  {
    tt, bcts := ss + [After(ss[|acts|], a)], acts + [a];
  }

  /** Two more commands, leading to `t`. */
  lemma Two(ss: seq<Redis>, acts: seq<Action>, a: Action, b: Action, t: Redis)
    returns (tt: seq<Redis>, bcts: seq<Action>)
    requires IsRun(ss, acts, FillThenWork) && FillThenWork(ss[|acts|], a)
    requires FillThenWork(After(ss[|acts|], a), b) && After(After(ss[|acts|], a), b) == t
    ensures IsRun(tt, bcts, FillThenWork) && tt[|bcts|] == t
  {
    tt, bcts := Extend(ss, acts, a);
    tt, bcts := Extend(tt, bcts, b);
  }

  lemma OneWorkedOff(m: JobId) returns (ss: seq<Redis>, acts: seq<Action>)
    ensures IsRun(ss, acts, FillThenWork)
    ensures ss[|acts|] == Redis(Sealed, 1, 0, 0, map[m := Decremented(0)], Sealing, true)
  {
    ss, acts := Two([CREATED], [], IncrTotal(m), IncrPending(m), Redis(Open, 1, 1, 0, map[m := Counted], Idle, false));
    ss, acts := Two(ss, acts, Push(m), Seal, Redis(Sealed, 1, 1, 0, map[m := Queued], Sealing, false));
    ss, acts := Two(ss, acts, Finish(m), Decrement(m), Redis(Sealed, 1, 0, 0, map[m := Decremented(0)], Sealing, true));
  }

  /** One member, worked off while SubmitBatch runs: both see the batch sealed and empty. */
  lemma FiresTwice(m: JobId) returns (ss: seq<Redis>, acts: seq<Action>)
    ensures IsRun(ss, acts, FillThenWork) && AllDone(ss[|acts|]) && ss[|acts|].callbacks == 2
  {
    ss, acts := OneWorkedOff(m);
    ss, acts := Two(ss, acts, ReadPending, ReadStatus(m),
                    Redis(Sealed, 1, 0, 0, map[m := Completing], SubCompleting, true));
    ss, acts := Two(ss, acts, SetCompleted(m), Call(m),
                    Redis(Completed, 1, 0, 1, map[m := Done(true)], SubCompleting, true));
    ss, acts := Two(ss, acts, SubSetCompleted, SubCall,
                    Redis(Completed, 1, 0, 2, map[m := Done(true)], SubDone(true), true));
  }
}
