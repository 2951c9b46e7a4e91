/**
 * The batch protocol on Redis. A transaction there is a sequence of single commands, and the commands of the client
 * that fills and submits a batch interleave freely with those of the workers that acknowledge its members.
 * One batch is modelled, without deadline, and none of its members dies.
 */
module RedisBatch {
  import opened Graph
  import opened Tables

  /** How far the commands for one member have come. */
  datatype Member =
    | Counting              // `total` incremented
    | Counted               // `pending` incremented
    | Refused               // the unique lock was refused, the counter stays up
    | Queued                // visible to workers
    | Finished              // acknowledged by its worker, the counter not yet decremented
    | Decremented(left: int) // the decrement returned `left`
    | Completing            // read the status `sealed` after getting 0
    | Calling               // wrote the status `completed`
    | Done(fired: bool)     // finished, having enqueued the callback or not

  /** How far SubmitBatch has come. */
  datatype Submitter = Idle | Sealing | SubCompleting | SubCalling | SubDone(fired: bool)

  /** The batch hash, the callbacks enqueued so far and the clients at work on them. */
  datatype Redis = Redis(
    status: BatchStatus,
    total: int,
    pending: int,
    callbacks: nat,
    members: map<JobId, Member>,
    submitter: Submitter,
    acking: bool) // some member has been acknowledged by its worker

  datatype Action =
    | IncrTotal(m: JobId) | IncrPending(m: JobId) | Refuse(m: JobId) | Push(m: JobId)
    | Finish(m: JobId) | Decrement(m: JobId) | ReadStatus(m: JobId) | SetCompleted(m: JobId) | Call(m: JobId)
    | Seal | ReadPending | SubSetCompleted | SubCall

  const CREATED := Redis(Open, 0, 0, 0, map[], Idle, false)

  predicate At(s: Redis, m: JobId, pc: Member) {
    m in s.members && s.members[m] == pc
  }

  predicate Enabled(s: Redis, a: Action)
  {
    match a
    case IncrTotal(m) => m !in s.members
    case IncrPending(m) => At(s, m, Counting)
    case Refuse(m) => At(s, m, Counted)
    case Push(m) => At(s, m, Counted)
    case Finish(m) => At(s, m, Queued)
    case Decrement(m) => At(s, m, Finished)
    case ReadStatus(m) => m in s.members && s.members[m].Decremented?
    case SetCompleted(m) => At(s, m, Completing)
    case Call(m) => At(s, m, Calling)
    case Seal => s.submitter.Idle?
    case ReadPending => s.submitter.Sealing?
    case SubSetCompleted => s.submitter.SubCompleting?
    case SubCall => s.submitter.SubCalling?
  }

  function Move(s: Redis, m: JobId, pc: Member): Redis {
    s.(members := s.members[m := pc])
  }

  /** One Redis command. */
  function After(s: Redis, a: Action): Redis
    requires Enabled(s, a)
  {
    match a
    case IncrTotal(m) => Move(s, m, Counting).(total := s.total + 1)
    case IncrPending(m) => Move(s, m, Counted).(pending := s.pending + 1)
    case Refuse(m) => Move(s, m, Refused)
    case Push(m) => Move(s, m, Queued)
    case Finish(m) => Move(s, m, Finished).(acking := true)
    case Decrement(m) => Move(s, m, Decremented(s.pending - 1)).(pending := s.pending - 1)
    case ReadStatus(m) =>
      Move(s, m, if s.status.Sealed? && s.members[m].left == 0 then Completing else Done(false))
    case SetCompleted(m) => Move(s, m, Calling).(status := Completed)
    case Call(m) => Move(s, m, Done(true)).(callbacks := s.callbacks + 1)
    case Seal => s.(status := Sealed, submitter := Sealing)
    case ReadPending => s.(submitter := if s.pending == 0 then SubCompleting else SubDone(false))
    case SubSetCompleted => s.(status := Completed, submitter := SubCalling)
    case SubCall => s.(submitter := SubDone(true), callbacks := s.callbacks + 1)
  }

  // What the clients do

  /** No EnqueueInBatch is under way. */
  predicate EnqueuesDone(s: Redis) {
    forall m :: m in s.members ==> !s.members[m].Counting? && !s.members[m].Counted?
  }

  /** Every batch enqueue finishes before the single SubmitBatch starts. */
  predicate FillThenSubmit(s: Redis, a: Action) {
    && Enabled(s, a)
    && (a.IncrTotal? ==> s.submitter.Idle?)
    && (a.Seal? ==> EnqueuesDone(s))
  }

  /** Moreover, every batch enqueue finishes before the first acknowledgement. */
  predicate FillThenWork(s: Redis, a: Action) {
    && FillThenSubmit(s, a)
    && (a.IncrTotal? ==> !s.acking)
    && (a.Finish? ==> EnqueuesDone(s))
  }

  /** Whatever else, nobody carries on counting a member in while a worker sits on the 0 that its decrement returned. */
  predicate FillCarefully(s: Redis, a: Action) {
    FillThenSubmit(s, a) && (a.IncrPending? ==> forall m :: m in s.members ==> s.members[m] != Decremented(0))
  }

  ghost predicate IsPath(ss: seq<Redis>, acts: seq<Action>, allowed: (Redis, Action) -> bool)
  {
    && |ss| == |acts| + 1
    && forall i {:trigger acts[i]} :: 0 <= i < |acts| ==>
         allowed(ss[i], acts[i]) && Enabled(ss[i], acts[i]) && ss[i + 1] == After(ss[i], acts[i])
  }

  ghost predicate IsRun(ss: seq<Redis>, acts: seq<Action>, allowed: (Redis, Action) -> bool) {
    IsPath(ss, acts, allowed) && ss[0] == CREATED
  }

  // The counter

  predicate Outstanding(pc: Member) {
    pc.Counted? || pc.Refused? || pc.Queued? || pc.Finished?
  }

  ghost function OutstandingMembers(s: Redis): set<JobId> {
    set m | m in s.members && Outstanding(s.members[m])
  }

  ghost function FiredMembers(s: Redis): set<JobId> {
    set m | m in s.members && s.members[m] == Done(true)
  }

  /** In every interleaving: the counter counts members, and callbacks are accounted for by who enqueued them. */
  ghost predicate Accounted(s: Redis)
  {
    && s.pending == |OutstandingMembers(s)|
    && s.callbacks == |FiredMembers(s)| + One(s.submitter == SubDone(true))
  }

  lemma OneElement<T>(before: set<T>, after: set<T>, x: T)
    requires forall y :: y != x ==> (y in before <==> y in after)
    ensures |after| == |before| + One(x in after) - One(x in before)
  {
    if x in before && x !in after {
      assert before == after + {x};
    } else if x !in before && x in after {
      assert after == before + {x};
    } else {
      assert after == before;
    }
  }

  lemma AccountedStep(s: Redis, a: Action)
    requires Accounted(s) && Enabled(s, a)
    ensures Accounted(After(s, a))
  {
    var t := After(s, a);
    if a.Seal? || a.ReadPending? || a.SubSetCompleted? || a.SubCall? {
      assert OutstandingMembers(t) == OutstandingMembers(s) && FiredMembers(t) == FiredMembers(s);
    } else {
      OneElement(OutstandingMembers(s), OutstandingMembers(t), a.m);
      OneElement(FiredMembers(s), FiredMembers(t), a.m);
    }
  }

  /** The total counts the members whose enqueue has begun, refused ones included. */
  lemma {:induction false} TotalCounts(ss: seq<Redis>, acts: seq<Action>, allowed: (Redis, Action) -> bool, n: nat)
    requires IsRun(ss, acts, allowed) && n < |ss|
    ensures ss[n].total == |ss[n].members.Keys|
    decreases n
  {
    if n > 0 {
      TotalCounts(ss, acts, allowed, n - 1);
      assert ss[n] == After(ss[n - 1], acts[n - 1]);
      var a, before, after := acts[n - 1], ss[n - 1].members.Keys, ss[n].members.Keys;
      if a.IncrTotal? {
        assert after == before + {a.m};
      } else {
        assert after == before;
      }
    }
  }

  // At least once

  predicate Firing(pc: Member) {
    pc.Completing? || pc.Calling?
  }

  /** Someone will still enqueue the callback, or has done so. */
  ghost predicate CallbackComing(s: Redis)
  {
    || s.callbacks > 0
    || s.submitter.SubCompleting? || s.submitter.SubCalling?
    || exists m :: m in s.members && Firing(s.members[m])
  }

  ghost predicate LastSeesSealed(s: Redis) {
    s.status.Sealed? && exists m :: m in s.members && s.members[m] == Decremented(0)
  }

  ghost predicate SubmitInv(s: Redis)
  {
    && (s.status.Open? <==> s.submitter.Idle?) && !s.status.Failed?
    && (s.submitter.Idle? ==> s.callbacks == 0 && forall m :: m in s.members ==> !Firing(s.members[m]))
    && (s.status.Completed? ==> CallbackComing(s))
    && (!s.submitter.Idle? ==> EnqueuesDone(s))
    && (!s.submitter.Idle? && !s.submitter.Sealing? ==> s.pending > 0 || CallbackComing(s) || LastSeesSealed(s))
  }

  lemma SubmitStep(s: Redis, a: Action)
    requires Accounted(s) && SubmitInv(s) && FillThenSubmit(s, a)
    ensures SubmitInv(After(s, a))
  {
    var t := After(s, a);
    if a.Seal? || a.ReadPending? || a.SubSetCompleted? || a.SubCall? {
      assert t.members == s.members;
    } else {
      MemberStep(s, a);
    }
  }

  lemma StillComing(s: Redis, a: Action)
    requires Enabled(s, a) && !a.Seal? && !a.ReadPending? && !a.SubSetCompleted? && !a.SubCall? && CallbackComing(s)
    ensures CallbackComing(After(s, a))
  {
    var t := After(s, a);
    if m :| m in s.members && Firing(s.members[m]) {
      assert m in t.members && (Firing(t.members[m]) || t.callbacks > 0);
    }
  }

  lemma StillSeen(s: Redis, a: Action)
    requires Enabled(s, a) && !a.Seal? && !a.ReadPending? && !a.SubSetCompleted? && !a.SubCall? && LastSeesSealed(s)
    requires !CallbackComing(s)
    ensures CallbackComing(After(s, a)) || LastSeesSealed(After(s, a))
  {
    var t := After(s, a);
    var m :| m in s.members && s.members[m] == Decremented(0);
    assert m in t.members && (t.members[m] == Decremented(0) || Firing(t.members[m]));
  }

  lemma MemberStep(s: Redis, a: Action)
    requires SubmitInv(s) && FillThenSubmit(s, a)
    requires !a.Seal? && !a.ReadPending? && !a.SubSetCompleted? && !a.SubCall?
    ensures SubmitInv(After(s, a))
  {
    var t := After(s, a);
    assert forall m :: m in s.members && m != a.m ==> m in t.members && t.members[m] == s.members[m];
    assert a.m in t.members;
    if CallbackComing(s) {
      StillComing(s, a);
    } else if LastSeesSealed(s) {
      StillSeen(s, a);
    }
  }

  /** Nobody fires before the batch is sealed, and afterwards nothing is counted in. */
  lemma NoneFiredYet(s: Redis, m: JobId)
    requires Accounted(s) && SubmitInv(s) && s.submitter.Idle? && m in s.members
    ensures s.members[m] != Done(true)
  {
    assert FiredMembers(s) == {};
    assert m !in FiredMembers(s);
  }

  /** No enqueue was turned away by its unique lock. */
  ghost predicate NoneRefused(s: Redis) {
    forall m :: m in s.members ==> !s.members[m].Refused?
  }

  /** SubmitBatch and every member's commands have run to their end. */
  ghost predicate AllEnded(s: Redis) {
    s.submitter.SubDone? && forall m :: m in s.members ==> s.members[m].Done? || s.members[m].Refused?
  }

  ghost predicate AllDone(s: Redis) {
    AllEnded(s) && NoneRefused(s)
  }

  lemma {:induction false} SubmitRun(ss: seq<Redis>, acts: seq<Action>, n: nat)
    requires IsRun(ss, acts, FillThenSubmit) && n < |ss|
    ensures Accounted(ss[n]) && SubmitInv(ss[n])
    decreases n
  {
    if n > 0 {
      SubmitRun(ss, acts, n - 1);
      AccountedStep(ss[n - 1], acts[n - 1]);
      SubmitStep(ss[n - 1], acts[n - 1]);
    } else {
      assert OutstandingMembers(CREATED) == {} && FiredMembers(CREATED) == {};
    }
  }

  /**
   * If the batch is filled before it is submitted, and no enqueue is refused, then once every client is done the
   * callback has been enqueued.
   */
  lemma AtLeastOnce(ss: seq<Redis>, acts: seq<Action>, n: nat)
    requires IsRun(ss, acts, FillThenSubmit) && n < |ss| && AllDone(ss[n])
    ensures ss[n].callbacks >= 1
  {
    SubmitRun(ss, acts, n);
    assert OutstandingMembers(ss[n]) == {};
  }

  // At most twice

  /** The decrement of this member was the one that returned 0, and it may still act on that or has. */
  predicate GotZero(pc: Member) {
    pc == Decremented(0) || Firing(pc) || pc == Done(true)
  }

  ghost predicate ZeroOnce(s: Redis) {
    forall m, k :: m in s.members && k in s.members && GotZero(s.members[m]) && GotZero(s.members[k]) ==> m == k
  }

  ghost predicate ZeroMeansEmpty(s: Redis)
  {
    && (forall m :: m in s.members && GotZero(s.members[m]) ==> s.pending == 0)
    && (s.submitter.SubCompleting? || s.submitter.SubCalling? || s.submitter == SubDone(true) ==> s.pending == 0)
  }

  ghost predicate CarefulInv(s: Redis) {
    Accounted(s) && SubmitInv(s) && ZeroMeansEmpty(s) && ZeroOnce(s)
  }

  lemma DecrementStep(s: Redis, m: JobId)
    requires Accounted(s) && ZeroMeansEmpty(s) && ZeroOnce(s) && At(s, m, Finished)
    ensures ZeroMeansEmpty(After(s, Decrement(m))) && ZeroOnce(After(s, Decrement(m)))
  {
    assert m in OutstandingMembers(s);
    assert s.pending > 0;
  }

  lemma CountingStep(s: Redis, m: JobId)
    requires CarefulInv(s) && FillCarefully(s, IncrPending(m))
    ensures ZeroMeansEmpty(After(s, IncrPending(m))) && ZeroOnce(After(s, IncrPending(m)))
  {
    forall k | k in s.members ensures !GotZero(s.members[k]) {
      NoneFiredYet(s, k);
    }
  }

  lemma ZeroStep(s: Redis, a: Action)
    requires ZeroMeansEmpty(s) && ZeroOnce(s) && Enabled(s, a) && !a.Decrement? && !a.IncrPending?
    ensures ZeroMeansEmpty(After(s, a)) && ZeroOnce(After(s, a))
  {
    var t := After(s, a);
    assert forall m :: m in t.members && GotZero(t.members[m]) ==> m in s.members && GotZero(s.members[m]);
  }

  lemma CarefulStep(s: Redis, a: Action)
    requires CarefulInv(s) && FillCarefully(s, a)
    ensures CarefulInv(After(s, a))
  {
    AccountedStep(s, a);
    SubmitStep(s, a);
    match a
    case Decrement(m) => DecrementStep(s, m);
    case IncrPending(m) => CountingStep(s, m);
    case _ => ZeroStep(s, a);
  }

  lemma {:induction false} CarefulRun(ss: seq<Redis>, acts: seq<Action>, n: nat)
    requires IsRun(ss, acts, FillCarefully) && n < |ss|
    ensures CarefulInv(ss[n])
    decreases n
  {
    if n > 0 {
      CarefulRun(ss, acts, n - 1);
      CarefulStep(ss[n - 1], acts[n - 1]);
    } else {
      assert OutstandingMembers(CREATED) == {} && FiredMembers(CREATED) == {};
    }
  }

  lemma AtMostOneFired(s: Redis)
    requires ZeroOnce(s)
    ensures |FiredMembers(s)| <= 1
    ensures |FiredMembers(s)| == 1 <==> exists m :: m in s.members && s.members[m] == Done(true)
  {
    if m :| m in s.members && s.members[m] == Done(true) {
      assert FiredMembers(s) == {m};
    } else {
      assert FiredMembers(s) == {};
    }
  }

  /**
   * If no member is counted in while a worker sits on a 0, the callback is enqueued at most twice, and not before the
   * last member has been counted down.
   */
  lemma AtMostTwice(ss: seq<Redis>, acts: seq<Action>, n: nat)
    requires IsRun(ss, acts, FillCarefully) && n < |ss|
    ensures ss[n].callbacks <= 2
    ensures ss[n].callbacks > 0 ==> EnqueuesDone(ss[n]) && OutstandingMembers(ss[n]) == {}
  {
    var s := ss[n];
    CarefulRun(ss, acts, n);
    AtMostOneFired(s);
    if s.callbacks > 0 {
      if m :| m in s.members && s.members[m] == Done(true) {
        assert s.pending == 0;
      }
    }
  }

  /**
   * Then, once every client is done, the callback has been enqueued exactly when no enqueue was refused: the counter
   * goes up before the unique lock is asked for, and nobody takes it down again.
   */
  lemma CalledIffNoneRefused(ss: seq<Redis>, acts: seq<Action>, n: nat)
    requires IsRun(ss, acts, FillCarefully) && n < |ss| && AllEnded(ss[n])
    ensures ss[n].callbacks > 0 <==> NoneRefused(ss[n])
  {
    var s := ss[n];
    CarefulRun(ss, acts, n);
    if NoneRefused(s) {
      assert OutstandingMembers(s) == {};
    } else {
      var m :| m in s.members && s.members[m].Refused?;
      assert m in OutstandingMembers(s);
      AtMostTwice(ss, acts, n);
    }
  }

  /** In particular, when every member is enqueued before the first one is acknowledged. */
  ghost predicate Phases(s: Redis)
  {
    && ((s.acking || !s.submitter.Idle?) ==> EnqueuesDone(s))
    && (forall m :: m in s.members && !s.acking ==>
          s.members[m].Counting? || s.members[m].Counted? || s.members[m].Refused? || s.members[m].Queued?)
  }

  lemma PhaseStep(s: Redis, a: Action)
    requires Phases(s) && FillThenWork(s, a)
    ensures FillCarefully(s, a) && Phases(After(s, a))
  {
    var t := After(s, a);
    assert forall m :: m in t.members && m !in s.members ==> a == IncrTotal(m);
  }

  lemma {:induction false} FillThenWorkIsCareful(ss: seq<Redis>, acts: seq<Action>, n: nat)
    requires IsRun(ss, acts, FillThenWork) && n < |ss|
    ensures Phases(ss[n])
    ensures forall i {:trigger acts[i]} :: 0 <= i < n ==> FillCarefully(ss[i], acts[i])
    ensures n == |acts| ==> IsRun(ss, acts, FillCarefully)
    decreases n
  {
    if n > 0 {
      FillThenWorkIsCareful(ss, acts, n - 1);
      PhaseStep(ss[n - 1], acts[n - 1]);
    }
  }

  // Reasoning about positions of a run

  /** A condition that holds at `j` and not at `i` is made true by some step in between. */
  lemma {:induction false} Crossing(ss: seq<Redis>, p: Redis -> bool, i: nat, j: nat) returns (k: nat)
    requires i <= j < |ss| && !p(ss[i]) && p(ss[j])
    ensures i <= k < j && !p(ss[k]) && p(ss[k + 1])
    decreases j
  {
    if p(ss[j - 1]) {
      k := Crossing(ss, p, i, j - 1);
    } else {
      k := j - 1;
    }
  }

  lemma {:induction false} Stays(ss: seq<Redis>, p: Redis -> bool, i: nat, n: nat)
    requires i <= n < |ss| && p(ss[i])
    requires forall k :: i <= k < n && p(ss[k]) ==> p(ss[k + 1])
    ensures p(ss[n])
    decreases n
  {
    if n > i {
      Stays(ss, p, i, n - 1);
    }
  }
}
