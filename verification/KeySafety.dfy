/** Exactly when Enqueue calls that interrupt each other can leave a unique key with two live jobs. */
module KeySafety {
  import opened Graph
  import opened Tables
  import Ops = Operations
  import opened Runs
  import Workflow = WorkflowSafety
  import Unique = UniqueLocks
  import opened KeyTouches
  import opened Interleaving
  import opened KeyRace

  /** Steps whose acquisitions are uncontested, and whose releases hit no key in use. */
  ghost predicate IsCalmPath(ss: seq<State>, acts: seq<Action>)
  {
    && |ss| == |acts| + 1
    && forall i {:trigger acts[i]} :: 0 <= i < |acts| ==> Calm(ss[i], acts[i]) && CanStep(ss[i], acts[i], ss[i + 1])
  }

  ghost predicate IsCalmRun(ss: seq<State>, acts: seq<Action>) {
    IsCalmPath(ss, acts) && ss[0] == EMPTY_STATE
  }

  lemma EmptyOk()
    ensures Inv(EMPTY_STATE) && Sound(EMPTY_STATE)
  {
    EmptyIsSound();
  }

  lemma {:induction false} PathKeeps(ss: seq<State>, acts: seq<Action>, n: nat)
    requires IsCalmPath(ss, acts) && n < |ss| && Inv(ss[0]) && Sound(ss[0])
    ensures Inv(ss[n]) && Sound(ss[n])
    decreases n
  {
    if n > 0 {
      PathKeeps(ss, acts, n - 1);
      Step(ss[n - 1], acts[n - 1], ss[n]);
      StepIsSound(ss[n - 1], acts[n - 1], ss[n]);
    }
  }

  lemma EveryRun(ss: seq<State>, acts: seq<Action>, n: nat)
    requires IsCalmRun(ss, acts) && n < |ss|
    ensures Inv(ss[n]) && Sound(ss[n])
  {
    EmptyOk();
    PathKeeps(ss, acts, n);
  }

  lemma NotTwo(s: State)
    requires Unique.Named(s.w.db)
    ensures !TwoLive(s.w.db)
  {
  }

  /** While no acquisition is contested and no release strays, a key never has two live jobs, whatever interleaves. */
  lemma OneLivePerKey(ss: seq<State>, acts: seq<Action>, n: nat)
    requires IsCalmRun(ss, acts) && n < |ss|
    ensures !TwoLive(ss[n].w.db)
  {
    EveryRun(ss, acts, n);
    NotTwo(ss[n]);
  }

  /** Some continuation of such steps from `s` has two live jobs with one key. */
  ghost predicate Doomed(s: State) {
    exists ss: seq<State>, acts :: IsCalmPath(ss, acts) && ss[0] == s && TwoLive(ss[|acts|].w.db)
  }

  lemma DoomedBefore(s: State, act: Action, u: State)
    requires Calm(s, act) && CanStep(s, act, u) && Doomed(u)
    ensures Doomed(s)
  {
    var ss: seq<State>, acts :| IsCalmPath(ss, acts) && ss[0] == u && TwoLive(ss[|acts|].w.db);
    Prepend(s, act, ss, acts);
    assert ([s] + ss)[|acts| + 1] == ss[|acts|];
  }

  lemma CalmAt(ss: seq<State>, acts: seq<Action>, k: nat)
    requires IsCalmPath(ss, acts) && k < |acts|
    ensures Calm(ss[k], acts[k]) && CanStep(ss[k], acts[k], ss[k + 1])
  {
  }

  lemma PrependAt(s: State, act: Action, ss: seq<State>, acts: seq<Action>, i: nat)
    requires IsCalmPath(ss, acts) && Calm(s, act) && CanStep(s, act, ss[0]) && i <= |acts|
    ensures Calm(([s] + ss)[i], ([act] + acts)[i]) && CanStep(([s] + ss)[i], ([act] + acts)[i], ([s] + ss)[i + 1])
  {
    if i > 0 {
      CalmAt(ss, acts, i - 1);
    }
  }

  lemma Prepend(s: State, act: Action, ss: seq<State>, acts: seq<Action>)
    requires IsCalmPath(ss, acts) && Calm(s, act) && CanStep(s, act, ss[0])
    ensures IsCalmPath([s] + ss, [act] + acts)
  {
    var tt, more := [s] + ss, [act] + acts;
    forall i {:trigger more[i]} | 0 <= i < |more| ensures Calm(tt[i], more[i]) && CanStep(tt[i], more[i], tt[i + 1]) {
      PrependAt(s, act, ss, acts, i);
    }
  }

  lemma DoomedNow(s: State, i: JobId, j: JobId)
    requires i != j && Unique.Keyed(s.w.db, i) && Unique.Keyed(s.w.db, j)
    requires Unique.KeyOf(s.w.db.jobs[i]) == Unique.KeyOf(s.w.db.jobs[j])
    ensures Doomed(s)
  {
    assert IsCalmPath([s], []) && [s][0] == s;
  }

  /** `u` is `s` with the job of the call `id` inserted, and other calls and jobs as they were. */
  ghost predicate JobAdded(s: State, id: JobId, u: State)
    requires id in s.calls
  {
    && u.w.db.jobs.Keys == s.w.db.jobs.Keys + {id}
    && Unique.Keyed(u.w.db, id) && Unique.KeyOf(u.w.db.jobs[id]) == s.calls[id].Key()
    && (forall j :: j in s.w.db.jobs && j != id ==> u.w.db.jobs[j] == s.w.db.jobs[j])
    && u.calls == s.calls - {id}
  }

  predicate Rowless(s: State, id: JobId)
    requires id in s.calls
  {
    s.calls[id].env.jobId == id && id !in s.w.db.jobs
  }

  lemma ReadyInserts(s: State, id: JobId, now: int)
    requires id in s.calls && s.calls[id].phase.Ready? && s.calls[id].IsKeyed() && Rowless(s, id)
    ensures JobAdded(s, id, AfterAdvance(s, id, now))
    ensures Doomed(AfterAdvance(s, id, now)) ==> Doomed(s)
  {
    if Doomed(AfterAdvance(s, id, now)) {
      DoomedBefore(s, Advance(id, now), AfterAdvance(s, id, now));
    }
  }

  /** A firm call inserts its job, whoever lives by then. */
  lemma FirmInserts(s: State, id: JobId, now: int) returns (u: State)
    requires id in s.calls && Firm(s.calls[id]) && Rowless(s, id)
    ensures JobAdded(s, id, u) && (Doomed(u) ==> Doomed(s))
  {
    var t := s;
    if s.calls[id].phase.TakingOver? {
      t := AfterAdvance(s, id, now);
      assert t.calls - {id} == s.calls - {id} && t.w.db.jobs == s.w.db.jobs;
      if Doomed(t) {
        DoomedBefore(s, Advance(id, now), t);
      }
    }
    ReadyInserts(t, id, now);
    u := AfterAdvance(t, id, now);
  }

  lemma FirmDooms(s: State, id: JobId, j: JobId, now: int)
    requires id in s.calls && Firm(s.calls[id]) && Rowless(s, id) && j != id
    requires Unique.Keyed(s.w.db, j) && Unique.KeyOf(s.w.db.jobs[j]) == s.calls[id].Key()
    ensures Doomed(s)
  {
    var u := FirmInserts(s, id, now);
    DoomedNow(u, id, j);
  }

  /** Two firm calls of one key both insert their jobs. */
  lemma TwoFirmDoom(s: State, a: JobId, b: JobId, now: int)
    requires a != b && a in s.calls && b in s.calls && Firm(s.calls[a]) && Firm(s.calls[b])
    requires s.calls[a].Key() == s.calls[b].Key() && Rowless(s, a) && Rowless(s, b)
    ensures Doomed(s)
  {
    var u := FirmInserts(s, a, now);
    FirmDooms(u, b, a, now);
  }

  /** A call that reads its own lock row becomes firm. */
  lemma ReadingDooms(s: State, a: JobId, b: JobId, now: int)
    requires a != b && Permitted(s, a) && b in s.calls && Firm(s.calls[b])
    requires s.calls[a].Key() == s.calls[b].Key() && Rowless(s, a) && Rowless(s, b)
    ensures Doomed(s)
  {
    if Firm(s.calls[a]) {
      TwoFirmDoom(s, a, b, now);
    } else {
      var t := AfterAdvance(s, a, now);
      TwoFirmDoom(t, a, b, now);
      DoomedBefore(s, Advance(a, now), t);
    }
  }

  lemma RivalDooms(s: State, id: JobId, other: JobId, now: int, t: State)
    requires CallsOk(s) && Acquires(s, id, now) && t == AfterAdvance(s, id, now)
    requires other != id && Permitted(s, other) && s.calls[other].Key() == s.calls[id].Key()
    ensures Doomed(t)
  {
    if Firm(t.calls[id]) {
      ReadingDooms(t, other, id, now);
    } else {
      ReadingDooms(t, id, other, now);
    }
  }

  lemma ContestedDooms(s: State, id: JobId, now: int)
    requires Inv(s) && Acquires(s, id, now) && Contested(s, id)
    ensures Doomed(AfterAdvance(s, id, now))
  {
    var t := AfterAdvance(s, id, now);
    if j :| Unique.Keyed(s.w.db, j) && Unique.KeyOf(s.w.db.jobs[j]) == s.calls[id].Key() {
      FirmDooms(t, id, j, now);
    } else {
      var other :| other != id && Permitted(s, other) && s.calls[other].Key() == s.calls[id].Key();
      RivalDooms(s, id, other, now, t);
    }
  }

  lemma NeverDoomed(s: State)
    requires Inv(s) && Sound(s)
    ensures !Doomed(s)
  {
    forall ss: seq<State>, acts | IsCalmPath(ss, acts) && ss[0] == s ensures !TwoLive(ss[|acts|].w.db) {
      PathKeeps(ss, acts, |acts|);
      NotTwo(ss[|acts|]);
    }
  }

  /**
   * An acquisition is safe exactly when it is uncontested: if the key has a live job, or another call has acquired it
   * and not inserted its job yet, then some continuation ends with two live jobs for the key, otherwise none does.
   */
  lemma ContestedIff(ss: seq<State>, acts: seq<Action>, n: nat, id: JobId, now: int)
    requires IsCalmRun(ss, acts) && n < |ss| && Acquires(ss[n], id, now)
    ensures Contested(ss[n], id) <==> Doomed(AfterAdvance(ss[n], id, now))
  {
    EveryRun(ss, acts, n);
    if Contested(ss[n], id) {
      ContestedDooms(ss[n], id, now);
    } else {
      AdvanceStep(ss[n], id, now);
      AdvanceIsSound(ss[n], id, now, AfterAdvance(ss[n], id, now));
      NeverDoomed(AfterAdvance(ss[n], id, now));
    }
  }

  /** What a committed transaction inserts under one of its keys is live. */
  lemma TransactionInserts(w: World, op: Op, w': World, key: string) returns (j: JobId)
    requires Allowed(w, op) && Runs.Next(w, op, w') && w' != w && key in KeysOf(op)
    ensures j !in w.declared && Unique.Keyed(w'.db, j) && Unique.KeyOf(w'.db.jobs[j]) == key
  {
    if op.EnqueueInBatch? {
      j := op.env.jobId;
    } else {
      var env :| env in op.envs && env.uniqueKey != "" && LockKey(env.queue, env.uniqueKey) == key;
      j := env.jobId;
      Workflow.WorkflowInserted(w.db, op.envs, op.now);
    }
  }

  /** One of the keys of the transaction belongs to a call that has decided to insert its job. */
  ghost predicate Meets(s: State, op: Op) {
    exists id :: id in s.calls && Firm(s.calls[id]) && s.calls[id].Key() in KeysOf(op)
  }

  /**
   * The same for the transactions that enqueue workflows and batch members: one that commits is safe exactly when
   * none of its keys belongs to a call that has decided to insert its job.
   */
  lemma TransactionIff(ss: seq<State>, acts: seq<Action>, n: nat, op: Op, t: State)
    requires IsCalmRun(ss, acts) && n < |ss| && CanStep(ss[n], Transact(op), t) && t.w != ss[n].w
    requires Unique.LockAllowed(ss[n].w, op)
    ensures Meets(ss[n], op) <==> Doomed(t)
  {
    var s := ss[n];
    EveryRun(ss, acts, n);
    if id :| id in s.calls && Firm(s.calls[id]) && s.calls[id].Key() in KeysOf(op) {
      var j := TransactionInserts(s.w, op, t.w, s.calls[id].Key());
      TransactLeaves(s.w, op, t.w, id);
      FirmDooms(t, id, j, 0);
    } else {
      TransactStep(s, op, t);
      TransactIsSound(s, op, t);
      NeverDoomed(t);
    }
  }

  // When callers keep out of each other's way

  /** Nobody else enqueues with the key while a call of that key is under way, and locks outlive their jobs. */
  ghost predicate Apart(s: State, act: Action)
  {
    match act
    case Begin(env, now) =>
      forall id :: id in s.calls && s.calls[id].IsKeyed() && env.uniqueKey != "" ==>
        s.calls[id].Key() != LockKey(env.queue, env.uniqueKey)
    case Advance(id, now) => Unique.NoneExpired(s.w.db, now)
    case Transact(op) =>
      && Unique.LockAllowed(s.w, op)
      && forall id :: id in s.calls && s.calls[id].IsKeyed() ==> s.calls[id].Key() !in KeysOf(op)
    case _ => true
  }

  /** Besides, no report or cancellation releases a key in use. */
  ghost predicate Serial(s: State, act: Action) {
    Apart(s, act) && (act.Commit? && act.n in s.reports ==> !Strays(s, act.n))
  }

  /** What a call has read of its lock row is still true, unless the row has gone. */
  ghost predicate ReadsHold(s: State) {
    forall id :: id in s.calls && s.calls[id].phase.Checking? && s.calls[id].Key() in s.w.db.locks ==>
      s.w.db.locks[s.calls[id].Key()] == Lock(s.calls[id].phase.holder, s.calls[id].phase.expiresAt)
  }

  predicate SameKey(c: Call, d: Call) {
    c.IsKeyed() && d.IsKeyed() && c.Key() == d.Key()
  }

  ghost predicate OneCallPerKey(s: State) {
    forall i, j :: i in s.calls && j in s.calls && SameKey(s.calls[i], s.calls[j]) ==> i == j
  }

  ghost predicate SerialOk(s: State) {
    OneCallPerKey(s) && ReadsHold(s)
  }

  lemma SerialIsCalm(s: State, act: Action)
    requires Inv(s) && SerialOk(s) && Serial(s, act)
    ensures Calm(s, act)
  {
    if act.Advance? && Acquires(s, act.id, act.now) {
      var c := s.calls[act.id];
      if j :| Unique.Keyed(s.w.db, j) && Unique.KeyOf(s.w.db.jobs[j]) == c.Key() {
        assert false;
      }
    }
  }

  /** A call writes its own lock row, from which no other call has read. */
  lemma LocksOfOthers(s: State, id: JobId, locks: map<string, Lock>, calls: map<JobId, Call>)
    requires OneCallPerKey(s) && ReadsHold(s) && CallsOk(s) && id in s.calls && s.calls[id].IsKeyed()
    requires forall k :: k != s.calls[id].Key() ==>
      (k in locks <==> k in s.w.db.locks) && (k in locks ==> locks[k] == s.w.db.locks[k])
    requires id in calls && calls == s.calls[id := s.calls[id].(phase := calls[id].phase)] && !calls[id].phase.Checking?
    ensures var t := WithLocks(s, locks).(calls := calls); OneCallPerKey(t) && ReadsHold(t)
  {
    var t := WithLocks(s, locks).(calls := calls);
    forall j | j in calls ensures calls[j].env == s.calls[j].env {
    }
    forall j | j in calls && calls[j].phase.Checking? ensures j != id && calls[j].Key() != s.calls[id].Key() {
    }
  }

  lemma SerialMove(s: State, id: JobId, phase: Phase)
    requires SerialOk(s) && id in s.calls
    requires phase.Checking? && s.calls[id].Key() in s.w.db.locks ==>
               s.w.db.locks[s.calls[id].Key()] == Lock(phase.holder, phase.expiresAt)
    ensures SerialOk(Move(s, id, phase))
  {
    var t := Move(s, id, phase);
    forall j | j in t.calls
      ensures j in s.calls && t.calls[j].env == s.calls[j].env && (j != id ==> t.calls[j] == s.calls[j])
    {
    }
  }

  lemma SerialEnd(s: State, id: JobId, w: World)
    requires SerialOk(s) && w.db.locks == s.w.db.locks
    ensures SerialOk(End(s.(w := w), id))
  {
  }

  lemma SerialAdvance(s: State, id: JobId, now: int)
    requires SerialOk(s) && CallsOk(s) && id in s.calls
    ensures SerialOk(AfterAdvance(s, id, now))
  {
    var t := AfterAdvance(s, id, now);
    if s.calls[id].phase.Inserting? || s.calls[id].phase.TakingOver? {
      LocksOfOthers(s, id, t.w.db.locks, t.calls);
    } else if id in t.calls {
      SerialMove(s, id, t.calls[id].phase);
    } else {
      SerialEnd(s, id, t.w);
    }
  }

  lemma SerialTransact(s: State, op: Op, t: State)
    requires SerialOk(s) && CallsOk(s) && t.calls == s.calls && TouchesKeys(s.w.db, KeysOf(op), IdsOf(op), t.w.db)
    requires forall id :: id in s.calls && s.calls[id].IsKeyed() ==> s.calls[id].Key() !in KeysOf(op)
    ensures SerialOk(t)
  {
  }

  /** Reports and cancellations write no lock row. */
  lemma CommitFreesLocks(s: State, n: nat, now: int, nextRun: int, callbackId: JobId, t: State)
    requires CanCommit(s, n, now, nextRun, callbackId, t)
    ensures forall k :: k in t.w.db.locks ==> k in s.w.db.locks && t.w.db.locks[k] == s.w.db.locks[k]
  {
    var r := s.reports[n];
    if r.kind.Acks? {
      var e := Ops.AckWith(s.w.db, r.id, r.Seen(), now, callbackId);
      assert e.Some? ==> t.w.db == e.value.db;
    }
  }

  lemma SerialFreed(s: State, t: State)
    requires SerialOk(s) && t.calls == s.calls
    requires forall k :: k in t.w.db.locks ==> k in s.w.db.locks && t.w.db.locks[k] == s.w.db.locks[k]
    ensures SerialOk(t)
  {
  }

  lemma SerialBegin(s: State, env: Envelope, now: int, t: State)
    requires SerialOk(s) && Apart(s, Begin(env, now)) && env.jobId !in s.calls && t == AfterBegin(s, env, now)
    ensures SerialOk(t)
  {
    assert forall id :: id in s.calls ==> t.calls[id] == s.calls[id];
  }

  lemma SerialStep(s: State, act: Action, t: State)
    requires Inv(s) && SerialOk(s) && Serial(s, act) && CanStep(s, act, t)
    ensures SerialOk(t)
  {
    match act
    case Begin(env, now) => SerialBegin(s, env, now, t);
    case Advance(id, now) => SerialAdvance(s, id, now);
    case Commit(n, now, nextRun, callbackId) =>
      CommitFreesLocks(s, n, now, nextRun, callbackId, t);
      SerialFreed(s, t);
    case Transact(op) =>
      TransactTouches(s.w, op, t.w);
      SerialTransact(s, op, t);
    case Abandon(id) => SerialEnd(s, id, s.w);
    case _ =>
  }

  lemma SerialKeeps(s: State, act: Action, t: State)
    requires Inv(s) && Sound(s) && SerialOk(s) && Serial(s, act) && CanStep(s, act, t)
    ensures Calm(s, act) && Inv(t) && Sound(t) && SerialOk(t)
  {
    SerialIsCalm(s, act);
    SerialStep(s, act, t);
    Step(s, act, t);
    StepIsSound(s, act, t);
  }

  ghost predicate IsSerialPath(ss: seq<State>, acts: seq<Action>)
  {
    && |ss| == |acts| + 1
    && forall i {:trigger acts[i]} :: 0 <= i < |acts| ==> Serial(ss[i], acts[i]) && CanStep(ss[i], acts[i], ss[i + 1])
  }

  ghost predicate IsSerialRun(ss: seq<State>, acts: seq<Action>) {
    IsSerialPath(ss, acts) && ss[0] == EMPTY_STATE
  }

  lemma {:induction false} SerialPath(ss: seq<State>, acts: seq<Action>, n: nat)
    requires IsSerialPath(ss, acts) && n < |ss| && Inv(ss[0]) && Sound(ss[0]) && SerialOk(ss[0])
    ensures Inv(ss[n]) && Sound(ss[n]) && SerialOk(ss[n])
    decreases n
  {
    if n > 0 {
      SerialPath(ss, acts, n - 1);
      SerialKeeps(ss[n - 1], acts[n - 1], ss[n]);
    }
  }

  lemma SerialRunIsCalm(ss: seq<State>, acts: seq<Action>)
    requires IsSerialRun(ss, acts)
    ensures IsCalmRun(ss, acts)
  {
    EmptyOk();
    forall i {:trigger acts[i]} | 0 <= i < |acts| ensures Calm(ss[i], acts[i]) {
      SerialPath(ss, acts, i);
      SerialIsCalm(ss[i], acts[i]);
    }
  }

  /**
   * If nobody enqueues with a key while another call with that key is under way, and no report or cancellation releases
   * a key in use, the key never has two live jobs.
   */
  lemma OneAtATime(ss: seq<State>, acts: seq<Action>, n: nat)
    requires IsSerialRun(ss, acts) && n < |ss|
    ensures IsCalmRun(ss, acts) && !TwoLive(ss[n].w.db)
  {
    SerialRunIsCalm(ss, acts);
    OneLivePerKey(ss, acts, n);
  }

  lemma Extend(ss: seq<State>, acts: seq<Action>, act: Action, t: State) returns (tt: seq<State>, more: seq<Action>)
    requires IsCalmRun(ss, acts) && Calm(ss[|acts|], act) && CanStep(ss[|acts|], act, t)
    ensures IsCalmRun(tt, more) && tt[|more|] == t
  {
    tt, more := ss + [t], acts + [act];
  }

  /** Both calls have begun, and the first has inserted its lock row. */
  function Racing(a: Envelope, b: Envelope, now: int, phaseA: Phase, phaseB: Phase): State {
    var i, j := a.jobId, b.jobId;
    var lock := Lock(i, Ops.LockExpires(a, now));
    var locks := if phaseA.Inserting? then map[] else map[LockKey(a.queue, a.uniqueKey) := lock];
    State(EMPTY.(declared := map[i := {}, j := {}], db := EMPTY.db.(locks := locks)),
          map[i := Call(a, Ops.LockExpires(a, now), phaseA), j := Call(b, Ops.LockExpires(b, now), phaseB)],
          map[], {})
  }

  lemma BothBegin(a: Envelope, b: Envelope, now: int) returns (ss: seq<State>, acts: seq<Action>)
    requires a.jobId != b.jobId && a.uniqueKey != "" && b.uniqueKey != ""
    ensures IsCalmRun(ss, acts) && ss[|acts|] == Racing(a, b, now, Inserting, Inserting)
  {
    var s1 := AfterBegin(EMPTY_STATE, a, now);
    ss, acts := Extend([EMPTY_STATE], [], Begin(a, now), s1);
    ss, acts := Extend(ss, acts, Begin(b, now), AfterBegin(s1, b, now));
  }

  lemma FirstLocks(a: Envelope, b: Envelope, now: int) returns (ss: seq<State>, acts: seq<Action>)
    requires a.jobId != b.jobId && a.uniqueKey != "" && b.uniqueKey != ""
    ensures IsCalmRun(ss, acts) && ss[|acts|] == Racing(a, b, now, Reading, Inserting)
  {
    var s := Racing(a, b, now, Inserting, Inserting);
    ss, acts := BothBegin(a, b, now);
    assert !Contested(s, a.jobId);
    assert AfterAdvance(s, a.jobId, now) == Racing(a, b, now, Reading, Inserting);
    ss, acts := Extend(ss, acts, Advance(a.jobId, now), Racing(a, b, now, Reading, Inserting));
  }

  /**
   * And any two calls of one key can race from empty tables on: the second finds the lock row of the first and no job,
   * takes the lock over, and both jobs get inserted.
   */
  lemma TwoCallsRace(a: Envelope, b: Envelope, now: int) returns (ss: seq<State>, acts: seq<Action>)
    requires a.jobId != b.jobId && a.uniqueKey != "" && a.queue == b.queue && a.uniqueKey == b.uniqueKey
    ensures IsCalmRun(ss, acts) && Acquires(ss[|acts|], b.jobId, now) && Contested(ss[|acts|], b.jobId)
    ensures Doomed(AfterAdvance(ss[|acts|], b.jobId, now))
  {
    var i, j := a.jobId, b.jobId;
    ss, acts := FirstLocks(a, b, now);
    var s1, s2 := Racing(a, b, now, Reading, Inserting), Racing(a, b, now, Reading, Reading);
    var s3 := Racing(a, b, now, Reading, Checking(i, Ops.LockExpires(a, now)));
    assert AfterAdvance(s1, j, now) == s2;
    ss, acts := Extend(ss, acts, Advance(j, now), s2);
    assert AfterAdvance(s2, j, now) == s3;
    ss, acts := Extend(ss, acts, Advance(j, now), s3);
    assert Permitted(s3, i) && Acquires(s3, j, now);
    ContestedIff(ss, acts, |acts|, j, now);
  }
}
