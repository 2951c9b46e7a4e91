/** Exactly when a report or cancellation that goes by what it read earlier leaves a unique key with two live jobs. */
module KeyRelease {
  import opened Graph
  import opened Tables
  import opened Cascade
  import Ops = Operations
  import opened Runs
  import opened Reports
  import Unique = UniqueLocks
  import opened Interleaving
  import opened KeyRace
  import opened KeySafety

  /** Some continuation in which callers keep out of each other's way has two live jobs with one key. */
  ghost predicate SeriallyDoomed(s: State) {
    exists ss: seq<State>, acts :: IsSerialPath(ss, acts) && ss[0] == s && TwoLive(ss[|acts|].w.db)
  }

  lemma DoomedAt(s: State)
    requires TwoLive(s.w.db)
    ensures SeriallyDoomed(s)
  {
    assert IsSerialPath([s], []) && [s][0] == s;
  }

  lemma DoomedEarlier(s: State, act: Action, u: State)
    requires Serial(s, act) && CanStep(s, act, u) && SeriallyDoomed(u)
    ensures SeriallyDoomed(s)
  {
    var ss: seq<State>, acts :| IsSerialPath(ss, acts) && ss[0] == u && TwoLive(ss[|acts|].w.db);
    SerialPrepend(s, act, ss, acts);
    assert ([s] + ss)[|acts| + 1] == ss[|acts|];
  }

  lemma SerialAt(ss: seq<State>, acts: seq<Action>, k: nat)
    requires IsSerialPath(ss, acts) && k < |acts|
    ensures Serial(ss[k], acts[k]) && CanStep(ss[k], acts[k], ss[k + 1])
  {
  }

  lemma SerialPrepend(s: State, act: Action, ss: seq<State>, acts: seq<Action>)
    requires IsSerialPath(ss, acts) && Serial(s, act) && CanStep(s, act, ss[0])
    ensures IsSerialPath([s] + ss, [act] + acts)
  {
    var tt, more := [s] + ss, [act] + acts;
    forall i {:trigger more[i]} | 0 <= i < |more| ensures Serial(tt[i], more[i]) && CanStep(tt[i], more[i], tt[i + 1]) {
      if i > 0 {
        SerialAt(ss, acts, i - 1);
      }
    }
  }

  // A live job without a lock

  /** A point in time before any lock runs out. */
  lemma {:induction false} Early(locks: map<string, Lock>, keys: set<string>) returns (now: int)
    requires keys <= locks.Keys
    ensures forall k :: k in keys ==> now < locks[k].expiresAt
    decreases keys
  {
    if keys == {} {
      now := 0;
    } else {
      var k :| k in keys;
      var before := Early(locks, keys - {k});
      now := if before < locks[k].expiresAt then before else locks[k].expiresAt - 1;
    }
  }

  /** A live job whose key is free, and with whose key no call is under way. */
  ghost predicate Bare(s: State, j: JobId) {
    && Unique.Keyed(s.w.db, j) && Unique.KeyOf(s.w.db.jobs[j]) !in s.w.db.locks
    && forall i :: i in s.calls && s.calls[i].IsKeyed() ==> s.calls[i].Key() != Unique.KeyOf(s.w.db.jobs[j])
  }

  /** An Enqueue with the key of a bare job, and nothing else, in three statements. */
  lemma BareDooms(s: State, j: JobId)
    requires Bare(s, j)
    ensures SeriallyDoomed(s)
  {
    var id := Unused(s.w.declared.Keys + s.w.db.jobs.Keys + s.calls.Keys);
    var now := Early(s.w.db.locks, s.w.db.locks.Keys);
    var env := Envelope(id, s.w.db.jobs[j].queue, "", s.w.db.jobs[j].uniqueKey, 0, 1, None, 0, [], []);
    var s1 := AfterBegin(s, env, now);
    var s2 := AfterAdvance(s1, id, now);
    var s3 := AfterAdvance(s2, id, now);
    LastStatement(s2, id, j, now, s3);
    DoomedEarlier(s2, Advance(id, now), s3);
    DoomedEarlier(s1, Advance(id, now), s2);
    DoomedEarlier(s, Begin(env, now), s1);
  }

  lemma LastStatement(s2: State, id: JobId, j: JobId, now: int, s3: State)
    requires id in s2.calls && s2.calls[id].IsKeyed() && s2.calls[id].phase.Reading? && id !in s2.w.db.jobs
    requires Owns(s2.w.db, s2.calls[id].Key(), id) && s3 == AfterAdvance(s2, id, now) && s2.calls[id].env.jobId == id
    requires Unique.NoneExpired(s2.w.db, now)
    requires Unique.Keyed(s2.w.db, j) && Unique.KeyOf(s2.w.db.jobs[j]) == s2.calls[id].Key()
    ensures SeriallyDoomed(s3)
  {
    var s4 := AfterAdvance(s3, id, now);
    assert id !in s3.w.db.jobs && s3.calls[id].env == s2.calls[id].env && s3.calls[id].phase.Ready?;
    assert s4.w.db.jobs[id] == Ops.EnqueuedRow(s3.w.db.jobs, s3.calls[id].env, now);
    assert Unique.Keyed(s4.w.db, j) && Unique.Keyed(s4.w.db, id) && id != j;
    assert Unique.KeyOf(s4.w.db.jobs[id]) == Unique.KeyOf(s4.w.db.jobs[j]);
    DoomedAt(s4);
    DoomedEarlier(s3, Advance(id, now), s4);
  }

  // Releases that stray

  lemma FreesDeletes(s: State, n: nat, now: int, nextRun: int, callbackId: JobId, t: State)
    requires CanCommit(s, n, now, nextRun, callbackId, t) && FreesKey(s.w.db, s.reports[n])
    ensures FreedKey(s.reports[n]) !in t.w.db.locks
  {
    var r, c := s.reports[n], s.reports[n].Seen();
    if r.kind.Acks? {
      var e := Ops.AckWith(s.w.db, r.id, c, now, callbackId);
      var u := Ops.ResolveDependencies(Ops.MarkProcessedWith(s.w.db, r.id, c), r.id);
      assert u.jobs.Keys == s.w.db.jobs.Keys && u.batches == s.w.db.batches;
      assert e.Some? && t.w.db == e.value.db;
    }
  }

  /** A release strays only when the row has gone or has finished, and then it changes no live job. */
  lemma StrayKeepsLive(s: State, n: nat, now: int, nextRun: int, callbackId: JobId, t: State, j: JobId)
    requires Inv(s) && Sound(s) && CanCommit(s, n, now, nextRun, callbackId, t) && Strays(s, n)
    requires Unique.Keyed(s.w.db, j) && j != s.reports[n].id
    ensures Unique.Keyed(t.w.db, j) && t.w.db.jobs[j] == s.w.db.jobs[j]
  {
    var r := s.reports[n];
    assert ReportOk(s, r);
    if Stale(s.w.db, r) {
      StaleDoes(s.w, r, now, nextRun, callbackId, t.w);
      StaleAddsAtMost(s.w, r, now, callbackId, t.w);
    } else {
      StrayFinished(s, n);
      NothingBelow(s.w, r.id);
      KilledNothingIs(Ops.DeleteWith(s.w.db, r.id, r.Seen()), t.w.db);
    }
  }

  lemma StrayFinished(s: State, n: nat)
    requires Inv(s) && Sound(s) && n in s.reports && Strays(s, n) && !Stale(s.w.db, s.reports[n])
    ensures var r := s.reports[n]; r.kind.Cancels? && r.id in s.w.db.jobs && !s.w.db.jobs[r.id].Live()
  {
    var r := s.reports[n];
    assert ReportOk(s, r);
    assert r.read.Some? && r.id in s.w.db.jobs;
    if s.w.db.jobs[r.id].Live() {
      assert Unique.Keyed(s.w.db, r.id) && Unique.KeyOf(s.w.db.jobs[r.id]) == FreedKey(r);
      if i :| i in s.calls && s.calls[i].IsKeyed() && s.calls[i].phase.Ready? && s.calls[i].Key() == FreedKey(r) {
        assert Permitted(s, i);
      }
      assert false;
    }
  }

  lemma ReadyDooms(t: State, i: JobId)
    requires i in t.calls && t.calls[i].IsKeyed() && t.calls[i].phase.Ready? && t.calls[i].env.jobId == i
    requires i !in t.w.db.jobs && t.calls[i].Key() !in t.w.db.locks && OneCallPerKey(t)
    ensures SeriallyDoomed(t)
  {
    var now := Early(t.w.db.locks, t.w.db.locks.Keys);
    var u := AfterAdvance(t, i, now);
    assert Unique.Keyed(u.w.db, i) && Unique.KeyOf(u.w.db.jobs[i]) == t.calls[i].Key();
    BareDooms(u, i);
    DoomedEarlier(t, Advance(i, now), u);
  }

  lemma LiveDooms(t: State, j: JobId)
    requires Unique.Keyed(t.w.db, j) && Unique.KeyOf(t.w.db.jobs[j]) !in t.w.db.locks && OneCallPerKey(t)
    ensures SeriallyDoomed(t)
  {
    if i :| i in t.calls && t.calls[i].IsKeyed() && t.calls[i].Key() == Unique.KeyOf(t.w.db.jobs[j]) {
      var u := End(t, i);
      BareDooms(u, j);
      DoomedEarlier(t, Abandon(i), u);
    } else {
      BareDooms(t, j);
    }
  }

  lemma StrayDooms(s: State, n: nat, now: int, nextRun: int, callbackId: JobId, t: State)
    requires Inv(s) && Sound(s) && SerialOk(s) && CanCommit(s, n, now, nextRun, callbackId, t) && Strays(s, n)
    ensures SeriallyDoomed(t)
  {
    var key, id := FreedKey(s.reports[n]), s.reports[n].id;
    FreesDeletes(s, n, now, nextRun, callbackId, t);
    CommitIsSound(s, n, now, nextRun, callbackId, t);
    if j :| j != id && Unique.Keyed(s.w.db, j) && Unique.KeyOf(s.w.db.jobs[j]) == key {
      StrayKeepsLive(s, n, now, nextRun, callbackId, t, j);
      LiveDooms(t, j);
    } else {
      var i :| i in s.calls && s.calls[i].IsKeyed() && s.calls[i].phase.Ready? && s.calls[i].Key() == key;
      ReadyDooms(t, i);
    }
  }

  lemma NeverSeriallyDoomed(s: State)
    requires Inv(s) && Sound(s) && SerialOk(s)
    ensures !SeriallyDoomed(s)
  {
    forall ss: seq<State>, acts | IsSerialPath(ss, acts) && ss[0] == s ensures !TwoLive(ss[|acts|].w.db) {
      SerialPath(ss, acts, |acts|);
      NotTwo(ss[|acts|]);
    }
  }

  /**
   * The transaction of a report or cancellation is safe for its key exactly when the key it has read, if it releases
   * it, is not in use: if it is, some continuation of calls that keep out of each other's way ends with two live jobs,
   * otherwise none does.
   */
  lemma ReleaseIff(ss: seq<State>, acts: seq<Action>, k: nat, n: nat, now: int, nextRun: int, callbackId: JobId,
                   t: State)
    requires IsSerialRun(ss, acts) && k < |ss| && CanCommit(ss[k], n, now, nextRun, callbackId, t)
    ensures Strays(ss[k], n) <==> SeriallyDoomed(t)
  {
    EmptyOk();
    SerialPath(ss, acts, k);
    if Strays(ss[k], n) {
      StrayDooms(ss[k], n, now, nextRun, callbackId, t);
    } else {
      SerialKeeps(ss[k], Commit(n, now, nextRun, callbackId), t);
      NeverSeriallyDoomed(t);
    }
  }

  // When nobody cancels under a report

  /** Callers keep apart, rows stay while a call about them is under way, and only unfinished jobs are cancelled. */
  ghost predicate Orderly(s: State, act: Action)
  {
    && Apart(s, act) && LeavesReports(s, act)
    && (act.Commit? && act.n in s.reports && s.reports[act.n].kind.Cancels? ==> Unfinished(s.w.db, s.reports[act.n].id))
  }

  predicate Unfinished(db: Database, id: JobId) {
    id in db.jobs ==> db.jobs[id].Live()
  }

  lemma OrderlyIsSerial(s: State, act: Action)
    requires Inv(s) && Sound(s) && NoneStale(s) && Orderly(s, act)
    ensures Serial(s, act)
  {
    if act.Commit? && act.n in s.reports && Strays(s, act.n) {
      StrayFinished(s, act.n);
    }
  }

  ghost predicate IsOrderlyRun(ss: seq<State>, acts: seq<Action>)
  {
    && |ss| == |acts| + 1 && ss[0] == EMPTY_STATE
    && forall i {:trigger acts[i]} :: 0 <= i < |acts| ==> Orderly(ss[i], acts[i]) && CanStep(ss[i], acts[i], ss[i + 1])
  }

  lemma OrderlyKeeps(s: State, act: Action, t: State)
    requires Inv(s) && Sound(s) && SerialOk(s) && NoneStale(s) && Orderly(s, act) && CanStep(s, act, t)
    ensures Inv(t) && Sound(t) && SerialOk(t) && NoneStale(t)
  {
    OrderlyIsSerial(s, act);
    SerialKeeps(s, act, t);
    StepLeavesRows(s, act, t);
  }

  lemma {:induction false} OrderlyRun(ss: seq<State>, acts: seq<Action>, n: nat)
    requires IsOrderlyRun(ss, acts) && n < |ss|
    ensures Inv(ss[n]) && Sound(ss[n]) && SerialOk(ss[n]) && NoneStale(ss[n])
    decreases n
  {
    if n > 0 {
      OrderlyRun(ss, acts, n - 1);
      OrderlyKeeps(ss[n - 1], acts[n - 1], ss[n]);
    } else {
      EmptyOk();
    }
  }

  /**
   * If nobody enqueues with a key while a call with that key is under way, locks outlive their jobs, only unfinished
   * jobs are cancelled, and none while a call about it is between read and transaction, no key has two live jobs.
   */
  lemma OrderlyCallersAreSafe(ss: seq<State>, acts: seq<Action>, n: nat)
    requires IsOrderlyRun(ss, acts) && n < |ss|
    ensures IsSerialRun(ss, acts) && !TwoLive(ss[n].w.db)
  {
    forall i {:trigger acts[i]} | 0 <= i < |acts| ensures Serial(ss[i], acts[i]) {
      OrderlyRun(ss, acts, i);
      OrderlyIsSerial(ss[i], acts[i]);
    }
    OneAtATime(ss, acts, n);
  }

  // A release that strays

  lemma Then(ss: seq<State>, acts: seq<Action>, act: Action, t: State) returns (tt: seq<State>, more: seq<Action>)
    requires IsSerialRun(ss, acts) && Serial(ss[|acts|], act) && CanStep(ss[|acts|], act, t)
    ensures IsSerialRun(tt, more) && tt[|more|] == t
  {
    tt, more := ss + [t], acts + [act];
  }

  /** The state after an Enqueue that met no lock and that nothing interrupted. */
  function AfterEnqueueAlone(s: State, env: Envelope, now: int): State {
    var row, lock := Ops.EnqueuedRow(s.w.db.jobs, env, now), Lock(env.jobId, Ops.LockExpires(env, now));
    s.(w := s.w.(declared := s.w.declared[env.jobId := {}],
                 db := s.w.db.(jobs := s.w.db.jobs[env.jobId := row],
                               locks := s.w.db.locks[LockKey(env.queue, env.uniqueKey) := lock])))
  }

  ghost predicate NoneLive(db: Database) {
    forall j :: !Unique.Keyed(db, j)
  }

  lemma StillNoneLive(s: Database, t: Database, now: int)
    requires NoneLive(s) && t.jobs == s.jobs
    ensures NoneLive(t) && Unique.NoneExpired(t, now)
  {
    forall j ensures !Unique.Keyed(t, j) {
      assert !Unique.Keyed(s, j);
    }
  }

  /** Its statements up to the insertion of the job. */
  lemma LockAlone(ss: seq<State>, acts: seq<Action>, s: State, env: Envelope, now: int, s1: State, s2: State, s3: State)
    returns (tt: seq<State>, more: seq<Action>)
    requires IsSerialRun(ss, acts) && s == ss[|acts|] && s.calls == map[]
    requires Fresh(s.w, env.jobId) && env.uniqueKey != "" && LockKey(env.queue, env.uniqueKey) !in s.w.db.locks
    requires NoneLive(s.w.db) && s1 == AfterBegin(s, env, now)
    requires s2 == AfterAdvance(s1, env.jobId, now) && s3 == AfterAdvance(s2, env.jobId, now)
    ensures IsSerialRun(tt, more) && tt[|more|] == s3 && Unique.NoneExpired(s3.w.db, now)
  {
    StillNoneLive(s.w.db, s1.w.db, now);
    StillNoneLive(s1.w.db, s2.w.db, now);
    StillNoneLive(s2.w.db, s3.w.db, now);
    tt, more := Then(ss, acts, Begin(env, now), s1);
    tt, more := Then(tt, more, Advance(env.jobId, now), s2);
    tt, more := Then(tt, more, Advance(env.jobId, now), s3);
  }

  lemma EnqueueAlone(ss: seq<State>, acts: seq<Action>, s: State, env: Envelope, now: int)
    returns (tt: seq<State>, more: seq<Action>)
    requires IsSerialRun(ss, acts) && s == ss[|acts|] && s.calls == map[]
    requires Fresh(s.w, env.jobId) && env.uniqueKey != "" && LockKey(env.queue, env.uniqueKey) !in s.w.db.locks
    requires NoneLive(s.w.db)
    ensures IsSerialRun(tt, more) && tt[|more|] == AfterEnqueueAlone(s, env, now)
  {
    var id := env.jobId;
    var s1 := AfterBegin(s, env, now);
    var s2 := AfterAdvance(s1, id, now);
    var s3 := AfterAdvance(s2, id, now);
    tt, more := LockAlone(ss, acts, s, env, now, s1, s2, s3);
    tt, more := Then(tt, more, Advance(id, now), AfterAdvance(s3, id, now));
    assert s3.calls - {id} == map[];
  }

  /**
   * The worker of `id` is about to acknowledge it and has read its row; an administrator has cancelled it meanwhile.
   */
  lemma CancelledUnderReport(ss: seq<State>, acts: seq<Action>, s: State, id: JobId, row: Job)
    returns (tt: seq<State>, more: seq<Action>)
    requires IsSerialRun(ss, acts) && s == ss[|acts|] && s.calls == map[] && s.reports == map[]
    requires s.w.db.jobs == map[id := row] && row.status.Pending? && s.w.db.deps == {} && id in s.w.declared
    ensures IsSerialRun(tt, more)
    ensures tt[|more|] == s.(w := s.w.(db := Ops.DeleteWith(s.w.db, id, ColumnsOf(row))),
                             reports := map[0 := Report(Acks, id, Some(ColumnsOf(row)))])
  {
    tt, more := TakenAndRead(ss, acts, s, id, row);
    var held := tt[|more|];
    var gone := Ops.DeleteWith(s.w.db, id, ColumnsOf(row));
    var u := s.(w := s.w.(db := gone), reports := map[0 := Report(Acks, id, Some(ColumnsOf(row)))]);
    var cb := Unused(s.w.declared.Keys + s.w.db.jobs.Keys);
    assert Ops.DeleteWith(held.w.db, id, ColumnsOf(row)) == gone;
    assert Descendants(held.w.db.deps, id) == {};
    KilledNothing(gone);
    assert held.reports - {1} == u.reports;
    assert CanCommit(held, 1, 0, 0, cb, u);
    tt, more := Then(tt, more, Commit(1, 0, 0, cb), u);
  }

  lemma Taken(ss: seq<State>, acts: seq<Action>, s: State, id: JobId, row: Job)
    returns (tt: seq<State>, more: seq<Action>)
    requires IsSerialRun(ss, acts) && s == ss[|acts|] && s.w.db.jobs == map[id := row] && row.status.Pending?
    ensures IsSerialRun(tt, more)
    ensures tt[|more|] == s.(w := s.w.(db := s.w.db.(jobs := map[id := row.(status := Running)])))
  {
    var take := Dequeue(row.queue, row.Tags(), row.runAt, [id]);
    assert Ops.FirstEligible(s.w.db.jobs, [id], row.Tags()) == Some(id);
    var t := s.(w := s.w.(db := s.w.db.(jobs := map[id := row.(status := Running)])));
    tt, more := Then(ss, acts, Transact(take), t);
  }

  lemma TakenAndRead(ss: seq<State>, acts: seq<Action>, s: State, id: JobId, row: Job)
    returns (tt: seq<State>, more: seq<Action>)
    requires IsSerialRun(ss, acts) && s == ss[|acts|] && s.calls == map[] && s.reports == map[]
    requires s.w.db.jobs == map[id := row] && row.status.Pending? && id in s.w.declared
    ensures IsSerialRun(tt, more)
    ensures tt[|more|] == s.(w := s.w.(db := s.w.db.(jobs := map[id := row.(status := Running)])),
                             reports := map[0 := Report(Acks, id, Some(ColumnsOf(row))),
                                            1 := Report(Cancels, id, Some(ColumnsOf(row)))])
  {
    tt, more := Taken(ss, acts, s, id, row);
    var s1 := tt[|more|];
    var s2 := AfterLook(s1, 0, Acks, id);
    tt, more := Then(tt, more, Look(0, Acks, id), s2);
    tt, more := Then(tt, more, Look(1, Cancels, id), AfterLook(s2, 1, Cancels, id));
  }

  /**
   * For any two envelopes of one key: `a` is enqueued and taken, its worker reads its row to acknowledge it, `a` is
   * cancelled, `b` is enqueued, all one after the other, and now the acknowledgement deletes the lock of `b`. The next
   * Enqueue of the key, alone as well, makes a second live job.
   */
  lemma LateAckFreesKey(a: Envelope, b: Envelope, now: int)
    returns (ss: seq<State>, acts: seq<Action>, callbackId: JobId, t: State)
    requires a.jobId != b.jobId && a.uniqueKey != "" && a.queue == b.queue && a.uniqueKey == b.uniqueKey
    ensures IsSerialRun(ss, acts) && CanCommit(ss[|acts|], 0, now, 0, callbackId, t)
    ensures ss[|acts|].reports[0].kind.Acks? && ss[|acts|].calls == map[] && SeriallyDoomed(t)
  {
    assert IsSerialRun([EMPTY_STATE], []);
    ss, acts := EnqueueAlone([EMPTY_STATE], [], EMPTY_STATE, a, now);
    var s1 := AfterEnqueueAlone(EMPTY_STATE, a, now);
    ss, acts := CancelledUnderReport(ss, acts, s1, a.jobId, s1.w.db.jobs[a.jobId]);
    var s2 := ss[|acts|];
    ss, acts := EnqueueAlone(ss, acts, s2, b, now);
    var s := AfterEnqueueAlone(s2, b, now);
    assert Unique.Keyed(s.w.db, b.jobId);
    callbackId := Unused(s.w.declared.Keys + s.w.db.jobs.Keys);
    var w' := AfterStale(s.w, s.reports[0], now, callbackId);
    t := s.(w := w', reports := s.reports - {0}, late := s.late + CountedLate(s.w, s.reports[0]));
    StaleDoes(s.w, s.reports[0], now, 0, callbackId, w');
    ReleaseIff(ss, acts, |acts|, 0, now, 0, callbackId, t);
  }
}
