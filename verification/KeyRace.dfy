/** Who may insert a job under a unique key while the statements of all clients interleave. */
module KeyRace {
  import opened Graph
  import opened Tables
  import Ops = Operations
  import opened Runs
  import Workflow = WorkflowSafety
  import Unique = UniqueLocks
  import opened KeyTouches
  import opened Reports
  import opened Interleaving

  // Who may proceed

  ghost predicate TwoLive(db: Database) {
    exists i, j ::
      i != j && Unique.Keyed(db, i) && Unique.Keyed(db, j) && Unique.KeyOf(db.jobs[i]) == Unique.KeyOf(db.jobs[j])
  }

  predicate Owns(db: Database, key: string, id: JobId) {
    key in db.locks && db.locks[key].holder == id
  }

  /** The call has decided that the key is its own; from here it can insert its job without looking again. */
  predicate Firm(c: Call) {
    c.IsKeyed() && (c.phase.Ready? || c.phase.TakingOver?)
  }

  predicate Permitted(s: State, id: JobId) {
    id in s.calls &&
    (Firm(s.calls[id]) || (s.calls[id].IsKeyed() && s.calls[id].phase.Reading? && Owns(s.w.db, s.calls[id].Key(), id)))
  }

  /** The statement acquires the key: it inserts the lock row, or decides to take it over. */
  predicate Acquires(s: State, id: JobId, now: int) {
    id in s.calls && !Permitted(s, id) && Permitted(AfterAdvance(s, id, now), id)
  }

  /** Another call has acquired the key and not inserted its job yet, or a job with the key lives. */
  ghost predicate Contested(s: State, id: JobId)
    requires id in s.calls
  {
    || LiveJobWith(s.w.db, s.calls[id].Key())
    || exists other :: other != id && Permitted(s, other) && s.calls[other].Key() == s.calls[id].Key()
  }

  /** Another job with the key lives, or another client is about to insert one without looking again. */
  ghost predicate InUse(s: State, key: string, id: JobId) {
    || (exists j :: j != id && Unique.Keyed(s.w.db, j) && Unique.KeyOf(s.w.db.jobs[j]) == key)
    || exists i :: i in s.calls && s.calls[i].IsKeyed() && s.calls[i].phase.Ready? && s.calls[i].Key() == key
  }

  /** The release hits somebody else: Ack, Fail and Cancel release by key, not by holder. */
  ghost predicate Strays(s: State, n: nat)
    requires n in s.reports
  {
    FreesKey(s.w.db, s.reports[n]) && InUse(s, FreedKey(s.reports[n]), s.reports[n].id)
  }

  /** No acquisition meets another one of its key halfway, and no release strays. */
  ghost predicate Calm(s: State, act: Action)
  {
    match act
    case Advance(id, now) => Acquires(s, id, now) ==> !Contested(s, id)
    case Commit(n, _, _, _) => n in s.reports ==> !Strays(s, n)
    case Transact(op) =>
      && Unique.LockAllowed(s.w, op)
      && forall id :: id in s.calls && Firm(s.calls[id]) ==> s.calls[id].Key() !in KeysOf(op)
    case _ => true
  }

  ghost predicate PermitsOk(s: State)
  {
    && (forall id :: Permitted(s, id) ==> !LiveJobWith(s.w.db, s.calls[id].Key()))
    && (forall i, j :: Permitted(s, i) && Permitted(s, j) && s.calls[i].Key() == s.calls[j].Key() ==> i == j)
    && (forall id :: id in s.calls && s.calls[id].IsKeyed() && s.calls[id].phase.Ready? ==>
          Owns(s.w.db, s.calls[id].Key(), id))
  }

  ghost predicate Inv(s: State) {
    Unique.Inv(s.w) && CallsOk(s) && PermitsOk(s)
  }

  // Undisturbed acquisitions keep the invariant

  lemma TransactKeepsPermits(s: State, op: Op, t: State)
    requires Inv(s) && Unique.Named(t.w.db) && t.calls == s.calls && CallsOk(t)
    requires TouchesKeys(s.w.db, KeysOf(op), IdsOf(op), t.w.db) && forall id :: id in s.calls ==> id !in IdsOf(op)
    requires forall id :: id in s.calls && Firm(s.calls[id]) ==> s.calls[id].Key() !in KeysOf(op)
    ensures PermitsOk(t)
  {
    forall id | Permitted(t, id) ensures Permitted(s, id) {
    }
    forall id | Permitted(t, id) ensures !LiveJobWith(t.w.db, s.calls[id].Key()) {
      var key := s.calls[id].Key();
      if j :| Unique.Keyed(t.w.db, j) && Unique.KeyOf(t.w.db.jobs[j]) == key {
        assert false;
      }
    }
  }

  lemma TransactKeepsCalls(s: State, op: Op, t: State)
    requires Workflow.EdgesOk(s.w.db, s.w.declared) && CallsOk(s) && CanStep(s, Transact(op), t)
    ensures CallsOk(t) && forall id :: id in s.calls ==> id !in IdsOf(op)
  {
    forall id | id in s.calls ensures Untouched(s.w, t.w, id) && id !in IdsOf(op) {
      TransactLeaves(s.w, op, t.w, id);
    }
  }

  lemma TransactStep(s: State, op: Op, t: State)
    requires Inv(s) && Calm(s, Transact(op)) && CanStep(s, Transact(op), t)
    ensures Inv(t)
  {
    Unique.Step(s.w, op, t.w);
    TransactTouches(s.w, op, t.w);
    TransactKeepsCalls(s, op, t);
    TransactKeepsPermits(s, op, t);
  }

  /** An id may be declared ahead of its row. */
  lemma DeclareAhead(w: World, id: JobId)
    requires Unique.Inv(w) && Fresh(w, id)
    ensures Unique.Inv(w.(declared := w.declared[id := {}])) && id !in w.acked
  {
    forall e | e in w.db.deps ensures e.child != id {
    }
  }

  lemma BegunPermits(s: State, env: Envelope, now: int, t: State)
    requires CallsOk(s) && PermitsOk(s) && env.jobId !in s.calls && t == AfterBegin(s, env, now)
    requires Fresh(s.w, env.jobId) && env.jobId !in s.w.acked
    ensures CallsOk(t) && PermitsOk(t)
  {
    assert forall id :: id in s.calls ==> t.calls[id] == s.calls[id];
    forall id | Permitted(t, id) ensures Permitted(s, id) {
    }
  }

  lemma BeginStep(s: State, env: Envelope, now: int)
    requires Inv(s) && Fresh(s.w, env.jobId) && env.jobId !in s.calls
    ensures Inv(AfterBegin(s, env, now))
  {
    DeclareAhead(s.w, env.jobId);
    BegunPermits(s, env, now, AfterBegin(s, env, now));
  }

  lemma EndStep(s: State, id: JobId)
    requires Inv(s)
    ensures Inv(End(s, id))
  {
    assert forall j :: Permitted(End(s, id), j) ==> Permitted(s, j);
  }

  lemma LockWritten(w: World, key: string, lock: Lock, w': World)
    requires Unique.Inv(w) && !LiveJobWith(w.db, key) && lock.holder in w.declared
    requires w' == w.(db := w.db.(locks := w.db.locks[key := lock]))
    ensures Unique.Inv(w')
    ensures forall k :: LiveJobWith(w'.db, k) <==> LiveJobWith(w.db, k)
  {
    Workflow.SameStatuses(w.db, w'.db, w.declared, w.acked);
    assert forall j :: Unique.Keyed(w'.db, j) <==> Unique.Keyed(w.db, j);
  }

  /** What a call writes into an uncontested lock row leaves the permits of the others alone. */
  lemma LockPermits(s: State, id: JobId, phase: Phase, t: State)
    requires PermitsOk(s) && id in s.calls && s.calls[id].IsKeyed() && !Contested(s, id)
    requires phase.Reading? || phase.Ready?
    requires t.calls == s.calls[id := s.calls[id].(phase := phase)]
    requires t.w.db.locks == s.w.db.locks[s.calls[id].Key() := Lock(id, s.calls[id].expiresAt)]
    requires forall k :: LiveJobWith(t.w.db, k) <==> LiveJobWith(s.w.db, k)
    ensures PermitsOk(t)
  {
    forall j | Permitted(t, j) && j != id ensures Permitted(s, j) && s.calls[j].Key() != s.calls[id].Key() {
      PermittedBefore(s, id, t, j);
    }
    forall j | j in t.calls && t.calls[j].IsKeyed() && t.calls[j].phase.Ready?
      ensures Owns(t.w.db, t.calls[j].Key(), j)
    {
      if j != id {
        assert Permitted(t, j) && Owns(s.w.db, s.calls[j].Key(), j);
      }
    }
  }

  lemma PermittedBefore(s: State, id: JobId, t: State, j: JobId)
    requires id in s.calls && !Contested(s, id) && j != id && Permitted(t, j)
    requires id in t.calls && t.calls == s.calls[id := t.calls[id]]
    requires t.w.db.locks == s.w.db.locks[s.calls[id].Key() := Lock(id, s.calls[id].expiresAt)]
    ensures Permitted(s, j) && s.calls[j].Key() != s.calls[id].Key()
  {
    assert t.calls[j] == s.calls[j];
  }

  /** The lock row of an uncontested key may be written. */
  lemma LockStep(s: State, id: JobId, phase: Phase, t: State)
    requires Inv(s) && id in s.calls && s.calls[id].IsKeyed() && !Contested(s, id)
    requires phase.Reading? || phase.Ready?
    requires var c := s.calls[id]; t == Move(WithLocks(s, s.w.db.locks[c.Key() := Lock(id, c.expiresAt)]), id, phase)
    ensures Inv(t)
  {
    LockWritten(s.w, s.calls[id].Key(), Lock(id, s.calls[id].expiresAt), t.w);
    LockPermits(s, id, phase, t);
  }

  /** A row whose lock is its own, or that needs none. */
  lemma InsertNamed(s: Database, id: JobId, row: Job)
    requires Unique.Named(s) && id !in s.jobs && (row.uniqueKey != "" ==> Owns(s, Unique.KeyOf(row), id))
    ensures Unique.Named(s.(jobs := s.jobs[id := row]))
    ensures forall k :: LiveJobWith(s.(jobs := s.jobs[id := row]), k) ==>
              LiveJobWith(s, k) || (row.uniqueKey != "" && k == Unique.KeyOf(row))
  {
    var t := s.(jobs := s.jobs[id := row]);
    forall j | Unique.Keyed(t, j) && j != id ensures Unique.Keyed(s, j) {
    }
    forall k | LiveJobWith(t, k) && !LiveJobWith(s, k) ensures row.uniqueKey != "" && k == Unique.KeyOf(row) {
      var j :| Unique.Keyed(t, j) && Unique.KeyOf(t.jobs[j]) == k;
      assert j == id;
    }
  }

  lemma InsertStep(s: State, id: JobId, now: int)
    requires Inv(s) && id in s.calls && s.calls[id].phase.Ready?
    ensures Inv(AfterAdvance(s, id, now))
  {
    var t, c := AfterAdvance(s, id, now), s.calls[id];
    InsertKnown(s.w.db, id, t.w.db, s.w.declared, s.w.acked);
    assert Permitted(s, id) <==> c.IsKeyed();
    InsertNamed(s.w.db, id, t.w.db.jobs[id]);
    forall j | Permitted(t, j) ensures Permitted(s, j) && (c.IsKeyed() ==> s.calls[j].Key() != c.Key()) {
    }
  }

  /** Moves that write nothing and acquire nothing, or acquire an uncontested key. */
  lemma PhaseStep(s: State, id: JobId, phase: Phase)
    requires Inv(s) && id in s.calls && s.calls[id].IsKeyed() && !phase.Reading?
    requires phase.Ready? ==> Owns(s.w.db, s.calls[id].Key(), id)
    requires Permitted(Move(s, id, phase), id) && !Permitted(s, id) ==> !Contested(s, id)
    ensures Inv(Move(s, id, phase))
  {
    var t := Move(s, id, phase);
    forall j | Permitted(t, j) && j != id ensures Permitted(s, j) {
    }
  }

  lemma FindingCalls(s: State, id: JobId, t: State)
    requires id in s.calls && t == Move(s, id, Reading)
    ensures t.w == s.w && t.calls.Keys == s.calls.Keys
    ensures forall j :: j in t.calls ==> t.calls[j].env == s.calls[j].env && (j != id ==> t.calls[j] == s.calls[j])
  {
  }

  /** The insertion of the lock row finds one. */
  lemma FindingStep(s: State, id: JobId, t: State)
    requires Inv(s) && id in s.calls && s.calls[id].phase.Inserting? && t == Move(s, id, Reading)
    requires Owns(s.w.db, s.calls[id].Key(), id) ==> !Contested(s, id)
    ensures Inv(t)
  {
    FindingCalls(s, id, t);
    FindingPermits(s, id, t);
    assert CallsOk(t);
  }

  lemma FindingPermits(s: State, id: JobId, t: State)
    requires PermitsOk(s) && id in s.calls && s.calls[id].phase.Inserting? && t.w == s.w
    requires t.calls.Keys == s.calls.Keys && t.calls[id].phase.Reading?
    requires forall j :: j in t.calls ==> t.calls[j].env == s.calls[j].env && (j != id ==> t.calls[j] == s.calls[j])
    requires Owns(s.w.db, s.calls[id].Key(), id) ==> !Contested(s, id)
    ensures PermitsOk(t)
  {
    forall i, j | Permitted(t, i) && Permitted(t, j) && t.calls[i].Key() == t.calls[j].Key() ensures i == j {
    }
  }

  lemma InsertingStep(s: State, id: JobId, now: int, t: State)
    requires Inv(s) && id in s.calls && s.calls[id].phase.Inserting? && t == AfterAdvance(s, id, now)
    requires Acquires(s, id, now) ==> !Contested(s, id)
    ensures Inv(t)
  {
    if s.calls[id].Key() in s.w.db.locks {
      assert t == Move(s, id, Reading);
      FindingStep(s, id, t);
    } else {
      assert Acquires(s, id, now);
      LockStep(s, id, Reading, t);
    }
  }

  lemma ReadingStep(s: State, id: JobId, now: int, t: State)
    requires Inv(s) && id in s.calls && s.calls[id].phase.Reading? && t == AfterAdvance(s, id, now)
    ensures Inv(t)
  {
    if id !in t.calls {
      EndStep(s, id);
    } else {
      PhaseStep(s, id, t.calls[id].phase);
    }
  }

  lemma CheckingStep(s: State, id: JobId, now: int, t: State)
    requires Inv(s) && id in s.calls && s.calls[id].phase.Checking? && t == AfterAdvance(s, id, now)
    requires Acquires(s, id, now) ==> !Contested(s, id)
    ensures Inv(t)
  {
    if id !in t.calls {
      EndStep(s, id);
    } else {
      PhaseStep(s, id, TakingOver);
    }
  }

  lemma AdvanceStep(s: State, id: JobId, now: int)
    requires Inv(s) && id in s.calls && (Acquires(s, id, now) ==> !Contested(s, id))
    ensures Inv(AfterAdvance(s, id, now))
  {
    var t := AfterAdvance(s, id, now);
    match s.calls[id].phase
    case Inserting => InsertingStep(s, id, now, t);
    case Reading => ReadingStep(s, id, now, t);
    case Checking(_, _) => CheckingStep(s, id, now, t);
    case TakingOver =>
      assert Permitted(s, id);
      LockStep(s, id, Ready, t);
    case Ready => InsertStep(s, id, now);
  }

  /** Rows at most finish or go, and the one lock that goes is not in use. */
  lemma ReleaseStep(s: State, key: string, id: JobId, t: State)
    requires Inv(s) && Workflow.Inv(t.w) && t.calls == s.calls && CallsOk(t) && s.w.declared.Keys <= t.w.declared.Keys
    requires t.w.db.locks == s.w.db.locks || (t.w.db.locks == s.w.db.locks - {key} && !InUse(s, key, id))
    requires forall j :: Unique.Keyed(t.w.db, j) ==>
      j != id && Unique.Keyed(s.w.db, j) && Unique.KeyOf(t.w.db.jobs[j]) == Unique.KeyOf(s.w.db.jobs[j])
    ensures Inv(t)
  {
    forall i | Permitted(t, i) ensures Permitted(s, i) && !LiveJobWith(t.w.db, t.calls[i].Key()) {
      assert Permitted(s, i);
    }
  }

  lemma StaleStep(s: State, n: nat, now: int, nextRun: int, callbackId: JobId, t: State)
    requires Inv(s) && Sound(s) && CanCommit(s, n, now, nextRun, callbackId, t)
    requires Stale(s.w.db, s.reports[n]) && !Strays(s, n)
    ensures Inv(t)
  {
    var r := s.reports[n];
    CommitIsSound(s, n, now, nextRun, callbackId, t);
    StaleDoes(s.w, r, now, nextRun, callbackId, t.w);
    StaleAddsAtMost(s.w, r, now, callbackId, t.w);
    StaleLocks(s.w, r, now, callbackId, t.w);
    AddedKeys(s.w, callbackId, t.w);
    ReleaseStep(s, FreedKey(r), r.id, t);
  }

  lemma AddedKeys(w: World, callbackId: JobId, w': World)
    requires AddsAtMost(w, callbackId, w')
    ensures w.declared.Keys <= w'.declared.Keys
    ensures forall j :: Unique.Keyed(w'.db, j) ==> Unique.Keyed(w.db, j) && w'.db.jobs[j] == w.db.jobs[j]
  {
  }

  /** A finished job is cancelled. */
  lemma FinishedStep(s: State, n: nat, now: int, nextRun: int, callbackId: JobId, t: State)
    requires Inv(s) && Sound(s) && CanCommit(s, n, now, nextRun, callbackId, t) && !Strays(s, n)
    requires var r := s.reports[n];
             r.kind.Cancels? && UpToDate(s.w.db, r) && r.id in s.w.db.jobs && !s.w.db.jobs[r.id].Live()
    ensures Inv(t)
  {
    var r := s.reports[n];
    CommitIsSound(s, n, now, nextRun, callbackId, t);
    NothingBelow(s.w, r.id);
    KilledNothingIs(Ops.DeleteWith(s.w.db, r.id, r.Seen()), t.w.db);
    ReleaseStep(s, FreedKey(r), r.id, t);
  }

  lemma BlindFinishes(s: Database, id: JobId, t: Database)
    requires Ops.CancelWith(s, id, NO_COLUMNS, t) && id in s.jobs
    requires forall d :: d in Descendants(s.deps, id) && d in s.jobs ==> s.jobs[d].Live()
    ensures Unique.OnlyFinishes(s, t)
  {
    var below, u := Descendants(s.deps, id), Ops.DeleteWith(s, id, NO_COLUMNS);
    Unique.KillReleases(u, below, below, t);
    forall k | k in s.locks && k !in t.locks
      ensures exists j :: Unique.Keyed(s, j) && Unique.KeyOf(s.jobs[j]) == k && !Unique.Keyed(t, j)
    {
      var j :| Unique.Keyed(u, j) && Unique.KeyOf(u.jobs[j]) == k && !Unique.Keyed(t, j);
      assert Unique.Keyed(s, j);
    }
  }

  /** A cancellation that read too early deletes a row and leaves its lock. */
  lemma BlindStep(s: State, n: nat, now: int, nextRun: int, callbackId: JobId, t: State)
    requires Inv(s) && Sound(s) && CanCommit(s, n, now, nextRun, callbackId, t)
    requires var r := s.reports[n]; r.kind.Cancels? && r.read.None? && r.id in s.w.db.jobs
    ensures Inv(t)
  {
    CommitIsSound(s, n, now, nextRun, callbackId, t);
    BlindFinishes(s.w.db, s.reports[n].id, t.w.db);
    FinishesStep(s, t);
  }

  lemma FinishesStep(s: State, t: State)
    requires Inv(s) && Workflow.Inv(t.w) && t.calls == s.calls && CallsOk(t) && t.w.declared == s.w.declared
    requires Unique.OnlyFinishes(s.w.db, t.w.db)
    ensures Inv(t)
  {
    Unique.Finished(s.w.db, t.w.db);
    FinishesTouch(s.w.db, t.w.db);
    TransactKeepsPermits(s, FailExpiredBatches(0), t);
  }

  lemma UpToDateStep(s: State, n: nat, now: int, nextRun: int, callbackId: JobId, t: State)
    requires Inv(s) && Sound(s) && CanCommit(s, n, now, nextRun, callbackId, t) && UpToDate(s.w.db, s.reports[n])
    requires var r := s.reports[n]; r.kind.Cancels? && r.id in s.w.db.jobs ==> s.w.db.jobs[r.id].Live()
    ensures Inv(t)
  {
    var op := OpOf(s.reports[n], now, nextRun, callbackId);
    UpToDateCommit(s, n, now, nextRun, callbackId, t);
    CommitIsSound(s, n, now, nextRun, callbackId, t);
    Unique.Step(s.w, op, t.w);
    TransactTouches(s.w, op, t.w);
    TransactKeepsPermits(s, op, t);
  }

  lemma CommitStep(s: State, n: nat, now: int, nextRun: int, callbackId: JobId, t: State)
    requires Inv(s) && Sound(s) && CanCommit(s, n, now, nextRun, callbackId, t) && !Strays(s, n)
    ensures Inv(t)
  {
    var r := s.reports[n];
    assert ReportOk(s, r);
    ReportCases(s, r);
    if Stale(s.w.db, r) {
      StaleStep(s, n, now, nextRun, callbackId, t);
    } else if !UpToDate(s.w.db, r) {
      BlindStep(s, n, now, nextRun, callbackId, t);
    } else if r.kind.Cancels? && r.id in s.w.db.jobs && !s.w.db.jobs[r.id].Live() {
      FinishedStep(s, n, now, nextRun, callbackId, t);
    } else {
      UpToDateStep(s, n, now, nextRun, callbackId, t);
    }
  }

  lemma Step(s: State, act: Action, t: State)
    requires Inv(s) && Sound(s) && Calm(s, act) && CanStep(s, act, t)
    ensures Inv(t)
  {
    match act
    case Begin(env, now) => BeginStep(s, env, now);
    case Advance(id, now) => AdvanceStep(s, id, now);
    case Abandon(id) => EndStep(s, id);
    case Look(_, _, _) =>
    case Commit(n, now, nextRun, callbackId) => CommitStep(s, n, now, nextRun, callbackId, t);
    case Drop(_) =>
    case Transact(op) => TransactStep(s, op, t);
  }
}
