/**
 * The storage when its calls are interrupted. A plain Enqueue opens no transaction: inserting the lock row, reading it,
 * looking for the holder's job, taking the lock over and inserting the job are statements that commit one by one. Ack,
 * Fail and Cancel read columns of the row before their transaction begins. The statements and transactions of other
 * clients may come in between.
 */
module Interleaving {
  import opened Graph
  import opened Tables
  import Ops = Operations
  import opened Runs
  import opened Reports
  import opened KeyTouches
  import Workflow = WorkflowSafety

  /** The statement of an Enqueue call that comes next. */
  datatype Phase =
    | Inserting                               // the lock row, unless there is one
    | Reading                                 // the lock row
    | Checking(holder: JobId, expiresAt: int) // whether the holder it read has a row
    | TakingOver                              // the lock row, whatever it says now
    | Ready                                   // insert the job

  datatype Call = Call(env: Envelope, expiresAt: int, phase: Phase) {
    function Key(): string {
      LockKey(env.queue, env.uniqueKey)
    }

    predicate IsKeyed() {
      env.uniqueKey != ""
    }
  }

  /**
   * The database with its history, and the calls under way: those of Enqueue by job, reports and cancellations between
   * read and transaction by number. `late` holds the jobs whose batch was counted down after their row had gone.
   */
  datatype State = State(w: World, calls: map<JobId, Call>, reports: map<nat, Report>, late: set<JobId>)

  datatype Action =
    | Begin(env: Envelope, now: int)
    | Advance(id: JobId, now: int)
    | Abandon(id: JobId)                       // the client gives up or is lost
    | Look(n: nat, kind: Kind, id: JobId)      // the read of a report or cancellation
    | Commit(n: nat, now: int, nextRun: int, callbackId: JobId) // and its transaction
    | Drop(n: nat)                             // which may never come
    | Transact(op: Op)

  /** The id counts as used from the beginning of the call. */
  function AfterBegin(s: State, env: Envelope, now: int): State {
    var phase := if env.uniqueKey == "" then Ready else Inserting;
    s.(w := s.w.(declared := s.w.declared[env.jobId := {}]),
       calls := s.calls[env.jobId := Call(env, Ops.LockExpires(env, now), phase)])
  }

  function Move(s: State, id: JobId, phase: Phase): State
    requires id in s.calls
  {
    s.(calls := s.calls[id := s.calls[id].(phase := phase)])
  }

  function End(s: State, id: JobId): State {
    s.(calls := s.calls - {id})
  }

  function WithLocks(s: State, locks: map<string, Lock>): State {
    s.(w := s.w.(db := s.w.db.(locks := locks)))
  }

  /** One statement. */
  function AfterAdvance(s: State, id: JobId, now: int): State
    requires id in s.calls
  {
    var c, db := s.calls[id], s.w.db;
    match c.phase
    case Inserting => Move(WithLocks(s, Ops.TryInsertLock(db.locks, c.Key(), Lock(id, c.expiresAt))), id, Reading)
    case Reading =>
      if c.Key() !in db.locks then End(s, id)
      else if db.locks[c.Key()].holder == id then Move(s, id, Ready)
      else Move(s, id, Checking(db.locks[c.Key()].holder, db.locks[c.Key()].expiresAt))
    case Checking(holder, expiresAt) =>
      if now < expiresAt && holder in db.jobs then End(s, id) else Move(s, id, TakingOver)
    case TakingOver => Move(WithLocks(s, db.locks[c.Key() := Lock(id, c.expiresAt)]), id, Ready)
    case Ready => End(s.(w := s.w.(db := db.(jobs := db.jobs[id := Ops.EnqueuedRow(db.jobs, c.env, now)]))), id)
  }

  /** The worker of the job is about to report on it. */
  ghost predicate Reporting(s: State, id: JobId) {
    exists n :: n in s.reports && !s.reports[n].kind.Cancels? && s.reports[n].id == id
  }

  /** A worker reports on a job that it got, once at a time, even if the row has gone meanwhile. */
  ghost predicate MayReport(s: State, id: JobId) {
    HeldOrGone(s.w.db, id) && id in s.w.declared && id !in s.calls && !Reporting(s, id)
  }

  /** Fail gives up when it finds no row. */
  function AfterLook(s: State, n: nat, kind: Kind, id: JobId): State {
    var read := Ops.ReadColumns(s.w.db.jobs, id);
    if kind.Fails? && read.None? then s else s.(reports := s.reports[n := Report(kind, id, read)])
  }

  function CountedLate(w: World, r: Report): set<JobId> {
    if Stale(w.db, r) && CountsDown(w.db, r) then {r.id} else {}
  }

  /** `callbackId` is the id generated in case a callback is enqueued. */
  ghost predicate CanCommit(s: State, n: nat, now: int, nextRun: int, callbackId: JobId, t: State) {
    && n in s.reports && Fresh(s.w, callbackId)
    && Performs(s.w, s.reports[n], now, nextRun, callbackId, t.w)
    && t == s.(w := t.w, reports := s.reports - {n}, late := s.late + CountedLate(s.w, s.reports[n]))
  }

  ghost predicate CanTransact(s: State, op: Op, t: State) {
    && !op.Enqueue? && !op.Ack? && !op.Fail? && !op.Cancel? && Allowed(s.w, op)
    && (op.Postpone? ==> !Reporting(s, op.id))
    && Next(s.w, op, t.w) && t == s.(w := t.w)
  }

  ghost predicate CanStep(s: State, act: Action, t: State)
  {
    match act
    case Begin(env, now) => Fresh(s.w, env.jobId) && env.jobId !in s.calls && t == AfterBegin(s, env, now)
    case Advance(id, now) => id in s.calls && t == AfterAdvance(s, id, now)
    case Abandon(id) => id in s.calls && t == End(s, id)
    case Look(n, kind, id) => n !in s.reports && (kind.Cancels? || MayReport(s, id)) && t == AfterLook(s, n, kind, id)
    case Commit(n, now, nextRun, callbackId) => CanCommit(s, n, now, nextRun, callbackId, t)
    case Drop(n) => n in s.reports && t == s.(reports := s.reports - {n})
    case Transact(op) => CanTransact(s, op, t)
  }

  const EMPTY_STATE: State := State(EMPTY, map[], map[], {})

  ghost predicate IsPath(ss: seq<State>, acts: seq<Action>)
  {
    && |ss| == |acts| + 1
    && forall i {:trigger acts[i]} :: 0 <= i < |acts| ==> CanStep(ss[i], acts[i], ss[i + 1])
  }

  /** Whatever comes in between, from empty tables on. */
  ghost predicate IsInterleaving(ss: seq<State>, acts: seq<Action>) {
    IsPath(ss, acts) && ss[0] == EMPTY_STATE
  }

  // Undisturbed

  function RunOut(s: State, id: JobId, now: int, steps: nat): State
    decreases steps
  {
    if steps == 0 || id !in s.calls then s else RunOut(AfterAdvance(s, id, now), id, now, steps - 1)
  }

  function Inserted(s: State, id: JobId, locks: map<string, Lock>, now: int): State
    requires id in s.calls
  {
    var row := Ops.EnqueuedRow(s.w.db.jobs, s.calls[id].env, now);
    End(s.(w := s.w.(db := s.w.db.(locks := locks, jobs := s.w.db.jobs[id := row]))), id)
  }

  lemma RunReady(s: State, id: JobId, now: int, steps: nat)
    requires id in s.calls && s.calls[id].phase.Ready? && steps > 0
    ensures RunOut(s, id, now, steps) == Inserted(s, id, s.w.db.locks, now)
  {
  }

  lemma RunTakingOver(s: State, id: JobId, now: int, steps: nat)
    requires id in s.calls && s.calls[id].phase.TakingOver? && steps > 1
    ensures var c := s.calls[id];
            RunOut(s, id, now, steps) == Inserted(s, id, s.w.db.locks[c.Key() := Lock(id, c.expiresAt)], now)
  {
    var t := AfterAdvance(s, id, now);
    RunReady(t, id, now, steps - 1);
    assert t.calls - {id} == s.calls - {id};
  }

  lemma RunReading(s: State, id: JobId, now: int, steps: nat)
    requires id in s.calls && s.calls[id].phase.Reading? && s.calls[id].Key() in s.w.db.locks && steps > 3
    ensures var c, lock := s.calls[id], s.w.db.locks[s.calls[id].Key()];
            RunOut(s, id, now, steps) ==
              if lock.holder == id then Inserted(s, id, s.w.db.locks, now)
              else if now < lock.expiresAt && lock.holder in s.w.db.jobs then End(s, id)
              else Inserted(s, id, s.w.db.locks[c.Key() := Lock(id, c.expiresAt)], now)
  {
    var t := AfterAdvance(s, id, now);
    assert t.calls - {id} == s.calls - {id};
    if t.calls[id].phase.Ready? {
      RunReady(t, id, now, steps - 1);
    } else {
      var u := AfterAdvance(t, id, now);
      assert RunOut(t, id, now, steps - 1) == RunOut(u, id, now, steps - 2);
      assert u.calls - {id} == s.calls - {id};
      if id in u.calls {
        RunTakingOver(u, id, now, steps - 2);
      } else {
        assert u.calls == s.calls - {id};
      }
    }
  }

  /** Undisturbed, the statements of a call do what Operations.Enqueue says. */
  lemma Undisturbed(s: State, env: Envelope, now: int)
    requires Fresh(s.w, env.jobId) && env.jobId !in s.calls
    requires forall k :: k in s.w.db.locks ==> s.w.db.locks[k].holder != env.jobId
    ensures var t := RunOut(AfterBegin(s, env, now), env.jobId, now, 5);
            t.w.db == Ops.Commit(s.w.db, Ops.Enqueue(s.w.db, env, now)) && t.calls == s.calls
  {
    var id, t := env.jobId, AfterBegin(s, env, now);
    assert t.calls - {id} == s.calls;
    if env.uniqueKey == "" {
      RunReady(t, id, now, 5);
    } else {
      var u := AfterAdvance(t, id, now);
      assert u.calls - {id} == s.calls;
      RunReading(u, id, now, 4);
    }
  }

  // What every interleaving keeps

  /** The id of a call is known, but has no row, no parents and no children. */
  ghost predicate CallsOk(s: State)
  {
    forall id :: id in s.calls ==>
      && s.calls[id].env.jobId == id && id in s.w.declared && s.w.declared[id] == {}
      && id !in s.w.db.jobs && id !in s.w.acked
      && (s.calls[id].IsKeyed() || s.calls[id].phase.Ready?)
  }

  /** What a call has read of a row still holds while there is a row, and a report finds the row running. */
  ghost predicate ReportOk(s: State, r: Report)
  {
    && (r.kind.Fails? ==> r.read.Some?)
    && (r.read.Some? || !r.kind.Cancels? ==> r.id in s.w.declared && r.id !in s.calls)
    && (r.read.Some? && r.id in s.w.db.jobs ==> SameColumns(r.read.value, ColumnsOf(s.w.db.jobs[r.id])))
    && (!r.kind.Cancels? ==>
          && HeldOrGone(s.w.db, r.id)
          && (r.id in s.w.db.jobs ==> r.read == Ops.ReadColumns(s.w.db.jobs, r.id))
          && (r.read.Some? ==> r.id !in s.w.acked && r.id !in s.late))
  }

  /** Both are reports, on one job. */
  predicate SameJob(r: Report, q: Report) {
    !r.kind.Cancels? && !q.kind.Cancels? && r.id == q.id
  }

  ghost predicate ReportsOk(s: State)
  {
    && (forall n :: n in s.reports ==> ReportOk(s, s.reports[n]))
    && forall m, n :: m in s.reports && n in s.reports && SameJob(s.reports[m], s.reports[n]) ==> m == n
  }

  ghost predicate LateOk(s: State) {
    forall id :: id in s.late ==> id in s.w.declared && id !in s.w.db.jobs && id !in s.calls
  }

  ghost predicate Sound(s: State) {
    Workflow.Inv(s.w) && CallsOk(s) && ReportsOk(s) && LateOk(s)
  }

  lemma ReportStays(s: State, t: State, r: Report)
    requires ReportOk(s, r)
    requires r.id in s.w.declared ==> KeepsColumns(s.w, t.w, r.id)
    requires !r.kind.Cancels? ==> KeepsHeld(s.w, t.w, r.id) && (r.id in t.late ==> r.id in s.late)
    requires r.id in s.w.declared && r.id !in s.calls ==> r.id !in t.calls
    ensures ReportOk(t, r)
  {
  }

  /** A step that leaves known ids without a row alone. */
  ghost predicate LeavesIdle(w: World, w': World) {
    forall id :: Idle(w, id) ==> Untouched(w, w', id)
  }

  lemma CallsStay(s: State, t: State)
    requires CallsOk(s) && LateOk(s) && LeavesIdle(s.w, t.w) && t.calls == s.calls
    requires forall id :: id in t.late ==> id in s.late || (Idle(s.w, id) && id !in s.calls)
    ensures CallsOk(t) && LateOk(t)
  {
    assert forall id :: id in s.calls ==> Idle(s.w, id);
    assert forall id :: id in t.late ==> Idle(s.w, id);
  }

  lemma TransactIsSound(s: State, op: Op, t: State)
    requires Sound(s) && CanTransact(s, op, t)
    ensures Sound(t)
  {
    Workflow.Step(s.w, op, t.w);
    forall id | Idle(s.w, id) ensures Untouched(s.w, t.w, id) {
      TransactLeaves(s.w, op, t.w, id);
    }
    CallsStay(s, t);
    forall n | n in t.reports ensures ReportOk(t, t.reports[n]) {
      var r := s.reports[n];
      if r.id in s.w.declared {
        StepKeeps(s.w, op, t.w, r.id);
      }
      ReportStays(s, t, r);
    }
  }

  /** A call finds the row as it read it, or gone, or it is a cancellation that read too early. */
  lemma ReportCases(s: State, r: Report)
    requires ReportOk(s, r)
    ensures UpToDate(s.w.db, r) || Stale(s.w.db, r) || (r.kind.Cancels? && r.read.None? && r.id in s.w.db.jobs)
  {
  }

  lemma UpToDateCommit(s: State, n: nat, now: int, nextRun: int, callbackId: JobId, t: State)
    requires Sound(s) && CanCommit(s, n, now, nextRun, callbackId, t) && UpToDate(s.w.db, s.reports[n])
    ensures var op := OpOf(s.reports[n], now, nextRun, callbackId); Allowed(s.w, op) && Next(s.w, op, t.w)
  {
    UpToDateIsStep(s.w, s.reports[n], now, nextRun, callbackId, t.w);
    assert ReportOk(s, s.reports[n]);
  }

  /** What a commit does to the row of any other call. */
  ghost predicate KeepsOthers(s: State, n: nat, w': World)
    requires n in s.reports
  {
    forall m :: m in s.reports && m != n && s.reports[m].id in s.w.declared ==>
      && KeepsColumns(s.w, w', s.reports[m].id)
      && (!s.reports[m].kind.Cancels? ==> KeepsHeld(s.w, w', s.reports[m].id))
  }

  lemma UpToDateKeeps(s: State, n: nat, now: int, nextRun: int, callbackId: JobId, t: State)
    requires Sound(s) && CanCommit(s, n, now, nextRun, callbackId, t) && UpToDate(s.w.db, s.reports[n])
    ensures Workflow.Inv(t.w) && LeavesIdle(s.w, t.w) && KeepsOthers(s, n, t.w)
  {
    var op := OpOf(s.reports[n], now, nextRun, callbackId);
    UpToDateCommit(s, n, now, nextRun, callbackId, t);
    Workflow.Step(s.w, op, t.w);
    forall id | Idle(s.w, id) ensures Untouched(s.w, t.w, id) {
      TransactLeaves(s.w, op, t.w, id);
    }
    forall m | m in s.reports && m != n && s.reports[m].id in s.w.declared
      ensures KeepsColumns(s.w, t.w, s.reports[m].id)
      ensures !s.reports[m].kind.Cancels? ==> KeepsHeld(s.w, t.w, s.reports[m].id)
    {
      StepKeeps(s.w, op, t.w, s.reports[m].id);
      assert ReportOk(s, s.reports[m]);
    }
  }

  lemma AddingLeaves(w: World, callbackId: JobId, w': World)
    requires Fresh(w, callbackId) && AddsAtMost(w, callbackId, w')
    ensures LeavesIdle(w, w')
  {
  }

  lemma StaleCommitKeeps(s: State, n: nat, now: int, nextRun: int, callbackId: JobId, t: State)
    requires Sound(s) && CanCommit(s, n, now, nextRun, callbackId, t) && Stale(s.w.db, s.reports[n])
    ensures Workflow.Inv(t.w) && LeavesIdle(s.w, t.w) && KeepsOthers(s, n, t.w)
  {
    var r := s.reports[n];
    StaleDoes(s.w, r, now, nextRun, callbackId, t.w);
    StaleKeepsWorkflow(s.w, r, now, callbackId, t.w);
    StaleAddsAtMost(s.w, r, now, callbackId, t.w);
    AddingLeaves(s.w, callbackId, t.w);
    forall m | m in s.reports && s.reports[m].id in s.w.declared
      ensures KeepsColumns(s.w, t.w, s.reports[m].id) && KeepsHeld(s.w, t.w, s.reports[m].id)
    {
      AddingKeeps(s.w, callbackId, t.w, s.reports[m].id);
    }
  }

  lemma BlindCommitKeeps(s: State, n: nat, now: int, nextRun: int, callbackId: JobId, t: State)
    requires Sound(s) && CanCommit(s, n, now, nextRun, callbackId, t)
    requires s.reports[n].kind.Cancels? && s.reports[n].read.None?
    ensures Workflow.Inv(t.w) && LeavesIdle(s.w, t.w) && KeepsOthers(s, n, t.w)
  {
    BlindKeepsWorkflow(s.w, s.reports[n].id, t.w);
    forall m | m in s.reports && s.reports[m].id in s.w.declared
      ensures KeepsColumns(s.w, t.w, s.reports[m].id)
      ensures !s.reports[m].kind.Cancels? ==> KeepsHeld(s.w, t.w, s.reports[m].id)
    {
      assert ReportOk(s, s.reports[m]);
      BlindKeeps(s.w, s.reports[n].id, t.w, s.reports[m].id);
    }
  }

  lemma CommitIsSound(s: State, n: nat, now: int, nextRun: int, callbackId: JobId, t: State)
    requires Sound(s) && CanCommit(s, n, now, nextRun, callbackId, t)
    ensures Sound(t)
  {
    var r := s.reports[n];
    assert ReportOk(s, r);
    ReportCases(s, r);
    if UpToDate(s.w.db, r) {
      UpToDateKeeps(s, n, now, nextRun, callbackId, t);
    } else if Stale(s.w.db, r) {
      StaleCommitKeeps(s, n, now, nextRun, callbackId, t);
    } else {
      BlindCommitKeeps(s, n, now, nextRun, callbackId, t);
    }
    CallsStay(s, t);
    forall m | m in t.reports ensures ReportOk(t, t.reports[m]) {
      ReportStays(s, t, s.reports[m]);
    }
  }

  lemma InsertKnown(s: Database, id: JobId, t: Database, declared: map<JobId, set<JobId>>, acked: set<JobId>)
    requires Workflow.Healthy(s, declared, acked)
    requires id in declared && declared[id] == {} && id !in s.jobs && id !in acked
    requires t.deps == s.deps && t.jobs.Keys == s.jobs.Keys + {id} && t.jobs[id].status.Pending?
    requires forall j :: j in s.jobs ==> t.jobs[j] == s.jobs[j]
    ensures Workflow.Healthy(t, declared, acked)
  {
    forall e | e in s.deps ensures e.child != id && e.parent != id {
    }
  }

  /** A statement on a lock row, or the end of a call. */
  lemma LockIsSound(s: State, t: State)
    requires Sound(s) && t.reports == s.reports && t.late == s.late && t.w.acked == s.w.acked
    requires t.w.declared == s.w.declared && t.w.db == s.w.db.(locks := t.w.db.locks)
    requires t.calls.Keys <= s.calls.Keys && forall id :: id in t.calls ==> t.calls[id].env == s.calls[id].env
    requires forall id :: id in t.calls && t.calls[id] != s.calls[id] ==> t.calls[id].IsKeyed()
    ensures Sound(t)
  {
    Workflow.SameStatuses(s.w.db, t.w.db, s.w.declared, s.w.acked);
    forall n | n in t.reports ensures ReportOk(t, t.reports[n]) {
      ReportStays(s, t, s.reports[n]);
    }
  }

  lemma InsertIsSound(s: State, id: JobId, now: int, t: State)
    requires Sound(s) && id in s.calls && s.calls[id].phase.Ready? && t == AfterAdvance(s, id, now)
    ensures Sound(t)
  {
    InsertKnown(s.w.db, id, t.w.db, s.w.declared, s.w.acked);
    forall n | n in t.reports ensures ReportOk(t, t.reports[n]) {
      assert ReportOk(s, s.reports[n]);
    }
  }

  lemma MoveIsSound(s: State, id: JobId, phase: Phase, locks: map<string, Lock>, t: State)
    requires Sound(s) && id in s.calls && s.calls[id].IsKeyed() && t == Move(WithLocks(s, locks), id, phase)
    ensures Sound(t)
  {
    assert forall j :: j in t.calls && j != id ==> t.calls[j] == s.calls[j];
    LockIsSound(s, t);
  }

  lemma AdvanceOnLocks(s: State, id: JobId, now: int, t: State)
    requires id in s.calls && !s.calls[id].phase.Ready? && t == AfterAdvance(s, id, now)
    ensures t.w == s.w.(db := s.w.db.(locks := t.w.db.locks))
    ensures t.reports == s.reports && t.late == s.late && t.calls.Keys <= s.calls.Keys
  {
    match s.calls[id].phase
    case Inserting => MovedWithLocks(s, id, Reading, t.w.db.locks);
    case TakingOver => MovedWithLocks(s, id, Ready, t.w.db.locks);
    case Reading =>
    case Checking(_, _) =>
  }

  lemma MovedWithLocks(s: State, id: JobId, phase: Phase, locks: map<string, Lock>)
    requires id in s.calls
    ensures var t := Move(WithLocks(s, locks), id, phase);
            && t.w == s.w.(db := s.w.db.(locks := locks)) && t.calls.Keys == s.calls.Keys
            && t.reports == s.reports && t.late == s.late
  {
  }

  lemma AdvanceLeavesRows(s: State, id: JobId, now: int, t: State)
    requires id in s.calls && t == AfterAdvance(s, id, now)
    ensures s.w.db.jobs.Keys <= t.w.db.jobs.Keys && t.reports == s.reports && t.late == s.late
  {
    if s.calls[id].phase.Ready? {
      assert t.w.db.jobs.Keys == s.w.db.jobs.Keys + {id};
    } else {
      AdvanceOnLocks(s, id, now, t);
    }
  }

  lemma AdvanceIsSound(s: State, id: JobId, now: int, t: State)
    requires Sound(s) && id in s.calls && t == AfterAdvance(s, id, now)
    ensures Sound(t)
  {
    if s.calls[id].phase.Ready? {
      InsertIsSound(s, id, now, t);
    } else if id !in t.calls {
      assert t == End(s, id);
      LockIsSound(s, t);
    } else {
      assert t == Move(WithLocks(s, t.w.db.locks), id, t.calls[id].phase);
      MoveIsSound(s, id, t.calls[id].phase, t.w.db.locks, t);
    }
  }

  lemma BeginIsSound(s: State, env: Envelope, now: int, t: State)
    requires Sound(s) && Fresh(s.w, env.jobId) && env.jobId !in s.calls && t == AfterBegin(s, env, now)
    ensures Sound(t)
  {
    forall e | e in s.w.db.deps ensures e.child != env.jobId {
    }
    assert forall id :: id in s.calls ==> t.calls[id] == s.calls[id];
    forall n | n in t.reports ensures ReportOk(t, t.reports[n]) {
      assert ReportOk(s, s.reports[n]);
    }
  }

  lemma LookedWell(s: State, r: Report)
    requires Sound(s) && (r.kind.Cancels? || MayReport(s, r.id)) && r.read == Ops.ReadColumns(s.w.db.jobs, r.id)
    requires r.kind.Fails? ==> r.read.Some?
    ensures ReportOk(s, r)
  {
    if r.id in s.w.db.jobs {
      assert Workflow.RowOk(s.w.db.deps, s.w.declared[r.id], s.w.acked, r.id, s.w.db.jobs[r.id].status);
    }
  }

  lemma LookIsSound(s: State, n: nat, kind: Kind, id: JobId, t: State)
    requires Sound(s) && CanStep(s, Look(n, kind, id), t)
    ensures Sound(t)
  {
    var read := Ops.ReadColumns(s.w.db.jobs, id);
    if !(kind.Fails? && read.None?) {
      LookedWell(s, Report(kind, id, read));
      forall m | m in t.reports ensures ReportOk(t, t.reports[m]) {
        if m != n {
          ReportStays(s, t, s.reports[m]);
        } else {
          ReportStays(s, t, Report(kind, id, read));
        }
      }
    }
  }

  lemma StepIsSound(s: State, act: Action, t: State)
    requires Sound(s) && CanStep(s, act, t)
    ensures Sound(t)
  {
    match act
    case Begin(env, now) => BeginIsSound(s, env, now, t);
    case Advance(id, now) => AdvanceIsSound(s, id, now, t);
    case Abandon(_) =>
    case Look(n, kind, id) => LookIsSound(s, n, kind, id, t);
    case Commit(n, now, nextRun, callbackId) => CommitIsSound(s, n, now, nextRun, callbackId, t);
    case Drop(_) =>
    case Transact(op) => TransactIsSound(s, op, t);
  }

  lemma EmptyIsSound()
    ensures Sound(EMPTY_STATE)
  {
    forall a ensures !Reach(EMPTY.db.deps, a, a) {
      DescendantsAre(EMPTY.db.deps, a, a);
    }
  }

  lemma {:induction false} PathIsSound(ss: seq<State>, acts: seq<Action>, n: nat)
    requires IsPath(ss, acts) && n < |ss| && Sound(ss[0])
    ensures Sound(ss[n])
    decreases n
  {
    if n > 0 {
      PathIsSound(ss, acts, n - 1);
      StepIsSound(ss[n - 1], acts[n - 1], ss[n]);
    }
  }

  /** Whatever calls interrupt each other, cancellations and late reports included, workflows stay healthy. */
  lemma WorkflowsStayHealthy(ss: seq<State>, acts: seq<Action>, n: nat)
    requires IsInterleaving(ss, acts) && n < |ss|
    ensures Workflow.Inv(ss[n].w)
  {
    EmptyIsSound();
    PathIsSound(ss, acts, n);
  }

  // When nobody takes a row away under a call

  /** Nobody cancels or purges a job between the read of another call about it and that call's transaction. */
  ghost predicate LeavesReports(s: State, act: Action)
  {
    match act
    case Commit(n, _, _, _) =>
      n in s.reports && s.reports[n].kind.Cancels? ==>
        forall m :: m in s.reports && m != n ==> s.reports[m].id != s.reports[n].id
    case Transact(op) => op.Forget? ==> forall m :: m in s.reports ==> s.reports[m].id !in op.ids
    case _ => true
  }

  /** Every row that a call has read is still there. */
  ghost predicate NoneStale(s: State) {
    forall n :: n in s.reports ==> !Stale(s.w.db, s.reports[n])
  }

  lemma RowsStay(w: World, op: Op, w': World)
    requires Workflow.EdgesOk(w.db, w.declared) && Allowed(w, op) && Next(w, op, w') && !op.Cancel? && !op.Forget?
    ensures w.db.jobs.Keys <= w'.db.jobs.Keys
  {
    if Workflow.IsLateReport(w, op) {
      Workflow.LateReport(w, op, w');
    } else if op.EnqueueWorkflow? {
      if w' != w {
        Workflow.WorkflowInserted(w.db, op.envs, op.now);
      }
    } else if op.Ack? {
      AckRowsStay(w, op.id, op.now, op.callbackId, w');
    } else if op.SubmitBatch? {
      var r := Ops.SubmitBatch(w.db, op.batchId, op.now, op.callbackId);
      assert r.Some? ==> w'.db == r.value.db && Ops.AddsCallbackOnly(w.db, r.value, op.callbackId);
    }
  }

  lemma AckRowsStay(w: World, id: JobId, now: int, callbackId: JobId, w': World)
    requires id in w.db.jobs && w' == AfterAck(w, id, now, callbackId)
    ensures w.db.jobs.Keys <= w'.db.jobs.Keys
  {
    if w' != w {
      Ops.AckRows(w.db, id, now, callbackId);
    }
  }

  lemma CommitLeavesRows(s: State, n: nat, now: int, nextRun: int, callbackId: JobId, t: State)
    requires Sound(s) && NoneStale(s) && CanCommit(s, n, now, nextRun, callbackId, t)
    requires LeavesReports(s, Commit(n, now, nextRun, callbackId))
    ensures NoneStale(t) && t.late == s.late
  {
    var r := s.reports[n];
    assert ReportOk(s, r);
    ReportCases(s, r);
    if !r.kind.Cancels? {
      UpToDateCommit(s, n, now, nextRun, callbackId, t);
      RowsStay(s.w, OpOf(r, now, nextRun, callbackId), t.w);
    }
  }

  lemma RowsStayThere(s: State, t: State)
    requires NoneStale(s) && s.w.db.jobs.Keys <= t.w.db.jobs.Keys
    requires forall n :: n in t.reports ==> n in s.reports && t.reports[n] == s.reports[n]
    ensures NoneStale(t)
  {
  }

  lemma TransactLeavesRows(s: State, op: Op, t: State)
    requires Sound(s) && NoneStale(s) && LeavesReports(s, Transact(op)) && CanTransact(s, op, t)
    ensures NoneStale(t)
  {
    if !op.Forget? {
      RowsStay(s.w, op, t.w);
      RowsStayThere(s, t);
    }
  }

  lemma LookLeavesRows(s: State, n: nat, kind: Kind, id: JobId, t: State)
    requires NoneStale(s) && t == AfterLook(s, n, kind, id)
    ensures NoneStale(t) && t.late == s.late
  {
  }

  lemma StepLeavesRows(s: State, act: Action, t: State)
    requires Sound(s) && NoneStale(s) && LeavesReports(s, act) && CanStep(s, act, t)
    ensures NoneStale(t) && t.late == s.late
  {
    match act
    case Begin(_, _) => RowsStayThere(s, t);
    case Advance(id, now) =>
      AdvanceLeavesRows(s, id, now, t);
      RowsStayThere(s, t);
    case Abandon(_) => RowsStayThere(s, t);
    case Look(n, kind, id) => LookLeavesRows(s, n, kind, id, t);
    case Commit(n, now, nextRun, callbackId) => CommitLeavesRows(s, n, now, nextRun, callbackId, t);
    case Drop(_) => RowsStayThere(s, t);
    case Transact(op) => TransactLeavesRows(s, op, t);
  }

  lemma {:induction false} NeverStale(ss: seq<State>, acts: seq<Action>, n: nat)
    requires IsInterleaving(ss, acts) && n < |ss|
    requires forall i {:trigger acts[i]} :: 0 <= i < n ==> LeavesReports(ss[i], acts[i])
    ensures NoneStale(ss[n]) && ss[n].late == {}
    decreases n
  {
    if n > 0 {
      NeverStale(ss, acts, n - 1);
      EmptyIsSound();
      PathIsSound(ss, acts, n - 1);
      StepLeavesRows(ss[n - 1], acts[n - 1], ss[n]);
    }
  }
}
