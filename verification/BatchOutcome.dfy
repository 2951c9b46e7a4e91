/** Exactly when the callback of an SQL batch is enqueued, whatever calls interrupt each other. */
module BatchOutcome {
  import opened Graph
  import opened Tables
  import opened Cascade
  import Ops = Operations
  import opened Runs
  import opened Reports
  import opened Interleaving
  import opened BatchRace
  import Batch = SqlBatch
  import Unique = UniqueLocks
  import opened KeyTouches
  import Keys = KeySafety
  import Release = KeyRelease

  /** The step completes the batch: a submission when nothing is open, or what counts down the last open member. */
  ghost predicate Completes(s: State, act: Action, b: string)
  {
    match act
    case Transact(op) => op.SubmitBatch? && Batch.Completes(Counted(s), op, b)
    case Commit(n, now, _, _) => n in s.reports && s.reports[n].kind.Acks? && CompletesBy(s, s.reports[n], now, b)
    case _ => false
  }

  ghost predicate CompletesBy(s: State, r: Report, now: int, b: string) {
    && r.Seen().batchId == b && Batch.IsSealed(s.w, b) && !s.w.db.batches[b].Expired(now)
    && MembersOf(s.w, b) <= s.w.acked + s.late + {r.id}
  }

  lemma OpFires(s: State, op: Op, t: State, b: string)
    requires Batch.Inv(Counted(s)) && Allowed(s.w, op) && Next(s.w, op, t.w)
    ensures Count(t.w.fired, b) == Count(s.w.fired, b) + One(Batch.Completes(Counted(s), op, b))
  {
    NextCounted(s.w, op, t.w, s.late);
    Batch.FiresStep(Counted(s), op, t.w.(acked := t.w.acked + s.late), b);
  }

  lemma UpToDateFires(s: State, n: nat, now: int, nextRun: int, callbackId: JobId, t: State, b: string)
    requires Inv(s) && CanCommit(s, n, now, nextRun, callbackId, t)
    requires UpToDate(s.w.db, s.reports[n]) && !Stale(s.w.db, s.reports[n])
    ensures Count(t.w.fired, b) == Count(s.w.fired, b) + One(Completes(s, Commit(n, now, nextRun, callbackId), b))
  {
    var r, op := s.reports[n], OpOf(s.reports[n], now, nextRun, callbackId);
    UpToDateCommit(s, n, now, nextRun, callbackId, t);
    OpFires(s, op, t, b);
    if r.kind.Acks? {
      SameCompletion(s, r, now, callbackId, b);
    }
  }

  lemma SameCompletion(s: State, r: Report, now: int, callbackId: JobId, b: string)
    requires Batch.MembersOk(Counted(s)) && UpToDate(s.w.db, r) && r.kind.Acks?
    ensures Batch.Completes(Counted(s), Ack(r.id, now, callbackId), b) <==> CompletesBy(s, r, now, b)
  {
    assert "" !in s.w.db.batches by {
      assert "" !in Counted(s).db.batches;
    }
    assert MembersOf(Counted(s), b) == MembersOf(s.w, b);
    assert r.Seen().batchId == BatchIdOf(s.w.db.jobs, r.id);
  }

  /** Counting down late completes a batch by the counter exactly when it does so by the member list. */
  lemma LateIsLast(s: State, n: nat, b: string)
    requires Inv(s) && n in s.reports && CountsDown(s.w.db, s.reports[n]) && Stale(s.w.db, s.reports[n])
    requires b == s.reports[n].Seen().batchId
    ensures s.w.db.batches[b].pending == 1 <==> MembersOf(s.w, b) <= s.w.acked + s.late + {s.reports[n].id}
  {
    OnlyBatch(s, n);
    assert Batch.CounterOk(Counted(s), b);
    assert MembersOf(Counted(s), b) == MembersOf(s.w, b);
    Batch.LastOpen(Counted(s), b, s.reports[n].id);
  }

  /** By the counter, a late acknowledgement completes the batch exactly when it is the last by the member list. */
  lemma LateCompletes(s: State, n: nat, now: int, b: string)
    requires Inv(s) && n in s.reports && Stale(s.w.db, s.reports[n]) && CountsDown(s.w.db, s.reports[n])
    ensures CompletesBy(s, s.reports[n], now, b) <==>
            && b == s.reports[n].Seen().batchId && s.w.db.batches[b].status.Sealed?
            && s.w.db.batches[b].pending == 1 && !s.w.db.batches[b].Expired(now)
  {
    LateIsLast(s, n, s.reports[n].Seen().batchId);
  }

  lemma CompletesNothing(s: State, r: Report, now: int, b: string)
    requires Batch.MembersOk(Counted(s)) && !CountsDown(s.w.db, r)
    ensures !(r.kind.Acks? && CompletesBy(s, r, now, b))
  {
    assert "" !in Counted(s).db.batches;
  }

  lemma LateFiresCount(s: State, n: nat, now: int, callbackId: JobId, t: State, b: string)
    requires n in s.reports && CountsDown(s.w.db, s.reports[n]) && LateFires(s, n, now, callbackId, t)
    ensures var c := s.reports[n].Seen().batchId;
            var row := s.w.db.batches[c];
            Count(t.w.fired, b) ==
              Count(s.w.fired, b) + One(b == c && row.status.Sealed? && row.pending == 1 && !row.Expired(now))
  {
  }

  lemma LateFiresBy(s: State, n: nat, now: int, callbackId: JobId, t: State, b: string)
    requires Inv(s) && n in s.reports && Stale(s.w.db, s.reports[n]) && CountsDown(s.w.db, s.reports[n])
    requires LateFires(s, n, now, callbackId, t)
    ensures Count(t.w.fired, b) == Count(s.w.fired, b) + One(CompletesBy(s, s.reports[n], now, b))
  {
    LateFiresCount(s, n, now, callbackId, t, b);
    LateCompletes(s, n, now, b);
  }

  lemma StaleFires(s: State, n: nat, now: int, nextRun: int, callbackId: JobId, t: State, b: string)
    requires Inv(s) && CanCommit(s, n, now, nextRun, callbackId, t) && Stale(s.w.db, s.reports[n])
    ensures Count(t.w.fired, b) == Count(s.w.fired, b) + One(Completes(s, Commit(n, now, nextRun, callbackId), b))
  {
    StaleCommit(s, n, now, nextRun, callbackId, t);
    if CountsDown(s.w.db, s.reports[n]) {
      LateFiresBy(s, n, now, callbackId, t, b);
    } else {
      CompletesNothing(s, s.reports[n], now, b);
    }
  }

  lemma CommitFires(s: State, n: nat, now: int, nextRun: int, callbackId: JobId, t: State, b: string)
    requires Inv(s) && CanCommit(s, n, now, nextRun, callbackId, t)
    ensures Count(t.w.fired, b) == Count(s.w.fired, b) + One(Completes(s, Commit(n, now, nextRun, callbackId), b))
  {
    assert ReportOk(s, s.reports[n]);
    ReportCases(s, s.reports[n]);
    if Stale(s.w.db, s.reports[n]) {
      StaleFires(s, n, now, nextRun, callbackId, t, b);
    } else if UpToDate(s.w.db, s.reports[n]) {
      UpToDateFires(s, n, now, nextRun, callbackId, t, b);
    } else {
      BlindCommit(s, n, now, nextRun, callbackId, t);
    }
  }

  lemma AdvanceFiresNothing(s: State, id: JobId, now: int, t: State)
    requires id in s.calls && t == AfterAdvance(s, id, now)
    ensures t.w.fired == s.w.fired && t.w.acked == s.w.acked && t.w.members == s.w.members && t.late == s.late
    ensures t.w.db.batches == s.w.db.batches && t.w.submits == s.w.submits
  {
    if !s.calls[id].phase.Ready? {
      AdvanceOnLocks(s, id, now, t);
    }
  }

  lemma FiresStep(s: State, act: Action, t: State, b: string)
    requires Inv(s) && CanStep(s, act, t)
    ensures Count(t.w.fired, b) == Count(s.w.fired, b) + One(Completes(s, act, b))
  {
    match act
    case Transact(op) => OpFires(s, op, t, b);
    case Commit(n, now, nextRun, callbackId) => CommitFires(s, n, now, nextRun, callbackId, t, b);
    case Advance(id, now) => AdvanceFiresNothing(s, id, now, t);
    case _ =>
  }

  /** In every interleaving a step enqueues the callback exactly when it completes the batch, and then once. */
  lemma FiresIff(ss: seq<State>, acts: seq<Action>, k: nat, b: string)
    requires IsInterleaving(ss, acts) && k < |acts|
    ensures Count(ss[k + 1].w.fired, b) == Count(ss[k].w.fired, b) + One(Completes(ss[k], acts[k], b))
  {
    EveryRun(ss, acts, k);
    FiresStep(ss[k], acts[k], ss[k + 1], b);
  }

  // Lost members

  /** A member that is dead, cancelled or purged and has not been counted down. */
  ghost predicate Lost(s: State, b: string, id: JobId) {
    Batch.Lost(Counted(s), b, id)
  }

  predicate AcksOf(r: Report, id: JobId) {
    r.kind.Acks? && r.read.Some? && r.id == id
  }

  /** The worker of the job has read its row and not sent off its acknowledgement yet. */
  ghost predicate AckUnderWay(s: State, id: JobId) {
    exists n :: n in s.reports && AcksOf(s.reports[n], id)
  }

  lemma OpLosesNothing(s: State, op: Op, t: State, b: string, id: JobId)
    requires Batch.Inv(Counted(s)) && Allowed(s.w, op) && Next(s.w, op, t.w) && t.late == s.late && Lost(s, b, id)
    ensures Lost(t, b, id)
  {
    NextCounted(s.w, op, t.w, s.late);
    Batch.StaysLost(Counted(s), op, Counted(t), b, id);
  }

  lemma StaleLosesNothing(s: State, n: nat, now: int, nextRun: int, callbackId: JobId, t: State, b: string, id: JobId)
    requires Inv(s) && CanCommit(s, n, now, nextRun, callbackId, t) && Stale(s.w.db, s.reports[n])
    requires Lost(s, b, id) && id !in t.late
    ensures Lost(t, b, id)
  {
    StaleDoes(s.w, s.reports[n], now, nextRun, callbackId, t.w);
    StaleCommit(s, n, now, nextRun, callbackId, t);
    StaleAddsAtMost(s.w, s.reports[n], now, callbackId, t.w);
    StaysGone(s, callbackId, t, b, id);
  }

  lemma CommitLosesNothing(s: State, n: nat, now: int, nextRun: int, callbackId: JobId, t: State, b: string, id: JobId)
    requires Inv(s) && CanCommit(s, n, now, nextRun, callbackId, t) && Lost(s, b, id) && id !in t.late
    ensures Lost(t, b, id)
  {
    var r := s.reports[n];
    assert ReportOk(s, r);
    ReportCases(s, r);
    if Stale(s.w.db, r) {
      StaleLosesNothing(s, n, now, nextRun, callbackId, t, b, id);
    } else if UpToDate(s.w.db, r) {
      UpToDateCommit(s, n, now, nextRun, callbackId, t);
      assert t.late == s.late;
      OpLosesNothing(s, OpOf(r, now, nextRun, callbackId), t, b, id);
    } else {
      BlindLosesNothing(s, n, now, nextRun, callbackId, t, b, id);
    }
  }

  lemma BlindLosesNothing(s: State, n: nat, now: int, nextRun: int, callbackId: JobId, t: State, b: string, id: JobId)
    requires Inv(s) && CanCommit(s, n, now, nextRun, callbackId, t) && Lost(s, b, id)
    requires s.reports[n].kind.Cancels? && s.reports[n].read.None?
    ensures Lost(t, b, id)
  {
    BlindCommit(s, n, now, nextRun, callbackId, t);
  }

  lemma StaysGone(s: State, callbackId: JobId, t: State, b: string, id: JobId)
    requires Inv(s) && Lost(s, b, id) && id !in t.late && Fresh(s.w, callbackId)
    requires AddsAtMost(s.w, callbackId, t.w) && t.w.members == s.w.members
    ensures Lost(t, b, id)
  {
    assert id in Counted(s).members[b];
    assert id != callbackId;
  }

  lemma AdvanceLosesNothing(s: State, id: JobId, now: int, t: State, b: string, lost: JobId)
    requires Inv(s) && id in s.calls && t == AfterAdvance(s, id, now) && Lost(s, b, lost)
    ensures Lost(t, b, lost)
  {
    AdvanceFiresNothing(s, id, now, t);
    assert lost in MembersOf(s.w, b);
    if s.calls[id].phase.Ready? {
      assert t.w.db.jobs == s.w.db.jobs[id := t.w.db.jobs[id]];
    } else {
      AdvanceOnLocks(s, id, now, t);
    }
  }

  lemma LosesNothing(s: State, act: Action, t: State, b: string, id: JobId)
    requires Inv(s) && CanStep(s, act, t) && Lost(s, b, id) && id !in t.late
    ensures Lost(t, b, id)
  {
    match act
    case Transact(op) => OpLosesNothing(s, op, t, b, id);
    case Commit(n, now, nextRun, callbackId) => CommitLosesNothing(s, n, now, nextRun, callbackId, t, b, id);
    case Advance(j, now) => AdvanceLosesNothing(s, j, now, t, b, id);
    case _ =>
  }

  /** While a lost member is not counted down, no step completes its batch. */
  lemma LostHoldsBack(s: State, act: Action, t: State, b: string, id: JobId)
    requires Inv(s) && CanStep(s, act, t) && Lost(s, b, id) && id !in t.late
    ensures !Completes(s, act, b)
  {
    assert id in MembersOf(s.w, b) && id !in s.w.acked + s.late;
    if act.Commit? && Completes(s, act, b) {
      var r := s.reports[act.n];
      assert r.id == id && ReportOk(s, r);
      assert "" !in Counted(s).db.batches;
      assert Stale(s.w.db, r) && CountsDown(s.w.db, r);
    }
  }

  /** Only an acknowledgement under way counts a lost member down, and none gets under way any more. */
  lemma NoneGetsUnderWay(s: State, act: Action, t: State, id: JobId)
    requires Inv(s) && CanStep(s, act, t) && Batch.Gone(s.w.db, id) && !AckUnderWay(s, id)
    ensures !AckUnderWay(t, id) && (id in t.late ==> id in s.late)
  {
    if act.Advance? {
      AdvanceLeavesRows(s, act.id, act.now, t);
    }
    if n :| n in t.reports && AcksOf(t.reports[n], id) {
      assert false;
    }
  }

  lemma {:induction false} LostPath(ss: seq<State>, acts: seq<Action>, m: nat, b: string, id: JobId)
    requires IsPath(ss, acts) && Inv(ss[0]) && m < |ss| && Lost(ss[0], b, id) && !AckUnderWay(ss[0], id)
    ensures Inv(ss[m]) && Lost(ss[m], b, id) && !AckUnderWay(ss[m], id)
    ensures Count(ss[m].w.fired, b) == Count(ss[0].w.fired, b)
    decreases m
  {
    if m > 0 {
      LostPath(ss, acts, m - 1, b, id);
      LostStep(ss[m - 1], acts[m - 1], ss[m], b, id);
    }
  }

  lemma LostStep(s: State, act: Action, t: State, b: string, id: JobId)
    requires Inv(s) && CanStep(s, act, t) && Lost(s, b, id) && !AckUnderWay(s, id)
    ensures Inv(t) && Lost(t, b, id) && !AckUnderWay(t, id) && Count(t.w.fired, b) == Count(s.w.fired, b)
  {
    Step(s, act, t);
    NoneGetsUnderWay(s, act, t, id);
    LosesNothing(s, act, t, b, id);
    LostHoldsBack(s, act, t, b, id);
    FiresStep(s, act, t, b);
  }

  /**
   * Once a member is dead, cancelled or purged, and no acknowledgement that has read its row is under way, the callback
   * is never enqueued again, in whatever continuation.
   */
  lemma SuppressedForever(ss: seq<State>, acts: seq<Action>, n: nat, tt: seq<State>, more: seq<Action>, m: nat,
                          b: string, id: JobId)
    requires IsInterleaving(ss, acts) && n < |ss| && Lost(ss[n], b, id) && !AckUnderWay(ss[n], id)
    requires IsPath(tt, more) && tt[0] == ss[n] && m < |tt|
    ensures Lost(tt[m], b, id) && Count(tt[m].w.fired, b) == Count(ss[n].w.fired, b)
  {
    EveryRun(ss, acts, n);
    LostPath(tt, more, m, b, id);
  }

  /** Some continuation counts the job down after all. */
  ghost predicate CanStillCount(s: State, id: JobId) {
    exists ss: seq<State>, acts :: IsPath(ss, acts) && ss[0] == s && id in ss[|acts|].late
  }

  lemma LostIsStale(s: State, n: nat, b: string, id: JobId)
    requires Inv(s) && Lost(s, b, id) && n in s.reports && AcksOf(s.reports[n], id)
    ensures Stale(s.w.db, s.reports[n]) && CountsDown(s.w.db, s.reports[n])
  {
    assert ReportOk(s, s.reports[n]);
    assert id in MembersOf(s.w, b) && b in Counted(s).members;
  }

  lemma CountsLate(s: State, n: nat, b: string, id: JobId)
    requires Inv(s) && Lost(s, b, id) && n in s.reports && AcksOf(s.reports[n], id)
    ensures CanStillCount(s, id)
  {
    var r := s.reports[n];
    LostIsStale(s, n, b, id);
    var callbackId := Unused(s.w.declared.Keys + s.w.db.jobs.Keys);
    var t := StaleCommitted(s, n, 0, callbackId);
    CountsInOneStep(s, Commit(n, 0, 0, callbackId), t, id);
  }

  lemma CountsInOneStep(s: State, act: Action, t: State, id: JobId)
    requires CanStep(s, act, t) && id in t.late
    ensures CanStillCount(s, id)
  {
    var ss, acts := [s, t], [act];
    assert IsPath(ss, acts) && ss[0] == s && ss[|acts|] == t;
  }

  /** The transaction of a call whose row has gone can come at any time. */
  lemma StaleCommitted(s: State, n: nat, now: int, callbackId: JobId) returns (t: State)
    requires Sound(s) && n in s.reports && Stale(s.w.db, s.reports[n]) && Fresh(s.w, callbackId)
    ensures CanCommit(s, n, now, 0, callbackId, t) && t.late == s.late + CountedLate(s.w, s.reports[n])
  {
    var r := s.reports[n];
    t := s.(w := AfterStale(s.w, r, now, callbackId), reports := s.reports - {n}, late := s.late + CountedLate(s.w, r));
    StaleDoes(s.w, r, now, 0, callbackId, t.w);
  }

  /** A lost member can still be counted down exactly while an acknowledgement that has read its row is under way. */
  lemma CountableIff(ss: seq<State>, acts: seq<Action>, n: nat, b: string, id: JobId)
    requires IsInterleaving(ss, acts) && n < |ss| && Lost(ss[n], b, id)
    ensures AckUnderWay(ss[n], id) <==> CanStillCount(ss[n], id)
  {
    EveryRun(ss, acts, n);
    if k :| k in ss[n].reports && AcksOf(ss[n].reports[k], id) {
      CountsLate(ss[n], k, b, id);
    } else if CanStillCount(ss[n], id) {
      var tt: seq<State>, more :| IsPath(tt, more) && tt[0] == ss[n] && id in tt[|more|].late;
      LostPath(tt, more, |more|, b, id);
    }
  }

  /** Where every row that a call has read is still there, no acknowledgement of a lost member is under way. */
  lemma CancelledAlone(ss: seq<State>, acts: seq<Action>, n: nat, b: string, id: JobId)
    requires IsInterleaving(ss, acts) && n < |ss| && NoneStale(ss[n]) && Lost(ss[n], b, id)
    ensures !AckUnderWay(ss[n], id)
  {
    EveryRun(ss, acts, n);
    if k :| k in ss[n].reports && AcksOf(ss[n].reports[k], id) {
      assert false;
    }
  }

  // Exactly once

  /** The step reads the clock for a batch past its deadline. */
  ghost predicate Late(s: State, act: Action, b: string)
  {
    match act
    case Transact(op) => Batch.Late(s.w, op, b)
    case Commit(n, now, _, _) =>
      n in s.reports && s.reports[n].kind.Acks? && b in s.w.db.batches && s.w.db.batches[b].Expired(now)
    case _ => false
  }

  /** A member whose row has gone is reported as failed for good, which fails the batch. */
  predicate FailsGone(s: State, act: Action, b: string) {
    act.Commit? && act.n in s.reports && s.reports[act.n].kind.Fails? && Stale(s.w.db, s.reports[act.n])
    && s.reports[act.n].Seen().batchId == b
  }

  /** The step leaves no member dead, is no failure of a member whose row has gone, and keeps the deadline. */
  ghost predicate Mild(s: State, act: Action, t: State, b: string) {
    Batch.NoneDead(t.w, b) && !Late(s, act, b) && !FailsGone(s, act, b)
  }

  ghost predicate Quiet(ss: seq<State>, acts: seq<Action>, n: nat, b: string)
    requires |ss| == |acts| + 1 && n < |ss|
  {
    forall i {:trigger acts[i]} :: 0 <= i < n ==> Mild(ss[i], acts[i], ss[i + 1], b)
  }

  lemma CalmLate(w: World, c: string, s: Database, e: Ops.Effect, now: int, callbackId: JobId, w': World, b: string)
    requires Batch.Calm(w, b) && s.batches == w.db.batches
    requires Ops.HandleBatchAck(s, c, now, callbackId) == Some(e) && w' == WithEffect(w, e, c, callbackId)
    requires b in w.db.batches ==> w.db.batches[b].pending >= 0 && !w.db.batches[b].Expired(now)
    ensures Batch.Calm(w', b)
  {
  }

  lemma CalmTables(w: World, r: Report, b: string)
    requires Batch.Calm(w, b) && (r.kind.Fails? && r.Seen().batchId == b ==> b == "" || b !in w.db.batches)
    ensures Batch.Calm(w.(db := StaleTables(w.db, r)), b)
  {
  }

  lemma CalmStale(s: State, n: nat, now: int, nextRun: int, callbackId: JobId, t: State, b: string)
    requires Inv(s) && CanCommit(s, n, now, nextRun, callbackId, t) && Stale(s.w.db, s.reports[n])
    requires Batch.Calm(s.w, b) && (b in s.w.db.batches ==> s.w.db.batches[b].pending >= 0)
    requires var act := Commit(n, now, nextRun, callbackId); !Late(s, act, b) && !FailsGone(s, act, b)
    ensures Batch.Calm(t.w, b)
  {
    var r := s.reports[n];
    StaleDoes(s.w, r, now, nextRun, callbackId, t.w);
    if CountsDown(s.w.db, r) {
      var freed := Released(s.w.db, r.Seen());
      var e := Ops.HandleBatchAck(freed, r.Seen().batchId, now, callbackId);
      assert e.Some?;
      CalmLate(s.w, r.Seen().batchId, freed, e.value, now, callbackId, t.w, b);
    } else {
      CalmTables(s.w, r, b);
    }
  }

  lemma CalmBlind(w: World, id: JobId, w': World, b: string)
    requires Batch.MembersOk(w) && Batch.Calm(w, b) && Batch.NoneDead(w', b)
    requires Ops.CancelWith(w.db, id, NO_COLUMNS, w'.db) && w' == w.(db := w'.db)
    ensures Batch.Calm(w', b)
  {
    if b in w.db.batches {
      assert forall j :: j in w.db.jobs && w.db.jobs[j].batchId == b ==> j in MembersOf(w', b);
      var below := Descendants(w.db.deps, id);
      Batch.KillSpares(Ops.DeleteWith(w.db, id, NO_COLUMNS), below, below, w'.db, b);
    }
  }

  lemma CalmOp(s: State, op: Op, t: State, b: string)
    requires Inv(s) && Allowed(s.w, op) && Next(s.w, op, t.w)
    requires Batch.Calm(s.w, b) && !Batch.Late(s.w, op, b) && Batch.NoneDead(t.w, b)
    ensures Batch.Calm(t.w, b)
  {
    assert Batch.MembersOk(Counted(s));
    assert b in s.w.db.batches ==> Batch.CounterOk(Counted(s), b);
    Batch.CalmStep(s.w, op, t.w, b);
  }

  lemma CalmCommit(s: State, n: nat, now: int, nextRun: int, callbackId: JobId, t: State, b: string)
    requires Inv(s) && CanCommit(s, n, now, nextRun, callbackId, t)
    requires Batch.Calm(s.w, b) && Batch.NoneDead(t.w, b)
    requires var act := Commit(n, now, nextRun, callbackId); !Late(s, act, b) && !FailsGone(s, act, b)
    ensures Batch.Calm(t.w, b)
  {
    var r := s.reports[n];
    assert ReportOk(s, r);
    ReportCases(s, r);
    if Stale(s.w.db, r) {
      assert b in s.w.db.batches ==> Batch.CounterOk(Counted(s), b);
      CalmStale(s, n, now, nextRun, callbackId, t, b);
    } else if UpToDate(s.w.db, r) {
      UpToDateCommit(s, n, now, nextRun, callbackId, t);
      CalmOp(s, OpOf(r, now, nextRun, callbackId), t, b);
    } else {
      assert Batch.MembersOk(Counted(s));
      CalmBlind(s.w, r.id, t.w, b);
    }
  }

  lemma CalmStep(s: State, act: Action, t: State, b: string)
    requires Inv(s) && CanStep(s, act, t) && Batch.Calm(s.w, b) && Batch.NoneDead(t.w, b)
    requires !Late(s, act, b) && !FailsGone(s, act, b)
    ensures Batch.Calm(t.w, b)
  {
    match act
    case Transact(op) => CalmOp(s, op, t, b);
    case Commit(n, now, nextRun, callbackId) => CalmCommit(s, n, now, nextRun, callbackId, t, b);
    case Advance(id, now) => AdvanceFiresNothing(s, id, now, t);
    case _ =>
  }

  lemma CalmAt(ss: seq<State>, acts: seq<Action>, n: nat, k: nat, b: string)
    requires IsInterleaving(ss, acts) && k < n < |ss| && Quiet(ss, acts, n, b) && Batch.Calm(ss[k].w, b)
    ensures Batch.Calm(ss[k + 1].w, b)
  {
    EveryRun(ss, acts, k);
    assert Mild(ss[k], acts[k], ss[k + 1], b);
    CalmStep(ss[k], acts[k], ss[k + 1], b);
  }

  lemma {:induction false} CalmRun(ss: seq<State>, acts: seq<Action>, n: nat, m: nat, b: string)
    requires IsInterleaving(ss, acts) && m <= n < |ss| && Quiet(ss, acts, n, b)
    ensures Batch.Calm(ss[m].w, b)
    decreases m
  {
    if m > 0 {
      CalmRun(ss, acts, n, m - 1, b);
      CalmAt(ss, acts, n, m - 1, b);
    }
  }

  /**
   * One submission, all members counted down, none dead or failed, deadline kept: the callback was enqueued exactly
   * once, however the calls interrupted each other.
   */
  lemma ExactlyOnce(ss: seq<State>, acts: seq<Action>, n: nat, b: string)
    requires IsInterleaving(ss, acts) && n < |ss| && Quiet(ss, acts, n, b)
    requires b in ss[n].w.db.batches && Count(ss[n].w.submits, b) == 1
    requires MembersOf(ss[n].w, b) <= ss[n].w.acked + ss[n].late
    ensures Count(ss[n].w.fired, b) == 1
  {
    EveryRun(ss, acts, n);
    CalmRun(ss, acts, n, n, b);
    assert Batch.CounterOk(Counted(ss[n]), b);
    assert MembersOf(Counted(ss[n]), b) == MembersOf(ss[n].w, b);
    Batch.EmptyOpen(Counted(ss[n]), b);
  }

  // A lost member whose acknowledgement comes late

  /** Nothing is under way, and all there is is one batch with one member, which waits to be taken. */
  ghost predicate OneMember(s: State, b: string, id: JobId, row: Job) {
    && s.calls == map[] && s.reports == map[] && s.late == {} && s.w.acked == {} && s.w.fired == map[]
    && s.w.db.jobs == map[id := row] && row.status.Pending? && row.batchId == b
    && s.w.db.deps == {} && id in s.w.declared
    && MembersOf(s.w, b) == {id} && b in s.w.db.batches && s.w.db.batches[b].expiresAt.None?
    && s.w.db.batches[b].pending == 1
  }

  lemma FilledWithOne(b: string, queue: string, name: string, env: Envelope, now: int)
    returns (ss: seq<State>, acts: seq<Action>, row: Job)
    requires b != ""
    ensures Keys.IsSerialRun(ss, acts) && OneMember(ss[|acts|], b, env.jobId, row)
  {
    var s1 := EMPTY_STATE.(w := AfterCreateBatch(EMPTY, b, queue, name, None));
    var s2 := s1.(w := AfterEnqueueInBatch(s1.w, b, env, now));
    assert Keys.IsSerialRun([EMPTY_STATE], []);
    ss, acts := Release.Then([EMPTY_STATE], [], Transact(CreateBatch(b, queue, name, None)), s1);
    ss, acts := Release.Then(ss, acts, Transact(EnqueueInBatch(b, env, now)), s2);
    row := s2.w.db.jobs[env.jobId];
  }

  lemma SealedWithOne(b: string, queue: string, name: string, env: Envelope, now: int)
    returns (ss: seq<State>, acts: seq<Action>, row: Job)
    requires b != ""
    ensures Keys.IsSerialRun(ss, acts) && OneMember(ss[|acts|], b, env.jobId, row) && Batch.IsSealed(ss[|acts|].w, b)
  {
    ss, acts, row := FilledWithOne(b, queue, name, env, now);
    var s := ss[|acts|];
    var callbackId := Unused(s.w.declared.Keys + s.w.db.jobs.Keys);
    var t := s.(w := AfterSubmit(s.w, b, now, callbackId));
    ss, acts := Release.Then(ss, acts, Transact(SubmitBatch(b, now, callbackId)), t);
  }

  /**
   * The worker of the only member reads its row to acknowledge it, the member is cancelled and thereby lost, and then
   * the acknowledgement enqueues the callback.
   */
  lemma LateAckFires(b: string, queue: string, name: string, env: Envelope, now: int)
    returns (ss: seq<State>, acts: seq<Action>, callbackId: JobId, t: State)
    requires b != ""
    ensures IsInterleaving(ss, acts) && CanCommit(ss[|acts|], 0, now, 0, callbackId, t)
    ensures Lost(ss[|acts|], b, env.jobId) && Count(ss[|acts|].w.fired, b) == 0 && Count(t.w.fired, b) == 1
  {
    var row;
    ss, acts, row := SealedWithOne(b, queue, name, env, now);
    ss, acts := Release.CancelledUnderReport(ss, acts, ss[|acts|], env.jobId, row);
    var s := ss[|acts|];
    callbackId := Unused(s.w.declared.Keys + s.w.db.jobs.Keys);
    EveryRun(ss, acts, |acts|);
    t := StaleCommitted(s, 0, now, callbackId);
    FiresStep(s, Commit(0, now, 0, callbackId), t, b);
  }

  // Late reports that do no harm

  lemma CountsTwice(w: World, b: string, s: Database, e: Ops.Effect, now: int, callbackId: JobId, w': World)
    requires Batch.CountersOk(w) && b in w.db.batches && s.batches == w.db.batches
    requires Ops.HandleBatchAck(s, b, now, callbackId) == Some(e) && w' == WithEffect(w, e, b, callbackId)
    ensures !Batch.CountersOk(w')
  {
    assert Batch.Open(w', b) == Batch.Open(w, b) && Batch.CounterOk(w, b);
    assert w'.db.batches[b].pending == w.db.batches[b].pending - 1;
    assert !Batch.CounterOk(w', b);
  }

  lemma NamedIff(s: Database, key: string, t: Database)
    requires Unique.Named(s) && t.jobs == s.jobs && t.locks == s.locks - {key}
    ensures Unique.Named(t) <==> !LiveJobWith(s, key)
  {
    assert forall j :: Unique.Keyed(t, j) <==> Unique.Keyed(s, j);
  }

  lemma StillNamed(s: Database, t: Database)
    requires Unique.Named(s) && t.jobs == s.jobs && t.locks == s.locks
    ensures Unique.Named(t)
  {
    assert forall j :: Unique.Keyed(t, j) <==> Unique.Keyed(s, j);
  }

  /**
   * A report or cancellation whose row has gone leaves counters and locks right exactly when it counts no batch down
   * and frees no key that a live job has.
   */
  lemma HarmlessIff(w: World, r: Report, now: int, callbackId: JobId, w': World)
    requires Batch.Inv(w) && Unique.Inv(w) && Stale(w.db, r) && Fresh(w, callbackId)
    requires w' == AfterStale(w, r, now, callbackId)
    ensures Batch.CountersOk(w') && Unique.Named(w'.db) <==>
            !CountsDown(w.db, r) && !(FreesKey(w.db, r) && LiveJobWith(w.db, FreedKey(r)))
  {
    if CountsDown(w.db, r) {
      var freed, b := Released(w.db, r.Seen()), r.Seen().batchId;
      CountsTwice(w, b, freed, Ops.HandleBatchAck(freed, b, now, callbackId).value, now, callbackId, w');
    } else {
      StaleBystander(w, r);
      StaleLocks(w, r, now, callbackId, w');
      if FreesKey(w.db, r) {
        NamedIff(w.db, FreedKey(r), w'.db);
      } else {
        StillNamed(w.db, w'.db);
      }
    }
  }
}
