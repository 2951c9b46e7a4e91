/** The leader lease, a single row, and the workers that compete for it. */
module Lease {
  import opened Tables

  type ClientId = string

  /** The row: `expires` is the first moment at which others may take the lease. */
  datatype Row = Row(holder: ClientId, expires: int)

  predicate CanAcquire(row: Option<Row>, client: ClientId, now: int) {
    row.Some? ==> row.value.holder == client || now >= row.value.expires
  }

  function AfterAcquire(row: Option<Row>, client: ClientId, ttl: int, now: int): Option<Row> {
    if CanAcquire(row, client, now) then Some(Row(client, now + ttl)) else row
  }

  function AfterRelease(row: Option<Row>, client: ClientId): Option<Row> {
    if row.Some? && row.value.holder == client then None else row
  }

  class SqliteStorage {
    var row: Option<Row>

    method AcquireLeader(client: ClientId, ttl: int, now: int) returns (ok: bool)
      modifies this
      ensures ok <==> CanAcquire(old(row), client, now)
      ensures row == AfterAcquire(old(row), client, ttl, now)
    {
      if row.None? {
        row := Some(Row(client, now + ttl));
        return true;
      }
      if row.value.holder != client && now < row.value.expires {
        return false;
      }
      row := Some(row.value.(holder := client, expires := now + ttl));
      return true;
    }

    method ReleaseLeader(client: ClientId)
      modifies this
      ensures row == AfterRelease(old(row), client)
    {
      if row.Some? && row.value.holder == client {
        row := None;
      }
    }
  }

  class WorkerPool {
    const processId: ClientId
    const leaderTTL: int
    var isLeader: int

    constructor (processId: ClientId, leaderTTL: int)
      ensures this.processId == processId && this.leaderTTL == leaderTTL && isLeader == 0
    {
      this.processId, this.leaderTTL, isLeader := processId, leaderTTL, 0;
    }

    /** Stores the answer of the lease call; an error counts as a refusal and leaves the row alone. */
    method ElectLeader(storage: SqliteStorage, now: int, fails: bool)
      requires isLeader == 0 || isLeader == 1
      modifies this, storage
      ensures isLeader == if !fails && CanAcquire(old(storage.row), processId, now) then 1 else 0
      ensures storage.row ==
              if fails then old(storage.row) else AfterAcquire(old(storage.row), processId, leaderTTL, now)
    {
      if fails {
        isLeader := 0;
        return;
      }
      var ok := storage.AcquireLeader(processId, leaderTTL, now);
      if ok {
        if isLeader == 0 {
          isLeader := 1;
        }
      } else {
        if isLeader == 1 {
          isLeader := 0;
        }
      }
    }

    /** Whether leader-only loops act; without a lease time every worker acts. */
    method CheckLeader() returns (leads: bool)
      ensures leads <==> leaderTTL <= 0 || isLeader == 1
    {
      if leaderTTL <= 0 {
        return true;
      }
      return isLeader == 1;
    }
  }

  // All workers, interleaved. The lease call and the storing of its answer are two steps.

  /** `until` is the end of the last grant the worker got; `answer` is an answer not stored yet. */
  datatype Worker = Worker(running: bool, leader: bool, answer: Option<bool>, until: Option<int>)

  datatype Event = Granted(holder: ClientId, from: int, to: int) | Released(holder: ClientId)

  datatype World = World(row: Option<Row>, clock: int, workers: map<ClientId, Worker>, history: seq<Event>)

  datatype Action =
    | Start(w: ClientId)
    | Acquire(w: ClientId)
    | Fails(w: ClientId)
    | Store(w: ClientId)
    | Stop(w: ClientId)
    | Release(w: ClientId)
    | Tick(to: int)

  function After(s: World, a: Action, ttl: map<ClientId, int>): World
    requires Enabled(s, a, ttl)
  {
    match a
    case Start(w) => s.(workers := s.workers[w := Worker(true, false, None, None)])
    case Acquire(w) =>
      var ok := CanAcquire(s.row, w, s.clock);
      var x := s.workers[w];
      World(AfterAcquire(s.row, w, ttl[w], s.clock), s.clock,
            s.workers[w := x.(answer := Some(ok), until := if ok then Some(s.clock + ttl[w]) else x.until)],
            if ok then s.history + [Granted(w, s.clock, s.clock + ttl[w])] else s.history)
    case Fails(w) => s.(workers := s.workers[w := s.workers[w].(answer := Some(false))])
    case Store(w) => s.(workers := s.workers[w := s.workers[w].(leader := s.workers[w].answer.value, answer := None)])
    case Stop(w) => s.(workers := s.workers[w := s.workers[w].(running := false)])
    case Release(w) => s.(row := AfterRelease(s.row, w), history := s.history + [Released(w)])
    case Tick(to) => s.(clock := to)
  }

  /** A worker starts once, and gives the lease back only when it has stopped. */
  predicate Enabled(s: World, a: Action, ttl: map<ClientId, int>) {
    match a
    case Start(w) => w !in s.workers && w in ttl && ttl[w] > 0
    case Acquire(w) => w in s.workers && w in ttl && s.workers[w].answer.None?
    case Fails(w) => w in s.workers && s.workers[w].answer.None?
    case Store(w) => w in s.workers && s.workers[w].answer.Some?
    case Stop(w) => w in s.workers && s.workers[w].running
    case Release(w) => w in s.workers && !s.workers[w].running
    case Tick(to) => to >= s.clock
  }

  ghost predicate IsRun(ttl: map<ClientId, int>, ss: seq<World>, acts: seq<Action>)
  {
    && |ss| == |acts| + 1 && ss[0].row == None && ss[0].workers == map[] && ss[0].history == []
    && forall i {:trigger acts[i]} :: 0 <= i < |acts| ==>
         Enabled(ss[i], acts[i], ttl) && ss[i + 1] == After(ss[i], acts[i], ttl)
  }

  ghost predicate ReleasedAfter(history: seq<Event>, i: nat)
    requires i < |history|
  {
    exists k :: i < k < |history| && history[k] == Released(history[i].holder)
  }

  /** A grant its holder did not give back is the row itself, renewed since or not, until it ends. */
  ghost predicate GrantHolds(s: World, i: nat)
    requires i < |s.history| && s.history[i].Granted?
  {
    || ReleasedAfter(s.history, i)
    || s.history[i].to <= s.clock
    || (s.row.Some? && s.row.value.holder == s.history[i].holder && s.row.value.expires >= s.history[i].to)
  }

  predicate Rivals(a: Event, b: Event) {
    a.Granted? && b.Granted? && a.holder != b.holder
  }

  ghost predicate NoOverlap(history: seq<Event>)
  {
    forall i, j :: 0 <= i < j < |history| && Rivals(history[i], history[j]) ==>
      history[i].to <= history[j].from || ReleasedBetween(history, i, j)
  }

  ghost predicate ReleasedBetween(history: seq<Event>, i: nat, j: nat)
    requires i < j < |history|
  {
    exists k :: i < k < j && history[k] == Released(history[i].holder)
  }

  ghost predicate Bounded(ttl: map<ClientId, int>, s: World, i: nat)
    requires i < |s.history| && s.history[i].Granted?
  {
    var g := s.history[i];
    g.holder in ttl && g.from <= s.clock && g.to == g.from + ttl[g.holder]
  }

  /** A running worker's last grant is the row, until it ends. */
  ghost predicate WorkerHolds(s: World, w: ClientId)
    requires w in s.workers
  {
    var x := s.workers[w];
    x.running && x.until.Some? && s.clock < x.until.value ==> s.row == Some(Row(w, x.until.value))
  }

  /** The row is the last grant of its holder. */
  ghost predicate RowIsLast(s: World) {
    s.row.Some? ==> s.row.value.holder in s.workers && s.workers[s.row.value.holder].until == Some(s.row.value.expires)
  }

  ghost predicate Inv(ttl: map<ClientId, int>, s: World)
  {
    && RowIsLast(s)
    && (forall i :: 0 <= i < |s.history| && s.history[i].Granted? ==> Bounded(ttl, s, i) && GrantHolds(s, i))
    && NoOverlap(s.history)
    && forall w :: w in s.workers ==> WorkerHolds(s, w)
  }

  lemma HistoryStep(ttl: map<ClientId, int>, s: World, a: Action, t: World)
    requires Inv(ttl, s) && Enabled(s, a, ttl) && t == After(s, a, ttl)
    ensures forall i :: 0 <= i < |t.history| && t.history[i].Granted? ==> Bounded(ttl, t, i) && GrantHolds(t, i)
  {
    forall i | 0 <= i < |t.history| && t.history[i].Granted? ensures Bounded(ttl, t, i) && GrantHolds(t, i) {
      if i < |s.history| {
        assert t.history[i] == s.history[i] && Bounded(ttl, s, i) && GrantHolds(s, i);
        if ReleasedAfter(s.history, i) {
          var k :| i < k < |s.history| && s.history[k] == Released(s.history[i].holder);
          assert t.history[k] == s.history[k];
        } else if a.Release? && a.w == t.history[i].holder {
          assert t.history[|s.history|] == Released(t.history[i].holder);
        }
      }
    }
  }

  lemma OverlapStep(ttl: map<ClientId, int>, s: World, a: Action, t: World)
    requires Inv(ttl, s) && Enabled(s, a, ttl) && t == After(s, a, ttl)
    ensures NoOverlap(t.history)
  {
    forall i, j | 0 <= i < j < |t.history| && Rivals(t.history[i], t.history[j])
      ensures t.history[i].to <= t.history[j].from || ReleasedBetween(t.history, i, j)
    {
      assert t.history[i] == s.history[i];
      if j < |s.history| {
        assert t.history[j] == s.history[j];
        if ReleasedBetween(s.history, i, j) {
          var k :| i < k < j && s.history[k] == Released(s.history[i].holder);
          assert t.history[k] == s.history[k];
        }
      } else {
        assert GrantHolds(s, i);
        if ReleasedAfter(s.history, i) {
          var k :| i < k < |s.history| && s.history[k] == Released(s.history[i].holder);
          assert t.history[k] == s.history[k];
        }
      }
    }
  }

  lemma Step(ttl: map<ClientId, int>, s: World, a: Action, t: World)
    requires Inv(ttl, s) && Enabled(s, a, ttl) && t == After(s, a, ttl)
    ensures Inv(ttl, t)
  {
    HistoryStep(ttl, s, a, t);
    OverlapStep(ttl, s, a, t);
    forall w | w in t.workers ensures WorkerHolds(t, w) {
      assert w in s.workers ==> WorkerHolds(s, w);
    }
  }

  lemma {:induction false} EveryRun(ttl: map<ClientId, int>, ss: seq<World>, acts: seq<Action>, n: nat)
    requires IsRun(ttl, ss, acts) && n < |ss|
    ensures Inv(ttl, ss[n])
    decreases n
  {
    if n > 0 {
      EveryRun(ttl, ss, acts, n - 1);
      Step(ttl, ss[n - 1], acts[n - 1], ss[n]);
    }
  }

  /** Grants to different clients do not overlap unless the earlier one was given back in between. */
  lemma GrantsDoNotOverlap(ttl: map<ClientId, int>, ss: seq<World>, acts: seq<Action>, n: nat, i: nat, j: nat)
    requires IsRun(ttl, ss, acts) && n < |ss| && i < j < |ss[n].history|
    requires ss[n].history[i].Granted? && ss[n].history[j].Granted?
    requires ss[n].history[i].holder != ss[n].history[j].holder
    ensures ss[n].history[i].to <= ss[n].history[j].from || ReleasedBetween(ss[n].history, i, j)
  {
    EveryRun(ttl, ss, acts, n);
  }

  /** The worker asked again in time: its last grant has not ended. */
  predicate OnTime(s: World, w: ClientId)
    requires w in s.workers
  {
    s.workers[w].until.Some? && s.clock < s.workers[w].until.value
  }

  predicate Leads(s: World, w: ClientId) {
    w in s.workers && s.workers[w].running && s.workers[w].leader
  }

  /** Of the running workers that ask again in time, at most one has its leader flag set. */
  lemma OneLeader(ttl: map<ClientId, int>, ss: seq<World>, acts: seq<Action>, n: nat, v: ClientId, w: ClientId)
    requires IsRun(ttl, ss, acts) && n < |ss|
    requires Leads(ss[n], v) && OnTime(ss[n], v) && Leads(ss[n], w) && OnTime(ss[n], w)
    ensures v == w
  {
    EveryRun(ttl, ss, acts, n);
    assert WorkerHolds(ss[n], v) && WorkerHolds(ss[n], w);
  }

  /** A running worker that asks again in time gets the lease again, and nobody else could have. */
  lemma RenewalSucceeds(ttl: map<ClientId, int>, ss: seq<World>, acts: seq<Action>, n: nat, w: ClientId,
                        other: ClientId)
    requires IsRun(ttl, ss, acts) && n < |ss| && w in ss[n].workers && ss[n].workers[w].running && OnTime(ss[n], w)
    ensures CanAcquire(ss[n].row, other, ss[n].clock) <==> other == w
  {
    EveryRun(ttl, ss, acts, n);
    assert WorkerHolds(ss[n], w);
  }

  // Who can acquire the lease, by the history alone

  /** The row is a grant that its holder has not given back. */
  ghost predicate RowIsGrant(s: World) {
    s.row.Some? ==> exists i :: 0 <= i < |s.history| && IsRowOf(s, i)
  }

  ghost predicate IsRowOf(s: World, i: nat)
    requires i < |s.history| && s.row.Some?
  {
    && s.history[i].Granted? && s.history[i].holder == s.row.value.holder && s.history[i].to == s.row.value.expires
    && !ReleasedAfter(s.history, i)
  }

  lemma RowStaysGrant(s: World, a: Action, ttl: map<ClientId, int>, t: World)
    requires RowIsGrant(s) && Enabled(s, a, ttl) && t == After(s, a, ttl)
    ensures RowIsGrant(t)
  {
    if a.Acquire? && CanAcquire(s.row, a.w, s.clock) {
      assert IsRowOf(t, |s.history|);
    } else if t.row.Some? {
      var i :| 0 <= i < |s.history| && IsRowOf(s, i);
      assert IsRowOf(t, i);
    }
  }

  lemma {:induction false} RowIsAlwaysGrant(ttl: map<ClientId, int>, ss: seq<World>, acts: seq<Action>, n: nat)
    requires IsRun(ttl, ss, acts) && n < |ss|
    ensures RowIsGrant(ss[n])
    decreases n
  {
    if n > 0 {
      RowIsAlwaysGrant(ttl, ss, acts, n - 1);
      RowStaysGrant(ss[n - 1], acts[n - 1], ttl, ss[n]);
    }
  }

  /** The grant has ended, or its holder has given the lease back since. */
  ghost predicate Over(s: World, i: nat)
    requires i < |s.history| && s.history[i].Granted?
  {
    s.history[i].to <= s.clock || ReleasedAfter(s.history, i)
  }

  /** In every run, a client can acquire the lease exactly when every grant to another client is over. */
  lemma AcquirableIff(ttl: map<ClientId, int>, ss: seq<World>, acts: seq<Action>, n: nat, client: ClientId)
    requires IsRun(ttl, ss, acts) && n < |ss|
    ensures var s := ss[n];
            CanAcquire(s.row, client, s.clock) <==>
            forall i :: 0 <= i < |s.history| && s.history[i].Granted? && s.history[i].holder != client ==> Over(s, i)
  {
    var s := ss[n];
    EveryRun(ttl, ss, acts, n);
    RowIsAlwaysGrant(ttl, ss, acts, n);
    if CanAcquire(s.row, client, s.clock) {
      forall i | 0 <= i < |s.history| && s.history[i].Granted? && s.history[i].holder != client ensures Over(s, i) {
        assert GrantHolds(s, i);
      }
    } else {
      var i :| 0 <= i < |s.history| && IsRowOf(s, i);
      assert !Over(s, i);
    }
  }

  /** A lease that its holder gives back is free at once; one that another client holds stays as it is. */
  lemma ReleasedAtOnce(ttl: map<ClientId, int>, ss: seq<World>, acts: seq<Action>, n: nat, w: ClientId,
                       client: ClientId)
    requires IsRun(ttl, ss, acts) && n < |acts| && acts[n] == Release(w)
    ensures CanAcquire(ss[n + 1].row, client, ss[n + 1].clock) <==>
            (ss[n].row.Some? && ss[n].row.value.holder == w) || CanAcquire(ss[n].row, client, ss[n].clock)
  {
    assert ss[n + 1] == After(ss[n], acts[n], ttl);
  }

  // What a flag says

  predicate Elects(a: Action, w: ClientId) {
    a == Acquire(w) || a == Fails(w)
  }

  /** Call `i` is the last lease call of `w` before step `n`, and its answer has not been stored in between. */
  ghost predicate LastElection(acts: seq<Action>, i: nat, n: nat, w: ClientId)
    requires n <= |acts|
  {
    && i < n && Elects(acts[i], w)
    && forall j {:trigger acts[j]} :: i < j < n ==> !Elects(acts[j], w) && acts[j] != Store(w)
  }

  lemma {:induction false} AnswerFrom(ttl: map<ClientId, int>, ss: seq<World>, acts: seq<Action>, n: nat, w: ClientId)
    returns (i: nat)
    requires IsRun(ttl, ss, acts) && n < |ss| && w in ss[n].workers && ss[n].workers[w].answer.Some?
    ensures LastElection(acts, i, n, w)
    ensures ss[n].workers[w].answer.value <==> acts[i].Acquire? && CanAcquire(ss[i].row, w, ss[i].clock)
    decreases n
  {
    assert ss[n] == After(ss[n - 1], acts[n - 1], ttl) && Enabled(ss[n - 1], acts[n - 1], ttl);
    if Elects(acts[n - 1], w) {
      i := n - 1;
    } else {
      i := AnswerFrom(ttl, ss, acts, n - 1, w);
    }
  }

  /**
   * A worker's flag is set exactly when its last lease call, as far as its answer was stored, was granted; an error
   * clears it, and nothing but the storing of an answer changes it.
   */
  lemma FlagIsAnswer(ttl: map<ClientId, int>, ss: seq<World>, acts: seq<Action>, n: nat, w: ClientId) returns (i: nat)
    requires IsRun(ttl, ss, acts) && n < |acts| && w in ss[n].workers
    ensures acts[n] == Store(w) ==> LastElection(acts, i, n, w)
    ensures w in ss[n + 1].workers
    ensures ss[n + 1].workers[w].leader <==>
            if acts[n] == Store(w) then acts[i].Acquire? && CanAcquire(ss[i].row, w, ss[i].clock)
            else ss[n].workers[w].leader
  {
    assert ss[n + 1] == After(ss[n], acts[n], ttl) && Enabled(ss[n], acts[n], ttl);
    i := 0;
    if acts[n] == Store(w) {
      i := AnswerFrom(ttl, ss, acts, n, w);
    }
  }

  /** `w` runs, and is not in the middle of an election. */
  predicate CanElect(s: World, w: ClientId) {
    w in s.workers && s.workers[w].running && s.workers[w].answer.None?
  }

  /** The next election of `w`: the lease call and the storing of its answer. */
  function Elected(s: World, w: ClientId, ttl: map<ClientId, int>): World
    requires CanElect(s, w) && w in ttl
  {
    After(After(s, Acquire(w), ttl), Store(w), ttl)
  }

  /**
   * In any run that has a leader `v`, the next election of another worker makes a second leader exactly when that
   * worker can acquire the lease; `v` is late then. While the row still is the lease of `v`, being late is also enough.
   */
  lemma SecondLeaderIff(ttl: map<ClientId, int>, ss: seq<World>, acts: seq<Action>, v: ClientId, w: ClientId)
    requires IsRun(ttl, ss, acts) && Leads(ss[|acts|], v) && CanElect(ss[|acts|], w) && w in ttl && v != w
    ensures var s := ss[|acts|];
            && IsRun(ttl, ss + [After(s, Acquire(w), ttl), Elected(s, w, ttl)], acts + [Acquire(w), Store(w)])
            && (Leads(Elected(s, w, ttl), v) && Leads(Elected(s, w, ttl), w) <==> CanAcquire(s.row, w, s.clock))
            && (CanAcquire(s.row, w, s.clock) ==> !OnTime(s, v))
            && (s.row.Some? && s.row.value.holder == v ==> (CanAcquire(s.row, w, s.clock) <==> !OnTime(s, v)))
  {
    var s := ss[|acts|];
    EveryRun(ttl, ss, acts, |acts|);
    assert WorkerHolds(s, v);
    var tt, bcts := ss + [After(s, Acquire(w), ttl), Elected(s, w, ttl)], acts + [Acquire(w), Store(w)];
    forall i {:trigger bcts[i]} | 0 <= i < |bcts|
      ensures Enabled(tt[i], bcts[i], ttl) && tt[i + 1] == After(tt[i], bcts[i], ttl)
    {
      if i < |acts| {
        assert bcts[i] == acts[i];
      }
    }
  }

  /** Such a run: the first worker's grant has ended and it has not asked again. */
  lemma LateWorkerLeadsToo() returns (ttl: map<ClientId, int>, ss: seq<World>, acts: seq<Action>)
    ensures IsRun(ttl, ss, acts) && Leads(ss[|acts|], "a") && Leads(ss[|acts|], "b") && !OnTime(ss[|acts|], "a")
  {
    ttl := map["a" := 10, "b" := 10];
    acts := [Start("a"), Start("b"), Acquire("a"), Store("a"), Tick(10)];
    var s1 := After(World(None, 0, map[], []), acts[0], ttl);
    var s2 := After(s1, acts[1], ttl);
    var s3 := After(s2, acts[2], ttl);
    var s4 := After(s3, acts[3], ttl);
    var s5 := After(s4, acts[4], ttl);
    ss := [World(None, 0, map[], []), s1, s2, s3, s4, s5];
    SecondLeaderIff(ttl, ss, acts, "a", "b");
    ss, acts := ss + [After(s5, Acquire("b"), ttl), Elected(s5, "b", ttl)], acts + [Acquire("b"), Store("b")];
  }
}
