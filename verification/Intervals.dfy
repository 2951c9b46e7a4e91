/**
 * Jobs enqueued once per interval by any number of replicas. Each replica remembers the last block of every job it
 * has served; among replicas a table of locks decides, keyed by name and minute and cleaned of what is over an hour
 * old.
 */
module Intervals {
  import opened Arithmetic

  /** Clocks count nanoseconds, block times and minutes whole seconds, both since 1970. */
  const SECOND := 1_000_000_000
  const HOUR := 3600

  datatype Key = Key(name: string, minute: int)

  /** A request to lock the execution at time `at`, made when the clock reads `now`. */
  datatype Call = Call(name: string, at: int, now: nat)

  function KeyOf(c: Call): Key {
    Key(c.name, c.at - c.at % 60)
  }

  function Kept(locks: set<Key>, now: int): set<Key> {
    set k | k in locks && k.minute * SECOND >= now - HOUR * SECOND
  }

  /** The insert does something: there is no row for the name and minute. */
  predicate Granted(locks: set<Key>, c: Call) {
    KeyOf(c) !in locks
  }

  /** The two statements of a request, which commit one by one. */
  datatype Statement = CleanUp(now: nat) | Insert(call: Call) {
    function Now(): nat {
      if CleanUp? then now else call.now
    }

    function Apply(locks: set<Key>): set<Key> {
      if CleanUp? then Kept(locks, now) else locks + {KeyOf(call)}
    }
  }

  function BlockStart(interval: int, now: nat): int
    requires interval > 0
  {
    now / SECOND / interval * interval
  }

  class SqlStorage {
    var cronLocks: set<Key>

    /** The clean-up, then an insert that does nothing when the row is already there, without interruption. */
    method LockCronExecution(name: string, at: int, now: nat) returns (ok: bool)
      modifies this
      ensures ok <==> Granted(CleanUp(now).Apply(old(cronLocks)), Call(name, at, now))
      ensures cronLocks == Insert(Call(name, at, now)).Apply(CleanUp(now).Apply(old(cronLocks)))
    {
      cronLocks := set k | k in cronLocks && !(k.minute * SECOND < now - HOUR * SECOND);
      assert cronLocks == Kept(old(cronLocks), now);
      var key := Key(name, at - at % 60);
      if key in cronLocks {
        return false;
      }
      cronLocks := cronLocks + {key};
      return true;
    }
  }

  // One replica

  datatype IntervalJob = IntervalJob(name: string, seconds: int)

  function LastTick(ticks: map<string, int>, name: string): int {
    if name in ticks then ticks[name] else 0
  }

  predicate IsDue(j: IntervalJob, ticks: map<string, int>, now: nat) {
    j.seconds > 0 && now / SECOND / j.seconds > LastTick(ticks, j.name)
  }

  function TicksAfter(jobs: seq<IntervalJob>, ticks: map<string, int>, now: nat): map<string, int> {
    if jobs == [] then ticks
    else
      var before := TicksAfter(jobs[..|jobs| - 1], ticks, now);
      var j := jobs[|jobs| - 1];
      if IsDue(j, before, now) then before[j.name := now / SECOND / j.seconds] else before
  }

  function CallsOf(jobs: seq<IntervalJob>, ticks: map<string, int>, now: nat): seq<Call> {
    if jobs == [] then []
    else
      var before := TicksAfter(jobs[..|jobs| - 1], ticks, now);
      var j := jobs[|jobs| - 1];
      CallsOf(jobs[..|jobs| - 1], ticks, now)
      + if IsDue(j, before, now) then [Call(j.name, BlockStart(j.seconds, now), now)] else []
  }

  class WorkerPool {
    const intervalJobs: seq<IntervalJob>
    var lastIntervalTicks: map<string, int>

    constructor (jobs: seq<IntervalJob>)
      ensures intervalJobs == jobs && lastIntervalTicks == map[]
    {
      intervalJobs, lastIntervalTicks := jobs, map[];
    }

    /** The lock requests sent off at `now`. */
    method ProcessIntervalJobs(now: nat) returns (calls: seq<Call>)
      modifies this
      ensures lastIntervalTicks == TicksAfter(intervalJobs, old(lastIntervalTicks), now)
      ensures calls == CallsOf(intervalJobs, old(lastIntervalTicks), now)
    {
      calls := [];
      var i := 0;
      while i < |intervalJobs|
        invariant 0 <= i <= |intervalJobs|
        invariant lastIntervalTicks == TicksAfter(intervalJobs[..i], old(lastIntervalTicks), now)
        invariant calls == CallsOf(intervalJobs[..i], old(lastIntervalTicks), now)
      {
        var job := intervalJobs[i];
        assert intervalJobs[..i + 1][..i] == intervalJobs[..i];
        i := i + 1;
        if job.seconds <= 0 {
          continue;
        }
        var blockIdx := now / SECOND / job.seconds;
        var lastIdx := if job.name in lastIntervalTicks then lastIntervalTicks[job.name] else 0;
        if blockIdx > lastIdx {
          lastIntervalTicks := lastIntervalTicks[job.name := blockIdx];
          calls := calls + [Call(job.name, blockIdx * job.seconds, now)];
        }
      }
      assert intervalJobs[..i] == intervalJobs;
    }
  }

  /** The last block of `j` after a scan that saw no other job of its name. */
  function OwnTick(j: IntervalJob, ticks: map<string, int>, now: nat): int {
    if IsDue(j, ticks, now) then now / SECOND / j.seconds else LastTick(ticks, j.name)
  }

  ghost predicate DistinctNames(jobs: seq<IntervalJob>) {
    forall i, j :: 0 <= i < j < |jobs| ==> jobs[i].name != jobs[j].name
  }

  /** With distinct names, a scan moves the memory of every job by that job's own last block alone. */
  lemma {:induction false} ScanMoves(jobs: seq<IntervalJob>, ticks: map<string, int>, now: nat)
    requires DistinctNames(jobs)
    ensures forall name :: (forall j :: j in jobs ==> j.name != name) ==>
      LastTick(TicksAfter(jobs, ticks, now), name) == LastTick(ticks, name)
    ensures forall j :: j in jobs ==> LastTick(TicksAfter(jobs, ticks, now), j.name) == OwnTick(j, ticks, now)
    decreases |jobs|
  {
    if jobs != [] {
      var front, last := jobs[..|jobs| - 1], jobs[|jobs| - 1];
      ScanMoves(front, ticks, now);
      assert jobs == front + [last];
      assert forall j :: j in front ==> j.name != last.name;
      assert LastTick(TicksAfter(front, ticks, now), last.name) == LastTick(ticks, last.name);
    }
  }

  /** And it asks for the current block of exactly the jobs that are due. */
  lemma {:induction false} ScanAsks(jobs: seq<IntervalJob>, ticks: map<string, int>, now: nat, c: Call)
    requires DistinctNames(jobs)
    ensures c in CallsOf(jobs, ticks, now) <==>
            exists j :: j in jobs && IsDue(j, ticks, now) && c == Call(j.name, BlockStart(j.seconds, now), now)
    decreases |jobs|
  {
    if jobs != [] {
      var front, last := jobs[..|jobs| - 1], jobs[|jobs| - 1];
      ScanAsks(front, ticks, now, c);
      ScanMoves(front, ticks, now);
      assert jobs == front + [last];
      assert forall j :: j in front ==> j.name != last.name;
      assert LastTick(TicksAfter(front, ticks, now), last.name) == LastTick(ticks, last.name);
    }
  }

  /** What a replica that scans at `nows[0]`, `nows[1]`, ... remembers before scan `k`. */
  function TicksAt(jobs: seq<IntervalJob>, nows: seq<nat>, k: nat): map<string, int>
    requires k <= |nows|
  {
    if k == 0 then map[] else TicksAfter(jobs, TicksAt(jobs, nows, k - 1), nows[k - 1])
  }

  lemma {:induction false} TicksGrow(jobs: seq<IntervalJob>, nows: seq<nat>, k: nat, l: nat, name: string)
    requires DistinctNames(jobs) && k <= l <= |nows|
    ensures LastTick(TicksAt(jobs, nows, k), name) <= LastTick(TicksAt(jobs, nows, l), name)
    decreases l - k
  {
    if k < l {
      TicksGrow(jobs, nows, k, l - 1, name);
      ScanMoves(jobs, TicksAt(jobs, nows, l - 1), nows[l - 1]);
    }
  }

  /** However its clock moves, one replica asks for each block at most once, and for later blocks only. */
  lemma ReplicaAsksOnce(jobs: seq<IntervalJob>, nows: seq<nat>, k: nat, l: nat, j: IntervalJob)
    requires DistinctNames(jobs) && k < l < |nows| && j in jobs
    requires IsDue(j, TicksAt(jobs, nows, k), nows[k]) && IsDue(j, TicksAt(jobs, nows, l), nows[l])
    ensures BlockStart(j.seconds, nows[k]) < BlockStart(j.seconds, nows[l])
  {
    ScanMoves(jobs, TicksAt(jobs, nows, k), nows[k]);
    TicksGrow(jobs, nows, k + 1, l, j.name);
    Multiply(nows[k] / SECOND / j.seconds, nows[l] / SECOND / j.seconds, j.seconds);
  }

  /** The block of `interval` seconds in which the clock stands. */
  function BlockAtClock(interval: int, now: nat): (block: int)
    requires interval > 0
    ensures block >= 0
  {
    now / 1_000_000_000 / interval
  }

  /** What a replica remembers of a job is the last block that it has seen, the first one being no block at all. */
  lemma {:induction false} TickIsLatest(jobs: seq<IntervalJob>, nows: seq<nat>, k: nat, j: IntervalJob)
    requires DistinctNames(jobs) && k <= |nows| && j in jobs && j.seconds > 0
    ensures forall i :: 0 <= i < k ==> BlockAtClock(j.seconds, nows[i]) <= LastTick(TicksAt(jobs, nows, k), j.name)
    ensures var last := LastTick(TicksAt(jobs, nows, k), j.name);
            last == 0 || exists i :: 0 <= i < k && BlockAtClock(j.seconds, nows[i]) == last
    decreases k
  {
    if k > 0 {
      TickIsLatest(jobs, nows, k - 1, j);
      ScanMoves(jobs, TicksAt(jobs, nows, k - 1), nows[k - 1]);
    }
  }

  /** The clock of scan `l` stands in a block later than the first one and than those of all scans before. */
  predicate SeesNewBlock(nows: seq<nat>, l: nat, interval: int)
    requires interval > 0 && l < |nows|
  {
    var block := BlockAtClock(interval, nows[l]);
    block > 0 && forall k :: 0 <= k < l ==> BlockAtClock(interval, nows[k]) < block
  }

  /** Beyond the latest of the blocks before, if any, means beyond all of them. */
  lemma BeyondLatest(blocks: seq<int>, l: nat, last: int)
    requires l < |blocks| && last >= 0 && forall i :: 0 <= i < l ==> blocks[i] <= last
    requires last == 0 || exists i :: 0 <= i < l && blocks[i] == last
    ensures blocks[l] > last <==> blocks[l] > 0 && forall k :: 0 <= k < l ==> blocks[k] < blocks[l]
  {
  }

  lemma DueIffNew(jobs: seq<IntervalJob>, nows: seq<nat>, l: nat, j: IntervalJob)
    requires DistinctNames(jobs) && l < |nows| && j in jobs && j.seconds > 0
    ensures IsDue(j, TicksAt(jobs, nows, l), nows[l]) <==> SeesNewBlock(nows, l, j.seconds)
  {
    var last := LastTick(TicksAt(jobs, nows, l), j.name);
    var blocks := seq(|nows|, k requires 0 <= k < |nows| => BlockAtClock(j.seconds, nows[k]));
    TickIsLatest(jobs, nows, l, j);
    assert last == 0 || exists i :: 0 <= i < l && blocks[i] == last by {
      if last != 0 {
        var i :| 0 <= i < l && BlockAtClock(j.seconds, nows[i]) == last;
        assert blocks[i] == last;
      }
    }
    BeyondLatest(blocks, l, last);
    assert SeesNewBlock(nows, l, j.seconds) <==> blocks[l] > 0 && forall k :: 0 <= k < l ==> blocks[k] < blocks[l];
  }

  /** A scan asks for the block in which the clock stands exactly when the job has an interval and the block is new. */
  lemma ReplicaAsksIff(jobs: seq<IntervalJob>, nows: seq<nat>, l: nat, j: IntervalJob, at: int)
    requires DistinctNames(jobs) && l < |nows| && j in jobs
    ensures Call(j.name, at, nows[l]) in CallsOf(jobs, TicksAt(jobs, nows, l), nows[l]) <==>
            j.seconds > 0 && SeesNewBlock(nows, l, j.seconds) && at == BlockAtClock(j.seconds, nows[l]) * j.seconds
  {
    ScanAsks(jobs, TicksAt(jobs, nows, l), nows[l], Call(j.name, at, nows[l]));
    if j.seconds > 0 {
      DueIffNew(jobs, nows, l, j);
    }
    forall i | i in jobs && i.name == j.name ensures i == j {
      assert i != j ==> !DistinctNames(jobs);
    }
  }

  // All replicas

  /**
   * The statements of all replicas, in the order in which they reach the table, under a clock that does not go back.
   * An insert for an interval job names the block of the moment it is made; other names are cron jobs.
   */
  ghost predicate IsRun(intervals: map<string, int>, ls: seq<set<Key>>, sts: seq<Statement>)
  {
    && |ls| == |sts| + 1 && ls[0] == {}
    && (forall name :: name in intervals ==> intervals[name] > 0)
    && (forall i {:trigger sts[i]} :: 0 <= i < |sts| ==>
          && ls[i + 1] == sts[i].Apply(ls[i])
          && (sts[i].Insert? && sts[i].call.name in intervals ==>
                sts[i].call.at == BlockStart(intervals[sts[i].call.name], sts[i].call.now)))
    && forall i, j :: 0 <= i < j < |sts| ==> sts[i].Now() <= sts[j].Now()
  }

  ghost predicate IsFirst(sts: seq<Statement>, n: nat)
    requires n < |sts| && sts[n].Insert?
  {
    forall i :: 0 <= i < n && sts[i].Insert? ==>
      sts[i].call.name != sts[n].call.name || sts[i].call.at != sts[n].call.at
  }

  /** Statement `n` of a run inserts a row for a job of that interval. */
  ghost predicate AsksFor(intervals: map<string, int>, ls: seq<set<Key>>, sts: seq<Statement>, n: nat, interval: int) {
    && IsRun(intervals, ls, sts) && n < |sts| && sts[n].Insert?
    && sts[n].call.name in intervals && intervals[sts[n].call.name] == interval
  }

  /** In every run, an insert for a block of `interval` seconds is granted exactly when it is the first one. */
  ghost predicate OncePerBlock(interval: int) {
    forall intervals: map<string, int>, ls: seq<set<Key>>, sts: seq<Statement>, n: nat ::
      AsksFor(intervals, ls, sts, n, interval) ==> (Granted(ls[n], sts[n].call) <==> IsFirst(sts, n))
  }

  /** No block starts so late in its minute that the minute is over an hour old before the block ends. */
  predicate StaysLocked(interval: int) {
    forall b :: 0 <= b < 60 ==> interval + b * interval % 60 <= 3600
  }

  lemma {:induction false} AnyBlock(interval: int, b: nat)
    requires interval > 0 && StaysLocked(interval)
    ensures interval + b * interval % 60 <= HOUR
    decreases b
  {
    if b >= 60 {
      AnyBlock(interval, b - 60);
      assert b * interval == (b - 60) * interval + 60 * interval;
    }
  }

  /** The clock stays within the block for which it asks. */
  lemma WithinBlock(interval: int, now: nat)
    requires interval > 0
    ensures BlockStart(interval, now) * SECOND <= now < (BlockStart(interval, now) + interval) * SECOND
    ensures BlockStart(interval, now) >= 0
  {
    var s := now / SECOND;
    assert s == s / interval * interval + s % interval;
    assert s / interval >= 0;
  }

  lemma RowOutlivesBlock(interval: int, now: nat, start: int)
    requires interval > 0 && StaysLocked(interval) && start == BlockStart(interval, now)
    ensures (start - start % 60) * SECOND >= now - HOUR * SECOND
  {
    AnyBlock(interval, now / SECOND / interval);
    WithinBlock(interval, now);
  }

  lemma {:induction false} Origin(intervals: map<string, int>, ls: seq<set<Key>>, sts: seq<Statement>, n: nat, key: Key)
    returns (i: nat)
    requires IsRun(intervals, ls, sts) && n < |ls| && key in ls[n]
    ensures i < n && sts[i].Insert? && KeyOf(sts[i].call) == key
    decreases n
  {
    if sts[n - 1].Insert? && KeyOf(sts[n - 1].call) == key {
      i := n - 1;
    } else {
      i := Origin(intervals, ls, sts, n - 1, key);
    }
  }

  lemma {:induction false} Persists(intervals: map<string, int>, ls: seq<set<Key>>, sts: seq<Statement>, i: nat,
                                    n: nat, j: nat)
    requires IsRun(intervals, ls, sts) && i < j <= n < |sts| && sts[i].Insert?
    requires KeyOf(sts[i].call).minute * SECOND >= sts[n].Now() - HOUR * SECOND
    ensures KeyOf(sts[i].call) in ls[j]
    decreases j
  {
    if j > i + 1 {
      Persists(intervals, ls, sts, i, n, j - 1);
      assert sts[j - 1].Now() <= sts[n].Now();
    }
  }

  /** A minute holds at most one block of a minute or more. */
  lemma BlocksApart(interval: int, now: nat, now': nat)
    requires interval >= 60 && BlockStart(interval, now) != BlockStart(interval, now')
    ensures BlockStart(interval, now) - BlockStart(interval, now) % 60 !=
            BlockStart(interval, now') - BlockStart(interval, now') % 60
  {
    var b, b' := now / SECOND / interval, now' / SECOND / interval;
    if b < b' {
      Multiply(b, b', interval);
    } else if b' < b {
      Multiply(b', b, interval);
    }
  }

  lemma FirstIsGranted(intervals: map<string, int>, ls: seq<set<Key>>, sts: seq<Statement>, n: nat)
    requires IsRun(intervals, ls, sts) && n < |sts| && sts[n].Insert? && IsFirst(sts, n)
    requires sts[n].call.name in intervals && intervals[sts[n].call.name] >= 60
    ensures Granted(ls[n], sts[n].call)
  {
    if KeyOf(sts[n].call) in ls[n] {
      var i := Origin(intervals, ls, sts, n, KeyOf(sts[n].call));
      BlocksApart(intervals[sts[n].call.name], sts[i].call.now, sts[n].call.now);
    }
  }

  /** Two requests for the job "x", one after the other. */
  function TwoRequests(interval: int, now: nat, now': nat): seq<Statement>
    requires interval > 0
  {
    [CleanUp(now), Insert(Call("x", BlockStart(interval, now), now)),
     CleanUp(now'), Insert(Call("x", BlockStart(interval, now'), now'))]
  }

  lemma TwoRequestsRun(interval: int, now: nat, now': nat) returns (ls: seq<set<Key>>)
    requires interval > 0 && now <= now'
    ensures IsRun(map["x" := interval], ls, TwoRequests(interval, now, now')) && |ls| == 5
    ensures ls[3] == Kept({KeyOf(TwoRequests(interval, now, now')[1].call)}, now')
  {
    var sts := TwoRequests(interval, now, now');
    assert Kept({}, now) == {};
    var l2 := sts[1].Apply({});
    var l3 := sts[2].Apply(l2);
    ls := [{}, {}, l2, l3, sts[3].Apply(l3)];
    assert l2 == {KeyOf(sts[1].call)};
  }

  /** Every moment from a block's start until its end belongs to the block. */
  lemma BlockAt(interval: int, b: nat, start: int, now: nat)
    requires interval > 0 && start == b * interval && start * SECOND <= now < (start + interval) * SECOND
    ensures BlockStart(interval, now) == start
  {
    var r := now / SECOND - start;
    DivMod(interval, b, r);
    assert now / SECOND == start + r;
  }

  /** Under a minute, the second block of a minute finds the first one's row. */
  lemma ShortIntervalsSkip(interval: int)
    requires 0 < interval < 60
    ensures !OncePerBlock(interval)
  {
    var now' := interval * SECOND;
    BlockAt(interval, 0, 0, 0);
    BlockAt(interval, 1, interval, now');
    var ls := TwoRequestsRun(interval, 0, now');
    SecondRefused(map["x" := interval], ls, TwoRequests(interval, 0, now'), interval);
  }

  lemma SecondRefused(intervals: map<string, int>, ls: seq<set<Key>>, sts: seq<Statement>, interval: int)
    requires 0 < interval < 60 && AsksFor(intervals, ls, sts, 3, interval)
    requires sts == [CleanUp(0), Insert(Call("x", 0, 0)), CleanUp(interval * SECOND),
                     Insert(Call("x", interval, interval * SECOND))]
    requires ls[3] == Kept({Key("x", 0)}, interval * SECOND)
    ensures !OncePerBlock(interval)
  {
    assert KeyOf(sts[3].call) == Key("x", 0);
    assert IsFirst(sts, 3);
  }

  /** In the last moment of such a block its row is cleaned away. */
  lemma RowCleaned(interval: int, start: nat, c: Call)
    requires interval > 0 && interval + start % 60 > HOUR && c.at == start
    ensures Granted(Kept({KeyOf(c)}, (start + interval) * SECOND - 1), c)
  {
  }

  lemma SecondGranted(intervals: map<string, int>, ls: seq<set<Key>>, sts: seq<Statement>, interval: int)
    requires AsksFor(intervals, ls, sts, 3, interval) && Granted(ls[3], sts[3].call)
    requires sts[1].Insert? && sts[1].call.name == sts[3].call.name && sts[1].call.at == sts[3].call.at
    ensures !OncePerBlock(interval)
  {
    assert !IsFirst(sts, 3);
  }

  /**
   * Exactly the intervals of a minute or more whose blocks stay locked until they end are served once per block,
   * however many replicas ask.
   */
  lemma OncePerBlockIff(interval: int)
    requires interval > 0
    ensures OncePerBlock(interval) <==> interval >= 60 && StaysLocked(interval)
  {
    if interval < 60 {
      ShortIntervalsSkip(interval);
    } else if !StaysLocked(interval) {
      // A block that ends over an hour after its minute began is locked again in its last moment.
      var b :| 0 <= b < 60 && interval + b * interval % 60 > HOUR;
      var start := b * interval;
      var now, now' := start * SECOND, (start + interval) * SECOND - 1;
      BlockAt(interval, b, start, now);
      BlockAt(interval, b, start, now');
      var ls := TwoRequestsRun(interval, now, now');
      var sts := TwoRequests(interval, now, now');
      RowCleaned(interval, start, sts[1].call);
      SecondGranted(map["x" := interval], ls, sts, interval);
    } else {
      forall intervals: map<string, int>, ls: seq<set<Key>>, sts: seq<Statement>, n: nat
        | AsksFor(intervals, ls, sts, n, interval)
        ensures Granted(ls[n], sts[n].call) <==> IsFirst(sts, n)
      {
        if IsFirst(sts, n) {
          FirstIsGranted(intervals, ls, sts, n);
        } else {
          // The row of a block outlives the block, so that a block once locked stays locked.
          var i :| 0 <= i < n && sts[i].Insert?
                   && sts[i].call.name == sts[n].call.name && sts[i].call.at == sts[n].call.at;
          RowOutlivesBlock(interval, sts[n].call.now, sts[n].call.at);
          Persists(intervals, ls, sts, i, n, n);
        }
      }
    }
  }

  /** So all intervals from 60 to 3541 seconds are safe, and whole minutes up to an hour. */
  lemma SafeIntervals(interval: int)
    requires 60 <= interval <= 3541 || (60 <= interval <= 3600 && interval % 60 == 0)
    ensures OncePerBlock(interval)
  {
    if interval > 3541 {
      forall b | 0 <= b < 60 ensures interval + b * interval % 60 <= HOUR {
        var m := interval / 60;
        assert b * interval == 60 * (b * m);
      }
    }
    OncePerBlockIff(interval);
  }
}
