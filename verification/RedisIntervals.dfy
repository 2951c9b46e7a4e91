/** Interval jobs when the replicas share a Redis: a key per name and minute, set if absent, that lasts five minutes. */
module RedisIntervals {
  import opened Intervals

  const TTL := 300

  /** The keys with the moment at which each runs out. */
  type Locks = map<Key, int>

  predicate Grants(locks: Locks, c: Call) {
    !(KeyOf(c) in locks && c.now < locks[KeyOf(c)])
  }

  function After(locks: Locks, c: Call): Locks {
    if Grants(locks, c) then locks[KeyOf(c) := c.now + TTL * SECOND] else locks
  }

  class RedisStorage {
    var cronLocks: Locks

    /** One command. */
    method LockCronExecution(name: string, at: int, now: nat) returns (ok: bool)
      modifies this
      ensures ok <==> Grants(old(cronLocks), Call(name, at, now))
      ensures cronLocks == After(old(cronLocks), Call(name, at, now))
    {
      var lockKey := Key(name, at - at % 60);
      if lockKey in cronLocks {
        if now < cronLocks[lockKey] {
          return false;
        }
      }
      cronLocks := cronLocks[lockKey := now + TTL * SECOND];
      return true;
    }
  }

  /** The requests of all replicas as they reach Redis, under a clock that does not go back. */
  ghost predicate IsRun(intervals: map<string, int>, ls: seq<Locks>, cs: seq<Call>)
  {
    && |ls| == |cs| + 1 && ls[0] == map[]
    && (forall name :: name in intervals ==> intervals[name] > 0)
    && (forall i {:trigger cs[i]} :: 0 <= i < |cs| ==>
          && ls[i + 1] == After(ls[i], cs[i])
          && (cs[i].name in intervals ==> cs[i].at == BlockStart(intervals[cs[i].name], cs[i].now)))
    && forall i, j :: 0 <= i < j < |cs| ==> cs[i].now <= cs[j].now
  }

  ghost predicate IsFirst(cs: seq<Call>, n: nat)
    requires n < |cs|
  {
    forall i :: 0 <= i < n ==> cs[i].name != cs[n].name || cs[i].at != cs[n].at
  }

  ghost predicate AsksFor(intervals: map<string, int>, ls: seq<Locks>, cs: seq<Call>, n: nat, interval: int) {
    IsRun(intervals, ls, cs) && n < |cs| && cs[n].name in intervals && intervals[cs[n].name] == interval
  }

  /** In every run, a request for a block of `interval` seconds is granted exactly when it is the first one. */
  ghost predicate OncePerBlock(interval: int) {
    forall intervals: map<string, int>, ls: seq<Locks>, cs: seq<Call>, n: nat ::
      AsksFor(intervals, ls, cs, n, interval) ==> (Grants(ls[n], cs[n]) <==> IsFirst(cs, n))
  }

  /** A key was set by an earlier request, and lasts from then on. */
  lemma {:induction false} Origin(intervals: map<string, int>, ls: seq<Locks>, cs: seq<Call>, n: nat, key: Key)
    returns (i: nat)
    requires IsRun(intervals, ls, cs) && n < |ls| && key in ls[n]
    ensures i < n && KeyOf(cs[i]) == key && ls[n][key] == cs[i].now + TTL * SECOND
    decreases n
  {
    if KeyOf(cs[n - 1]) == key && Grants(ls[n - 1], cs[n - 1]) {
      i := n - 1;
    } else {
      i := Origin(intervals, ls, cs, n - 1, key);
    }
  }

  lemma {:induction false} Persists(intervals: map<string, int>, ls: seq<Locks>, cs: seq<Call>, i: nat, n: nat)
    requires IsRun(intervals, ls, cs) && i < n < |ls|
    ensures KeyOf(cs[i]) in ls[n]
    decreases n
  {
    if n > i + 1 {
      Persists(intervals, ls, cs, i, n - 1);
      assert ls[n] == After(ls[n - 1], cs[n - 1]);
    } else {
      assert ls[n] == After(ls[i], cs[i]);
    }
  }

  lemma SameKeySameBlock(intervals: map<string, int>, ls: seq<Locks>, cs: seq<Call>, i: nat, n: nat)
    requires IsRun(intervals, ls, cs) && i < n < |cs| && KeyOf(cs[i]) == KeyOf(cs[n])
    requires cs[n].name in intervals && intervals[cs[n].name] >= 60
    ensures cs[i].name == cs[n].name && cs[i].at == cs[n].at
  {
    if cs[i].at != cs[n].at {
      BlocksApart(intervals[cs[n].name], cs[i].now, cs[n].now);
    }
  }

  /** Up to five minutes, the key of a block outlives the block. */
  lemma RepeatIsRefused(intervals: map<string, int>, ls: seq<Locks>, cs: seq<Call>, i: nat, n: nat, interval: int)
    requires AsksFor(intervals, ls, cs, n, interval) && 60 <= interval <= TTL
    requires i < n && cs[i].name == cs[n].name && cs[i].at == cs[n].at
    ensures !Grants(ls[n], cs[n])
  {
    Persists(intervals, ls, cs, i, n);
    var o := Origin(intervals, ls, cs, n, KeyOf(cs[n]));
    SameKeySameBlock(intervals, ls, cs, o, n);
    WithinBlock(interval, cs[o].now);
    WithinBlock(interval, cs[n].now);
  }

  /** Two requests for the job "x". */
  lemma TwoRequests(interval: int, now: nat, now': nat) returns (ls: seq<Locks>, cs: seq<Call>)
    requires interval > 0 && now <= now'
    ensures cs == [Call("x", BlockStart(interval, now), now), Call("x", BlockStart(interval, now'), now')]
    ensures AsksFor(map["x" := interval], ls, cs, 1, interval) && ls[1] == map[KeyOf(cs[0]) := now + TTL * SECOND]
  {
    cs := [Call("x", BlockStart(interval, now), now), Call("x", BlockStart(interval, now'), now')];
    var l1 := After(map[], cs[0]);
    ls := [map[], l1, After(l1, cs[1])];
  }

  lemma NotOnce(intervals: map<string, int>, ls: seq<Locks>, cs: seq<Call>, n: nat, interval: int)
    requires AsksFor(intervals, ls, cs, n, interval) && !(Grants(ls[n], cs[n]) <==> IsFirst(cs, n))
    ensures !OncePerBlock(interval)
  {
  }

  lemma ShortIntervalsSkip(interval: int)
    requires 0 < interval < 60
    ensures !OncePerBlock(interval)
  {
    BlockAt(interval, 0, 0, 0);
    BlockAt(interval, 1, interval, interval * SECOND);
    var ls, cs := TwoRequests(interval, 0, interval * SECOND);
    assert KeyOf(cs[0]) == KeyOf(cs[1]) && cs[0].at != cs[1].at;
    assert IsFirst(cs, 1);
    NotOnce(map["x" := interval], ls, cs, 1, interval);
  }

  lemma LongIntervalsRepeat(interval: int)
    requires interval > TTL
    ensures !OncePerBlock(interval)
  {
    BlockAt(interval, 0, 0, 0);
    BlockAt(interval, 0, 0, TTL * SECOND);
    var ls, cs := TwoRequests(interval, 0, TTL * SECOND);
    assert cs[0].at == cs[1].at;
    assert !IsFirst(cs, 1);
    NotOnce(map["x" := interval], ls, cs, 1, interval);
  }

  /** On Redis exactly the intervals from one to five minutes are served once per block. */
  lemma OncePerBlockIff(interval: int)
    requires interval > 0
    ensures OncePerBlock(interval) <==> 60 <= interval <= 300
  {
    if interval < 60 {
      ShortIntervalsSkip(interval);
    } else if interval > TTL {
      LongIntervalsRepeat(interval);
    } else {
      forall intervals: map<string, int>, ls: seq<Locks>, cs: seq<Call>, n: nat
        | AsksFor(intervals, ls, cs, n, interval)
        ensures Grants(ls[n], cs[n]) <==> IsFirst(cs, n)
      {
        if IsFirst(cs, n) {
          if !Grants(ls[n], cs[n]) {
            var o := Origin(intervals, ls, cs, n, KeyOf(cs[n]));
            SameKeySameBlock(intervals, ls, cs, o, n);
          }
        } else {
          var i :| 0 <= i < n && cs[i].name == cs[n].name && cs[i].at == cs[n].at;
          RepeatIsRefused(intervals, ls, cs, i, n, interval);
        }
      }
    }
  }
}
