/** The sliding-window rate limit: a table of grant times, pruned to the window on every grant. */
module RateLimit {
  datatype Row = Row(name: string, at: int)

  /** At most `limit` grants in any window of length `period`. */
  datatype Rate = Rate(limit: int, period: int) {
    predicate Valid() {
      limit > 0 && period > 0
    }
  }

  /** The rows that the pruning for `name` keeps. */
  function Prune(rows: seq<Row>, name: string, before: int): seq<Row>
  {
    if rows == [] then []
    else if rows[0].name == name && rows[0].at < before then Prune(rows[1..], name, before)
    else [rows[0]] + Prune(rows[1..], name, before)
  }

  /** The number of rows of `name` in the closed window from `from` to `to`. */
  function CountIn(rows: seq<Row>, name: string, from: int, to: int): nat
  {
    if rows == [] then 0
    else (if rows[0].name == name && from <= rows[0].at <= to then 1 else 0) + CountIn(rows[1..], name, from, to)
  }

  function CountAll(rows: seq<Row>, name: string): nat
  {
    if rows == [] then 0
    else (if rows[0].name == name then 1 else 0) + CountAll(rows[1..], name)
  }

  /** Whether a call at `now` is granted. */
  function Allowed(rows: seq<Row>, name: string, rate: Rate, now: int): bool {
    CountAll(Prune(rows, name, now - rate.period), name) < rate.limit
  }

  /** The table after the call; a refusal rolls the pruning back. */
  function AfterCheck(rows: seq<Row>, name: string, rate: Rate, now: int): seq<Row> {
    if Allowed(rows, name, rate, now) then Prune(rows, name, now - rate.period) + [Row(name, now)] else rows
  }

  class SqliteStorage {
    var rateLimits: seq<Row>

    constructor ()
      ensures rateLimits == []
    {
      rateLimits := [];
    }

    method DeleteBefore(name: string, before: int)
      modifies this
      ensures rateLimits == Prune(old(rateLimits), name, before)
    {
      var rows := rateLimits;
      var kept: seq<Row> := [];
      for i := 0 to |rows|
        invariant rateLimits == rows == old(rateLimits)
        invariant Prune(rows, name, before) == kept + Prune(rows[i..], name, before)
      {
        assert rows[i..][1..] == rows[i + 1..];
        if !(rows[i].name == name && rows[i].at < before) {
          kept := kept + [rows[i]];
        }
      }
      rateLimits := kept;
    }

    method CountRows(name: string) returns (count: nat)
      ensures count == CountAll(rateLimits, name)
    {
      count := 0;
      for i := 0 to |rateLimits|
        invariant count + CountAll(rateLimits[i..], name) == CountAll(rateLimits, name)
      {
        assert rateLimits[i..][1..] == rateLimits[i + 1..];
        if rateLimits[i].name == name {
          count := count + 1;
        }
      }
    }

    method CheckRateLimit(name: string, rate: Rate, now: int) returns (allowed: bool)
      modifies this
      ensures allowed <==> Allowed(old(rateLimits), name, rate, now)
      ensures rateLimits == AfterCheck(old(rateLimits), name, rate, now)
    {
      var before := rateLimits;
      DeleteBefore(name, now - rate.period);
      var count := CountRows(name);
      if count >= rate.limit {
        rateLimits := before;
        return false;
      }
      rateLimits := rateLimits + [Row(name, now)];
      return true;
    }
  }

  // The full history of grants

  datatype Call = Call(name: string, now: int)

  /** The table and every grant ever made. */
  datatype State = State(rows: seq<Row>, grants: seq<Row>)

  function After(s: State, c: Call, rates: map<string, Rate>): State
    requires c.name in rates
  {
    State(AfterCheck(s.rows, c.name, rates[c.name], c.now),
          if Allowed(s.rows, c.name, rates[c.name], c.now) then s.grants + [Row(c.name, c.now)] else s.grants)
  }

  ghost predicate ValidRates(rates: map<string, Rate>) {
    forall name :: name in rates ==> rates[name].Valid()
  }

  /** Serialized calls under a clock that does not go back. */
  ghost predicate IsRun(rates: map<string, Rate>, ss: seq<State>, calls: seq<Call>)
  {
    && |ss| == |calls| + 1 && ss[0] == State([], [])
    && (forall i {:trigger calls[i]} :: 0 <= i < |calls| ==>
          calls[i].name in rates && ss[i + 1] == After(ss[i], calls[i], rates))
    && forall i, j :: 0 <= i < j < |calls| ==> calls[i].now <= calls[j].now
  }

  lemma {:induction false} CountAppend(rows: seq<Row>, r: Row, name: string, from: int, to: int)
    ensures CountIn(rows + [r], name, from, to)
         == CountIn(rows, name, from, to) + if r.name == name && from <= r.at <= to then 1 else 0
    decreases |rows|
  {
    if rows != [] {
      assert (rows + [r])[1..] == rows[1..] + [r];
      CountAppend(rows[1..], r, name, from, to);
    }
  }

  /** Pruning for any name does not touch a window that starts no earlier than the pruning bound. */
  lemma {:induction false} PruneKeepsCount(rows: seq<Row>, name: string, before: int, other: string, from: int, to: int)
    requires other == name ==> from >= before
    ensures CountIn(Prune(rows, name, before), other, from, to) == CountIn(rows, other, from, to)
    decreases |rows|
  {
    if rows != [] {
      PruneKeepsCount(rows[1..], name, before, other, from, to);
      var rest := Prune(rows[1..], name, before);
      if !(rows[0].name == name && rows[0].at < before) {
        assert ([rows[0]] + rest)[1..] == rest;
      }
    }
  }

  /** What is left of a name after pruning is exactly its window. */
  lemma {:induction false} PrunedIsWindow(rows: seq<Row>, name: string, before: int, to: int)
    requires forall i :: 0 <= i < |rows| ==> rows[i].at <= to
    ensures CountAll(Prune(rows, name, before), name) == CountIn(rows, name, before, to)
    decreases |rows|
  {
    if rows != [] {
      PrunedIsWindow(rows[1..], name, before, to);
      var rest := Prune(rows[1..], name, before);
      if !(rows[0].name == name && rows[0].at < before) {
        assert ([rows[0]] + rest)[1..] == rest;
      }
    }
  }

  lemma {:induction false} CountShrinks(rows: seq<Row>, name: string, from: int, to: int, from': int, to': int)
    requires from' <= from && to <= to'
    ensures CountIn(rows, name, from, to) <= CountIn(rows, name, from', to')
    decreases |rows|
  {
    if rows != [] {
      CountShrinks(rows[1..], name, from, to, from', to');
    }
  }

  lemma {:induction false} PruneKeepsTimes(rows: seq<Row>, name: string, before: int, clock: int)
    requires forall i :: 0 <= i < |rows| ==> rows[i].at <= clock
    ensures forall i :: 0 <= i < |Prune(rows, name, before)| ==> Prune(rows, name, before)[i].at <= clock
    decreases |rows|
  {
    if rows != [] {
      assert rows[0].at <= clock;
      PruneKeepsTimes(rows[1..], name, before, clock);
    }
  }

  /** Up to `clock`, the table agrees with the history on every window that can still be asked for. */
  ghost predicate Agrees(rates: map<string, Rate>, s: State, clock: int)
  {
    && (forall i :: 0 <= i < |s.rows| ==> s.rows[i].at <= clock)
    && (forall i :: 0 <= i < |s.grants| ==> s.grants[i].at <= clock)
    && forall name, from, to :: name in rates && from >= clock - rates[name].period ==>
         CountIn(s.rows, name, from, to) == CountIn(s.grants, name, from, to)
  }

  ghost predicate NoWindowExceeds(rates: map<string, Rate>, grants: seq<Row>)
  {
    forall name, from, to :: name in rates && to == from + rates[name].period ==>
      CountIn(grants, name, from, to) <= rates[name].limit
  }

  lemma GrantedIffBelow(rates: map<string, Rate>, s: State, clock: int, c: Call)
    requires Agrees(rates, s, clock) && clock <= c.now && c.name in rates
    ensures Allowed(s.rows, c.name, rates[c.name], c.now)
       <==> CountIn(s.grants, c.name, c.now - rates[c.name].period, c.now) < rates[c.name].limit
  {
    PrunedIsWindow(s.rows, c.name, c.now - rates[c.name].period, c.now);
  }

  lemma AgreesStep(rates: map<string, Rate>, s: State, clock: int, c: Call)
    requires Agrees(rates, s, clock) && clock <= c.now && c.name in rates
    ensures Agrees(rates, After(s, c, rates), c.now)
  {
    var t, before := After(s, c, rates), c.now - rates[c.name].period;
    if Allowed(s.rows, c.name, rates[c.name], c.now) {
      PruneKeepsTimes(s.rows, c.name, before, clock);
      forall name, from, to | name in rates && from >= c.now - rates[name].period
        ensures CountIn(t.rows, name, from, to) == CountIn(t.grants, name, from, to)
      {
        CountAppend(Prune(s.rows, c.name, before), Row(c.name, c.now), name, from, to);
        CountAppend(s.grants, Row(c.name, c.now), name, from, to);
        PruneKeepsCount(s.rows, c.name, before, name, from, to);
      }
    }
  }

  lemma WindowStep(rates: map<string, Rate>, s: State, clock: int, c: Call)
    requires ValidRates(rates) && Agrees(rates, s, clock) && clock <= c.now && c.name in rates
    requires NoWindowExceeds(rates, s.grants)
    ensures NoWindowExceeds(rates, After(s, c, rates).grants)
  {
    var t := After(s, c, rates);
    GrantedIffBelow(rates, s, clock, c);
    if Allowed(s.rows, c.name, rates[c.name], c.now) {
      forall name, from, to | name in rates && to == from + rates[name].period
        ensures CountIn(t.grants, name, from, to) <= rates[name].limit
      {
        CountAppend(s.grants, Row(c.name, c.now), name, from, to);
        if name == c.name && from <= c.now <= to {
          CapAtClock(s.grants, name, from, to, c.now);
          CountShrinks(s.grants, name, from, c.now, c.now - rates[name].period, c.now);
        }
      }
    }
  }

  /** No grant lies beyond the clock, so a window may be cut off there. */
  lemma {:induction false} CapAtClock(rows: seq<Row>, name: string, from: int, to: int, clock: int)
    requires forall i :: 0 <= i < |rows| ==> rows[i].at <= clock
    requires clock <= to
    ensures CountIn(rows, name, from, to) == CountIn(rows, name, from, clock)
    decreases |rows|
  {
    if rows != [] {
      assert rows[0].at <= clock;
      CapAtClock(rows[1..], name, from, to, clock);
    }
  }

  /** The clock before call `n`: the time of the call before, or early enough before the first call. */
  function Clock(calls: seq<Call>, n: nat): int
    requires n <= |calls|
  {
    if n > 0 then calls[n - 1].now else if calls != [] then calls[0].now else 0
  }

  lemma {:induction false} EveryRun(rates: map<string, Rate>, ss: seq<State>, calls: seq<Call>, n: nat)
    requires ValidRates(rates) && IsRun(rates, ss, calls) && n < |ss|
    ensures Agrees(rates, ss[n], Clock(calls, n)) && NoWindowExceeds(rates, ss[n].grants)
    decreases n
  {
    if n > 0 {
      EveryRun(rates, ss, calls, n - 1);
      AgreesStep(rates, ss[n - 1], Clock(calls, n - 1), calls[n - 1]);
      WindowStep(rates, ss[n - 1], Clock(calls, n - 1), calls[n - 1]);
    }
  }

  /** A call is granted exactly when the full history holds fewer than `limit` grants in [now - period, now]. */
  lemma GrantedIff(rates: map<string, Rate>, ss: seq<State>, calls: seq<Call>, n: nat)
    requires ValidRates(rates) && IsRun(rates, ss, calls) && n < |calls|
    ensures var c, rate := calls[n], rates[calls[n].name];
            Allowed(ss[n].rows, c.name, rate, c.now) <==>
            CountIn(ss[n].grants, c.name, c.now - rate.period, c.now) < rate.limit
  {
    EveryRun(rates, ss, calls, n);
    GrantedIffBelow(rates, ss[n], Clock(calls, n), calls[n]);
  }

  /** No closed window of length `period` ever holds more than `limit` grants of a name. */
  lemma NeverExceeded(rates: map<string, Rate>, ss: seq<State>, calls: seq<Call>, n: nat, name: string, from: int)
    requires ValidRates(rates) && IsRun(rates, ss, calls) && n < |ss| && name in rates
    ensures CountIn(ss[n].grants, name, from, from + rates[name].period) <= rates[name].limit
  {
    EveryRun(rates, ss, calls, n);
  }
}
