/** In which order a worker searches its queues: strictly as listed, or rotating by weight. */
module Rotation {
  import opened Arithmetic

  const WRAP := 0x1_0000_0000_0000_0000

  /** A missing weight, and one that is not positive, counts as one. */
  function Weight(weights: map<string, int>, q: string): (w: nat)
    ensures w >= 1 && (q in weights && weights[q] >= 1 ==> w == weights[q])
    ensures w == 1 || (q in weights && w == weights[q])
  {
    if q in weights && weights[q] > 0 then weights[q] else 1
  }

  function Repeat(q: string, n: nat): (s: seq<string>)
    ensures |s| == n && forall x :: x in s ==> x == q
  {
    seq(n, _ => q)
  }

  /** Every queue as often as it weighs, in the order listed. */
  function Expand(weights: map<string, int>, queues: seq<string>): seq<string> {
    if queues == [] then []
    else
      var last := queues[|queues| - 1];
      Expand(weights, queues[..|queues| - 1]) + Repeat(last, Weight(weights, last))
  }

  function Without(queues: seq<string>, primary: string): seq<string> {
    if queues == [] then []
    else
      var front, last := Without(queues[..|queues| - 1], primary), queues[|queues| - 1];
      if last != primary then front + [last] else front
  }

  function SearchOrder(queues: seq<string>, primary: string): seq<string> {
    [primary] + Without(queues, primary)
  }

  function PrimaryAt(first: seq<string>, counter: nat): string
    requires first != []
  {
    first[counter % |first|]
  }

  /** What asking a queue for a job yields. */
  datatype Answer = Nothing | Job(id: string) | Error

  class WorkerPool {
    const weights: map<string, int>
    var firstQueues: seq<string>
    var fetchCounter: nat

    constructor (weights: map<string, int>)
      ensures this.weights == weights && firstQueues == [] && fetchCounter == 0
    {
      this.weights, firstQueues, fetchCounter := weights, [], 0;
    }

    /** Without weights the pool searches strictly. */
    method SetupWeightedQueues(queues: seq<string>)
      modifies this`firstQueues
      ensures firstQueues == if weights == map[] then old(firstQueues) else Expand(weights, queues)
    {
      if |weights| == 0 {
        return;
      }
      var fqs: seq<string> := [];
      for n := 0 to |queues|
        invariant fqs == Expand(weights, queues[..n])
      {
        var q, wt := queues[n], 1;
        if q in weights && weights[q] > 0 {
          wt := weights[q];
        }
        ghost var before := fqs;
        for i := 0 to wt
          invariant fqs == before + Repeat(q, i)
        {
          fqs := fqs + [q];
        }
        assert queues[..n + 1][..n] == queues[..n];
      }
      assert queues[..|queues|] == queues;
      firstQueues := fqs;
    }

    /** The counter is taken before it moves, and wraps at 64 bits. */
    method BuildSearchOrder(queues: seq<string>) returns (order: seq<string>)
      requires firstQueues != [] && fetchCounter < WRAP
      modifies this`fetchCounter
      ensures order == SearchOrder(queues, PrimaryAt(firstQueues, old(fetchCounter)))
      ensures fetchCounter == Advance(old(fetchCounter)) && fetchCounter < WRAP
    {
      fetchCounter := (fetchCounter + 1) % WRAP;
      var idx := (fetchCounter + WRAP - 1) % WRAP % |firstQueues|;
      var primary := firstQueues[idx];
      order := [primary];
      for i := 0 to |queues|
        invariant order == SearchOrder(queues[..i], primary)
      {
        assert queues[..i + 1][..i] == queues[..i];
        if queues[i] != primary {
          order := order + [queues[i]];
        }
      }
      assert queues[..|queues|] == queues;
    }

    /** Asks the queues in turn and stops at the first answer; `answers[i]` is what the call for `order[i]` yields. */
    static method FetchFromOrder(order: seq<string>, answers: seq<Answer>) returns (answer: Answer)
      requires |answers| == |order|
      ensures answer.Nothing? ==> forall i :: 0 <= i < |order| ==> answers[i].Nothing?
      ensures !answer.Nothing? ==> exists k :: IsFirstAnswer(answers, k) && answers[k] == answer
    {
      answer := Nothing;
      var i := 0;
      while answer.Nothing? && i < |order|
        invariant 0 <= i <= |order|
        invariant answer.Nothing? ==> forall j :: 0 <= j < i ==> answers[j].Nothing?
        invariant !answer.Nothing? ==> i > 0 && IsFirstAnswer(answers, i - 1) && answers[i - 1] == answer
      {
        answer := answers[i];
        i := i + 1;
      }
    }
  }

  predicate IsFirstAnswer(answers: seq<Answer>, k: int) {
    0 <= k < |answers| && !answers[k].Nothing? && forall i :: 0 <= i < k ==> answers[i].Nothing?
  }

  function Advance(counter: nat): nat {
    (counter + 1) % WRAP
  }

  /** The counter of fetch `k` when the counter of fetch 0 is `start`. */
  function CounterAt(start: nat, k: nat): nat {
    if k == 0 then start else Advance(CounterAt(start, k - 1))
  }

  /** The primaries of `n` consecutive fetches. */
  function Primaries(first: seq<string>, start: nat, n: nat): (s: seq<string>)
    requires first != []
    ensures |s| == n
    decreases n
  {
    if n == 0 then [] else [PrimaryAt(first, start)] + Primaries(first, Advance(start), n - 1)
  }

  lemma {:induction false} CounterShifts(start: nat, k: nat)
    ensures CounterAt(Advance(start), k) == CounterAt(start, k + 1)
    decreases k
  {
    if k > 0 {
      CounterShifts(start, k - 1);
    }
  }

  lemma {:induction false} PrimariesAt(first: seq<string>, start: nat, n: nat, k: nat)
    requires first != [] && k < n
    ensures Primaries(first, start, n)[k] == PrimaryAt(first, CounterAt(start, k))
    decreases k
  {
    if k > 0 {
      PrimariesAt(first, Advance(start), n - 1, k - 1);
      CounterShifts(start, k - 1);
    }
  }

  lemma {:induction false} OneMorePrimary(first: seq<string>, start: nat, n: nat)
    requires first != []
    ensures Primaries(first, start, n + 1) == Primaries(first, start, n) + [PrimaryAt(first, CounterAt(start, n))]
    decreases n
  {
    if n > 0 {
      OneMorePrimary(first, Advance(start), n - 1);
      CounterShifts(start, n - 1);
    }
  }

  lemma {:induction false} WithoutCounts(queues: seq<string>, primary: string, q: string)
    ensures multiset(Without(queues, primary))[q] == if q == primary then 0 else multiset(queues)[q]
    decreases |queues|
  {
    if queues != [] {
      var front, last := queues[..|queues| - 1], queues[|queues| - 1];
      WithoutCounts(front, primary, q);
      assert queues == front + [last];
    }
  }

  /** A search order is a permutation of the queues exactly when the primary is listed once. */
  lemma SearchesEachQueueOnceIff(queues: seq<string>, primary: string)
    ensures multiset(SearchOrder(queues, primary)) == multiset(queues) <==> multiset(queues)[primary] == 1
    ensures SearchOrder(queues, primary)[0] == primary
  {
    var order := SearchOrder(queues, primary);
    forall q ensures multiset(order)[q] == if q == primary then 1 else multiset(queues)[q] {
      WithoutCounts(queues, primary, q);
    }
  }

  /** Where a queue that is searched later than the primary is listed. */
  lemma {:induction false} ListedAt(queues: seq<string>, primary: string, i: nat) returns (a: nat)
    requires i < |Without(queues, primary)|
    ensures a < |queues| && queues[a] == Without(queues, primary)[i]
    ensures Without(queues[..a], primary) == Without(queues, primary)[..i]
    decreases |queues|
  {
    var n := |queues| - 1;
    var front := Without(queues[..n], primary);
    if i < |front| {
      a := ListedAt(queues[..n], primary, i);
      assert queues[..n][..a] == queues[..a];
    } else {
      a := n;
    }
  }

  /** After the primary the other queues are searched in the order in which they are listed. */
  lemma OthersAsListed(queues: seq<string>, primary: string, i: nat, j: nat) returns (a: nat, b: nat)
    requires 0 < i < j < |SearchOrder(queues, primary)|
    ensures a < b < |queues|
    ensures queues[a] == SearchOrder(queues, primary)[i] && queues[b] == SearchOrder(queues, primary)[j]
  {
    b := ListedAt(queues, primary, j - 1);
    a := ListedAt(queues[..b], primary, i - 1);
  }

  /** The expanded list goes through the queues as they are listed. */
  lemma {:induction false} ExpandsInOrder(weights: map<string, int>, queues: seq<string>, i: nat, j: nat)
    returns (a: nat, b: nat)
    requires i <= j < |Expand(weights, queues)|
    ensures a <= b < |queues| && queues[a] == Expand(weights, queues)[i] && queues[b] == Expand(weights, queues)[j]
    decreases |queues|
  {
    var n := |queues| - 1;
    var front := Expand(weights, queues[..n]);
    if j < |front| {
      a, b := ExpandsInOrder(weights, queues[..n], i, j);
    } else if i < |front| {
      a, b := ExpandsInOrder(weights, queues[..n], i, i);
      b := n;
    } else {
      a, b := n, n;
    }
  }

  ghost predicate Distinct(queues: seq<string>) {
    forall i, j :: 0 <= i < j < |queues| ==> queues[i] != queues[j]
  }

  lemma {:induction false} RepeatCounts(x: string, n: nat, q: string)
    ensures multiset(Repeat(x, n))[q] == if q == x then n else 0
    decreases n
  {
    if n > 0 {
      RepeatCounts(x, n - 1, q);
      assert Repeat(x, n) == Repeat(x, n - 1) + [x];
    }
  }

  lemma {:induction false} CountsOne(queues: seq<string>, q: string)
    requires Distinct(queues)
    ensures multiset(queues)[q] == if q in queues then 1 else 0
    decreases |queues|
  {
    if queues != [] {
      var front, last := queues[..|queues| - 1], queues[|queues| - 1];
      CountsOne(front, q);
      assert queues == front + [last];
    }
  }

  lemma {:induction false} ExpandCounts(weights: map<string, int>, queues: seq<string>, q: string)
    requires Distinct(queues)
    ensures multiset(Expand(weights, queues))[q] == if q in queues then Weight(weights, q) else 0
    decreases |queues|
  {
    if queues != [] {
      var front, last := queues[..|queues| - 1], queues[|queues| - 1];
      ExpandCounts(weights, front, q);
      RepeatCounts(last, Weight(weights, last), q);
      assert queues == front + [last];
    }
  }

  lemma {:induction false} CounterIs(start: nat, k: nat)
    requires start < WRAP
    ensures CounterAt(start, k) == (start + k) % WRAP
    decreases k
  {
    if k > 0 {
      CounterIs(start, k - 1);
      ModStep(WRAP, start + k - 1);
    }
  }

  lemma IndexOfFetch(start: nat, k: nat, n: nat, r: nat)
    requires k < n && start + n <= WRAP && r == start % n
    ensures CounterAt(start, k) % n == if r + k < n then r + k else r + k - n
  {
    CounterIs(start, k);
    assert CounterAt(start, k) == start + k;
    Shift(start, k, n);
  }

  lemma PrimaryOfFetch(first: seq<string>, start: nat, k: nat, r: nat)
    requires k < |first| && start + |first| <= WRAP && r == start % |first|
    ensures PrimaryAt(first, CounterAt(start, k)) == (first[r..] + first[..r])[k]
  {
    IndexOfFetch(start, k, |first|, r);
  }

  /** Before the counter wraps, the primaries of a full turn are the expanded list, begun somewhere in its middle. */
  lemma FullTurn(first: seq<string>, start: nat, r: nat)
    requires first != [] && start + |first| <= WRAP && r == start % |first|
    ensures Primaries(first, start, |first|) == first[r..] + first[..r]
  {
    forall k: nat | k < |first| ensures Primaries(first, start, |first|)[k] == (first[r..] + first[..r])[k] {
      PrimariesAt(first, start, |first|, k);
      PrimaryOfFetch(first, start, k, r);
    }
  }

  lemma Shift(start: nat, k: nat, n: nat)
    requires k < n
    ensures (start + k) % n == if start % n + k < n then start % n + k else start % n + k - n
  {
    var q, r := start / n, start % n;
    assert start == q * n + r;
    if r + k < n {
      DivMod(n, q, r + k);
    } else {
      assert (q + 1) * n == q * n + n;
      DivMod(n, q + 1, r + k - n);
    }
  }

  /**
   * Among any `W` consecutive fetches, `W` being the total weight, every queue comes first exactly as often as it
   * weighs, and every fetch searches every queue once.
   */
  lemma WeightedFairly(weights: map<string, int>, queues: seq<string>, start: nat, q: string, k: nat)
    requires Distinct(queues) && queues != []
    requires start + |Expand(weights, queues)| <= WRAP && k < |Expand(weights, queues)|
    ensures var first := Expand(weights, queues);
            && multiset(Primaries(first, start, |first|))[q] == (if q in queues then Weight(weights, q) else 0)
            && multiset(SearchOrder(queues, PrimaryAt(first, CounterAt(start, k)))) == multiset(queues)
  {
    var first := Expand(weights, queues);
    var r := start % |first|;
    FullTurn(first, start, r);
    assert first == first[..r] + first[r..];
    ExpandCounts(weights, queues, q);
    CountsOne(queues, q);
    var primary := PrimaryAt(first, CounterAt(start, k));
    assert primary in multiset(first);
    ExpandCounts(weights, queues, primary);
    CountsOne(queues, primary);
    SearchesEachQueueOnceIff(queues, primary);
  }

  // Across the wrap of the counter

  /** Every turn of `W` fetches is fair, wherever the counter stands. */
  ghost predicate AlwaysFair(weights: map<string, int>, queues: seq<string>)
    requires Expand(weights, queues) != []
  {
    forall start: nat, q :: start < WRAP ==> Fair(weights, queues, start, q)
  }

  ghost predicate Fair(weights: map<string, int>, queues: seq<string>, start: nat, q: string)
    requires Expand(weights, queues) != []
  {
    var first := Expand(weights, queues);
    multiset(Primaries(first, start, |first|))[q] == if q in queues then Weight(weights, q) else 0
  }

  /** The index `i` places after `r` in a list of `n` that is read in a circle. */
  function Around(n: nat, r: nat, i: nat): nat
    requires r < n && i < n
  {
    if r + i < n then r + i else r + i - n
  }

  lemma IndexDividing(start: nat, k: nat, n: nat, r: nat)
    requires k < n && start < WRAP && r == start % n && WRAP % n == 0
    ensures CounterAt(start, k) % n == Around(n, r, k)
  {
    CounterIs(start, k);
    var c := WRAP / n;
    assert WRAP == c * n;
    ModMod(n, c, start + k);
    Shift(start, k, n);
  }

  lemma PrimaryDividing(first: seq<string>, start: nat, k: nat, r: nat)
    requires k < |first| && start < WRAP && r == start % |first| && WRAP % |first| == 0
    ensures PrimaryAt(first, CounterAt(start, k)) == (first[r..] + first[..r])[k]
  {
    IndexDividing(start, k, |first|, r);
  }

  /** When the total weight divides the range of the counter, wrapping is not noticed. */
  lemma DividingTurn(first: seq<string>, start: nat, r: nat)
    requires first != [] && start < WRAP && r == start % |first| && WRAP % |first| == 0
    ensures Primaries(first, start, |first|) == first[r..] + first[..r]
  {
    forall k: nat | k < |first| ensures Primaries(first, start, |first|)[k] == (first[r..] + first[..r])[k] {
      PrimariesAt(first, start, |first|, k);
      PrimaryDividing(first, start, k, r);
    }
  }

  lemma TurnCounts(first: seq<string>, r: nat, turn: seq<string>)
    requires r < |first| && turn == first[r..] + first[..r]
    ensures multiset(turn) == multiset(first)
  {
    assert first == first[..r] + first[r..];
  }

  lemma DividingIsFair(weights: map<string, int>, queues: seq<string>, start: nat, q: string)
    requires Distinct(queues) && Expand(weights, queues) != [] && start < WRAP
    requires WRAP % |Expand(weights, queues)| == 0
    ensures Fair(weights, queues, start, q)
  {
    var first := Expand(weights, queues);
    var r := start % |first|;
    DividingTurn(first, start, r);
    TurnCounts(first, r, Primaries(first, start, |first|));
    ExpandCounts(weights, queues, q);
  }

  /** With a single queue there is nothing to be unfair about. */
  lemma SingleIsFair(weights: map<string, int>, queues: seq<string>, start: nat, q: string)
    requires |queues| == 1
    ensures Expand(weights, queues) != [] && Fair(weights, queues, start, q)
  {
    var w := Weight(weights, queues[0]);
    ExpandFront(weights, queues);
    assert queues[1..] == [];
    var first := Expand(weights, queues);
    assert first == Repeat(queues[0], w);
    AllOneQueue(first, start, queues[0], w);
    RepeatCounts(queues[0], w, q);
  }

  lemma {:induction false} AllOneQueue(first: seq<string>, start: nat, x: string, n: nat)
    requires first != [] && forall y :: y in first ==> y == x
    ensures Primaries(first, start, n) == Repeat(x, n)
    decreases n
  {
    if n > 0 {
      AllOneQueue(first, Advance(start), x, n - 1);
      assert PrimaryAt(first, start) in first;
      assert Repeat(x, n) == [x] + Repeat(x, n - 1);
    }
  }

  lemma SlideEqual(mid: seq<string>, a: string, b: string)
    requires forall q :: multiset([a] + mid)[q] == multiset(mid + [b])[q]
    ensures a == b
  {
    assert multiset([a] + mid)[a] == multiset(mid + [b])[a];
  }

  lemma Windows(first: seq<string>, start: nat, n: nat) returns (mid: seq<string>)
    requires first != [] && n > 0
    ensures Primaries(first, start, n) == [PrimaryAt(first, start)] + mid
    ensures Primaries(first, Advance(start), n) == mid + [PrimaryAt(first, CounterAt(start, n))]
  {
    mid := Primaries(first, Advance(start), n - 1);
    OneMorePrimary(first, Advance(start), n - 1);
    CounterShifts(start, n - 1);
  }

  lemma FairCounts(weights: map<string, int>, queues: seq<string>, start: nat, q: string)
    requires Expand(weights, queues) != [] && AlwaysFair(weights, queues) && start < WRAP
    ensures var first := Expand(weights, queues);
            multiset(Primaries(first, start, |first|))[q] == if q in queues then Weight(weights, q) else 0
  {
    assert Fair(weights, queues, start, q);
  }

  /** Two fair turns, one fetch apart: what leaves the window comes back at its end. */
  lemma FairSlides(weights: map<string, int>, queues: seq<string>, first: seq<string>, start: nat)
    requires first == Expand(weights, queues) && first != [] && AlwaysFair(weights, queues) && start < WRAP
    ensures PrimaryAt(first, start) == PrimaryAt(first, CounterAt(start, |first|))
  {
    var mid := Windows(first, start, |first|);
    var a, b := PrimaryAt(first, start), PrimaryAt(first, CounterAt(start, |first|));
    forall q ensures multiset([a] + mid)[q] == multiset(mid + [b])[q] {
      FairCounts(weights, queues, start, q);
      FairCounts(weights, queues, Advance(start), q);
    }
    SlideEqual(mid, a, b);
  }

  lemma StartIndex(n: nat, r: nat, i: nat)
    requires i < n <= WRAP && r == WRAP % n
    ensures (WRAP - n + i) % n == Around(n, r, i)
  {
    var c := WRAP / n;
    assert WRAP - n + i == (c - 1) * n + (r + i) by {
      assert (c - 1) * n == c * n - n;
    }
    AddMultiple(n, c - 1, r + i);
    DivMod(n, 0, r);
    Shift(r, i, n);
  }

  lemma IndexAcross(n: nat, r: nat, i: nat)
    requires i < n <= WRAP && r == WRAP % n
    ensures CounterAt(WRAP - n + i, n) == i && (WRAP - n + i) % n == Around(n, r, i) && i % n == i
  {
    CounterIs(WRAP - n + i, n);
    StartIndex(n, r, i);
    DivMod(n, 0, i);
  }

  /** If every turn is fair, the expanded list looks the same when rotated by what the wrap leaves over. */
  lemma FairRotates(weights: map<string, int>, queues: seq<string>, r: nat, i: nat)
    requires Expand(weights, queues) != [] && AlwaysFair(weights, queues)
    requires i < |Expand(weights, queues)| <= WRAP && r == WRAP % |Expand(weights, queues)|
    ensures var first := Expand(weights, queues); first[Around(|first|, r, i)] == first[i]
  {
    var n := |Expand(weights, queues)|;
    FairSlides(weights, queues, Expand(weights, queues), WRAP - n + i);
    IndexAcross(n, r, i);
  }

  /** A list that holds `p` exactly in a proper front part is not rotated into itself. */
  lemma BlockRotates(first: seq<string>, p: string, w: nat, r: nat)
    requires r < |first| && 0 < w < |first|
    requires forall i :: 0 <= i < |first| ==> (first[i] == p <==> i < w)
    requires forall i: nat :: i < |first| ==> first[Around(|first|, r, i)] == first[i]
    ensures r == 0
  {
    assert Around(|first|, r, 0) == r;
    assert Around(|first|, r, w - r) == w;
  }

  /** The expanded list begins with the first queue, as often as it weighs. */
  lemma {:induction false} ExpandFront(weights: map<string, int>, queues: seq<string>)
    requires queues != []
    ensures Expand(weights, queues) == Repeat(queues[0], Weight(weights, queues[0])) + Expand(weights, queues[1..])
    decreases |queues|
  {
    var front, last := queues[..|queues| - 1], queues[|queues| - 1];
    if |queues| == 1 {
      assert front == [] && queues[1..] == [];
    } else {
      ExpandFront(weights, front);
      assert queues[1..][..|queues| - 2] == front[1..];
    }
  }

  lemma {:induction false} ExpandOnly(weights: map<string, int>, queues: seq<string>)
    ensures forall x :: x in Expand(weights, queues) ==> x in queues
    ensures queues != [] ==> Expand(weights, queues) != []
    decreases |queues|
  {
    if queues != [] {
      ExpandOnly(weights, queues[..|queues| - 1]);
    }
  }

  lemma RotatingNeedsDivision(weights: map<string, int>, queues: seq<string>, r: nat)
    requires Distinct(queues) && |queues| > 1 && Expand(weights, queues) != []
    requires |Expand(weights, queues)| <= WRAP && AlwaysFair(weights, queues)
    requires r == WRAP % |Expand(weights, queues)|
    ensures r == 0
  {
    var first, p, w := Expand(weights, queues), queues[0], Weight(weights, queues[0]);
    var rest := Expand(weights, queues[1..]);
    ExpandFront(weights, queues);
    ExpandOnly(weights, queues[1..]);
    forall i | 0 <= i < |first| ensures first[i] == p <==> i < w {
      if i >= w {
        assert first[i] == rest[i - w] && rest[i - w] in queues[1..];
      }
    }
    forall i: nat | i < |first| ensures first[Around(|first|, r, i)] == first[i] {
      FairRotates(weights, queues, r, i);
    }
    BlockRotates(first, p, w, r);
  }

  /**
   * Turns that cross the wrap are fair as well exactly when the total weight divides 2^64, unless there is only one
   * queue.
   */
  lemma FairAcrossWrapIff(weights: map<string, int>, queues: seq<string>)
    requires Distinct(queues) && queues != [] && |Expand(weights, queues)| <= WRAP
    ensures Expand(weights, queues) != []
    ensures AlwaysFair(weights, queues) <==>
            0x1_0000_0000_0000_0000 % |Expand(weights, queues)| == 0 || |queues| == 1
  {
    ExpandOnly(weights, queues);
    if |queues| == 1 {
      forall start: nat, q | start < WRAP ensures Fair(weights, queues, start, q) {
        SingleIsFair(weights, queues, start, q);
      }
    } else if WRAP % |Expand(weights, queues)| == 0 {
      forall start: nat, q | start < WRAP ensures Fair(weights, queues, start, q) {
        DividingIsFair(weights, queues, start, q);
      }
    } else if AlwaysFair(weights, queues) {
      RotatingNeedsDivision(weights, queues, WRAP % |Expand(weights, queues)|);
    }
  }
}
