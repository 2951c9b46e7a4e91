/**
 * The worker pool's semaphore: a channel of capacity `Max` in which every running job holds a token. A pool that runs
 * below its maximum fills the difference with phantom tokens, which scaling up takes out of the channel and scaling
 * down puts back, the latter in background goroutines that may have to wait.
 */
module Autoscaler {
  import opened Tables

  datatype Config = Config(min: int, max: int, depthLimit: int, upStep: int, downStep: int) {
    predicate Valid() {
      1 <= min <= max
    }
  }

  /**
   * `tokens` are in the channel; `held` belong to the processing loop and its jobs; `receiving` are still to be taken
   * out by the scale-up that holds the mutex; `depositors` are still to be put in, one entry per goroutine.
   */
  datatype Pool = Pool(tokens: int, current: int, held: nat, receiving: nat, depositors: seq<nat>)

  datatype Action =
    | Acquire | Release
    | Adjust(target: int)
    | Receive
    | Deposit(i: nat)

  function ClampTarget(cfg: Config, target: int): (r: int)
    ensures cfg.min <= cfg.max ==> cfg.min <= r <= cfg.max
    ensures cfg.min <= target <= cfg.max ==> r == target
    ensures cfg.min <= cfg.max ==> forall t :: cfg.min <= t <= cfg.max ==> Distance(r, target) <= Distance(t, target)
  {
    if target < cfg.min then cfg.min
    else if target > cfg.max then cfg.max
    else target
  }

  function Distance(a: int, b: int): nat {
    if a < b then b - a else a - b
  }

  function Total(parts: seq<nat>): nat {
    if parts == [] then 0 else parts[0] + Total(parts[1..])
  }

  predicate Enabled(cfg: Config, p: Pool, a: Action)
  {
    match a
    case Acquire => p.tokens < cfg.max
    case Release => p.held > 0 && p.tokens > 0
    case Adjust(_) => p.receiving == 0 // the mutex is free
    case Receive => p.receiving > 0 && p.tokens > 0
    case Deposit(i) => i < |p.depositors| && p.depositors[i] > 0 && p.tokens < cfg.max
  }

  function AfterAdjust(cfg: Config, p: Pool, target: int): Pool
    requires p.receiving == 0
  {
    var t := ClampTarget(cfg, target);
    if t == p.current then p
    else if t > p.current then p.(current := t, receiving := t - p.current)
    else p.(current := t, depositors := p.depositors + [p.current - t])
  }

  function After(cfg: Config, p: Pool, a: Action): Pool
    requires Enabled(cfg, p, a)
  {
    match a
    case Acquire => p.(tokens := p.tokens + 1, held := p.held + 1)
    case Release => p.(tokens := p.tokens - 1, held := p.held - 1)
    case Adjust(target) => AfterAdjust(cfg, p, target)
    case Receive => p.(tokens := p.tokens - 1, receiving := p.receiving - 1)
    case Deposit(i) => p.(tokens := p.tokens + 1, depositors := p.depositors[i := p.depositors[i] - 1])
  }

  /** The pool as setupSemaphore leaves it. */
  function Initial(cfg: Config): Pool {
    Pool(cfg.max - cfg.min, cfg.min, 0, 0, [])
  }

  ghost predicate Inv(cfg: Config, p: Pool)
  {
    && cfg.min <= p.current <= cfg.max
    && 0 <= p.tokens <= cfg.max
    && p.tokens == p.held + (cfg.max - p.current) - Total(p.depositors) + p.receiving
  }

  lemma {:induction false} TotalAppend(parts: seq<nat>, n: nat)
    ensures Total(parts + [n]) == Total(parts) + n
    decreases |parts|
  {
    if parts != [] {
      assert (parts + [n])[1..] == parts[1..] + [n];
      TotalAppend(parts[1..], n);
    }
  }

  lemma {:induction false} TotalUpdate(parts: seq<nat>, i: nat, n: nat)
    requires i < |parts|
    ensures Total(parts[i := n]) == Total(parts) - parts[i] + n
    decreases |parts|
  {
    if i > 0 {
      assert parts[i := n][1..] == parts[1..][i - 1 := n];
      TotalUpdate(parts[1..], i - 1, n);
    }
  }

  lemma {:induction false} TotalPositive(parts: seq<nat>) returns (i: nat)
    requires Total(parts) > 0
    ensures i < |parts| && parts[i] > 0
    decreases |parts|
  {
    if parts[0] > 0 {
      i := 0;
    } else {
      i := TotalPositive(parts[1..]);
      i := i + 1;
    }
  }

  lemma Step(cfg: Config, p: Pool, a: Action)
    requires cfg.Valid() && Inv(cfg, p) && Enabled(cfg, p, a)
    ensures Inv(cfg, After(cfg, p, a))
  {
    match a
    case Adjust(target) => TotalAppend(p.depositors, Distance(p.current, ClampTarget(cfg, target)));
    case Deposit(i) => TotalUpdate(p.depositors, i, p.depositors[i] - 1);
    case _ =>
  }

  /** By how much `b` lies above `a`. */
  function Rise(a: int, b: int): nat {
    if a < b then b - a else 0
  }

  /** `r` is in the range, and no point of the range is nearer to the target. */
  ghost predicate IsNearest(cfg: Config, target: int, r: int) {
    cfg.min <= r <= cfg.max && forall t :: cfg.min <= t <= cfg.max ==> Distance(r, target) <= Distance(t, target)
  }

  /**
   * From `p` to `q` the level moved to the point nearest to the target; what it rose by is still to be taken out of the
   * channel, what it fell by is still to be put in, and nothing else happened.
   */
  ghost predicate MovesLevel(cfg: Config, p: Pool, target: int, q: Pool) {
    && IsNearest(cfg, target, q.current)
    && q.tokens == p.tokens && q.held == p.held
    && q.receiving == p.receiving + Rise(p.current, q.current)
    && Total(q.depositors) == Total(p.depositors) + Rise(q.current, p.current)
    && p.depositors <= q.depositors
  }

  lemma AdjustMoves(cfg: Config, p: Pool, target: int)
    requires cfg.Valid() && Enabled(cfg, p, Adjust(target))
    ensures MovesLevel(cfg, p, target, After(cfg, p, Adjust(target)))
  {
    TotalAppend(p.depositors, Distance(p.current, ClampTarget(cfg, target)));
  }

  /** Any interleaving of the processing loop, the jobs, the autoscaler and its goroutines. */
  ghost predicate IsRun(cfg: Config, ps: seq<Pool>, acts: seq<Action>)
  {
    && |ps| == |acts| + 1 && ps[0] == Initial(cfg)
    && forall i {:trigger acts[i]} :: 0 <= i < |acts| ==>
         Enabled(cfg, ps[i], acts[i]) && ps[i + 1] == After(cfg, ps[i], acts[i])
  }

  lemma {:induction false} EveryRun(cfg: Config, ps: seq<Pool>, acts: seq<Action>, n: nat)
    requires cfg.Valid() && IsRun(cfg, ps, acts) && n < |ps|
    ensures Inv(cfg, ps[n])
    decreases n
  {
    if n > 0 {
      EveryRun(cfg, ps, acts, n - 1);
      Step(cfg, ps[n - 1], acts[n - 1]);
    }
  }

  /** The conservation law of the channel, and the bound on slots it gives. */
  lemma TokensConserved(cfg: Config, ps: seq<Pool>, acts: seq<Action>, n: nat)
    requires cfg.Valid() && IsRun(cfg, ps, acts) && n < |ps|
    ensures var p := ps[n];
      && cfg.min <= p.current <= cfg.max
      && p.tokens == p.held + (cfg.max - p.current) - Total(p.depositors) + p.receiving
      && p.held + p.receiving <= p.current + Total(p.depositors)
  {
    EveryRun(cfg, ps, acts, n);
  }

  /**
   * With no deposit or receive outstanding, the pool takes another job exactly when fewer than `current` slots are
   * held.
   */
  lemma SettledAdmitsIff(cfg: Config, ps: seq<Pool>, acts: seq<Action>, n: nat)
    requires cfg.Valid() && IsRun(cfg, ps, acts) && n < |ps|
    requires Total(ps[n].depositors) == 0 && ps[n].receiving == 0
    ensures ps[n].held <= ps[n].current
    ensures Enabled(cfg, ps[n], Acquire) <==> ps[n].held < ps[n].current
  {
    EveryRun(cfg, ps, acts, n);
  }

  /** A release or a scale-up that finds the channel empty can rely on a deposit that is ready to go. */
  lemma BlockedReceiverIsServed(cfg: Config, ps: seq<Pool>, acts: seq<Action>, n: nat) returns (i: nat)
    requires cfg.Valid() && IsRun(cfg, ps, acts) && n < |ps|
    requires ps[n].tokens == 0 && (ps[n].held > 0 || ps[n].receiving > 0)
    ensures Enabled(cfg, ps[n], Deposit(i))
  {
    EveryRun(cfg, ps, acts, n);
    i := TotalPositive(ps[n].depositors);
  }

  /** A deposit that finds the channel full can rely on a release or a scale-up that is ready to go. */
  lemma BlockedDepositIsServed(cfg: Config, ps: seq<Pool>, acts: seq<Action>, n: nat)
    requires cfg.Valid() && IsRun(cfg, ps, acts) && n < |ps|
    requires ps[n].tokens == cfg.max && Total(ps[n].depositors) > 0
    ensures Enabled(cfg, ps[n], Release) || Enabled(cfg, ps[n], Receive)
  {
    EveryRun(cfg, ps, acts, n);
  }

  /** The worker pool with the fields the autoscaler updates. */
  class WorkerPool {
    const autoscale: Option<Config>
    const concurrency: int
    var tokens: int
    var currentConcurrency: int
    var held: nat
    var receiving: nat
    var depositors: seq<nat>

    ghost function Snapshot(): Pool
      reads this
    {
      Pool(tokens, currentConcurrency, held, receiving, depositors)
    }

    /** Without autoscaling a pool has as many slots as it was given, no fewer and no more. */
    function Limits(): Config {
      if autoscale.Some? then autoscale.value else Config(concurrency, concurrency, 0, 0, 0)
    }

    constructor (autoscale: Option<Config>, concurrency: int)
      ensures this.autoscale == autoscale && this.concurrency == concurrency
    {
      this.autoscale, this.concurrency := autoscale, concurrency;
    }

    /** Fills a new channel with the phantom tokens of the slots above the minimum. */
    method SetupSemaphore()
      requires Limits().Valid()
      modifies this
      ensures Snapshot() == Initial(Limits()) && Inv(Limits(), Snapshot())
      ensures autoscale.None? ==> currentConcurrency == concurrency && tokens == 0
      ensures autoscale.Some? ==>
        currentConcurrency == autoscale.value.min && tokens == autoscale.value.max - autoscale.value.min
    {
      tokens, held, receiving, depositors := 0, 0, 0, [];
      if autoscale.None? {
        currentConcurrency := concurrency;
        return;
      }
      var cfg := autoscale.value;
      currentConcurrency := cfg.min;
      var diff := cfg.max - cfg.min;
      for i := 0 to diff
        invariant tokens == i
        invariant currentConcurrency == cfg.min && held == 0 && receiving == 0 && depositors == []
      {
        tokens := tokens + 1;
      }
    }

    /** The part of adjustConcurrency up to its first channel operation. */
    method AdjustConcurrency(target: int)
      requires autoscale.Some? && receiving == 0
      modifies this
      ensures Snapshot() == AfterAdjust(autoscale.value, old(Snapshot()), target)
      ensures autoscale.value.Valid() ==> MovesLevel(autoscale.value, old(Snapshot()), target, Snapshot())
    {
      if autoscale.value.Valid() {
        AdjustMoves(autoscale.value, Snapshot(), target);
      }
      var clamped := ClampTarget(autoscale.value, target);
      if clamped == currentConcurrency {
        return;
      }
      var diff := clamped - currentConcurrency;
      currentConcurrency := clamped;
      if diff > 0 {
        receiving := diff;
        return;
      }
      depositors := depositors + [-diff];
    }

    /** Takes the scale-up's tokens out of the channel, until it is done or would have to wait for a token. */
    method ScaleUp()
      requires tokens >= 0
      modifies this
      ensures var n := Min(old(receiving), old(tokens));
              Snapshot() == old(Snapshot()).(tokens := old(tokens) - n, receiving := old(receiving) - n)
    {
      while receiving > 0 && tokens > 0
        invariant tokens >= 0 && tokens - receiving == old(tokens) - old(receiving) && receiving <= old(receiving)
        invariant currentConcurrency == old(currentConcurrency) && held == old(held) && depositors == old(depositors)
        decreases receiving
      {
        tokens, receiving := tokens - 1, receiving - 1;
      }
    }

    /**
     * Puts the tokens of one scale-down goroutine into the channel, until it is done or would have to wait for room.
     */
    method ScaleDown(i: nat)
      requires i < |depositors| && tokens <= Limits().max
      modifies this
      ensures var n := Min(old(depositors)[i], Limits().max - old(tokens));
              Snapshot() == old(Snapshot()).(
                tokens := old(tokens) + n, depositors := old(depositors)[i := old(depositors)[i] - n])
    {
      while depositors[i] > 0 && tokens < Limits().max
        invariant i < |depositors| && depositors == old(depositors)[i := depositors[i]]
        invariant old(tokens) <= tokens <= Limits().max && tokens + depositors[i] == old(tokens + depositors[i])
        invariant currentConcurrency == old(currentConcurrency) && held == old(held) && receiving == old(receiving)
        decreases depositors[i]
      {
        tokens, depositors := tokens + 1, depositors[i := depositors[i] - 1];
      }
    }

    /** One tick of the autoscaler, given the number of pending jobs in the monitored queues. */
    method RunAutoscaleIteration(pending: int)
      requires autoscale.Some? && Limits().Valid() && receiving == 0 && Inv(Limits(), Snapshot())
      modifies this
      ensures Inv(Limits(), Snapshot())
      ensures var cfg, level := autoscale.value, old(currentConcurrency);
              currentConcurrency ==
                if pending > cfg.depthLimit then Min(cfg.max, level + if cfg.upStep > 0 then cfg.upStep else 1)
                else if pending == 0 then Max(cfg.min, level - if cfg.downStep > 0 then cfg.downStep else 1)
                else level
      ensures tokens == old(tokens) && held == old(held)
      ensures receiving == Rise(old(currentConcurrency), currentConcurrency)
      ensures Total(depositors) == old(Total(depositors)) + Rise(currentConcurrency, old(currentConcurrency))
    {
      var curr := currentConcurrency;
      var up, down := StepOf(Limits().upStep), StepOf(Limits().downStep);
      ghost var before := Snapshot();
      if pending > Limits().depthLimit {
        AdjustConcurrency(curr + up);
        Step(Limits(), before, Adjust(curr + up));
        return;
      }
      if pending == 0 {
        AdjustConcurrency(curr - down);
        Step(Limits(), before, Adjust(curr - down));
      }
    }
  }

  function Max(a: int, b: int): int {
    if a < b then b else a
  }

  function Min(a: int, b: int): int {
    if a < b then a else b
  }

  function StepOf(step: int): (r: int)
    ensures r >= 1
  {
    if step <= 0 then 1 else step
  }

  /** An uninterrupted scale-up or scale-down is a sequence of the single channel operations. */
  ghost function Repeat(cfg: Config, p: Pool, a: Action, n: nat): Pool
    requires a.Receive? ==> n <= p.receiving && n <= p.tokens
    requires a.Deposit? ==> a.i < |p.depositors| && n <= p.depositors[a.i] && p.tokens + n <= cfg.max
    requires a.Receive? || a.Deposit?
    decreases n
  {
    if n == 0 then p else Repeat(cfg, After(cfg, p, a), a, n - 1)
  }

  lemma {:induction false} ScaleUpRepeats(cfg: Config, p: Pool, n: nat)
    requires n <= p.receiving && n <= p.tokens
    ensures Repeat(cfg, p, Receive, n) == p.(tokens := p.tokens - n, receiving := p.receiving - n)
    decreases n
  {
    if n > 0 {
      ScaleUpRepeats(cfg, After(cfg, p, Receive), n - 1);
    }
  }

  lemma {:induction false} ScaleDownRepeats(cfg: Config, p: Pool, i: nat, n: nat)
    requires i < |p.depositors| && n <= p.depositors[i] && p.tokens + n <= cfg.max
    ensures Repeat(cfg, p, Deposit(i), n)
         == p.(tokens := p.tokens + n, depositors := p.depositors[i := p.depositors[i] - n])
    decreases n
  {
    if n > 0 {
      ScaleDownRepeats(cfg, After(cfg, p, Deposit(i)), i, n - 1);
    } else {
      assert p.depositors[i := p.depositors[i]] == p.depositors;
    }
  }
}
