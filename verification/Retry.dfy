/** common/src/retry: the retry loop, the doubling backoff and its jitter. */
module Retry {
  import opened Counts

  // std::time::Duration in nanoseconds; Duration::MAX is where doubling saturates.
  type Duration = d: real | 0.0 <= d

  const LONGEST: Duration := 18446744073709551615999999999.0

  datatype Result<T, E> = Ok(value: T) | Err(error: E)

  datatype JitterTy = Full | Equal

  function Min(a: Duration, b: Duration): Duration {
    if a < b then a else b
  }

  predicate Random(x: real) {
    0.0 <= x < 1.0
  }

  function Power(n: nat): real {
    if n == 0 then 1.0 else 2.0 * Power(n - 1)
  }

  // `initial` doubled n times, without saturation.
  function Exact(initial: Duration, n: nat): Duration {
    if n == 0 then initial else 2.0 * Exact(initial, n - 1)
  }

  lemma TwiceTimes(x: real, p: real)
    ensures x * (2.0 * p) == 2.0 * (x * p)
  {
  }

  /** That is initial * 2^n. */
  lemma {:induction false} ExactIsPower(initial: Duration, n: nat)
    ensures Exact(initial, n) == initial * Power(n)
  {
    if n > 0 {
      ExactIsPower(initial, n - 1);
      TwiceTimes(initial, Power(n - 1));
    }
  }

  /** What the strategy holds after n doublings, each saturating. */
  function Doubled(initial: Duration, n: nat): Duration {
    if Exact(initial, n) <= LONGEST then Exact(initial, n) else LONGEST
  }

  lemma Shrinks(delay: real, factor: real)
    requires delay >= 0.0 && 0.0 <= factor <= 1.0
    ensures 0.0 <= delay * factor <= delay
  {
    assert delay * (1.0 - factor) >= 0.0;
    assert delay * factor == delay - delay * (1.0 - factor);
  }

  lemma HalfKept(delay: real, factor: real)
    requires delay >= 0.0 && 0.5 <= factor <= 1.0
    ensures 2.0 * (delay * factor) >= delay
  {
    assert delay * (factor - 0.5) >= 0.0;
    assert delay * factor == delay * (factor - 0.5) + delay * 0.5;
  }

  // The share of a delay that is slept, from zero or from a half.
  function Factor(ty: JitterTy, random: real): (f: real)
    requires Random(random)
    ensures 0.0 <= f < 1.0 && (ty.Equal? ==> f >= 0.5)
  {
    if ty.Full? then random else 0.5 + random / 2.0
  }

  function Jitter(ty: Option<JitterTy>, delay: Duration, random: real): Duration
    requires Random(random)
  {
    if ty.None? then delay
    else
      var factor := Factor(ty.value, random);
      Shrinks(delay, factor);
      delay * factor
  }

  lemma JitterBounds(ty: Option<JitterTy>, delay: Duration, random: real)
    requires Random(random)
    ensures Jitter(ty, delay, random) <= delay
    ensures ty == Some(Equal) ==> 2.0 * Jitter(ty, delay, random) >= delay
  {
    if ty.Some? {
      var factor := Factor(ty.value, random);
      assert Jitter(ty, delay, random) == delay * factor;
      Shrinks(delay, factor);
      if ty.value.Equal? { HalfKept(delay, factor); }
    }
  }

  function Capped(maxDelay: Option<Duration>, delay: Duration): Duration {
    if maxDelay.None? then delay else Min(maxDelay.value, delay)
  }

  datatype Kind = NoDelay | Fixed | Growing | Doubling

  const U32 := 0x1_0000_0000

  lemma NotNegative(x: real, y: real)
    requires x >= 0.0 && y >= 0.0
    ensures x * y >= 0.0
  {
  }

  // Saturating multiplication by the attempt, cut to 32 bits.
  function Linear(initial: Duration, attempt: nat): Duration {
    var exact := initial * (attempt % U32) as real;
    NotNegative(initial, (attempt % U32) as real);
    if exact <= LONGEST then exact else LONGEST
  }

  /** What the strategy answers the n-th time it is asked, from 0. */
  function Delay(kind: Kind, initial: Duration, n: nat): Duration {
    match kind
    case NoDelay => 0.0
    case Fixed => initial
    case Growing => Linear(initial, n + 1)
    case Doubling => Doubled(initial, n)
  }

  /** Exponential backoff starts with the initial delay and doubles it each time, up to the greatest duration. */
  lemma DelayDoubles(initial: Duration, n: nat)
    requires initial <= LONGEST
    ensures Delay(Doubling, initial, 0) == initial
    ensures var d := Delay(Doubling, initial, n);
      Delay(Doubling, initial, n + 1)
      == if d + d <= 18446744073709551615999999999.0 then d + d else 18446744073709551615999999999.0
  {
  }

  datatype Config = Config(kind: Kind, initial: Duration, jitter: Option<JitterTy>, maxDelay: Option<Duration>,
                           maxRetries: nat)

  /** The sleep before retry `n + 1`. */
  function Sleep(config: Config, n: nat, random: real): Duration
    requires Random(random)
  {
    Capped(config.maxDelay, Jitter(config.jitter, Delay(config.kind, config.initial, n), random))
  }

  /** The cap is slept in place of a longer delay, and nothing else is capped. */
  lemma CapIsExact(config: Config, n: nat, random: real)
    requires Random(random)
    ensures var delay := Jitter(config.jitter, Delay(config.kind, config.initial, n), random);
      && (config.maxDelay.None? ==> Sleep(config, n, random) == delay)
      && (config.maxDelay.Some? && delay <= config.maxDelay.value ==> Sleep(config, n, random) == delay)
      && (config.maxDelay.Some? && delay >= config.maxDelay.value ==> Sleep(config, n, random) == config.maxDelay.value)
  {
  }

  /** Full jitter scales the delay by the random number; equal jitter is half the delay and half of that; without
      jitter the delay stays. */
  lemma JitterIs(delay: Duration, random: real)
    requires Random(random)
    ensures Jitter(Some(Full), delay, random) == delay * random
    ensures 2.0 * Jitter(Some(Equal), delay, random) == delay + Jitter(Some(Full), delay, random)
    ensures Jitter(None, delay, random) == delay
  {
    assert delay * (0.5 + random / 2.0) == delay * 0.5 + delay * (random / 2.0);
    assert 2.0 * (delay * (random / 2.0)) == delay * random;
  }

  /** The delays of the four strategies, below saturation and for attempts of 32 bits. */
  lemma DelaysAre(initial: Duration, n: nat)
    ensures Delay(NoDelay, initial, n) == 0.0 && Delay(Fixed, initial, n) == initial
    ensures n + 1 < 0x1_0000_0000 && initial * (n + 1) as real <= 18446744073709551615999999999.0 ==>
      Delay(Growing, initial, n) == initial * (n + 1) as real
    ensures initial * Power(n) <= 18446744073709551615999999999.0 ==> Delay(Doubling, initial, n) == initial * Power(n)
    ensures initial * Power(n) >= 18446744073709551615999999999.0 ==>
      Delay(Doubling, initial, n) == 18446744073709551615999999999.0
  {
    ExactIsPower(initial, n);
  }

  function Total(sleeps: seq<Duration>): Duration {
    if sleeps == [] then 0.0 else Total(sleeps[..|sleeps| - 1]) + sleeps[|sleeps| - 1]
  }

  /** The schedule of `n` sleeps. */
  ghost predicate Schedule(config: Config, randoms: seq<real>, sleeps: seq<Duration>) {
    && |sleeps| <= |randoms| && (forall i :: 0 <= i < |randoms| ==> Random(randoms[i]))
    && forall i :: 0 <= i < |sleeps| ==> sleeps[i] == Sleep(config, i, randoms[i])
  }

  class ExponentialBackoff {
    var backoff: Duration

    constructor (initial: Duration)
      ensures backoff == initial
    {
      backoff := initial;
    }

    method NextBackoff() returns (prev: Duration)
      modifies this
      ensures prev == old(backoff)
      ensures backoff == if old(backoff) * 2.0 <= LONGEST then old(backoff) * 2.0 else LONGEST
    {
      prev := backoff;
      backoff := if backoff * 2.0 <= LONGEST then backoff * 2.0 else LONGEST;
    }
  }

  datatype Strategy =
    | NoBackoff
    | ConstantBackoff(backoff: Duration)
    | LinearBackoff(backoff: Duration)
    | Exponential(inner: ExponentialBackoff)

  function Owned(strategy: Strategy): set<object> {
    if strategy.Exponential? then {strategy.inner} else {}
  }

  /** The strategy stands where it was asked n times. */
  ghost predicate Asked(strategy: Strategy, config: Config, n: nat)
    reads Owned(strategy)
  {
    match strategy
    case NoBackoff => config.kind.NoDelay?
    case ConstantBackoff(backoff) => config.kind.Fixed? && backoff == config.initial
    case LinearBackoff(backoff) => config.kind.Growing? && backoff == config.initial
    case Exponential(inner) => config.kind.Doubling? && inner.backoff == Doubled(config.initial, n)
  }

  /** next_backoff of whichever strategy is configured. */
  method NextDelay(strategy: Strategy, ghost config: Config, attempt: nat) returns (delay: Duration)
    requires attempt > 0 && Asked(strategy, config, attempt - 1)
    modifies Owned(strategy)
    ensures delay == Delay(config.kind, config.initial, attempt - 1) && Asked(strategy, config, attempt)
  {
    match strategy
    case NoBackoff => delay := 0.0;
    case ConstantBackoff(backoff) => delay := backoff;
    case LinearBackoff(backoff) => delay := Linear(backoff, attempt);
    case Exponential(inner) => delay := inner.NextBackoff();
  }

  /** `results[i]` is what call `i` of the operation would return, `randoms[i]` the random number drawn for sleep `i`.
      The loop returns the first success, or the last error after all retries, and sleeps between calls. */
  method Run<T, E>(config: Config, strategy: Strategy, results: seq<Result<T, E>>, randoms: seq<real>)
    returns (result: Result<T, E>, calls: nat, sleeps: seq<Duration>, notified: seq<(nat, Duration, E)>)
    requires |results| == config.maxRetries + 1 && config.initial <= LONGEST && Asked(strategy, config, 0)
    requires |randoms| == config.maxRetries && forall i :: 0 <= i < |randoms| ==> Random(randoms[i])
    modifies Owned(strategy)
    ensures 1 <= calls <= config.maxRetries + 1 && |sleeps| == calls - 1
    ensures result == results[calls - 1] && (result.Ok? || calls == config.maxRetries + 1)
    ensures forall i :: 0 <= i < calls - 1 ==> results[i].Err?
    ensures (forall i :: 0 <= i <= config.maxRetries ==> results[i].Err?) ==> |sleeps| == config.maxRetries
    ensures Schedule(config, randoms, sleeps)
    ensures |notified| == |sleeps|
    ensures forall i :: 0 <= i < |notified| ==> results[i].Err? && notified[i] == (i, sleeps[i], results[i].error)
    ensures Asked(strategy, config, |sleeps|)
  {
    calls, sleeps, notified := 0, [], [];
    for attempt := 0 to config.maxRetries + 1
      invariant calls == attempt == |sleeps| == |notified|
      invariant forall i :: 0 <= i < attempt ==> results[i].Err?
      invariant attempt <= config.maxRetries ==> Schedule(config, randoms, sleeps)
      invariant attempt <= config.maxRetries
      invariant forall i :: 0 <= i < attempt ==> results[i].Err? && notified[i] == (i, sleeps[i], results[i].error)
      invariant Asked(strategy, config, attempt)
    {
      calls := calls + 1;
      if results[attempt].Ok? || attempt == config.maxRetries {
        return results[attempt], calls, sleeps, notified;
      }
      var strategyBackoff := NextDelay(strategy, config, attempt + 1);
      var backoff := Capped(config.maxDelay, Jitter(config.jitter, strategyBackoff, randoms[attempt]));
      notified := notified + [(attempt, backoff, results[attempt].error)];
      sleeps := sleeps + [backoff];
    }
    assert false;
  }

  /** Without jitter or cap the sleeps of exponential backoff add up to initial * 2^n - initial exactly if the last did
      not saturate, and to less otherwise. */
  lemma {:induction false} TotalDoublesIff(config: Config, randoms: seq<real>, sleeps: seq<Duration>)
    requires Schedule(config, randoms, sleeps) && config.kind.Doubling? && config.jitter.None? && config.maxDelay.None?
    ensures Total(sleeps) <= Exact(config.initial, |sleeps|) - config.initial
    ensures Total(sleeps) == Exact(config.initial, |sleeps|) - config.initial <==>
      sleeps == [] || Exact(config.initial, |sleeps| - 1) <= LONGEST
    decreases |sleeps|
  {
    if sleeps != [] {
      var n := |sleeps| - 1;
      TotalDoublesIff(config, randoms, sleeps[..n]);
      assert sleeps[n] == Doubled(config.initial, n);
    }
  }

  function Times(n: nat, x: Duration): Duration {
    if n == 0 then 0.0 else Times(n - 1, x) + x
  }

  /** With a cap no schedule of n sleeps is longer than n times the cap. */
  lemma {:induction false} TotalUnderCap(config: Config, randoms: seq<real>, sleeps: seq<Duration>)
    requires Schedule(config, randoms, sleeps) && config.maxDelay.Some?
    ensures Total(sleeps) <= Times(|sleeps|, config.maxDelay.value)
    decreases |sleeps|
  {
    if sleeps != [] {
      var n := |sleeps| - 1;
      TotalUnderCap(config, randoms, sleeps[..n]);
      assert sleeps[n] == Sleep(config, n, randoms[n]);
    }
  }

  /** Jitter never lengthens the schedule, capped or not, and equal jitter keeps at least half of it. */
  lemma {:induction false} JitterKeepsHalf(config: Config, randoms: seq<real>, sleeps: seq<Duration>,
                                           plain: seq<Duration>)
    requires Schedule(config, randoms, sleeps) && |plain| == |sleeps|
    requires Schedule(config.(jitter := None), randoms, plain)
    ensures Total(sleeps) <= Total(plain)
    ensures config.jitter == Some(Equal) ==> 2.0 * Total(sleeps) >= Total(plain)
    decreases |sleeps|
  {
    if sleeps != [] {
      var n := |sleeps| - 1;
      JitterKeepsHalf(config, randoms, sleeps[..n], plain[..n]);
      assert sleeps[n] == Sleep(config, n, randoms[n]);
      assert plain[n] == Sleep(config.(jitter := None), n, randoms[n]);
      JitterBounds(config.jitter, Delay(config.kind, config.initial, n), randoms[n]);
    }
  }
}
