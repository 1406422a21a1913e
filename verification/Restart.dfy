/**
  Durations, boot-relative deadlines and restart policies (crates/domain/src/time.rs and
  crates/domain/src/restart.rs), and the two other places that compute a retry delay
  (crates/supervisor/src/runner.rs and crates/controller/src/manager.rs).
*/
module Restart {
  import opened Base

  const NANOS_PER_SEC: nat := 1_000_000_000
  const NANOS_PER_MS: nat := 1_000_000
  const MAX_DURATION: nat := U64_MAX * NANOS_PER_SEC + 999_999_999

  /** A `std::time::Duration`, as its nanoseconds. */
  type Duration = d: nat | d <= MAX_DURATION
  type NonZeroDuration = d: nat | 1 <= d <= MAX_DURATION witness 1

  /** 100 ns ticks of interrupt time since boot. */
  type BootInstant = u64

  function Ceil100(nanos: nat): nat {
    (nanos + 99) / 100
  }

  /** `BootInstant::checked_add`: every partial sum is checked. */
  function CheckedAdd(at: BootInstant, d: Duration): Option<BootInstant> {
    var whole := d / NANOS_PER_SEC * 10_000_000;
    if whole > U64_MAX then None
    else
      var ticks := whole + Ceil100(d % NANOS_PER_SEC);
      if ticks > U64_MAX || at + ticks > U64_MAX then None else Some(at + ticks)
  }

  /** The deadline is the first tick at which at least `d` has passed, and overflow is the only failure. */
  lemma CheckedAddIsFirstTick(at: BootInstant, d: Duration)
    ensures CheckedAdd(at, d).None? <==> at + Ceil100(d) > U64_MAX
    ensures CheckedAdd(at, d).Some? ==>
              var ticks := CheckedAdd(at, d).value - at;
              ticks * 100 >= d && forall earlier :: 0 <= earlier < ticks ==> earlier * 100 < d
  {
    var secs, nanos := d / NANOS_PER_SEC, d % NANOS_PER_SEC;
    assert d == secs * NANOS_PER_SEC + nanos;
    assert d + 99 == secs * 10_000_000 * 100 + (nanos + 99);
    assert Ceil100(d) == secs * 10_000_000 + Ceil100(nanos);
  }

  function Pow(base: nat, exponent: nat): nat {
    if exponent == 0 then 1 else base * Pow(base, exponent - 1)
  }

  lemma MulAssociates(a: nat, b: nat, c: nat)
    ensures a * (b * c) == (a * b) * c
  {
  }

  lemma {:induction false} PowAdd(base: nat, a: nat, b: nat)
    ensures Pow(base, a + b) == Pow(base, a) * Pow(base, b)
  {
    if a > 0 {
      PowAdd(base, a - 1, b);
      MulAssociates(base, Pow(base, a - 1), Pow(base, b));
    }
  }

  lemma {:induction false} PowGrows(base: nat, a: nat, b: nat)
    requires base >= 1 && a <= b
    ensures 1 <= Pow(base, a) <= Pow(base, b)
    decreases b
  {
    if b > 0 {
      if a < b {
        PowGrows(base, a, b - 1);
        MulGrows(1, base, Pow(base, b - 1), Pow(base, b - 1));
      } else {
        PowGrows(base, a - 1, a - 1);
        MulGrows(1, base, 1, Pow(base, a - 1));
      }
    }
  }

  lemma MulGrows(a: nat, a': nat, b: nat, b': nat)
    requires a <= a' && b <= b'
    ensures a * b <= a' * b'
  {
    assert a * b <= a * b' <= a' * b';
  }

  lemma {:induction false} PowBaseGrows(a: nat, b: nat, exponent: nat)
    requires a <= b
    ensures Pow(a, exponent) <= Pow(b, exponent)
  {
    if exponent > 0 {
      PowBaseGrows(a, b, exponent - 1);
      MulGrows(a, b, Pow(a, exponent - 1), Pow(b, exponent - 1));
    }
  }

  /** The mathematical delay: initial * multiplier^k, capped. */
  function Capped(initial: nat, multiplier: nat, k: nat, maximum: nat): nat {
    Min(initial * Pow(multiplier, k), maximum)
  }

  /** One capped multiplication after another is the capped power. */
  lemma CappedStep(initial: nat, multiplier: nat, k: nat, maximum: nat)
    requires multiplier >= 1
    ensures Capped(initial, multiplier, k + 1, maximum) ==
            Min(Capped(initial, multiplier, k, maximum) * multiplier, maximum)
    ensures Capped(initial, multiplier, k, maximum) == maximum ==>
              Capped(initial, multiplier, k + 1, maximum) == maximum
  {
    var p := initial * Pow(multiplier, k);
    assert initial * Pow(multiplier, k + 1) == p * multiplier by {
      assert initial * (multiplier * Pow(multiplier, k)) == (initial * Pow(multiplier, k)) * multiplier;
    }
    MulGrows(p, p, 1, multiplier);
    MulGrows(maximum, maximum, 1, multiplier);
    if p > maximum {
      assert p * multiplier >= maximum * multiplier by { MulGrows(maximum, p, multiplier, multiplier); }
    }
  }

  lemma {:induction false} CappedGrows(initial: nat, multiplier: nat, a: nat, b: nat, maximum: nat)
    requires multiplier >= 1 && a <= b
    ensures Capped(initial, multiplier, a, maximum) <= Capped(initial, multiplier, b, maximum)
  {
    PowGrows(multiplier, a, b);
    MulGrows(initial, initial, Pow(multiplier, a), Pow(multiplier, b));
  }

  /** `BackoffPolicy`; `new` admits exactly the triples with initial <= maximum. */
  datatype BackoffTriple = BackoffTriple(initial: NonZeroDuration, multiplier: nonzero32, maximum: NonZeroDuration)
  type BackoffPolicy = p: BackoffTriple | p.initial <= p.maximum witness BackoffTriple(1, 1, 1)

  function NewBackoff(initial: NonZeroDuration, multiplier: nonzero32, maximum: NonZeroDuration)
    : (r: Result<BackoffPolicy, ()>)
    ensures r.Err? <==> maximum < initial
    ensures r.Ok? ==> r.value.initial == initial && r.value.multiplier == multiplier && r.value.maximum == maximum
  {
    if maximum < initial then Err(()) else Ok(BackoffTriple(initial, multiplier, maximum))
  }

  /** What `delay_for` promises; retries count from 1. */
  function Delay(policy: BackoffPolicy, retry: nonzero32): Duration {
    Capped(policy.initial, policy.multiplier, retry - 1, policy.maximum)
  }

  function CheckedMul(d: Duration, m: nonzero32): Option<Duration> {
    if d * m > MAX_DURATION then None else Some(d * m)
  }

  /** `BackoffPolicy::delay_for`, with its early exits on overflow and on reaching the maximum. */
  method DelayFor(policy: BackoffPolicy, retry: nonzero32) returns (delay: Duration)
    ensures delay == Delay(policy, retry)
  {
    delay := policy.initial;
    if policy.multiplier == 1 || delay == policy.maximum {
      FlatDelay(policy, retry);
      return;
    }
    for n := 1 to retry
      invariant delay == Capped(policy.initial, policy.multiplier, n - 1, policy.maximum)
    {
      CappedStep(policy.initial, policy.multiplier, n - 1, policy.maximum);
      var product := CheckedMul(delay, policy.multiplier);
      if product.Some? && product.value < policy.maximum {
        delay := product.value;
      } else {
        CappedStays(policy.initial, policy.multiplier, n, retry - 1, policy.maximum);
        return policy.maximum;
      }
    }
  }

  lemma CappedStays(initial: nat, multiplier: nat, a: nat, b: nat, maximum: nat)
    requires multiplier >= 1 && a <= b && Capped(initial, multiplier, a, maximum) == maximum
    ensures Capped(initial, multiplier, b, maximum) == maximum
  {
    CappedGrows(initial, multiplier, a, b, maximum);
  }

  lemma {:induction false} PowOfOne(exponent: nat)
    ensures Pow(1, exponent) == 1
  {
    if exponent > 0 {
      PowOfOne(exponent - 1);
    }
  }

  /** With multiplier 1, or when the first delay is already the maximum, the delay never changes. */
  lemma FlatDelay(policy: BackoffPolicy, retry: nonzero32)
    requires policy.multiplier == 1 || policy.initial == policy.maximum
    ensures Delay(policy, retry) == policy.initial
  {
    if policy.multiplier == 1 {
      PowOfOne(retry - 1);
    } else {
      CappedStays(policy.initial, policy.multiplier, 0, retry - 1, policy.maximum);
    }
  }

  /** Delays never shrink and stay between the configured bounds. */
  lemma DelayMonotone(policy: BackoffPolicy, r: nonzero32, s: nonzero32)
    requires r <= s
    ensures policy.initial <= Delay(policy, r) <= Delay(policy, s) <= policy.maximum
    ensures Delay(policy, 1) == policy.initial
  {
    CappedGrows(policy.initial, policy.multiplier, 0, r - 1, policy.maximum);
    CappedGrows(policy.initial, policy.multiplier, r - 1, s - 1, policy.maximum);
  }

  // ---- The supervisor's millisecond version ----

  /** `duration_ms`: whole milliseconds, saturating. */
  function DurationMs(d: Duration): u64 {
    Min(d / NANOS_PER_MS, U64_MAX)
  }

  /** Capping before a multiplication does not change the capped product. */
  lemma CapBeforeMul(d: nat, factor: nat, limit: nat)
    requires factor >= 1
    ensures Min(d * factor, limit) == Min(Min(d, limit) * factor, limit)
  {
    if d > limit {
      MulGrows(limit, d, 1, factor);
      MulGrows(limit, limit, 1, factor);
    }
  }

  function SaturatingMul(a: u64, b: u64): u64 {
    Min(a * b, U64_MAX)
  }

  function RetryDelayMs(initial: u64, multiplier: u32, maximum: u64, retry: u32): u64 {
    Capped(Max(initial, 1), Max(multiplier, 1), if retry == 0 then 0 else retry - 1, Max(maximum, 1))
  }

  /** `retry_delay` of the attempt loop, in milliseconds. */
  method RetryDelay(initial: u64, multiplier: u32, maximum: u64, retry: u32) returns (delay: u64)
    ensures delay == RetryDelayMs(initial, multiplier, maximum, retry)
  {
    var factor: u64 := Max(multiplier, 1);
    var limit: u64 := Max(maximum, 1);
    var first: u64 := Max(initial, 1);
    delay := first;
    var n := 1;
    while n < retry
      invariant 1 <= n && (n <= retry || n == 1)
      invariant Min(delay, limit) == Capped(first, factor, n - 1, limit)
    {
      CappedStep(first, factor, n - 1, limit);
      CapBeforeMul(delay, factor, limit);
      delay := Min(SaturatingMul(delay, factor), limit);
      n := n + 1;
    }
    delay := Min(delay, limit);
  }

  /** A duration the millisecond fields carry exactly. */
  predicate WholeMs(d: Duration) {
    d % NANOS_PER_MS == 0 && d / NANOS_PER_MS <= U64_MAX
  }

  /** The delay the attempt loop uses for a policy that went through `apply_backoff`. */
  function LoopDelay(policy: BackoffPolicy, retry: u32): nat {
    RetryDelayMs(DurationMs(policy.initial), policy.multiplier, DurationMs(policy.maximum), retry) * NANOS_PER_MS
  }

  /** Scaling the initial delay and the maximum scales the capped power. */
  lemma CappedScale(initial: nat, multiplier: nat, k: nat, maximum: nat, scale: nat)
    requires scale >= 1
    ensures Capped(initial * scale, multiplier, k, maximum * scale) == Capped(initial, multiplier, k, maximum) * scale
  {
    var p := Pow(multiplier, k);
    assert (initial * scale) * p == (initial * p) * scale;
    if initial * p < maximum {
      MulGrows(initial * p, maximum, scale, scale);
    } else {
      MulGrows(maximum, initial * p, scale, scale);
    }
  }

  lemma WholeMsValue(d: NonZeroDuration)
    requires WholeMs(d)
    ensures DurationMs(d) * NANOS_PER_MS == d && DurationMs(d) >= 1
  {
  }

  /** The two implementations agree for this policy on every retry count. */
  ghost predicate DelaysAgree(policy: BackoffPolicy) {
    forall retry: nonzero32 :: LoopDelay(policy, retry) == Delay(policy, retry)
  }

  lemma AgreeWhole(policy: BackoffPolicy, retry: nonzero32)
    requires WholeMs(policy.initial) && WholeMs(policy.maximum)
    ensures LoopDelay(policy, retry) == Delay(policy, retry)
  {
    WholeMsValue(policy.initial);
    WholeMsValue(policy.maximum);
    CappedScale(DurationMs(policy.initial), policy.multiplier, retry - 1, DurationMs(policy.maximum), NANOS_PER_MS);
  }

  lemma AgreeFlat(policy: BackoffPolicy, retry: nonzero32)
    requires WholeMs(policy.initial) && policy.multiplier == 1
    ensures LoopDelay(policy, retry) == Delay(policy, retry)
  {
    WholeMsValue(policy.initial);
    PowOfOne(retry - 1);
  }

  lemma PowTwoToTwentyFive()
    ensures Pow(2, 25) == 33554432
  {
    PowAdd(2, 12, 13);
    assert Pow(2, 12) == 4096 && Pow(2, 13) == 8192;
  }

  lemma PowTwoToHundred()
    ensures Pow(2, 100) > MAX_DURATION
  {
    PowTwoToTwentyFive();
    PowAdd(2, 50, 50);
    PowAdd(2, 25, 25);
  }

  /** A growing delay reaches its maximum by the 101st retry. */
  lemma ReachesMaximum(policy: BackoffPolicy)
    requires policy.multiplier >= 2
    ensures Delay(policy, 101) == policy.maximum
  {
    PowTwoToHundred();
    PowBaseGrows(2, policy.multiplier, 100);
    MulGrows(1, policy.initial, Pow(2, 100), Pow(policy.multiplier, 100));
  }

  /**
    The attempt loop's delay is `delay_for` on every retry if and only if the initial delay is
    a whole number of milliseconds that fits, and so is the maximum unless the delay never grows.
  */
  lemma DelaysAgreeExactly(policy: BackoffPolicy)
    ensures DelaysAgree(policy) <==>
            WholeMs(policy.initial) && (policy.multiplier == 1 || WholeMs(policy.maximum))
  {
    if WholeMs(policy.initial) && (policy.multiplier == 1 || WholeMs(policy.maximum)) {
      forall retry: nonzero32
        ensures LoopDelay(policy, retry) == Delay(policy, retry)
      {
        if policy.multiplier == 1 {
          AgreeFlat(policy, retry);
        } else {
          AgreeWhole(policy, retry);
        }
      }
    }
    if DelaysAgree(policy) {
      DelayMonotone(policy, 1, 1);
      MillisecondMultiple(LoopDelay(policy, 1) / NANOS_PER_MS, policy.initial);
      assert LoopDelay(policy, 1) == Delay(policy, 1);
      if policy.multiplier != 1 {
        ReachesMaximum(policy);
        assert LoopDelay(policy, 101) == Delay(policy, 101);
      }
    }
  }

  lemma MillisecondMultiple(ms: nat, d: Duration)
    requires ms <= U64_MAX && ms * NANOS_PER_MS == d
    ensures WholeMs(d)
  {
  }

  // ---- The supervisor launch budget's delays ----

  const DEFAULT_SUPERVISOR_MAX_FAILURES: nonzero32 := 8
  const DEFAULT_SUPERVISOR_BACKOFF: BackoffPolicy :=
    BackoffTriple(100 * NANOS_PER_MS, 2, 5 * NANOS_PER_SEC)

  /** `supervisor_retry_delay`: a shift, capped at 5 s. */
  function SupervisorRetryDelay(failures: u32): Duration {
    var exponent := Min(if failures == 0 then 0 else failures - 1, 31);
    Min(Min(100 * Pow(2, exponent), U64_MAX), 5_000) * NANOS_PER_MS
  }

  /** The controller's shift is `delay_for` of the default supervisor policy at every failure count. */
  lemma SupervisorDelayIsDefaultPolicy(failures: nonzero32)
    ensures SupervisorRetryDelay(failures) == Delay(DEFAULT_SUPERVISOR_BACKOFF, failures)
  {
    CappedScale(100, 2, failures - 1, 5_000, NANOS_PER_MS);
    assert Pow(2, 6) == 64;
    if failures >= 7 {
      PowGrows(2, 6, failures - 1);
      PowGrows(2, 6, Min(failures - 1, 31));
    }
  }

  // ---- Policies ----

  datatype ServiceRetryLimit = Finite(maximum: nonzero32) | Unlimited

  datatype ServiceRetryPolicy = ServiceRetryPolicy(limit: ServiceRetryLimit, resetAfter: NonZeroDuration,
                                                   backoff: BackoffPolicy)

  datatype ServiceRestartPolicy = Never | OnFailure(policy: ServiceRetryPolicy) | Always(policy: ServiceRetryPolicy)

  datatype JobRestartPolicy = JobNever | JobOnFailure(maxRestarts: nonzero32, backoff: BackoffPolicy)

  datatype ExecutionRestartPolicy = Service(service: ServiceRestartPolicy) | Job(job: JobRestartPolicy)

  /** Attempt numbers, retry ordinals and incarnations all step with a checked addition. */
  function NextOrdinal(n: nonzero32): Option<nonzero32> {
    if n == U32_MAX then None else Some(n + 1)
  }
}
