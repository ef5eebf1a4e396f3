/** The auto-retry policy of a service and its capped exponential backoff. */
module RetryPolicies {
  import opened Prelude
  import opened ResourceRows

  const TWO_32: nat := 0x1_0000_0000
  const U64_MAX: nat := 0xFFFF_FFFF_FFFF_FFFF
  const I64_MAX: nat := 0x7FFF_FFFF_FFFF_FFFF

  const RETRY_BASE_SECS: nat := 60
  const RETRY_CAP_SECS: nat := 3600

  type U32 = x: nat | x < 0x1_0000_0000
  type U64 = x: nat | x <= 0xFFFF_FFFF_FFFF_FFFF

  /** The optional per-service override in a manifest. */
  datatype RetryConfig = RetryConfig(maxAttempts: Option<U32>, baseSecs: Option<U64>, capSecs: Option<U64>)

  datatype RetryPolicy = RetryPolicy(maxAttempts: U32, baseSecs: U64, capSecs: U64)

  /** Manifest overrides by service, and the deployment-wide retry cap. */
  datatype Settings = Settings(manifests: map<string, RetryConfig>, maxRetries: U32)

  function RetryPolicyFor(settings: Settings, rtype: string): RetryPolicy {
    if rtype in settings.manifests then
      var c := settings.manifests[rtype];
      RetryPolicy(if c.maxAttempts.Some? then c.maxAttempts.value else settings.maxRetries,
                  if c.baseSecs.Some? then c.baseSecs.value else RETRY_BASE_SECS,
                  if c.capSecs.Some? then c.capSecs.value else RETRY_CAP_SECS)
    else RetryPolicy(settings.maxRetries, RETRY_BASE_SECS, RETRY_CAP_SECS)
  }

  function Pow2(n: nat): nat { if n == 0 then 1 else 2 * Pow2(n - 1) }

  /** `as i64` on an unsigned 64-bit value wraps. */
  function WrapI64(x: U64): int { if x <= I64_MAX then x else x - (U64_MAX + 1) }

  /** `as u32` on the attempt count truncates. */
  function TruncU32(x: nat): U32 { x % TWO_32 }

  /** Multiplication of two unsigned 64-bit values saturates. */
  function SaturatingMul(a: U64, b: nat): U64 { if a * b <= U64_MAX then a * b else U64_MAX }

  function BackoffSecs(attempts: int, policy: RetryPolicy): int {
    var shift := Max(0, Min(16, attempts - 1));
    WrapI64(Min(SaturatingMul(policy.baseSecs, Pow2(shift)), policy.capSecs))
  }

  /** What a failed drive writes into the retry deadline. */
  function NextDeadline(attempts: nat, policy: RetryPolicy, now: int): Option<int> {
    if TruncU32(attempts) < policy.maxAttempts then Some(now + BackoffSecs(attempts, policy)) else None
  }

  /** The delay the design asks for, in unbounded arithmetic. */
  function IdealDelay(attempts: int, policy: RetryPolicy): nat {
    Min(policy.capSecs, policy.baseSecs * Pow2(Max(0, Min(16, attempts - 1))))
  }

  /** The machine-width backoff is the ideal one exactly while the ideal one fits a signed 64-bit integer. */
  lemma BackoffIsIdeal(attempts: int, policy: RetryPolicy)
    ensures BackoffSecs(attempts, policy) == IdealDelay(attempts, policy) <==> IdealDelay(attempts, policy) <= I64_MAX
    ensures policy.capSecs <= I64_MAX ==> 0 <= BackoffSecs(attempts, policy) <= policy.capSecs
  {
  }

  lemma {:induction false} Pow2Monotone(m: nat, n: nat)
    requires m <= n
    ensures 1 <= Pow2(m) <= Pow2(n)
    decreases n
  {
    if m < n {
      Pow2Monotone(m, n - 1);
    } else if n > 0 {
      Pow2Monotone(n - 1, n - 1);
    }
  }

  lemma MulMonotone(k: nat, x: nat, y: nat)
    requires x <= y
    ensures k * x <= k * y
  {
  }

  lemma IdealMonotone(a: int, b: int, policy: RetryPolicy)
    requires a <= b
    ensures IdealDelay(a, policy) <= IdealDelay(b, policy)
  {
    var m, n := Max(0, Min(16, a - 1)), Max(0, Min(16, b - 1));
    Pow2Monotone(m, n);
    MulMonotone(policy.baseSecs, Pow2(m), Pow2(n));
  }

  /** Delays never shrink from one attempt to a later one, unless only the later one is too long for a signed 64-bit
      integer: that one is negative. A cap that fits such an integer rules that out. */
  lemma BackoffMonotone(a: int, b: int, policy: RetryPolicy)
    requires a <= b
    ensures BackoffSecs(a, policy) <= BackoffSecs(b, policy)
            <==> (IdealDelay(b, policy) <= I64_MAX || IdealDelay(a, policy) > I64_MAX)
    ensures BackoffSecs(b, policy) < 0 <==> IdealDelay(b, policy) > I64_MAX
    ensures policy.capSecs <= I64_MAX ==> 0 <= BackoffSecs(a, policy) <= BackoffSecs(b, policy)
  {
    BackoffIsIdeal(a, policy);
    BackoffIsIdeal(b, policy);
    IdealMonotone(a, b, policy);
    if IdealDelay(a, policy) > I64_MAX { Wrapped(a, policy); }
    if IdealDelay(b, policy) > I64_MAX { Wrapped(b, policy); }
  }

  /** A delay too long for a signed 64-bit integer wraps. */
  lemma Wrapped(attempts: int, policy: RetryPolicy)
    requires IdealDelay(attempts, policy) > I64_MAX
    ensures BackoffSecs(attempts, policy) == IdealDelay(attempts, policy) - (U64_MAX + 1) < 0
  {
    var product := policy.baseSecs * Pow2(Max(0, Min(16, attempts - 1)));
    assert Min(SaturatingMul(policy.baseSecs, Pow2(Max(0, Min(16, attempts - 1)))), policy.capSecs)
           == Min(product, policy.capSecs);
  }

  // ---- The deadline in the terms of the settings ----

  /** The delay after attempt `n`: it starts at the base, doubles with each of the next sixteen attempts, and never
      exceeds the longest. */
  function DoublingDelay(n: nat, base: nat, longest: nat): nat
    decreases if n > 17 then 18 else n
  {
    if n <= 1 then Min(base, longest)
    else if n > 17 then DoublingDelay(17, base, longest)
    else Min(2 * DoublingDelay(n - 1, base, longest), longest)
  }

  lemma {:induction false} DoublingIsIdeal(n: nat, policy: RetryPolicy)
    requires n <= 17
    ensures IdealDelay(n, policy) == DoublingDelay(n, policy.baseSecs, policy.capSecs)
  {
    if n > 1 {
      DoublingIsIdeal(n - 1, policy);
      assert Pow2(n - 1) == 2 * Pow2(n - 2);
      assert policy.baseSecs * Pow2(n - 1) == 2 * (policy.baseSecs * Pow2(n - 2));
    } else {
      assert Pow2(0) == 1;
    }
  }

  /** The deadline that `attempts` failures in a row leave at `now`: none once the count, in 32 bits, has reached the
      service's or else the deployment's cap; otherwise the doubling delay of the service's or else the default numbers,
      as a signed 64-bit number of seconds. */
  ghost predicate IsDeadline(settings: Settings, rtype: string, attempts: nat, now: int, next: Option<int>) {
    var own := if rtype in settings.manifests then settings.manifests[rtype] else RetryConfig(None, None, None);
    var most := if own.maxAttempts.Some? then own.maxAttempts.value else settings.maxRetries;
    var base := if own.baseSecs.Some? then own.baseSecs.value else 60;
    var longest := if own.capSecs.Some? then own.capSecs.value else 3600;
    var delay := DoublingDelay(attempts, base, longest);
    var signed := if delay < 0x8000_0000_0000_0000 then delay else delay - 0x1_0000_0000_0000_0000;
    next == if attempts % 0x1_0000_0000 < most then Some(now + signed) else None
  }

  /** The machine's computation of the deadline meets that description, on all inputs. */
  lemma DeadlineIs(settings: Settings, rtype: string, attempts: nat, now: int)
    ensures IsDeadline(settings, rtype, attempts, now, NextDeadline(attempts, RetryPolicyFor(settings, rtype), now))
  {
    var policy := RetryPolicyFor(settings, rtype);
    DoublingIsIdeal(Min(17, attempts), policy);
    BackoffIsIdeal(attempts, policy);
    if IdealDelay(attempts, policy) > I64_MAX { Wrapped(attempts, policy); }
  }
}
