/** The retry delays, in Go's 64-bit integers. */
module Backoff {
  import opened Types

  const MAX64: int := 0x7FFF_FFFF_FFFF_FFFF
  const TWO64: int := 0x1_0000_0000_0000_0000

  predicate IsInt64(x: int) {
    -MAX64 - 1 <= x <= MAX64
  }

  /** The value an int64 holds after an operation whose exact result is x. */
  function Wrap64(x: int): (r: int)
    ensures IsInt64(r) && (IsInt64(x) ==> r == x) && (r - x) % TWO64 == 0
  {
    (x + MAX64 + 1) % TWO64 - MAX64 - 1
  }

  datatype RetryPolicy =
    | FixedBackoff(delaySeconds: int)
    | LinearBackoff(baseSeconds: int)
    | ExponentialBackoff(baseSeconds: int, maxSeconds: int)

  datatype RetryConfig = RetryConfig(maxRetries: int, policy: RetryPolicy)

  /** base doubled n times, exactly. */
  function Scaled(base: int, n: nat): int {
    if n == 0 then base else 2 * Scaled(base, n - 1)
  }

  function Pow2(n: nat): nat {
    if n == 0 then 1 else 2 * Pow2(n - 1)
  }

  /** Some doubling that the loop reaches shows a value above the cap. */
  ghost predicate OverCap(base: int, max: int, n: int) {
    max > 0 && exists i: nat :: 1 <= i <= n && Wrap64(Scaled(base, i)) > max
  }

  /** What the loop returns: the cap as soon as a doubling exceeds it, else the
      n-fold doubling, wrapped. A negative count doubles nothing. */
  ghost function ExponentialDelay(base: int, max: int, n: int): int {
    if OverCap(base, max, n) then max
    else if n <= 0 then base
    else Wrap64(Scaled(base, n))
  }

  ghost function Delay(policy: RetryPolicy, retryCount: int): int {
    match policy
    case FixedBackoff(delay) => delay
    case LinearBackoff(base) => Wrap64(base * Wrap64(retryCount + 1))
    case ExponentialBackoff(base, max) => ExponentialDelay(base, max, retryCount)
  }

  lemma WrapTwice(x: int)
    ensures Wrap64(2 * Wrap64(x)) == Wrap64(2 * x)
  {
    var q := (x + MAX64 + 1) / TWO64;
    assert Wrap64(x) == x - q * TWO64;
    ShiftWraps(2 * x, 2 * q);
  }

  lemma ShiftWraps(y: int, q: int)
    ensures Wrap64(y - q * TWO64) == Wrap64(y)
  {
    var z := y + MAX64 + 1;
    var d := z / TWO64;
    assert z - q * TWO64 == (d - q) * TWO64 + z % TWO64;
  }

  lemma WrapAdds(x: int, y: int)
    ensures Wrap64(Wrap64(x) + y) == Wrap64(x + y)
  {
    var q := (x + MAX64 + 1) / TWO64;
    assert Wrap64(x) == x - q * TWO64;
    ShiftWraps(x + y, q);
  }

  /** What each policy promises its caller, as a law from one retry to the next: a
      fixed delay never changes; a linear one starts at Base and grows by Base; an
      exponential one is Base up to count 0 and then doubles, unless the cap has been
      passed already or is passed by this doubling. All in 64 bits. */
  lemma DelayLaws(policy: RetryPolicy, n: int)
    requires IsInt64(n) && n < MAX64 - 1
    requires !policy.FixedBackoff? ==> IsInt64(policy.baseSeconds)
    ensures
      match policy
      case FixedBackoff(delay) => Delay(policy, n) == delay
      case LinearBackoff(base) => Delay(policy, 0) == base && Delay(policy, n + 1) == Wrap64(Delay(policy, n) + base)
      case ExponentialBackoff(base, max) =>
        && (n <= 0 ==> Delay(policy, n) == base)
        && (n >= 0 ==>
              Delay(policy, n + 1) ==
              if max > 0 && (OverCap(base, max, n) || Wrap64(2 * Delay(policy, n)) > max) then max
              else Wrap64(2 * Delay(policy, n)))
  {
    match policy
    case FixedBackoff(delay) =>
    case LinearBackoff(base) =>
      WrapAdds(base * (n + 1), base);
      assert base * (n + 1) + base == base * (n + 2);
    case ExponentialBackoff(base, max) =>
      if n >= 0 {
        WrapTwice(Scaled(base, n));
      }
  }

  method NextDelay(policy: RetryPolicy, retryCount: int) returns (delay: int)
    requires policy.ExponentialBackoff? ==> IsInt64(policy.baseSeconds)
    ensures delay == Delay(policy, retryCount)
  {
    match policy {
      case FixedBackoff(fixed) => delay := fixed;
      case LinearBackoff(base) => delay := Wrap64(base * Wrap64(retryCount + 1));
      case ExponentialBackoff(base, max) =>
        delay := base;
        var i := 0;
        while i < retryCount
          invariant 0 <= i && (i <= retryCount || i == 0)
          invariant delay == Wrap64(Scaled(base, i))
          invariant !OverCap(base, max, i)
        {
          WrapTwice(Scaled(base, i));
          delay := Wrap64(delay * 2);
          i := i + 1;
          if max > 0 && delay > max {
            assert Wrap64(Scaled(base, i)) > max;
            delay := max;
            return;
          }
        }
    }
  }

  /** None: the retries are used up. Some(t): retry at epoch second t. */
  method ScheduleRetry(cfg: RetryConfig, retryCount: int, now: int) returns (wakeAt: Option<int>)
    requires cfg.policy.ExponentialBackoff? ==> IsInt64(cfg.policy.baseSeconds)
    ensures wakeAt == if retryCount > cfg.maxRetries then None else Some(Wrap64(now + Delay(cfg.policy, retryCount)))
  {
    if retryCount > cfg.maxRetries {
      return None;
    }
    var delay := NextDelay(cfg.policy, retryCount);
    return Some(Wrap64(now + delay));
  }

  // ---------------------------------------------------------------- the cap

  function Min(a: int, b: int): int {
    if a <= b then a else b
  }

  lemma {:induction false} ScaledIsPower(base: int, n: nat)
    ensures Scaled(base, n) == base * Pow2(n)
  {
    if n > 0 {
      ScaledIsPower(base, n - 1);
    }
  }

  lemma {:induction false} ScaledGrows(base: int, i: nat, n: nat)
    requires base >= 0 && i <= n
    ensures 0 <= Scaled(base, i) <= Scaled(base, n)
    decreases n
  {
    if i < n {
      ScaledGrows(base, i, n - 1);
    } else if i > 0 {
      ScaledGrows(base, i - 1, n - 1);
    }
  }

  /** The doubling that takes a value within the cap out of int64. */
  ghost predicate OverflowsAt(base: int, max: int, i: nat) {
    Scaled(base, i) <= max && Scaled(base, i + 1) > MAX64
  }

  lemma {:induction false} CappedUnlessOverflow(base: int, max: int, n: nat)
    requires 0 <= base <= max <= MAX64 && max > 0
    requires forall i: nat :: i < n ==> !OverflowsAt(base, max, i)
    ensures ExponentialDelay(base, max, n) == Min(Scaled(base, n), max)
    ensures OverCap(base, max, n) <==> Scaled(base, n) > max
  {
    if n > 0 {
      CappedUnlessOverflow(base, max, n - 1);
      ScaledGrows(base, n - 1, n);
      assert !OverflowsAt(base, max, n - 1);
      if Scaled(base, n - 1) <= max {
        assert Wrap64(Scaled(base, n)) == Scaled(base, n);
      }
    }
  }

  lemma OverflowShows(base: int, max: int, i: nat)
    requires 0 <= base <= max <= MAX64 && max > 0 && OverflowsAt(base, max, i)
    ensures ExponentialDelay(base, max, i + 1) < 0
  {
    forall j: nat | j < i ensures !OverflowsAt(base, max, j) {
      ScaledGrows(base, j + 1, i);
    }
    CappedUnlessOverflow(base, max, i);
    var x := Scaled(base, i + 1);
    assert Wrap64(x) == x - TWO64;
  }

  /** With 0 <= Base <= Max and a positive cap, every delay is min(Base * 2^n, Max)
      exactly when no doubling of a value within the cap leaves int64; else some
      delay is negative. */
  lemma CapIsExact(base: int, max: int)
    requires 0 <= base <= max <= MAX64 && max > 0
    ensures (forall n: nat :: ExponentialDelay(base, max, n) == Min(Scaled(base, n), max))
      <==> (forall i: nat :: !OverflowsAt(base, max, i))
  {
    if forall i: nat :: !OverflowsAt(base, max, i) {
      forall n: nat ensures ExponentialDelay(base, max, n) == Min(Scaled(base, n), max) {
        CappedUnlessOverflow(base, max, n);
      }
    } else {
      var i: nat :| OverflowsAt(base, max, i);
      OverflowShows(base, max, i);
      ScaledGrows(base, i, i + 1);
    }
  }

  /** Both cases of CapIsExact occur: with the largest cap the first doubling of
      the largest base is not above it but negative, and the retry is due in the
      past. */
  lemma LargestCapOverflows()
    ensures OverflowsAt(MAX64, MAX64, 0)
    ensures ExponentialDelay(MAX64, MAX64, 1) == -2
    ensures ExponentialDelay(MAX64, MAX64, 1) != Min(Scaled(MAX64, 1), MAX64)
  {
  }

  /** A cap in the lower half of int64 is always safe: each delay is then
      min(Base * 2^n, Max), and delays never shrink as retries go on. */
  lemma SafeCap(base: int, max: int, n: nat)
    requires 0 <= base <= max <= MAX64 / 2 && max > 0
    ensures ExponentialDelay(base, max, n) == Min(base * Pow2(n), max)
    ensures ExponentialDelay(base, max, n) <= ExponentialDelay(base, max, n + 1)
  {
    CappedUnlessOverflow(base, max, n);
    CappedUnlessOverflow(base, max, n + 1);
    ScaledGrows(base, n, n + 1);
    ScaledIsPower(base, n);
  }

  /** The cap holds for every retry but the first; for the first, and for a
      negative count, it holds exactly when Base does not exceed it. */
  lemma CapSkipsFirstRetry(base: int, max: int, n: int)
    requires IsInt64(base) && 0 < max <= MAX64
    ensures ExponentialDelay(base, max, n) <= max <==> n > 0 || base <= max
  {
  }

  /** Without a cap the delay is Base * 2^n reduced to 64 bits. */
  lemma Uncapped(base: int, max: int, n: nat)
    requires IsInt64(base) && max <= 0
    ensures ExponentialDelay(base, max, n) == Wrap64(base * Pow2(n))
  {
    ScaledIsPower(base, n);
  }

  // ------------------------------------------------------- the whole schedule

  ghost function TotalDelay(base: int, max: int, retries: nat): int {
    ExponentialDelay(base, max, retries) + if retries == 0 then 0 else TotalDelay(base, max, retries - 1)
  }

  /** ScheduleRetry allows retries 0..M; together they wait no longer than M + 1
      times the cap, and no longer than Base * (2^(M+1) - 1). */
  lemma {:induction false} TotalDelayBounded(base: int, max: int, retries: nat)
    requires 0 <= base <= max <= MAX64 / 2 && max > 0
    ensures TotalDelay(base, max, retries) <= (retries + 1) * max
    ensures TotalDelay(base, max, retries) <= base * (Pow2(retries + 1) - 1)
  {
    TotalWithinCaps(base, max, retries);
    TotalWithinDoublings(base, max, retries);
    ScaledIsPower(base, retries + 1);
    OneLess(base, Pow2(retries + 1));
  }

  lemma OneLess(base: int, p: int)
    ensures base * p - base == base * (p - 1)
  {
  }

  lemma OneMore(m: int, x: int)
    ensures m * x + x == (m + 1) * x
  {
  }

  lemma {:induction false} TotalWithinCaps(base: int, max: int, retries: nat)
    requires 0 <= base <= max <= MAX64 / 2 && max > 0
    ensures TotalDelay(base, max, retries) <= (retries + 1) * max
  {
    CappedUnlessOverflow(base, max, retries);
    if retries > 0 {
      TotalWithinCaps(base, max, retries - 1);
      OneMore(retries, max);
    }
  }

  lemma {:induction false} TotalWithinDoublings(base: int, max: int, retries: nat)
    requires 0 <= base <= max <= MAX64 / 2 && max > 0
    ensures TotalDelay(base, max, retries) <= Scaled(base, retries + 1) - base
  {
    CappedUnlessOverflow(base, max, retries);
    if retries > 0 {
      TotalWithinDoublings(base, max, retries - 1);
    }
  }
}
