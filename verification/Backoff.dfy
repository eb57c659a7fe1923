/** Retry intervals (internal/queue/retry.go), with the float64 rounding, the int64
    wrap-around and the out-of-range conversion of the source made explicit.
    Durations are nanoseconds. */
module Backoff {

  const MIN_INT64: int := -0x8000_0000_0000_0000
  const MAX_INT64: int := 0x7fff_ffff_ffff_ffff
  const TWO_53: int := 0x20_0000_0000_0000

  /** A 64-bit duration. */
  type Duration = d: int | MIN_INT64 <= d <= MAX_INT64 witness 0

  datatype RetryPolicy = RetryPolicy(
    maxRetries: nat,
    linear: bool,  // any other backoff policy is exponential
    initialInterval: Duration,
    maxInterval: Duration)

  function Pow2(k: nat): (r: nat)
    ensures r >= 1
  {
    if k == 0 then 1 else 2 * Pow2(k - 1)
  }

  // # float64

  /** x rounded to a multiple of ulp, ties to even. */
  function RoundTo(x: nat, ulp: nat): nat
    requires ulp > 0
  {
    var q, r := x / ulp, x % ulp;
    if 2 * r < ulp || (2 * r == ulp && q % 2 == 0) then q * ulp else (q + 1) * ulp
  }

  /** Rounding to 53 significant bits, trying ulp and its doublings. */
  function RoundFrom(x: nat, ulp: nat): nat
    requires ulp > 0
    decreases x - ulp
  {
    if x < TWO_53 * ulp then RoundTo(x, ulp) else RoundFrom(x, 2 * ulp)
  }

  /** The float64 nearest to an integer. */
  function Float(x: int): int {
    if x < 0 then -(RoundFrom(-x, 1) as int) else RoundFrom(x, 1)
  }

  // # Intervals

  function WrapInt64(x: int): Duration {
    (x - MIN_INT64) % 0x1_0000_0000_0000_0000 + MIN_INT64
  }

  /** Converting a float64 to int64; `outOfRange` is what the platform yields when the
      value does not fit, which the language leaves open. */
  function FloatToInt64(f: int, outOfRange: Duration): Duration {
    if MIN_INT64 <= f <= MAX_INT64 then f else outOfRange
  }

  /** The largest power of two that math.Pow(2, _) can return. */
  const MAX_EXPONENT: nat := 1023

  function Interval(policy: RetryPolicy, retryCount: nat, outOfRange: Duration): Duration
    requires retryCount >= 1
  {
    if policy.linear then WrapInt64(policy.initialInterval * retryCount)
    else if retryCount - 1 > MAX_EXPONENT then outOfRange
    else FloatToInt64(Float(Float(policy.initialInterval) * Pow2(retryCount - 1)), outOfRange)
  }

  function Delay(policy: RetryPolicy, retryCount: nat, outOfRange: Duration): Duration
    requires retryCount >= 1
  {
    var interval := Interval(policy, retryCount, outOfRange);
    if policy.maxInterval > 0 && interval > policy.maxInterval then policy.maxInterval else interval
  }

  function NextScheduledAt(policy: RetryPolicy, retryCount: nat, now: int, outOfRange: Duration): int
    requires retryCount >= 1
  {
    now + Delay(policy, retryCount, outOfRange)
  }

  predicate IsExhausted(policy: RetryPolicy, retryCount: int) {
    retryCount > policy.maxRetries
  }

  // # Exactness

  /** The interval in unbounded arithmetic. */
  function Exact(policy: RetryPolicy, retryCount: nat): int
    requires retryCount >= 1
  {
    if policy.linear then policy.initialInterval * retryCount
    else policy.initialInterval * Pow2(retryCount - 1)
  }

  /** The exact interval fits, and for exponential backoff the initial interval is a float64. */
  predicate InRange(policy: RetryPolicy, retryCount: nat)
    requires retryCount >= 1
  {
    && MIN_INT64 <= Exact(policy, retryCount) <= MAX_INT64
    && (policy.linear || (Float(policy.initialInterval) == policy.initialInterval && retryCount - 1 <= MAX_EXPONENT))
  }

  lemma SmallIsFloat(x: int)
    requires -TWO_53 < x < TWO_53
    ensures Float(x) == x
  {
  }

  /** Scaling by two and by ulp commute with rounding. */
  lemma {:induction false} RoundFromScales(x: nat, ulp: nat)
    requires ulp > 0
    ensures RoundFrom(2 * x, 2 * ulp) == 2 * RoundFrom(x, ulp)
    decreases x - ulp
  {
    if x < TWO_53 * ulp {
      RoundToScales(x, ulp);
    } else {
      RoundFromScales(x, 2 * ulp);
    }
  }

  lemma RoundToScales(x: nat, ulp: nat)
    requires ulp > 0
    ensures RoundTo(2 * x, 2 * ulp) == 2 * RoundTo(x, ulp)
  {
    var q, r := x / ulp, x % ulp;
    assert x == q * ulp + r;
    DivUnique(2 * x, 2 * ulp, q, 2 * r);
    assert q * (2 * ulp) == 2 * (q * ulp) && (q + 1) * (2 * ulp) == 2 * ((q + 1) * ulp);
  }

  lemma DivUnique(x: nat, d: nat, q: nat, r: nat)
    requires d > 0 && r < d && x == q * d + r
    ensures x / d == q && x % d == r
  {
    var q', r' := x / d, x % d;
    assert x == q' * d + r';
    assert (q - q') * d == r' - r;
    SmallMultiple(q - q', d);
  }

  lemma SmallMultiple(k: int, d: nat)
    requires 0 - d < k * d < d
    ensures k == 0
  {
    if k >= 1 {
      MulMonotone(1, k, d);
    }
    if k <= -1 {
      MulMonotone(k, -1, d);
    }
  }

  /** A float64 doubled is a float64: scaling by a power of two rounds nothing away. */
  lemma {:induction false} FloatTimesPow2(x: int, k: nat)
    requires Float(x) == x
    ensures Float(x * Pow2(k)) == x * Pow2(k)
  {
    if k > 0 {
      FloatTimesPow2(x, k - 1);
      var y := x * Pow2(k - 1);
      FloatDoubles(y);
      assert x * Pow2(k) == 2 * y;
    }
  }

  lemma FloatDoubles(y: int)
    requires Float(y) == y
    ensures Float(2 * y) == 2 * y
  {
    var a := if y < 0 then -y else y;
    if 2 * a >= TWO_53 {
      RoundFromScales(a, 1);
    }
  }

  lemma {:induction false} FloatIsFloat(x: nat, ulp: nat)
    requires ulp > 0
    ensures RoundFrom(RoundFrom(x, ulp), ulp) == RoundFrom(x, ulp)
    decreases x - ulp
  {
    if x < TWO_53 * ulp {
      DivBound(x, ulp);
      var q := x / ulp;
      assert RoundTo(x, ulp) == q * ulp || RoundTo(x, ulp) == (q + 1) * ulp;
      hide RoundTo, RoundFrom;
      assert RoundFrom(x, ulp) == RoundTo(x, ulp) by {
        RoundFromUnfold(x, ulp);
      }
      MultipleIsRound(q, ulp);
      MultipleIsRound(q + 1, ulp);
    } else {
      FloatIsFloat(x, 2 * ulp);
      RoundFromLarge(x, 2 * ulp);
    }
  }

  lemma RoundFromUnfold(x: nat, ulp: nat)
    requires ulp > 0 && x < TWO_53 * ulp
    ensures RoundFrom(x, ulp) == RoundTo(x, ulp)
  {
  }

  /** A multiple of ulp with a 53-bit quotient is its own rounding. */
  lemma MultipleIsRound(m: nat, ulp: nat)
    requires ulp > 0 && m <= TWO_53
    ensures RoundFrom(m * ulp, ulp) == m * ulp
  {
    var y := m * ulp;
    if m < TWO_53 {
      assert (m + 1) * ulp == y + ulp;
      MulMonotone(m + 1, TWO_53, ulp);
      RoundToExact(y, ulp, m);
      hide RoundTo;
      RoundFromUnfold(y, ulp);
    } else {
      RoundToExact(y, 2 * ulp, TWO_53 / 2);
      hide RoundTo;
      RoundFromUnfold(y, 2 * ulp);
    }
  }

  lemma RoundToExact(y: nat, ulp: nat, q: nat)
    requires ulp > 0 && y == q * ulp
    ensures RoundTo(y, ulp) == y
  {
    DivUnique(y, ulp, q, 0);
  }

  lemma DivBound(x: nat, ulp: nat)
    requires ulp > 0 && x < TWO_53 * ulp
    ensures x / ulp < TWO_53
  {
    var q := x / ulp;
    assert q * ulp <= x;
    if q >= TWO_53 {
      MulMonotone(TWO_53, q, ulp);
    }
  }

  lemma MulMonotone(a: int, b: int, c: nat)
    requires a <= b
    ensures a * c <= b * c
  {
  }

  lemma DivLower(x: nat, d: nat, h: nat)
    requires d > 0 && x >= h * d
    ensures x / d >= h
  {
    var q := x / d;
    assert x < (q + 1) * d;
    if q < h {
      MulMonotone(q + 1, h, d);
    }
  }

  /** Rounding a number of at least half the range of ulp keeps it there. */
  lemma {:induction false} RoundFromLarge(x: nat, ulp: nat)
    requires ulp > 0 && 2 * x >= TWO_53 * ulp
    ensures 2 * RoundFrom(x, ulp) >= TWO_53 * ulp
    decreases x - ulp
  {
    if x < TWO_53 * ulp {
      var h := TWO_53 / 2;
      assert x >= h * ulp;
      DivLower(x, ulp, h);
      MulMonotone(h, x / ulp, ulp);
    } else {
      RoundFromLarge(x, 2 * ulp);
    }
  }

  /** The nearest number with at most 53 significant bits, and of two equally near the even one:
      a multiple q of a power of two, the coarsest only if the number needs it. */
  lemma FloatIsNearest(x: int) returns (q: nat, e: nat)
    ensures var a, f := if x < 0 then -x else x, if x < 0 then -Float(x) else Float(x);
            && f == q * Pow2(e) && q <= 9_007_199_254_740_992
            && (e > 0 ==> a >= 4_503_599_627_370_496 * Pow2(e))
            && 2 * (a - f) <= Pow2(e) && 2 * (f - a) <= Pow2(e)
            && (2 * (a - f) == Pow2(e) || 2 * (f - a) == Pow2(e) ==> q % 2 == 0)
  {
    assert Pow2(0) == 1;
    q, e := RoundFromNearest(if x < 0 then -x else x, 0);
  }

  lemma {:induction false} RoundFromNearest(x: nat, e: nat) returns (q: nat, e': nat)
    requires e > 0 ==> x >= 4_503_599_627_370_496 * Pow2(e)
    ensures var f := RoundFrom(x, Pow2(e));
            && f == q * Pow2(e') && q <= 9_007_199_254_740_992
            && (e' > 0 ==> x >= 4_503_599_627_370_496 * Pow2(e'))
            && 2 * (x - f) <= Pow2(e') && 2 * (f - x) <= Pow2(e')
            && (2 * (x - f) == Pow2(e') || 2 * (f - x) == Pow2(e') ==> q % 2 == 0)
    decreases x - Pow2(e)
  {
    var ulp := Pow2(e);
    assert Pow2(e + 1) == 2 * ulp;
    hide Pow2;
    if x < TWO_53 * ulp {
      e' := e;
      q := RoundToNearest(x, ulp);
    } else {
      q, e' := RoundFromNearest(x, e + 1);
    }
  }

  lemma RoundToNearest(x: nat, ulp: nat) returns (q: nat)
    requires ulp > 0 && x < TWO_53 * ulp
    ensures RoundTo(x, ulp) == q * ulp && q <= TWO_53
    ensures 2 * (x - q * ulp) <= ulp && 2 * (q * ulp - x) <= ulp
    ensures 2 * (x - q * ulp) == ulp || 2 * (q * ulp - x) == ulp ==> q % 2 == 0
  {
    DivBound(x, ulp);
    var d, r := Division(x, ulp);
    q := if 2 * r < ulp || (2 * r == ulp && d % 2 == 0) then d else d + 1;
    Rounding(x, ulp, d, r, q);
    hide RoundTo;
    Halves(x, ulp, d, r, q);
  }

  lemma Division(x: nat, ulp: nat) returns (d: nat, r: nat)
    requires ulp > 0
    ensures d == x / ulp && r == x % ulp && x == d * ulp + r && r < ulp
  {
    d, r := x / ulp, x % ulp;
  }

  lemma Rounding(x: nat, ulp: nat, d: nat, r: nat, q: nat)
    requires ulp > 0 && d == x / ulp && r == x % ulp
    requires q == if 2 * r < ulp || (2 * r == ulp && d % 2 == 0) then d else d + 1
    ensures RoundTo(x, ulp) == q * ulp
  {
  }

  lemma Halves(x: nat, ulp: nat, d: nat, r: nat, q: nat)
    requires ulp > 0 && x == d * ulp + r && r < ulp
    requires q == if 2 * r < ulp || (2 * r == ulp && d % 2 == 0) then d else d + 1
    ensures 2 * (x - q * ulp) <= ulp && 2 * (q * ulp - x) <= ulp
    ensures 2 * (x - q * ulp) == ulp || 2 * (q * ulp - x) == ulp ==> q % 2 == 0
  {
    assert (d + 1) * ulp == d * ulp + ulp;
  }

  /** Nothing doubled stays nothing up to the 1024th retry, when the factor becomes infinite. */
  lemma ZeroIntervals(policy: RetryPolicy, n: nat, o: Duration)
    requires !policy.linear && policy.initialInterval == 0 && n >= 1
    ensures Interval(policy, n, o) == if n <= 1024 then 0 else o
  {
    SmallIsFloat(0);
    hide Pow2;
  }

  lemma FloatIdempotent(x: int)
    ensures Float(Float(x)) == Float(x)
  {
    FloatIsFloat(if x < 0 then -x else x, 1);
  }

  lemma SmallMultipleOf(k: int, d: nat)
    requires d >= 1 && k * d == 0
    ensures k == 0
  {
    SmallMultiple(k, d);
  }

  /** Whatever the platform does out of range, the computed interval is the exact one if
      and only if it is in range. */
  lemma IntervalIsExactIff(policy: RetryPolicy, retryCount: nat)
    requires retryCount >= 1
    ensures (forall o: Duration :: Interval(policy, retryCount, o) == Exact(policy, retryCount)) <==>
            InRange(policy, retryCount)
  {
    hide Float, RoundFrom, Pow2;
    var o1: Duration, o2: Duration := 0, 1;
    var d1, d2 := Interval(policy, retryCount, o1), Interval(policy, retryCount, o2);
    if !policy.linear {
      var i, p := policy.initialInterval, Pow2(retryCount - 1);
      FloatIdempotent(i);
      FloatTimesPow2(Float(i), retryCount - 1);
      if Float(i) * p == i * p {
        SmallMultipleOf(Float(i) - i, p);
      }
    }
    if InRange(policy, retryCount) {
      forall o: Duration ensures Interval(policy, retryCount, o) == Exact(policy, retryCount) {
      }
    } else {
      assert d1 != Exact(policy, retryCount) || d2 != Exact(policy, retryCount);
    }
  }

  /** The cap, on any integer. */
  function Capped(policy: RetryPolicy, x: int): int {
    if policy.maxInterval > 0 && x > policy.maxInterval then policy.maxInterval else x
  }

  /** When the delay is the exact interval, capped: the interval is computed exactly, or what
      is computed instead is, like the exact one, at or above the cap. */
  predicate CapsExactly(policy: RetryPolicy, retryCount: nat)
    requires retryCount >= 1
  {
    var cap, exact := policy.maxInterval, Exact(policy, retryCount);
    if policy.linear then
      MIN_INT64 <= exact <= MAX_INT64 || (cap > 0 && exact > MAX_INT64 && WrapInt64(exact) >= cap)
    else
      && retryCount - 1 <= MAX_EXPONENT
      && var computed := Float(policy.initialInterval) * Pow2(retryCount - 1);
         && MIN_INT64 <= computed <= MAX_INT64
         && (Float(policy.initialInterval) == policy.initialInterval || (cap > 0 && computed >= cap && exact >= cap))
  }

  /** The delay is the capped exact interval whatever the platform does out of range. */
  ghost predicate AlwaysCapped(policy: RetryPolicy, retryCount: nat)
    requires retryCount >= 1
  {
    forall o: Duration :: Delay(policy, retryCount, o) == Capped(policy, Exact(policy, retryCount))
  }

  lemma LinearCapped(policy: RetryPolicy, retryCount: nat)
    requires retryCount >= 1 && policy.linear
    ensures AlwaysCapped(policy, retryCount) <==> CapsExactly(policy, retryCount)
  {
    var o: Duration := 0;
    var d := Delay(policy, retryCount, o);
    hide Float, Pow2;
    assert AlwaysCapped(policy, retryCount) ==> d == Capped(policy, Exact(policy, retryCount));
  }

  lemma ExponentialCapped(policy: RetryPolicy, retryCount: nat)
    requires retryCount >= 1 && !policy.linear
    ensures AlwaysCapped(policy, retryCount) <==> CapsExactly(policy, retryCount)
  {
    hide Float, RoundFrom, Pow2;
    var o1: Duration, o2: Duration := 0, -1;
    var d1, d2 := Delay(policy, retryCount, o1), Delay(policy, retryCount, o2);
    var i, p := policy.initialInterval, Pow2(retryCount - 1);
    FloatIdempotent(i);
    FloatTimesPow2(Float(i), retryCount - 1);
    if Float(i) * p == i * p {
      SmallMultipleOf(Float(i) - i, p);
    }
    if CapsExactly(policy, retryCount) {
      forall o: Duration ensures Delay(policy, retryCount, o) == Capped(policy, Exact(policy, retryCount)) {
      }
    } else {
      var capped := Capped(policy, Exact(policy, retryCount));
      assert d1 != capped || d2 != capped;
    }
  }

  /** Whatever the platform does out of range, the delay is the capped exact interval if and
      only if that holds. */
  lemma DelayIsCappedExactIff(policy: RetryPolicy, retryCount: nat)
    requires retryCount >= 1
    ensures (forall o: Duration :: Delay(policy, retryCount, o) == Capped(policy, Exact(policy, retryCount))) <==>
            CapsExactly(policy, retryCount)
  {
    hide CapsExactly, Delay, Exact, Capped;
    if policy.linear {
      LinearCapped(policy, retryCount);
    } else {
      ExponentialCapped(policy, retryCount);
    }
  }

  // # Negative delays

  /** Whether a job's life can meet a negative delay: told from the policy alone. */
  predicate MayGoNegative(policy: RetryPolicy) {
    && policy.maxRetries >= 1
    && (policy.initialInterval < 0 ||
        if policy.linear then policy.initialInterval * policy.maxRetries > MAX_INT64
        else policy.maxRetries - 1 > MAX_EXPONENT
             || Float(policy.initialInterval) * Pow2(policy.maxRetries - 1) > MAX_INT64)
  }

  lemma {:induction false} RoundFromPositive(x: nat, ulp: nat)
    requires ulp > 0
    ensures x >= ulp ==> RoundFrom(x, ulp) >= ulp
    ensures x == 0 ==> RoundFrom(x, ulp) == 0
    decreases x - ulp
  {
    if x >= TWO_53 * ulp {
      RoundFromPositive(x, 2 * ulp);
    } else if x >= ulp {
      DivBound(x, ulp);
      DivLower(x, ulp, 1);
      var q := x / ulp;
      MulMonotone(1, q, ulp);
      MulMonotone(1, q + 1, ulp);
    }
  }

  lemma FloatSign(x: int)
    ensures x < 0 <==> Float(x) < 0
  {
    RoundFromPositive(if x < 0 then -x else x, 1);
  }

  /** The first multiple past the 63-bit range wraps around to a negative number. */
  lemma {:induction false} FirstOverflow(i: nat, k: nat) returns (n: nat)
    requires i <= MAX_INT64 && i * k > MAX_INT64
    ensures 1 <= n <= k && WrapInt64(i * n) < 0
  {
    if k > 1 && i * (k - 1) > MAX_INT64 {
      n := FirstOverflow(i, k - 1);
    } else {
      n := k;
      assert i * k == i * (k - 1) + i;
      WrapsNegative(i * k);
    }
  }

  lemma WrapsNegative(x: int)
    requires MAX_INT64 < x <= 2 * MAX_INT64
    ensures WrapInt64(x) < 0
  {
    assert (x - MIN_INT64) % 0x1_0000_0000_0000_0000 == x - MIN_INT64 - 0x1_0000_0000_0000_0000;
  }

  lemma IntervalNotNegative(policy: RetryPolicy, n: nat, o: Duration)
    requires 1 <= n <= policy.maxRetries && !MayGoNegative(policy)
    ensures Interval(policy, n, o) >= 0
  {
    hide Float, Pow2;
    var i := policy.initialInterval;
    if policy.linear {
      MulFactors(i, n, policy.maxRetries);
    } else {
      FloatSign(i);
      FloatIdempotent(i);
      FloatTimesPow2(Float(i), n - 1);
      Pow2Monotone(n - 1, policy.maxRetries - 1);
      MulFactors(Float(i), Pow2(n - 1), Pow2(policy.maxRetries - 1));
    }
  }

  /** The retry, and the platform, of a negative delay. */
  lemma SomeNegative(policy: RetryPolicy) returns (n: nat, o: Duration)
    requires MayGoNegative(policy)
    ensures 1 <= n <= policy.maxRetries && Interval(policy, n, o) < 0
  {
    var i := policy.initialInterval;
    o := -1;
    if i < 0 {
      n := 1;
      FloatSign(i);
      FloatIdempotent(i);
      assert Pow2(0) == 1;
      hide Float, Pow2;
    } else if policy.linear {
      n := FirstOverflow(i, policy.maxRetries);
    } else {
      n := policy.maxRetries;
      FloatIdempotent(i);
      hide Float, Pow2;
      FloatTimesPow2(Float(i), n - 1);
    }
  }

  /** Some retry within the policy has, on some platform, a negative delay if and only if the
      initial interval is negative or a product leaves the 63-bit range. */
  lemma NegativeDelayIff(policy: RetryPolicy)
    ensures (exists n: nat, o: Duration :: 1 <= n <= policy.maxRetries && Delay(policy, n, o) < 0) <==>
            MayGoNegative(policy)
  {
    hide Interval, MayGoNegative;
    if MayGoNegative(policy) {
      var n, o := SomeNegative(policy);
      assert Delay(policy, n, o) < 0;
    } else if n: nat, o: Duration :| 1 <= n <= policy.maxRetries && Delay(policy, n, o) < 0 {
      IntervalNotNegative(policy, n, o);
    }
  }

  // # Bounds over a job's life

  lemma {:induction false} Pow2Monotone(a: nat, b: nat)
    requires a <= b
    ensures Pow2(a) <= Pow2(b)
  {
    if a < b {
      Pow2Monotone(a, b - 1);
    }
  }

  lemma {:induction false} Pow2Adds(a: nat, b: nat)
    ensures Pow2(a + b) == Pow2(a) * Pow2(b)
  {
    if b > 0 {
      Pow2Adds(a, b - 1);
    }
  }

  lemma MulFactors(i: nat, a: nat, b: nat)
    requires a <= b
    ensures 0 <= i * a <= i * b
  {
    MulMonotone(a, b, i);
    MulMonotone(0, a, i);
  }

  /** Every retry up to n is in range when the n-th is. */
  lemma InRangeBelow(policy: RetryPolicy, m: nat, n: nat)
    requires 1 <= m <= n && policy.initialInterval >= 0 && InRange(policy, n)
    ensures InRange(policy, m)
    ensures 0 <= Exact(policy, m) <= Exact(policy, n)
  {
    hide Float, Pow2;
    if policy.linear {
      MulFactors(policy.initialInterval, m, n);
    } else {
      Pow2Monotone(m - 1, n - 1);
      MulFactors(policy.initialInterval, Pow2(m - 1), Pow2(n - 1));
    }
  }

  /** A cap holds on every platform and for every policy; in range the delays are
      non-negative and never shrink from one retry to the next. */
  lemma DelayBounds(policy: RetryPolicy, m: nat, n: nat, o: Duration)
    requires 1 <= m <= n
    ensures policy.maxInterval > 0 ==> Delay(policy, n, o) <= policy.maxInterval
    ensures policy.initialInterval >= 0 && InRange(policy, n) ==>
              0 <= Delay(policy, m, o) <= Delay(policy, n, o) <= Exact(policy, n)
  {
    if policy.initialInterval >= 0 && InRange(policy, n) {
      InRangeBelow(policy, m, n);
      IntervalIsExactIff(policy, m);
      IntervalIsExactIff(policy, n);
    }
  }

  /** The delays of retries 1 to n together. */
  function TotalDelay(policy: RetryPolicy, n: nat, o: Duration): int {
    if n == 0 then 0 else TotalDelay(policy, n - 1, o) + Delay(policy, n, o)
  }

  lemma Geometric(i: int, p: int)
    ensures i * (p - 1) + i * p == i * (2 * p - 1)
  {
  }

  lemma {:induction false} TotalDelayBounds(policy: RetryPolicy, n: nat, o: Duration)
    ensures policy.maxInterval > 0 ==> TotalDelay(policy, n, o) <= n * policy.maxInterval
    ensures n >= 1 && policy.initialInterval >= 0 && !policy.linear && InRange(policy, n) ==>
              0 <= TotalDelay(policy, n, o) <= policy.initialInterval * (Pow2(n) - 1)
  {
    hide Delay, InRange;
    if n > 0 {
      TotalDelayBounds(policy, n - 1, o);
      DelayBounds(policy, n, n, o);
      assert (n - 1) * policy.maxInterval + policy.maxInterval == n * policy.maxInterval;
      if n > 1 && policy.initialInterval >= 0 && !policy.linear && InRange(policy, n) {
        InRangeBelow(policy, n - 1, n);
      }
      Geometric(policy.initialInterval, Pow2(n - 1));
    }
  }

  lemma Pow2Of34()
    ensures Pow2(34) == 17_179_869_184
  {
    assert Pow2(10) == 1024;
    Pow2Adds(10, 10);
    assert Pow2(20) == 1_048_576;
    assert Pow2(14) == 16_384;
    Pow2Adds(20, 14);
  }

  /** Out of range the cap gives no protection: with the conversion result of amd64, the
      35th retry of a one-second policy capped at an hour is scheduled 292 years ago. */
  lemma OverflowSchedulesInThePast(now: int)
    ensures var policy := RetryPolicy(40, false, 1_000_000_000, 3_600_000_000_000);
            !InRange(policy, 35) && NextScheduledAt(policy, 35, now, MIN_INT64) == now + MIN_INT64
  {
    var policy := RetryPolicy(40, false, 1_000_000_000, 3_600_000_000_000);
    Pow2Of34();
    SmallIsFloat(1_000_000_000);
    FloatTimesPow2(1_000_000_000, 34);
    hide Pow2, Float;
    assert Exact(policy, 35) == 17_179_869_184_000_000_000;
    assert Interval(policy, 35, MIN_INT64) == MIN_INT64;
  }
}
