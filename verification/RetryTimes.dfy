/** When the attempts on a job can end at the earliest, and which retry policies can take a
    schedule back to the epoch while the clock runs forward. Instants are nanoseconds since
    the epoch. */
module RetryTimes {
  import opened Backoff
  import opened Events

  // # The earliest instants

  /** The instant from which a job scheduled for t, in whole milliseconds, is due. */
  function DueAt(t: int): int {
    UnixMilli(t) * MILLISECOND
  }

  function Latest(a: int, b: int): int {
    if a < b then b else a
  }

  /** The least delay the n-th retry can have on any platform. */
  function Lowest(policy: RetryPolicy, n: nat): Duration
    requires n >= 1
  {
    Delay(policy, n, MIN_INT64)
  }

  /** When the attempt after n retries ends at the earliest, if the first one ends at `start`:
      each retry is attempted as soon as it is due, and no attempt takes any time. */
  function Earliest(policy: RetryPolicy, start: int, n: nat): int {
    if n == 0 then start
    else
      var before := Earliest(policy, start, n - 1);
      Latest(before, DueAt(before + Lowest(policy, n)))
  }

  /** The n-th retry can be scheduled before the epoch or in its first millisecond. */
  predicate RetryReachesBack(policy: RetryPolicy, start: int, n: nat)
    requires n >= 1
  {
    Earliest(policy, start, n - 1) + Lowest(policy, n) < MILLISECOND
  }

  predicate ReachesBack(policy: RetryPolicy, start: int) {
    exists n :: 1 <= n <= policy.maxRetries && RetryReachesBack(policy, start, n)
  }

  lemma LowestIsLeast(policy: RetryPolicy, n: nat, o: Duration)
    requires n >= 1
    ensures Lowest(policy, n) <= Delay(policy, n, o)
  {
    hide Float, Pow2;
  }

  lemma DueAtMonotone(a: int, b: int)
    requires a <= b
    ensures DueAt(a) <= DueAt(b) && UnixMilli(a) <= UnixMilli(b)
  {
  }

  lemma {:induction false} EarliestGrows(policy: RetryPolicy, start: int, m: nat, n: nat)
    requires m <= n
    ensures Earliest(policy, start, m) <= Earliest(policy, start, n)
    decreases n
  {
    hide Lowest, DueAt;
    if m < n {
      EarliestGrows(policy, start, m, n - 1);
    }
  }

  lemma {:induction false} EarliestMonotone(policy: RetryPolicy, a: int, b: int, n: nat)
    requires a <= b
    ensures Earliest(policy, a, n) <= Earliest(policy, b, n)
  {
    hide Lowest, DueAt;
    if n > 0 {
      EarliestMonotone(policy, a, b, n - 1);
      DueAtMonotone(Earliest(policy, a, n - 1) + Lowest(policy, n), Earliest(policy, b, n - 1) + Lowest(policy, n));
    }
  }

  /** A later start only makes it harder. */
  lemma ReachesBackEarlier(policy: RetryPolicy, a: int, b: int)
    requires a <= b && ReachesBack(policy, b)
    ensures ReachesBack(policy, a)
  {
    hide Earliest, Lowest;
    var n :| 1 <= n <= policy.maxRetries && RetryReachesBack(policy, b, n);
    EarliestMonotone(policy, a, b, n - 1);
    assert RetryReachesBack(policy, a, n);
  }

  // # Over all platforms

  /** When the attempt after |outcomes| retries ends at the earliest, given what each
      out-of-range conversion yields. */
  function EndsAt(policy: RetryPolicy, start: int, outcomes: seq<Duration>): int {
    if outcomes == [] then start
    else
      var n := |outcomes|;
      var before := EndsAt(policy, start, outcomes[..n - 1]);
      Latest(before, DueAt(before + Delay(policy, n, outcomes[n - 1])))
  }

  lemma {:induction false} EarliestIsLeast(policy: RetryPolicy, start: int, outcomes: seq<Duration>)
    ensures Earliest(policy, start, |outcomes|) <= EndsAt(policy, start, outcomes)
    decreases |outcomes|
  {
    hide Delay, Lowest, DueAt;
    if outcomes != [] {
      var n := |outcomes|;
      var before := EndsAt(policy, start, outcomes[..n - 1]);
      EarliestIsLeast(policy, start, outcomes[..n - 1]);
      LowestIsLeast(policy, n, outcomes[n - 1]);
      DueAtMonotone(Earliest(policy, start, n - 1) + Lowest(policy, n), before + Delay(policy, n, outcomes[n - 1]));
    }
  }

  lemma {:induction false} EarliestIsMet(policy: RetryPolicy, start: int, n: nat) returns (outcomes: seq<Duration>)
    ensures |outcomes| == n && EndsAt(policy, start, outcomes) == Earliest(policy, start, n)
  {
    hide Delay, DueAt;
    if n == 0 {
      outcomes := [];
    } else {
      var init := EarliestIsMet(policy, start, n - 1);
      outcomes := init + [MIN_INT64];
      assert outcomes[..n - 1] == init;
    }
  }

  /** With these outcomes the next retry, converted to o if out of range, reaches back. */
  predicate OutcomesReachBack(policy: RetryPolicy, start: int, outcomes: seq<Duration>, o: Duration) {
    && |outcomes| < policy.maxRetries
    && EndsAt(policy, start, outcomes) + Delay(policy, |outcomes| + 1, o) < MILLISECOND
  }

  /** A retry can reach back exactly when some outcomes of the conversions let one. */
  lemma ReachesBackIff(policy: RetryPolicy, start: int)
    ensures ReachesBack(policy, start) <==>
            exists outcomes, o :: OutcomesReachBack(policy, start, outcomes, o)
  {
    hide Delay, EndsAt, Earliest;
    if ReachesBack(policy, start) {
      var n :| 1 <= n <= policy.maxRetries && RetryReachesBack(policy, start, n);
      var outcomes := EarliestIsMet(policy, start, n - 1);
      assert OutcomesReachBack(policy, start, outcomes, MIN_INT64);
    }
    if outcomes, o :| OutcomesReachBack(policy, start, outcomes, o) {
      EarliestIsLeast(policy, start, outcomes);
      LowestIsLeast(policy, |outcomes| + 1, o);
      assert RetryReachesBack(policy, start, |outcomes| + 1);
    }
  }

  /** Only a negative delay does it, but not every one. */
  lemma ReachingBackIsNegative(policy: RetryPolicy, start: int)
    requires start >= MILLISECOND && ReachesBack(policy, start)
    ensures MayGoNegative(policy)
  {
    hide MayGoNegative, Delay;
    var n :| 1 <= n <= policy.maxRetries && RetryReachesBack(policy, start, n);
    EarliestGrows(policy, start, 0, n - 1);
    assert Delay(policy, n, MIN_INT64) < 0;
    NegativeDelayIff(policy);
  }

  // # Instances

  /** Under a cap the earlier delays take at most that long each. */
  lemma {:induction false} EarliestWithinCaps(policy: RetryPolicy, start: int, n: nat)
    requires policy.maxInterval > 0
    ensures Earliest(policy, start, n) <= start + n * policy.maxInterval
  {
    if n > 0 {
      EarliestWithinCaps(policy, start, n - 1);
      assert Lowest(policy, n) <= policy.maxInterval;
      assert n * policy.maxInterval == (n - 1) * policy.maxInterval + policy.maxInterval;
      hide Lowest;
    }
  }

  /** One second, doubled forty times and capped at an hour: from any instant of the next
      centuries, the 35th retry is scheduled before the epoch. */
  lemma FortyCappedRetries(start: int)
    requires MILLISECOND <= start <= MAX_INT64 - 34 * 3_600_000_000_000
    ensures var policy := RetryPolicy(40, false, 1_000_000_000, 3_600_000_000_000);
            && RetryReachesBack(policy, start, 35)
            && Earliest(policy, start, 34) <= start + 34 * 3_600_000_000_000
  {
    var policy := RetryPolicy(40, false, 1_000_000_000, 3_600_000_000_000);
    OverflowSchedulesInThePast(start);
    EarliestWithinCaps(policy, start, 34);
    hide Earliest, Delay;
  }

  const UNCAPPED: RetryPolicy := RetryPolicy(40, false, 1_000_000_000, 0)

  lemma UncappedDelay(n: nat)
    requires 1 <= n <= 34
    ensures Lowest(UNCAPPED, n) == 1_000_000_000 * Pow2(n - 1)
  {
    Pow2Of34();
    assert Pow2(33) * 2 == Pow2(34);
    Pow2Monotone(n - 1, 33);
    SmallIsFloat(1_000_000_000);
    FloatTimesPow2(1_000_000_000, n - 1);
    hide Pow2, Float;
  }

  lemma {:induction false} DoublingWaits(start: int, n: nat)
    requires n <= 34
    ensures Earliest(UNCAPPED, start, n) >= DueAt(start) + 1_000_000_000 * (Pow2(n) - 1)
  {
    if n > 0 {
      DoublingWaits(start, n - 1);
      UncappedDelay(n);
      hide Lowest, DueAt;
      var reached := UnixMilli(start) + 1000 * (Pow2(n) - 1);
      DueAtWhole(start, reached);
      assert Pow2(n) == 2 * Pow2(n - 1);
      DueAtMonotone(reached * MILLISECOND, Earliest(UNCAPPED, start, n - 1) + Lowest(UNCAPPED, n));
    }
  }

  lemma DueAtWhole(t: int, ms: int)
    ensures DueAt(t) == UnixMilli(t) * MILLISECOND && DueAt(ms * MILLISECOND) == ms * MILLISECOND
  {
  }

  lemma UncappedMayGoNegative()
    ensures MayGoNegative(UNCAPPED)
  {
    SmallIsFloat(1_000_000_000);
    Pow2Of34();
    Pow2Monotone(34, 39);
    hide Pow2, Float;
  }

  /** Uncapped, the waits themselves take so long that no schedule gets back to the epoch. */
  lemma FortyUncappedRetries(start: int)
    requires start >= MILLISECOND
    ensures MayGoNegative(UNCAPPED) && !ReachesBack(UNCAPPED, start)
  {
    UncappedMayGoNegative();
    DoublingWaits(start, 34);
    Pow2Of34();
    hide MayGoNegative, Lowest, Pow2;
    forall n | 1 <= n <= 40 ensures !RetryReachesBack(UNCAPPED, start, n) {
      if n <= 34 {
        UncappedDelay(n);
        EarliestGrows(UNCAPPED, start, 0, n - 1);
        assert Lowest(UNCAPPED, n) >= 0;
      } else {
        EarliestGrows(UNCAPPED, start, 34, n - 1);
      }
    }
  }

  /** Neither does a linear policy whose first wait is 292 years and whose second is negative. */
  lemma LongFirstWait(start: int)
    requires start >= MILLISECOND
    ensures var policy := RetryPolicy(2, true, MAX_INT64, 0); MayGoNegative(policy) && !ReachesBack(policy, start)
  {
    var policy := RetryPolicy(2, true, MAX_INT64, 0);
    assert Lowest(policy, 1) == MAX_INT64 && Lowest(policy, 2) == -2;
    assert Earliest(policy, start, 0) == start;
    assert Earliest(policy, start, 1) >= MILLISECOND + 2;
    hide Earliest, Lowest;
  }
}
