/** The sleeps that a policy's retry loop really takes: those of its traces, over every environment and machine. A
    policy sleeps Attempts - 1 times at most, so what happens to later intervals does not matter. */
module BackoffTraces {
  import opened Options
  import opened Errors
  import opened Retry
  import opened RetryLaws

  /** In that environment the loop sleeps for `d` after attempt `i`. */
  ghost predicate SleepsFor(env: Env, p: DeliveryPolicy, i: nat, d: int) {
    Act.Sleep(i, d) in WithRetrySpec(env, p).acts
  }

  /** An environment in which every attempt fails and nothing is cancelled. */
  function AllFail(convert: real -> int): Env {
    Env((i: nat) => None, (i: nat) => Some(Plain("failed")), (i: nat) => None, convert)
  }

  lemma SleepIsInterval(env: Env, p: DeliveryPolicy, i: nat, d: int)
    requires SleepsFor(env, p, i, d)
    ensures i + 2 <= Attempts(p) && d == Interval(env.convert, BackoffOf(p), i)
  {
    var o, delays := WithRetrySpec(env, p), Delays(env.convert, p);
    LoopIsCut(env, Attempts(p), delays, 0);
    assert CutAtFirstDecisive(env, Attempts(p), delays, 0, o);
    LoopCounts(env, Attempts(p), delays, 0);
    var k :| 0 <= k < |o.acts| && o.acts[k] == Act.Sleep(i, d);
    assert o.acts[k - 0] == ActAt(delays, k);
    assert k == 3 * i + 2;
  }

  lemma IntervalIsSlept(convert: real -> int, p: DeliveryPolicy, i: nat)
    requires i + 2 <= Attempts(p)
    ensures SleepsFor(AllFail(convert), p, i, Interval(convert, BackoffOf(p), i))
  {
    var env, delays := AllFail(convert), Delays(convert, p);
    var o := WithRetrySpec(env, p);
    LoopExhausts(env, Attempts(p), delays);
    LoopIsCut(env, Attempts(p), delays, 0);
    assert CutAtFirstDecisive(env, Attempts(p), delays, 0, o);
    LoopCounts(env, Attempts(p), delays, 0);
    Round(env, Attempts(p), delays, i);
    assert o.acts[3 * i + 2 - 0] == ActAt(delays, 3 * i + 2);
  }

  /** None of the first `n` intervals overflows when it is multiplied. */
  ghost predicate FitsBefore(b: Backoff, n: int) {
    forall i: nat | i < n :: Product(Interval(SMALLEST, b, i), b.factor) < TWO_63 as real
  }

  /** No conversion of a trace leaves int64: the loop multiplies Attempts - 2 intervals at most. */
  ghost predicate Safe(p: DeliveryPolicy) {
    !p.exponentialBackoff || FitsBefore(BackoffOf(p), Attempts(p) - 2)
  }

  /** The closed-form guard is enough, whatever the number of attempts. */
  lemma GuardIsSafe(p: DeliveryPolicy)
    requires NeverOverflows(BackoffOf(p))
    ensures Safe(p)
  {
    forall i: nat | p.exponentialBackoff && i < Attempts(p) - 2
      ensures Product(Interval(SMALLEST, BackoffOf(p), i), BackoffOf(p).factor) < TWO_63 as real
    {
      NoOverflow(SMALLEST, BackoffOf(p), i);
    }
  }

  lemma FittingStep(convert: real -> int, d: int, m: real)
    requires 0 < d && m > 1.0 && Product(d, m) < TWO_63 as real
    ensures Times(convert, d, m) == Product(d, m).Floor >= d
  {
    BoundedGrowth(convert, d, d, m);
    ProductGrows(d, d, m);
  }

  /** While nothing overflows all machines agree, on positive intervals. */
  lemma {:induction false} MachinesAgree(convert: real -> int, b: Backoff, i: nat)
    requires b.exponential && FitsBefore(b, i)
    ensures Interval(convert, b, i) == Interval(SMALLEST, b, i) > 0
  {
    if i > 0 {
      MachinesAgree(convert, b, i - 1);
      var d := Interval(SMALLEST, b, i - 1);
      FittingStep(convert, d, b.factor);
      FittingStep(SMALLEST, d, b.factor);
    }
  }

  lemma SafeIsPositive(convert: real -> int, p: DeliveryPolicy, i: nat)
    requires Safe(p) && i + 2 <= Attempts(p)
    ensures Interval(convert, BackoffOf(p), i) > 0
  {
    if p.exponentialBackoff {
      MachinesAgree(convert, BackoffOf(p), i);
    } else {
      FixedIntervals(convert, BackoffOf(p), i);
    }
  }

  /** An unsafe policy sleeps for a negative time at last. */
  lemma UnsafeIsNegative(p: DeliveryPolicy) returns (i: nat)
    requires !Safe(p)
    ensures 0 < i && i + 2 <= Attempts(p) && Interval(SMALLEST, BackoffOf(p), i) < 0
  {
    var j: nat :| j < Attempts(p) - 2 &&
        Product(Interval(SMALLEST, BackoffOf(p), j), BackoffOf(p).factor) >= TWO_63 as real;
    OverflowIsNegative(BackoffOf(p), j);
    i := j + 1;
  }

  /** Exactly which policies never ask for a negative sleep, on any machine. */
  lemma SleepsArePositiveExactly(p: DeliveryPolicy)
    ensures (forall env, i: nat, d | SleepsFor(env, p, i, d) :: d > 0) <==> Safe(p)
  {
    if Safe(p) {
      forall env, i: nat, d | SleepsFor(env, p, i, d) ensures d > 0 {
        SleepIsInterval(env, p, i, d);
        SafeIsPositive(env.convert, p, i);
      }
    } else {
      var i := UnsafeIsNegative(p);
      IntervalIsSlept(SMALLEST, p, i);
    }
  }

  ghost predicate NeverShrinks(p: DeliveryPolicy) {
    forall env, i: nat, d, j: nat, e | SleepsFor(env, p, i, d) && SleepsFor(env, p, j, e) && i <= j :: d <= e
  }

  lemma {:induction false} FittingGrowth(convert: real -> int, b: Backoff, i: nat, j: nat)
    requires b.exponential && b.first <= b.cap && FitsBefore(b, j) && i <= j
    ensures Interval(convert, b, i) <= Interval(convert, b, j)
    decreases j
  {
    if i < j {
      FittingGrowth(convert, b, i, j - 1);
      MachinesAgree(convert, b, j - 1);
      FittingStep(convert, Interval(convert, b, j - 1), b.factor);
      SleepsWithinCap(convert, b, j - 1);
    }
  }

  /** Exactly which policies never shorten a sleep, on any machine: those that sleep once at most, those with
      fixed backoff, and the safe ones whose first sleep is within the cap. */
  lemma SleepsNeverShrinkExactly(p: DeliveryPolicy)
    ensures NeverShrinks(p) <==>
            Attempts(p) <= 2 || !p.exponentialBackoff || (Safe(p) && FirstInterval(p) <= Cap(p))
  {
    var b := BackoffOf(p);
    if Attempts(p) <= 2 || !p.exponentialBackoff || (Safe(p) && FirstInterval(p) <= Cap(p)) {
      forall env, i: nat, d, j: nat, e | SleepsFor(env, p, i, d) && SleepsFor(env, p, j, e) && i <= j ensures d <= e {
        SleepIsInterval(env, p, i, d);
        SleepIsInterval(env, p, j, e);
        if !p.exponentialBackoff {
          FixedIntervals(env.convert, b, i);
          FixedIntervals(env.convert, b, j);
        } else if i < j {
          FittingGrowth(env.convert, b, i, j);
        }
      }
    } else {
      IntervalIsSlept(SMALLEST, p, 0);
      var j := 1;
      if Safe(p) {
        SleepsWithinCap(SMALLEST, b, 1);
      } else {
        j := UnsafeIsNegative(p);
      }
      IntervalIsSlept(SMALLEST, p, j);
      assert SleepsFor(AllFail(SMALLEST), p, 0, b.first) && Interval(SMALLEST, b, j) < b.first;
    }
  }

  /** d doubled k times. */
  function Doubled(d: int, k: nat): int {
    if k == 0 then d else 2 * Doubled(d, k - 1)
  }

  lemma AtLeastTwice(convert: real -> int, d: int, m: real)
    requires 0 < d && m >= 2.0 && Product(d, m) < TWO_63 as real
    ensures Times(convert, d, m) >= 2 * d
  {
    ProductSplits(d, m);
    ProductSplits(d, m - 1.0);
    ProductGrows(d, d, m - 2.0);
  }

  lemma {:induction false} SleepsDouble(convert: real -> int, b: Backoff, i: nat)
    requires b.exponential && b.factor >= 2.0 && b.first <= b.cap && FitsBefore(b, i)
    ensures Interval(convert, b, i) == b.cap || Interval(convert, b, i) >= Doubled(b.first, i)
  {
    if i > 0 {
      SleepsDouble(convert, b, i - 1);
      MachinesAgree(convert, b, i - 1);
      AtLeastTwice(convert, Interval(convert, b, i - 1), b.factor);
    }
  }

  lemma CapIsKept(convert: real -> int, b: Backoff, k: nat, i: nat)
    requires b.exponential && b.factor >= 2.0 && b.first <= b.cap && FitsBefore(b, i)
    requires Doubled(b.first, k) >= b.cap && i >= k
    ensures Interval(convert, b, i) == b.cap
  {
    SleepsDouble(convert, b, k);
    SleepsWithinCap(convert, b, k);
    SleepsWithinCap(convert, b, i);
    FittingGrowth(convert, b, k, i);
  }

  ghost predicate CappedFrom(p: DeliveryPolicy, k: nat) {
    forall env, i: nat, d | SleepsFor(env, p, i, d) && i >= k :: d == Cap(p)
  }

  /** With a multiplier of at least 2 and k at least log2(cap / initial): every sleep from the k-th on is the cap,
      on every machine, if and only if there is no such sleep or the policy is safe. */
  lemma CapIsReachedExactly(p: DeliveryPolicy, k: nat)
    requires p.exponentialBackoff && Factor(p) >= 2.0 && FirstInterval(p) <= Cap(p)
    requires Doubled(FirstInterval(p), k) >= Cap(p)
    ensures CappedFrom(p, k) <==> Attempts(p) < k + 2 || Safe(p)
  {
    var b := BackoffOf(p);
    if Attempts(p) < k + 2 || Safe(p) {
      forall env, i: nat, d | SleepsFor(env, p, i, d) && i >= k ensures d == Cap(p) {
        SleepIsInterval(env, p, i, d);
        CapIsKept(env.convert, b, k, i);
      }
    } else {
      var i := UnsafeIsNegative(p);
      var last: nat := Attempts(p) - 2;
      NegativeStays(b, i, last);
      IntervalIsSlept(SMALLEST, p, last);
    }
  }

  lemma GrownExactly(convert: real -> int, b: Backoff, d: int)
    requires b.exponential && d > 0 && Product(d, b.factor) < TWO_63 as real
    ensures var e := Grown(convert, b, d);
            e as real <= Product(d, b.factor) && e <= b.cap && (e < b.cap ==> Product(d, b.factor) < e as real + 1.0)
  {
    FittingStep(convert, d, b.factor);
  }

  /** How one sleep follows from the one before it, on every machine: it is the product with the multiplier, rounded
      down, or MaxInterval where that is less. */
  lemma NextSleepExactly(env: Env, p: DeliveryPolicy, i: nat, d: int, e: int, product: real)
    requires p.exponentialBackoff && SleepsFor(env, p, i, d) && SleepsFor(env, p, i + 1, e)
    requires product == if p.multiplier > 1.0 then d as real * p.multiplier else d as real * 2.0
    requires d > 0 && product < TWO_63 as real
    ensures e as real <= product && e <= Cap(p) && (e < Cap(p) ==> product < e as real + 1.0)
  {
    ProductIsTimes(d, Factor(p));
    assert Product(d, Factor(p)) == product;
    NextIsGrown(env, p, i, d, e);
    GrownExactly(env.convert, BackoffOf(p), d);
  }

  lemma NextIsGrown(env: Env, p: DeliveryPolicy, i: nat, d: int, e: int)
    requires SleepsFor(env, p, i, d) && SleepsFor(env, p, i + 1, e)
    ensures e == Grown(env.convert, BackoffOf(p), d)
  {
    SleepIsInterval(env, p, i, d);
    SleepIsInterval(env, p, i + 1, e);
  }

  function Power(m: nat, i: nat): nat {
    if i == 0 then 1 else m * Power(m, i - 1)
  }

  function Min(a: int, b: int): int {
    if a <= b then a else b
  }

  lemma WholeStep(convert: real -> int, d: int, m: nat)
    requires d > 0 && m >= 2 && Product(d, m as real) < TWO_63 as real
    ensures Times(convert, d, m as real) == d * m
  {
    ProductIsTimes(d, m as real);
    assert (d * m) as real == d as real * m as real;
  }

  lemma PowerStep(first: int, m: nat, i: nat, cap: int)
    requires first > 0 && cap > 0 && m >= 2 && i > 0
    ensures var before := Min(first * Power(m, i - 1), cap);
            before > 0 ==> Min(before * m, cap) == Min(first * Power(m, i), cap)
  {
    var x := first * Power(m, i - 1);
    assert first * Power(m, i) == x * m;
    if x > cap {
      assert x * m >= cap * m >= cap;
    }
  }

  lemma {:induction false} WholeIntervals(convert: real -> int, b: Backoff, m: nat, i: nat)
    requires b.exponential && m >= 2 && b.factor == m as real && FitsBefore(b, i) && i > 0
    ensures Interval(convert, b, i) == Min(b.first * Power(m, i), b.cap)
  {
    MachinesAgree(convert, b, i - 1);
    var d := Interval(convert, b, i - 1);
    WholeStep(convert, d, m);
    if i > 1 {
      WholeIntervals(convert, b, m, i - 1);
      PowerStep(b.first, m, i, b.cap);
    }
  }

  /** With a whole multiplier the sleeps of a safe policy are first * m^i, up to the cap: every later sleep that a trace
      takes, and, where every attempt fails, one after each attempt but the last. */
  lemma SleepsInClosedForm(env: Env, p: DeliveryPolicy, m: nat, i: nat)
    requires p.exponentialBackoff && m >= 2 && p.multiplier == m as real && Safe(p) && i > 0
    ensures forall d | SleepsFor(env, p, i, d) :: d == Min(FirstInterval(p) * Power(m, i), Cap(p))
    ensures i < p.maxRetries < TWO_63 - 1 ==>
            SleepsFor(AllFail(env.convert), p, i, Min(FirstInterval(p) * Power(m, i), Cap(p)))
  {
    if i + 2 <= Attempts(p) {
      WholeIntervals(env.convert, BackoffOf(p), m, i);
      IntervalIsSlept(env.convert, p, i);
    }
    forall d | SleepsFor(env, p, i, d) ensures d == Interval(env.convert, BackoffOf(p), i) && i + 2 <= Attempts(p) {
      SleepIsInterval(env, p, i, d);
    }
  }

  lemma DoublingFromTwo(convert: real -> int, b: Backoff)
    requires b == Schedule(2 * SECOND, 30 * SECOND, 2.0, true)
    ensures Interval(convert, b, 1) == 4 * SECOND && Interval(convert, b, 2) == 8 * SECOND
    ensures Interval(convert, b, 3) == 16 * SECOND && Interval(convert, b, 4) == 30 * SECOND
  {
    ProductIsTimes(2 * SECOND, 2.0);
    ProductIsTimes(4 * SECOND, 2.0);
    ProductIsTimes(8 * SECOND, 2.0);
    ProductIsTimes(16 * SECOND, 2.0);
  }

  /** The service's own settings, or nothing set at all: with five retries a failing handler is called six times, after
      sleeps of 2, 4, 8, 16 and 30 seconds. */
  lemma DefaultSleeps(convert: real -> int, p: DeliveryPolicy)
    requires p.exponentialBackoff && p.maxRetries == 5 && p.initialInterval in {0, 2} && p.maxInterval in {0, 30}
    requires p.multiplier == 0.0 || p.multiplier == 2.0
    ensures Calls(WithRetrySpec(AllFail(convert), p).acts) == 6 && Sleeps(WithRetrySpec(AllFail(convert), p).acts) == 5
    ensures SleepsFor(AllFail(convert), p, 0, 2_000_000_000) && SleepsFor(AllFail(convert), p, 1, 4_000_000_000)
    ensures SleepsFor(AllFail(convert), p, 2, 8_000_000_000) && SleepsFor(AllFail(convert), p, 3, 16_000_000_000)
    ensures SleepsFor(AllFail(convert), p, 4, 30_000_000_000)
  {
    ExhaustionReportsLastError(AllFail(convert), p);
    assert BackoffOf(p) == Schedule(2 * SECOND, 30 * SECOND, 2.0, true);
    DoublingFromTwo(convert, BackoffOf(p));
    forall i: nat | i < 5 ensures SleepsFor(AllFail(convert), p, i, Interval(convert, BackoffOf(p), i)) {
      IntervalIsSlept(convert, p, i);
    }
    assert Interval(convert, BackoffOf(p), 0) == 2 * SECOND;
  }

  /** Two seconds, then a multiplier of five billion: on a machine like amd64 the second sleep is negative, so the retry
      is immediate, MaxInterval or not. */
  lemma OverflowRetriesAtOnce(p: DeliveryPolicy)
    requires p == DeliveryPolicy(1, true, 2, 30, 5_000_000_000.0, 2, false)
    ensures exists d :: d < 0 && SleepsFor(AllFail(SMALLEST), p, 1, d)
    ensures !Safe(p) && !NeverOverflows(BackoffOf(p))
  {
    SecondProductOverflows(p);
    OverflowIsNegative(BackoffOf(p), 0);
    IntervalIsSlept(SMALLEST, p, 1);
    assert Product(Interval(SMALLEST, BackoffOf(p), 0), BackoffOf(p).factor) >= TWO_63 as real;
    if NeverOverflows(BackoffOf(p)) {
      GuardIsSafe(p);
    }
  }

  lemma SecondProductOverflows(p: DeliveryPolicy)
    requires p.exponentialBackoff && p.initialInterval == 2 && p.multiplier == 5_000_000_000.0
    ensures Product(Interval(SMALLEST, BackoffOf(p), 0), BackoffOf(p).factor) >= TWO_63 as real
  {
    assert FirstInterval(p) == 2 * SECOND;
    ProductIsTimes(2 * SECOND, 5_000_000_000.0);
  }

  /** With one retry the same policy sleeps once, for its two seconds: the guard fails and nothing overflows. */
  lemma OneRetryIsSafe(p: DeliveryPolicy)
    requires p == DeliveryPolicy(1, true, 2, 30, 5_000_000_000.0, 1, false)
    ensures Safe(p) && !NeverOverflows(BackoffOf(p))
  {
    SecondProductOverflows(p);
    if NeverOverflows(BackoffOf(p)) {
      NoOverflow(SMALLEST, BackoffOf(p), 0);
    }
  }

  /** The first sleep can exceed MaxInterval: one minute under a cap of half a minute. */
  lemma FirstSleepExceedsTheCap(convert: real -> int, p: DeliveryPolicy)
    requires p == DeliveryPolicy(1, true, 60, 30, 2.0, 5, false)
    ensures SleepsFor(AllFail(convert), p, 0, 60 * SECOND) && Cap(p) == 30 * SECOND
    ensures SleepsFor(AllFail(convert), p, 1, 30 * SECOND)
  {
    assert BackoffOf(p) == Schedule(60 * SECOND, 30 * SECOND, 2.0, true);
    ProductIsTimes(60 * SECOND, 2.0);
    IntervalIsSlept(convert, p, 0);
    IntervalIsSlept(convert, p, 1);
  }
}
