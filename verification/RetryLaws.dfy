/** What the retry loops promise: the exact trace for every environment, and the backoff arithmetic. */
module RetryLaws {
  import opened Options
  import opened Errors
  import opened Retry

  /** Left alone, a loop checks, calls and sleeps, over and over. */
  function ActAt(delay: nat -> int, k: nat): Act {
    if k % 3 == 0 then Check(k / 3) else if k % 3 == 1 then Call(k / 3) else Sleep(k / 3, delay(k / 3))
  }

  /** The k-th act ends the loop: an observed cancellation, a success, or the last call allowed. */
  predicate Decisive(env: Env, n: int, k: nat) {
    if k % 3 == 0 then env.check(k / 3).Some?
    else if k % 3 == 1 then env.call(k / 3).None? || k / 3 == n - 1
    else env.wake(k / 3).Some?
  }

  /** What the k-th act answers. */
  function Verdict(env: Env, k: nat): Option<Error> {
    if k % 3 == 0 then env.check(k / 3) else if k % 3 == 1 then env.call(k / 3) else env.wake(k / 3)
  }

  /** The trace is the undisturbed one cut after its first decisive act, which also gives the result. */
  ghost predicate CutAtFirstDecisive(env: Env, n: int, delay: nat -> int, start: nat, o: Outcome) {
    && |o.acts| >= 1
    && var last := start + |o.acts| - 1;
       && (forall m | start <= m <= last :: o.acts[m - start] == ActAt(delay, m))
       && (forall m | start <= m < last :: !Decisive(env, n, m))
       && Decisive(env, n, last)
       && o.err == Verdict(env, last)
  }

  /** The three acts of round i. */
  lemma Round(env: Env, n: int, delay: nat -> int, i: nat)
    ensures ActAt(delay, 3 * i) == Check(i) && ActAt(delay, 3 * i + 1) == Call(i) &&
        ActAt(delay, 3 * i + 2) == Sleep(i, delay(i))
    ensures Decisive(env, n, 3 * i) <==> env.check(i).Some?
    ensures Decisive(env, n, 3 * i + 1) <==> env.call(i).None? || i == n - 1
    ensures Decisive(env, n, 3 * i + 2) <==> env.wake(i).Some?
    ensures Verdict(env, 3 * i) == env.check(i) && Verdict(env, 3 * i + 1) == env.call(i) &&
        Verdict(env, 3 * i + 2) == env.wake(i)
  {
    assert (3 * i) % 3 == 0 && (3 * i) / 3 == i;
    assert (3 * i + 1) % 3 == 1 && (3 * i + 1) / 3 == i;
    assert (3 * i + 2) % 3 == 2 && (3 * i + 2) / 3 == i;
  }

  predicate EndsInRound(env: Env, n: int, i: nat) {
    env.check(i).Some? || env.call(i).None? || i == n - 1 || env.wake(i).Some?
  }

  lemma LastRoundIsCut(env: Env, n: int, delay: nat -> int, i: nat)
    requires i < n && EndsInRound(env, n, i)
    ensures CutAtFirstDecisive(env, n, delay, 3 * i, Loop(env, n, delay, i))
  {
    Round(env, n, delay, i);
    var acts := Loop(env, n, delay, i).acts;
    forall m | 3 * i <= m < 3 * i + |acts|
        ensures acts[m - 3 * i] == ActAt(delay, m) && (m < 3 * i + |acts| - 1 ==> !Decisive(env, n, m)) {
      assert m == 3 * i || m == 3 * i + 1 || m == 3 * i + 2;
    }
  }

  lemma EarlierRoundIsCut(env: Env, n: int, delay: nat -> int, i: nat, rest: Outcome)
    requires !EndsInRound(env, n, i) && CutAtFirstDecisive(env, n, delay, 3 * (i + 1), rest)
    ensures CutAtFirstDecisive(env, n, delay, 3 * i,
        Outcome(rest.err, [Check(i), Call(i), Sleep(i, delay(i))] + rest.acts))
  {
    Round(env, n, delay, i);
    var acts := [Check(i), Call(i), Sleep(i, delay(i))] + rest.acts;
    var last := 3 * i + |acts| - 1;
    assert last == 3 * (i + 1) + |rest.acts| - 1;
    forall m | 3 * i <= m <= last ensures acts[m - 3 * i] == ActAt(delay, m) && (m < last ==> !Decisive(env, n, m)) {
      if m >= 3 * (i + 1) {
        assert acts[m - 3 * i] == rest.acts[m - 3 * (i + 1)];
      } else {
        assert m == 3 * i || m == 3 * i + 1 || m == 3 * i + 2;
      }
    }
  }

  lemma {:induction false} LoopIsCut(env: Env, n: int, delay: nat -> int, i: nat)
    requires i < n
    ensures CutAtFirstDecisive(env, n, delay, 3 * i, Loop(env, n, delay, i))
    decreases n - i
  {
    if EndsInRound(env, n, i) {
      LastRoundIsCut(env, n, delay, i);
    } else {
      LoopIsCut(env, n, delay, i + 1);
      EarlierRoundIsCut(env, n, delay, i, Loop(env, n, delay, i + 1));
    }
  }

  function Calls(acts: seq<Act>): nat {
    if acts == [] then 0 else (if acts[0].Call? then 1 else 0) + Calls(acts[1..])
  }

  function Sleeps(acts: seq<Act>): nat {
    if acts == [] then 0 else (if acts[0].Sleep? then 1 else 0) + Sleeps(acts[1..])
  }

  lemma CountFirst(a: Act, acts: seq<Act>)
    ensures Calls([a] + acts) == (if a.Call? then 1 else 0) + Calls(acts)
    ensures Sleeps([a] + acts) == (if a.Sleep? then 1 else 0) + Sleeps(acts)
  {
    assert ([a] + acts)[1..] == acts;
  }

  lemma CountRound(i: nat, d: int, rest: seq<Act>)
    ensures Calls([Check(i), Call(i), Sleep(i, d)] + rest) == 1 + Calls(rest)
    ensures Sleeps([Check(i), Call(i), Sleep(i, d)] + rest) == 1 + Sleeps(rest)
    ensures Calls([Check(i), Call(i)]) == 1 && Sleeps([Check(i), Call(i)]) == 0
  {
    assert [Check(i), Call(i), Sleep(i, d)] + rest == [Check(i)] + ([Call(i)] + ([Sleep(i, d)] + rest));
    assert [Check(i), Call(i)] == [Check(i)] + ([Call(i)] + []);
    CountFirst(Sleep(i, d), rest);
    CountFirst(Call(i), [Sleep(i, d)] + rest);
    CountFirst(Check(i), [Call(i)] + ([Sleep(i, d)] + rest));
    CountFirst(Call(i), []);
    CountFirst(Check(i), [Call(i)] + []);
  }

  lemma {:induction false} LoopCounts(env: Env, n: int, delay: nat -> int, i: nat)
    requires i < n
    ensures var acts := Loop(env, n, delay, i).acts;
            Calls(acts) <= n - i && Sleeps(acts) <= n - i - 1 &&
            Calls(acts) == (|acts| + 1) / 3 && Sleeps(acts) == |acts| / 3
    decreases n - i
  {
    var acts := Loop(env, n, delay, i).acts;
    if EndsInRound(env, n, i) {
      CountRound(i, delay(i), []);
      if |acts| == 3 {
        assert acts == [Check(i), Call(i), Sleep(i, delay(i))] + [];
      }
    } else {
      var rest := Loop(env, n, delay, i + 1).acts;
      LoopCounts(env, n, delay, i + 1);
      CountRound(i, delay(i), rest);
    }
  }

  /** An act after which the loop goes on: a live context, a failed call, or a full sleep of the right length. */
  predicate GoesOn(env: Env, delay: nat -> int, act: Act) {
    match act
    case Check(i) => env.check(i).None?
    case Call(i) => env.call(i).Some?
    case Sleep(i, d) => env.wake(i).None? && d == delay(i)
  }

  lemma EarlierActsGoOn(env: Env, n: int, delay: nat -> int, o: Outcome, k: nat)
    requires CutAtFirstDecisive(env, n, delay, 0, o) && k < |o.acts| - 1
    ensures GoesOn(env, delay, o.acts[k])
  {
    assert o.acts[k - 0] == ActAt(delay, k) && !Decisive(env, n, k);
  }

  lemma LastActDecides(env: Env, n: int, delay: nat -> int, o: Outcome)
    requires CutAtFirstDecisive(env, n, delay, 0, o)
    ensures o.err.None? <==> var act := o.acts[|o.acts| - 1]; act.Call? && env.call(act.i).None?
  {
    var last := |o.acts| - 1;
    assert o.acts[last - 0] == ActAt(delay, last) && Decisive(env, n, last);
  }

  /** The law of WithRetry, for every policy and every environment: at most max(1, MaxRetries + 1) calls; nothing at all
      after a success or an observed cancellation; nil exactly when the last thing done was a call that succeeded. */
  lemma WithRetryLaw(env: Env, p: DeliveryPolicy)
    requires -TWO_63 <= p.maxRetries < TWO_63
    ensures var o := WithRetrySpec(env, p); var last := |o.acts| - 1;
            && last >= 0
            && Calls(o.acts) <= (if p.maxRetries < 0 then 1 else p.maxRetries + 1)
            && (forall k | 0 <= k < last :: GoesOn(env, Delays(env.convert, p), o.acts[k]))
            && (o.err.None? <==> o.acts[last].Call? && env.call(o.acts[last].i).None?)
  {
    var o := WithRetrySpec(env, p);
    LoopIsCut(env, Attempts(p), Delays(env.convert, p), 0);
    assert CutAtFirstDecisive(env, Attempts(p), Delays(env.convert, p), 0, o);
    LoopCounts(env, Attempts(p), Delays(env.convert, p), 0);
    LastActDecides(env, Attempts(p), Delays(env.convert, p), o);
    forall k | 0 <= k < |o.acts| - 1 ensures GoesOn(env, Delays(env.convert, p), o.acts[k]) {
      EarlierActsGoOn(env, Attempts(p), Delays(env.convert, p), o, k);
    }
  }

  /** The context is never seen cancelled and no attempt succeeds. */
  ghost predicate NeverEnds(env: Env, n: int) {
    && (forall i: nat | i < n :: env.check(i).None? && env.call(i).Some?)
    && (forall i: nat | i < n - 1 :: env.wake(i).None?)
  }

  lemma OnlyTheLastCallEnds(env: Env, n: int, k: nat)
    requires NeverEnds(env, n) && k <= 3 * n - 2 && Decisive(env, n, k)
    ensures k == 3 * n - 2 && Verdict(env, k) == env.call(n - 1)
  {
    assert k == 3 * (k / 3) + k % 3;
    assert k / 3 < n;
  }

  /** Either helper's loop. */
  lemma LoopExhausts(env: Env, n: int, delay: nat -> int)
    requires n > 0 && NeverEnds(env, n)
    ensures var o := Loop(env, n, delay, 0);
            Calls(o.acts) == n && Sleeps(o.acts) == n - 1 && o.err == env.call(n - 1)
  {
    var o := Loop(env, n, delay, 0);
    LoopIsCut(env, n, delay, 0);
    assert CutAtFirstDecisive(env, n, delay, 0, o);
    LoopCounts(env, n, delay, 0);
    OnlyTheLastCallEnds(env, n, |o.acts| - 1);
  }

  lemma SleepsAreDelays(env: Env, n: int, delay: nat -> int, k: nat)
    requires n > 0 && k < |Loop(env, n, delay, 0).acts| && Loop(env, n, delay, 0).acts[k].Sleep?
    ensures var act := Loop(env, n, delay, 0).acts[k]; act.duration == delay(act.i)
  {
    LoopIsCut(env, n, delay, 0);
    assert Loop(env, n, delay, 0).acts[k - 0] == ActAt(delay, k);
  }

  /** One more than MaxRetries, and one for a MaxRetries below zero or too large to be counted up. */
  lemma AttemptsFromRetries(p: DeliveryPolicy)
    requires -TWO_63 <= p.maxRetries < TWO_63
    ensures Attempts(p) == if 0 <= p.maxRetries < TWO_63 - 1 then p.maxRetries + 1 else 1
  {
  }

  /** Uncancelled and never succeeding, the loop uses all its attempts, MaxRetries and one more or one in all, sleeps
      once less, and reports the last error. */
  lemma ExhaustionReportsLastError(env: Env, p: DeliveryPolicy)
    requires NeverEnds(env, Attempts(p)) && -TWO_63 <= p.maxRetries < TWO_63
    ensures var o := WithRetrySpec(env, p); var n := if 0 <= p.maxRetries < TWO_63 - 1 then p.maxRetries + 1 else 1;
            Calls(o.acts) == n && Sleeps(o.acts) == n - 1 && o.err == env.call(n - 1)
  {
    LoopExhausts(env, Attempts(p), Delays(env.convert, p));
    AttemptsFromRetries(p);
  }

  /** The law of Do: at most max(1, MaxAttempts) calls, and exactly so many when every one fails uncancelled; every
      sleep is the configured delay, or 200 ms when none is; nil exactly when the last thing done was a call that
      succeeded. */
  lemma DoLaw(env: Env, c: Config)
    ensures var o := DoSpec(env, c);
            var n, last := if c.maxAttempts > 1 then c.maxAttempts else 1, |o.acts| - 1;
            && last >= 0 && Calls(o.acts) <= n
            && (NeverEnds(env, n) ==> Calls(o.acts) == n && Sleeps(o.acts) == n - 1 && o.err == env.call(n - 1))
            && (forall k | 0 <= k <= last && o.acts[k].Sleep? ::
                o.acts[k].duration == if c.delay > 0 then c.delay else 200_000_000)
            && (o.err.None? <==> o.acts[last].Call? && env.call(o.acts[last].i).None?)
  {
    var o, n := DoSpec(env, c), if c.maxAttempts > 1 then c.maxAttempts else 1;
    var delay: nat -> int := _ => DoDelay(c);
    assert o == Loop(env, n, delay, 0);
    LoopIsCut(env, n, delay, 0);
    LoopCounts(env, n, delay, 0);
    LastActDecides(env, n, delay, o);
    forall k | 0 <= k < |o.acts| && o.acts[k].Sleep? ensures o.acts[k].duration == DoDelay(c) {
      SleepsAreDelays(env, n, delay, k);
    }
    if NeverEnds(env, n) {
      LoopExhausts(env, n, delay);
    }
  }

  lemma {:induction false} SameDelaysSameLoop(env: Env, n: int, d: nat -> int, d': nat -> int, i: nat)
    requires i < n && forall j: nat :: d(j) == d'(j)
    ensures Loop(env, n, d, i) == Loop(env, n, d', i)
    decreases n - i
  {
    if !EndsInRound(env, n, i) {
      SameDelaysSameLoop(env, n, d, d', i + 1);
    }
  }

  lemma {:induction false} FixedIntervals(convert: real -> int, b: Backoff, i: nat)
    requires !b.exponential
    ensures Interval(convert, b, i) == b.first
  {
    if i > 0 {
      FixedIntervals(convert, b, i - 1);
    }
  }

  /** Without exponential backoff the two helpers do the same, act by act, in every environment. */
  lemma FixedBackoffIsDo(env: Env, p: DeliveryPolicy, c: Config)
    requires !p.exponentialBackoff && Wrap64(p.initialInterval * SECOND) > 0
    requires c == Config(Wrap64(p.maxRetries + 1), Wrap64(p.initialInterval * SECOND))
    ensures WithRetrySpec(env, p) == DoSpec(env, c)
  {
    forall j: nat ensures Delays(env.convert, p)(j) == DoDelay(c) {
      FixedIntervals(env.convert, BackoffOf(p), j);
    }
    SameDelaysSameLoop(env, Attempts(p), Delays(env.convert, p), _ => DoDelay(c), 0);
  }

  /** Which sleeps respect MaxInterval: with exponential backoff all but the first, which does when the initial
      interval does; with fixed backoff none is clamped. */
  lemma {:induction false} SleepsWithinCap(convert: real -> int, b: Backoff, i: nat)
    ensures Interval(convert, b, i) <= b.cap <==> (b.exponential && i > 0) || b.first <= b.cap
  {
    if !b.exponential {
      FixedIntervals(convert, b, i);
    }
  }

  lemma {:induction false} ProductIsTimes(d: int, m: real)
    ensures Product(d, m) == d as real * m
    decreases if d >= 0 then d else -d
  {
    if d > 0 {
      ProductIsTimes(d - 1, m);
    } else if d < 0 {
      ProductIsTimes(d + 1, m);
    }
  }

  lemma {:induction false} ProductGrows(d: int, e: int, m: real)
    requires 0 <= d <= e && m >= 0.0
    ensures 0.0 <= Product(d, m) <= Product(e, m)
    decreases e
  {
    if d < e {
      ProductGrows(d, e - 1, m);
    } else if d > 0 {
      ProductGrows(d - 1, d - 1, m);
    }
  }

  /** One m more is one d more. */
  lemma {:induction false} ProductSplits(d: int, m: real)
    requires d >= 0
    ensures Product(d, m) == d as real + Product(d, m - 1.0)
  {
    if d > 0 {
      ProductSplits(d - 1, m);
    }
  }

  lemma {:induction false} ProductNegates(d: int, m: real)
    requires d >= 0
    ensures Product(-d, m) == -Product(d, m)
  {
    if d > 0 {
      ProductNegates(d - 1, m);
      assert -d + 1 == -(d - 1);
    }
  }

  /** The guard: fixed backoff, growth too slow to move an interval at all, or both products within int64. */
  ghost predicate NeverOverflows(b: Backoff) {
    || !b.exponential
    || Product(b.first, b.factor - 1.0) < 1.0
    || (Product(b.first, b.factor) < TWO_63 as real && Product(b.cap, b.factor) < TWO_63 as real)
  }

  lemma SlowGrowthStalls(convert: real -> int, d: int, top: int, m: real)
    requires 0 < d <= top < TWO_63 && m > 1.0 && Product(top, m - 1.0) < 1.0
    ensures Product(d, m) < TWO_63 as real && Times(convert, d, m) == d
  {
    ProductGrows(d, top, m - 1.0);
    ProductSplits(d, m);
  }

  lemma BoundedGrowth(convert: real -> int, d: int, top: int, m: real)
    requires 0 < d <= top && m > 1.0 && Product(top, m) < TWO_63 as real
    ensures Product(d, m) < TWO_63 as real && d <= Times(convert, d, m)
  {
    ProductGrows(d, top, m);
    ProductGrows(d, d, m - 1.0);
    ProductSplits(d, m);
  }

  /** Under the guard no conversion ever leaves int64, every sleep is positive, and no interval shrinks below the
      cap. */
  lemma {:induction false} NoOverflow(convert: real -> int, b: Backoff, i: nat)
    requires NeverOverflows(b)
    ensures var d := Interval(convert, b, i);
            && 0 < d && (d <= b.first || d <= b.cap)
            && (b.exponential ==> Product(d, b.factor) < TWO_63 as real && d <= Times(convert, d, b.factor))
  {
    var d, m := Interval(convert, b, i), b.factor;
    if i > 0 {
      NoOverflow(convert, b, i - 1);
    }
    if b.exponential {
      if Product(b.first, m - 1.0) < 1.0 {
        StallsFromTheStart(convert, b, i);
        SlowGrowthStalls(convert, d, b.first, m);
      } else if d <= b.first {
        BoundedGrowth(convert, d, b.first, m);
      } else {
        BoundedGrowth(convert, d, b.cap, m);
      }
    }
  }

  lemma {:induction false} StallsFromTheStart(convert: real -> int, b: Backoff, i: nat)
    requires b.exponential && Product(b.first, b.factor - 1.0) < 1.0
    ensures 0 < Interval(convert, b, i) <= b.first
  {
    if i > 0 {
      StallsFromTheStart(convert, b, i - 1);
      SlowGrowthStalls(convert, Interval(convert, b, i - 1), b.first, b.factor);
    }
  }

  /** A machine that turns every float out of range into the smallest int64, as amd64 does. */
  const SMALLEST: real -> int := x => -TWO_63

  lemma OverflowIsNegative(b: Backoff, i: nat)
    requires b.exponential && Product(Interval(SMALLEST, b, i), b.factor) >= TWO_63 as real
    ensures Interval(SMALLEST, b, i + 1) < 0
  {
  }

  lemma PositiveMeansFits(b: Backoff, i: nat)
    requires b.exponential && Interval(SMALLEST, b, i + 1) > 0
    ensures Product(Interval(SMALLEST, b, i), b.factor) < TWO_63 as real
  {
    if Product(Interval(SMALLEST, b, i), b.factor) >= TWO_63 as real {
      OverflowIsNegative(b, i);
    }
  }

  lemma StepUp(d: int, first: int, m: real)
    requires 0 < first <= d && m > 1.0 && Product(first, m - 1.0) >= 1.0 && Product(d, m) < TWO_63 as real
    ensures Times(SMALLEST, d, m) >= d + 1
  {
    ProductGrows(first, d, m - 1.0);
    ProductSplits(d, m);
  }

  /** While nothing overflows, an interval below the cap gains at least a nanosecond each time. */
  lemma {:induction false} GrowsToTheCap(b: Backoff, i: nat)
    requires b.exponential && Product(b.first, b.factor - 1.0) >= 1.0
    requires forall j: nat | j <= i :: 0 < Interval(SMALLEST, b, j)
    ensures Interval(SMALLEST, b, i) >= b.cap || Interval(SMALLEST, b, i) >= b.first + i
  {
    if i > 0 {
      GrowsToTheCap(b, i - 1);
      var d := Interval(SMALLEST, b, i - 1);
      assert 0 < Interval(SMALLEST, b, i - 1 + 1);
      PositiveMeansFits(b, i - 1);
      if d >= b.first {
        StepUp(d, b.first, b.factor);
      } else {
        BoundedGrowth(SMALLEST, d, d, b.factor);
      }
    }
  }

  /** Outside the guard some sleep overflows. */
  lemma OverflowsOtherwise(b: Backoff) returns (i: nat)
    requires !NeverOverflows(b)
    ensures Interval(SMALLEST, b, i) < 0
  {
    if Product(b.first, b.factor) >= TWO_63 as real {
      i := 1;
      OverflowIsNegative(b, 0);
    } else if j: nat :| j <= b.cap && Interval(SMALLEST, b, j) <= 0 {
      i := j;
      NeverZero(b, j);
    } else {
      GrowsToTheCap(b, b.cap);
      SleepsWithinCap(SMALLEST, b, b.cap);
      i := b.cap + 1;
      OverflowIsNegative(b, b.cap);
    }
  }

  lemma {:induction false} NeverZero(b: Backoff, i: nat)
    ensures Interval(SMALLEST, b, i) != 0
  {
    if i > 0 {
      NeverZero(b, i - 1);
      var d := Interval(SMALLEST, b, i - 1);
      if d > 0 {
        ProductGrows(d, d, b.factor - 1.0);
        ProductSplits(d, b.factor);
      } else {
        NegativeProduct(d, b.factor);
      }
    }
  }

  lemma NegativeProduct(d: int, m: real)
    requires d < 0 && m > 1.0
    ensures Product(d, m) <= d as real && Times(SMALLEST, d, m) < 0
  {
    ProductNegates(-d, m);
    ProductGrows(-d, -d, m - 1.0);
    ProductSplits(-d, m);
  }

  lemma {:induction false} NegativeStays(b: Backoff, i: nat, j: nat)
    requires b.exponential && Interval(SMALLEST, b, i) < 0 && j >= i
    ensures Interval(SMALLEST, b, j) < 0
    decreases j
  {
    if j > i {
      NegativeStays(b, i, j - 1);
      NegativeProduct(Interval(SMALLEST, b, j - 1), b.factor);
    }
  }

  /** Over any number of attempts, every interval is positive on every machine if and only if the guard holds. */
  lemma GuardIsExact(b: Backoff)
    ensures (forall convert: real -> int, i: nat :: 0 < Interval(convert, b, i)) <==> NeverOverflows(b)
  {
    if NeverOverflows(b) {
      forall convert: real -> int, i: nat ensures 0 < Interval(convert, b, i) {
        NoOverflow(convert, b, i);
      }
    } else {
      var i := OverflowsOtherwise(b);
      assert !(0 < Interval(SMALLEST, b, i));
    }
  }

  /** The time slept before attempt n; time.After returns at once for an interval that is not positive. */
  function TotalSleep(convert: real -> int, b: Backoff, n: nat): int {
    if n == 0 then 0
    else TotalSleep(convert, b, n - 1) + if Interval(convert, b, n - 1) > 0 then Interval(convert, b, n - 1) else 0
  }

  /** n attempts sleep n - 1 times: with exponential backoff for at most the initial interval and n - 2 caps,
      overflow or not. */
  lemma {:induction false} TotalSleepBound(convert: real -> int, b: Backoff, n: nat)
    requires n >= 2 && b.exponential
    ensures TotalSleep(convert, b, n - 1) <= b.first + (n - 2) * b.cap
  {
    if n == 2 {
      assert TotalSleep(convert, b, 1) == TotalSleep(convert, b, 0) + b.first;
    } else {
      TotalSleepBound(convert, b, n - 1);
      SleepsWithinCap(convert, b, n - 2);
      assert (n - 2) * b.cap == (n - 3) * b.cap + b.cap;
    }
  }
}
