/** pkg/messaging.WithRetry and pkg/retry.Do: two retry loops over an environment that decides, attempt by attempt,
    whether the context is cancelled, what the function answers and whether the sleep is cut short. */
module Retry {
  import opened Options
  import opened Errors

  const SECOND: int := 1_000_000_000
  const MILLISECOND: int := 1_000_000
  const TWO_63: int := 0x8000_0000_0000_0000
  const TWO_64: int := 0x1_0000_0000_0000_0000

  /** Go's 64-bit wrap-around. */
  function Wrap64(x: int): (r: int)
    ensures -TWO_63 <= r < TWO_63
    ensures -TWO_63 <= x < TWO_63 ==> r == x
  {
    (x + TWO_63) % TWO_64 - TWO_63
  }

  /** Intervals in seconds; the multiplier is exact here, a float64 in the service. */
  datatype DeliveryPolicy = DeliveryPolicy(
    concurrentConsumers: int, exponentialBackoff: bool, initialInterval: int, maxInterval: int,
    multiplier: real, maxRetries: int, enableDLQ: bool)

  /** retry.Config, delay in nanoseconds. */
  datatype Config = Config(maxAttempts: int, delay: int)

  function FirstInterval(p: DeliveryPolicy): (d: int)
    ensures 0 < d < TWO_63
  {
    var d := Wrap64(p.initialInterval * SECOND);
    if d <= 0 then 2 * SECOND else d
  }

  function Cap(p: DeliveryPolicy): (d: int)
    ensures 0 < d < TWO_63
  {
    var d := Wrap64(p.maxInterval * SECOND);
    if d <= 0 then 30 * SECOND else d
  }

  function Factor(p: DeliveryPolicy): (m: real)
    ensures m > 1.0
  {
    if p.multiplier <= 1.0 then 2.0 else p.multiplier
  }

  function Attempts(p: DeliveryPolicy): (n: int)
    ensures n >= 1
  {
    var n := Wrap64(p.maxRetries + 1);
    if n < 1 then 1 else n
  }

  /** Go's conversion of a float64 to an int64: truncation toward zero; what comes of a value that an int64 cannot hold
      depends on the machine, and is given by `convert`. */
  function Converted(convert: real -> int, x: real): (r: int)
    ensures -TWO_63 <= r < TWO_63
    ensures 0.0 <= x < TWO_63 as real ==> r == x.Floor
  {
    if x < -(TWO_63 as real) || x >= TWO_63 as real then Wrap64(convert(x))
    else if x >= 0.0 then x.Floor
    else -(-x).Floor
  }

  /** d times m, by addition; RetryLaws.ProductIsTimes ties it to the operator. */
  function Product(d: int, m: real): real
    decreases if d >= 0 then d else -d
  {
    if d == 0 then 0.0 else if d > 0 then Product(d - 1, m) + m else Product(d + 1, m) - m
  }

  /** time.Duration(float64(d) * m). */
  function Times(convert: real -> int, d: int, m: real): int {
    Converted(convert, Product(d, m))
  }

  /** The numbers WithRetry works with once its fallbacks are applied, in nanoseconds. */
  datatype Schedule = Schedule(first: int, cap: int, factor: real, exponential: bool)

  type Backoff = b: Schedule | 0 < b.first < TWO_63 && 0 < b.cap < TWO_63 && b.factor > 1.0
    witness Schedule(1, 1, 2.0, true)

  function BackoffOf(p: DeliveryPolicy): Backoff {
    Schedule(FirstInterval(p), Cap(p), Factor(p), p.exponentialBackoff)
  }

  /** The interval after one more failed attempt. */
  function Grown(convert: real -> int, b: Backoff, interval: int): int {
    if b.exponential then
      var next := Times(convert, interval, b.factor);
      if next > b.cap then b.cap else next
    else interval
  }

  /** The sleep after attempt `i`; none when it is not positive. */
  function Interval(convert: real -> int, b: Backoff, i: nat): int {
    if i == 0 then b.first else Grown(convert, b, Interval(convert, b, i - 1))
  }

  function Delays(convert: real -> int, p: DeliveryPolicy): nat -> int {
    (i: nat) => Interval(convert, BackoffOf(p), i)
  }

  /** ctx.Err() before attempt i, the function's error, ctx.Err() if the context ends the sleep, and the machine's
      conversion of floats out of range. */
  datatype Env = Env(
    check: nat -> Option<Error>, call: nat -> Option<Error>, wake: nat -> Option<Error>, convert: real -> int)

  datatype Act = Check(i: nat) | Call(i: nat) | Sleep(i: nat, duration: int)

  datatype Outcome = Outcome(err: Option<Error>, acts: seq<Act>)

  /** The loop both helpers share, from attempt `i` on. */
  function Loop(env: Env, n: int, delay: nat -> int, i: nat): Outcome
    requires i < n
    decreases n - i
  {
    if env.check(i).Some? then Outcome(env.check(i), [Check(i)])
    else if env.call(i).None? || i == n - 1 then Outcome(env.call(i), [Check(i), Call(i)])
    else if env.wake(i).Some? then Outcome(env.wake(i), [Check(i), Call(i), Sleep(i, delay(i))])
    else
      var rest := Loop(env, n, delay, i + 1);
      Outcome(rest.err, [Check(i), Call(i), Sleep(i, delay(i))] + rest.acts)
  }

  function WithRetrySpec(env: Env, p: DeliveryPolicy): Outcome {
    Loop(env, Attempts(p), Delays(env.convert, p), 0)
  }

  function DoDelay(c: Config): int {
    if c.delay <= 0 then 200 * MILLISECOND else c.delay
  }

  function DoSpec(env: Env, c: Config): Outcome {
    var n := if c.maxAttempts < 1 then 1 else c.maxAttempts;
    Loop(env, n, _ => DoDelay(c), 0)
  }

  /** One more round of the loop appended to what has been done so far. */
  lemma LoopUnrolls(env: Env, n: int, delay: nat -> int, i: nat, done: seq<Act>)
    requires i < n - 1 && env.check(i).None? && env.call(i).Some? && env.wake(i).None?
    ensures Loop(env, n, delay, i).err == Loop(env, n, delay, i + 1).err
    ensures done + Loop(env, n, delay, i).acts
         == done + [Check(i), Call(i), Sleep(i, delay(i))] + Loop(env, n, delay, i + 1).acts
  {
  }

  method WithRetry(env: Env, p: DeliveryPolicy) returns (err: Option<Error>, acts: seq<Act>)
    ensures Outcome(err, acts) == WithRetrySpec(env, p)
  {
    var interval := Wrap64(p.initialInterval * SECOND);
    if interval <= 0 {
      interval := 2 * SECOND;
    }
    var maxInterval := Wrap64(p.maxInterval * SECOND);
    if maxInterval <= 0 {
      maxInterval := 30 * SECOND;
    }
    var multiplier := p.multiplier;
    if multiplier <= 1.0 {
      multiplier := 2.0;
    }
    var attempts := Wrap64(p.maxRetries + 1);
    if attempts < 1 {
      attempts := 1;
    }
    acts := [];
    var i: nat := 0;
    var lastErr: Option<Error> := None;
    ghost var delays, spec := Delays(env.convert, p), WithRetrySpec(env, p);
    while i < attempts
      invariant i < attempts && attempts == Attempts(p) && multiplier == Factor(p) && maxInterval == Cap(p)
      invariant interval == Interval(env.convert, BackoffOf(p), i)
      invariant spec.err == Loop(env, attempts, delays, i).err
      invariant spec.acts == acts + Loop(env, attempts, delays, i).acts
    {
      if env.check(i).Some? {
        return env.check(i), acts + [Check(i)];
      }
      lastErr := env.call(i);
      if lastErr.None? {
        return None, acts + [Check(i), Call(i)];
      }
      if i == attempts - 1 {
        acts := acts + [Check(i), Call(i)];
        break;
      }
      if env.wake(i).Some? {
        return env.wake(i), acts + [Check(i), Call(i), Sleep(i, interval)];
      }
      LoopUnrolls(env, attempts, delays, i, acts);
      acts := acts + [Check(i), Call(i), Sleep(i, interval)];
      if p.exponentialBackoff {
        interval := Times(env.convert, interval, multiplier);
        if interval > maxInterval {
          interval := maxInterval;
        }
      }
      i := i + 1;
    }
    return lastErr, acts;
  }

  method Do(env: Env, c: Config) returns (err: Option<Error>, acts: seq<Act>)
    ensures Outcome(err, acts) == DoSpec(env, c)
  {
    var attempts := c.maxAttempts;
    if attempts < 1 {
      attempts := 1;
    }
    var delay := c.delay;
    if delay <= 0 {
      delay := 200 * MILLISECOND;
    }
    acts := [];
    var i: nat := 0;
    var lastErr: Option<Error> := None;
    ghost var delays: nat -> int := _ => DoDelay(c);
    ghost var spec := Loop(env, attempts, delays, 0);
    while i < attempts
      invariant i < attempts && delay == DoDelay(c)
      invariant spec.err == Loop(env, attempts, delays, i).err
      invariant spec.acts == acts + Loop(env, attempts, delays, i).acts
    {
      if env.check(i).Some? {
        return env.check(i), acts + [Check(i)];
      }
      lastErr := env.call(i);
      if lastErr.None? {
        return None, acts + [Check(i), Call(i)];
      }
      if i == attempts - 1 {
        acts := acts + [Check(i), Call(i)];
        break;
      }
      if env.wake(i).Some? {
        return env.wake(i), acts + [Check(i), Call(i), Sleep(i, delay)];
      }
      LoopUnrolls(env, attempts, delays, i, acts);
      acts := acts + [Check(i), Call(i), Sleep(i, delay)];
      i := i + 1;
    }
    return lastErr, acts;
  }
}
