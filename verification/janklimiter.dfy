/**
 * The fixed-interval limiter (janklimiter.go): it remembers when the last
 * request went out and, before the next one, sleeps for whatever is left of
 * the interval `1000 / rate` milliseconds.
 *
 * Time is an integer number of nanoseconds since Go's zero `time.Time`, which
 * is what a fresh limiter holds as its last request. The clock reading and
 * the time the sleep overshoots by are parameters of `Wait`.
 */
module JankLimiter {

  const Millisecond: int := 1_000_000

  /** The largest and smallest `time.Duration` (a signed 64-bit count of nanoseconds). */
  const MaxDuration: int := 0x7FFF_FFFF_FFFF_FFFF
  const MinDuration: int := -0x8000_0000_0000_0000

  /**
   * `1000.0 / rate` in whole milliseconds. The constant 1000.0 takes the
   * integer type of `rate`, so this is Go's integer division, which truncates
   * toward zero (Dafny's `/` is Euclidean); a rate of 0 makes Go panic.
   */
  function Millis(rate: int): (q: int)
    requires rate != 0
    ensures rate > 0 ==> 0 <= q <= 1000
    ensures rate > 1000 ==> q == 0
    ensures 0 < rate <= 1000 ==> q >= 1
    ensures rate < 0 ==> -1000 <= q <= 0
  {
    if rate > 0 then 1000 / rate else -(1000 / -rate)
  }

  /** The quotient is the whole number of times `rate` fits in 1000, and its sign follows `rate`. */
  lemma MillisTruncates(rate: int)
    requires rate != 0
    ensures rate > 0 ==> Millis(rate) * rate <= 1000 < (Millis(rate) + 1) * rate
    ensures Millis(-rate) == -Millis(rate)
  {
    var r := if rate > 0 then rate else -rate;
    var q := 1000 / r;
    var m := 1000 % r;
    assert 1000 == q * r + m && 0 <= m < r;
    assert (q + 1) * r == q * r + r;
  }

  /** The spacing demanded at `rate` requests per second. */
  function Interval(rate: int): (d: int)
    requires rate != 0
    ensures rate > 0 ==> 0 <= d <= 1000 * Millisecond
    ensures 0 < rate <= 1000 ==> d >= Millisecond
    ensures rate > 1000 ==> d == 0
    ensures rate < 0 ==> d <= 0
  {
    Millis(rate) * Millisecond
  }

  /** `time.Since(last)` read at `now`: the difference, saturated to the range of a Duration. */
  function Since(last: int, now: int): (d: int)
    ensures MinDuration <= d <= MaxDuration
    ensures MinDuration <= now - last <= MaxDuration ==> d == now - last
    ensures now - last > MaxDuration ==> d == MaxDuration
  {
    if now - last > MaxDuration then MaxDuration
    else if now - last < MinDuration then MinDuration
    else now - last
  }

  /** How long `wait` sleeps: the rest of the interval, or nothing once it has passed. */
  function SleepFor(interval: int, elapsed: int): (d: int)
    ensures d >= 0
    ensures elapsed < interval ==> elapsed + d == interval
    ensures elapsed >= interval ==> d == 0
  {
    if elapsed < interval then interval - elapsed else 0
  }

  /** The time `wait` records when called at `now` after a request at `last`. */
  function Recorded(last: int, now: int, rate: int, overshoot: nat): int
    requires rate != 0
  {
    now + SleepFor(Interval(rate), Since(last, now)) + overshoot
  }

  /**
   * The limiter's promise: with a clock that does not run backwards, the time
   * recorded by a wait is at least one interval after the previous request.
   */
  lemma SpacedByInterval(last: int, now: int, rate: int, overshoot: nat)
    requires rate != 0
    requires last <= now
    ensures Recorded(last, now, rate, overshoot) - last >= Interval(rate)
    ensures Recorded(last, now, rate, overshoot) >= now
  {
    var elapsed := Since(last, now);
    if now - last > MaxDuration {
      assert Interval(rate) <= 1000 * Millisecond < elapsed;
    }
  }

  /** A wait that finds the interval already over does not sleep. */
  lemma NoSleepWhenIdle(last: int, now: int, rate: int, overshoot: nat)
    requires rate != 0
    requires last <= now && now - last >= Interval(rate)
    ensures Recorded(last, now, rate, overshoot) == now + overshoot
  {
    if now - last > MaxDuration {
      assert Interval(rate) <= 1000 * Millisecond < Since(last, now);
    }
  }

  class Limiter {
    var rateLimit: int
    var stashTabRateLimit: int
    /** Nanoseconds since Go's zero time at which the last request was let through. */
    var lastRequest: int

    /** newJankLimiter: both rates stored, no request seen yet (the zero time). */
    constructor (rateLimit: int, stashTabRateLimit: int)
      ensures this.rateLimit == rateLimit && this.stashTabRateLimit == stashTabRateLimit
      ensures lastRequest == 0
    {
      this.rateLimit := rateLimit;
      this.stashTabRateLimit := stashTabRateLimit;
      lastRequest := 0;
    }

    /**
     * wait(rate) called when the clock reads `now`: sleeps `slept` nanoseconds,
     * then records the clock, which has moved on by the sleep and by the
     * scheduler's `overshoot`. Only `lastRequest` changes.
     */
    method Wait(rate: int, now: int, overshoot: nat) returns (slept: int)
      requires rate != 0
      modifies this`lastRequest
      ensures slept >= 0
      ensures Since(old(lastRequest), now) < Interval(rate) ==> Since(old(lastRequest), now) + slept == Interval(rate)
      ensures Since(old(lastRequest), now) >= Interval(rate) ==> slept == 0
      ensures lastRequest == now + slept + overshoot == Recorded(old(lastRequest), now, rate, overshoot)
    {
      var interval := Millis(rate) * Millisecond;
      var elapsed := Since(lastRequest, now);
      slept := 0;
      if elapsed < interval {
        slept := interval - elapsed;
      }
      lastRequest := now + slept + overshoot;
    }
  }
}
