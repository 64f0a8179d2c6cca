/**
 * The TOTP clock of index.js: the current step on the offset-corrected
 * clock, the seconds and milliseconds left in it, and the epoch of a
 * neighbouring step. `now` is the value Date.now() would return, in ms.
 */
module Clock {
  import opened JsMath
  import Otp

  /** What msToNextStep adds so that a sleeper wakes just after the rollover. */
  const GuardMs := 200

  /** `stepNow()`: floor((now + TOTP_OFFSET_MS) / (TOTP_PERIOD * 1000)). */
  function StepNow(now: int, offsetMs: int, period: int): (k: int)
    requires period > 0
    ensures k * (period * 1000) <= now + offsetMs < k * (period * 1000) + period * 1000
  {
    Floor(now + offsetMs, period * 1000)
  }

  /** The step index never goes back while the clock moves forward. */
  lemma StepNowMonotone(t1: int, t2: int, offsetMs: int, period: int)
    requires period > 0 && t1 <= t2
    ensures StepNow(t1, offsetMs, period) <= StepNow(t2, offsetMs, period)
  {
    FloorMonotone(t1 + offsetMs, t2 + offsetMs, period * 1000);
  }

  /** `secondsLeft()`: Math.ceil((step - ((now + offset) % step)) / 1000). */
  function SecondsLeft(now: int, offsetMs: int, period: int): int
    requires period > 0
  {
    Ceil(period * 1000 - Rem(now + offsetMs, period * 1000), 1000)
  }

  /**
   * On a non-negative corrected clock secondsLeft is the number of started
   * seconds until the next step boundary, between 1 and the period.
   */
  lemma SecondsLeftBounds(now: int, offsetMs: int, period: int)
    requires period > 0 && now + offsetMs >= 0
    ensures 1 <= SecondsLeft(now, offsetMs, period) <= period
    ensures var boundary := (StepNow(now, offsetMs, period) + 1) * (period * 1000);
            SecondsLeft(now, offsetMs, period) * 1000 - 1000 < boundary - (now + offsetMs)
            <= SecondsLeft(now, offsetMs, period) * 1000
  {
    var step := period * 1000;
    var x := now + offsetMs;
    var s := SecondsLeft(now, offsetMs, period);
    var remain := step - Rem(x, step);
    assert 0 < remain <= step;
    assert s * 1000 - 1000 < remain <= s * 1000;
    if s > period {
      MulMonotone(period + 1, s, 1000);
    }
    assert (StepNow(now, offsetMs, period) + 1) * step - x == remain;
  }

  /** `msToNextStep()`: the milliseconds left in the step plus the guard. */
  function MsToNextStep(now: int, offsetMs: int, period: int): int
    requires period > 0
  {
    period * 1000 - Rem(now + offsetMs, period * 1000) + GuardMs
  }

  /**
   * On a non-negative corrected clock the wait lies in [201, step + 200],
   * and waking after exactly that long lands 200 ms into the next step.
   */
  lemma MsToNextStepBounds(now: int, offsetMs: int, period: int)
    requires period > 0 && now + offsetMs >= 0
    ensures 201 <= MsToNextStep(now, offsetMs, period) <= period * 1000 + GuardMs
    ensures now + offsetMs + MsToNextStep(now, offsetMs, period)
            == (StepNow(now, offsetMs, period) + 1) * (period * 1000) + GuardMs
    ensures StepNow(now + MsToNextStep(now, offsetMs, period), offsetMs, period)
            == StepNow(now, offsetMs, period) + 1
  {
    var step := period * 1000;
    var k := StepNow(now, offsetMs, period);
    var wake := now + MsToNextStep(now, offsetMs, period);
    assert wake + offsetMs == (k + 1) * step + GuardMs;
    FloorUnique(wake + offsetMs, step, k + 1);
  }

  /**
   * Whatever the sign of the corrected clock, a sleeper that waits at least
   * msToNextStep wakes in a later step.
   */
  lemma AlignedWaitAdvancesStep(now: int, later: int, offsetMs: int, period: int)
    requires period > 0 && later >= now + MsToNextStep(now, offsetMs, period)
    ensures StepNow(later, offsetMs, period) > StepNow(now, offsetMs, period)
  {
    var step := period * 1000;
    var k := StepNow(now, offsetMs, period);
    var x := now + offsetMs;
    // a negative remainder only lengthens the wait
    assert x - Rem(x, step) >= k * step;
    assert later + offsetMs >= (k + 1) * step;
    FloorMonotone((k + 1) * step, later + offsetMs, step);
    FloorOfMultiple(k + 1, step);
  }

  /** The `base` of `genTotp(secret, stepOffset)`: the epoch starting step `stepNow() + stepOffset`. */
  function GenEpoch(now: int, offsetMs: int, period: int, stepOffset: int): int
    requires period > 0
  {
    (StepNow(now, offsetMs, period) + stepOffset) * (period * 1000)
  }

  /**
   * The epochs are whole multiples of the step, one step apart for
   * consecutive offsets, and stepOffset 0 is the start of the step that
   * contains the corrected clock.
   */
  lemma GenEpochAligned(now: int, offsetMs: int, period: int, stepOffset: int)
    requires period > 0
    ensures GenEpoch(now, offsetMs, period, stepOffset) % (period * 1000) == 0
    ensures GenEpoch(now, offsetMs, period, stepOffset + 1)
            - GenEpoch(now, offsetMs, period, stepOffset) == period * 1000
    ensures GenEpoch(now, offsetMs, period, 0) <= now + offsetMs
            < GenEpoch(now, offsetMs, period, 1)
  {
    var k := StepNow(now, offsetMs, period) + stepOffset;
    FloorOfMultiple(k, period * 1000);
    assert (k + 1) * (period * 1000) == k * (period * 1000) + period * 1000;
  }

  /** `genTotp(secret, stepOffset)`; index.js never calls it. */
  function GenTotp(hotp: Otp.Hotp, opts: Otp.Options, secret: string, now: int, offsetMs: int,
                   stepOffset: int): string
    requires opts.step > 0
  {
    Otp.Generate(hotp, opts, secret, GenEpoch(now, offsetMs, opts.step, stepOffset))
  }

  /** genTotp produces the code of counter `stepNow() + stepOffset`. */
  lemma GenTotpCounter(hotp: Otp.Hotp, opts: Otp.Options, secret: string, now: int, offsetMs: int,
                       stepOffset: int)
    requires opts.step > 0
    ensures Otp.Counter(GenEpoch(now, offsetMs, opts.step, stepOffset), opts.step)
            == StepNow(now, offsetMs, opts.step) + stepOffset
    ensures GenTotp(hotp, opts, secret, now, offsetMs, stepOffset)
            == hotp(secret, StepNow(now, offsetMs, opts.step) + stepOffset, opts.digits)
  {
    FloorOfMultiple(StepNow(now, offsetMs, opts.step) + stepOffset, opts.step * 1000);
  }

  /**
   * A code taken from genTotp after a step-aligned wait belongs to a later
   * counter than any code taken from it before the wait began.
   */
  lemma GenTotpFreshAfterAlignedWait(opts: Otp.Options, before: int, waitStart: int, after: int,
                                     offsetMs: int)
    requires opts.step > 0 && before <= waitStart
    requires after >= waitStart + MsToNextStep(waitStart, offsetMs, opts.step)
    ensures Otp.Counter(GenEpoch(after, offsetMs, opts.step, 0), opts.step)
            > Otp.Counter(GenEpoch(before, offsetMs, opts.step, 0), opts.step)
  {
    var h: Otp.Hotp := (s, c, d) => "";
    GenTotpCounter(h, opts, "", after, offsetMs, 0);
    GenTotpCounter(h, opts, "", before, offsetMs, 0);
    StepNowMonotone(before, waitStart, offsetMs, opts.step);
    AlignedWaitAdvancesStep(waitStart, after, offsetMs, opts.step);
  }
}
