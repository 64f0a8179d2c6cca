/**
 * totp-skew.js: shows the codes of the previous, current and next step on
 * the clock corrected by TOTP_OFFSET_MS, and how long the current one lasts.
 */
module TotpSkew {
  import opened JsMath
  import opened Wrappers
  import Otp
  import Secret
  import Clock

  /** `epoch(stepOffset)`: the start, in ms, of step `curStep + stepOffset`. */
  function Epoch(opts: Otp.Options, offsetMs: int, now: int, stepOffset: int): int
    requires opts.step > 0
  {
    var stepMs := opts.step * 1000;
    var curStep := Floor(now + offsetMs, stepMs);
    (curStep + stepOffset) * stepMs
  }

  /** `secsLeft()` on the corrected clock. */
  function SecsLeft(opts: Otp.Options, offsetMs: int, now: int): int
    requires opts.step > 0
  {
    var step := opts.step * 1000;
    Ceil(step - Rem(now + offsetMs, step), 1000)
  }

  /** Every epoch is a whole multiple of the step, and consecutive offsets are one step apart. */
  lemma EpochAligned(opts: Otp.Options, offsetMs: int, now: int, stepOffset: int)
    requires opts.step > 0
    ensures Epoch(opts, offsetMs, now, stepOffset) % (opts.step * 1000) == 0
    ensures Epoch(opts, offsetMs, now, stepOffset + 1) - Epoch(opts, offsetMs, now, stepOffset)
            == opts.step * 1000
  {
    var k := Floor(now + offsetMs, opts.step * 1000) + stepOffset;
    FloorOfMultiple(k, opts.step * 1000);
    assert (k + 1) * (opts.step * 1000) == k * (opts.step * 1000) + opts.step * 1000;
  }

  /**
   * epoch(-1), epoch(0) and epoch(+1) are three consecutive step starts and
   * the corrected clock lies in the window that epoch(0) opens.
   */
  lemma ThreeWindows(opts: Otp.Options, offsetMs: int, now: int)
    requires opts.step > 0
    ensures Epoch(opts, offsetMs, now, -1) + opts.step * 1000 == Epoch(opts, offsetMs, now, 0)
    ensures Epoch(opts, offsetMs, now, 0) + opts.step * 1000 == Epoch(opts, offsetMs, now, 1)
    ensures Epoch(opts, offsetMs, now, 0) <= now + offsetMs < Epoch(opts, offsetMs, now, 1)
  {
    EpochAligned(opts, offsetMs, now, -1);
    EpochAligned(opts, offsetMs, now, 0);
  }

  /** On a non-negative corrected clock secsLeft lies between 1 and PERIOD. */
  lemma SecsLeftBounds(opts: Otp.Options, offsetMs: int, now: int)
    requires opts.step > 0
    ensures now + offsetMs >= 0 ==> 1 <= SecsLeft(opts, offsetMs, now) <= opts.step
  {
    if now + offsetMs >= 0 { Clock.SecondsLeftBounds(now, offsetMs, opts.step); }
  }

  /** This script's epoch and secsLeft agree with index.js's genTotp base and secondsLeft. */
  lemma AgreesWithIndexClock(opts: Otp.Options, offsetMs: int, now: int, stepOffset: int)
    requires opts.step > 0
    ensures Epoch(opts, offsetMs, now, stepOffset) == Clock.GenEpoch(now, offsetMs, opts.step, stepOffset)
    ensures SecsLeft(opts, offsetMs, now) == Clock.SecondsLeft(now, offsetMs, opts.step)
  {
  }

  /** One line of the display: the three codes and the seconds left. */
  datatype Readout = Readout(prev: string, curr: string, next: string, secsLeft: int)

  /** What `show()` computes, all at one clock reading. */
  function Show(hotp: Otp.Hotp, opts: Otp.Options, offsetMs: int, key: Secret.Key, now: int): (r: Readout)
    requires opts.step > 0
    ensures var k := Floor(now + offsetMs, opts.step * 1000);
            && r.prev == hotp(key, k - 1, opts.digits)
            && r.curr == hotp(key, k, opts.digits)
            && r.next == hotp(key, k + 1, opts.digits)
    ensures now + offsetMs >= 0 ==> 1 <= r.secsLeft <= opts.step
  {
    var k := Floor(now + offsetMs, opts.step * 1000);
    FloorOfMultiple(k - 1, opts.step * 1000);
    FloorOfMultiple(k, opts.step * 1000);
    FloorOfMultiple(k + 1, opts.step * 1000);
    SecsLeftBounds(opts, offsetMs, now);
    Readout(Otp.Generate(hotp, opts, key, Epoch(opts, offsetMs, now, -1)),
            Otp.Generate(hotp, opts, key, Epoch(opts, offsetMs, now, 0)),
            Otp.Generate(hotp, opts, key, Epoch(opts, offsetMs, now, 1)),
            SecsLeft(opts, offsetMs, now))
  }

  /** The script: load the secret, exit on an empty one, otherwise show. */
  function Run(hotp: Otp.Hotp, opts: Otp.Options, offsetMs: int, raw: Option<string>, now: int)
    : (r: Result<Readout, Secret.LoadError>)
    requires opts.step > 0
    ensures r.Err? <==> Secret.Normalize(raw) == []
    ensures r.Ok? ==> r.value == Show(hotp, opts, offsetMs, Secret.Normalize(raw), now)
  {
    match Secret.Load(raw)
    case Err(e) => Err(e)
    case Ok(key) => Ok(Show(hotp, opts, offsetMs, key, now))
  }
}
