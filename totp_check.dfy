/**
 * totp-check.js: shows the current code and how long it lasts, on the raw
 * clock with no offset correction.
 */
module TotpCheck {
  import opened JsMath
  import opened Wrappers
  import Otp
  import Secret
  import TotpSkew

  /** `secsLeft()` on the raw clock. */
  function SecsLeft(opts: Otp.Options, now: int): int
    requires opts.step > 0
  {
    var step := opts.step * 1000;
    Ceil(step - Rem(now, step), 1000)
  }

  /** With no offset this is totp-skew.js's secsLeft with OFFSET = 0, so it lies in [1, PERIOD]. */
  lemma SecsLeftMatchesSkew(opts: Otp.Options, now: int)
    requires opts.step > 0
    ensures SecsLeft(opts, now) == TotpSkew.SecsLeft(opts, 0, now)
    ensures now >= 0 ==> 1 <= SecsLeft(opts, now) <= opts.step
  {
    if now >= 0 { TotpSkew.SecsLeftBounds(opts, 0, now); }
  }

  datatype Readout = Readout(code: string, secsLeft: int)

  /** What `show()` computes at one clock reading. */
  function Show(hotp: Otp.Hotp, opts: Otp.Options, key: Secret.Key, now: int): (r: Readout)
    requires opts.step > 0
    ensures r.code == hotp(key, Floor(now, opts.step * 1000), opts.digits)
    ensures r.code == TotpSkew.Show(hotp, opts, 0, key, now).curr
    ensures now >= 0 ==> 1 <= r.secsLeft <= opts.step
  {
    SecsLeftMatchesSkew(opts, now);
    Readout(Otp.Generate(hotp, opts, key, now), SecsLeft(opts, now))
  }

  /** The script: load the secret, exit on an empty one, otherwise show. */
  function Run(hotp: Otp.Hotp, opts: Otp.Options, raw: Option<string>, now: int)
    : (r: Result<Readout, Secret.LoadError>)
    requires opts.step > 0
    ensures r.Err? <==> Secret.Normalize(raw) == []
    ensures r.Ok? ==> r.value == Show(hotp, opts, Secret.Normalize(raw), now)
  {
    match Secret.Load(raw)
    case Err(e) => Err(e)
    case Ok(key) => Ok(Show(hotp, opts, key, now))
  }
}
