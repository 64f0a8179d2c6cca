/**
 * The boundary with the one-time-password library. The keyed hash and the
 * dynamic truncation (section 5.3 of RFC 4226) are supplied by the caller
 * as a function value; what this module fixes is how a millisecond epoch
 * becomes the moving factor, as section 4.2 of RFC 6238 prescribes.
 */
module Otp {
  import opened JsMath

  /** An HMAC-based one-time password: (secret, counter, digits) to code. */
  type Hotp = (string, int, int) -> string

  /** The `authenticator.options` the scripts set: the period in seconds and the code length. */
  datatype Options = Options(step: int, digits: int)

  /** The time-step counter of an epoch given in milliseconds. */
  function Counter(epochMs: int, step: int): (t: int)
    requires step > 0
    ensures t * (step * 1000) <= epochMs < t * (step * 1000) + step * 1000
  {
    Floor(epochMs, step * 1000)
  }

  /** `authenticator.generate(secret, { epoch })`. */
  function Generate(hotp: Hotp, opts: Options, secret: string, epochMs: int): string
    requires opts.step > 0
  {
    hotp(secret, Counter(epochMs, opts.step), opts.digits)
  }

  /** Every epoch inside step window `k` yields the code of counter `k`. */
  lemma GenerateInWindow(hotp: Hotp, opts: Options, secret: string, epochMs: int, k: int)
    requires opts.step > 0
    requires k * (opts.step * 1000) <= epochMs < k * (opts.step * 1000) + opts.step * 1000
    ensures Counter(epochMs, opts.step) == k
    ensures Generate(hotp, opts, secret, epochMs) == hotp(secret, k, opts.digits)
  {
    FloorUnique(epochMs, opts.step * 1000, k);
  }
}
