/**
 * get-totp.js: the code generator the login flow imports. Its secret is
 * loaded when the module is first required; an empty one ends the process
 * before getTotp can ever be called, which the Key type records.
 */
module GetTotp {
  import opened JsMath
  import Otp
  import Secret
  import Clock

  /** `secsLeft()` on the raw clock (defined, never called in the file). */
  function SecsLeft(opts: Otp.Options, now: int): int
    requires opts.step > 0
  {
    var step := opts.step * 1000;
    Ceil(step - Rem(now, step), 1000)
  }

  /** On a non-negative clock secsLeft lies between 1 and PERIOD. */
  lemma SecsLeftBounds(opts: Otp.Options, now: int)
    requires opts.step > 0 && now >= 0
    ensures 1 <= SecsLeft(opts, now) <= opts.step
  {
    Clock.SecondsLeftBounds(now, 0, opts.step);
  }

  /** `getTotp()`: `authenticator.generate(secret)`, which reads Date.now() itself. */
  function GetTotp(hotp: Otp.Hotp, opts: Otp.Options, key: Secret.Key, now: int): string
    requires opts.step > 0
  {
    Otp.Generate(hotp, opts, key, now)
  }

  /**
   * getTotp is index.js's genTotp(secret, 0) on a clock that ignores the
   * offset: whatever TOTP_OFFSET_MS says, the counter is the raw step.
   */
  lemma GetTotpIgnoresOffset(hotp: Otp.Hotp, opts: Otp.Options, key: Secret.Key, now: int, offsetMs: int)
    requires opts.step > 0
    ensures GetTotp(hotp, opts, key, now) == Clock.GenTotp(hotp, opts, key, now - offsetMs, offsetMs, 0)
    ensures GetTotp(hotp, opts, key, now) == hotp(key, Floor(now, opts.step * 1000), opts.digits)
  {
    Clock.GenTotpCounter(hotp, opts, key, now - offsetMs, offsetMs, 0);
  }

  /** Two readings inside the same raw step yield the same code. */
  lemma GetTotpConstantInStep(hotp: Otp.Hotp, opts: Otp.Options, key: Secret.Key, t1: int, t2: int)
    requires opts.step > 0
    requires Floor(t1, opts.step * 1000) == Floor(t2, opts.step * 1000)
    ensures GetTotp(hotp, opts, key, t1) == GetTotp(hotp, opts, key, t2)
  {
  }
}
