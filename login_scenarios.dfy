/**
 * Particular pages and clocks for the login flow of index.js, worked out in
 * full: a site that rejects every code, the retry after a step-aligned wait
 * when TOTP_OFFSET_MS is not zero, and an error page with no form on it.
 */
module LoginScenarios {
  import opened Wrappers
  import opened PageState
  import opened Login
  import Otp
  import Secret
  import Clock
  import GetTotp
  import JsMath
  import LoginFacts

  /** A 2FA page whose first scope holds the OTP field and the "código inválido" text. */
  predicate RejectingPage(p: Page) {
    |p.scopes| > 0 && IsOtpScope(p.scopes[0]) && p.scopes[0].invalidCode
  }

  /** One attempt on a rejecting page: one code typed, one rejection, and a wait unless it was the last try. */
  lemma RejectedOnce(cfg: Config, hotp: Otp.Hotp, env: Env, attempt: int, at: nat, events: seq<Event>)
    requires cfg.period > 0 && attempt <= cfg.tries
    requires RejectingPage(env(at + 1).page) && RejectingPage(env(at + 2).page)
    ensures var r := Attempt(cfg, hotp, env, 0, attempt, at, events);
      && r.Next?
      && CountTyped(r.events) == CountTyped(events) + 1
      && CountWaits(r.events) == CountWaits(events) + (if attempt < cfg.tries then 1 else 0)
      && r.at == at + (if attempt < cfg.tries then 4 else 3)
  {
    var code := GetTotp.GetTotp(hotp, OtpOptions(cfg), cfg.secret, env(at).now);
    assert !Authenticated(env(at + 1).page) by {
      assert IsOtpScope(env(at + 1).page.scopes[0]);
    }
    LoginFacts.CountSnoc(events, Typed(code));
    LoginFacts.CountSnoc(events + [Typed(code)], Rejected);
    if attempt < cfg.tries {
      var w := Clock.MsToNextStep(env(at + 3).now, cfg.offsetMs, cfg.period);
      LoginFacts.CountSnoc(events + [Typed(code)] + [Rejected], AlignedWait(w));
    }
  }

  /** What is left of a run on a rejecting page from attempt number `attempt` on. */
  predicate RejectedFrom(cfg: Config, attempt: int, at: nat, events: seq<Event>, r: TwoFactorRun) {
    && r.outcome == Failure(TwoFactorFailed)
    && r.log.otpFound
    && CountTyped(r.log.events) == CountTyped(events) + (cfg.tries - attempt + 1)
    && CountWaits(r.log.events) == CountWaits(events) + (if attempt <= cfg.tries then cfg.tries - attempt else 0)
    && r.next == (if attempt <= cfg.tries then at + 4 * (cfg.tries - attempt) + 3 else at)
  }

  lemma RejectedFromEarlier(cfg: Config, attempt: int, at: nat, events: seq<Event>, at': nat,
                            events': seq<Event>, r: TwoFactorRun)
    requires attempt <= cfg.tries
    requires CountTyped(events') == CountTyped(events) + 1
    requires CountWaits(events') == CountWaits(events) + (if attempt < cfg.tries then 1 else 0)
    requires at' == at + (if attempt < cfg.tries then 4 else 3)
    requires RejectedFrom(cfg, attempt + 1, at', events', r)
    ensures RejectedFrom(cfg, attempt, at, events, r)
  {
  }

  lemma {:induction false} AttemptsAlwaysRejected(cfg: Config, hotp: Otp.Hotp, env: Env, p: Page,
                                                  attempt: int, at: nat, events: seq<Event>)
    requires cfg.period > 0 && 1 <= attempt <= cfg.tries + 1
    requires RejectingPage(p) && forall i :: env(i).page == p
    ensures RejectedFrom(cfg, attempt, at, events, Attempts(cfg, hotp, env, 0, attempt, at, events))
    decreases cfg.tries - attempt + 1
  {
    if attempt <= cfg.tries {
      RejectedOnce(cfg, hotp, env, attempt, at, events);
      var e := Attempt(cfg, hotp, env, 0, attempt, at, events);
      AttemptsAlwaysRejected(cfg, hotp, env, p, attempt + 1, e.at, e.events);
      RejectedFromEarlier(cfg, attempt, at, events, e.at, e.events,
                          Attempts(cfg, hotp, env, 0, attempt + 1, e.at, e.events));
    }
  }

  /**
   * A site that answers every code with "código inválido": solve2FA makes all
   * TOTP_TRIES attempts, waits for the next step between consecutive ones
   * only, and then throws.
   */
  lemma AlwaysRejectedExhaustsTries(cfg: Config, hotp: Otp.Hotp, env: Env, p: Page, at: nat)
    requires cfg.period > 0
    requires RejectingPage(p) && forall i :: env(i).page == p
    ensures var r := TwoFactor(cfg, hotp, env, at);
      && r.outcome == Failure(TwoFactorFailed)
      && r.log.otpFound
      && CountTyped(r.log.events) == Max0(cfg.tries)
      && CountWaits(r.log.events) == Max0(cfg.tries - 1)
      && r.next == at + 1 + Max0(4 * cfg.tries - 1)
  {
    assert IsOtpScope(env(at).page.scopes[0]);
    if cfg.tries >= 1 {
      AttemptsAlwaysRejected(cfg, hotp, env, p, 1, at + 1, []);
    }
  }

  /** The configuration of the stale retry: a 30 s step, two tries, a clock 15 s behind. */
  const StaleCfg := Config(Some("https://eproc.example"), 30, 6, 2, 15000, "A")

  const StaleScope := Scope(false, false, false, false, false, true, false, false, [], [], true, false)

  /**
   * The OTP page keeps rejecting; the raw clock reads 0 until solve2FA has
   * slept the step-aligned wait, and 15200 ms later afterwards.
   */
  function StaleEnv(i: nat): Obs {
    Obs(Page([StaleScope], false, false), if i < 5 then 0 else 15200)
  }

  /**
   * As written, with TOTP_OFFSET_MS = 15000 the wait ends exactly in the next
   * step of the corrected clock, yet the code retyped after it is the same
   * code of counter 0 again, because getTotp() reads the uncorrected clock;
   * genTotp(), which applies the offset, would have produced counter 1.
   */
  lemma StaleRetry(hotp: Otp.Hotp)
    ensures TwoFactor(StaleCfg, hotp, StaleEnv, 0).log.events
            == [Typed(hotp("A", 0, 6)), Rejected, AlignedWait(15200), Typed(hotp("A", 0, 6)), Rejected]
    ensures StaleEnv(5).now == StaleEnv(4).now + Clock.MsToNextStep(StaleEnv(4).now, 15000, 30)
    ensures Clock.StepNow(StaleEnv(5).now, 15000, 30) == Clock.StepNow(StaleEnv(1).now, 15000, 30) + 1
    ensures Clock.GenTotp(hotp, OtpOptions(StaleCfg), "A", StaleEnv(5).now, 15000, 0) == hotp("A", 1, 6)
  {
    var opts := OtpOptions(StaleCfg);
    JsMath.FloorUnique(0, 30000, 0);
    JsMath.FloorUnique(15200, 30000, 0);
    JsMath.FloorUnique(30200, 30000, 1);
    assert Clock.MsToNextStep(0, 15000, 30) == 15200;
    assert GetTotp.GetTotp(hotp, opts, "A", 0) == hotp("A", 0, 6);
    assert GetTotp.GetTotp(hotp, opts, "A", 15200) == hotp("A", 0, 6);
    Clock.GenTotpCounter(hotp, opts, "A", 15200, 15000, 0);
    var page := Page([StaleScope], false, false);
    assert !Authenticated(page) by {
      assert IsOtpScope(page.scopes[0]);
    }
    assert First(page.scopes, IsOtpScope) == Some(0);
    var e1 := [Typed(hotp("A", 0, 6)), Rejected, AlignedWait(15200)];
    assert Attempt(StaleCfg, hotp, StaleEnv, 0, 1, 1, []) == Next(5, e1);
    assert Attempt(StaleCfg, hotp, StaleEnv, 0, 2, 5, e1) == Next(8, e1 + [Typed(hotp("A", 0, 6)), Rejected]);
  }

  /**
   * Without an offset the two clocks coincide: the code getTotp gives after
   * a step-aligned wait is that of a later counter than the one before it.
   */
  lemma RetryFreshWithoutOffset(hotp: Otp.Hotp, opts: Otp.Options, key: Secret.Key, before: int,
                                waitStart: int, after: int)
    requires opts.step > 0 && before <= waitStart
    requires after >= waitStart + Clock.MsToNextStep(waitStart, 0, opts.step)
    ensures GetTotp.GetTotp(hotp, opts, key, before) == hotp(key, Otp.Counter(before, opts.step), opts.digits)
    ensures GetTotp.GetTotp(hotp, opts, key, after) == hotp(key, Otp.Counter(after, opts.step), opts.digits)
    ensures Otp.Counter(after, opts.step) > Otp.Counter(before, opts.step)
  {
    Clock.GenTotpFreshAfterAlignedWait(opts, before, waitStart, after, 0);
    GetTotp.GetTotpIgnoresOffset(hotp, opts, key, before, 0);
    GetTotp.GetTotpIgnoresOffset(hotp, opts, key, after, 0);
    Clock.GenTotpCounter(hotp, opts, key, before, 0, 0);
    Clock.GenTotpCounter(hotp, opts, key, after, 0, 0);
  }

  /**
   * A login form inside a frame: the user name is typed, then
   * `ctx.keyboard.press('Tab')` throws on the frame, so performLogin ends in
   * its first round, before the password, solve2FA or any session save.
   */
  lemma FrameLoginFails(cfg: Config, hotp: Otp.Hotp, env: Env)
    requires cfg.period > 0 && BaseUrlSet(cfg)
    requires var ctx := First(env(0).page.scopes, IsLoginScope);
      ctx.Some? && ctx.value != 0 && CanFillUser(env(0).page.scopes[ctx.value])
    ensures Login.Login(cfg, hotp, env) == LoginRun(Failure(TabInFrame), 1, LoginLog(1, 0, [FrameForm], [], 0))
  {
    assert CredentialStep(env(0).page.scopes) == FrameForm;
    assert Round(cfg, hotp, env, 0, NoLog) == Finished(LoginRun(Failure(TabInFrame), 1, LoginLog(1, 0, [FrameForm], [], 0)));
  }

  /** A page that shows an error text and nothing else: its one scope, the main page, holds no field. */
  const ErrorPage := Page([Scope(false, false, false, false, false, false, false, false, [], [], false, false)], false, true)

  /**
   * An error page is not a final state of the flow: performLogin finds no
   * form and no OTP field, is never told it is authenticated, and only
   * gives up after its three rounds, with nothing typed and nothing saved.
   */
  lemma ErrorPageExhaustsRounds(cfg: Config, hotp: Otp.Hotp, env: Env)
    requires cfg.period > 0 && BaseUrlSet(cfg)
    requires forall i :: env(i).page == ErrorPage
    ensures Login.Login(cfg, hotp, env)
            == LoginRun(Failure(LoginFailed), 9,
                        LoginLog(3, 0, [NoForm, NoForm, NoForm],
                                 [TwoFactorRun(Success, 2, TwoFactorLog(false, [])),
                                  TwoFactorRun(Success, 5, TwoFactorLog(false, [])),
                                  TwoFactorRun(Success, 8, TwoFactorLog(false, []))], 0))
  {
    var t := TwoFactorLog(false, []);
    var t1, t2, t3 := TwoFactorRun(Success, 2, t), TwoFactorRun(Success, 5, t), TwoFactorRun(Success, 8, t);
    assert CredentialStep(ErrorPage.scopes) == NoForm;
    assert First(ErrorPage.scopes, IsOtpScope).None?;
    assert !Authenticated(ErrorPage);
    assert Round(cfg, hotp, env, 0, NoLog) == Again(3, LoginLog(1, 0, [NoForm], [t1], 0));
    assert Round(cfg, hotp, env, 3, LoginLog(1, 0, [NoForm], [t1], 0))
        == Again(6, LoginLog(2, 0, [NoForm, NoForm], [t1, t2], 0));
    assert Round(cfg, hotp, env, 6, LoginLog(2, 0, [NoForm, NoForm], [t1, t2], 0))
        == Again(9, LoginLog(3, 0, [NoForm, NoForm, NoForm], [t1, t2, t3], 0));
  }
}
