/**
 * What the login flow of index.js guarantees, proved about the reference
 * functions that Login.Solve2FA and Login.PerformLogin are shown to compute.
 */
module LoginFacts {
  import opened PageState
  import opened Login
  import Otp
  import Clock
  import GetTotp

  /** Appending one event counts it as a typed code or a wait, according to its kind. */
  lemma CountSnoc(evs: seq<Event>, e: Event)
    ensures CountTyped(evs + [e]) == CountTyped(evs) + (if e.Typed? then 1 else 0)
    ensures CountWaits(evs + [e]) == CountWaits(evs) + (if e.AlignedWait? then 1 else 0)
  {
    assert (evs + [e])[..|evs|] == evs;
  }

  /** Appending an event other than Accepted or a wait keeps the bookkeeping and counts it. */
  lemma AppendPlain(evs: seq<Event>, e: Event)
    requires !e.Accepted? && !e.AlignedWait?
    requires WaitsFollowRejections(evs) && NoAccepted(evs)
    ensures WaitsFollowRejections(evs + [e]) && NoAccepted(evs + [e])
    ensures CountTyped(evs + [e]) == CountTyped(evs) + (if e.Typed? then 1 else 0)
    ensures CountWaits(evs + [e]) == CountWaits(evs)
  {
    CountSnoc(evs, e);
    assert (evs + [e])[..|evs|] == evs;
  }

  /** A wait appended right after a rejection keeps the bookkeeping and counts one wait. */
  lemma AppendWait(evs: seq<Event>, ms: int)
    requires evs != [] && evs[|evs| - 1] == Rejected
    requires WaitsFollowRejections(evs) && NoAccepted(evs)
    ensures WaitsFollowRejections(evs + [AlignedWait(ms)]) && NoAccepted(evs + [AlignedWait(ms)])
    ensures CountTyped(evs + [AlignedWait(ms)]) == CountTyped(evs)
    ensures CountWaits(evs + [AlignedWait(ms)]) == CountWaits(evs) + 1
  {
    CountSnoc(evs, AlignedWait(ms));
    assert (evs + [AlignedWait(ms)])[..|evs|] == evs;
  }

  /** Appending the acceptance marks the end of a successful run. */
  lemma AppendAccepted(evs: seq<Event>)
    requires WaitsFollowRejections(evs)
    ensures var evs' := evs + [Accepted];
      && WaitsFollowRejections(evs') && evs'[..|evs|] == evs
      && CountTyped(evs') == CountTyped(evs) && CountWaits(evs') == CountWaits(evs)
  {
    CountSnoc(evs, Accepted);
    assert (evs + [Accepted])[..|evs|] == evs;
  }

  /** The attempt bookkeeping that holds when attempt number `attempt` begins. */
  predicate AttemptInvariant(cfg: Config, attempt: int, events: seq<Event>) {
    && 1 <= attempt && attempt - 1 <= Max0(cfg.tries)
    && CountTyped(events) == attempt - 1
    && CountWaits(events) <= attempt - 1 && CountWaits(events) <= Max0(cfg.tries - 1)
    && WaitsFollowRejections(events)
    && NoAccepted(events)
  }

  /**
   * What every run of solve2FA that found its OTP field in scope `ctx`
   * satisfies: it throws either the 2FA error after all TOTP_TRIES codes,
   * or the TypeError of pressing Enter in a frame right after typing a code.
   */
  predicate FoundRunFacts(cfg: Config, env: Env, ctx: nat, at: nat, r: TwoFactorRun) {
    var evs := r.log.events;
    && r.log.otpFound
    && CountTyped(evs) <= Max0(cfg.tries)
    && CountWaits(evs) <= Max0(cfg.tries - 1)
    && WaitsFollowRejections(evs)
    && (r.outcome.Success? ==>
          && evs != [] && evs[|evs| - 1] == Accepted && NoAccepted(evs[..|evs| - 1])
          && at < r.next && Authenticated(env(r.next - 1).page))
    && (r.outcome.Failure? ==> NoAccepted(evs))
    && (r.outcome == Failure(TwoFactorFailed) ==> CountTyped(evs) == Max0(cfg.tries))
    && (r.outcome == Failure(EnterInFrame) ==>
          && evs != [] && evs[|evs| - 1].Typed?
          && at < r.next && !SubmitGoesThrough(env(r.next - 1).page, ctx))
    && (r.outcome.Failure? ==> r.outcome == Failure(TwoFactorFailed) || r.outcome == Failure(EnterInFrame))
  }

  lemma FoundRunFactsEarlier(cfg: Config, env: Env, ctx: nat, at: nat, at': nat, r: TwoFactorRun)
    requires at <= at' && FoundRunFacts(cfg, env, ctx, at', r)
    ensures FoundRunFacts(cfg, env, ctx, at, r)
  {
  }

  /** An attempt whose code is accepted at the first probe ends the run successfully, right after that probe. */
  lemma AcceptedAttempt(cfg: Config, hotp: Otp.Hotp, env: Env, ctx: nat, attempt: int, at: nat,
                        events: seq<Event>)
    requires cfg.period > 0 && attempt <= cfg.tries
    requires AttemptInvariant(cfg, attempt, events)
    requires SubmitGoesThrough(env(at).page, ctx) && Authenticated(env(at + 1).page)
    ensures var c := GetTotp.GetTotp(hotp, OtpOptions(cfg), cfg.secret, env(at).now);
      var r := Attempt(cfg, hotp, env, ctx, attempt, at, events);
      && r == Done(TwoFactorRun(Success, at + 2, TwoFactorLog(true, events + [Typed(c), Accepted])))
      && FoundRunFacts(cfg, env, ctx, at, r.run)
  {
    var c := GetTotp.GetTotp(hotp, OtpOptions(cfg), cfg.secret, env(at).now);
    assert events + [Typed(c)] + [Accepted] == events + [Typed(c), Accepted];
    AppendPlain(events, Typed(c));
    AppendAccepted(events + [Typed(c)]);
  }

  /**
   * An attempt answered by "código inválido" records the rejection and goes
   * on to the next attempt, after a step-aligned wait exactly when it was
   * not the last try.
   */
  lemma RejectedAttempt(cfg: Config, hotp: Otp.Hotp, env: Env, ctx: nat, attempt: int, at: nat,
                        events: seq<Event>)
    requires cfg.period > 0 && attempt <= cfg.tries
    requires AttemptInvariant(cfg, attempt, events)
    requires SubmitGoesThrough(env(at).page, ctx)
    requires !Authenticated(env(at + 1).page) && InvalidCodeShown(env(at + 2).page, ctx)
    ensures var c := GetTotp.GetTotp(hotp, OtpOptions(cfg), cfg.secret, env(at).now);
      var w := Clock.MsToNextStep(env(at + 3).now, cfg.offsetMs, cfg.period);
      var r := Attempt(cfg, hotp, env, ctx, attempt, at, events);
      && r == Next(if attempt < cfg.tries then at + 4 else at + 3,
                   events + [Typed(c), Rejected] + (if attempt < cfg.tries then [AlignedWait(w)] else []))
      && AttemptInvariant(cfg, attempt + 1, r.events)
  {
    var c := GetTotp.GetTotp(hotp, OtpOptions(cfg), cfg.secret, env(at).now);
    var typed := events + [Typed(c)];
    assert typed + [Rejected] == events + [Typed(c), Rejected];
    AppendPlain(events, Typed(c));
    AppendPlain(typed, Rejected);
    if attempt < cfg.tries {
      var w := Clock.MsToNextStep(env(at + 3).now, cfg.offsetMs, cfg.period);
      AppendWait(typed + [Rejected], w);
    } else {
      assert typed + [Rejected] == events + [Typed(c), Rejected] + [];
    }
  }

  /**
   * An attempt with neither verdict probes once more after settling: it
   * ends the run successfully if that probe accepts, and otherwise goes on
   * with no step-aligned wait.
   */
  lemma UnconfirmedAttempt(cfg: Config, hotp: Otp.Hotp, env: Env, ctx: nat, attempt: int, at: nat,
                           events: seq<Event>)
    requires cfg.period > 0 && attempt <= cfg.tries
    requires AttemptInvariant(cfg, attempt, events)
    requires SubmitGoesThrough(env(at).page, ctx)
    requires !Authenticated(env(at + 1).page) && !InvalidCodeShown(env(at + 2).page, ctx)
    ensures var c := GetTotp.GetTotp(hotp, OtpOptions(cfg), cfg.secret, env(at).now);
      var r := Attempt(cfg, hotp, env, ctx, attempt, at, events);
      && (Authenticated(env(at + 3).page) ==>
            r == Done(TwoFactorRun(Success, at + 4, TwoFactorLog(true, events + [Typed(c), Settled, Accepted])))
            && FoundRunFacts(cfg, env, ctx, at, r.run))
      && (!Authenticated(env(at + 3).page) ==>
            r == Next(at + 4, events + [Typed(c), Settled]) && AttemptInvariant(cfg, attempt + 1, r.events))
  {
    var c := GetTotp.GetTotp(hotp, OtpOptions(cfg), cfg.secret, env(at).now);
    var typed := events + [Typed(c)];
    assert typed + [Settled] == events + [Typed(c), Settled];
    assert typed + [Settled] + [Accepted] == events + [Typed(c), Settled, Accepted];
    AppendPlain(events, Typed(c));
    AppendPlain(typed, Settled);
    if Authenticated(env(at + 3).page) {
      AppendAccepted(typed + [Settled]);
    }
  }

  /**
   * An attempt in an OTP scope that is a frame with no submit button throws
   * as soon as the code is typed: Enter is pressed on the frame's missing
   * keyboard, and solve2FA ends with that TypeError.
   */
  lemma FrameEnterAttempt(cfg: Config, hotp: Otp.Hotp, env: Env, ctx: nat, attempt: int, at: nat,
                          events: seq<Event>)
    requires cfg.period > 0 && attempt <= cfg.tries
    requires AttemptInvariant(cfg, attempt, events)
    requires !SubmitGoesThrough(env(at).page, ctx)
    ensures var c := GetTotp.GetTotp(hotp, OtpOptions(cfg), cfg.secret, env(at).now);
      var r := Attempt(cfg, hotp, env, ctx, attempt, at, events);
      && ctx != 0
      && r == Done(TwoFactorRun(Failure(EnterInFrame), at + 1, TwoFactorLog(true, events + [Typed(c)])))
      && FoundRunFacts(cfg, env, ctx, at, r.run)
  {
    var c := GetTotp.GetTotp(hotp, OtpOptions(cfg), cfg.secret, env(at).now);
    AppendPlain(events, Typed(c));
  }

  /**
   * Both directions of the verdicts of one attempt: it ends the run iff a
   * probe answered authenticated, and then successfully; it adds a
   * step-aligned wait iff "código inválido" was shown on a try before the last.
   */
  lemma AttemptVerdicts(cfg: Config, hotp: Otp.Hotp, env: Env, ctx: nat, attempt: int, at: nat,
                        events: seq<Event>)
    requires cfg.period > 0
    ensures var r := Attempt(cfg, hotp, env, ctx, attempt, at, events);
      var sent := SubmitGoesThrough(env(at).page, ctx);
      && (r.Done? <==> !sent || Authenticated(env(at + 1).page)
                       || (!InvalidCodeShown(env(at + 2).page, ctx) && Authenticated(env(at + 3).page)))
      && (r.Done? ==> (r.run.outcome == Success <==> sent))
      && (r.Done? && !sent ==> r.run.outcome == Failure(EnterInFrame))
      && (r.Next? ==> CountTyped(r.events) == CountTyped(events) + 1)
      && (r.Next? ==> (CountWaits(r.events) == CountWaits(events) + 1
                       <==> InvalidCodeShown(env(at + 2).page, ctx) && attempt < cfg.tries))
      && (r.Next? ==> CountWaits(r.events) <= CountWaits(events) + 1)
  {
    var c := GetTotp.GetTotp(hotp, OtpOptions(cfg), cfg.secret, env(at).now);
    var typed := events + [Typed(c)];
    CountSnoc(events, Typed(c));
    CountSnoc(typed, Rejected);
    CountSnoc(typed, Settled);
    CountSnoc(typed + [Rejected], AlignedWait(Clock.MsToNextStep(env(at + 3).now, cfg.offsetMs, cfg.period)));
  }

  /** One attempt either ends the run with the facts above or keeps the bookkeeping for the next. */
  lemma AttemptStep(cfg: Config, hotp: Otp.Hotp, env: Env, ctx: nat, attempt: int, at: nat,
                    events: seq<Event>)
    requires cfg.period > 0 && attempt <= cfg.tries
    requires AttemptInvariant(cfg, attempt, events)
    ensures match Attempt(cfg, hotp, env, ctx, attempt, at, events)
      case Done(run) => FoundRunFacts(cfg, env, ctx, at, run) && run.next <= at + 4
      case Next(at', events') => AttemptInvariant(cfg, attempt + 1, events') && at < at' <= at + 4
  {
    if !SubmitGoesThrough(env(at).page, ctx) {
      FrameEnterAttempt(cfg, hotp, env, ctx, attempt, at, events);
    } else if Authenticated(env(at + 1).page) {
      AcceptedAttempt(cfg, hotp, env, ctx, attempt, at, events);
    } else if InvalidCodeShown(env(at + 2).page, ctx) {
      RejectedAttempt(cfg, hotp, env, ctx, attempt, at, events);
    } else {
      UnconfirmedAttempt(cfg, hotp, env, ctx, attempt, at, events);
    }
  }

  lemma {:induction false} AttemptsFacts(cfg: Config, hotp: Otp.Hotp, env: Env, ctx: nat, attempt: int,
                                         at: nat, events: seq<Event>)
    requires cfg.period > 0
    requires AttemptInvariant(cfg, attempt, events)
    ensures FoundRunFacts(cfg, env, ctx, at, Attempts(cfg, hotp, env, ctx, attempt, at, events))
    ensures at <= Attempts(cfg, hotp, env, ctx, attempt, at, events).next
               <= at + 4 * (Max0(cfg.tries) - (attempt - 1))
    decreases cfg.tries - attempt + 1
  {
    if attempt <= cfg.tries {
      AttemptStep(cfg, hotp, env, ctx, attempt, at, events);
      var e := Attempt(cfg, hotp, env, ctx, attempt, at, events);
      if e.Next? {
        AttemptsFacts(cfg, hotp, env, ctx, attempt + 1, e.at, e.events);
        FoundRunFactsEarlier(cfg, env, ctx, at, e.at, Attempts(cfg, hotp, env, ctx, attempt + 1, e.at, e.events));
      }
    }
  }

  /**
   * solve2FA: with no OTP field it returns at once and makes no attempt;
   * otherwise it makes at most TOTP_TRIES attempts and at most
   * TOTP_TRIES - 1 step-aligned waits, each right after a "código inválido";
   * it returns normally only right after isFullyAuthenticated answered true;
   * it throws its 2FA error only after all TOTP_TRIES attempts, and the
   * Enter TypeError only when the OTP field is in a frame with no submit
   * button; it reads at most 1 + 4 * TOTP_TRIES observations.
   */
  lemma TwoFactorFacts(cfg: Config, hotp: Otp.Hotp, env: Env, at: nat)
    requires cfg.period > 0
    ensures var r := TwoFactor(cfg, hotp, env, at);
      && (r.log.otpFound <==> First(env(at).page.scopes, IsOtpScope).Some?)
      && (!r.log.otpFound ==> r.outcome == Success && r.log.events == [] && r.next == at + 1)
      && (r.log.otpFound ==> FoundRunFacts(cfg, env, First(env(at).page.scopes, IsOtpScope).value, at + 1, r))
      && at < r.next <= at + 1 + 4 * Max0(cfg.tries)
  {
    var found := First(env(at).page.scopes, IsOtpScope);
    if found.Some? {
      AttemptsFacts(cfg, hotp, env, found.value, 1, at + 1, []);
    }
  }

  predicate WaitsInRange(evs: seq<Event>, period: int) {
    forall i :: 0 <= i < |evs| && evs[i].AlignedWait? ==> 201 <= evs[i].ms <= period * 1000 + Clock.GuardMs
  }

  lemma {:induction false} AttemptsWaitsInRange(cfg: Config, hotp: Otp.Hotp, env: Env, ctx: nat,
                                                attempt: int, at: nat, events: seq<Event>)
    requires cfg.period > 0
    requires forall i :: env(i).now + cfg.offsetMs >= 0
    requires WaitsInRange(events, cfg.period)
    ensures WaitsInRange(Attempts(cfg, hotp, env, ctx, attempt, at, events).log.events, cfg.period)
    decreases cfg.tries - attempt + 1
  {
    if attempt <= cfg.tries {
      if attempt < cfg.tries {
        Clock.MsToNextStepBounds(env(at + 3).now, cfg.offsetMs, cfg.period);
      }
      match Attempt(cfg, hotp, env, ctx, attempt, at, events)
      case Done(run) =>
      case Next(at', events') =>
        AttemptsWaitsInRange(cfg, hotp, env, ctx, attempt + 1, at', events');
    }
  }

  /** On a clock whose corrected readings are never negative, every step-aligned wait lasts 201 to step + 200 ms. */
  lemma TwoFactorWaitsInRange(cfg: Config, hotp: Otp.Hotp, env: Env, at: nat)
    requires cfg.period > 0
    requires forall i :: env(i).now + cfg.offsetMs >= 0
    ensures WaitsInRange(TwoFactor(cfg, hotp, env, at).log.events, cfg.period)
  {
    var found := First(env(at).page.scopes, IsOtpScope);
    if found.Some? {
      AttemptsWaitsInRange(cfg, hotp, env, found.value, 1, at + 1, []);
    }
  }

  /** What every solve2FA run of performLogin satisfies, whether or not it found an OTP field. */
  predicate RunFacts(cfg: Config, two: TwoFactorRun) {
    && CountTyped(two.log.events) <= Max0(cfg.tries)
    && CountWaits(two.log.events) <= Max0(cfg.tries - 1)
    && WaitsFollowRejections(two.log.events)
    && (two.outcome.Failure? ==>
          two.log.otpFound && (two.outcome == Failure(TwoFactorFailed) || two.outcome == Failure(EnterInFrame)))
    && (two.outcome == Failure(TwoFactorFailed) ==> CountTyped(two.log.events) == Max0(cfg.tries))
  }

  /** The credential step let the round go on to solve2FA. */
  predicate Passed(c: Credentials) {
    c == NoForm || c == Submitted
  }

  /** How many rounds filled in and submitted the login form. */
  function CountSubmitted(forms: seq<Credentials>): nat {
    if forms == [] then 0
    else CountSubmitted(forms[..|forms| - 1]) + (if forms[|forms| - 1] == Submitted then 1 else 0)
  }

  /** The bookkeeping that holds when round number `round` of performLogin begins. */
  predicate RoundInvariant(cfg: Config, round: int, log: LoginLog) {
    && 1 <= round <= MaxRounds + 1
    && log.rounds == round - 1
    && |log.forms| == log.rounds
    && |log.twoFactor| == log.rounds
    && log.credentials == CountSubmitted(log.forms)
    && log.persisted == 0
    && (forall j :: 0 <= j < |log.forms| ==> Passed(log.forms[j]))
    && (forall j :: 0 <= j < |log.twoFactor| ==>
          log.twoFactor[j].outcome == Success && RunFacts(cfg, log.twoFactor[j]))
  }

  /**
   * What every run of performLogin with BASE_URL set satisfies: the last
   * round is the only one whose credential step found a missing field or
   * whose solve2FA threw, and either of those ends performLogin at once
   * with its own error.
   */
  predicate LoginRunFacts(cfg: Config, env: Env, r: LoginRun) {
    var log := r.log;
    var n := log.rounds;
    && 1 <= n <= MaxRounds
    && |log.forms| == n
    && log.credentials == CountSubmitted(log.forms)
    && log.persisted == (if r.outcome.Success? then 1 else 0)
    && r.outcome != Failure(MissingBaseUrl)
    && (forall j :: 0 <= j < n - 1 ==> Passed(log.forms[j]))
    && (log.forms[n - 1] == MissingUser <==> r.outcome == Failure(MissingUserField))
    && (log.forms[n - 1] == MissingPassword <==> r.outcome == Failure(MissingPasswordField))
    && (log.forms[n - 1] == FrameForm <==> r.outcome == Failure(TabInFrame))
    && |log.twoFactor| == (if Passed(log.forms[n - 1]) then n else n - 1)
    && (forall j :: 0 <= j < |log.twoFactor| ==> RunFacts(cfg, log.twoFactor[j]))
    && (forall j :: 0 <= j < n - 1 ==> log.twoFactor[j].outcome == Success)
    && (r.outcome == Failure(TwoFactorFailed) || r.outcome == Failure(EnterInFrame) <==>
          Passed(log.forms[n - 1]) && log.twoFactor[n - 1].outcome.Failure?)
    && (Passed(log.forms[n - 1]) && log.twoFactor[n - 1].outcome.Failure? ==>
          r.outcome == log.twoFactor[n - 1].outcome)
    && (r.outcome.Success? ==> 0 < r.next && Authenticated(env(r.next - 1).page))
    && (r.outcome == Failure(LoginFailed) ==> n == MaxRounds)
    && (!Passed(log.forms[n - 1]) ==>
          0 < r.next && CredentialStep(env(r.next - 1).page.scopes) == log.forms[n - 1])
  }

  /** A solve2FA run, as performLogin sees it. */
  lemma TwoFactorRunFacts(cfg: Config, hotp: Otp.Hotp, env: Env, at: nat)
    requires cfg.period > 0
    ensures var two := TwoFactor(cfg, hotp, env, at);
      RunFacts(cfg, two) && at < two.next
  {
    TwoFactorFacts(cfg, hotp, env, at);
  }

  /**
   * One round of performLogin: a missing user or password field, or a
   * login form inside a frame (whose Tab throws), ends performLogin at once
   * with that error and runs no solve2FA; otherwise
   * solve2FA runs, and its throw ends performLogin with no further probe;
   * after a solve2FA that returned, the round ends successfully exactly
   * when the next probe answers authenticated, and the loop goes on otherwise.
   */
  lemma RoundCases(cfg: Config, hotp: Otp.Hotp, env: Env, at: nat, log: LoginLog)
    requires cfg.period > 0
    ensures var creds := CredentialStep(env(at).page.scopes);
      var two := TwoFactor(cfg, hotp, env, at + 1);
      var r := Round(cfg, hotp, env, at, log);
      var l := if r.Finished? then r.run.log else r.log;
      && l.rounds == log.rounds + 1
      && l.forms == log.forms + [creds]
      && l.twoFactor == log.twoFactor + (if Passed(creds) then [two] else [])
      && l.credentials == log.credentials + (if creds == Submitted then 1 else 0)
      && (creds == MissingUser ==>
            r.Finished? && r.run.outcome == Failure(MissingUserField) && r.run.next == at + 1)
      && (creds == FrameForm ==>
            r.Finished? && r.run.outcome == Failure(TabInFrame) && r.run.next == at + 1)
      && (creds == MissingPassword ==>
            r.Finished? && r.run.outcome == Failure(MissingPasswordField) && r.run.next == at + 1)
      && (Passed(creds) && two.outcome.Failure? ==>
            r.Finished? && r.run.outcome == two.outcome && r.run.next == two.next)
      && (Passed(creds) && two.outcome.Success? ==>
            && (r.Finished? <==> Authenticated(env(two.next).page))
            && (r.Finished? ==> r.run.outcome == Success && r.run.next == two.next + 1)
            && (r.Again? ==> r.at == two.next + 1))
      && (r.Finished? ==> r.run.log.persisted == log.persisted + (if r.run.outcome.Success? then 1 else 0))
      && (r.Again? ==> r.log.persisted == log.persisted)
  {
  }

  lemma AppendForm(forms: seq<Credentials>, c: Credentials)
    ensures CountSubmitted(forms + [c]) == CountSubmitted(forms) + (if c == Submitted then 1 else 0)
    ensures forall j :: 0 <= j < |forms| ==> (forms + [c])[j] == forms[j]
  {
    assert (forms + [c])[..|forms|] == forms;
  }

  lemma AppendRun(runs: seq<TwoFactorRun>, two: TwoFactorRun)
    ensures forall j :: 0 <= j < |runs| ==> (runs + [two])[j] == runs[j]
  {
  }

  /** A round whose credential step found a missing field ends performLogin with the facts above. */
  lemma MissingFieldRound(cfg: Config, hotp: Otp.Hotp, env: Env, round: int, at: nat, log: LoginLog)
    requires cfg.period > 0 && round <= MaxRounds
    requires RoundInvariant(cfg, round, log)
    requires !Passed(CredentialStep(env(at).page.scopes))
    ensures var r := Round(cfg, hotp, env, at, log);
      r.Finished? && LoginRunFacts(cfg, env, r.run) && r.run.next == at + 1
  {
    AppendForm(log.forms, CredentialStep(env(at).page.scopes));
  }

  /** The log a round that reached solve2FA leaves: the round, its form and its solve2FA run recorded. */
  function PassedLog(log: LoginLog, creds: Credentials, two: TwoFactorRun): LoginLog {
    log.(rounds := log.rounds + 1, forms := log.forms + [creds],
         credentials := log.credentials + (if creds == Submitted then 1 else 0),
         twoFactor := log.twoFactor + [two])
  }

  /** A round whose credential step passed, written with PassedLog. */
  lemma PassedRound(cfg: Config, hotp: Otp.Hotp, env: Env, at: nat, log: LoginLog)
    requires cfg.period > 0
    requires Passed(CredentialStep(env(at).page.scopes))
    ensures var creds := CredentialStep(env(at).page.scopes);
      var two := TwoFactor(cfg, hotp, env, at + 1);
      var after := PassedLog(log, creds, two);
      Round(cfg, hotp, env, at, log)
        == if two.outcome.Failure? then Finished(LoginRun(two.outcome, two.next, after))
           else if Authenticated(env(two.next).page) then
             Finished(LoginRun(Success, two.next + 1, after.(persisted := log.persisted + 1)))
           else Again(two.next + 1, after)
  {
  }

  /** A round confirmed authenticated, written with PassedLog. */
  lemma AuthenticatedRoundValue(cfg: Config, hotp: Otp.Hotp, env: Env, at: nat, log: LoginLog)
    requires cfg.period > 0
    requires Passed(CredentialStep(env(at).page.scopes))
    requires var two := TwoFactor(cfg, hotp, env, at + 1);
      two.outcome.Success? && Authenticated(env(two.next).page)
    ensures var two := TwoFactor(cfg, hotp, env, at + 1);
      Round(cfg, hotp, env, at, log)
        == Finished(LoginRun(Success, two.next + 1,
                             PassedLog(log, CredentialStep(env(at).page.scopes), two).(persisted := log.persisted + 1)))
  {
  }

  /** A thrown solve2FA ends performLogin with the facts above. */
  lemma FailedTwoFactorLog(cfg: Config, env: Env, round: int, log: LoginLog, creds: Credentials,
                           two: TwoFactorRun, next: nat)
    requires round <= MaxRounds && RoundInvariant(cfg, round, log)
    requires Passed(creds) && RunFacts(cfg, two) && two.outcome.Failure?
    ensures LoginRunFacts(cfg, env, LoginRun(two.outcome, next, PassedLog(log, creds, two)))
  {
    AppendForm(log.forms, creds);
    AppendRun(log.twoFactor, two);
  }

  /** A round confirmed authenticated ends performLogin successfully with the facts above. */
  lemma AuthenticatedLog(cfg: Config, env: Env, round: int, log: LoginLog, creds: Credentials,
                         two: TwoFactorRun, probe: nat, e: RoundEnd)
    requires round <= MaxRounds && RoundInvariant(cfg, round, log)
    requires Passed(creds) && RunFacts(cfg, two) && two.outcome.Success?
    requires Authenticated(env(probe).page)
    requires e == Finished(LoginRun(Success, probe + 1, PassedLog(log, creds, two).(persisted := log.persisted + 1)))
    ensures e.Finished? && LoginRunFacts(cfg, env, e.run)
  {
    AppendForm(log.forms, creds);
    AppendRun(log.twoFactor, two);
  }

  /** A round that is not confirmed authenticated keeps the bookkeeping for the next. */
  lemma AgainLog(cfg: Config, round: int, log: LoginLog, creds: Credentials, two: TwoFactorRun)
    requires round <= MaxRounds && RoundInvariant(cfg, round, log)
    requires Passed(creds) && RunFacts(cfg, two) && two.outcome.Success?
    ensures RoundInvariant(cfg, round + 1, PassedLog(log, creds, two))
  {
    AppendForm(log.forms, creds);
    AppendRun(log.twoFactor, two);
  }

  /** A round whose solve2FA threw ends performLogin with the facts above. */
  lemma FailedTwoFactorRound(cfg: Config, hotp: Otp.Hotp, env: Env, round: int, at: nat, log: LoginLog)
    requires cfg.period > 0 && round <= MaxRounds
    requires RoundInvariant(cfg, round, log)
    requires Passed(CredentialStep(env(at).page.scopes))
    requires TwoFactor(cfg, hotp, env, at + 1).outcome.Failure?
    ensures var r := Round(cfg, hotp, env, at, log);
      r.Finished? && LoginRunFacts(cfg, env, r.run) && at < r.run.next
  {
    var creds := CredentialStep(env(at).page.scopes);
    var two := TwoFactor(cfg, hotp, env, at + 1);
    TwoFactorRunFacts(cfg, hotp, env, at + 1);
    PassedRound(cfg, hotp, env, at, log);
    FailedTwoFactorLog(cfg, env, round, log, creds, two, two.next);
  }

  /** A round confirmed authenticated after solve2FA ends performLogin successfully with the facts above. */
  lemma AuthenticatedRound(cfg: Config, hotp: Otp.Hotp, env: Env, round: int, at: nat, log: LoginLog)
    requires cfg.period > 0 && round <= MaxRounds
    requires RoundInvariant(cfg, round, log)
    requires Passed(CredentialStep(env(at).page.scopes))
    requires var two := TwoFactor(cfg, hotp, env, at + 1);
      two.outcome.Success? && Authenticated(env(two.next).page)
    ensures var r := Round(cfg, hotp, env, at, log);
      r.Finished? && LoginRunFacts(cfg, env, r.run) && at < r.run.next
  {
    var creds := CredentialStep(env(at).page.scopes);
    var two := TwoFactor(cfg, hotp, env, at + 1);
    TwoFactorRunFacts(cfg, hotp, env, at + 1);
    var e := Finished(LoginRun(Success, two.next + 1, PassedLog(log, creds, two).(persisted := log.persisted + 1)));
    AuthenticatedLog(cfg, env, round, log, creds, two, two.next, e);
    AuthenticatedRoundValue(cfg, hotp, env, at, log);
  }

  /** A round not confirmed authenticated after solve2FA keeps the bookkeeping for the next. */
  lemma AgainRound(cfg: Config, hotp: Otp.Hotp, env: Env, round: int, at: nat, log: LoginLog)
    requires cfg.period > 0 && round <= MaxRounds
    requires RoundInvariant(cfg, round, log)
    requires Passed(CredentialStep(env(at).page.scopes))
    requires var two := TwoFactor(cfg, hotp, env, at + 1);
      two.outcome.Success? && !Authenticated(env(two.next).page)
    ensures var r := Round(cfg, hotp, env, at, log);
      r.Again? && RoundInvariant(cfg, round + 1, r.log) && at < r.at
  {
    var creds := CredentialStep(env(at).page.scopes);
    var two := TwoFactor(cfg, hotp, env, at + 1);
    TwoFactorRunFacts(cfg, hotp, env, at + 1);
    PassedRound(cfg, hotp, env, at, log);
    AgainLog(cfg, round, log, creds, two);
  }

  /** One round either ends performLogin with the facts above or keeps the bookkeeping for the next. */
  lemma RoundStep(cfg: Config, hotp: Otp.Hotp, env: Env, round: int, at: nat, log: LoginLog)
    requires cfg.period > 0 && round <= MaxRounds
    requires RoundInvariant(cfg, round, log)
    ensures match Round(cfg, hotp, env, at, log)
      case Finished(run) => LoginRunFacts(cfg, env, run) && at < run.next
      case Again(at', log') => RoundInvariant(cfg, round + 1, log') && at < at'
  {
    var two := TwoFactor(cfg, hotp, env, at + 1);
    if !Passed(CredentialStep(env(at).page.scopes)) {
      MissingFieldRound(cfg, hotp, env, round, at, log);
    } else if two.outcome.Failure? {
      FailedTwoFactorRound(cfg, hotp, env, round, at, log);
    } else if Authenticated(env(two.next).page) {
      AuthenticatedRound(cfg, hotp, env, round, at, log);
    } else {
      AgainRound(cfg, hotp, env, round, at, log);
    }
  }

  /** After three rounds without success performLogin gives up. */
  lemma ExhaustedFacts(cfg: Config, env: Env, at: nat, log: LoginLog)
    requires RoundInvariant(cfg, MaxRounds + 1, log)
    ensures LoginRunFacts(cfg, env, LoginRun(Failure(LoginFailed), at, log))
  {
  }

  /** performLogin's loop runs one round and then, unless that round finished, the rest. */
  lemma RoundsUnfold(cfg: Config, hotp: Otp.Hotp, env: Env, round: int, at: nat, log: LoginLog)
    requires cfg.period > 0 && round <= MaxRounds
    ensures var e := Round(cfg, hotp, env, at, log);
      Rounds(cfg, hotp, env, round, at, log)
        == if e.Finished? then e.run else Rounds(cfg, hotp, env, round + 1, e.at, e.log)
  {
  }

  lemma {:induction false} RoundsFacts(cfg: Config, hotp: Otp.Hotp, env: Env, round: int, at: nat,
                                       log: LoginLog)
    requires cfg.period > 0
    requires RoundInvariant(cfg, round, log)
    ensures var r := Rounds(cfg, hotp, env, round, at, log);
      LoginRunFacts(cfg, env, r) && at <= r.next
    decreases MaxRounds - round + 1
  {
    if round <= MaxRounds {
      RoundStep(cfg, hotp, env, round, at, log);
      var e := Round(cfg, hotp, env, at, log);
      RoundsUnfold(cfg, hotp, env, round, at, log);
      if e.Again? {
        RoundsFacts(cfg, hotp, env, round + 1, e.at, e.log);
      }
    } else {
      ExhaustedFacts(cfg, env, at, log);
    }
  }

  /**
   * performLogin: it throws at once, before any observation, when BASE_URL is
   * unset or empty; otherwise it runs one to three rounds, saves the session
   * exactly when it succeeds, succeeds only right after isFullyAuthenticated
   * answered true, gives up after the third round, and every failure carries
   * the bookkeeping of the step that raised it.
   */
  lemma PerformLoginFacts(cfg: Config, hotp: Otp.Hotp, env: Env)
    requires cfg.period > 0
    ensures var r := Login.Login(cfg, hotp, env);
      && (r.outcome == Failure(MissingBaseUrl) <==> !BaseUrlSet(cfg))
      && (!BaseUrlSet(cfg) ==> r.next == 0 && r.log == NoLog)
      && (BaseUrlSet(cfg) ==> LoginRunFacts(cfg, env, r))
  {
    if BaseUrlSet(cfg) {
      RoundsFacts(cfg, hotp, env, 1, 0, NoLog);
    }
  }
}
