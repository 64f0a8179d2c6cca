/**
 * The login flow of index.js: performLogin's three rounds and, inside each,
 * solve2FA's bounded OTP attempts. The browser is a script of observations:
 * `env(i)` is what the i-th interaction with the outside world sees, a page
 * snapshot for a probe and a clock reading for a Date.now() call. Both
 * loops are methods proved equal to reference functions, and what the
 * source promises is proved about those functions.
 */
module Login {
  import opened Wrappers
  import opened PageState
  import Otp
  import Secret
  import Clock
  import GetTotp

  /** `for (let round = 1; round <= 3; round++)`. */
  const MaxRounds := 3

  /**
   * The settings index.js reads at start-up: BASE_URL, TOTP_PERIOD,
   * TOTP_DIGITS, TOTP_TRIES, TOTP_OFFSET_MS, and get-totp.js's secret.
   */
  datatype Config = Config(
    baseUrl: Option<string>,
    period: int,
    digits: int,
    tries: int,
    offsetMs: int,
    secret: Secret.Key)

  function OtpOptions(cfg: Config): Otp.Options {
    Otp.Options(cfg.period, cfg.digits)
  }

  /** `if (!BASE_URL)` fails for an unset and for an empty variable. */
  predicate BaseUrlSet(cfg: Config) {
    cfg.baseUrl.Some? && cfg.baseUrl.value != ""
  }

  /** One interaction with the outside world: the page as a probe sees it, and the clock. */
  datatype Obs = Obs(page: Page, now: int)

  type Env = nat -> Obs

  /** Why a run ends in an exception. */
  datatype Reason =
    | MissingBaseUrl        // 'BASE_URL não configurada no .env'
    | MissingUserField      // 'Campo de usuário não encontrado/visível.'
    | MissingPasswordField  // 'Campo de senha não encontrado/visível.'
    | TwoFactorFailed       // '2FA falhou após várias tentativas. ...'
    | TabInFrame            // TypeError: `ctx.keyboard` of a Frame is undefined (index.js:260)
    | EnterInFrame          // TypeError: `ctx.keyboard` of a Frame is undefined (index.js:175)
    | LoginFailed           // 'Não consegui autenticar. ...'

  datatype Outcome = Success | Failure(reason: Reason)

  /** What happens during solve2FA's attempts, in order. */
  datatype Event =
    | Typed(code: string)   // a code was generated, typed and submitted
    | Accepted              // isFullyAuthenticated answered true
    | Rejected              // the "código inválido" text was present
    | AlignedWait(ms: int)  // slept msToNextStep() before the next attempt
    | Settled               // neither: slept 2000 ms and asked once more

  datatype TwoFactorLog = TwoFactorLog(otpFound: bool, events: seq<Event>)

  /** How solve2FA ended, the next unread observation, and what it did. */
  datatype TwoFactorRun = TwoFactorRun(outcome: Outcome, next: nat, log: TwoFactorLog)

  function Max0(x: int): nat {
    if x > 0 then x else 0
  }

  function CountTyped(evs: seq<Event>): nat {
    if evs == [] then 0 else CountTyped(evs[..|evs| - 1]) + (if evs[|evs| - 1].Typed? then 1 else 0)
  }

  function CountWaits(evs: seq<Event>): nat {
    if evs == [] then 0 else CountWaits(evs[..|evs| - 1]) + (if evs[|evs| - 1].AlignedWait? then 1 else 0)
  }

  /** Every step-aligned wait comes right after an explicit rejection. */
  predicate WaitsFollowRejections(evs: seq<Event>) {
    forall i :: 0 <= i < |evs| && evs[i].AlignedWait? ==> 0 < i && evs[i - 1] == Rejected
  }

  predicate NoAccepted(evs: seq<Event>) {
    forall i :: 0 <= i < |evs| ==> evs[i] != Accepted
  }

  /** How one attempt of solve2FA ends: the run is over, or the next attempt starts at `at`. */
  datatype AttemptEnd = Done(run: TwoFactorRun) | Next(at: nat, events: seq<Event>)

  /**
   * The OTP code is submitted (index.js:174-175): a button was clicked, or
   * Enter was pressed on `ctx.keyboard`, which only the page itself (scope
   * 0) has; on a Frame `ctx.keyboard` is undefined and the call throws.
   */
  predicate SubmitGoesThrough(p: Page, ctx: nat) {
    OtpSubmitShown(p, ctx) || ctx == 0
  }

  /**
   * One pass through the body of solve2FA's loop for attempt number
   * `attempt`, with `ctx` the scope where the OTP field was found, `at` the
   * next observation and `events` what happened so far.
   */
  function Attempt(cfg: Config, hotp: Otp.Hotp, env: Env, ctx: nat, attempt: int, at: nat,
                   events: seq<Event>): AttemptEnd
    requires cfg.period > 0
  {
    var typed := events + [Typed(GetTotp.GetTotp(hotp, OtpOptions(cfg), cfg.secret, env(at).now))];
    if !SubmitGoesThrough(env(at).page, ctx) then
      Done(TwoFactorRun(Failure(EnterInFrame), at + 1, TwoFactorLog(true, typed)))
    else if Authenticated(env(at + 1).page) then
      Done(TwoFactorRun(Success, at + 2, TwoFactorLog(true, typed + [Accepted])))
    else if InvalidCodeShown(env(at + 2).page, ctx) then
      if attempt < cfg.tries then
        var waitTime := Clock.MsToNextStep(env(at + 3).now, cfg.offsetMs, cfg.period);
        Next(at + 4, typed + [Rejected] + [AlignedWait(waitTime)])
      else
        Next(at + 3, typed + [Rejected])
    else if Authenticated(env(at + 3).page) then
      Done(TwoFactorRun(Success, at + 4, TwoFactorLog(true, typed + [Settled] + [Accepted])))
    else
      Next(at + 4, typed + [Settled])
  }

  /** solve2FA's loop from attempt number `attempt` on. */
  function Attempts(cfg: Config, hotp: Otp.Hotp, env: Env, ctx: nat, attempt: int, at: nat,
                    events: seq<Event>): TwoFactorRun
    requires cfg.period > 0
    decreases cfg.tries - attempt + 1
  {
    if attempt > cfg.tries then TwoFactorRun(Failure(TwoFactorFailed), at, TwoFactorLog(true, events))
    else
      match Attempt(cfg, hotp, env, ctx, attempt, at, events)
      case Done(run) => run
      case Next(at', events') => Attempts(cfg, hotp, env, ctx, attempt + 1, at', events')
  }

  /** solve2FA started at observation `at`. */
  function TwoFactor(cfg: Config, hotp: Otp.Hotp, env: Env, at: nat): TwoFactorRun
    requires cfg.period > 0
  {
    var found := First(env(at).page.scopes, IsOtpScope);
    if found.None? then TwoFactorRun(Success, at + 1, TwoFactorLog(false, []))
    else Attempts(cfg, hotp, env, found.value, 1, at + 1, [])
  }

  /** The body of solve2FA's loop, for attempt number `attempt`. */
  method RunAttempt(cfg: Config, hotp: Otp.Hotp, env: Env, ctx: nat, attempt: int, at0: nat,
                    events0: seq<Event>) returns (r: AttemptEnd)
    requires cfg.period > 0
    ensures r == Attempt(cfg, hotp, env, ctx, attempt, at0, events0)
  {
    var at := at0;
    var code := GetTotp.GetTotp(hotp, OtpOptions(cfg), cfg.secret, env(at).now);
    var clicked := OtpSubmitShown(env(at).page, ctx);
    at := at + 1;
    var events := events0 + [Typed(code)];
    if !clicked && ctx != 0 {
      return Done(TwoFactorRun(Failure(EnterInFrame), at, TwoFactorLog(true, events)));
    }
    var authed := IsFullyAuthenticated(env(at).page);
    at := at + 1;
    if authed {
      return Done(TwoFactorRun(Success, at, TwoFactorLog(true, events + [Accepted])));
    }
    var erro := InvalidCodeShown(env(at).page, ctx);
    at := at + 1;
    if erro {
      events := events + [Rejected];
      if attempt < cfg.tries {
        var waitTime := Clock.MsToNextStep(env(at).now, cfg.offsetMs, cfg.period);
        at := at + 1;
        events := events + [AlignedWait(waitTime)];
      }
      return Next(at, events);
    }
    events := events + [Settled];
    authed := IsFullyAuthenticated(env(at).page);
    at := at + 1;
    if authed {
      return Done(TwoFactorRun(Success, at, TwoFactorLog(true, events + [Accepted])));
    }
    return Next(at, events);
  }

  /** `solve2FA(page)`. A Failure outcome stands for the exception it throws. */
  method Solve2FA(cfg: Config, hotp: Otp.Hotp, env: Env, at0: nat) returns (run: TwoFactorRun)
    requires cfg.period > 0
    ensures run == TwoFactor(cfg, hotp, env, at0)
  {
    var at := at0;
    var found := FindOtpContext(env(at).page.scopes);
    at := at + 1;
    if found.None? {
      return TwoFactorRun(Success, at, TwoFactorLog(false, []));
    }
    var ctx := found.value;
    var events: seq<Event> := [];
    var attempt := 1;
    while attempt <= cfg.tries
      invariant Attempts(cfg, hotp, env, ctx, attempt, at, events) == TwoFactor(cfg, hotp, env, at0)
      decreases cfg.tries - attempt
    {
      var step := RunAttempt(cfg, hotp, env, ctx, attempt, at, events);
      if step.Done? {
        return step.run;
      }
      at, events := step.at, step.events;
      attempt := attempt + 1;
    }
    return TwoFactorRun(Failure(TwoFactorFailed), at, TwoFactorLog(true, events));
  }

  /**
   * What performLogin did: rounds begun, credential submissions, how each
   * round's credential step ended, each solve2FA run, storageState writes.
   */
  datatype LoginLog = LoginLog(rounds: nat, credentials: nat, forms: seq<Credentials>,
                               twoFactor: seq<TwoFactorRun>, persisted: nat)

  /** How performLogin ended, the next unread observation, and what it did. */
  datatype LoginRun = LoginRun(outcome: Outcome, next: nat, log: LoginLog)

  const NoLog := LoginLog(0, 0, [], [], 0)

  /** tryFillByLabel(ctx, /usu[aá]rio/i, ...) || fillFirstVisible(ctx, [...username selectors], ...). */
  predicate CanFillUser(s: Scope) {
    (s.userLabel && s.userLabelVisible) || FirstVisible(s.userFields).Some?
  }

  /** tryFillByLabel(ctx, /senha/i, ...) || fillFirstVisible(ctx, [...password selectors], ...). */
  predicate CanFillPassword(s: Scope) {
    (s.passLabel && s.passLabelVisible) || FirstVisible(s.passFields).Some?
  }

  datatype RoundEnd = Finished(run: LoginRun) | Again(at: nat, log: LoginLog)

  /** One pass through the body of performLogin's loop, starting at observation `at`. */
  function Round(cfg: Config, hotp: Otp.Hotp, env: Env, at: nat, log: LoginLog): RoundEnd
    requires cfg.period > 0
  {
    var creds := CredentialStep(env(at).page.scopes);
    var begun := log.(rounds := log.rounds + 1, forms := log.forms + [creds]);
    if creds == MissingUser then
      Finished(LoginRun(Failure(MissingUserField), at + 1, begun))
    else if creds == FrameForm then
      Finished(LoginRun(Failure(TabInFrame), at + 1, begun))
    else if creds == MissingPassword then
      Finished(LoginRun(Failure(MissingPasswordField), at + 1, begun))
    else
      var submitted := if creds == Submitted then begun.(credentials := begun.credentials + 1) else begun;
      var two := TwoFactor(cfg, hotp, env, at + 1);
      var after := submitted.(twoFactor := submitted.twoFactor + [two]);
      if two.outcome.Failure? then
        Finished(LoginRun(two.outcome, two.next, after))
      else if Authenticated(env(two.next).page) then
        Finished(LoginRun(Success, two.next + 1, after.(persisted := after.persisted + 1)))
      else
        Again(two.next + 1, after)
  }

  /** performLogin's loop from round number `round` on. */
  function Rounds(cfg: Config, hotp: Otp.Hotp, env: Env, round: int, at: nat, log: LoginLog): LoginRun
    requires cfg.period > 0
    decreases MaxRounds - round + 1
  {
    if round > MaxRounds then LoginRun(Failure(LoginFailed), at, log)
    else
      match Round(cfg, hotp, env, at, log)
      case Finished(run) => run
      case Again(at', log') => Rounds(cfg, hotp, env, round + 1, at', log')
  }

  /** performLogin from the first observation on. */
  function Login(cfg: Config, hotp: Otp.Hotp, env: Env): LoginRun
    requires cfg.period > 0
  {
    if !BaseUrlSet(cfg) then LoginRun(Failure(MissingBaseUrl), 0, NoLog)
    else Rounds(cfg, hotp, env, 1, 0, NoLog)
  }

  /**
   * How the credential step of a round ends: no form, no user field, the
   * user typed into a form inside a frame (whose `ctx.keyboard.press('Tab')`
   * then throws), no password field, or both fields filled and submitted.
   */
  datatype Credentials = NoForm | MissingUser | FrameForm | MissingPassword | Submitted

  /** The credential step on the scopes of one snapshot. */
  function CredentialStep(scopes: seq<Scope>): Credentials {
    var ctx := First(scopes, IsLoginScope);
    if ctx.None? then NoForm
    else if !CanFillUser(scopes[ctx.value]) then MissingUser
    else if ctx.value != 0 then FrameForm
    else if !CanFillPassword(scopes[ctx.value]) then MissingPassword
    else Submitted
  }

  /** The `if (ctx) { ... }` block of performLogin: find the form and fill both fields. */
  method FillCredentials(scopes: seq<Scope>) returns (r: Credentials)
    ensures r == CredentialStep(scopes)
  {
    var ctx := FindLoginContext(scopes);
    if ctx.None? {
      return NoForm;
    }
    var sc := scopes[ctx.value];
    var userOk := sc.userLabel && sc.userLabelVisible;
    if !userOk {
      var pick := FillFirstVisible(sc.userFields);
      userOk := pick.Some?;
    }
    if !userOk {
      return MissingUser;
    }
    if ctx.value != 0 {
      return FrameForm;
    }
    var passOk := sc.passLabel && sc.passLabelVisible;
    if !passOk {
      var pick := FillFirstVisible(sc.passFields);
      passOk := pick.Some?;
    }
    if !passOk {
      return MissingPassword;
    }
    return Submitted;
  }

  /** The body of performLogin's loop. */
  method RunRound(cfg: Config, hotp: Otp.Hotp, env: Env, at0: nat, log0: LoginLog) returns (r: RoundEnd)
    requires cfg.period > 0
    ensures r == Round(cfg, hotp, env, at0, log0)
  {
    var creds := FillCredentials(env(at0).page.scopes);
    var log := log0.(rounds := log0.rounds + 1, forms := log0.forms + [creds]);
    var at := at0 + 1;
    if creds == MissingUser {
      return Finished(LoginRun(Failure(MissingUserField), at, log));
    } else if creds == FrameForm {
      return Finished(LoginRun(Failure(TabInFrame), at, log));
    } else if creds == MissingPassword {
      return Finished(LoginRun(Failure(MissingPasswordField), at, log));
    } else if creds == Submitted {
      log := log.(credentials := log.credentials + 1);
    }
    var two := Solve2FA(cfg, hotp, env, at);
    log := log.(twoFactor := log.twoFactor + [two]);
    at := two.next;
    if two.outcome.Failure? {
      return Finished(LoginRun(two.outcome, at, log));
    }
    var authed := IsFullyAuthenticated(env(at).page);
    at := at + 1;
    if authed {
      log := log.(persisted := log.persisted + 1);
      return Finished(LoginRun(Success, at, log));
    }
    return Again(at, log);
  }

  /** `performLogin(page)`. A Failure outcome stands for the exception it throws. */
  method PerformLogin(cfg: Config, hotp: Otp.Hotp, env: Env) returns (run: LoginRun)
    requires cfg.period > 0
    ensures run == Login(cfg, hotp, env)
  {
    if !BaseUrlSet(cfg) {
      return LoginRun(Failure(MissingBaseUrl), 0, NoLog);
    }
    var at, log := 0, NoLog;
    var round := 1;
    while round <= MaxRounds
      invariant Rounds(cfg, hotp, env, round, at, log) == Login(cfg, hotp, env)
      decreases MaxRounds - round
    {
      var step := RunRound(cfg, hotp, env, at, log);
      if step.Finished? {
        return step.run;
      }
      at, log := step.at, step.log;
      round := round + 1;
    }
    return LoginRun(Failure(LoginFailed), at, log);
  }
}
