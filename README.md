# TOTP timing and login retry logic of the eproc automation scripts

This project models, in Dafny, the part of the repository with real logic in it:

- the TOTP clock arithmetic of `index.js`, `totp-skew.js`, `get-totp.js` and `totp-check.js`: the current step, the seconds and milliseconds left in it, and the epoch of a neighbouring step;
- how the secret is read from `TOTP_SECRET`: whitespace is stripped, the result is trimmed, and an empty secret is refused;
- how `index.js` reads the page: `findLoginContext`, `findOtpContext`, `fillFirstVisible` and `isFullyAuthenticated`;
- the two retry loops of `index.js`:
  - `solve2FA` makes up to `TOTP_TRIES` OTP attempts, sleeping to the next step after a "código inválido";
  - `performLogin` runs up to three rounds of credentials and 2FA.

The one-time-password library is a parameter `hotp: (secret, counter, digits) -> code`. The model computes the counter from the millisecond epoch as section 4.2 of RFC 6238 prescribes. The keyed hash and the dynamic truncation of section 5.3 of RFC 4226 are left to that parameter.

The browser is a script of observations, `env: nat -> Obs`. Each observation pairs a page snapshot with a clock reading. Each snapshot is a list of scopes, `[page, ...page.frames()]`. A scope records the yes/no answers its locators give. The model takes one observation per step of the loops:

- the credential step of a round reads all its answers from one snapshot: `findLoginContext` and the label and selector searches that fill the form (index.js:237-270);
- `findOtpContext`, each `isFullyAuthenticated` call and the "código inválido" check each read the next snapshot;
- each `getTotp()` and `msToNextStep()` in solve2FA reads the clock of the next observation; the submit-button search that follows the typed code (index.js:174) reads the snapshot of the same observation as its `getTotp()`.

The arithmetic uses `JsMath`, which models JavaScript's operations on integers:

- `Math.floor` of a quotient;
- `Math.ceil` of a quotient;
- the truncating `%` operator, whose remainder takes the sign of the dividend.

`solve2FA`, `performLogin`, the scope searches and `fillFirstVisible` are methods with loops. Each is proved to compute a reference function: `Login.TwoFactor`, `Login.Login`, `PageState.First` and `PageState.FirstVisible`. What the source promises is proved about those functions in `LoginFacts` and `LoginScenarios`.

Modules:

| file | module | models |
|---|---|---|
| wrappers.dfy | Wrappers | Option and Result |
| js_math.dfy | JsMath | JavaScript floor, ceil and `%` on integers |
| otp.dfy | Otp | the moving factor of `authenticator.generate` |
| secret.dfy | Secret | the secret normalisation shared by the three scripts |
| clock.dfy | Clock | `stepNow`, `secondsLeft`, `msToNextStep`, `genTotp` of index.js |
| totp_skew.dfy | TotpSkew | totp-skew.js |
| get_totp.dfy | GetTotp | get-totp.js |
| totp_check.dfy | TotpCheck | totp-check.js |
| page.dfy | PageState | the page probes of index.js |
| login.dfy | Login | `solve2FA` and `performLogin` |
| login_facts.dfy | LoginFacts | what every run of the two loops satisfies |
| login_scenarios.dfy | LoginScenarios | particular sites and clocks, worked out in full |

Four behaviours of the code decide how the rounds end:

- **Error text does not end the rounds.** `isFullyAuthenticated` answers false when the page shows generic error text (index.js:112-117), and performLogin simply goes on to its next round until the three rounds are used up (index.js:231, 309-333). `LoginScenarios.ErrorPageExhaustsRounds` works this out for a page with error text and no form.
- **A missing form field throws at once.** When a login form is found but no user field can be filled (index.js:252-255), or no password field (index.js:271-274), performLogin throws in that round and no later round runs.
- **A frame has no keyboard.** The scopes are `[page, ...page.frames()]`, and only the page has a `keyboard`. A login form found in a frame gets its user name typed, and then `ctx.keyboard.press('Tab')` (index.js:260) throws a TypeError, so performLogin ends in that round (`LoginScenarios.FrameLoginFails`). An OTP field found in a frame whose submit button is not found makes `ctx.keyboard.press('Enter')` (index.js:175) throw right after the code of the first attempt whose snapshot shows no submit button, and solve2FA ends with that error rather than its own.
- **solve2FA's throw is not caught.** performLogin calls `solve2FA` outside any `try` (index.js:302), so once solve2FA throws after its last attempt, performLogin ends with that error and runs no further round.

## Model

| member | source | states |
|---|---|---|
| JsMath.Floor | index.js:123 | `Math.floor(a / b)` for b > 0 is the unique q with q·b <= a < q·b + b |
| JsMath.Rem | index.js:126 | JavaScript `a % b`: a = trunc(a/b)·b + r; r lies in [0, b) for a >= 0 and in (-b, 0] for a < 0 |
| JsMath.Ceil | index.js:126 | `Math.ceil(a / b)` is the c with c·b - b < a <= c·b |
| Otp.Counter | index.js:131 | the counter of an epoch is the step window containing it, as in section 4.2 of RFC 6238 |
| Otp.Generate | index.js:131 | `authenticator.generate(secret, {epoch})`, the caller-supplied hotp applied to Counter; GenerateInWindow states its value |
| Otp.GenerateInWindow | index.js:131 | every epoch inside window k yields the code of counter k |
| Secret.StripSpaces | get-totp.js:8 | `.replace(/\s+/g,'')` leaves no ECMAScript white space and never lengthens the string |
| Secret.StripSpacesKeepsOthers | get-totp.js:8 | stripping keeps every non-space character, as often as it occurred |
| Secret.StripSpacesAppend | get-totp.js:8 | stripping a concatenation concatenates the stripped parts, so the kept characters stay in their order |
| Secret.IsJsSpace | get-totp.js:8 | the characters `\s` and `trim` treat as white space in ECMAScript; the facts about them are those of StripSpaces, TrimStart and TrimEnd |
| Secret.Trim | get-totp.js:8 | `.trim()` as TrimEnd of TrimStart; TrimOfSpaceless states what it does to the stripped secret |
| Secret.TrimStart | get-totp.js:8 | the result is a suffix; it starts with a non-space or is empty; only spaces were removed |
| Secret.TrimEnd | get-totp.js:8 | the result is a prefix; it ends with a non-space or is empty; only spaces were removed |
| Secret.Normalize | get-totp.js:8 | the normalised secret (the same text in totp-skew.js:8 and totp-check.js:8) contains no white space |
| Secret.TrimOfSpaceless | get-totp.js:8 | the trailing `.trim()` does nothing to the stripped secret |
| Secret.NormalizeIdempotent | get-totp.js:8 | normalising twice is normalising once |
| Secret.Load | get-totp.js:9 | the secret is accepted iff its normalisation is non-empty, and is then exactly that normalisation; otherwise the error is MissingSecret |
| Secret.BlankSecretRejected | totp-skew.js:8-9 | a secret made only of white space is refused like a missing one |
| Clock.StepNow | index.js:123 | `stepNow()` is the k with k·P·1000 <= now + offset < (k+1)·P·1000 |
| Clock.StepNowMonotone | index.js:123 | `stepNow()` never decreases while the clock moves forward |
| Clock.SecondsLeft | index.js:124-127 | `secondsLeft()` with JavaScript ceil and `%`; SecondsLeftBounds states its range and meaning |
| Clock.SecondsLeftBounds | index.js:124-127 | on a non-negative corrected clock `secondsLeft()` lies in [1, P] and counts the started seconds until the next step boundary |
| Clock.MsToNextStep | index.js:128 | `msToNextStep()` with JavaScript `%`; MsToNextStepBounds and AlignedWaitAdvancesStep state its range and meaning |
| Clock.MsToNextStepBounds | index.js:128 | on a non-negative corrected clock the wait lies in [201, P·1000 + 200] and waking after it lands 200 ms into step `stepNow()+1` |
| Clock.AlignedWaitAdvancesStep | index.js:128 | for any sign of the corrected clock, waking at least `msToNextStep()` later lands in a later step |
| Clock.GenEpoch | index.js:129-130 | genTotp's `base`; GenEpochAligned states its alignment |
| Clock.GenTotp | index.js:129-132 | `genTotp(secret, stepOffset)`; GenTotpCounter states its counter |
| Clock.GenEpochAligned | index.js:129-130 | genTotp's `base` is a multiple of P·1000; consecutive stepOffsets are P·1000 apart; base(0) <= now + offset < base(1) |
| Clock.GenTotpCounter | index.js:129-132 | `genTotp(secret, k)` is the code of counter `stepNow() + k` |
| Clock.GenTotpFreshAfterAlignedWait | index.js:129-132 | a genTotp code taken after a step-aligned wait belongs to a later counter than any genTotp code taken before the wait |
| TotpSkew.Epoch | totp-skew.js:11-15 | `epoch(stepOffset)`; EpochAligned, ThreeWindows and AgreesWithIndexClock state its meaning |
| TotpSkew.SecsLeft | totp-skew.js:16 | `secsLeft()`; SecsLeftBounds and AgreesWithIndexClock state its range and meaning |
| TotpSkew.EpochAligned | totp-skew.js:11-15 | `epoch(k)` is a multiple of the step, and `epoch(k+1) - epoch(k)` is the step |
| TotpSkew.ThreeWindows | totp-skew.js:11-21 | epoch(-1), epoch(0), epoch(+1) are consecutive step starts with epoch(0) <= now + OFFSET < epoch(+1) |
| TotpSkew.SecsLeftBounds | totp-skew.js:16 | on a non-negative corrected clock `secsLeft()` lies in [1, PERIOD] |
| TotpSkew.AgreesWithIndexClock | totp-skew.js:11-16 | `epoch` and `secsLeft` agree with index.js's genTotp base and secondsLeft |
| TotpSkew.Show | totp-skew.js:18-22 | prev, curr and next are the codes of counters k-1, k and k+1, with k the corrected step; secsLeft is in [1, PERIOD] when now + OFFSET_MS >= 0 |
| TotpSkew.Run | totp-skew.js:8-24 | the script exits iff the normalised secret is empty, and otherwise shows the codes for that secret |
| GetTotp.SecsLeft | get-totp.js:11-14 | `secsLeft()` on the raw clock; SecsLeftBounds states its range |
| GetTotp.GetTotp | get-totp.js:16-19 | `getTotp()`, the code of the raw clock; GetTotpIgnoresOffset and GetTotpConstantInStep state its counter |
| GetTotp.SecsLeftBounds | get-totp.js:11-14 | on a non-negative raw clock `secsLeft()` lies in [1, PERIOD] |
| GetTotp.GetTotpIgnoresOffset | get-totp.js:16-19 | `getTotp()` is the code of the raw step floor(now/P/1000) and equals index.js's genTotp(secret, 0) on a clock shifted back by the offset |
| GetTotp.GetTotpConstantInStep | get-totp.js:16-19 | two readings in the same raw step give the same code |
| TotpCheck.SecsLeft | totp-check.js:11-14 | `secsLeft()` on the raw clock; SecsLeftMatchesSkew states its meaning and range |
| TotpCheck.SecsLeftMatchesSkew | totp-check.js:11-14 | `secsLeft()` is totp-skew.js's secsLeft with OFFSET = 0 and lies in [1, PERIOD] on a non-negative clock |
| TotpCheck.Show | totp-check.js:16-19 | the code is that of the raw step, and equals totp-skew.js's `curr` with OFFSET = 0 |
| TotpCheck.Run | totp-check.js:8-21 | the script exits iff the normalised secret is empty, and otherwise shows the code for that secret |
| PageState.IsLoginScope | index.js:78-82 | the test findLoginContext applies to each scope; FindLoginContext and LoginFormAlsoOtpContext state its use |
| PageState.IsOtpScope | index.js:88-89 | the test findOtpContext applies to each scope; FindOtpContext states its use |
| PageState.First | index.js:77-83 | the index of the first element satisfying the condition and none before it; None iff no element satisfies it |
| PageState.FindLoginContext | index.js:75-84 | the loop returns the first scope with a visible username-or-text input and a password input, or a user or password label; null iff there is none |
| PageState.FindOtpContext | index.js:85-91 | the loop returns the first scope with an OTP-like or plain text input; null iff there is none |
| PageState.FirstVisible | index.js:43-55 | the visible match typed into is the first visible match of the first selector that has one; none iff no match is visible |
| PageState.FillFirstVisible | index.js:43-55 | the nested loops pick exactly `FirstVisible` |
| PageState.IsFullyAuthenticated | index.js:92-121 | true iff there is no cookie error, no scope with a login form, no scope with an OTP field and no error text |
| PageState.OtpSubmitShown | index.js:174 | clickIfExists (index.js:64-73) finds a submit button in the OTP scope; SubmitGoesThrough and FrameEnterAttempt state what it decides |
| PageState.InvalidCodeShown | index.js:189 | the "código inválido" locator in the OTP scope; RejectedAttempt and AttemptVerdicts state what it decides |
| PageState.LoginFormAlsoOtpContext | index.js:78-89 | a login form whose user field is a plain text input is also found by findOtpContext, at that scope or earlier |
| Login.SubmitGoesThrough | index.js:174-175 | the OTP code is submitted: a button was clicked, or Enter pressed on the page's own keyboard; FrameEnterAttempt states what happens otherwise |
| Login.RunAttempt | index.js:147-208 | one pass of solve2FA's loop computes `Login.Attempt`, including the Enter that throws in a frame |
| Login.Solve2FA | index.js:134-212 | `solve2FA` computes the run `Login.TwoFactor`, including the Enter TypeError of an OTP field in a frame without a submit button |
| Login.BaseUrlSet | index.js:215 | `BASE_URL` is set and non-empty; PerformLoginFacts states what it decides |
| Login.CanFillUser | index.js:244-251 | tryFillByLabel (index.js:56-63) with /usu[aá]rio/i, or fillFirstVisible over the username selectors; FillCredentials states what it decides |
| Login.CanFillPassword | index.js:263-270 | tryFillByLabel (index.js:56-63) with /senha/i, or fillFirstVisible over the password selectors; FillCredentials states what it decides |
| Login.FillCredentials | index.js:237-275 | the credential step computes `Login.CredentialStep`: no form, a missing user field, a form in a frame whose Tab throws after the user name, a missing password field, or submitted |
| Login.RunRound | index.js:231-327 | one pass of performLogin's loop computes `Login.Round`, which ends performLogin on a missing field, on the Tab TypeError of a login form in a frame, or on a solve2FA throw |
| Login.PerformLogin | index.js:214-334 | `performLogin` computes the run `Login.Login`, whose facts PerformLoginFacts states |
| LoginFacts.AcceptedAttempt | index.js:183-186 | an attempt whose code was submitted and whose first authentication probe answers true ends solve2FA with Success right after that probe, the log being the code typed followed by Accepted |
| LoginFacts.RejectedAttempt | index.js:189-199 | a submitted attempt that sees "código inválido" goes on to the next attempt with the code typed and Rejected logged, followed, exactly when attempt < TOTP_TRIES, by a wait of `msToNextStep()` at the clock read then |
| LoginFacts.UnconfirmedAttempt | index.js:201-207 | a submitted attempt with neither verdict settles and probes once more: Success if that probe answers true, otherwise the next attempt with only the code typed and Settled logged, and no wait |
| LoginFacts.FrameEnterAttempt | index.js:174-175 | an attempt whose OTP scope is a frame with no submit button ends solve2FA with the Enter TypeError right after typing its code |
| LoginFacts.AttemptVerdicts | index.js:150-207 | an attempt ends solve2FA iff its Enter threw or a probe answered authenticated, and with Success iff the code was submitted; it types one code; it adds a wait iff "código inválido" was shown and attempt < TOTP_TRIES |
| LoginFacts.AttemptStep | index.js:150-207 | every attempt either ends the run with the facts of a found-field run or keeps the attempt bookkeeping (codes typed, waits, no acceptance) for the next |
| LoginFacts.AttemptsFacts | index.js:147-211 | from any attempt on, at most TOTP_TRIES codes and TOTP_TRIES-1 waits in all; each wait follows a rejection; success comes only right after an accepted probe; the 2FA error comes only after all TOTP_TRIES codes, and the Enter TypeError only right after a code typed in a frame with no submit button |
| LoginFacts.TwoFactorFacts | index.js:134-211 | solve2FA makes attempts iff an OTP field is found; with none it returns after zero attempts; otherwise the facts of AttemptsFacts hold; it reads at most 1 + 4·TOTP_TRIES observations |
| LoginFacts.TwoFactorWaitsInRange | index.js:189-197 | on a non-negative corrected clock every step-aligned wait lasts 201 to P·1000+200 ms |
| LoginFacts.TwoFactorRunFacts | index.js:302 | a solve2FA run seen from performLogin: bounded codes and waits; if it throws, an OTP field was found and the reason is either the 2FA failure after all TOTP_TRIES codes or the Enter TypeError |
| LoginFacts.RoundCases | index.js:237-326 | a round logs its credential step, and its solve2FA run iff it reached solve2FA; a missing user or password field, or a login form in a frame (TabInFrame), ends performLogin at once with that error; a solve2FA throw ends it with that throw; otherwise it ends with Success iff the next probe answers authenticated, with one session save, and goes on to the next round if not |
| LoginFacts.MissingFieldRound | index.js:244-274 | a round with a missing field ends performLogin in that round, right after the credential step |
| LoginFacts.FailedTwoFactorRound | index.js:302 | a round whose solve2FA throws ends performLogin with the facts of LoginRunFacts |
| LoginFacts.AuthenticatedRound | index.js:309-321 | a round confirmed authenticated after solve2FA ends performLogin with Success and the facts of LoginRunFacts |
| LoginFacts.AgainRound | index.js:322-326 | a round not confirmed authenticated keeps the round bookkeeping: every earlier form passed and every earlier solve2FA returned |
| LoginFacts.RoundStep | index.js:231-326 | a round either ends the run with the facts of LoginRunFacts or keeps the round bookkeeping |
| LoginFacts.RoundsFacts | index.js:231-333 | from any round on, the run satisfies LoginRunFacts: only the last round may have a missing field, a form in a frame or a solve2FA throw, each of which is its error; every earlier solve2FA returned; submitted forms are counted; one session save iff Success |
| LoginFacts.PerformLoginFacts | index.js:214-334 | performLogin throws MissingBaseUrl iff BASE_URL is unset or empty, and then before any observation; otherwise there are 1 to 3 rounds, one session save iff success, and success only right after an accepted probe; LoginFailed only after 3 rounds; the last round ends with MissingUserField or MissingPasswordField iff its credential step found that field missing, with TabInFrame iff its login form was in a frame, and with solve2FA's own error (TwoFactorFailed or EnterInFrame) iff its solve2FA threw; every earlier round passed its credential step and its solve2FA returned |
| LoginScenarios.RejectedOnce | index.js:189-199 | on a rejecting page one attempt types one code, records one rejection and waits unless it is the last |
| LoginScenarios.AttemptsAlwaysRejected | index.js:147-211 | on a rejecting page the remaining attempts all run and the loop throws |
| LoginScenarios.AlwaysRejectedExhaustsTries | index.js:134-211 | a site that rejects every code gets exactly TOTP_TRIES codes and TOTP_TRIES-1 waits, then solve2FA throws |
| LoginScenarios.StaleRetry | index.js:147-199 | with TOTP_OFFSET_MS = 15000 the code retyped after the step-aligned wait is the same code of counter 0, although the corrected step has advanced; genTotp would give counter 1 |
| LoginScenarios.RetryFreshWithoutOffset | index.js:194 | with no offset, the code getTotp gives after a step-aligned wait is that of a later counter than the code it gave before the wait |
| LoginScenarios.FrameLoginFails | index.js:237-260 | a login form found in a frame with a fillable user field ends performLogin in round 1 with the Tab TypeError: no password, no solve2FA, no session save |
| LoginScenarios.ErrorPageExhaustsRounds | index.js:112-117 | a page with error text and no form is never authenticated; performLogin uses all 3 rounds, types nothing, saves nothing, and throws LoginFailed |

## Left out

- The one-time-password library (`otplib`): the HMAC and the dynamic truncation are the caller-supplied `hotp`. Only the step counter it derives from the epoch is modelled.
- Configuration parsing: `process.env`, `dotenv` and `Number(...)` parsing. Periods, digits, tries and offsets are given integers. Fractional or NaN values from `Number()` are not modelled, and `TOTP_PERIOD > 0` is assumed.
- Playwright effects: navigation, clicks, typing, Tab and Enter, `waitForLoadState`, screenshots, `ensureDir` and the `storageState` write. The write is counted as `persisted`; the rest are not represented.
- Which of the two OTP inputs receives the code (`#otp` or the field findOtpContext found, index.js:157-168): it does not change the control flow.
- Whether the login form is submitted by a button or by Enter (index.js:280-286): a form in a frame has already thrown at Tab, so the Enter runs on the page's own keyboard and does not change the control flow. For the OTP form the choice does matter and is modelled (`Login.SubmitGoesThrough`).
- `randomDelay`, `humanDelay`, `typeHumanLike`, and the fixed 2000 ms and `networkidle` waits: they are timing only. The only wait recorded is the step-aligned one, and the 2000 ms settle appears as the `Settled` event.
- The cookie-count check of performLogin (index.js:224-229): it only adds a delay.
- `tryFillByLabel` is reduced to its decision, a label that exists and is visible. `clickIfExists` is reduced to its decision for the OTP submit (index.js:174), whether a submit button is found (`Scope.otpSubmit`, `PageState.OtpSubmitShown`); for the login submit (index.js:280) it is not represented.
- `isFullyAuthenticated` makes four separate probes of the live page. The model reads them all from one snapshot.
- Playwright actions that throw: `page.goto` (index.js:217), the `click` and `type` of typeHumanLike (index.js:35-40, called at index.js:50, 59, 162 and 166) the `click()` of clickIfExists (index.js:67 and 70, reached from the OTP submit at index.js:174 and the login submit at index.js:280) and the screenshots (index.js:298, 305, 316). Any of these throws aborts performLogin, and the model has no outcome for it.
- An unset `EPROC_USERNAME` or `EPROC_PASSWORD`: `for (const char of text)` (index.js:37) then throws inside typeHumanLike and aborts performLogin. The model assumes both are set.
- The OTP scope `ctx` that findOtpContext returns (index.js:140) is a live frame. The model identifies it by its position in later snapshots when it reads the "código inválido" check (index.js:189).
- A probe that throws inside Playwright is not modelled. An `isVisible()` failure reads as false, which matches the source's `.catch(()=>false)`.
- `gotoPrazos`, `main`, `ask`/`readline`, `process.exit` and the console output: UI scripting and I/O outside the login logic.
- The `setInterval` display loops of totp-skew.js and totp-check.js: each `show()` is modelled at one clock reading.
- `TOTP_SKEW`, `FORCE_LOGIN` and session reuse: none of them is used on the login path.
- TotpSkew.SecsLeftBounds, Clock.SecondsLeftBounds, Clock.MsToNextStepBounds, GetTotp.SecsLeftBounds and TotpCheck.SecsLeftMatchesSkew: the bounds are stated only for a non-negative (corrected) clock. With a negative dividend the JavaScript `%` is negative and the values leave the stated range.
- Otp.Generate: assumes that `authenticator.generate(secret, { epoch })` (index.js:131, totp-skew.js:19-21) generates the code of that epoch. otplib is not part of this model; if its `generate` takes the secret alone and ignores a second argument, genTotp and totp-skew.js's prev, curr and next all give the raw-clock code, and the corrected behaviour of the Findings row then also needs the epoch set through `authenticator.options`.
- Login.Solve2FA: the model keeps `getTotp()` as the source does. The offset-corrected generator appears only in `Clock.GenTotp`, which index.js defines but never calls (see Findings).

## Findings

| source | as written | input that shows it | evidently intended | confidence | as-written member | corrected member |
|---|---|---|---|---|---|---|
| index.js:150 | solve2FA types `getTotp()`, whose counter comes from the raw clock. The wait before a retry, `msToNextStep()` (index.js:194), is aligned to the clock corrected by `TOTP_OFFSET_MS`. So with a non-zero offset the retry can submit the same counter again. | TOTP_PERIOD 30, TOTP_OFFSET_MS 15000, TOTP_TRIES 2, raw clock 0 at the first attempt: the wait is 15200 ms, and at 15200 the raw counter is still 0, so the rejected code is typed again | the code typed after a step-aligned wait comes from the offset-corrected clock, as `genTotp(secret)` (index.js:129-132) computes it, so it belongs to a later counter | not executed | LoginScenarios.StaleRetry | Clock.GenTotpFreshAfterAlignedWait |
