/**
 * What index.js reads off the page. A page is searched as the list of
 * scopes `[page, ...page.frames()]`; each scope is recorded by the answers
 * its locators give, so nothing here needs a browser.
 */
module PageState {
  import opened Wrappers

  /** The answers one scope (the page or a frame) gives to the locators index.js uses. */
  datatype Scope = Scope(
    usernameInput: bool,          // a visible input[name="username"] or #username
    textInput: bool,              // a visible input[type="text"]
    passwordInput: bool,          // a visible input[type="password"]
    userLabel: bool,              // a control labelled /usu[aá]rio/i
    passLabel: bool,              // a control labelled /senha/i
    otpInput: bool,               // a visible input named otp/totp/token, autocomplete one-time-code, or type tel
    userLabelVisible: bool,       // the first control labelled /usu[aá]rio/i is visible
    passLabelVisible: bool,       // the first control labelled /senha/i is visible
    userFields: seq<seq<bool>>,   // per username selector, in order, the visibility of each match
    passFields: seq<seq<bool>>,   // per password selector, in order, the visibility of each match
    invalidCode: bool,            // the text /c[oó]digo.*inv[aá]lido/i is present
    otpSubmit: bool)              // a button named /entrar|confirmar|continuar|verificar|submit/i

  /** A snapshot of the page: its scopes, main page first, and two texts matched on the main page. */
  datatype Page = Page(
    scopes: seq<Scope>,
    cookieError: bool,            // /cookie.*not.*found/, /sentimos.*muito/ or /make.*sure.*cookies.*enabled/
    errorText: bool)              // /erro/, /error/, /acesso.*negado/ or /access.*denied/

  /** The condition of findLoginContext (index.js:82). */
  predicate IsLoginScope(s: Scope) {
    ((s.usernameInput || s.textInput) && s.passwordInput) || s.userLabel || s.passLabel
  }

  /** The condition of findOtpContext (index.js:88-89); a plain text input counts too. */
  predicate IsOtpScope(s: Scope) {
    s.otpInput || s.textInput
  }

  /** The index of the first element satisfying `p`, if any. */
  function First<T>(s: seq<T>, p: T -> bool): (r: Option<nat>)
    ensures r.Some? ==> r.value < |s| && p(s[r.value])
    ensures r.Some? ==> forall j :: 0 <= j < r.value ==> !p(s[j])
    ensures r.None? <==> forall j :: 0 <= j < |s| ==> !p(s[j])
  {
    if s == [] then None
    else if p(s[0]) then Some(0)
    else
      var rest := First(s[1..], p);
      assert forall j :: 1 <= j < |s| ==> s[j] == s[1..][j - 1];
      if rest.None? then None else Some(rest.value + 1)
  }

  /** `findLoginContext(page)`: the first scope holding a login form. */
  method FindLoginContext(scopes: seq<Scope>) returns (r: Option<nat>)
    ensures r == First(scopes, IsLoginScope)
  {
    for i := 0 to |scopes|
      invariant forall j :: 0 <= j < i ==> !IsLoginScope(scopes[j])
    {
      if IsLoginScope(scopes[i]) {
        return Some(i);
      }
    }
    return None;
  }

  /** `findOtpContext(page)`: the first scope holding an OTP-like field. */
  method FindOtpContext(scopes: seq<Scope>) returns (r: Option<nat>)
    ensures r == First(scopes, IsOtpScope)
  {
    for i := 0 to |scopes|
      invariant forall j :: 0 <= j < i ==> !IsOtpScope(scopes[j])
    {
      if IsOtpScope(scopes[i]) {
        return Some(i);
      }
    }
    return None;
  }

  /** Which match of which selector received the typing. */
  datatype Pick = Pick(selector: nat, element: nat)

  /**
   * The visible element fillFirstVisible types into: the first visible
   * match of the first selector that has one.
   */
  function FirstVisible(matches: seq<seq<bool>>): (r: Option<Pick>)
    ensures r.Some? ==> var sel, el := r.value.selector, r.value.element;
      && sel < |matches| && el < |matches[sel]| && matches[sel][el]
      && (forall i, j :: 0 <= i < sel && 0 <= j < |matches[i]| ==> !matches[i][j])
      && (forall j :: 0 <= j < el ==> !matches[sel][j])
    ensures r.None? <==> forall i, j :: 0 <= i < |matches| && 0 <= j < |matches[i]| ==> !matches[i][j]
  {
    if matches == [] then None
    else
      var visible := (v: bool) => v;
      var here := First(matches[0], visible);
      if here.Some? then Some(Pick(0, here.value))
      else
        var rest := FirstVisible(matches[1..]);
        assert forall i :: 1 <= i < |matches| ==> matches[i] == matches[1..][i - 1];
        if rest.None? then None else Some(Pick(rest.value.selector + 1, rest.value.element))
  }

  /** `fillFirstVisible(scope, sels, val, page)`: the nested search, returning what it typed into. */
  method FillFirstVisible(matches: seq<seq<bool>>) returns (r: Option<Pick>)
    ensures r == FirstVisible(matches)
  {
    for i := 0 to |matches|
      invariant forall i', j :: 0 <= i' < i && 0 <= j < |matches[i']| ==> !matches[i'][j]
    {
      var n := |matches[i]|;
      for j := 0 to n
        invariant forall j' :: 0 <= j' < j ==> !matches[i][j']
      {
        if matches[i][j] {
          return Some(Pick(i, j));
        }
      }
    }
    return None;
  }

  /** The decision isFullyAuthenticated reaches on one snapshot of the page. */
  predicate Authenticated(p: Page) {
    && !p.cookieError
    && First(p.scopes, IsLoginScope).None?
    && First(p.scopes, IsOtpScope).None?
    && !p.errorText
  }

  /** `isFullyAuthenticated(page)`: no cookie error, no login form, no OTP field, no error text. */
  method IsFullyAuthenticated(p: Page) returns (b: bool)
    ensures b == Authenticated(p)
    ensures b <==> && !p.cookieError
                   && (forall i :: 0 <= i < |p.scopes| ==> !IsLoginScope(p.scopes[i]))
                   && (forall i :: 0 <= i < |p.scopes| ==> !IsOtpScope(p.scopes[i]))
                   && !p.errorText
  {
    if p.cookieError {
      return false;
    }
    var login := FindLoginContext(p.scopes);
    if login.Some? {
      return false;
    }
    var otp := FindOtpContext(p.scopes);
    if otp.Some? {
      return false;
    }
    if p.errorText {
      return false;
    }
    return true;
  }

  /** clickIfExists (index.js:64-73) finds a submit button in the scope where the OTP field was found. */
  predicate OtpSubmitShown(p: Page, ctx: nat) {
    ctx < |p.scopes| && p.scopes[ctx].otpSubmit
  }

  /** The "código inválido" probe, made in the scope where the OTP field was found. */
  predicate InvalidCodeShown(p: Page, ctx: nat) {
    ctx < |p.scopes| && p.scopes[ctx].invalidCode
  }

  /**
   * A login form whose user field is a plain text input is also an OTP
   * context: findOtpContext stops at it or at an earlier scope.
   */
  lemma LoginFormAlsoOtpContext(p: Page)
    requires First(p.scopes, IsLoginScope).Some?
    requires p.scopes[First(p.scopes, IsLoginScope).value].textInput
    ensures First(p.scopes, IsOtpScope).Some?
    ensures First(p.scopes, IsOtpScope).value <= First(p.scopes, IsLoginScope).value
  {
    var i := First(p.scopes, IsLoginScope).value;
    assert IsOtpScope(p.scopes[i]);
  }
}
