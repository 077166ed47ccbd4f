/** The logic of the login page (src/pages/Login/LoginPage.tsx): its
    validator, the return target read from the guard's navigation state,
    the outcome of its submit callback and the redirect of an already
    signed-in visitor. */
module LoginPage {
  import opened Types
  import JsStrings
  import FieldRules
  import UseForm
  import RouteGuard

  datatype LoginFormData = LoginFormData(email: string, password: string)

  /** The page state beyond the form engine: the banner message. */
  datatype Page = Page(form: UseForm.Form, loginError: string)

  const EmailKey: string := "email"
  const PasswordKey: string := "password"

  const PasswordRequired: string := "Password is required"
  const PasswordTooShort: string := "Password must be at least 6 characters"
  const MinPasswordLength: nat := 6

  /** Where a successful login goes when no return target was recorded. */
  const DefaultTarget: string := "/dashboard"

  const LoginFailedBanner: string := "Login failed. Please check your credentials."

  /** `{ email: '', password: '' }`. */
  function InitialValues(): (v: UseForm.Values)
    ensures v.Keys == {EmailKey, PasswordKey}
    ensures v[EmailKey] == "" && v[PasswordKey] == ""
  {
    map[EmailKey := "", PasswordKey := ""]
  }

  function FormData(values: UseForm.Values): LoginFormData {
    LoginFormData(FieldRules.Field(values, EmailKey), FieldRules.Field(values, PasswordKey))
  }

  /** The password check: required, then at least six UTF-16 code units
      (no trimming). */
  function PasswordCheck(password: string): (r: Option<string>)
    ensures password == "" ==> r == Some(PasswordRequired)
    ensures 0 < JsStrings.Utf16Length(password) < MinPasswordLength ==> r == Some(PasswordTooShort)
    ensures r.None? <==> JsStrings.Utf16Length(password) >= MinPasswordLength
  {
    if password == "" then Some(PasswordRequired)
    else if JsStrings.Utf16Length(password) < MinPasswordLength then Some(PasswordTooShort)
    else None
  }

  /** The page's `validate`: a sparse map with a key exactly for each
      failing field, carrying that field's first failing rule's message. */
  function Validate(d: LoginFormData, isValidEmail: string -> bool): (errors: UseForm.Errors)
    ensures errors.Keys <= {EmailKey, PasswordKey}
    ensures EmailKey !in errors <==> !JsStrings.Blank(d.email) && isValidEmail(d.email)
    ensures JsStrings.Blank(d.email) ==> errors[EmailKey] == FieldRules.EmailRequired
    ensures !JsStrings.Blank(d.email) && !isValidEmail(d.email) ==> errors[EmailKey] == FieldRules.EmailInvalid
    ensures PasswordKey !in errors <==> JsStrings.Utf16Length(d.password) >= MinPasswordLength
    ensures d.password == "" ==> errors[PasswordKey] == PasswordRequired
    ensures 0 < JsStrings.Utf16Length(d.password) < MinPasswordLength ==> errors[PasswordKey] == PasswordTooShort
  {
    var e := FieldRules.Record(map[], EmailKey, FieldRules.Email(d.email, isValidEmail));
    FieldRules.Record(e, PasswordKey, PasswordCheck(d.password))
  }

  /** The validator handed to the form engine. */
  function Validator(isValidEmail: string -> bool): UseForm.Validator {
    values => Validate(FormData(values), isValidEmail)
  }

  /** Both fields empty: exactly the two "required" messages. */
  lemma BothEmpty(isValidEmail: string -> bool)
    ensures Validate(LoginFormData("", ""), isValidEmail)
      == map[EmailKey := FieldRules.EmailRequired, PasswordKey := PasswordRequired]
  {
  }

  /** The validator passes exactly the well-formed credentials. */
  lemma ValidateEmptyIff(d: LoginFormData, isValidEmail: string -> bool)
    ensures |Validate(d, isValidEmail)| == 0
      <==> !JsStrings.Blank(d.email) && isValidEmail(d.email)
           && JsStrings.Utf16Length(d.password) >= MinPasswordLength
  {
  }

  /** `location.state?.from?.pathname || '/dashboard'`. */
  function ReturnTarget(state: Option<RouteGuard.RouteState>): (target: string)
    ensures target != ""
    ensures state.Some? && state.value.from.Some? && state.value.from.value.pathname != ""
      ==> target == state.value.from.value.pathname
    ensures !(state.Some? && state.value.from.Some? && state.value.from.value.pathname != "")
      ==> target == DefaultTarget
  {
    match state
    case Some(RouteState(Some(location))) =>
      if location.pathname != "" then location.pathname else DefaultTarget
    case _ => DefaultTarget
  }

  /** The page as first rendered. */
  function Initial(): (p: Page)
    ensures p.form == UseForm.Create(InitialValues()) && p.loginError == ""
  {
    Page(UseForm.Create(InitialValues()), "")
  }

  /** The render-time redirect of an already signed-in visitor. */
  function RedirectIfAuthenticated(isAuthenticated: bool, from: string): (nav: Option<RouteGuard.Navigation>)
    ensures nav.Some? <==> isAuthenticated
    ensures nav.Some? ==> nav.value == RouteGuard.Navigation(from, true)
  {
    if isAuthenticated then Some(RouteGuard.Navigation(from, true)) else None
  }

  /** The submit callback, up to its await: the banner is cleared. */
  function OnSubmitBegin(p: Page): (r: Page)
    ensures r.loginError == "" && r.form == p.form
  {
    p.(loginError := "")
  }

  /** The submit callback once `login` has settled: on success navigate
      to the return target, replacing the history entry; on failure show
      the banner and stay. The callback itself never rejects. */
  function OnSubmitSettled(p: Page, login: Outcome<string>, from: string)
    : (r: (Page, Option<RouteGuard.Navigation>))
    ensures r.0.form == p.form
    ensures login.Pass? ==> r.0.loginError == p.loginError && r.1 == Some(RouteGuard.Navigation(from, true))
    ensures login.Fail? ==> r.0.loginError == LoginFailedBanner && r.1.None?
  {
    match login
    case Pass => (p, Some(RouteGuard.Navigation(from, true)))
    case Fail(_) => (p.(loginError := LoginFailedBanner), None)
  }
}
