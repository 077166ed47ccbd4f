/** The components working together: the login page driving the form
    engine and the session manager, the guard's redirect feeding the
    login page's return target, and the contact page's submit cycle. */
module Scenarios {
  import opened Types
  import JsStrings
  import AuthApi
  import AuthContext
  import RouteGuard
  import UseForm
  import LoginPage
  import ContactPage
  import FieldRules

  /** Everything one press of the login button can change. */
  datatype LoginRun = LoginRun(
    page: LoginPage.Page, auth: AuthContext.AuthState, store: AuthApi.Store,
    nav: Option<RouteGuard.Navigation>)

  /** `handleSubmit` on the login page, run to completion: validate; if
      that passes, clear the banner, run `login` with the submitted
      fields, react to its outcome, and leave the submitting state. */
  function SubmitLogin(
    page: LoginPage.Page, auth: AuthContext.AuthState, store: AuthApi.Store,
    isValidEmail: string -> bool, from: string): (r: LoginRun)
    ensures var d := LoginPage.FormData(page.form.values);
      |LoginPage.Validate(d, isValidEmail)| > 0 ==>
        && r.page.form.errors == LoginPage.Validate(d, isValidEmail)
        && r.page.form.values == page.form.values
        && r.page.form.isSubmitting == page.form.isSubmitting
        && r.page.loginError == page.loginError
        && r.auth == auth && r.store == store && r.nav.None?
    ensures var d := LoginPage.FormData(page.form.values);
      |LoginPage.Validate(d, isValidEmail)| == 0 ==>
        && AuthContext.IsAuthenticated(r.auth) && r.auth.user.value.email == d.email
        && !r.auth.isLoading
        && AuthApi.HasSession(r.store) && AuthApi.GetCurrentUser(r.store) == r.auth.user
        && r.nav == Some(RouteGuard.Navigation(from, true))
        && r.page.loginError == ""
        && !r.page.form.isSubmitting
        && r.page.form.values == page.form.values && r.page.form.errors == page.form.errors
  {
    match UseForm.BeginSubmit(page.form, Some(LoginPage.Validator(isValidEmail)))
    case Rejected(form) =>
      LoginRun(page.(form := form), auth, store, None)
    case Submitting(form, payload) =>
      var p1 := LoginPage.OnSubmitBegin(page.(form := form));
      var d := LoginPage.FormData(payload);
      var (auth', store', outcome) := AuthContext.Login(auth, store, d.email, d.password);
      var (p2, nav) := LoginPage.OnSubmitSettled(p1, outcome, from);
      var (form', _) := UseForm.EndSubmit(p2.form, Pass);
      LoginRun(p2.(form := form'), auth', store', nav)
  }

  /** The guard's redirect and the login page's fallback agree: a visitor
      turned away from a non-empty path `p` is sent back to `p`, and to
      the dashboard only when nothing usable was recorded. */
  lemma RedirectCarriesReturnTarget(location: RouteGuard.Location)
    ensures var d := RouteGuard.Decide(false, false, location);
      && d.Redirect?
      && (location.pathname != "" ==> LoginPage.ReturnTarget(Some(d.state)) == location.pathname)
      && (location.pathname == "" ==> LoginPage.ReturnTarget(Some(d.state)) == LoginPage.DefaultTarget)
  {
  }

  /** The whole journey: a signed-out visitor asks for `location`, is
      redirected to the login page, types valid credentials and submits;
      the session is established and persisted, the page navigates back
      to the requested path, and the guard now renders it. */
  lemma GuardLoginReturnRoundTrip(
    auth: AuthContext.AuthState, store: AuthApi.Store, location: RouteGuard.Location,
    email: string, password: string, isValidEmail: string -> bool)
    requires !auth.isLoading && auth.user.None?
    requires location.pathname != ""
    requires !JsStrings.Blank(email) && isValidEmail(email)
    requires JsStrings.Utf16Length(password) >= LoginPage.MinPasswordLength
    ensures var d := RouteGuard.Guard(auth, location);
      && d.Redirect?
      && var from := LoginPage.ReturnTarget(Some(d.state));
      && from == location.pathname
      && var p0 := LoginPage.Initial();
      && var form := UseForm.HandleChange(UseForm.HandleChange(p0.form, LoginPage.EmailKey, email),
                                          LoginPage.PasswordKey, password);
      && var run := SubmitLogin(p0.(form := form), auth, store, isValidEmail, from);
      && run.nav == Some(RouteGuard.Navigation(location.pathname, true))
      && run.auth.user.Some? && run.auth.user.value.email == email
      && AuthApi.HasSession(run.store)
      && RouteGuard.Guard(run.auth, location) == RouteGuard.RenderChildren
  {
  }

  /** The end-to-end scenario of the form engine with the login
      validator, first half: an empty submit is rejected with both
      "required" messages and never enters the submitting state. */
  lemma EmptyLoginRejected(isValidEmail: string -> bool)
    ensures var s0 := UseForm.BeginSubmit(LoginPage.Initial().form, Some(LoginPage.Validator(isValidEmail)));
      && s0.Rejected?
      && s0.form.errors == map[LoginPage.EmailKey := "Email is required",
                               LoginPage.PasswordKey := "Password is required"]
      && !s0.form.isSubmitting
  {
  }

  /** Second half: after typing a valid email and a seven-character
      password into any form of the login page, the submit hands exactly
      those two fields to `onSubmit`. */
  lemma FilledLoginSubmitted(f: UseForm.Form, isValidEmail: string -> bool)
    requires f.values.Keys == {LoginPage.EmailKey, LoginPage.PasswordKey}
    requires isValidEmail("a@b.com")
    ensures var f1 := UseForm.HandleChange(UseForm.HandleChange(f, "email", "a@b.com"), "password", "secret1");
      && var s1 := UseForm.BeginSubmit(f1, Some(LoginPage.Validator(isValidEmail)));
      && s1.Submitting?
      && s1.payload == map["email" := "a@b.com", "password" := "secret1"]
  {
    var f1 := UseForm.HandleChange(UseForm.HandleChange(f, "email", "a@b.com"), "password", "secret1");
    assert f1.values == map["email" := "a@b.com", "password" := "secret1"];
    var data := LoginPage.FormData(f1.values);
    assert data == LoginPage.LoginFormData("a@b.com", "secret1");
    assert !JsStrings.IsJsWhitespace("a@b.com"[0]);
    assert JsStrings.Utf16Length("secret1") >= |"secret1"| == 7;
    LoginPage.ValidateEmptyIff(data, isValidEmail);
  }

  /** Both halves in sequence, as one session at the keyboard. */
  lemma LoginFormScenario(isValidEmail: string -> bool)
    requires isValidEmail("a@b.com")
    ensures var s0 := UseForm.BeginSubmit(LoginPage.Initial().form, Some(LoginPage.Validator(isValidEmail)));
      && s0.Rejected?
      && var f1 := UseForm.HandleChange(UseForm.HandleChange(s0.form, "email", "a@b.com"), "password", "secret1");
      && UseForm.BeginSubmit(f1, Some(LoginPage.Validator(isValidEmail))).Submitting?
      && UseForm.BeginSubmit(f1, Some(LoginPage.Validator(isValidEmail))).payload
         == map["email" := "a@b.com", "password" := "secret1"]
  {
    EmptyLoginRejected(isValidEmail);
    var s0 := UseForm.BeginSubmit(LoginPage.Initial().form, Some(LoginPage.Validator(isValidEmail)));
    FilledLoginSubmitted(s0.form, isValidEmail);
  }

  /** A fully valid contact message that the service accepts: the form
      goes through the submitting state, comes back out of it, and ends
      reset to the four empty fields with the success banner shown. */
  lemma ContactSuccessResets(
    page: ContactPage.Page, isValidEmail: string -> bool, response: ApiResponse<string>)
    requires !page.form.isSubmitting
    requires ContactPage.AllValid(ContactPage.FormData(page.form.values), isValidEmail)
    requires response.success
    ensures var s := UseForm.BeginSubmit(page.form, Some(ContactPage.Validator(isValidEmail)));
      && s.Submitting?
      && s.payload == page.form.values
      && var p1 := ContactPage.OnSubmitSettled(page.(form := s.form), Responded(response));
      && var done := UseForm.EndSubmit(p1.form, Pass).0;
      && p1.status == ContactPage.Success
      && done.values == ContactPage.InitialValues()
      && |done.errors| == 0
      && !done.isSubmitting
  {
  }

  /** Sending the contact page as first rendered is refused: every field
      is reported with its "required" message, nothing reaches the service
      and the form stays as it was. */
  lemma EmptyContactRejected(isValidEmail: string -> bool)
    ensures var s := UseForm.BeginSubmit(ContactPage.Initial().form, Some(ContactPage.Validator(isValidEmail)));
      && s.Rejected?
      && s.form.errors == map[
        ContactPage.NameKey := ContactPage.NameRequired, ContactPage.EmailKey := FieldRules.EmailRequired,
        ContactPage.SubjectKey := ContactPage.SubjectRequired, ContactPage.MessageKey := ContactPage.MessageRequired]
      && s.form.values == ContactPage.InitialValues()
      && !s.form.isSubmitting
  {
  }

  /** A contact submission that fails keeps what the visitor typed and
      shows the failure banner; the form still leaves the submitting
      state. */
  lemma ContactFailureKeepsValues(page: ContactPage.Page, result: Settled<string>)
    requires page.form.isSubmitting
    requires !(result.Responded? && result.response.success)
    ensures var p1 := ContactPage.OnSubmitSettled(page, result);
      && p1.status == ContactPage.Error
      && p1.statusMessage == ContactPage.FailureMessage
      && UseForm.EndSubmit(p1.form, Pass).0.values == page.form.values
      && !UseForm.EndSubmit(p1.form, Pass).0.isSubmitting
  {
  }

  /** Signing out makes the guard turn the visitor away again. */
  lemma LogoutThenGuardRedirects(auth: AuthContext.AuthState, store: AuthApi.Store, location: RouteGuard.Location)
    requires !auth.isLoading
    ensures var (auth', _) := AuthContext.Logout(auth, store);
      RouteGuard.Guard(auth', location) == RouteGuard.Redirect(RouteGuard.LoginPath, RouteGuard.RouteState(Some(location)), true)
  {
  }
}
