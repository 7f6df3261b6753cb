/** The register form (src/components/register-form.tsx): the message it
    shows for the `error` query parameter (two codes only) and the redirect
    its submit handler issues for the result of `registerAction`. */
module RegisterForm {
  import opened Common
  import opened Navigation
  import opened AuthForm
  import opened AuthActions
  import LoginForm

  const EmailExistsMessage := "This email is already registered. Please log in instead."
  const RegistrationFailedMessage := "Registration failed. Please try again."

  /** The error message for the `error` query parameter. */
  function ErrorMessage(errorParam: Option<string>): (m: Option<string>)
    ensures m.Some? <==> errorParam == Some("email_exists") || errorParam == Some("registration_failed")
  {
    if errorParam == Some("email_exists") then Some(EmailExistsMessage)
    else if errorParam == Some("registration_failed") then Some(RegistrationFailedMessage)
    else None
  }

  /** The register form recognises a strict subset of the login form's
      codes and shows the same text for them; `invalid_credentials` and
      `login_failed` show a message on the login form only. */
  lemma RecognisesFewerCodesThanLoginForm(errorParam: Option<string>)
    ensures ErrorMessage(errorParam).Some? ==> LoginForm.ErrorMessage(errorParam) == ErrorMessage(errorParam)
    ensures ErrorMessage(Some(ErrorCode(InvalidCredentials))).None?
    ensures ErrorMessage(Some(ErrorCode(LoginFailed))).None?
    ensures LoginForm.ErrorMessage(Some(ErrorCode(InvalidCredentials))).Some?
    ensures LoginForm.ErrorMessage(Some(ErrorCode(LoginFailed))).Some?
  {
    if errorParam == Some("email_exists") {
      assert errorParam == Some(ErrorCode(EmailExists));
    } else if errorParam == Some("registration_failed") {
      assert errorParam == Some(ErrorCode(RegistrationFailed));
    }
  }

  const RegisteredLocation := Location("/login", [("registered", "true")])

  /** `handleSubmit`'s redirect for the settled `registerAction` call; when
      the action throws, no redirect happens. */
  function RedirectFor(result: Settled<ActionResult>): (target: Option<Location>)
    ensures target.None? <==> result.Thrown?
    ensures target.Some? ==> target.value.path == "/login"
    ensures target == Some(RegisteredLocation) <==> result == Returned(Success)
  {
    match result
    case Thrown => None
    case Returned(r) =>
      if r.Success? then Some(RegisteredLocation)
      else if r.error == EmailExists then Some(LoginForm.LoginErrorLocation(EmailExists))
      else Some(LoginForm.LoginErrorLocation(RegistrationFailed))
  }

  /** Every failure other than `email_exists` is reported as
      `registration_failed`. */
  lemma FailuresCollapse(e: AuthError)
    ensures RedirectFor(Returned(Failure(e))) ==
      Some(LoginForm.LoginErrorLocation(if e == EmailExists then EmailExists else RegistrationFailed))
  {
  }

  /** Wherever the register form redirects, the login page shows exactly
      one banner: the success message after a registration, the matching
      error message otherwise. The register form's own error mapping is
      never reached from its own redirects. */
  lemma RedirectLandsOnOneBanner(result: Settled<ActionResult>)
    requires result.Returned?
    ensures var b := LoginForm.BannerAt(RedirectFor(result).value);
      && (b.success.Some? <==> result.value.Success?)
      && (b.error.Some? <==> result.value.Failure?)
      && (result == Returned(Failure(EmailExists)) ==> b.error == Some(EmailExistsMessage))
      && (result.value.Failure? && result.value.error != EmailExists ==> b.error == Some(RegistrationFailedMessage))
    ensures RedirectFor(result).value.path != "/register"
  {
    var r := result.value;
    if r.Failure? {
      var e := if r.error == EmailExists then EmailExists else RegistrationFailed;
      LoginForm.ErrorRedirectShowsMessage(e);
    } else {
      assert ErrorCode(EmailExists) == "email_exists";
    }
  }

  /** The literal URLs the handler redirects to. */
  lemma RegisteredHref()
    ensures Href(RedirectFor(Returned(Success)).value) == "/login?registered=true"
  {
    HrefOneParam("/login", "registered", "true");
  }

  lemma EmailExistsHref()
    ensures Href(RedirectFor(Returned(Failure(EmailExists))).value) == "/login?error=email_exists"
  {
    assert RedirectFor(Returned(Failure(EmailExists))).value == Location("/login", [("error", "email_exists")]);
    HrefOneParam("/login", "error", "email_exists");
  }

  lemma RegistrationFailedHref(e: AuthError)
    requires e != EmailExists
    ensures Href(RedirectFor(Returned(Failure(e))).value) == "/login?error=registration_failed"
  {
    FailuresCollapse(e);
    assert RedirectFor(Returned(Failure(e))).value == Location("/login", [("error", "registration_failed")]);
    HrefOneParam("/login", "error", "registration_failed");
  }

  /** `handleSubmit`: calls `registerAction` on the store and redirects on
      its result. */
  method HandleSubmit(store: UserStore, values: FormValues, hasher: Hasher, salt: string, faults: RegisterFaults)
    returns (target: Option<Location>)
    requires store.Valid()
    modifies store
    ensures store.Valid()
    ensures target == RedirectFor(RegisterResult(old(store.users), values, faults))
    ensures target == Some(RegisteredLocation) ==>
      store.users == old(store.users)[values.register.email := NewUser(values.register, hasher, salt)]
    ensures target != Some(RegisteredLocation) ==> store.users == old(store.users)
  {
    var result := store.RegisterAction(values, hasher, salt, faults);
    target := RedirectFor(result);
  }
}
