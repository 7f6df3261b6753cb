/** The login form (src/components/login-form.tsx): the messages it shows
    for the `error` and `registered` query parameters, and what its submit
    handler does with the outcome of the sign-in call. */
module LoginForm {
  import opened Common
  import opened Navigation
  import opened AuthForm
  import opened AuthActions

  const EmailExistsMessage := "This email is already registered. Please log in instead."
  const RegistrationFailedMessage := "Registration failed. Please try again."
  const InvalidCredentialsMessage := "Invalid email or password. Please try again."
  const LoginFailedMessage := "Login failed. Please try again."
  const RegisteredMessage := "Registration successful! Please log in with your credentials."

  /** The error message for the `error` query parameter (`null` when absent). */
  function ErrorMessage(errorParam: Option<string>): (m: Option<string>)
    ensures m.Some? <==> exists e :: errorParam == Some(ErrorCode(e))
    ensures forall e :: errorParam == Some(ErrorCode(e)) ==> m == Some(MessageFor(e))
  {
    if errorParam == Some("email_exists") then
      assert errorParam == Some(ErrorCode(EmailExists));
      Some(EmailExistsMessage)
    else if errorParam == Some("registration_failed") then
      assert errorParam == Some(ErrorCode(RegistrationFailed));
      Some(RegistrationFailedMessage)
    else if errorParam == Some("invalid_credentials") then
      assert errorParam == Some(ErrorCode(InvalidCredentials));
      Some(InvalidCredentialsMessage)
    else if errorParam == Some("login_failed") then
      assert errorParam == Some(ErrorCode(LoginFailed));
      Some(LoginFailedMessage)
    else
      None
  }

  /** The message the login form shows for each error of the vocabulary. */
  function MessageFor(e: AuthError): string
  {
    match e
    case EmailExists => EmailExistsMessage
    case RegistrationFailed => RegistrationFailedMessage
    case InvalidCredentials => InvalidCredentialsMessage
    case LoginFailed => LoginFailedMessage
  }

  /** Distinct errors show distinct messages. */
  lemma MessagesDistinct(e1: AuthError, e2: AuthError)
    requires e1 != e2
    ensures MessageFor(e1) != MessageFor(e2)
  {
  }

  /** The success message for the `registered` query parameter. */
  function SuccessMessage(registeredParam: Option<string>): (m: Option<string>)
    ensures m.Some? <==> registeredParam == Some("true")
    ensures m.Some? ==> m.value == RegisteredMessage
  {
    if registeredParam == Some("true") then Some(RegisteredMessage) else None
  }

  /** What the login page shows at a location: the error message and the
      success message, each read from its own parameter. */
  datatype Banner = Banner(error: Option<string>, success: Option<string>)

  function BannerAt(loc: Location): Banner
  {
    Banner(ErrorMessage(SearchParam(loc.query, "error")), SuccessMessage(SearchParam(loc.query, "registered")))
  }

  /** The login page reached with `?error=<code>` for an error of the
      vocabulary shows that error's message and no success message. */
  lemma ErrorRedirectShowsMessage(e: AuthError)
    ensures BannerAt(LoginErrorLocation(e)) == Banner(Some(MessageFor(e)), None)
  {
  }

  function LoginErrorLocation(e: AuthError): Location
  {
    Location("/login", [("error", ErrorCode(e))])
  }

  const DashboardLocation := Location("/dashboard", [])

  // ----- handleSubmit -----

  /** The response of next-auth's `signIn` (`redirect: false`). */
  datatype SignInResponse = SignInResponse(error: Option<string>)

  /** How the `signIn` promise settles: `undefined` or a response, or a
      rejection. */
  datatype SignInResult = Resolved(response: Option<SignInResponse>) | Threw

  /** The calls the submit handler makes, in order. */
  datatype Effect = SetLoading(loading: bool) | Push(to: Location) | Refresh

  /** The router calls made for a sign-in outcome. */
  function Navigate(result: SignInResult): (effects: seq<Effect>)
    ensures effects != [] && effects[0].Push?
    ensures forall i :: 0 < i < |effects| ==> effects[i] == Refresh
    ensures |effects| == (if effects[0].to == DashboardLocation then 2 else 1)
    ensures effects[0].to == DashboardLocation <==>
      result.Resolved? && !(result.response.Some? && Truthy(result.response.value.error))
  {
    match result
    case Threw => [Push(LoginErrorLocation(LoginFailed))]
    case Resolved(response) =>
      if response.Some? && Truthy(response.value.error) then [Push(LoginErrorLocation(InvalidCredentials))]
      else [Push(DashboardLocation), Refresh]
  }

  /** Every failed sign-in sends the user back to the login page with a
      code that page turns into a message: `invalid_credentials` for an
      error response, `login_failed` for a rejection. */
  lemma FailedSignInShowsMessage(result: SignInResult)
    requires Navigate(result)[0].to != DashboardLocation
    ensures Navigate(result)[0].to.path == "/login"
    ensures BannerAt(Navigate(result)[0].to).error.Some?
    ensures BannerAt(Navigate(result)[0].to).error ==
      Some(if result.Threw? then LoginFailedMessage else InvalidCredentialsMessage)
  {
    if result.Threw? {
      ErrorRedirectShowsMessage(LoginFailed);
    } else {
      ErrorRedirectShowsMessage(InvalidCredentials);
    }
  }

  /** The literal URLs the handler pushes. */
  lemma LoginFailedHref()
    ensures Href(Navigate(Threw)[0].to) == "/login?error=login_failed"
  {
    assert Navigate(Threw)[0].to == Location("/login", [("error", "login_failed")]);
    HrefOneParam("/login", "error", "login_failed");
  }

  lemma InvalidCredentialsHref(response: SignInResponse)
    requires Truthy(response.error)
    ensures Href(Navigate(Resolved(Some(response)))[0].to) == "/login?error=invalid_credentials"
  {
    assert Navigate(Resolved(Some(response)))[0].to == Location("/login", [("error", "invalid_credentials")]);
    HrefOneParam("/login", "error", "invalid_credentials");
  }

  lemma DashboardHref()
    ensures Href(Navigate(Resolved(None))[0].to) == "/dashboard"
  {
  }

  /** The login form's state: the `isLoading` flag and the calls made. */
  class LoginFormState {
    var isLoading: bool
    var effects: seq<Effect>

    constructor ()
      ensures !isLoading && effects == []
    {
      isLoading := false;
      effects := [];
    }

    method SetIsLoading(loading: bool)
      modifies this
      ensures isLoading == loading && effects == old(effects) + [SetLoading(loading)]
    {
      isLoading := loading;
      effects := effects + [SetLoading(loading)];
    }

    method RouterCall(e: Effect)
      requires !e.SetLoading?
      modifies this
      ensures isLoading == old(isLoading) && effects == old(effects) + [e]
    {
      effects := effects + [e];
    }

    /** `handleSubmit`: loading is switched on, `signIn` is called with the
        e-mail and the password, the router is driven by its outcome, and
        loading is switched off on every path. */
    method HandleSubmit(values: LoginFormValues, signIn: (string, string) -> SignInResult)
      modifies this
      ensures !isLoading
      ensures effects == old(effects) + [SetLoading(true)]
                         + Navigate(signIn(values.email, values.password)) + [SetLoading(false)]
    {
      SetIsLoading(true);
      var result := signIn(values.email, values.password);
      match result {
        case Threw =>
          RouterCall(Push(LoginErrorLocation(LoginFailed)));
        case Resolved(response) =>
          if response.Some? && Truthy(response.value.error) {
            RouterCall(Push(LoginErrorLocation(InvalidCredentials)));
          } else {
            RouterCall(Push(DashboardLocation));
            RouterCall(Refresh);
          }
      }
      SetIsLoading(false);
    }
  }
}
