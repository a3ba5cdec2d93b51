/** The login route: the server action (presence checks, then the
    identity provider's answer decides between an error and a redirect
    that carries the session cookie) and the client-side submit handler. */
module Login {
  import opened Wrappers
  import opened Forms
  import Http
  import Session

  /** A provider session; only its access token is used. */
  datatype AuthSession = AuthSession(accessToken: string)

  /** What `auth.signInWithPassword` does: answers with an error, answers
      with data whose session may be missing, or throws. */
  datatype SignInReply =
    | SignInError(message: string)
    | SignInData(session: Option<AuthSession>)
    | SignInThrows

  /** The action's `errors` record: only presence is checked. */
  method ValidateLogin(email: FormValue, password: FormValue) returns (errors: Errors)
    ensures errors.Keys <= {Email, Password}
    ensures EntryIs(errors, Email, RequiredError(email, "Email is required"))
    ensures EntryIs(errors, Password, RequiredError(password, "Password is required"))
  {
    errors := map[];
    if !Filled(email) {
      errors := errors[Email := "Email is required"];
    }
    if !Filled(password) {
      errors := errors[Password := "Password is required"];
    }
  }

  /** How the action reads the provider's answer. */
  datatype SignInOutcome = Rejected(message: string) | Authenticated(token: string)

  /** The early returns after the provider call: an error's message, a
      missing session, or an exception each reject; only a session
      authenticates, with its access token. */
  function ClassifySignIn(reply: SignInReply): (o: SignInOutcome)
    ensures o.Authenticated? <==> reply.SignInData? && reply.session.Some?
    ensures o.Authenticated? ==> o.token == reply.session.value.accessToken
    ensures reply.SignInError? ==> o == Rejected(reply.message)
    ensures reply == SignInData(None) ==> o == Rejected("Failed to sign in")
    ensures reply.SignInThrows? ==> o == Rejected("An unexpected error occurred")
  {
    match reply
    case SignInThrows => Rejected("An unexpected error occurred")
    case SignInError(message) => Rejected(message)
    case SignInData(None) => Rejected("Failed to sign in")
    case SignInData(Some(session)) => Authenticated(session.accessToken)
  }

  /** `action`. The `remember` field is read but plays no part: no clause
      below mentions it. `reply` is consulted only when both fields are
      present. */
  method Action(email: FormValue, password: FormValue, remember: FormValue, reply: SignInReply)
    returns (response: Http.Response)
    ensures fresh(response)
    ensures !(Filled(email) && Filled(password)) ==>
      && response.status == 200
      && response.body.Some? && response.body.value.ErrorRecord?
      && response.body.value.errors.Keys <= {Email, Password}
      && EntryIs(response.body.value.errors, Email, RequiredError(email, "Email is required"))
      && EntryIs(response.body.value.errors, Password, RequiredError(password, "Password is required"))
      && Http.ValuesOf(response.headers, "Set-Cookie") == []
    ensures Filled(email) && Filled(password) && ClassifySignIn(reply).Rejected? ==>
      && response.status == 200
      && response.body == Some(Http.ErrorRecord(map[Form := ClassifySignIn(reply).message]))
      && Http.ValuesOf(response.headers, "Set-Cookie") == []
    ensures Filled(email) && Filled(password) && ClassifySignIn(reply).Authenticated? ==>
      && response.status == 302
      && response.headers == [("Location", "/dashboard"), ("Set-Cookie", Session.AuthCookie(ClassifySignIn(reply).token))]
      && Http.ValuesOf(response.headers, "Set-Cookie") == [Session.AuthCookie(ClassifySignIn(reply).token)]
  {
    var errors := ValidateLogin(email, password);
    if |errors| > 0 {
      response := new Http.Response.Json(Http.ErrorRecord(errors));
      return;
    }
    assert Email !in errors && Password !in errors;
    var outcome := ClassifySignIn(reply);
    if outcome.Rejected? {
      response := new Http.Response.Json(Http.ErrorRecord(map[Form := outcome.message]));
    } else {
      var redirected := new Http.Response.Redirect("/dashboard");
      response := Session.SetAuthCookie(redirected, outcome.token);
    }
  }

  /** What the auth context's `signIn` does on the client: answers with or
      without an error, or throws. */
  datatype ClientSignIn = ClientResult(error: Option<string>) | ClientThrows

  /** The client-side state of the login form. */
  class LoginForm {
    var isLoading: bool
    var clientSideError: Option<string>
    /** The client-side navigations performed, in order. */
    var navigations: seq<string>

    constructor ()
      ensures !isLoading && clientSideError == None && navigations == []
    {
      isLoading := false;
      clientSideError := None;
      navigations := [];
    }

    /** `handleClientSideLogin`: loading while the call runs; an error
        message is shown without navigating, success navigates to the
        dashboard; loading is off afterwards in every case. */
    method HandleClientSideLogin(outcome: ClientSignIn)
      modifies this
      ensures !isLoading
      ensures outcome == ClientResult(None) ==>
        clientSideError == None && navigations == old(navigations) + ["/dashboard"]
      ensures outcome.ClientResult? && outcome.error.Some? ==>
        clientSideError == outcome.error && navigations == old(navigations)
      ensures outcome.ClientThrows? ==>
        clientSideError == Some("An unexpected error occurred") && navigations == old(navigations)
    {
      isLoading := true;
      clientSideError := None;
      match outcome {
        case ClientResult(Some(message)) =>
          clientSideError := Some(message);
        case ClientResult(None) =>
          navigations := navigations + ["/dashboard"];
        case ClientThrows =>
          clientSideError := Some("An unexpected error occurred");
      }
      isLoading := false;
    }
  }
}
