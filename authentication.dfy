/**
 * `src/components/authentication.py`: who is signed in, logging in and out,
 * storing a provider result, token refresh and the decisions of the login
 * and sign-up forms. The sign-in keys live in the session bag.
 */
module Authentication {
  import opened Wrappers
  import opened Json
  import opened Exceptions
  import opened SessionState
  import Cognito
  import ApiClient

  // ---------------------------------------------------------------------
  // is_authenticated / get_username / get_token
  // ---------------------------------------------------------------------

  /** `is_authenticated()`: a token is stored and it is not empty. */
  function IsAuthenticated(s: Snapshot): (r: bool)
    ensures r <==> s.userToken.Some? && s.userToken.value != ""
  {
    SessionState.Truthy(s.userToken)
  }

  /** `get_username()`: the stored username while signed in, otherwise None. */
  function GetUsername(s: Snapshot): (r: Option<string>)
    ensures IsAuthenticated(s) ==> r == s.username
    ensures !IsAuthenticated(s) ==> r.None?
  {
    if IsAuthenticated(s) then s.username else None
  }

  /** `get_token()`: the stored token, even an empty one, whether or not that counts as signed in. */
  function GetToken(s: Snapshot): (r: Option<string>)
    ensures IsAuthenticated(s) <==> r.Some? && r.value != ""
  {
    s.userToken
  }

  /** Requests to the backend carry a bearer token exactly while the user is signed in. */
  lemma AuthorizationHeaderIffSignedIn(s: Snapshot)
    ensures "Authorization" in ApiClient.GetHeaders(s) <==> IsAuthenticated(s)
    ensures IsAuthenticated(s) ==> ApiClient.GetHeaders(s)["Authorization"] == "Bearer " + GetToken(s).value
  {
  }

  /** A 401 from the backend, once its body is read, signs the user out. */
  lemma UnauthorizedSignsOut(s: Snapshot, body: ApiClient.Body, text: string)
    requires ApiClient.ResponseErrorMessage(body, text).Ok?
    ensures !IsAuthenticated(ApiClient.ResponseErrorStep(s, 401, body, text).0)
    ensures GetUsername(ApiClient.ResponseErrorStep(s, 401, body, text).0).None?
  {
  }

  // ---------------------------------------------------------------------
  // logout
  // ---------------------------------------------------------------------

  /** The bag after `logout()`: token and username gone, every other key as it was. */
  function LoggedOut(s: Snapshot): Snapshot {
    s.(userToken := None, username := None)
  }

  method Logout(bag: Bag) returns (exit: Exit<()>)
    requires bag.Valid()
    modifies bag
    ensures bag.Valid()
    ensures bag.View() == LoggedOut(old(bag.View())) && exit == Rerun
  {
    if bag.userToken.Some? {
      bag.userToken := None;
    }
    if bag.username.Some? {
      bag.username := None;
    }
    exit := Rerun;
  }

  /**
   * After a logout nobody is signed in and no username is reported; the
   * refresh token stays; a second logout changes nothing.
   */
  lemma LogoutSignsOut(s: Snapshot)
    ensures !IsAuthenticated(LoggedOut(s)) && GetUsername(LoggedOut(s)).None?
    ensures LoggedOut(s).refreshToken == s.refreshToken
    ensures LoggedOut(LoggedOut(s)) == LoggedOut(s)
    ensures Consistent(s) ==> Consistent(LoggedOut(s))
  {
  }

  // ---------------------------------------------------------------------
  // _handle_successful_auth
  // ---------------------------------------------------------------------

  /**
   * The bag after `_handle_successful_auth(result)` and how it ends: the
   * token is stored first; a result without `Username` then raises, with the
   * token already stored; otherwise the username is stored and the page reruns.
   */
  function SuccessfulAuth(s: Snapshot, result: Cognito.TokenDict): (r: (Snapshot, Exit<()>))
    ensures r.1 == Rerun || r.1 == Raised(KeyError("AccessToken")) || r.1 == Raised(KeyError("Username"))
  {
    if result.accessToken.None? then (s, Raised(KeyError("AccessToken")))
    else
      var stored := s.(userToken := result.accessToken);
      if result.username.None? then (stored, Raised(KeyError("Username")))
      else (stored.(username := result.username), Rerun)
  }

  method HandleSuccessfulAuth(bag: Bag, result: Cognito.TokenDict) returns (exit: Exit<()>)
    requires bag.Valid()
    modifies bag
    ensures bag.Valid()
    ensures (bag.View(), exit) == SuccessfulAuth(old(bag.View()), result)
  {
    if result.accessToken.None? {
      return Raised(KeyError("AccessToken"));
    }
    bag.userToken := result.accessToken;
    if result.username.None? {
      return Raised(KeyError("Username"));
    }
    bag.username := result.username;
    exit := Rerun;
  }

  /**
   * A complete result stores exactly its access token and username, and no
   * refresh token; a result without `Username` leaves the new token stored
   * and the old username in place.
   */
  lemma SuccessfulAuthStores(s: Snapshot, result: Cognito.TokenDict)
    requires result.accessToken.Some?
    ensures var (t, exit) := SuccessfulAuth(s, result);
      && t.userToken == result.accessToken
      && (result.username.Some? ==> exit == Rerun && t == s.(userToken := result.accessToken, username := result.username))
      && (result.username.None? ==> exit.Raised? && t == s.(userToken := result.accessToken))
      && t.refreshToken == s.refreshToken
  {
  }

  // ---------------------------------------------------------------------
  // refresh_token
  // ---------------------------------------------------------------------

  /**
   * The bag after `refresh_token()` and how it ends, as written: without a
   * stored refresh token it returns False at once; otherwise any exception,
   * including the `KeyError` raised while storing the result, logs out.
   */
  function RefreshStep(s: Snapshot, provider: Cognito.InitiateAuthRequest -> Cognito.ClientReply<Cognito.InitiateAuthResponse>): (r: (Snapshot, Exit<bool>))
  {
    if !SessionState.Truthy(s.refreshToken) then (s, Returned(false))
    else match Cognito.RefreshToken(s.refreshToken.value, provider)
      case Err(_) => (LoggedOut(s), Rerun)
      case Ok(result) =>
        var (t, exit) := SuccessfulAuth(s, result);
        match exit
        case Raised(_) => (LoggedOut(t), Rerun)
        case Rerun => (t, Rerun)
        case Returned(_) => (t, Returned(true))
  }

  method RefreshToken(bag: Bag, provider: Cognito.InitiateAuthRequest -> Cognito.ClientReply<Cognito.InitiateAuthResponse>)
    returns (exit: Exit<bool>)
    requires bag.Valid()
    modifies bag
    ensures bag.Valid()
    ensures (bag.View(), exit) == RefreshStep(old(bag.View()), provider)
  {
    if bag.refreshToken.None? || bag.refreshToken.value == "" {
      return Returned(false);
    }
    var result := Cognito.RefreshToken(bag.refreshToken.value, provider);
    if result.Err? {
      var _ := Logout(bag);
      return Rerun;
    }
    var stored := HandleSuccessfulAuth(bag, result.value);
    if stored.Raised? {
      var _ := Logout(bag);
      return Rerun;
    }
    if stored.Rerun? {
      return Rerun;
    }
    exit := Returned(true);
  }

  /** Without a stored refresh token, `refresh_token()` returns False whatever the provider would say. */
  lemma RefreshWithoutTokenReturnsFalse(s: Snapshot, provider: Cognito.InitiateAuthRequest -> Cognito.ClientReply<Cognito.InitiateAuthResponse>)
    requires !SessionState.Truthy(s.refreshToken)
    ensures RefreshStep(s, provider) == (s, Returned(false))
  {
  }

  /**
   * As written, a refresh with a stored refresh token always ends signed
   * out, whatever the provider answers: a refresh result has no `Username`,
   * so storing it raises after the token was set, and the handler logs out.
   * It never returns True.
   */
  lemma RefreshAlwaysSignsOut(s: Snapshot, provider: Cognito.InitiateAuthRequest -> Cognito.ClientReply<Cognito.InitiateAuthResponse>)
    requires SessionState.Truthy(s.refreshToken)
    ensures RefreshStep(s, provider) == (LoggedOut(s), Rerun)
    ensures !IsAuthenticated(RefreshStep(s, provider).0)
  {
    var r := Cognito.RefreshToken(s.refreshToken.value, provider);
    if r.Ok? {
      assert r.value.username.None?;
      var (t, exit) := SuccessfulAuth(s, r.value);
      assert LoggedOut(t) == LoggedOut(s);
    }
  }

  /**
   * The refresh as evidently intended: a successful provider answer
   * replaces the access token and keeps the username, and the page reruns
   * signed in; a failure logs out.
   */
  function IntendedRefreshStep(s: Snapshot, provider: Cognito.InitiateAuthRequest -> Cognito.ClientReply<Cognito.InitiateAuthResponse>): (r: (Snapshot, Exit<bool>))
  {
    if !SessionState.Truthy(s.refreshToken) then (s, Returned(false))
    else match Cognito.RefreshToken(s.refreshToken.value, provider)
      case Err(_) => (LoggedOut(s), Rerun)
      case Ok(result) => (s.(userToken := result.accessToken), Rerun)
  }

  /**
   * With the intended refresh, a provider answer carrying a non-empty
   * access token leaves the user signed in under the same name, with only
   * the token replaced.
   */
  lemma IntendedRefreshKeepsUserSignedIn(s: Snapshot, provider: Cognito.InitiateAuthRequest -> Cognito.ClientReply<Cognito.InitiateAuthResponse>)
    requires SessionState.Truthy(s.refreshToken)
    requires var reply := provider(Cognito.RefreshRequest(s.refreshToken.value));
      reply.Answer? && reply.response.result.Some? && reply.response.result.value.accessToken != ""
    ensures var (t, _) := IntendedRefreshStep(s, provider);
      && IsAuthenticated(t) && GetUsername(t) == s.username
      && GetToken(t) == Some(provider(Cognito.RefreshRequest(s.refreshToken.value)).response.result.value.accessToken)
      && t.(userToken := s.userToken) == s
  {
  }

  // ---------------------------------------------------------------------
  // Login form
  // ---------------------------------------------------------------------

  /**
   * The login form: nothing happens unless it was submitted with both
   * fields non-empty; then a successful sign-in stores the result, and any
   * exception is shown as "Login failed: " and its text.
   */
  function LoginStep(s: Snapshot, submitted: bool, username: string, password: string,
                     provider: Cognito.InitiateAuthRequest -> Cognito.ClientReply<Cognito.InitiateAuthResponse>): Outcome
  {
    if !(submitted && username != "" && password != "") then Outcome(s, Returned(()), None)
    else match Cognito.Authenticate(username, password, provider)
      case Err(e) => Outcome(s, Returned(()), Some("Login failed: " + Str(e)))
      case Ok(result) =>
        var (t, exit) := SuccessfulAuth(s, result);
        if exit.Raised? then Outcome(t, Returned(()), Some("Login failed: " + Str(exit.exception)))
        else Outcome(t, exit, None)
  }

  method LoginSubmit(bag: Bag, submitted: bool, username: string, password: string,
                     provider: Cognito.InitiateAuthRequest -> Cognito.ClientReply<Cognito.InitiateAuthResponse>)
    returns (exit: Exit<()>, shown: Option<string>)
    requires bag.Valid()
    modifies bag
    ensures bag.Valid()
    ensures Outcome(bag.View(), exit, shown) == LoginStep(old(bag.View()), submitted, username, password, provider)
  {
    if !(submitted && username != "" && password != "") {
      return Returned(()), None;
    }
    var result := Cognito.Authenticate(username, password, provider);
    if result.Err? {
      return Returned(()), Some("Login failed: " + Str(result.error));
    }
    exit := HandleSuccessfulAuth(bag, result.value);
    shown := None;
    if exit.Raised? {
      exit, shown := Returned(()), Some("Login failed: " + Str(exit.exception));
    }
  }

  /**
   * A login that the provider accepts signs the user in under the name
   * typed, with the provider's access token, and reruns the page; one it
   * refuses changes nothing and shows why; an incomplete form never reaches
   * the provider.
   */
  lemma LoginOutcomes(s: Snapshot, submitted: bool, username: string, password: string,
                      provider: Cognito.InitiateAuthRequest -> Cognito.ClientReply<Cognito.InitiateAuthResponse>,
                      other: Cognito.InitiateAuthRequest -> Cognito.ClientReply<Cognito.InitiateAuthResponse>)
    ensures var o := LoginStep(s, submitted, username, password, provider);
      var r := Cognito.Authenticate(username, password, provider);
      && (!(submitted && username != "" && password != "") ==> o == LoginStep(s, submitted, username, password, other) && o.after == s)
      && (submitted && username != "" && password != "" && r.Ok? ==>
            && o.after == s.(userToken := r.value.accessToken, username := Some(username))
            && o.exit == Rerun && GetUsername(o.after) == (if IsAuthenticated(o.after) then Some(username) else None))
      && (submitted && username != "" && password != "" && r.Err? ==>
            o == Outcome(s, Returned(()), Some("Login failed: " + Str(r.error))))
  {
  }

  // ---------------------------------------------------------------------
  // Sign-up form
  // ---------------------------------------------------------------------

  /** A message the sign-up form shows. */
  datatype Notice = ErrorNotice(text: string) | SuccessNotice(text: string)

  const SignUpSucceeded := "Sign up successful! Please check your email for verification."

  /**
   * The sign-up form: mismatched passwords are refused before anything
   * else; the provider is called only when username, email and password are
   * all non-empty.
   */
  function SignUpForm(submitted: bool, username: string, email: string, password: string, confirm: string,
                      provider: Cognito.SignUpRequest -> Cognito.ClientReply<Cognito.SignUpResponse>): Option<Notice>
  {
    if !submitted then None
    else if password != confirm then Some(ErrorNotice("Passwords do not match"))
    else if username == "" || email == "" || password == "" then None
    else match Cognito.SignUpOutcome(provider(Cognito.SignUpRequest(username, password, Cognito.UserAttributes(email, []))))
      case Ok(_) => Some(SuccessNotice(SignUpSucceeded))
      case Err(e) => Some(ErrorNotice("Sign up failed: " + Str(e)))
  }

  method SignUpSubmit(submitted: bool, username: string, email: string, password: string, confirm: string,
                      provider: Cognito.SignUpRequest -> Cognito.ClientReply<Cognito.SignUpResponse>)
    returns (shown: Option<Notice>)
    ensures shown == SignUpForm(submitted, username, email, password, confirm, provider)
  {
    if !submitted {
      return None;
    }
    if password != confirm {
      return Some(ErrorNotice("Passwords do not match"));
    }
    if username == "" || email == "" || password == "" {
      return None;
    }
    var result := Cognito.SignUp(username, email, password, [], provider);
    if result.Ok? {
      shown := Some(SuccessNotice(SignUpSucceeded));
    } else {
      shown := Some(ErrorNotice("Sign up failed: " + Str(result.error)));
    }
  }

  /**
   * Mismatched passwords are refused whatever else was typed and without
   * consulting the provider; an incomplete form shows nothing and does not
   * consult it either; a complete one reports success exactly when the
   * provider registers the user, sending only the email as attribute.
   */
  lemma SignUpFormDecisions(submitted: bool, username: string, email: string, password: string, confirm: string,
                            provider: Cognito.SignUpRequest -> Cognito.ClientReply<Cognito.SignUpResponse>,
                            other: Cognito.SignUpRequest -> Cognito.ClientReply<Cognito.SignUpResponse>)
    requires submitted
    ensures password != confirm ==> SignUpForm(submitted, username, email, password, confirm, provider) == Some(ErrorNotice("Passwords do not match"))
    ensures password == confirm && (username == "" || email == "" || password == "")
            ==> SignUpForm(submitted, username, email, password, confirm, provider) == None
    ensures password != confirm || username == "" || email == "" || password == ""
            ==> SignUpForm(submitted, username, email, password, confirm, provider) == SignUpForm(submitted, username, email, password, confirm, other)
    ensures password == confirm && username != "" && email != "" && password != ""
            ==> (SignUpForm(submitted, username, email, password, confirm, provider) == Some(SuccessNotice(SignUpSucceeded))
                 <==> provider(Cognito.SignUpRequest(username, password, [("email", email)])).Answer?)
  {
    assert Cognito.UserAttributes(email, []) == [("email", email)];
  }
}
