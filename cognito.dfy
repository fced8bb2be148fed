/**
 * `src/services/cognito.py`: the identity-provider calls. The provider is
 * an oracle per call that maps the request to its answer, a `ClientError`
 * with an error code and message, or some other exception; the model states
 * how each answer is shaped into a result and how each error code becomes
 * the text of an `AuthError`.
 */
module Cognito {
  import opened Wrappers
  import opened Text
  import opened Json
  import opened Exceptions

  /** What a provider call gives back. */
  datatype ClientReply<+T> =
    | Answer(response: T)
    | ClientError(code: string, message: string)
    | OtherFailure(exception: Exception)

  /** An `initiate_auth` request: the flow name and its parameters. */
  datatype InitiateAuthRequest = InitiateAuthRequest(flow: string, parameters: map<string, string>)

  /** The `AuthenticationResult` of an `initiate_auth` answer; a refresh answer carries no refresh token. */
  datatype AuthenticationResult = AuthenticationResult(accessToken: string, refreshToken: Option<string>, expiresIn: int)

  /** An `initiate_auth` answer; without `AuthenticationResult` when the provider poses a challenge instead. */
  datatype InitiateAuthResponse = InitiateAuthResponse(result: Option<AuthenticationResult>)

  /** The dict `authenticate` and `refresh_token` return: a key it does not hold is None. */
  datatype TokenDict = TokenDict(accessToken: Option<string>, refreshToken: Option<string>,
                                 expiresIn: Option<int>, username: Option<string>)

  /**
   * How one call's `except ClientError` clause names the error: two error
   * codes with fixed texts, tried in order, and a prefix put before the
   * provider's message for every other code.
   */
  datatype ErrorTexts = ErrorTexts(code1: string, text1: string, code2: string, text2: string, prefix: string)

  /** The two codes differ, and neither fixed text can be mistaken for the other or for a prefixed message. */
  predicate Distinguishable(t: ErrorTexts) {
    t.code1 != t.code2 && t.text1 != t.text2 && !StartsWith(t.text1, t.prefix) && !StartsWith(t.text2, t.prefix)
  }

  /**
   * The `AuthError` text for a provider error: the first code's text, the
   * second code's text, or the prefixed message. When the table is
   * distinguishable, each fixed text appears exactly for its code.
   */
  function ProviderErrorText(t: ErrorTexts, code: string, message: string): (m: string)
    ensures code == t.code1 ==> m == t.text1
    ensures code != t.code1 && code == t.code2 ==> m == t.text2
    ensures code != t.code1 && code != t.code2 ==> m == t.prefix + message
    ensures Distinguishable(t) ==> (m == t.text1 <==> code == t.code1) && (m == t.text2 <==> code == t.code2)
  {
    if code == t.code1 then t.text1
    else if code == t.code2 then t.text2
    else
      var m := t.prefix + message;
      assert m[..|t.prefix|] == t.prefix;
      m
  }

  // ---------------------------------------------------------------------
  // authenticate
  // ---------------------------------------------------------------------

  function AuthenticateRequest(username: string, password: string): InitiateAuthRequest {
    InitiateAuthRequest("USER_PASSWORD_AUTH", map["USERNAME" := username, "PASSWORD" := password])
  }

  const AuthenticateErrors :=
    ErrorTexts("NotAuthorizedException", "Invalid username or password",
               "UserNotConfirmedException", "Please verify your email address", "Authentication failed: ")

  /**
   * `authenticate(username, password)`: on success the three tokens of the
   * provider's result together with the username given; a provider error
   * becomes an `AuthError`; a missing result or refresh token is a `KeyError`.
   */
  function Authenticate(username: string, password: string,
                        provider: InitiateAuthRequest -> ClientReply<InitiateAuthResponse>): (r: Result<TokenDict, Exception>)
    ensures var reply := provider(AuthenticateRequest(username, password));
      && (r.Ok? <==> reply.Answer? && reply.response.result.Some? && reply.response.result.value.refreshToken.Some?)
      && (r.Ok? ==> var ar := reply.response.result.value;
            && r.value.accessToken == Some(ar.accessToken) && r.value.refreshToken == ar.refreshToken
            && r.value.expiresIn == Some(ar.expiresIn) && r.value.username == Some(username))
      && (reply.ClientError? ==> r == Err(Raise(AuthError, ProviderErrorText(AuthenticateErrors, reply.code, reply.message))))
  {
    match provider(AuthenticateRequest(username, password))
    case Answer(response) =>
      (match response.result
       case None => Err(KeyError("AuthenticationResult"))
       case Some(ar) =>
         if ar.refreshToken.None? then Err(KeyError("RefreshToken"))
         else Ok(TokenDict(Some(ar.accessToken), ar.refreshToken, Some(ar.expiresIn), Some(username))))
    case ClientError(code, message) => Err(Raise(AuthError, ProviderErrorText(AuthenticateErrors, code, message)))
    case OtherFailure(e) => Err(e)
  }

  // ---------------------------------------------------------------------
  // sign_up
  // ---------------------------------------------------------------------

  /** A `sign_up` request: username, password and the user attributes as (name, value) pairs. */
  datatype SignUpRequest = SignUpRequest(username: string, password: string, attributes: seq<(string, string)>)

  /** A `sign_up` answer, which is also what `sign_up` returns. */
  datatype SignUpResponse = SignUpResponse(userSub: string, userConfirmed: bool)

  /** One extra attribute as sent: its name and `str()` of its value. */
  function Attribute(entry: (string, Json)): (string, string) {
    (entry.0, Display(entry.1))
  }

  /**
   * The attribute list `sign_up` sends: the email first, then each extra
   * attribute in the dict's iteration order, its value stringified.
   */
  function UserAttributes(email: string, attributes: seq<(string, Json)>): (r: seq<(string, string)>)
    ensures |r| == |attributes| + 1 && r[0] == ("email", email)
    ensures forall i :: 0 <= i < |attributes| ==> r[i + 1] == (attributes[i].0, Display(attributes[i].1))
  {
    [("email", email)] + seq(|attributes|, i requires 0 <= i < |attributes| => Attribute(attributes[i]))
  }

  /** The loop that builds the attribute list. */
  method BuildUserAttributes(email: string, attributes: seq<(string, Json)>) returns (r: seq<(string, string)>)
    ensures r == UserAttributes(email, attributes)
  {
    r := [("email", email)];
    var i := 0;
    while i < |attributes|
      invariant 0 <= i <= |attributes|
      invariant |r| == i + 1 && r[0] == ("email", email)
      invariant forall k :: 0 <= k < i ==> r[k + 1] == Attribute(attributes[k])
    {
      r := r + [Attribute(attributes[i])];
      i := i + 1;
    }
    assert forall k :: 0 <= k < |r| ==> r[k] == UserAttributes(email, attributes)[k];
  }

  const SignUpErrors :=
    ErrorTexts("UsernameExistsException", "Username already exists",
               "InvalidPasswordException", "Password does not meet requirements", "Sign up failed: ")

  /** What `sign_up` makes of the provider's reply. */
  function SignUpOutcome(reply: ClientReply<SignUpResponse>): (r: Result<SignUpResponse, Exception>)
    ensures reply.Answer? <==> r.Ok?
    ensures reply.Answer? ==> r.value == reply.response
    ensures reply.ClientError? ==> r == Err(Raise(AuthError, ProviderErrorText(SignUpErrors, reply.code, reply.message)))
    ensures reply.OtherFailure? ==> r == Err(reply.exception)
  {
    match reply
    case Answer(response) => Ok(response)
    case ClientError(code, message) => Err(Raise(AuthError, ProviderErrorText(SignUpErrors, code, message)))
    case OtherFailure(e) => Err(e)
  }

  /** `sign_up(username, email, password, attributes)`; an absent or empty `attributes` is `[]`. */
  method SignUp(username: string, email: string, password: string, attributes: seq<(string, Json)>,
                provider: SignUpRequest -> ClientReply<SignUpResponse>) returns (r: Result<SignUpResponse, Exception>)
    ensures r == SignUpOutcome(provider(SignUpRequest(username, password, UserAttributes(email, attributes))))
  {
    var userAttributes := BuildUserAttributes(email, attributes);
    r := SignUpOutcome(provider(SignUpRequest(username, password, userAttributes)));
  }

  // ---------------------------------------------------------------------
  // confirm_sign_up
  // ---------------------------------------------------------------------

  datatype ConfirmSignUpRequest = ConfirmSignUpRequest(username: string, code: string)

  const ConfirmSignUpErrors :=
    ErrorTexts("CodeMismatchException", "Invalid verification code",
               "ExpiredCodeException", "Verification code has expired", "Confirmation failed: ")

  /** `confirm_sign_up(username, code)`: returns None, or raises. */
  function ConfirmSignUp(username: string, code: string, provider: ConfirmSignUpRequest -> ClientReply<()>): (r: Result<(), Exception>)
    ensures var reply := provider(ConfirmSignUpRequest(username, code));
      && (r.Ok? <==> reply.Answer?)
      && (reply.ClientError? ==> r == Err(Raise(AuthError, ProviderErrorText(ConfirmSignUpErrors, reply.code, reply.message))))
      && (reply.OtherFailure? ==> r == Err(reply.exception))
  {
    match provider(ConfirmSignUpRequest(username, code))
    case Answer(_) => Ok(())
    case ClientError(c, message) => Err(Raise(AuthError, ProviderErrorText(ConfirmSignUpErrors, c, message)))
    case OtherFailure(e) => Err(e)
  }

  // ---------------------------------------------------------------------
  // refresh_token
  // ---------------------------------------------------------------------

  function RefreshRequest(refreshToken: string): InitiateAuthRequest {
    InitiateAuthRequest("REFRESH_TOKEN_AUTH", map["REFRESH_TOKEN" := refreshToken])
  }

  /**
   * `refresh_token(token)`: on success only the access token and its
   * lifetime (no refresh token, no username); every provider error,
   * whatever its code, reads "Token refresh failed: " and the message.
   */
  function RefreshToken(refreshToken: string,
                        provider: InitiateAuthRequest -> ClientReply<InitiateAuthResponse>): (r: Result<TokenDict, Exception>)
    ensures var reply := provider(RefreshRequest(refreshToken));
      && (r.Ok? <==> reply.Answer? && reply.response.result.Some?)
      && (r.Ok? ==> && r.value.accessToken == Some(reply.response.result.value.accessToken)
                    && r.value.expiresIn == Some(reply.response.result.value.expiresIn)
                    && r.value.refreshToken.None? && r.value.username.None?)
      && (reply.ClientError? ==> r == Err(Raise(AuthError, "Token refresh failed: " + reply.message)))
      && (reply.OtherFailure? ==> r == Err(reply.exception))
  {
    match provider(RefreshRequest(refreshToken))
    case Answer(response) =>
      (match response.result
       case None => Err(KeyError("AuthenticationResult"))
       case Some(ar) => Ok(TokenDict(Some(ar.accessToken), None, Some(ar.expiresIn), None)))
    case ClientError(_, message) => Err(Raise(AuthError, "Token refresh failed: " + message))
    case OtherFailure(e) => Err(e)
  }

  // ---------------------------------------------------------------------
  // forgot_password / confirm_forgot_password
  // ---------------------------------------------------------------------

  datatype ForgotPasswordRequest = ForgotPasswordRequest(username: string)

  /** `forgot_password(username)`: every provider error reads "Failed to initiate password reset: " and the message. */
  function ForgotPassword(username: string, provider: ForgotPasswordRequest -> ClientReply<()>): (r: Result<(), Exception>)
    ensures var reply := provider(ForgotPasswordRequest(username));
      && (r.Ok? <==> reply.Answer?)
      && (reply.ClientError? ==> r == Err(Raise(AuthError, "Failed to initiate password reset: " + reply.message)))
      && (reply.OtherFailure? ==> r == Err(reply.exception))
  {
    match provider(ForgotPasswordRequest(username))
    case Answer(_) => Ok(())
    case ClientError(_, message) => Err(Raise(AuthError, "Failed to initiate password reset: " + message))
    case OtherFailure(e) => Err(e)
  }

  datatype ConfirmForgotPasswordRequest = ConfirmForgotPasswordRequest(username: string, code: string, password: string)

  const ConfirmForgotPasswordErrors :=
    ErrorTexts("CodeMismatchException", "Invalid verification code",
               "InvalidPasswordException", "Password does not meet requirements", "Password reset failed: ")

  /** In each call's table, each fixed text is given for its own error code and for no other. */
  lemma ErrorTablesDistinguishable()
    ensures Distinguishable(AuthenticateErrors) && Distinguishable(SignUpErrors)
    ensures Distinguishable(ConfirmSignUpErrors) && Distinguishable(ConfirmForgotPasswordErrors)
  {
    assert AuthenticateErrors.text1[0] != AuthenticateErrors.prefix[0];
    assert AuthenticateErrors.text2[0] != AuthenticateErrors.prefix[0];
    assert SignUpErrors.text1[0] != SignUpErrors.prefix[0];
    assert SignUpErrors.text2[0] != SignUpErrors.prefix[0];
    assert ConfirmSignUpErrors.text1[0] != ConfirmSignUpErrors.prefix[0];
    assert ConfirmSignUpErrors.text2[0] != ConfirmSignUpErrors.prefix[0];
    assert ConfirmForgotPasswordErrors.text1[0] != ConfirmForgotPasswordErrors.prefix[0];
    assert ConfirmForgotPasswordErrors.text2[9] != ConfirmForgotPasswordErrors.prefix[9];
  }

  /** `confirm_forgot_password(username, code, new_password)`: returns None, or raises. */
  function ConfirmForgotPassword(username: string, code: string, password: string,
                                 provider: ConfirmForgotPasswordRequest -> ClientReply<()>): (r: Result<(), Exception>)
    ensures var reply := provider(ConfirmForgotPasswordRequest(username, code, password));
      && (r.Ok? <==> reply.Answer?)
      && (reply.ClientError? ==> r == Err(Raise(AuthError, ProviderErrorText(ConfirmForgotPasswordErrors, reply.code, reply.message))))
      && (reply.OtherFailure? ==> r == Err(reply.exception))
  {
    match provider(ConfirmForgotPasswordRequest(username, code, password))
    case Answer(_) => Ok(())
    case ClientError(c, message) => Err(Raise(AuthError, ProviderErrorText(ConfirmForgotPasswordErrors, c, message)))
    case OtherFailure(e) => Err(e)
  }
}
