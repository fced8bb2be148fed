# onionai-frontend core, modelled in Dafny

This project models the logic core of the onionai-frontend chat application,
a Streamlit front end to a chat backend, with AWS Cognito for sign-in.

- **Input validators.** These are `validate_message`, `validate_email`, `validate_password`, `validate_username`, `validate_api_response`, `validate_chat_message` and `validate_file_upload`. `src/utils/logger.py` is a byte-for-byte copy of `src/utils/validation.py`, so one module, `Validation`, models both.
- **The session bag.** `st.session_state` is modelled with the operations that read and write it:
  - session initialisation, the session id, the message list, the question counter and the metadata map (`Session`);
  - the fixed one-hour rate-limit window (`RateLimit`);
  - one chat turn, "New Chat" and the rate-limit gate of the chat input (`ChatInterface`);
  - sign-in state, login, logout, token refresh and the login and sign-up forms (`Authentication`).
- **Backend client** (`ApiClient`):
  - request headers and payloads;
  - the mapping from HTTP statuses and request exceptions to application errors;
  - the guard on the history request;
  - error reporting;
  - the response-error handler.
- **Identity-provider calls** (`Cognito`): how each answer is shaped into a result, and how each provider error code becomes the text of an `AuthError`.
- **Exceptions** (`Exceptions`): the exception hierarchy and `handle_error`.
- **Metrics** (`Metrics`): the in-memory counters and gauges of `MetricsCollector`.

How the Python is represented:

- **The session bag** is the class `SessionState.Bag`. It has one optional field per key; `None` means the key is absent.
  - `View()` turns the bag into a `Snapshot` value.
  - Every method that writes the bag is proved against a step function on snapshots: `bag.View() == Step(old(bag.View()), ...)`.
  - The properties are then proved as lemmas about the step functions.
- **Streamlit's rerun.** `st.experimental_rerun` raises a control-flow signal that `except Exception` does not catch. It is the `Rerun` case of `Exit`. Whatever a handler changed before it stays changed.
- **Oracles.**
  - The clock is a parameter `now`, in whole seconds.
  - `uuid4()` is a parameter `freshId`.
  - The backend is a function `server` from requests to replies.
  - Each Cognito call is a function `provider` from its request to an answer, a `ClientError(code, message)` or another exception.
- **JSON values** are the datatype `Json`. Objects are association lists, and a lookup finds the last binding. `Display` is Python's `str()` of a value and `Repr` is its `repr()`.
- **Python regular expressions** are modelled exactly for the patterns used, except that `\d` and case folding are ASCII-only (see "## Left out"). `$` also matches before a final newline, so `validate_email` accepts `"a@b.co\n"` (`Validation.EmailTrailingNewlineAccepted`) and `validate_username` accepts `"admin\n"` (see Findings).

Three facts about the code that a reader might expect otherwise:

- A failed exchange does not spend a question.
- "New Chat" keeps the session id.
- No token expiry is stored or tracked.

## Model

| member | source | states |
|---|---|---|
| Validation.Replace | src/utils/validation.py:42-44 | `str.replace` of one character: when the replacement does not contain the character, the result does not either |
| Validation.ReplaceAppend | src/utils/validation.py:42-44 | replacing distributes over concatenation |
| Validation.EscapeEach | src/utils/validation.py:42-44 | per-character escaping leaves no `<` or `>`, and each of them grows the text by 3 |
| Validation.EscapeMarkupIsEscapeEach | src/utils/validation.py:42-44 | replacing `<` and then `>` is the same as escaping each character once, so `&lt;` is never re-escaped |
| Validation.ValidateMessage | src/utils/validation.py:19-61 | accepted iff the stripped text is non-empty, at most 2000 characters, and its escaped form has no dangerous pattern (case-insensitive); the result is the escaped stripped text with no `<`/`>`; otherwise, in that order, ValidationError "Message cannot be empty", "Message too long (max 2000 characters)" or "Message contains potentially dangerous content" |
| Validation.EmailShapeSound | src/utils/validation.py:76-77 | the scanner's acceptance gives a parse of the pattern at the first `@` and the last `.` after it |
| Validation.EmailShapeComplete | src/utils/validation.py:76-77 | every parse of the pattern is accepted by the scanner |
| Validation.EmailShapeIsRegex | src/utils/validation.py:76-77 | the scanner decides exactly full matches of `[a-zA-Z0-9._%+-]+@[a-zA-Z0-9.-]+\.[a-zA-Z]{2,}` |
| Validation.MatchesEmailPattern | src/utils/validation.py:76-77 | `re.match` with `^...$`: a full match of the text, or of the text without one final newline |
| Validation.LocalPart | src/utils/validation.py:84 | `email.split('@')[0]` is a prefix of the email without `@` |
| Validation.EmailParseLocalPart | src/utils/validation.py:84-85 | in a matching email the split ends at the `@` of the match |
| Validation.AcceptableEmailChecks | src/utils/validation.py:77-87 | for a matching email, the length checks are exactly "at most 254 characters, local part at most 64" |
| Validation.ValidateEmail | src/utils/validation.py:63-88 | True iff the email matches the pattern (before an optional final newline), has at most 254 characters and a local part of at most 64 |
| Validation.EmailTrailingNewlineAccepted | src/utils/validation.py:76-77 | `"a@b.co\n"` is accepted, because `$` matches before a final newline |
| Validation.FirstFailure | src/utils/validation.py:100-131 | an ordered rule list yields None iff every rule holds, else the message of the first rule that fails |
| Validation.FirstFailureIs | src/utils/validation.py:100-131 | when rule i is the first to fail, its message is the result |
| Validation.CommonPatternsListed | src/utils/validation.py:119-129 | the common-pattern loop finds a pattern iff the lower-cased password contains one of the five listed strings |
| Validation.PasswordRulesHold | src/utils/validation.py:100-129 | all seven password rules hold iff the password is strong: 8 to 128 characters, with an upper-case letter, a lower-case letter, a digit and a special character, and none of the common patterns |
| Validation.ValidatePassword | src/utils/validation.py:90-131 | None iff the password is strong; otherwise the message of the first rule it fails |
| Validation.ShortPasswordMessage | src/utils/validation.py:100-101 | a password shorter than 8 characters gets the length message first, whatever else is wrong with it |
| Validation.UsernameRulesHold | src/utils/validation.py:191-213 | the six username rules, in order: non-empty, at least 3, at most 20, the charset pattern, no special first or last character, not reserved in any case |
| Validation.ValidateUsername | src/utils/validation.py:181-215 | None iff the length is 3..20, the pattern matches, the ends are not `-`/`_` and the lower-cased name is not reserved; otherwise the first failing rule's message |
| Validation.ValidateUsernameStrict | src/utils/validation.py:200 | the same rules, with every character required to be in `[A-Za-z0-9_-]` |
| Validation.TwentyCharacterUsernameAccepted | src/utils/logger.py:197-198 | a 20-character username is accepted, although the message says "less than 20" |
| Validation.ReservedWordsAnyCase | src/utils/logger.py:207-213 | the reserved check ignores case: `Admin` is reserved |
| Validation.UsernameTrailingNewlineAccepted | src/utils/logger.py:200-213 | `"admin\n"` passes every check, including the reserved one |
| Validation.UsernameTrailingNewlineStrict | src/utils/logger.py:200-201 | with a full match, `"admin\n"` gets the charset message |
| Validation.ValidateApiResponse | src/utils/logger.py:237-263 | never False: True iff the response is a dict with `status` and `data`, a status of `success` or `error`, and `error` details when the status is `error`; each failing check, in source order, gives its own ValidationError message ("API response must be a dictionary", "Invalid API response format: missing required fields", "Invalid status in API response", "Error response must contain error details"), and an unhashable status gives TypeError |
| Validation.ValidateChatMessage | src/utils/logger.py:281-313 | never False: True iff the setting is declared and content, timestamp and role are present, content is a string, the timestamp is valid, the role is `user` or `assistant` and the content fits the maximum; each failing check, in source order, gives its own error: missing fields, "Message content must be a string", "Invalid timestamp format", TypeError for an unhashable role, "Invalid message role", AttributeError when `MAX_MESSAGE_LENGTH` is not declared, and "Message exceeds maximum length of N characters" for any longer content |
| Validation.SplitExt | src/utils/logger.py:335 | `os.path.splitext(...)[1]`: non-empty iff the last `.` comes after the last `/` and some non-dot character of the last path component precedes it; the extension is then everything from that last `.`, a suffix with no other dot and no `/` |
| Validation.ValidateFileUpload | src/utils/logger.py:315-351 | None iff the size is within MB·1024·1024, the lower-cased extension is allowed and the MIME type (compared as given) is allowed; otherwise the first failing check's message: "File size exceeds maximum limit of NMB", "File type not allowed" or "Invalid file type" |
| Validation.ValidateFileUploadAsWritten | src/utils/validation.py:327-335 | as written: without a declared `MAX_UPLOAD_SIZE_MB` every call raises AttributeError; with it, only the size check answers, and every file within the limit raises NameError for `os` |
| Validation.FileUploadNameError | src/utils/validation.py:335 | a small `.MD` file that the intended check accepts makes the code as written raise |
| Validation.UpperCaseExtensionAccepted | src/utils/logger.py:335-336 | an upper-case extension is accepted |
| Validation.UpperCaseMimeTypeRefused | src/utils/logger.py:347-348 | an upper-case MIME type is refused |
| Exceptions.NewError | src/utils/exceptions.py:8-17 | message and error code are stored as given; falsy details become `{}` |
| Exceptions.HandleError | src/utils/exceptions.py:43-68 | the `error` flag is always true; a ChatAppError gives its message, code and details; any other exception gives `str(e)`, `UNKNOWN_ERROR` and `{}` |
| Exceptions.RaisedErrorResponse | src/utils/exceptions.py:19-59 | every subclass is handled as a ChatAppError: message as raised, no code, empty details |
| Exceptions.UnknownCodeMeansForeign | src/utils/exceptions.py:53-66 | a response coded `UNKNOWN_ERROR` comes from a built-in exception, unless the application error carried that code itself |
| SessionState.Bag.constructor | src/utils/session.py:12 | a new bag holds no key |
| Session.InitializeSessionState | src/utils/session.py:10-18 | the bag after `initialize_session_state` is `Initialize(old bag, freshId, now)` |
| Session.InitializeIdempotent | src/utils/session.py:12-18 | once initialised, initialising again changes nothing |
| Session.InitializeStartsGuestConversation | src/utils/session.py:13-18 | a first initialisation gives no messages, the fresh id, 0 questions used, and the full guest quota |
| Session.GetSessionId | src/utils/session.py:20-29 | returns the stored id, or stores and returns the fresh one |
| Session.SessionIdStable | src/utils/session.py:27-29 | a second call returns the same id and changes nothing |
| Session.ResetSession | src/utils/session.py:31-36 | the bag after `reset_session` is `Reset(old bag, freshId, now)` |
| Session.ResetStartsOver | src/utils/session.py:33-36 | a reset empties the messages, takes the fresh id and restores the whole quota; the sign-in keys and the window are kept |
| Session.GetChatHistory | src/utils/session.py:38-47 | returns the stored history or `[]`, and stores `[]` when absent |
| Session.AddMessageToHistory | src/utils/session.py:49-58 | the bag after appending one message |
| Session.GetCurrentMessages | src/utils/session.py:60-67 | the stored conversation, `[]` when none is stored; `Session.AppendOnly` gives what it returns after messages are added |
| Session.AppendOnly | src/utils/session.py:56-58 | adding messages in turn gives the old list followed by them, and no other key changes |
| Session.GetRemainingQuestions | src/utils/session.py:89-101 | never negative, zero iff rate-limited, and otherwise limit minus used; an absent `guest_mode` selects the signed-in limit |
| Session.IsRateLimited | src/utils/session.py:69-81 | never limited below the guest limit and always at the signed-in limit; only a stored `guest_mode` of True selects the guest limit |
| Session.IncrementQuestionCount | src/utils/session.py:83-87 | the bag after counting one question, starting from 0 when absent |
| Session.CountingSpendsOne | src/utils/session.py:69-101 | counting a question takes one from the remaining questions, down to zero; a rate-limited session stays rate-limited |
| Session.SetSessionMetadata | src/utils/session.py:103-112 | the bag after merging the given map over the stored one |
| Session.GetSessionMetadata | src/utils/session.py:114-121 | the stored map, `{}` when none is stored; `Session.MetadataMerge` gives what it returns after a merge |
| Session.MetadataMerge | src/utils/session.py:110-121 | after a merge, given keys read the new values, other keys their old ones, and no key is lost |
| Session.MetadataMergeIdempotent | src/utils/session.py:112 | merging the same map twice is merging it once |
| RateLimit.Checked | src/utils/rate_limit.py:24-32 | a check keeps the bag consistent: a started window always has a counter |
| RateLimit.CheckRateLimit | src/utils/rate_limit.py:10-39 | opens the window lazily, resets it only when more than an hour has passed, and returns `used < limit` of the current window, with limit 50 for signed-in users and 10 for guests |
| RateLimit.CheckWithinWindowChangesNothing | src/utils/rate_limit.py:24-32 | inside a running window a check writes nothing |
| RateLimit.WindowBoundary | src/utils/rate_limit.py:30 | at exactly one hour the window is kept; one second later it resets |
| RateLimit.IncrementStep | src/utils/rate_limit.py:41-51 | an increment keeps the bag consistent |
| RateLimit.IncrementRateLimit | src/utils/rate_limit.py:41-51 | the bag after an increment and the error raised, as `IncrementStep` gives them |
| RateLimit.IncrementAddsOneOrRaises | src/utils/rate_limit.py:48-51 | an increment raises RateLimitError and leaves the window's count as it was, or adds exactly one |
| RateLimit.WindowCap | src/utils/rate_limit.py:48-51 | within one window, n increments succeed `min(n, max(0, limit - used))` times |
| RateLimit.FreshWindowCap | src/utils/rate_limit.py:24-51 | from no window, n increments within an hour succeed exactly `min(n, limit)` times, with the tier read from `guest_mode` and a guest when it is absent |
| RateLimit.ResetTimeAfterCheck | src/utils/rate_limit.py:53-64 | after a check the reset time exists and is not before now; unless the clock went back behind the window's start, it is at most an hour ahead |
| RateLimit.Countdown | src/utils/rate_limit.py:84-86 | hours and minutes by floor division: 0 ≤ minutes < 60, and the pair is the seconds rounded down to a minute |
| RateLimit.GetRateLimitResetTime | src/utils/rate_limit.py:53-64 | a reset time exists iff a window has started, and it is one window length after the start |
| RateLimit.FormatRateLimitMessage | src/utils/rate_limit.py:66-91 | the message begins with the unclamped remaining count and " questions remaining"; once a window has started it goes on ". Resets in Hh Mm" with the floor-division countdown to the window's end |
| RateLimit.MessageWithoutWindow | src/utils/rate_limit.py:83-91 | with no window, the message has no countdown |
| RateLimit.CountdownAfterCheck | src/utils/rate_limit.py:83-89 | right after a check, the countdown shows at most 1h 0m |
| RateLimit.RemainingNotClamped | src/utils/rate_limit.py:81 | a guest with 12 questions used is told "-2 questions remaining" |
| ApiClient.GetHeaders | src/services/api_client.py:144-161 | always sends Content-Type JSON, the client version and the session id (`""` when absent); sends `Bearer <token>` iff the token is non-empty; no other header |
| ApiClient.ChatPayload | src/services/api_client.py:49-53 | the chat request body is a dict with exactly the keys `message`, `session_id` and `guest_mode`, holding the arguments |
| ApiClient.StatusError | src/services/api_client.py:66 | `raise_for_status` raises exactly for statuses 400..599 |
| ApiClient.Subscript | src/services/api_client.py:68 | `body[key]` succeeds iff the body is a dict with the key, giving its value |
| ApiClient.SendFailure | src/services/api_client.py:70-73 | a request exception becomes an APIError: the time-out message iff the text contains "timeout" in any case, else "Failed to send message: " and the text |
| ApiClient.SendMessageResult | src/services/api_client.py:55-73 | 429 raises RateLimitError, which is not converted; other 4xx/5xx, transport failures and a body that is not JSON become APIError; success iff a 2xx/3xx JSON dict holds `response`, and the result is that field's value; a JSON body without it gives the KeyError or TypeError of the subscript |
| ApiClient.SendMessage | src/services/api_client.py:24-73 | the result is the `response` field of a JSON dict reply to the chat request; errors are APIError or RateLimitError, or the KeyError/TypeError of a body without the field |
| ApiClient.TimeoutInText | src/services/api_client.py:71 | a text containing "Timeout" contains "timeout" once lower-cased |
| ApiClient.TimeoutReasonReadsAsTimeout | src/services/api_client.py:66-72 | an error status whose reason says "Timeout" surfaces as the time-out message |
| ApiClient.TimeoutStatusesReadAsTimeouts | src/services/api_client.py:66-72 | 408 Request Timeout and 504 Gateway Timeout both read as time-outs |
| ApiClient.GetChatHistory | src/services/api_client.py:75-107 | without a non-empty token, `[]` and no request; otherwise the `sessions` field of a JSON dict body; a transport failure, a 4xx/5xx status or a body that is not JSON is APIError "Failed to fetch chat history: " and the error's text |
| ApiClient.ErrorPayload | src/services/api_client.py:127-131 | the report body has exactly the keys `error_type`, `error_message` and `context`, holding the arguments |
| ApiClient.ReportError | src/services/api_client.py:123-142 | `report_error` returns normally whatever the reply to `ErrorReport` (the POST to `/error` carrying `ErrorPayload`), swallowing request exceptions |
| ApiClient.ResponseErrorMessage | src/services/api_client.py:174-178 | the message is the JSON `message` field, or "Unknown error occurred" for a JSON object without one; for a body that is not JSON, the response text, or "Unknown error occurred" when it is empty; a JSON body that is not an object raises AttributeError |
| ApiClient.ResponseErrorStep | src/services/api_client.py:180-188 | the only possible change is dropping the token on 401 |
| ApiClient.HandleResponseError | src/services/api_client.py:163-188 | the bag after the handler and the exception it raises, as `ResponseErrorStep` gives them |
| ApiClient.ResponseErrorKinds | src/services/api_client.py:180-188 | 429 gives RateLimitError(message); 401 drops the token and gives "Authentication failed. Please log in again."; anything else gives "API Error: " and the message |
| ChatInterface.UserInputStep | src/components/chat_interface.py:95-133 | a turn keeps the bag consistent |
| ChatInterface.HandleUserInput | src/components/chat_interface.py:95-133 | the bag, exit and error shown after `_handle_user_input` are those of `UserInputStep` |
| ChatInterface.UpdateQuestionCount | src/components/chat_interface.py:147-151 | counts one question, from 0 when absent |
| ChatInterface.ExchangeIgnoresMessages | src/components/chat_interface.py:104-118 | recording the prompt first does not change the request |
| ChatInterface.UserInputTurn | src/components/chat_interface.py:104-133 | the prompt is appended verbatim; on success the answer follows and exactly one question is spent, ending in a rerun; on failure only the prompt is appended, the counter is untouched and "Error: " and the error's text is shown; only messages, session id and counter change |
| ChatInterface.StartNewChat | src/components/chat_interface.py:135-139 | the bag after "New Chat" is `NewChat(old bag, freshId)`, ending in a rerun |
| ChatInterface.NewChatKeepsSession | src/components/chat_interface.py:137-138 | "New Chat" empties the messages but keeps an existing session id and the counter |
| ChatInterface.RemainingQuestions | src/components/chat_interface.py:141-145 | never negative, zero iff the limit is used up; the limit is 50 only when `guest_mode` is stored and false |
| ChatInterface.RemainingAgreesWhenTierStored | src/components/chat_interface.py:141-145 | with `guest_mode` stored, the display agrees with the session module |
| ChatInterface.GuestDefaultsDiffer | src/components/chat_interface.py:144 | with `guest_mode` absent, the session module shows 50 left while this display and the rate-limit message show 10 |
| ChatInterface.ChatInputStep | src/components/chat_interface.py:80-93 | the chat input keeps the bag consistent |
| ChatInterface.RenderChatInput | src/components/chat_interface.py:80-93 | the bag, exit and message after the chat input are those of `ChatInputStep` |
| ChatInterface.BlockedInputHandlesNothing | src/components/chat_interface.py:87-89 | past the limit, only the check's writes happen, the warning is shown, and no message or question is added |
| ChatInterface.QuotaStaysWithinLimit | src/components/chat_interface.py:87-93 | for one tier, a counter within the limit stays within it after any input, at any time, for any backend answer |
| Authentication.IsAuthenticated | src/components/authentication.py:58-60 | signed in iff a token is stored and it is not empty |
| Authentication.GetUsername | src/components/authentication.py:62-66 | the stored username while signed in, otherwise None |
| Authentication.GetToken | src/components/authentication.py:68-70 | signed in iff the stored token is present and non-empty |
| Authentication.AuthorizationHeaderIffSignedIn | src/services/api_client.py:158-159 | backend requests carry a bearer token iff the user is signed in |
| Authentication.UnauthorizedSignsOut | src/services/api_client.py:182-186 | a 401 with a readable body signs the user out |
| Authentication.Logout | src/components/authentication.py:72-78 | the bag after logout is `LoggedOut(old bag)`, ending in a rerun |
| Authentication.LogoutSignsOut | src/components/authentication.py:72-77 | after logout nobody is signed in; the refresh token stays; logout is idempotent |
| Authentication.SuccessfulAuth | src/components/authentication.py:80-89 | storing a result ends in a rerun or in a KeyError for `AccessToken` or `Username` |
| Authentication.HandleSuccessfulAuth | src/components/authentication.py:80-89 | the bag and exit after `_handle_successful_auth` are those of `SuccessfulAuth` |
| Authentication.SuccessfulAuthStores | src/components/authentication.py:87-88 | a complete result stores exactly its token and username and no refresh token; without `Username`, the new token is stored already when the KeyError is raised |
| Authentication.RefreshToken | src/components/authentication.py:91-106 | the bag and exit after `refresh_token` are those of `RefreshStep` |
| Authentication.RefreshWithoutTokenReturnsFalse | src/components/authentication.py:99-106 | without a stored refresh token it returns False, whatever the provider would say |
| Authentication.RefreshAlwaysSignsOut | src/components/authentication.py:98-106 | with a refresh token, every refresh ends logged out with a rerun, and never returns True |
| Authentication.IntendedRefreshKeepsUserSignedIn | src/components/authentication.py:91-103 | in the intended refresh, a provider token keeps the user signed in under the same name, with only the token replaced |
| Authentication.LoginSubmit | src/components/authentication.py:28-33 | the bag, exit and error shown after the login form are those of `LoginStep` |
| Authentication.LoginOutcomes | src/components/authentication.py:28-33 | an incomplete form never consults the provider; an accepted login stores the token and the name typed and reruns; a refused one changes nothing and shows "Login failed: " and the error's text |
| Authentication.SignUpSubmit | src/components/authentication.py:43-51 | the notice shown by the sign-up form is that of `SignUpForm` |
| Authentication.SignUpFormDecisions | src/components/authentication.py:43-51 | mismatched passwords are refused without consulting the provider; an incomplete form shows nothing; a complete one reports success iff the provider registers the user, with the email as the only attribute |
| Cognito.ProviderErrorText | src/services/cognito.py:55-64 | the first code gives its text, else the second code gives its text, else the prefix and the provider's message; in a distinguishable table each fixed text appears iff its code was given |
| Cognito.ErrorTablesDistinguishable | src/services/cognito.py:55-64 | the four calls' tables (authenticate 59-64, sign_up 113-118, confirm_sign_up 141-146, confirm_forgot_password 226-231) are distinguishable, so each fixed text means its code |
| Cognito.Authenticate | src/services/cognito.py:24-64 | succeeds iff the provider gives a result with a refresh token; it then returns the three tokens and the username given; provider errors become AuthError |
| Cognito.UserAttributes | src/services/cognito.py:88-94 | the email first, then each extra attribute in order, with `str()` of its value |
| Cognito.BuildUserAttributes | src/services/cognito.py:88-94 | the loop builds exactly `UserAttributes` |
| Cognito.SignUpOutcome | src/services/cognito.py:96-118 | succeeds iff the provider answers, returning its answer; a provider error becomes AuthError |
| Cognito.SignUp | src/services/cognito.py:66-118 | sends the built attribute list and maps the reply by `SignUpOutcome` |
| Cognito.ConfirmSignUp | src/services/cognito.py:120-146 | succeeds iff the provider answers; a provider error becomes AuthError with that text |
| Cognito.RefreshToken | src/services/cognito.py:148-177 | on success only the access token and its lifetime, with no refresh token or username; every provider error, whatever its code, reads "Token refresh failed: " and the message |
| Cognito.ForgotPassword | src/services/cognito.py:179-196 | every provider error reads "Failed to initiate password reset: " and the message |
| Cognito.ConfirmForgotPassword | src/services/cognito.py:198-231 | succeeds iff the provider answers; a provider error becomes AuthError with that text |
| Metrics.ReadSwitch | src/utils/metrics.py:35 | reading the reporting switch fails iff the settings lack it |
| Metrics.Bumped | src/utils/metrics.py:31-33 | the named counter becomes its old value (0 when new) plus the increment; the other counters keep their values |
| Metrics.BumpsAdd | src/utils/metrics.py:31-33 | two increments of one counter equal one increment by their sum, in either order |
| Metrics.BumpsCommute | src/utils/metrics.py:31-33 | increments of different counters commute |
| Metrics.BumpedAllIsSum | src/utils/metrics.py:31-33 | a run of increments leaves the counter at its start value plus their sum |
| Metrics.MetricsCollector.constructor | src/utils/metrics.py:14-20 | a new collector has no counters, timers or gauges |
| Metrics.MetricsCollector.IncrementCounter | src/utils/metrics.py:22-36 | the counter is bumped before the switch is read, so the update stays when reading fails; timers and gauges are unchanged |
| Metrics.MetricsCollector.SetGauge | src/utils/metrics.py:38-50 | the gauge is overwritten before the switch is read; nothing else changes |
| Text.StripIdempotent | src/utils/validation.py:33 | stripping twice is stripping once |
| Text.NatToStringRoundTrip | src/utils/rate_limit.py:88-91 | decimal printing of a count can be parsed back |
| Text.IntToStringInjective | src/utils/rate_limit.py:88-91 | different counts print differently |

## Left out

- Rendering: page set-up, the `_render_*` bodies and the sidebar only drive Streamlit widgets. The sidebar's history switch is two assignments.
- `sanitize_html` needs Python's non-greedy DOTALL regular-expression semantics. Its `replace_tag` also reads group 1, the optional slash, as the tag name, so even allowed tags are stripped.
- `validate_session_id` and `validate_timestamp` delegate to library parsers (`uuid.UUID`, `datetime.fromisoformat`). The timestamp check is a parameter predicate of `Validation.ValidateChatMessage`; `validate_session_id` is not modelled.
- src/services/analytics.py is telemetry plumbing that builds event dicts and prints them.
- src/utils/config.py loading (pydantic, dotenv) is left out. Its defaults are constants: 10, 50, 1 hour and client version 1.0.0.
- The `Settings` class (src/utils/config.py:13-49) declares no `MAX_MESSAGE_LENGTH`, `MAX_UPLOAD_SIZE_MB` or `ENABLE_METRICS`. Each is an `Option` parameter of the operation that reads it, and None raises the AttributeError of a missing field. So, as shipped, `validate_chat_message` never returns True and `validate_file_upload` always raises.
- The network and the identity-provider SDK are oracles. Retries, time-outs and connection pooling are not modelled.
- The metrics `timer` and `_report_metric` need floating-point wall-clock durations and a logger. `src/utils/metrics.py` imports a `logger` that `src/utils/logger.py` does not define, so importing the module fails. The model describes the evident logic of the counter and gauge updates.
- Metrics.MetricsCollector.IncrementCounter: when the switch is on, the report is not modelled. The call returns normally.
- Validation.ValidatePassword: `\d` is modelled as an ASCII digit. Python also matches every other Unicode decimal digit, so a password whose only digit is, say, U+0663 is refused by the model and accepted by the source. The common-pattern check uses `password.lower()`, not `re.IGNORECASE`. Lowering ASCII letters only gives the same answer there, because the five patterns are ASCII and no other character lowers into them.
- Validation.ValidateMessage: the dangerous-pattern search folds ASCII letters only. Unicode characters that fold to ASCII letters are not modelled.
- Json.Repr: escapes for non-ASCII characters are not modelled.
- Json: there are no floats. A float status, message, attribute value or error detail cannot occur in the model.
- ApiClient.ResponseErrorMessage: the message is stored as its `str()`. For a JSON `message` that is not a string (say `5`), the 429 branch at src/services/api_client.py:180-181 puts the raw value into `RateLimitError`, so its `.message`, and what `handle_error` returns, is the value 5 rather than the text "5". The other branches format it into a string, as the model does.
- RateLimit.FormatRateLimitMessage: time is in whole seconds. Sub-second parts of `total_seconds()` are not modelled.
- ApiClient.ReportError: only exceptions that `requests` raises are modelled. The modelled JSON values always serialise.
- ApiClient.SendMessageResult, ApiClient.GetChatHistory: a body that does not decode as JSON is taken to raise a `RequestException`. That holds from `requests` 2.27 on, where `JSONDecodeError` is an `InvalidJSONError`. With an older `requests`, a plain `ValueError` escapes instead, and the model does not cover that case. The repository does not pin the version.
- Every method on the bag requires that a started rate-limit window has a counter. Every operation keeps this; a bag breaking it cannot be reached.
- The code has no concurrent sessions, atomic quota reservation or token expiry, so none is modelled.
- TypeError texts that vary between Python versions are modelled as Python 3.11 writes them.

## Findings

| source | as written | input that shows it | evidently intended | confidence | as-written member | corrected member |
|---|---|---|---|---|---|---|
| src/utils/validation.py:200 | `re.match(r'^[a-zA-Z0-9_-]+$', username)` accepts a final newline, because `$` also matches before it; the reserved-word check then compares `"admin\n"` | `"admin\n"` is accepted | every character must be a letter, digit, `_` or `-` (`re.fullmatch`), so `"admin\n"` gets the charset message | high (proved; not executed) | Validation.UsernameTrailingNewlineAccepted | Validation.ValidateUsernameStrict |
| src/utils/validation.py:335 | `os.path.splitext` is used but `os` is never imported. This is reachable only once `Settings` declares `MAX_UPLOAD_SIZE_MB`; as shipped, line 330 raises AttributeError first on every call | with `MAX_UPLOAD_SIZE_MB` declared as 1, `("NOTES.MD", "text/markdown", 10 bytes)` raises NameError | the extension and MIME checks run and the file is accepted | high (proved; not executed) | Validation.ValidateFileUploadAsWritten | Validation.ValidateFileUpload |
| src/components/authentication.py:88 | `_handle_successful_auth` reads `Username`, which a refresh result (src/services/cognito.py:170-173) does not have. The KeyError makes `refresh_token` log out, so a refresh never returns True | any stored refresh token, with a provider that issues a new access token | the new access token replaces the old one and the user stays signed in | high (proved; not executed) | Authentication.RefreshAlwaysSignsOut | Authentication.IntendedRefreshKeepsUserSignedIn |
