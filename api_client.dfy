/**
 * `src/services/api_client.py`: the requests the frontend sends to its
 * backend and how the replies become results or exceptions. The HTTP layer
 * is an oracle `server` that maps each request to a reply.
 */
module ApiClient {
  import opened Wrappers
  import opened Text
  import opened Json
  import opened Config
  import opened Exceptions
  import opened SessionState

  /** An HTTP request: `data` is the JSON body of a POST or the query parameters of a GET. */
  datatype Request = Request(verb: string, url: string, headers: map<string, string>, data: Json)

  /** What `response.json()` gives: a decoded value, or the text of the decoding error. */
  datatype Body = Parsed(json: Json) | NotJson(error: string)

  /**
   * What `requests` gives back: a response (whatever its status), or a
   * `RequestException` raised before any response arrived (connection
   * failure, timeout), given by its text.
   */
  datatype Reply =
    | Response(status: int, reason: string, url: string, body: Body, text: string)
    | Failure(text: string)

  // ---------------------------------------------------------------------
  // _get_headers
  // ---------------------------------------------------------------------

  /**
   * `_get_headers()`: the content type, the client version and the session
   * id (empty when none is stored), plus a bearer token exactly when a
   * non-empty token is stored.
   */
  function GetHeaders(s: Snapshot): (h: map<string, string>)
    ensures "Content-Type" in h && h["Content-Type"] == "application/json"
    ensures "X-Client-Version" in h && h["X-Client-Version"] == ClientVersion
    ensures "X-Session-ID" in h && h["X-Session-ID"] == s.sessionId.GetOr("")
    ensures "Authorization" in h <==> SessionState.Truthy(s.userToken)
    ensures "Authorization" in h ==> h["Authorization"] == "Bearer " + s.userToken.value
    ensures h.Keys <= {"Content-Type", "X-Client-Version", "X-Session-ID", "Authorization"}
  {
    var base := map["Content-Type" := "application/json", "X-Client-Version" := ClientVersion,
                     "X-Session-ID" := s.sessionId.GetOr("")];
    if SessionState.Truthy(s.userToken) then base["Authorization" := "Bearer " + s.userToken.value] else base
  }

  // ---------------------------------------------------------------------
  // send_message
  // ---------------------------------------------------------------------

  /** The JSON body of a chat request: exactly the message, the session id and the tier. */
  function ChatPayload(message: string, sessionId: string, guestMode: bool): (j: Json)
    ensures j.JObject?
    ensures forall k :: HasKey(j.members, k) <==> k == "message" || k == "session_id" || k == "guest_mode"
    ensures Get(j.members, "message") == Some(JString(message))
    ensures Get(j.members, "session_id") == Some(JString(sessionId))
    ensures Get(j.members, "guest_mode") == Some(JBool(guestMode))
  {
    var members := [("message", JString(message)), ("session_id", JString(sessionId)), ("guest_mode", JBool(guestMode))];
    assert forall k :: HasKey(members, k) ==> k == members[0].0 || k == members[1].0 || k == members[2].0;
    assert HasKey(members, members[0].0) && HasKey(members, members[1].0) && HasKey(members, members[2].0);
    JObject(members)
  }

  /** The request `send_message` posts, with `baseUrl` the configured API URL. */
  function ChatRequest(s: Snapshot, baseUrl: string, message: string, sessionId: string, guestMode: bool): Request {
    Request("POST", baseUrl + "/chat", GetHeaders(s), ChatPayload(message, sessionId, guestMode))
  }

  /**
   * `response.raise_for_status()`: the text of the `HTTPError` it raises for
   * a 4xx or 5xx status, None otherwise.
   */
  function StatusError(status: int, reason: string, url: string): (r: Option<string>)
    ensures r.Some? <==> 400 <= status < 600
  {
    if 400 <= status < 500 then Some(IntToString(status) + " Client Error: " + reason + " for url: " + url)
    else if 500 <= status < 600 then Some(IntToString(status) + " Server Error: " + reason + " for url: " + url)
    else None
  }

  /** `obj[key]` on a decoded body: the value, or the `KeyError`/`TypeError` Python raises. */
  function Subscript(j: Json, key: string): (r: Result<Json, Exception>)
    ensures r.Ok? <==> j.JObject? && HasKey(j.members, key)
    ensures r.Ok? ==> Some(r.value) == Get(j.members, key)
  {
    match j
    case JObject(ms) =>
      if HasKey(ms, key) then Ok(Get(ms, key).value) else Err(KeyError(key))
    case JList(_) => Err(OtherError("TypeError", "list indices must be integers or slices, not str"))
    case JString(_) => Err(OtherError("TypeError", "string indices must be integers, not 'str'"))
    case _ => Err(OtherError("TypeError", "'" + TypeName(j) + "' object is not subscriptable"))
  }

  const TimedOutMessage := "Request timed out. Please try again."

  /** The `APIError` the `except RequestException` clause of `send_message` raises for an exception text. */
  function SendFailure(text: string): (e: Exception)
    ensures IsChatAppError(e) && e.error.kind == APIError
    ensures e.error.message == TimedOutMessage <==> Contains(Lower(text), "timeout")
    ensures !Contains(Lower(text), "timeout") ==> e.error.message == "Failed to send message: " + text
  {
    if Contains(Lower(text), "timeout") then Raise(APIError, TimedOutMessage)
    else
      var m := "Failed to send message: " + text;
      assert m[0] != TimedOutMessage[0];
      Raise(APIError, m)
  }

  const RateLimitedByServer: Exception := Raise(RateLimitError, "Rate limit exceeded. Please try again later.")

  /**
   * What `send_message` makes of the reply: the `response` field of a
   * successful JSON body; RateLimitError for 429 (not converted, as it is no
   * `RequestException`); APIError for every `RequestException`, including
   * the one `raise_for_status` raises and a body that is not JSON; a
   * `KeyError` or `TypeError` for a JSON body without a `response` field.
   */
  function SendMessageResult(reply: Reply): (r: Result<Json, Exception>)
    ensures reply.Response? && reply.status == 429 ==> r == Err(RateLimitedByServer)
    ensures reply.Response? && 400 <= reply.status < 600 && reply.status != 429
            ==> r == Err(SendFailure(StatusError(reply.status, reply.reason, reply.url).value))
    ensures reply.Failure? ==> r == Err(SendFailure(reply.text))
    ensures r.Ok? <==> && reply.Response? && !(400 <= reply.status < 600) && reply.body.Parsed?
                       && reply.body.json.JObject? && HasKey(reply.body.json.members, "response")
    ensures r.Ok? ==> Some(r.value) == Get(reply.body.json.members, "response")
    ensures reply.Response? && !(400 <= reply.status < 600) && reply.body.NotJson? ==> r == Err(SendFailure(reply.body.error))
    ensures reply.Response? && !(400 <= reply.status < 600) && reply.body.Parsed? ==> r == Subscript(reply.body.json, "response")
    ensures r.Err? && IsChatAppError(r.error) ==> r.error.error.kind in {APIError, RateLimitError}
  {
    match reply
    case Failure(text) => Err(SendFailure(text))
    case Response(status, reason, url, body, _) =>
      if status == 429 then Err(RateLimitedByServer)
      else match StatusError(status, reason, url)
        case Some(text) => Err(SendFailure(text))
        case None =>
          match body
          case NotJson(text) => Err(SendFailure(text))
          case Parsed(j) => Subscript(j, "response")
  }

  /**
   * `send_message(message, session_id, guest_mode)` against `server`: the
   * `response` field of the reply to the chat request, or an APIError or
   * RateLimitError, or the `KeyError`/`TypeError` of a body without that field.
   */
  function SendMessage(s: Snapshot, baseUrl: string, message: string, sessionId: string, guestMode: bool,
                       server: Request -> Reply): (r: Result<Json, Exception>)
    ensures var reply := server(ChatRequest(s, baseUrl, message, sessionId, guestMode));
      && (r.Ok? ==> reply.Response? && reply.body.Parsed? && reply.body.json.JObject? && Some(r.value) == Get(reply.body.json.members, "response"))
      && (r.Err? && IsChatAppError(r.error) ==> r.error.error.kind in {APIError, RateLimitError})
      && (r.Err? && !IsChatAppError(r.error) ==> r.error.typeName in {"KeyError", "TypeError"})
  {
    SendMessageResult(server(ChatRequest(s, baseUrl, message, sessionId, guestMode)))
  }

  /** Lower-casing a text with "Timeout" in it yields a text containing "timeout". */
  lemma TimeoutInText(a: string, b: string)
    ensures Contains(Lower(a + "Timeout" + b), "timeout")
  {
    var t := a + "Timeout" + b;
    var i := |a|;
    forall k | 0 <= k < 7
      ensures Lower(t)[i + k] == "timeout"[k]
    {
      assert t[i + k] == "Timeout"[k];
    }
    assert Lower(t)[i..i + 7] == "timeout";
    assert OccursAt(Lower(t), "timeout", i);
  }

  /**
   * An error status whose reason phrase says "Timeout" surfaces as the
   * time-out message, because the `HTTPError` text is searched for
   * "timeout" whatever the status.
   */
  lemma TimeoutReasonReadsAsTimeout(status: int, a: string, b: string, url: string, body: Body, text: string)
    requires 400 <= status < 600 && status != 429
    ensures SendMessageResult(Response(status, a + "Timeout" + b, url, body, text)) == Err(Raise(APIError, TimedOutMessage))
  {
    var kind := if status < 500 then " Client Error: " else " Server Error: ";
    assert StatusError(status, a + "Timeout" + b, url).value
        == (IntToString(status) + kind + a) + "Timeout" + (b + " for url: " + url);
    TimeoutInText(IntToString(status) + kind + a, b + " for url: " + url);
  }

  /** 408 Request Timeout and 504 Gateway Timeout both read as time-outs. */
  lemma TimeoutStatusesReadAsTimeouts(url: string, body: Body, text: string)
    ensures SendMessageResult(Response(408, "Request Timeout", url, body, text)) == Err(Raise(APIError, TimedOutMessage))
    ensures SendMessageResult(Response(504, "Gateway Timeout", url, body, text)) == Err(Raise(APIError, TimedOutMessage))
  {
    assert "Request Timeout" == "Request " + "Timeout" + "";
    TimeoutReasonReadsAsTimeout(408, "Request ", "", url, body, text);
    assert "Gateway Timeout" == "Gateway " + "Timeout" + "";
    TimeoutReasonReadsAsTimeout(504, "Gateway ", "", url, body, text);
  }

  // ---------------------------------------------------------------------
  // get_chat_history
  // ---------------------------------------------------------------------

  /** The request `get_chat_history(limit)` sends. */
  function HistoryRequest(s: Snapshot, baseUrl: string, limit: int): Request {
    Request("GET", baseUrl + "/chat/history", GetHeaders(s), JObject([("limit", JInt(limit))]))
  }

  /** The `APIError` for every `RequestException` of `get_chat_history`. */
  function HistoryFailure(text: string): Exception {
    Raise(APIError, "Failed to fetch chat history: " + text)
  }

  /**
   * `get_chat_history(limit)` against `server`: `[]` without any request
   * when no non-empty token is stored; otherwise the `sessions` field of a
   * successful JSON body, or the error.
   */
  function GetChatHistory(s: Snapshot, baseUrl: string, limit: int, server: Request -> Reply): (r: Result<Json, Exception>)
    ensures !SessionState.Truthy(s.userToken) ==> r == Ok(JList([]))
    ensures SessionState.Truthy(s.userToken) && server(HistoryRequest(s, baseUrl, limit)).Failure?
            ==> r == Err(HistoryFailure(server(HistoryRequest(s, baseUrl, limit)).text))
    ensures var reply := server(HistoryRequest(s, baseUrl, limit));
      SessionState.Truthy(s.userToken) && reply.Response? ==>
        && (400 <= reply.status < 600 ==> r == Err(HistoryFailure(StatusError(reply.status, reply.reason, reply.url).value)))
        && (!(400 <= reply.status < 600) && reply.body.NotJson? ==> r == Err(HistoryFailure(reply.body.error)))
        && (!(400 <= reply.status < 600) && reply.body.Parsed? ==> r == Subscript(reply.body.json, "sessions"))
    ensures SessionState.Truthy(s.userToken) && r.Ok? ==>
      var reply := server(HistoryRequest(s, baseUrl, limit));
      reply.Response? && reply.body.Parsed? && reply.body.json.JObject? && Some(r.value) == Get(reply.body.json.members, "sessions")
    ensures r.Err? && IsChatAppError(r.error) ==> r.error.error.kind == APIError
  {
    if !SessionState.Truthy(s.userToken) then Ok(JList([]))
    else match server(HistoryRequest(s, baseUrl, limit))
      case Failure(text) => Err(HistoryFailure(text))
      case Response(status, reason, url, body, _) =>
        match StatusError(status, reason, url)
        case Some(text) => Err(HistoryFailure(text))
        case None =>
          match body
          case NotJson(text) => Err(HistoryFailure(text))
          case Parsed(j) => Subscript(j, "sessions")
  }

  // ---------------------------------------------------------------------
  // report_error
  // ---------------------------------------------------------------------

  /** The JSON body of an error report: exactly the error type, the error message and the context. */
  function ErrorPayload(errorType: string, errorMessage: string, context: seq<(string, Json)>): (j: Json)
    ensures j.JObject?
    ensures forall k :: HasKey(j.members, k) <==> k == "error_type" || k == "error_message" || k == "context"
    ensures Get(j.members, "error_type") == Some(JString(errorType))
    ensures Get(j.members, "error_message") == Some(JString(errorMessage))
    ensures Get(j.members, "context") == Some(JObject(context))
  {
    var members := [("error_type", JString(errorType)), ("error_message", JString(errorMessage)), ("context", JObject(context))];
    assert forall k :: HasKey(members, k) ==> k == members[0].0 || k == members[1].0 || k == members[2].0;
    assert HasKey(members, members[0].0) && HasKey(members, members[1].0) && HasKey(members, members[2].0);
    JObject(members)
  }

  /** The request `report_error(error_type, error_message, context)` posts. */
  function ErrorReport(s: Snapshot, baseUrl: string, errorType: string, errorMessage: string,
                       context: seq<(string, Json)>): Request {
    Request("POST", baseUrl + "/error", GetHeaders(s), ErrorPayload(errorType, errorMessage, context))
  }

  /**
   * `report_error(error_type, error_message, context)` against `server`: it
   * posts the report and returns None whatever the reply; a
   * `RequestException` is swallowed.
   */
  function ReportError(s: Snapshot, baseUrl: string, errorType: string, errorMessage: string,
                       context: seq<(string, Json)>, server: Request -> Reply): (r: Exit<()>)
    ensures r == Returned(())
  {
    match server(ErrorReport(s, baseUrl, errorType, errorMessage, context))
    case Failure(_) => Returned(())
    case Response(_, _, _, _, _) => Returned(())
  }

  // ---------------------------------------------------------------------
  // _handle_response_error
  // ---------------------------------------------------------------------

  const UnknownError := "Unknown error occurred"

  /**
   * The message `_handle_response_error` derives: the JSON `message` field
   * (as `str()` shows it) or the default when it is missing; for a body that
   * is not JSON the response text, or the default when that is empty. A JSON
   * body that is not an object has no `.get`, and that `AttributeError`
   * escapes.
   */
  function ResponseErrorMessage(body: Body, text: string): (r: Result<string, Exception>)
    ensures body.NotJson? ==> r == Ok(if text != "" then text else UnknownError)
    ensures body.Parsed? && body.json.JObject? && HasKey(body.json.members, "message")
            ==> r == Ok(Display(Get(body.json.members, "message").value))
    ensures body.Parsed? && body.json.JObject? && !HasKey(body.json.members, "message")
            ==> r == Ok(UnknownError)
    ensures r.Err? <==> body.Parsed? && !body.json.JObject?
  {
    match body
    case NotJson(_) => Ok(if text != "" then text else UnknownError)
    case Parsed(JObject(ms)) => Ok(match Get(ms, "message") case Some(v) => Display(v) case None => UnknownError)
    case Parsed(j) => Err(OtherError("AttributeError", "'" + TypeName(j) + "' object has no attribute 'get'"))
  }

  const AuthenticationFailed := "Authentication failed. Please log in again."

  /** The bag after `_handle_response_error(response)`, and the exception it raises. */
  function ResponseErrorStep(s: Snapshot, status: int, body: Body, text: string): (r: (Snapshot, Exception))
    ensures r.0 == s || (status == 401 && r.0 == s.(userToken := None))
  {
    match ResponseErrorMessage(body, text)
    case Err(e) => (s, e)
    case Ok(m) =>
      if status == 429 then (s, Raise(RateLimitError, m))
      else if status == 401 then (s.(userToken := None), Raise(APIError, AuthenticationFailed))
      else (s, Raise(APIError, "API Error: " + m))
  }

  method HandleResponseError(bag: Bag, status: int, body: Body, text: string) returns (e: Exception)
    requires bag.Valid()
    modifies bag
    ensures bag.Valid()
    ensures (bag.View(), e) == ResponseErrorStep(old(bag.View()), status, body, text)
  {
    var m := ResponseErrorMessage(body, text);
    if m.Err? {
      return m.error;
    }
    if status == 429 {
      e := Raise(RateLimitError, m.value);
    } else if status == 401 {
      if bag.userToken.Some? {
        bag.userToken := None;
      }
      e := Raise(APIError, AuthenticationFailed);
    } else {
      e := Raise(APIError, "API Error: " + m.value);
    }
  }

  /**
   * Every readable error reply becomes an application error: 429 a
   * RateLimitError carrying the derived message, 401 an APIError that also
   * drops the stored token, anything else an APIError carrying the message.
   */
  lemma ResponseErrorKinds(s: Snapshot, status: int, body: Body, text: string)
    requires ResponseErrorMessage(body, text).Ok?
    ensures var (t, e) := ResponseErrorStep(s, status, body, text);
      var m := ResponseErrorMessage(body, text).value;
      && IsChatAppError(e)
      && (status == 429 ==> e == Raise(RateLimitError, m) && t == s)
      && (status == 401 ==> e == Raise(APIError, AuthenticationFailed) && t.userToken.None? && t.(userToken := s.userToken) == s)
      && (status != 429 && status != 401 ==> e == Raise(APIError, "API Error: " + m) && t == s)
  {
  }
}
