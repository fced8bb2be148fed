/**
 * `src/components/chat_interface.py`: one chat turn (record the prompt,
 * ask the backend, record the answer, count the question), "New Chat", the
 * remaining-questions display and the rate-limit gate in front of the input.
 */
module ChatInterface {
  import opened Wrappers
  import opened Json
  import opened Config
  import opened Exceptions
  import opened SessionState
  import Session
  import RateLimit
  import ApiClient

  /** The message recorded for the user's prompt, verbatim. */
  function UserMessage(prompt: string): Json {
    JObject([("role", JString("user")), ("content", JString(prompt))])
  }

  /** The message recorded for the backend's answer, whatever JSON value it is. */
  function AssistantMessage(content: Json): Json {
    JObject([("role", JString("assistant")), ("content", content)])
  }

  /**
   * The backend's answer to `prompt` asked from the bag `s`: the session id
   * is made sure of first, then the request goes out with the headers that
   * bag gives.
   */
  function Exchange(s: Snapshot, prompt: string, guestMode: bool, freshId: string, baseUrl: string,
                    server: ApiClient.Request -> ApiClient.Reply): Result<Json, Exception> {
    ApiClient.SendMessage(Session.WithSessionId(s, freshId), baseUrl, prompt, Session.SessionIdOf(s, freshId), guestMode, server)
  }

  // ---------------------------------------------------------------------
  // _handle_user_input / _update_question_count
  // ---------------------------------------------------------------------

  /**
   * `_handle_user_input(prompt, guest_mode)`: the prompt is recorded before
   * the request; a successful answer is recorded, counted and ends in a
   * rerun; any exception is shown as "Error: " and its text.
   */
  function UserInputStep(s: Snapshot, prompt: string, guestMode: bool, freshId: string, baseUrl: string,
                         server: ApiClient.Request -> ApiClient.Reply): (o: Outcome)
    ensures Consistent(s) ==> Consistent(o.after)
  {
    var asked := Session.WithSessionId(Session.Appended(s, UserMessage(prompt)), freshId);
    match Exchange(Session.Appended(s, UserMessage(prompt)), prompt, guestMode, freshId, baseUrl, server)
    case Ok(content) => Outcome(Session.CountedQuestion(Session.Appended(asked, AssistantMessage(content))), Rerun, None)
    case Err(e) => Outcome(asked, Returned(()), Some("Error: " + Str(e)))
  }

  method UpdateQuestionCount(bag: Bag)
    requires bag.Valid()
    modifies bag
    ensures bag.Valid()
    ensures bag.View() == Session.CountedQuestion(old(bag.View()))
  {
    if bag.questionsUsed.None? {
      bag.questionsUsed := Some(0);
    }
    bag.questionsUsed := Some(bag.questionsUsed.value + 1);
  }

  method HandleUserInput(bag: Bag, prompt: string, guestMode: bool, freshId: string, baseUrl: string,
                         server: ApiClient.Request -> ApiClient.Reply)
    returns (exit: Exit<()>, shown: Option<string>)
    requires bag.Valid()
    modifies bag
    ensures bag.Valid()
    ensures Outcome(bag.View(), exit, shown) == UserInputStep(old(bag.View()), prompt, guestMode, freshId, baseUrl, server)
  {
    if bag.messages.None? {
      bag.messages := Some([]);
    }
    bag.messages := Some(bag.messages.value + [UserMessage(prompt)]);
    var sessionId := Session.GetSessionId(bag, freshId);
    var response := ApiClient.SendMessage(bag.View(), baseUrl, prompt, sessionId, guestMode, server);
    if response.Err? {
      return Returned(()), Some("Error: " + Str(response.error));
    }
    bag.messages := Some(bag.messages.value + [AssistantMessage(response.value)]);
    UpdateQuestionCount(bag);
    exit, shown := Rerun, None;
  }

  /** Recording the prompt does not change the request: its headers depend only on the id and the token. */
  lemma ExchangeIgnoresMessages(s: Snapshot, m: Json, prompt: string, guestMode: bool, freshId: string, baseUrl: string,
                                server: ApiClient.Request -> ApiClient.Reply)
    ensures Exchange(Session.Appended(s, m), prompt, guestMode, freshId, baseUrl, server)
         == Exchange(s, prompt, guestMode, freshId, baseUrl, server)
  {
    assert ApiClient.GetHeaders(Session.WithSessionId(Session.Appended(s, m), freshId))
        == ApiClient.GetHeaders(Session.WithSessionId(s, freshId));
  }

  /**
   * A turn records the prompt verbatim and, when the backend answers, the
   * answer after it, and only then spends one question; a failed exchange
   * leaves the counter untouched and shows the error. The session id is
   * made sure of either way, and no other key changes.
   */
  lemma UserInputTurn(s: Snapshot, prompt: string, guestMode: bool, freshId: string, baseUrl: string,
                      server: ApiClient.Request -> ApiClient.Reply)
    ensures var o := UserInputStep(s, prompt, guestMode, freshId, baseUrl, server);
      var r := Exchange(s, prompt, guestMode, freshId, baseUrl, server);
      && o.after.sessionId == Some(Session.SessionIdOf(s, freshId))
      && o.after.(messages := s.messages, sessionId := s.sessionId, questionsUsed := s.questionsUsed) == s
      && (r.Ok? ==>
            && Session.GetCurrentMessages(o.after) == Session.GetCurrentMessages(s) + [UserMessage(prompt), AssistantMessage(r.value)]
            && Session.QuestionsUsed(o.after) == Session.QuestionsUsed(s) + 1
            && o.exit == Rerun && o.shown.None?)
      && (r.Err? ==>
            && Session.GetCurrentMessages(o.after) == Session.GetCurrentMessages(s) + [UserMessage(prompt)]
            && o.after.questionsUsed == s.questionsUsed
            && o.exit == Returned(()) && o.shown == Some("Error: " + Str(r.error)))
  {
    ExchangeIgnoresMessages(s, UserMessage(prompt), prompt, guestMode, freshId, baseUrl, server);
    var r := Exchange(s, prompt, guestMode, freshId, baseUrl, server);
    if r.Ok? {
      var msgs := Session.GetCurrentMessages(s);
      assert msgs + [UserMessage(prompt)] + [AssistantMessage(r.value)] == msgs + [UserMessage(prompt), AssistantMessage(r.value)];
    }
  }

  // ---------------------------------------------------------------------
  // _start_new_chat
  // ---------------------------------------------------------------------

  /** The bag after `_start_new_chat()`: no messages, and the id `get_session_id` gives. */
  function NewChat(s: Snapshot, freshId: string): Snapshot {
    Session.WithSessionId(s, freshId).(messages := Some([]))
  }

  method StartNewChat(bag: Bag, freshId: string) returns (exit: Exit<()>)
    requires bag.Valid()
    modifies bag
    ensures bag.Valid()
    ensures bag.View() == NewChat(old(bag.View()), freshId) && exit == Rerun
  {
    bag.messages := Some([]);
    var id := Session.GetSessionId(bag, freshId);
    bag.sessionId := Some(id);
    exit := Rerun;
  }

  /**
   * "New Chat" empties the conversation but keeps the session id it had,
   * and spends or restores no questions.
   */
  lemma NewChatKeepsSession(s: Snapshot, freshId: string)
    ensures Session.GetCurrentMessages(NewChat(s, freshId)) == []
    ensures s.sessionId.Some? ==> NewChat(s, freshId).sessionId == s.sessionId
    ensures NewChat(s, freshId).questionsUsed == s.questionsUsed
    ensures NewChat(NewChat(s, freshId), freshId) == NewChat(s, freshId)
  {
  }

  // ---------------------------------------------------------------------
  // _get_remaining_questions
  // ---------------------------------------------------------------------

  /** The limit this component applies: the signed-in limit only when `guest_mode` is stored and false. */
  function DisplayLimit(s: Snapshot): int {
    if !s.guestMode.GetOr(true) then AuthenticatedRateLimit else AnonymousRateLimit
  }

  /** `_get_remaining_questions()`: never negative, zero exactly when the limit is used up. */
  function RemainingQuestions(s: Snapshot): (r: int)
    ensures 0 <= r <= DisplayLimit(s)
    ensures r == 0 <==> Session.QuestionsUsed(s) >= DisplayLimit(s)
    ensures r > 0 ==> r + Session.QuestionsUsed(s) == DisplayLimit(s)
  {
    RateLimit.Max(0, DisplayLimit(s) - Session.QuestionsUsed(s))
  }

  /** With `guest_mode` stored, this display and the session module agree. */
  lemma RemainingAgreesWhenTierStored(s: Snapshot)
    requires s.guestMode.Some?
    ensures RemainingQuestions(s) == Session.GetRemainingQuestions(s)
  {
  }

  /**
   * Without `guest_mode` stored, the modules disagree about the tier: the
   * session module counts a signed-in quota of 50, while this display and
   * the rate-limit message count a guest quota of 10.
   */
  lemma GuestDefaultsDiffer()
    ensures Session.GetRemainingQuestions(Empty) == 50
    ensures RemainingQuestions(Empty) == 10
    ensures RateLimit.FormattedRemaining(Empty) == 10
  {
  }

  // ---------------------------------------------------------------------
  // _render_chat_input
  // ---------------------------------------------------------------------

  const RateLimitWarning := "Rate limit reached. Please try again later."

  /**
   * The chat input at time `now`: the rate-limit check runs first, and when
   * it fails a warning is shown and no input is handled; otherwise a
   * non-empty prompt is handled as a turn.
   */
  function ChatInputStep(s: Snapshot, now: int, guestMode: bool, prompt: string, freshId: string, baseUrl: string,
                         server: ApiClient.Request -> ApiClient.Reply): (o: Outcome)
    requires Consistent(s)
    ensures Consistent(o.after)
  {
    var checked := RateLimit.Checked(s, now);
    if RateLimit.CurrentWindow(s, now).used >= RateLimit.LimitFor(guestMode) then Outcome(checked, Returned(()), Some(RateLimitWarning))
    else if prompt == "" then Outcome(checked, Returned(()), None)
    else UserInputStep(checked, prompt, guestMode, freshId, baseUrl, server)
  }

  /** `_render_chat_input(guest_mode)`, with `prompt` the text submitted ("" when none). */
  method RenderChatInput(bag: Bag, now: int, guestMode: bool, prompt: string, freshId: string, baseUrl: string,
                         server: ApiClient.Request -> ApiClient.Reply)
    returns (exit: Exit<()>, shown: Option<string>)
    requires bag.Valid()
    modifies bag
    ensures bag.Valid()
    ensures Outcome(bag.View(), exit, shown) == ChatInputStep(old(bag.View()), now, guestMode, prompt, freshId, baseUrl, server)
  {
    var ok := RateLimit.CheckRateLimit(bag, now, guestMode);
    if !ok {
      return Returned(()), Some(RateLimitWarning);
    }
    if prompt == "" {
      return Returned(()), None;
    }
    exit, shown := HandleUserInput(bag, prompt, guestMode, freshId, baseUrl, server);
  }

  /** Past the limit, the input changes no message and spends no question. */
  lemma BlockedInputHandlesNothing(s: Snapshot, now: int, guestMode: bool, prompt: string, freshId: string, baseUrl: string,
                                   server: ApiClient.Request -> ApiClient.Reply)
    requires Consistent(s)
    requires RateLimit.CurrentWindow(s, now).used >= RateLimit.LimitFor(guestMode)
    ensures var o := ChatInputStep(s, now, guestMode, prompt, freshId, baseUrl, server);
      && o.after == RateLimit.Checked(s, now) && o.shown == Some(RateLimitWarning)
      && o.after.messages == s.messages && Session.QuestionsUsed(o.after) == RateLimit.CurrentWindow(s, now).used
  {
  }

  /**
   * For one tier, the counter never passes the limit: if it is within the
   * limit before an input, it is within it after, whatever the time, the
   * prompt and the backend's answer.
   */
  lemma QuotaStaysWithinLimit(s: Snapshot, now: int, guestMode: bool, prompt: string, freshId: string, baseUrl: string,
                              server: ApiClient.Request -> ApiClient.Reply)
    requires Consistent(s) && Session.QuestionsUsed(s) <= RateLimit.LimitFor(guestMode)
    ensures Session.QuestionsUsed(ChatInputStep(s, now, guestMode, prompt, freshId, baseUrl, server).after) <= RateLimit.LimitFor(guestMode)
  {
    var checked := RateLimit.Checked(s, now);
    assert Session.QuestionsUsed(checked) == RateLimit.CurrentWindow(s, now).used <= RateLimit.LimitFor(guestMode);
    if RateLimit.CurrentWindow(s, now).used < RateLimit.LimitFor(guestMode) && prompt != "" {
      UserInputTurn(checked, prompt, guestMode, freshId, baseUrl, server);
    }
  }
}
