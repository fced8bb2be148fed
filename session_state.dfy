/**
 * `st.session_state`, the key/value bag every page run shares. Each key the
 * core uses is a field; `None` means the key is absent.
 */
module SessionState {
  import opened Wrappers
  import opened Json
  import opened Exceptions

  /** The value of the bag at one moment. */
  datatype Snapshot = Snapshot(
    initialized: bool,
    sessionId: Option<string>,
    messages: Option<seq<Json>>,
    questionsUsed: Option<nat>,
    lastResetTime: Option<int>,
    guestMode: Option<bool>,
    rateLimitStart: Option<int>,
    userToken: Option<string>,
    username: Option<string>,
    refreshToken: Option<string>,
    metadata: Option<map<string, Json>>,
    chatHistory: Option<seq<Json>>)

  /** The bag of a brand-new browser session: no key is set. */
  const Empty: Snapshot := Snapshot(false, None, None, None, None, None, None, None, None, None, None, None)

  /**
   * Keys written together stay together: whenever a rate-limit window has
   * started, the question counter exists. Every operation keeps this.
   */
  predicate Consistent(s: Snapshot) {
    s.rateLimitStart.Some? ==> s.questionsUsed.Some?
  }

  /** Python truthiness of an optional string key: present and non-empty. */
  predicate Truthy(v: Option<string>) {
    v.Some? && v.value != ""
  }

  /**
   * How a page handler ends: the bag after it, whether it returned, raised
   * or triggered a rerun, and the error or warning it showed, if any.
   */
  datatype Outcome = Outcome(after: Snapshot, exit: Exit<()>, shown: Option<string>)

  class Bag {
    var initialized: bool
    var sessionId: Option<string>
    var messages: Option<seq<Json>>
    var questionsUsed: Option<nat>
    var lastResetTime: Option<int>
    var guestMode: Option<bool>
    var rateLimitStart: Option<int>
    var userToken: Option<string>
    var username: Option<string>
    var refreshToken: Option<string>
    var metadata: Option<map<string, Json>>
    var chatHistory: Option<seq<Json>>

    function View(): Snapshot
      reads this
    {
      Snapshot(initialized, sessionId, messages, questionsUsed, lastResetTime, guestMode,
               rateLimitStart, userToken, username, refreshToken, metadata, chatHistory)
    }

    predicate Valid()
      reads this
    {
      Consistent(View())
    }

    constructor ()
      ensures View() == Empty && Valid()
    {
      initialized := false;
      sessionId := None;
      messages := None;
      questionsUsed := None;
      lastResetTime := None;
      guestMode := None;
      rateLimitStart := None;
      userToken := None;
      username := None;
      refreshToken := None;
      metadata := None;
      chatHistory := None;
    }
  }
}
