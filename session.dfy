/**
 * `src/utils/session.py`: lazy initialisation of the session bag, the
 * session id, the message list, the question counter and the metadata map.
 * Each writing operation is a method on the bag proved against a step
 * function on snapshots; the reads are functions of a snapshot.
 */
module Session {
  import opened Wrappers
  import opened Json
  import opened Config
  import opened SessionState

  // ---------------------------------------------------------------------
  // initialize_session_state
  // ---------------------------------------------------------------------

  /** The bag after `initialize_session_state`, with `freshId` the uuid4 drawn and `now` the clock. */
  function Initialize(s: Snapshot, freshId: string, now: int): Snapshot {
    if s.initialized then s
    else s.(initialized := true, sessionId := Some(freshId), messages := Some([]),
            questionsUsed := Some(0), lastResetTime := Some(now), guestMode := Some(true))
  }

  method InitializeSessionState(bag: Bag, freshId: string, now: int)
    requires bag.Valid()
    modifies bag
    ensures bag.Valid()
    ensures bag.View() == Initialize(old(bag.View()), freshId, now)
  {
    if !bag.initialized {
      bag.initialized := true;
      bag.sessionId := Some(freshId);
      bag.messages := Some([]);
      bag.questionsUsed := Some(0);
      bag.lastResetTime := Some(now);
      bag.guestMode := Some(true);
    }
  }

  /** Once initialised, initialising again changes nothing, whatever id and time it is given. */
  lemma InitializeIdempotent(s: Snapshot, id1: string, t1: int, id2: string, t2: int)
    ensures Initialize(Initialize(s, id1, t1), id2, t2) == Initialize(s, id1, t1)
  {
  }

  /**
   * A first initialisation opens an empty guest conversation under the
   * fresh id with the whole guest quota left.
   */
  lemma InitializeStartsGuestConversation(s: Snapshot, freshId: string, now: int)
    requires !s.initialized
    ensures var r := Initialize(s, freshId, now);
      && GetCurrentMessages(r) == [] && r.sessionId == Some(freshId)
      && QuestionsUsed(r) == 0 && !IsRateLimited(r)
      && GetRemainingQuestions(r) == AnonymousRateLimit
  {
  }

  // ---------------------------------------------------------------------
  // get_session_id / reset_session / get_chat_history
  // ---------------------------------------------------------------------

  /** The id `get_session_id` returns: the stored one, else the fresh one it stores. */
  function SessionIdOf(s: Snapshot, freshId: string): string {
    s.sessionId.GetOr(freshId)
  }

  /** The bag after `get_session_id`. */
  function WithSessionId(s: Snapshot, freshId: string): Snapshot {
    s.(sessionId := Some(SessionIdOf(s, freshId)))
  }

  method GetSessionId(bag: Bag, freshId: string) returns (id: string)
    requires bag.Valid()
    modifies bag
    ensures bag.Valid()
    ensures id == SessionIdOf(old(bag.View()), freshId)
    ensures bag.View() == WithSessionId(old(bag.View()), freshId)
  {
    if bag.sessionId.None? {
      bag.sessionId := Some(freshId);
    }
    id := bag.sessionId.value;
  }

  /** Asking twice gives the same id: the second call ignores its fresh id and changes nothing. */
  lemma SessionIdStable(s: Snapshot, id1: string, id2: string)
    ensures SessionIdOf(WithSessionId(s, id1), id2) == SessionIdOf(s, id1)
    ensures WithSessionId(WithSessionId(s, id1), id2) == WithSessionId(s, id1)
  {
  }

  /** The bag after `reset_session`. */
  function Reset(s: Snapshot, freshId: string, now: int): Snapshot {
    s.(messages := Some([]), sessionId := Some(freshId), questionsUsed := Some(0), lastResetTime := Some(now))
  }

  method ResetSession(bag: Bag, freshId: string, now: int)
    requires bag.Valid()
    modifies bag
    ensures bag.Valid()
    ensures bag.View() == Reset(old(bag.View()), freshId, now)
  {
    bag.messages := Some([]);
    bag.sessionId := Some(freshId);
    bag.questionsUsed := Some(0);
    bag.lastResetTime := Some(now);
  }

  /**
   * A reset empties the conversation, moves to the fresh id and gives back
   * the whole quota; the sign-in keys and the rate-limit window stay.
   */
  lemma ResetStartsOver(s: Snapshot, freshId: string, now: int)
    ensures var r := Reset(s, freshId, now);
      && GetCurrentMessages(r) == [] && SessionIdOf(r, freshId) == freshId
      && GetRemainingQuestions(r) == SessionLimit(s) && !IsRateLimited(r)
      && r.userToken == s.userToken && r.username == s.username && r.rateLimitStart == s.rateLimitStart
  {
  }

  /** `get_chat_history`: the stored list of past sessions, `[]` when none is stored. */
  function ChatHistoryOf(s: Snapshot): seq<Json> {
    s.chatHistory.GetOr([])
  }

  method GetChatHistory(bag: Bag) returns (history: seq<Json>)
    requires bag.Valid()
    modifies bag
    ensures bag.Valid()
    ensures history == ChatHistoryOf(old(bag.View()))
    ensures bag.View() == old(bag.View()).(chatHistory := Some(history))
  {
    if bag.chatHistory.None? {
      bag.chatHistory := Some([]);
    }
    history := bag.chatHistory.value;
  }

  // ---------------------------------------------------------------------
  // add_message_to_history / get_current_messages
  // ---------------------------------------------------------------------

  /** `get_current_messages`: the conversation so far, `[]` when none is stored. */
  function GetCurrentMessages(s: Snapshot): (r: seq<Json>)
    ensures s.messages.Some? ==> r == s.messages.value
    ensures s.messages.None? ==> r == []
  {
    s.messages.GetOr([])
  }

  /** The bag after `add_message_to_history(m)`. */
  function Appended(s: Snapshot, m: Json): Snapshot {
    s.(messages := Some(GetCurrentMessages(s) + [m]))
  }

  method AddMessageToHistory(bag: Bag, m: Json)
    requires bag.Valid()
    modifies bag
    ensures bag.Valid()
    ensures bag.View() == Appended(old(bag.View()), m)
  {
    if bag.messages.None? {
      bag.messages := Some([]);
    }
    bag.messages := Some(bag.messages.value + [m]);
  }

  /** The bag after adding each of `ms` in order. */
  function AppendedAll(s: Snapshot, ms: seq<Json>): Snapshot
    decreases |ms|
  {
    if ms == [] then s else AppendedAll(Appended(s, ms[0]), ms[1..])
  }

  /** The message list only grows, at its end, in the order messages are added; nothing else changes. */
  lemma {:induction false} AppendOnly(s: Snapshot, ms: seq<Json>)
    ensures GetCurrentMessages(AppendedAll(s, ms)) == GetCurrentMessages(s) + ms
    ensures AppendedAll(s, ms).(messages := s.messages) == s
    decreases |ms|
  {
    if ms != [] {
      AppendOnly(Appended(s, ms[0]), ms[1..]);
      assert GetCurrentMessages(s) + [ms[0]] + ms[1..] == GetCurrentMessages(s) + ms;
    }
  }

  // ---------------------------------------------------------------------
  // is_rate_limited / increment_question_count / get_remaining_questions
  // ---------------------------------------------------------------------

  /** `questions_used`, 0 when absent. */
  function QuestionsUsed(s: Snapshot): nat {
    s.questionsUsed.GetOr(0)
  }

  /**
   * The limit these reads apply: `get("guest_mode")` has no default, so an
   * absent key reads as not-guest and selects the signed-in limit.
   */
  function SessionLimit(s: Snapshot): int {
    if s.guestMode == Some(true) then AnonymousRateLimit else AuthenticatedRateLimit
  }

  /**
   * `is_rate_limited()`: fewer questions than the guest limit are never
   * limited and the signed-in limit always is; in between, the tier decides,
   * and only a stored `guest_mode` of True selects the guest limit.
   */
  function IsRateLimited(s: Snapshot): (r: bool)
    ensures QuestionsUsed(s) < AnonymousRateLimit ==> !r
    ensures QuestionsUsed(s) >= AuthenticatedRateLimit ==> r
    ensures s.guestMode == Some(true) ==> (r <==> QuestionsUsed(s) >= AnonymousRateLimit)
    ensures s.guestMode != Some(true) ==> (r <==> QuestionsUsed(s) >= AuthenticatedRateLimit)
  {
    QuestionsUsed(s) >= SessionLimit(s)
  }

  /**
   * `get_remaining_questions()`: the questions left, never negative, and
   * zero exactly when the session is rate-limited.
   */
  function GetRemainingQuestions(s: Snapshot): (r: int)
    ensures 0 <= r <= SessionLimit(s)
    ensures r == 0 <==> IsRateLimited(s)
    ensures r > 0 ==> r + QuestionsUsed(s) == SessionLimit(s)
  {
    if SessionLimit(s) - QuestionsUsed(s) > 0 then SessionLimit(s) - QuestionsUsed(s) else 0
  }

  /** The bag after `increment_question_count()`. */
  function CountedQuestion(s: Snapshot): Snapshot {
    s.(questionsUsed := Some(QuestionsUsed(s) + 1))
  }

  method IncrementQuestionCount(bag: Bag)
    requires bag.Valid()
    modifies bag
    ensures bag.Valid()
    ensures bag.View() == CountedQuestion(old(bag.View()))
  {
    if bag.questionsUsed.None? {
      bag.questionsUsed := Some(0);
    }
    bag.questionsUsed := Some(bag.questionsUsed.value + 1);
  }

  /** Each counted question takes one from what is left, down to zero. */
  lemma CountingSpendsOne(s: Snapshot)
    ensures GetRemainingQuestions(CountedQuestion(s)) == if GetRemainingQuestions(s) > 0 then GetRemainingQuestions(s) - 1 else 0
    ensures IsRateLimited(s) ==> IsRateLimited(CountedQuestion(s))
  {
  }

  // ---------------------------------------------------------------------
  // set_session_metadata / get_session_metadata
  // ---------------------------------------------------------------------

  /** `get_session_metadata()`: `{}` when none is stored. */
  function GetSessionMetadata(s: Snapshot): (r: map<string, Json>)
    ensures s.metadata.Some? ==> r == s.metadata.value
    ensures s.metadata.None? ==> r == map[]
  {
    s.metadata.GetOr(map[])
  }

  /** The bag after `set_session_metadata(m)`: `m` merged over what is stored. */
  function MergedMetadata(s: Snapshot, m: map<string, Json>): Snapshot {
    s.(metadata := Some(GetSessionMetadata(s) + m))
  }

  method SetSessionMetadata(bag: Bag, m: map<string, Json>)
    requires bag.Valid()
    modifies bag
    ensures bag.Valid()
    ensures bag.View() == MergedMetadata(old(bag.View()), m)
  {
    if bag.metadata.None? {
      bag.metadata := Some(map[]);
    }
    bag.metadata := Some(bag.metadata.value + m);
  }

  /**
   * After a merge, a key of `m` reads `m`'s value and every other key reads
   * what it read before; no key is lost.
   */
  lemma MetadataMerge(s: Snapshot, m: map<string, Json>, k: string)
    ensures var after := GetSessionMetadata(MergedMetadata(s, m));
      && (k in after <==> k in m || k in GetSessionMetadata(s))
      && (k in m ==> after[k] == m[k])
      && (k !in m && k in GetSessionMetadata(s) ==> after[k] == GetSessionMetadata(s)[k])
  {
  }

  /** Merging the same map twice is merging it once. */
  lemma MetadataMergeIdempotent(s: Snapshot, m: map<string, Json>)
    ensures MergedMetadata(MergedMetadata(s, m), m) == MergedMetadata(s, m)
  {
    var once := GetSessionMetadata(s) + m;
    assert once + m == once;
  }
}
