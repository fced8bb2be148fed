/**
 * `src/utils/rate_limit.py`: a fixed window per browser session that is
 * opened lazily and reset lazily when a check finds it expired, with a
 * check-then-increment question counter. Time is whole seconds.
 */
module RateLimit {
  import opened Wrappers
  import opened Text
  import opened Config
  import opened Exceptions
  import opened SessionState

  /** The limit for a tier: guests get the anonymous limit. */
  function LimitFor(guestMode: bool): int {
    if !guestMode then AuthenticatedRateLimit else AnonymousRateLimit
  }

  /** A rate-limit window: when it started and how many questions it has counted. */
  datatype Window = Window(start: int, used: nat)

  /**
   * The window `check_rate_limit` works with at time `now`: the stored one,
   * unless none is stored or more than the window length has passed since
   * it started, in which case a new one opens at `now` with nothing counted.
   */
  function CurrentWindow(s: Snapshot, now: int): Window
    requires Consistent(s)
  {
    if s.rateLimitStart.None? || now - s.rateLimitStart.value > RateLimitWindowSeconds then Window(now, 0)
    else Window(s.rateLimitStart.value, s.questionsUsed.value)
  }

  /** The bag after `check_rate_limit` at `now`. */
  function Checked(s: Snapshot, now: int): (r: Snapshot)
    requires Consistent(s)
    ensures Consistent(r)
  {
    var w := CurrentWindow(s, now);
    s.(rateLimitStart := Some(w.start), questionsUsed := Some(w.used))
  }

  /** `check_rate_limit(guest_mode)` at time `now`. */
  method CheckRateLimit(bag: Bag, now: int, guestMode: bool) returns (ok: bool)
    requires bag.Valid()
    modifies bag
    ensures bag.Valid()
    ensures bag.View() == Checked(old(bag.View()), now)
    ensures ok <==> CurrentWindow(old(bag.View()), now).used < LimitFor(guestMode)
  {
    if bag.rateLimitStart.None? {
      bag.rateLimitStart := Some(now);
      bag.questionsUsed := Some(0);
    }
    if now - bag.rateLimitStart.value > RateLimitWindowSeconds {
      bag.rateLimitStart := Some(now);
      bag.questionsUsed := Some(0);
    }
    var limit := if !guestMode then AuthenticatedRateLimit else AnonymousRateLimit;
    ok := bag.questionsUsed.value < limit;
  }

  /**
   * Inside a running window a check changes nothing at all; only opening
   * or resetting the window writes to the bag.
   */
  lemma CheckWithinWindowChangesNothing(s: Snapshot, now: int)
    requires Consistent(s) && s.rateLimitStart.Some?
    requires now - s.rateLimitStart.value <= RateLimitWindowSeconds
    ensures Checked(s, now) == s
  {
  }

  /** The window resets only strictly after its length: at exactly one hour it is kept. */
  lemma WindowBoundary(s: Snapshot)
    requires Consistent(s) && s.rateLimitStart.Some?
    ensures var start := s.rateLimitStart.value;
      && CurrentWindow(s, start + 3600) == Window(start, s.questionsUsed.value)
      && CurrentWindow(s, start + 3601) == Window(start + 3601, 0)
  {
  }

  // ---------------------------------------------------------------------
  // increment_rate_limit
  // ---------------------------------------------------------------------

  const RateLimitExceeded: Exception := Raise(RateLimitError, "Rate limit exceeded. Please try again later.")

  /** The tier `increment_rate_limit` uses: the session's `guest_mode`, a guest when absent. */
  function IncrementTier(s: Snapshot): bool {
    s.guestMode.GetOr(true)
  }

  /** The bag after `increment_rate_limit()` at `now`, and the exception it raises, if any. */
  function IncrementStep(s: Snapshot, now: int): (r: (Snapshot, Option<Exception>))
    requires Consistent(s)
    ensures Consistent(r.0)
  {
    var c := Checked(s, now);
    if c.questionsUsed.value < LimitFor(IncrementTier(s)) then (c.(questionsUsed := Some(c.questionsUsed.value + 1)), None)
    else (c, Some(RateLimitExceeded))
  }

  method IncrementRateLimit(bag: Bag, now: int) returns (raised: Option<Exception>)
    requires bag.Valid()
    modifies bag
    ensures bag.Valid()
    ensures (bag.View(), raised) == IncrementStep(old(bag.View()), now)
  {
    var ok := CheckRateLimit(bag, now, bag.guestMode.GetOr(true));
    if !ok {
      raised := Some(RateLimitExceeded);
      return;
    }
    bag.questionsUsed := Some(bag.questionsUsed.value + 1);
    raised := None;
  }

  /**
   * One increment either raises RateLimitError and leaves the counter of
   * the current window as it was, or adds exactly one to it.
   */
  lemma IncrementAddsOneOrRaises(s: Snapshot, now: int)
    requires Consistent(s)
    ensures var (t, raised) := IncrementStep(s, now);
      && (raised.None? ==> t.questionsUsed == Some(CurrentWindow(s, now).used + 1))
      && (raised.Some? ==> raised.value == RateLimitExceeded && t.questionsUsed == Some(CurrentWindow(s, now).used))
      && t.guestMode == s.guestMode
  {
  }

  /** How many of the increments made at `times`, one after another, do not raise. */
  function Successes(s: Snapshot, times: seq<int>): nat
    requires Consistent(s)
    decreases |times|
  {
    if times == [] then 0
    else
      var (t, raised) := IncrementStep(s, times[0]);
      (if raised.None? then 1 else 0) + Successes(t, times[1..])
  }

  function Min(a: int, b: int): int { if a <= b then a else b }
  function Max(a: int, b: int): int { if a >= b then a else b }

  /**
   * Within one window, a run of increments succeeds exactly as often as
   * the quota left allows: `min(n, max(0, limit - used))` of `n` calls.
   */
  lemma {:induction false} WindowCap(s: Snapshot, times: seq<int>)
    requires Consistent(s) && s.rateLimitStart.Some?
    requires forall i :: 0 <= i < |times| ==> times[i] - s.rateLimitStart.value <= RateLimitWindowSeconds
    ensures Successes(s, times) == Min(|times|, Max(0, LimitFor(IncrementTier(s)) - s.questionsUsed.value))
    decreases |times|
  {
    if times != [] {
      CheckWithinWindowChangesNothing(s, times[0]);
      var (t, raised) := IncrementStep(s, times[0]);
      assert t.rateLimitStart == s.rateLimitStart && t.guestMode == s.guestMode;
      WindowCap(t, times[1..]);
    }
  }

  /**
   * From a session with no window yet, the first increment opens one, and
   * of `n` increments within the hour that follows exactly `min(n, limit)`
   * succeed: never more than the limit.
   */
  lemma FreshWindowCap(s: Snapshot, times: seq<int>)
    requires Consistent(s) && s.rateLimitStart.None? && times != []
    requires forall i :: 0 <= i < |times| ==> times[i] - times[0] <= RateLimitWindowSeconds
    ensures Successes(s, times) == Min(|times|, LimitFor(IncrementTier(s)))
  {
    var (t, raised) := IncrementStep(s, times[0]);
    assert t.rateLimitStart == Some(times[0]) && t.questionsUsed == Some(1) && raised.None?;
    WindowCap(t, times[1..]);
  }

  // ---------------------------------------------------------------------
  // get_rate_limit_reset_time / format_rate_limit_message
  // ---------------------------------------------------------------------

  /** `get_rate_limit_reset_time()`: the end of the stored window, if one has started. */
  function GetRateLimitResetTime(s: Snapshot): (r: Option<int>)
    ensures r.Some? <==> s.rateLimitStart.Some?
    ensures r.Some? ==> r.value - s.rateLimitStart.value == RateLimitWindowHours * 3600
  {
    if s.rateLimitStart.Some? then Some(s.rateLimitStart.value + RateLimitWindowSeconds) else None
  }

  /**
   * Right after a check at `now` a window is open and ends no earlier than
   * `now`; unless the clock has gone back behind the window's start, it
   * ends at most one window length after `now`.
   */
  lemma ResetTimeAfterCheck(s: Snapshot, now: int)
    requires Consistent(s)
    ensures var r := GetRateLimitResetTime(Checked(s, now));
      && r.Some? && now <= r.value
      && (s.rateLimitStart.None? || s.rateLimitStart.value <= now ==> r.value - now <= RateLimitWindowSeconds)
  {
  }

  /**
   * Hours and minutes of a countdown, by floor division as Python's `//`
   * and `%` do: the minutes are 0 to 59, and the pair names `seconds`
   * rounded down to a whole minute, for negative counts too.
   */
  function Countdown(seconds: int): (hm: (int, int))
    ensures 0 <= hm.1 < 60
    ensures hm.0 * 3600 + hm.1 * 60 <= seconds < hm.0 * 3600 + hm.1 * 60 + 60
  {
    var hours := seconds / 3600;
    var rest := seconds % 3600;
    var minutes := rest / 60;
    assert seconds == hours * 3600 + rest;
    assert rest == minutes * 60 + rest % 60;
    (hours, minutes)
  }

  /**
   * `remaining` in `format_rate_limit_message`: the limit of the session's
   * tier (a guest when `guest_mode` is absent) minus the questions used,
   * not clamped at zero.
   */
  function FormattedRemaining(s: Snapshot): int {
    LimitFor(s.guestMode.GetOr(true)) - s.questionsUsed.GetOr(0)
  }

  /** The countdown part of the message: ". Resets in Hh Mm". */
  function ResetsIn(hm: (int, int)): string {
    ". Resets in " + IntToString(hm.0) + "h " + IntToString(hm.1) + "m"
  }

  /**
   * `format_rate_limit_message()` at time `now`: the unclamped remaining
   * count, followed, once a window has started, by the countdown to its end.
   */
  function FormatRateLimitMessage(s: Snapshot, now: int): (r: string)
    ensures StartsWith(r, IntToString(FormattedRemaining(s)) + " questions remaining")
    ensures s.rateLimitStart.Some? ==>
      r == IntToString(FormattedRemaining(s)) + " questions remaining"
           + ResetsIn(Countdown(s.rateLimitStart.value + RateLimitWindowSeconds - now))
  {
    var head := IntToString(FormattedRemaining(s)) + " questions remaining";
    if s.rateLimitStart.None? then head
    else
      var r := head + ResetsIn(Countdown(s.rateLimitStart.value + RateLimitWindowSeconds - now));
      assert r[..|head|] == head;
      r
  }

  /** Before any window has started the message carries no countdown. */
  lemma MessageWithoutWindow(s: Snapshot, now: int)
    requires s.rateLimitStart.None?
    ensures FormatRateLimitMessage(s, now) == IntToString(FormattedRemaining(s)) + " questions remaining"
  {
  }

  /**
   * Right after a check whose window started no later than `now`, the
   * countdown shows at most one hour: 0 or 1 hours, and 0 minutes when 1.
   */
  lemma CountdownAfterCheck(s: Snapshot, now: int)
    requires Consistent(s)
    requires s.rateLimitStart.None? || s.rateLimitStart.value <= now
    ensures var (hours, minutes) := Countdown(GetRateLimitResetTime(Checked(s, now)).value - now);
      0 <= hours <= 1 && (hours == 1 ==> minutes == 0)
  {
    ResetTimeAfterCheck(s, now);
  }

  /** A guest who has used 12 questions is told "-2 questions remaining". */
  lemma RemainingNotClamped()
    ensures FormatRateLimitMessage(Empty.(questionsUsed := Some(12)), 0) == "-2 questions remaining"
  {
    var s := Empty.(questionsUsed := Some(12));
    assert FormattedRemaining(s) == -2;
    MessageWithoutWindow(s, 0);
    assert IntToString(-2) == "-2" by {
      assert NatToString(2) == "2";
    }
  }
}
