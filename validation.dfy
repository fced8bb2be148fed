/**
 * The input validators of `src/utils/validation.py` (the same code is
 * repeated verbatim in `src/utils/logger.py`): total functions over strings
 * and decoded records that run their rules in a fixed order and report the
 * first rule that fails.
 */
module Validation {
  import opened Wrappers
  import opened Text
  import opened Json
  import opened Exceptions

  // ---------------------------------------------------------------------
  // validate_message
  // ---------------------------------------------------------------------

  const MaxMessageLength: nat := 2000

  /** The denylist, in the order it is searched; each entry is literal lower-case text. */
  const DangerousPatterns: seq<string> :=
    ["javascript:", "data:", "vbscript:", "onload=", "onerror=", "onclick=", "eval("]

  /** `s.replace(c, rep)` for a one-character `c`. */
  function Replace(s: string, c: char, rep: string): (r: string)
    ensures c !in rep ==> c !in r
    decreases |s|
  {
    if s == [] then [] else (if s[0] == c then rep else [s[0]]) + Replace(s[1..], c, rep)
  }

  lemma {:induction false} ReplaceAppend(a: string, b: string, c: char, rep: string)
    ensures Replace(a + b, c, rep) == Replace(a, c, rep) + Replace(b, c, rep)
    decreases |a|
  {
    if a == [] {
      assert a + b == b;
    } else {
      assert (a + b)[1..] == a[1..] + b;
      ReplaceAppend(a[1..], b, c, rep);
    }
  }

  /** The two chained `replace` calls of the source: `<` first, then `>`. */
  function EscapeMarkup(s: string): string {
    Replace(Replace(s, '<', "&lt;"), '>', "&gt;")
  }

  /** The escape of one character. */
  function EscapeChar(c: char): string {
    if c == '<' then "&lt;" else if c == '>' then "&gt;" else [c]
  }

  /** Number of `<` and `>` in `s`. */
  function AngleCount(s: string): nat {
    if s == [] then 0 else (if s[0] == '<' || s[0] == '>' then 1 else 0) + AngleCount(s[1..])
  }

  /**
   * Reference escape: every character replaced by its escape in one pass.
   * The result holds no angle bracket and is 3 characters longer per bracket.
   */
  function EscapeEach(s: string): (r: string)
    ensures '<' !in r && '>' !in r
    ensures |r| == |s| + 3 * AngleCount(s)
  {
    if s == [] then [] else EscapeChar(s[0]) + EscapeEach(s[1..])
  }

  /** Replacing `<` and then `>` is the same as escaping each character once. */
  lemma {:induction false} EscapeMarkupIsEscapeEach(s: string)
    ensures EscapeMarkup(s) == EscapeEach(s)
    decreases |s|
  {
    if s != [] {
      var first := if s[0] == '<' then "&lt;" else [s[0]];
      var rest := Replace(s[1..], '<', "&lt;");
      assert Replace(s, '<', "&lt;") == first + rest;
      ReplaceAppend(first, rest, '>', "&gt;");
      if s[0] == '<' {
        assert Replace(first, '>', "&gt;") == "&lt;" by {
          assert first[1..] == "lt;" && first[1..][1..] == "t;" && first[1..][1..][1..] == ";";
        }
      } else {
        assert first[1..] == [];
      }
      EscapeMarkupIsEscapeEach(s[1..]);
    }
  }

  /** `re.search(pattern, text, re.IGNORECASE)` for a pattern made of lower-case ASCII text. */
  predicate SearchIgnoreCase(text: string, pattern: string) {
    Contains(Lower(text), pattern)
  }

  /** Some pattern of the denylist is found in `text`. */
  predicate HasDangerousContent(text: string) {
    exists k :: 0 <= k < |DangerousPatterns| && SearchIgnoreCase(text, DangerousPatterns[k])
  }

  /**
   * `validate_message(message)`: the stripped text must be non-empty and at
   * most 2000 characters (measured before escaping); its escaped form must
   * hold no denylisted pattern; the escaped form is returned.
   */
  function ValidateMessage(message: string): (r: Result<string, Exception>)
    ensures r.Ok? <==> Strip(message) != [] && |Strip(message)| <= MaxMessageLength
                       && !HasDangerousContent(EscapeEach(Strip(message)))
    ensures r.Ok? ==> r.value == EscapeEach(Strip(message)) && '<' !in r.value && '>' !in r.value
    ensures r.Ok? ==> |r.value| == |Strip(message)| + 3 * AngleCount(Strip(message))
    ensures Strip(message) == [] ==> r == Err(Raise(ValidationError, "Message cannot be empty"))
    ensures Strip(message) != [] && |Strip(message)| > MaxMessageLength
            ==> r == Err(Raise(ValidationError, "Message too long (max 2000 characters)"))
    ensures Strip(message) != [] && |Strip(message)| <= MaxMessageLength && HasDangerousContent(EscapeEach(Strip(message)))
            ==> r == Err(Raise(ValidationError, "Message contains potentially dangerous content"))
    ensures r.Err? ==> IsChatAppError(r.error) && r.error.error.kind == ValidationError
  {
    var stripped := Strip(message);
    if stripped == [] then Err(Raise(ValidationError, "Message cannot be empty"))
    else if |stripped| > MaxMessageLength then Err(Raise(ValidationError, "Message too long (max 2000 characters)"))
    else
      var escaped := EscapeMarkup(stripped);
      EscapeMarkupIsEscapeEach(stripped);
      if HasDangerousContent(escaped) then Err(Raise(ValidationError, "Message contains potentially dangerous content"))
      else Ok(escaped)
  }

  // ---------------------------------------------------------------------
  // validate_email
  // ---------------------------------------------------------------------

  /** The class `[a-zA-Z0-9._%+-]`. */
  predicate IsLocalChar(c: char) {
    IsAsciiLetter(c) || IsAsciiDigit(c) || c == '.' || c == '_' || c == '%' || c == '+' || c == '-'
  }

  /** The class `[a-zA-Z0-9.-]`. */
  predicate IsDomainChar(c: char) {
    IsAsciiLetter(c) || IsAsciiDigit(c) || c == '.' || c == '-'
  }

  /**
   * `[a-zA-Z0-9._%+-]+@[a-zA-Z0-9.-]+\.[a-zA-Z]{2,}` matches all of `t`
   * with its `@` at index `at` and its `\.` at index `dot`.
   */
  ghost predicate EmailParse(t: string, at: int, dot: int) {
    && 0 < at && at + 1 < dot && dot + 2 < |t|
    && t[at] == '@' && t[dot] == '.'
    && (forall i :: 0 <= i < at ==> IsLocalChar(t[i]))
    && (forall i :: at < i < dot ==> IsDomainChar(t[i]))
    && (forall i :: dot < i < |t| ==> IsAsciiLetter(t[i]))
  }

  /** Some way of matching the pattern consumes all of `t`. */
  ghost predicate EmailRegexFull(t: string) {
    exists at, dot :: EmailParse(t, at, dot)
  }

  /**
   * `re.match('^...$', s)`: Python's `$` matches at the end of the text and
   * also just before a newline that ends it.
   */
  ghost predicate EmailRegexMatch(s: string) {
    EmailRegexFull(s) || (s != [] && s[|s| - 1] == '\n' && EmailRegexFull(s[..|s| - 1]))
  }

  /** The domain after the `@`: a run of domain characters, then a last `.` followed by two or more letters. */
  function DomainShape(d: string): bool {
    var k := RFind(d, '.');
    0 < k && k + 3 <= |d| && All(d[..k], IsDomainChar) && All(d[k + 1..], IsAsciiLetter)
  }

  /** A left-to-right scan deciding the same as the regular expression on the whole of `t`. */
  function EmailShape(t: string): bool {
    var at := Find(t, '@');
    0 < at && All(t[..at], IsLocalChar) && DomainShape(t[at + 1..])
  }

  /** What the scan accepts, the pattern matches: the first `@` and the last `.` of the domain split it. */
  lemma EmailShapeSound(t: string)
    requires EmailShape(t)
    ensures EmailParse(t, Find(t, '@'), Find(t, '@') + 1 + RFind(t[Find(t, '@') + 1..], '.'))
  {
    var at := Find(t, '@');
    var d := t[at + 1..];
    var k := RFind(d, '.');
    var dot := at + 1 + k;
    forall i | 0 <= i < at ensures IsLocalChar(t[i]) {
      assert t[i] == t[..at][i];
    }
    forall i | at < i < dot ensures IsDomainChar(t[i]) {
      assert t[i] == d[..k][i - at - 1];
    }
    forall i | dot < i < |t| ensures IsAsciiLetter(t[i]) {
      assert t[i] == d[k + 1..][i - dot - 1];
    }
  }

  /** What the pattern matches, the scan accepts: a match can only use the first `@` and the last `.`. */
  lemma EmailShapeComplete(t: string, at: int, dot: int)
    requires EmailParse(t, at, dot)
    ensures EmailShape(t)
  {
    assert !IsLocalChar('@');
    FindAt(t, '@', at);
    var d := t[at + 1..];
    var k := dot - at - 1;
    assert d[k] == '.';
    assert forall j :: k < j < |d| ==> d[j] == t[j + at + 1];
    RFindAt(d, '.', k);
    assert All(t[..at], IsLocalChar) by {
      forall i | 0 <= i < at ensures IsLocalChar(t[..at][i]) {
        assert t[..at][i] == t[i];
      }
    }
    assert All(d[..k], IsDomainChar) by {
      forall i | 0 <= i < k ensures IsDomainChar(d[..k][i]) {
        assert d[..k][i] == t[i + at + 1];
      }
    }
    var letters := d[k + 1..];
    assert All(letters, IsAsciiLetter) by {
      forall i | 0 <= i < |letters| ensures IsAsciiLetter(letters[i]) {
        assert letters[i] == t[i + dot + 1];
      }
    }
  }

  /** The scan accepts exactly the texts the pattern matches in full. */
  lemma EmailShapeIsRegex(t: string)
    ensures EmailShape(t) <==> EmailRegexFull(t)
  {
    if EmailShape(t) {
      EmailShapeSound(t);
    }
    if EmailRegexFull(t) {
      var at, dot :| EmailParse(t, at, dot);
      EmailShapeComplete(t, at, dot);
    }
  }

  /** The regex test of the source, evaluated by the scan. */
  function MatchesEmailPattern(s: string): (r: bool)
    ensures r <==> EmailRegexMatch(s)
  {
    EmailShapeIsRegex(s);
    if s != [] && s[|s| - 1] == '\n' then
      EmailShapeIsRegex(s[..|s| - 1]);
      EmailShape(s) || EmailShape(s[..|s| - 1])
    else
      EmailShape(s)
  }

  /** `email.split('@')[0]`. */
  function LocalPart(s: string): (r: string)
    ensures StartsWith(s, r) && '@' !in r
  {
    var at := Find(s, '@');
    if at < 0 then s else s[..at]
  }

  /** The pattern matches `s` with `@` at `at` and `\.` at `dot`, the final newline `$` allows set aside. */
  ghost predicate EmailParseBeforeNewline(s: string, at: int, dot: int) {
    EmailParse(s, at, dot) || (s != [] && s[|s| - 1] == '\n' && EmailParse(s[..|s| - 1], at, dot))
  }

  /**
   * What `validate_email` accepts, stated on the pattern itself: at most 254
   * characters in all, and a match (before an optional final newline)
   * whose part before the `@` has at most 64 characters.
   */
  ghost predicate AcceptableEmail(s: string) {
    |s| <= 254 && exists at, dot :: at <= 64 && EmailParseBeforeNewline(s, at, dot)
  }

  /** In a full match the `@` is the first one, so the split gives the text before it. */
  lemma EmailParseLocalPart(t: string, s: string, at: int, dot: int)
    requires EmailParse(t, at, dot)
    requires t == s || (s != [] && t == s[..|s| - 1])
    ensures LocalPart(s) == s[..at] && |LocalPart(s)| == at
  {
    assert s[at] == '@';
    var f := Find(s, '@');
    assert 0 <= f <= at;
    assert forall j :: 0 <= j < at ==> s[j] == t[j];
    assert !IsLocalChar('@');
  }

  /** The checks of `validate_email` after the pattern test, given the pattern matched. */
  lemma AcceptableEmailChecks(email: string)
    requires EmailRegexMatch(email)
    ensures AcceptableEmail(email) <==> |email| <= 254 && |LocalPart(email)| <= 64
  {
    var t := if EmailRegexFull(email) then email else email[..|email| - 1];
    var at, dot :| EmailParse(t, at, dot);
    EmailParseLocalPart(t, email, at, dot);
    if |email| <= 254 && |LocalPart(email)| <= 64 {
      assert at <= 64 && EmailParseBeforeNewline(email, at, dot);
    }
    if AcceptableEmail(email) {
      var at', dot' :| at' <= 64 && EmailParseBeforeNewline(email, at', dot');
      var t' := if EmailParse(email, at', dot') then email else email[..|email| - 1];
      EmailParseLocalPart(t', email, at', dot');
    }
  }

  /** `validate_email(email)`. */
  function ValidateEmail(email: string): (ok: bool)
    ensures ok <==> AcceptableEmail(email)
  {
    if email == [] then false
    else if !MatchesEmailPattern(email) then false
    else if |email| > 254 then false
    else
      AcceptableEmailChecks(email);
      |LocalPart(email)| <= 64
  }

  /** Python's `$` lets a final newline through: "a@b.co\n" is a valid address. */
  lemma EmailTrailingNewlineAccepted()
    ensures ValidateEmail("a@b.co\n")
  {
    var s := "a@b.co\n";
    assert s[..|s| - 1] == "a@b.co";
    assert EmailParse(s[..|s| - 1], 1, 3);
    assert EmailParseBeforeNewline(s, 1, 3);
  }

  // ---------------------------------------------------------------------
  // Ordered rule checks (validate_password, validate_username)
  // ---------------------------------------------------------------------

  /** One check of a validator: the condition it demands and the message it returns when that fails. */
  datatype Rule<-T> = Rule(holds: T -> bool, message: string)

  /** Rule `i` is the first one `x` fails. */
  ghost predicate FailsFirstAt<T>(rules: seq<Rule<T>>, x: T, i: int) {
    0 <= i < |rules| && !rules[i].holds(x) && forall j :: 0 <= j < i ==> rules[j].holds(x)
  }

  /** Run the rules from index `k` on in order and return the message of the first that fails. */
  function FirstFailure<T>(rules: seq<Rule<T>>, x: T, k: nat): (r: Option<string>)
    requires k <= |rules| && forall j :: 0 <= j < k ==> rules[j].holds(x)
    ensures r.None? <==> forall i :: 0 <= i < |rules| ==> rules[i].holds(x)
    ensures r.Some? ==> exists i :: FailsFirstAt(rules, x, i) && r.value == rules[i].message
    decreases |rules| - k
  {
    if k == |rules| then None
    else if !rules[k].holds(x) then
      assert FailsFirstAt(rules, x, k);
      Some(rules[k].message)
    else FirstFailure(rules, x, k + 1)
  }

  /** Whatever rule fails first decides the message. */
  lemma FirstFailureIs<T>(rules: seq<Rule<T>>, x: T, i: int)
    requires FailsFirstAt(rules, x, i)
    ensures FirstFailure(rules, x, 0) == Some(rules[i].message)
  {
    var r := FirstFailure(rules, x, 0);
    assert !rules[i].holds(x);
    var i' :| FailsFirstAt(rules, x, i') && r.value == rules[i'].message;
    assert forall j :: 0 <= j < i ==> rules[j].holds(x);
    assert forall j :: 0 <= j < i' ==> rules[j].holds(x);
    assert !rules[i'].holds(x);
  }

  /** The class `[!@#$%^&*(),.?":{}|<>]`. */
  predicate IsPasswordSpecial(c: char) {
    c in "!@#$%^&*(),.?\":{}|<>"
  }

  const CommonPasswordPatterns: seq<string> := ["password", "123456", "qwerty", "abc123", "admin"]

  predicate HasCommonPattern(p: string) {
    exists k :: 0 <= k < |CommonPasswordPatterns| && Contains(Lower(p), CommonPasswordPatterns[k])
  }

  /** The checks of `validate_password`, in source order. */
  const PasswordRules: seq<Rule<string>> := [
    Rule(p => |p| >= 8, "Password must be at least 8 characters long"),
    Rule(p => |p| <= 128, "Password must be less than 128 characters long"),
    Rule(p => Any(p, IsAsciiUpper), "Password must contain at least one uppercase letter"),
    Rule(p => Any(p, IsAsciiLower), "Password must contain at least one lowercase letter"),
    Rule(p => Any(p, IsAsciiDigit), "Password must contain at least one number"),
    Rule(p => Any(p, IsPasswordSpecial), "Password must contain at least one special character"),
    Rule(p => !HasCommonPattern(p), "Password contains common patterns that are too easy to guess")
  ]

  /** A password every rule accepts. */
  ghost predicate StrongPassword(p: string) {
    && 8 <= |p| <= 128
    && Any(p, IsAsciiUpper) && Any(p, IsAsciiLower) && Any(p, IsAsciiDigit) && Any(p, IsPasswordSpecial)
    && !Contains(Lower(p), "password") && !Contains(Lower(p), "123456") && !Contains(Lower(p), "qwerty")
    && !Contains(Lower(p), "abc123") && !Contains(Lower(p), "admin")
  }

  /** The common-pattern rule, spelled out pattern by pattern. */
  lemma CommonPatternsListed(p: string)
    ensures HasCommonPattern(p) <==> (Contains(Lower(p), "password") || Contains(Lower(p), "123456")
      || Contains(Lower(p), "qwerty") || Contains(Lower(p), "abc123") || Contains(Lower(p), "admin"))
  {
    if HasCommonPattern(p) {
      var k :| 0 <= k < |CommonPasswordPatterns| && Contains(Lower(p), CommonPasswordPatterns[k]);
      if k == 0 {} else if k == 1 {} else if k == 2 {} else if k == 3 {} else {}
    }
    assert CommonPasswordPatterns[0] == "password" && CommonPasswordPatterns[1] == "123456";
    assert CommonPasswordPatterns[2] == "qwerty" && CommonPasswordPatterns[3] == "abc123";
    assert CommonPasswordPatterns[4] == "admin";
  }

  /** What each check of `validate_password` demands. */
  lemma PasswordRulesHold(p: string)
    ensures (forall i :: 0 <= i < |PasswordRules| ==> PasswordRules[i].holds(p)) <==> StrongPassword(p)
    ensures PasswordRules[0].holds(p) == (|p| >= 8)
  {
    CommonPatternsListed(p);
    assert |PasswordRules| == 7;
    assert PasswordRules[0].holds(p) == (|p| >= 8);
    assert PasswordRules[1].holds(p) == (|p| <= 128);
    assert PasswordRules[2].holds(p) == Any(p, IsAsciiUpper);
    assert PasswordRules[3].holds(p) == Any(p, IsAsciiLower);
    assert PasswordRules[4].holds(p) == Any(p, IsAsciiDigit);
    assert PasswordRules[5].holds(p) == Any(p, IsPasswordSpecial);
    assert PasswordRules[6].holds(p) == !HasCommonPattern(p);
    if StrongPassword(p) {
      forall i | 0 <= i < |PasswordRules| ensures PasswordRules[i].holds(p) {
        if i == 0 {} else if i == 1 {} else if i == 2 {} else if i == 3 {} else if i == 4 {} else if i == 5 {} else {}
      }
    }
  }

  /**
   * `validate_password(password)`: None exactly for a strong password;
   * otherwise the message of the earliest failing check.
   */
  function ValidatePassword(password: string): (r: Option<string>)
    ensures r.None? <==> StrongPassword(password)
    ensures r.Some? ==> exists i :: FailsFirstAt(PasswordRules, password, i) && r.value == PasswordRules[i].message
  {
    PasswordRulesHold(password);
    FirstFailure(PasswordRules, password, 0)
  }

  /** A short password gets the length message whatever else is wrong with it. */
  lemma ShortPasswordMessage(password: string)
    requires |password| < 8
    ensures ValidatePassword(password) == Some("Password must be at least 8 characters long")
  {
    PasswordRulesHold(password);
    FirstFailureIs(PasswordRules, password, 0);
  }

  // ---------------------------------------------------------------------
  // validate_username
  // ---------------------------------------------------------------------

  /** The class `[a-zA-Z0-9_-]`. */
  predicate IsUsernameChar(c: char) {
    IsAsciiLetter(c) || IsAsciiDigit(c) || c == '_' || c == '-'
  }

  /** `re.match(r'^[a-zA-Z0-9_-]+$', u)`: `$` also matches before a final newline. */
  predicate UsernamePatternMatch(u: string) {
    || (u != [] && All(u, IsUsernameChar))
    || (|u| >= 2 && u[|u| - 1] == '\n' && All(u[..|u| - 1], IsUsernameChar))
  }

  predicate StartsOrEndsWithSpecial(u: string) {
    StartsWith(u, "-") || StartsWith(u, "_") || EndsWith(u, "-") || EndsWith(u, "_")
  }

  const ReservedUsernames: set<string> :=
    {"admin", "administrator", "root", "system", "moderator", "mod", "support", "help", "info", "service"}

  const ReservedMessage := "This username is reserved"

  /** The checks of `validate_username`, in source order, with the pattern test given. */
  function UsernameRules(pattern: string -> bool): seq<Rule<string>> {
    [
      Rule(u => u != [], "Username cannot be empty"),
      Rule(u => |u| >= 3, "Username must be at least 3 characters long"),
      Rule(u => |u| <= 20, "Username must be less than 20 characters"),
      Rule(pattern, "Username can only contain letters, numbers, underscores, and hyphens"),
      Rule(u => !StartsOrEndsWithSpecial(u), "Username cannot start or end with special characters"),
      Rule(u => Lower(u) !in ReservedUsernames, ReservedMessage)
    ]
  }

  /** What each check of `validate_username` demands. */
  lemma UsernameRulesHold(pattern: string -> bool, u: string)
    ensures var rules := UsernameRules(pattern);
      && |rules| == 6
      && rules[0].holds(u) == (u != []) && rules[1].holds(u) == (|u| >= 3) && rules[2].holds(u) == (|u| <= 20)
      && rules[3].holds(u) == pattern(u) && rules[4].holds(u) == !StartsOrEndsWithSpecial(u)
      && rules[5].holds(u) == (Lower(u) !in ReservedUsernames)
  {
  }

  /**
   * `validate_username(username)` as written: the first failing check's
   * message, or None. Twenty characters pass although the message speaks of
   * "less than 20", and the reserved words are compared case-insensitively.
   */
  function ValidateUsername(username: string): (r: Option<string>)
    ensures r.None? <==> 3 <= |username| <= 20 && UsernamePatternMatch(username)
                         && !StartsOrEndsWithSpecial(username) && Lower(username) !in ReservedUsernames
    ensures r.Some? ==> exists i :: FailsFirstAt(UsernameRules(UsernamePatternMatch), username, i)
                                    && r.value == UsernameRules(UsernamePatternMatch)[i].message
  {
    var rules := UsernameRules(UsernamePatternMatch);
    UsernameRulesHold(UsernamePatternMatch, username);
    FirstFailure(rules, username, 0)
  }

  /** The charset test with the whole string required to match (the `\Z` reading). */
  predicate UsernameFullMatch(u: string) {
    u != [] && All(u, IsUsernameChar)
  }

  /**
   * `validate_username` with the charset rule applied to the whole name: an
   * accepted name is 3 to 20 characters of `[A-Za-z0-9_-]`, neither starts
   * nor ends with `-` or `_`, and is no reserved word in any letter case.
   */
  function ValidateUsernameStrict(username: string): (r: Option<string>)
    ensures r.None? <==> 3 <= |username| <= 20 && All(username, IsUsernameChar)
                         && !StartsOrEndsWithSpecial(username) && Lower(username) !in ReservedUsernames
    ensures r.Some? ==> exists i :: FailsFirstAt(UsernameRules(UsernameFullMatch), username, i)
                                    && r.value == UsernameRules(UsernameFullMatch)[i].message
  {
    var rules := UsernameRules(UsernameFullMatch);
    UsernameRulesHold(UsernameFullMatch, username);
    FirstFailure(rules, username, 0)
  }

  /** Exactly 20 characters are accepted although the message says "less than 20". */
  lemma TwentyCharacterUsernameAccepted()
    ensures ValidateUsername("abcdefghijklmnopqrst") == None
  {
    var u := "abcdefghijklmnopqrst";
    assert UsernamePatternMatch(u) by {
      assert All(u, IsUsernameChar);
    }
    assert !StartsOrEndsWithSpecial(u) by {
      assert u[..1] == "a" && u[|u| - 1..] == "t";
    }
    assert Lower(u) !in ReservedUsernames by {
      assert |Lower(u)| == 20;
    }
  }

  /** Reserved words are rejected in any letter case. */
  lemma ReservedWordsAnyCase()
    ensures ValidateUsername("Admin") == Some(ReservedMessage)
  {
    var u := "Admin";
    assert Lower(u) == "admin";
    assert All(u, IsUsernameChar);
    assert u[..1] == "A" && u[|u| - 1..] == "n";
    UsernameRulesHold(UsernamePatternMatch, u);
    FirstFailureIs(UsernameRules(UsernamePatternMatch), u, 5);
  }

  /**
   * As written, a final newline slips through the charset check, and with it
   * a reserved word: "admin\n" is accepted.
   */
  lemma UsernameTrailingNewlineAccepted()
    ensures ValidateUsername("admin\n") == None
  {
    var u := "admin\n";
    assert u[..|u| - 1] == "admin";
    assert All("admin", IsUsernameChar);
    assert Lower(u) == u;
    assert u[..1] == "a" && u[|u| - 1..] == "\n";
    assert u !in ReservedUsernames by {
      assert |u| == 6 && u[0] == 'a';
    }
    UsernameRulesHold(UsernamePatternMatch, u);
  }

  /** With the whole name checked against the charset, "admin\n" is rejected by that check. */
  lemma UsernameTrailingNewlineStrict()
    ensures ValidateUsernameStrict("admin\n") == Some("Username can only contain letters, numbers, underscores, and hyphens")
  {
    var u := "admin\n";
    assert !IsUsernameChar(u[5]);
    UsernameRulesHold(UsernameFullMatch, u);
    FirstFailureIs(UsernameRules(UsernameFullMatch), u, 3);
  }

  // ---------------------------------------------------------------------
  // validate_api_response
  // ---------------------------------------------------------------------

  /** A response `validate_api_response` lets through. */
  predicate WellFormedApiResponse(response: Json) {
    && response.JObject?
    && HasKey(response.members, "status") && HasKey(response.members, "data")
    && var status := Get(response.members, "status").value;
       && (status == JString("success") || status == JString("error"))
       && (status == JString("error") ==> HasKey(response.members, "error"))
  }

  /** `TypeError: unhashable type` raised by `v in {...}` for a list or dict `v`. */
  function UnhashableError(v: Json): Exception {
    OtherError("TypeError", "unhashable type: '" + TypeName(v) + "'")
  }

  /**
   * `validate_api_response(response)`: returns True or raises, never False;
   * the checks run in source order and the first failing one decides the error.
   */
  function ValidateApiResponse(response: Json): (r: Result<bool, Exception>)
    ensures r.Ok? ==> r.value
    ensures r.Ok? <==> WellFormedApiResponse(response)
    ensures !response.JObject? ==> r == Err(Raise(ValidationError, "API response must be a dictionary"))
    ensures response.JObject? && !(HasKey(response.members, "status") && HasKey(response.members, "data"))
            ==> r == Err(Raise(ValidationError, "Invalid API response format: missing required fields"))
    ensures response.JObject? && HasKey(response.members, "status") && HasKey(response.members, "data")
            ==> var status := Get(response.members, "status").value;
                && (Unhashable(status) ==> r == Err(UnhashableError(status)))
                && (!Unhashable(status) && status != JString("success") && status != JString("error")
                    ==> r == Err(Raise(ValidationError, "Invalid status in API response")))
                && (status == JString("error") && !HasKey(response.members, "error")
                    ==> r == Err(Raise(ValidationError, "Error response must contain error details")))
    ensures r.Err? && !IsChatAppError(r.error) ==> r.error.typeName == "TypeError"
  {
    if !response.JObject? then Err(Raise(ValidationError, "API response must be a dictionary"))
    else if !(HasKey(response.members, "status") && HasKey(response.members, "data")) then
      Err(Raise(ValidationError, "Invalid API response format: missing required fields"))
    else
      var status := Get(response.members, "status").value;
      if Unhashable(status) then Err(UnhashableError(status))
      else if !(status == JString("success") || status == JString("error")) then
        Err(Raise(ValidationError, "Invalid status in API response"))
      else if status == JString("error") && !HasKey(response.members, "error") then
        Err(Raise(ValidationError, "Error response must contain error details"))
      else Ok(true)
  }

  // ---------------------------------------------------------------------
  // validate_chat_message
  // ---------------------------------------------------------------------

  /**
   * `validate_timestamp(t)`: `datetime.fromisoformat` decides, and a
   * non-string value is refused; the ISO parser is the parameter `isIsoTimestamp`.
   */
  predicate ValidTimestamp(t: Json, isIsoTimestamp: string -> bool) {
    t.JString? && isIsoTimestamp(t.s)
  }

  /** The message holds the three fields `validate_chat_message` requires. */
  predicate HasChatFields(message: seq<(string, Json)>) {
    HasKey(message, "content") && HasKey(message, "timestamp") && HasKey(message, "role")
  }

  /** A chat message `validate_chat_message` lets through. */
  predicate WellFormedChatMessage(message: seq<(string, Json)>, isIsoTimestamp: string -> bool, maxLength: int) {
    && HasChatFields(message)
    && Get(message, "content").value.JString?
    && ValidTimestamp(Get(message, "timestamp").value, isIsoTimestamp)
    && Get(message, "role").value in {JString("user"), JString("assistant")}
    && |Get(message, "content").value.s| <= maxLength
  }

  /**
   * `validate_chat_message(message)` with `maxLength` the `MAX_MESSAGE_LENGTH`
   * setting, None when the settings do not declare it (as the shipped
   * `Settings` class does not): True, or the error of the first failing
   * check. The setting is read only once every other check has passed.
   */
  function ValidateChatMessage(message: seq<(string, Json)>, isIsoTimestamp: string -> bool, maxLength: Option<int>): (r: Result<bool, Exception>)
    ensures r.Ok? ==> r.value
    ensures r.Ok? <==> maxLength.Some? && WellFormedChatMessage(message, isIsoTimestamp, maxLength.value)
    ensures !HasChatFields(message) ==> r == Err(Raise(ValidationError, "Invalid message format: missing required fields"))
    ensures HasChatFields(message) ==>
      var content := Get(message, "content").value;
      var timestampOk := ValidTimestamp(Get(message, "timestamp").value, isIsoTimestamp);
      var role := Get(message, "role").value;
      && (!content.JString? ==> r == Err(Raise(ValidationError, "Message content must be a string")))
      && (content.JString? && !timestampOk ==> r == Err(Raise(ValidationError, "Invalid timestamp format")))
      && (content.JString? && timestampOk && Unhashable(role) ==> r == Err(UnhashableError(role)))
      && (content.JString? && timestampOk && !Unhashable(role) && role !in {JString("user"), JString("assistant")}
          ==> r == Err(Raise(ValidationError, "Invalid message role")))
      && (content.JString? && timestampOk && role in {JString("user"), JString("assistant")} && maxLength.None?
          ==> r == Err(MissingSetting("MAX_MESSAGE_LENGTH")))
      && (content.JString? && timestampOk && role in {JString("user"), JString("assistant")} && maxLength.Some?
          && |content.s| > maxLength.value
          ==> r == Err(Raise(ValidationError, "Message exceeds maximum length of " + IntToString(maxLength.value) + " characters")))
  {
    if !HasChatFields(message) then
      Err(Raise(ValidationError, "Invalid message format: missing required fields"))
    else
      var content := Get(message, "content").value;
      var role := Get(message, "role").value;
      if !content.JString? then Err(Raise(ValidationError, "Message content must be a string"))
      else if !ValidTimestamp(Get(message, "timestamp").value, isIsoTimestamp) then
        Err(Raise(ValidationError, "Invalid timestamp format"))
      else if Unhashable(role) then Err(UnhashableError(role))
      else if role !in {JString("user"), JString("assistant")} then Err(Raise(ValidationError, "Invalid message role"))
      else if maxLength.None? then Err(MissingSetting("MAX_MESSAGE_LENGTH"))
      else if |content.s| > maxLength.value then
        Err(Raise(ValidationError, "Message exceeds maximum length of " + IntToString(maxLength.value) + " characters"))
      else Ok(true)
  }

  // ---------------------------------------------------------------------
  // validate_file_upload
  // ---------------------------------------------------------------------

  /** The text from the last `.` of `p`, which lies after its last `/`, is a dot with no dot or `/` after it. */
  lemma SuffixFromLastDot(p: string, sep: int, dot: int)
    requires -1 <= sep < dot < |p| && p[dot] == '.'
    requires forall i :: dot < i < |p| ==> p[i] != '.'
    requires forall i :: sep < i < |p| ==> p[i] != '/'
    ensures var ext := p[dot..]; ext[0] == '.' && '.' !in ext[1..] && '/' !in ext && EndsWith(p, ext)
  {
    var ext := p[dot..];
    assert forall k :: 0 <= k < |ext| ==> ext[k] == p[dot + k];
    assert p[|p| - |ext|..] == ext;
  }

  /**
   * `os.path.splitext(p)[1]` on a POSIX path: from the last `.` of the last
   * path component, unless that component is nothing but leading dots before it.
   */
  function SplitExt(p: string): (ext: string)
    ensures EndsWith(p, ext)
    ensures ext != [] ==> ext[0] == '.' && '.' !in ext[1..] && '/' !in ext
    ensures ext != [] <==> RFind(p, '.') > RFind(p, '/')
                           && exists i :: RFind(p, '/') + 1 <= i < RFind(p, '.') && p[i] != '.'
    ensures ext != [] ==> ext == p[RFind(p, '.')..]
  {
    var sep := RFind(p, '/');
    var dot := RFind(p, '.');
    if dot > sep && exists i :: sep + 1 <= i < dot && p[i] != '.' then
      SuffixFromLastDot(p, sep, dot);
      p[dot..]
    else ""
  }

  const AllowedExtensions: set<string> := {".txt", ".pdf", ".doc", ".docx", ".md"}

  const AllowedMimeTypes: set<string> := {
    "text/plain",
    "application/pdf",
    "application/msword",
    "application/vnd.openxmlformats-officedocument.wordprocessingml.document",
    "text/markdown"
  }

  /**
   * `validate_file_upload(filename, content_type, size)` with the configured
   * limit `maxUploadMb`: None exactly when the size is within the limit, the
   * lower-cased extension is allowed and the MIME type (compared as given)
   * is allowed; otherwise the message of the first of those that fails.
   */
  function ValidateFileUpload(filename: string, contentType: string, size: int, maxUploadMb: int): (r: Option<string>)
    ensures r.None? <==> size <= maxUploadMb * 1024 * 1024 && SplitExt(Lower(filename)) in AllowedExtensions
                         && contentType in AllowedMimeTypes
    ensures size > maxUploadMb * 1024 * 1024
            ==> r == Some("File size exceeds maximum limit of " + IntToString(maxUploadMb) + "MB")
    ensures size <= maxUploadMb * 1024 * 1024 && SplitExt(Lower(filename)) !in AllowedExtensions
            ==> r == Some("File type not allowed")
    ensures size <= maxUploadMb * 1024 * 1024 && SplitExt(Lower(filename)) in AllowedExtensions && contentType !in AllowedMimeTypes
            ==> r == Some("Invalid file type")
  {
    if size > maxUploadMb * 1024 * 1024 then
      Some("File size exceeds maximum limit of " + IntToString(maxUploadMb) + "MB")
    else if SplitExt(Lower(filename)) !in AllowedExtensions then Some("File type not allowed")
    else if contentType !in AllowedMimeTypes then Some("Invalid file type")
    else None
  }

  const OsNotDefined: Exception := OtherError("NameError", "name 'os' is not defined")

  /**
   * `validate_file_upload` as written, with `maxUploadMb` the
   * `MAX_UPLOAD_SIZE_MB` setting, None when the settings do not declare it.
   * The shipped `Settings` class does not, so reading it raises
   * `AttributeError` on every call. Once the setting exists, only the size
   * check can answer: the module never imports `os`, so every file within
   * the limit reaches `os.path.splitext` and raises `NameError`.
   */
  function ValidateFileUploadAsWritten(filename: string, contentType: string, size: int, maxUploadMb: Option<int>): (r: Result<Option<string>, Exception>)
    ensures maxUploadMb.None? ==> r == Err(MissingSetting("MAX_UPLOAD_SIZE_MB"))
    ensures r.Ok? <==> maxUploadMb.Some? && size > maxUploadMb.value * 1024 * 1024
    ensures r.Ok? ==> r.value == ValidateFileUpload(filename, contentType, size, maxUploadMb.value)
    ensures maxUploadMb.Some? && r.Err? ==> r.error == OsNotDefined
  {
    match maxUploadMb
    case None => Err(MissingSetting("MAX_UPLOAD_SIZE_MB"))
    case Some(mb) =>
      if size > mb * 1024 * 1024 then Ok(Some("File size exceeds maximum limit of " + IntToString(mb) + "MB"))
      else Err(OsNotDefined)
  }

  /** A small Markdown file that the intended check accepts makes the code as written raise. */
  lemma FileUploadNameError()
    ensures ValidateFileUploadAsWritten("NOTES.MD", "text/markdown", 10, Some(1)) == Err(OsNotDefined)
    ensures ValidateFileUpload("NOTES.MD", "text/markdown", 10, 1) == None
  {
    UpperCaseExtensionAccepted();
  }

  /** The extension is compared after lower-casing: an upper-case extension is accepted. */
  lemma UpperCaseExtensionAccepted()
    ensures ValidateFileUpload("NOTES.MD", "text/markdown", 10, 1) == None
  {
    var name := Lower("NOTES.MD");
    assert name == "notes.md";
    assert SplitExt(name) == ".md" by {
      assert RFind(name, '/') == -1;
      assert RFind(name, '.') == 5;
      assert name[0] != '.';
      assert name[5..] == ".md";
    }
  }

  /** The MIME type is compared as given: an upper-case type is refused. */
  lemma UpperCaseMimeTypeRefused()
    ensures ValidateFileUpload("notes.md", "Text/Markdown", 10, 1) == Some("Invalid file type")
  {
    var name := Lower("notes.md");
    assert name == "notes.md";
    assert SplitExt(name) == ".md" by {
      assert RFind(name, '/') == -1;
      assert RFind(name, '.') == 5;
      assert name[0] != '.';
      assert name[5..] == ".md";
    }
    var m := "Text/Markdown";
    assert m !in AllowedMimeTypes by {
      assert m[0] == 'T';
    }
  }
}
