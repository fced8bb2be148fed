/**
 * The few pieces of Python's `str` behaviour the core relies on:
 * `strip()`, ASCII lower-casing, substring search, prefixes and suffixes,
 * and `str(int)` for the numbers that appear in messages.
 */
module Text {

  /** The characters for which Python's `str.isspace()` holds: exactly the ones `strip()` removes. */
  predicate IsSpace(c: char) {
    || c == ' '
    || ('\t' <= c <= '\r')              // \t \n \x0b \x0c \r
    || ('\U{1c}' <= c <= '\U{1f}')      // file, group, record and unit separators
    || c == '\U{85}' || c == '\U{a0}' || c == '\U{1680}'
    || ('\U{2000}' <= c <= '\U{200a}')
    || c == '\U{2028}' || c == '\U{2029}' || c == '\U{202f}' || c == '\U{205f}' || c == '\U{3000}'
  }

  /** `s.lstrip()`: what is cut is whitespace, and what is left does not start with whitespace. */
  function StripStart(s: string): (r: string)
    ensures |r| <= |s| && r == s[|s| - |r|..]
    ensures forall i :: 0 <= i < |s| - |r| ==> IsSpace(s[i])
    ensures r != [] ==> !IsSpace(r[0])
    decreases |s|
  {
    if s != [] && IsSpace(s[0]) then StripStart(s[1..]) else s
  }

  /** `s.rstrip()`: what is cut is whitespace, and what is left does not end with whitespace. */
  function StripEnd(s: string): (r: string)
    ensures |r| <= |s| && r == s[..|r|]
    ensures forall i :: |r| <= i < |s| ==> IsSpace(s[i])
    ensures r != [] ==> !IsSpace(r[|r| - 1])
    decreases |s|
  {
    if s != [] && IsSpace(s[|s| - 1]) then StripEnd(s[..|s| - 1]) else s
  }

  /** `r` is the slice of `s` at `i` and everything of `s` around it is whitespace. */
  ghost predicate TrimmedAt(s: string, r: string, i: int) {
    && 0 <= i <= |s| - |r| && r == s[i..i + |r|]
    && (forall k :: 0 <= k < i ==> IsSpace(s[k]))
    && (forall k :: i + |r| <= k < |s| ==> IsSpace(s[k]))
  }

  /** Whitespace cut from the start of `s` and then from the end of the rest leaves a slice with only whitespace around it. */
  lemma CutBothEnds(s: string, t: string, r: string)
    requires |t| <= |s| && t == s[|s| - |t|..]
    requires forall k :: 0 <= k < |s| - |t| ==> IsSpace(s[k])
    requires |r| <= |t| && r == t[..|r|]
    requires forall k :: |r| <= k < |t| ==> IsSpace(t[k])
    ensures TrimmedAt(s, r, |s| - |t|)
  {
    var i := |s| - |t|;
    assert r == s[i..i + |r|];
    forall k | i + |r| <= k < |s| ensures IsSpace(s[k]) {
      assert t[k - i] == s[k];
    }
  }

  /** `s.strip()`: the longest slice of `s` that neither starts nor ends with whitespace. */
  function Strip(s: string): (r: string)
    ensures exists i :: TrimmedAt(s, r, i)
    ensures r != [] ==> !IsSpace(r[0]) && !IsSpace(r[|r| - 1])
  {
    var t := StripStart(s);
    var r := StripEnd(t);
    CutBothEnds(s, t, r);
    r
  }

  /** Stripping twice is stripping once. */
  lemma StripIdempotent(s: string)
    ensures Strip(Strip(s)) == Strip(s)
  {
    var r := Strip(s);
    if r != [] {
      assert !IsSpace(r[0]);
      assert StripStart(r) == r;
      assert !IsSpace(r[|r| - 1]);
      assert StripEnd(r) == r;
    }
  }

  /** ASCII lower-casing of one character, as `str.lower()` does for A-Z. */
  function LowerChar(c: char): (r: char)
    ensures 'A' <= c <= 'Z' ==> 'a' <= r <= 'z' && r as int - c as int == 32
    ensures !('A' <= c <= 'Z') ==> r == c
  {
    if 'A' <= c <= 'Z' then (c as int + 32) as char else c
  }

  function Lower(s: string): (r: string)
    ensures |r| == |s| && forall i :: 0 <= i < |s| ==> r[i] == LowerChar(s[i])
  {
    seq(|s|, i requires 0 <= i < |s| => LowerChar(s[i]))
  }

  predicate IsAsciiUpper(c: char) { 'A' <= c <= 'Z' }
  predicate IsAsciiLower(c: char) { 'a' <= c <= 'z' }
  predicate IsAsciiLetter(c: char) { IsAsciiUpper(c) || IsAsciiLower(c) }
  predicate IsAsciiDigit(c: char) { '0' <= c <= '9' }

  /** `p` occurs in `s` starting at index `i`. */
  ghost predicate OccursAt(s: string, p: string, i: int) {
    0 <= i && i + |p| <= |s| && s[i..i + |p|] == p
  }

  predicate StartsWith(s: string, p: string) {
    |p| <= |s| && s[..|p|] == p
  }

  predicate EndsWith(s: string, p: string) {
    |p| <= |s| && s[|s| - |p|..] == p
  }

  /** `p in s` for strings: a left-to-right search for an occurrence. */
  function Contains(s: string, p: string): (r: bool)
    ensures r <==> exists i :: OccursAt(s, p, i)
    decreases |s|
  {
    if StartsWith(s, p) then
      assert OccursAt(s, p, 0);
      true
    else if s == [] then
      assert forall i :: !OccursAt(s, p, i);
      false
    else
      OccursShift(s, p);
      Contains(s[1..], p)
  }

  /** Away from index 0, the occurrences in `s` are those in `s[1..]`, shifted by one. */
  lemma OccursShift(s: string, p: string)
    requires s != [] && !StartsWith(s, p)
    ensures (exists i :: OccursAt(s, p, i)) <==> (exists i :: OccursAt(s[1..], p, i))
  {
    if i :| OccursAt(s, p, i) {
      assert i != 0;
      assert s[1..][i - 1..i - 1 + |p|] == s[i..i + |p|];
      assert OccursAt(s[1..], p, i - 1);
    }
    if i :| OccursAt(s[1..], p, i) {
      assert s[1..][i..i + |p|] == s[i + 1..i + 1 + |p|];
      assert OccursAt(s, p, i + 1);
    }
  }

  /** An index holding `c` with no `c` before it is what `Find` gives. */
  lemma FindAt(s: string, c: char, k: int)
    requires 0 <= k < |s| && s[k] == c
    requires forall i :: 0 <= i < k ==> s[i] != c
    ensures Find(s, c) == k
  {
  }

  /** An index holding `c` with no `c` after it is what `RFind` gives. */
  lemma RFindAt(s: string, c: char, k: int)
    requires 0 <= k < |s| && s[k] == c
    requires forall i :: k < i < |s| ==> s[i] != c
    ensures RFind(s, c) == k
  {
  }

  /** `s.find(c)`: the first index of `c`, or -1. */
  function Find(s: string, c: char): (r: int)
    ensures -1 <= r < |s|
    ensures r >= 0 ==> s[r] == c
    ensures forall i :: 0 <= i < |s| && (r < 0 || i < r) ==> s[i] != c
    decreases |s|
  {
    if s == [] then -1
    else if s[0] == c then 0
    else
      var r := Find(s[1..], c);
      if r < 0 then -1 else r + 1
  }

  /** `s.rfind(c)`: the last index of `c`, or -1. */
  function RFind(s: string, c: char): (r: int)
    ensures -1 <= r < |s|
    ensures r >= 0 ==> s[r] == c
    ensures forall i :: r < i < |s| ==> s[i] != c
    decreases |s|
  {
    if s == [] then -1
    else if s[|s| - 1] == c then |s| - 1
    else RFind(s[..|s| - 1], c)
  }

  /** Some character of `s` satisfies `f`: `re.search` with a one-character class. */
  predicate Any(s: string, f: char -> bool) {
    exists i :: 0 <= i < |s| && f(s[i])
  }

  /** Every character of `s` satisfies `f`. */
  predicate All(s: string, f: char -> bool) {
    forall i :: 0 <= i < |s| ==> f(s[i])
  }

  /** The digit character for `d`. */
  function DigitChar(d: nat): (c: char)
    requires d < 10
    ensures IsAsciiDigit(c) && c as int - '0' as int == d
  {
    ('0' as int + d) as char
  }

  /** `str(n)` for a natural number: decimal, no leading zero. */
  function NatToString(n: nat): (r: string)
    ensures |r| >= 1 && All(r, IsAsciiDigit)
    ensures r[0] == '0' ==> n == 0
    decreases n
  {
    if n < 10 then [DigitChar(n)] else NatToString(n / 10) + [DigitChar(n % 10)]
  }

  /** `str(i)` for any integer, with a leading '-' for a negative one. */
  function IntToString(i: int): (r: string)
    ensures |r| >= 1
    ensures (r[0] == '-') <==> i < 0
  {
    if i < 0 then "-" + NatToString(-i) else NatToString(i)
  }

  /** The value of a string of decimal digits (what `int(s)` gives for such a string). */
  function ParseNat(s: string): nat
    requires All(s, IsAsciiDigit)
    decreases |s|
  {
    if s == [] then 0
    else ParseNat(s[..|s| - 1]) * 10 + (s[|s| - 1] as int - '0' as int)
  }

  /** `int(s)` for what `IntToString` produces. */
  function ParseInt(s: string): int
    requires s != [] && (s[0] == '-' ==> All(s[1..], IsAsciiDigit))
    requires s[0] != '-' ==> All(s, IsAsciiDigit)
  {
    if s[0] == '-' then 0 - ParseNat(s[1..]) else ParseNat(s)
  }

  /** Reading a number back from its decimal text gives the number. */
  lemma {:induction false} NatToStringRoundTrip(n: nat)
    ensures ParseNat(NatToString(n)) == n
    decreases n
  {
    if n >= 10 {
      var prefix := NatToString(n / 10);
      var s := prefix + [DigitChar(n % 10)];
      assert s[..|s| - 1] == prefix;
      NatToStringRoundTrip(n / 10);
    }
  }

  lemma IntToStringRoundTrip(i: int)
    ensures ParseInt(IntToString(i)) == i
  {
    if i < 0 {
      assert IntToString(i)[1..] == NatToString(-i);
      NatToStringRoundTrip(-i);
    } else {
      NatToStringRoundTrip(i);
    }
  }

  /** Distinct numbers print differently. */
  lemma IntToStringInjective(i: int, j: int)
    requires IntToString(i) == IntToString(j)
    ensures i == j
  {
    IntToStringRoundTrip(i);
    IntToStringRoundTrip(j);
  }
}
