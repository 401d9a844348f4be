/**
 * The applicant e-mail check of the candidate endpoint. The endpoint tests the
 * anchored pattern `^[^\s@]+@[^\s@]+\.[^\s@]+$`. `MatchesEmailPattern` spells
 * that pattern out piece by piece; `IsValidEmail` is the plain, executable
 * reading of it (no whitespace, exactly one `@`, a non-empty local part, a
 * domain with an inner `.`), and `ValidEmailIffPattern` proves the two agree.
 */
module EmailFormat {
  import opened JsText

  /** A character the class `[^\s@]` accepts. */
  predicate PlainChar(c: char) {
    !IsWhitespace(c) && c != '@'
  }

  /** A run the pattern `[^\s@]*` accepts. */
  ghost predicate PlainRun(t: string) {
    forall i :: 0 <= i < |t| ==> PlainChar(t[i])
  }

  /**
   * `s` is `L @ D1 . D2` with `L`, `D1`, `D2` non-empty runs of `[^\s@]`:
   * the regular expression, with `at` and `dot` the positions of the two literals.
   */
  ghost predicate MatchesEmailPattern(s: string) {
    exists at, dot ::
      && 0 < at && at + 1 < dot && dot + 1 < |s|
      && s[at] == '@' && s[dot] == '.'
      && PlainRun(s[..at]) && PlainRun(s[at + 1..dot]) && PlainRun(s[dot + 1..])
  }

  predicate NoWhitespace(s: string) {
    forall i :: 0 <= i < |s| ==> !IsWhitespace(s[i])
  }

  /** Number of occurrences of `c` in `s`. */
  function Count(s: string, c: char): (n: nat)
    ensures n <= |s|
    ensures n == 0 <==> forall i :: 0 <= i < |s| ==> s[i] != c
  {
    if s == "" then 0
    else
      var rest := Count(s[1..], c);
      assert forall i :: 1 <= i < |s| ==> s[i] == s[1..][i - 1];
      (if s[0] == c then 1 else 0) + rest
  }

  /** Position of the first `c` in `s`, or `|s|` when there is none. */
  function IndexOf(s: string, c: char): (k: nat)
    ensures k <= |s|
    ensures k < |s| ==> s[k] == c
    ensures forall i :: 0 <= i < k ==> s[i] != c
  {
    if s == "" then 0
    else if s[0] == c then 0
    else
      var k := IndexOf(s[1..], c);
      assert forall i :: 1 <= i <= k ==> s[i] == s[1..][i - 1];
      1 + k
  }

  /** The domain has a `.` with at least one character on each side. */
  predicate HasInnerDot(domain: string) {
    exists k :: 0 < k < |domain| - 1 && domain[k] == '.'
  }

  /** The e-mail shape the candidate endpoint accepts. */
  predicate IsValidEmail(s: string) {
    && NoWhitespace(s)
    && Count(s, '@') == 1
    && var at := IndexOf(s, '@');
    && at > 0
    && HasInnerDot(s[at + 1..])
  }

  lemma {:induction false} CountAppend(a: string, b: string, c: char)
    ensures Count(a + b, c) == Count(a, c) + Count(b, c)
  {
    if a == "" {
      assert a + b == b;
    } else {
      assert (a + b)[1..] == a[1..] + b;
      CountAppend(a[1..], b, c);
    }
  }

  /** When `c` occurs once and first at `k`, no other position holds `c`. */
  lemma OnlyOccurrence(s: string, c: char, k: nat)
    requires Count(s, c) == 1 && k == IndexOf(s, c)
    ensures k < |s| && s[k] == c
    ensures forall i :: 0 <= i < |s| && i != k ==> s[i] != c
  {
    assert k < |s|;
    assert s == s[..k] + [s[k]] + s[k + 1..];
    CountAppend(s[..k] + [s[k]], s[k + 1..], c);
    CountAppend(s[..k], [s[k]], c);
    assert Count(s[k + 1..], c) == 0;
    forall i | k < i < |s| ensures s[i] != c {
      assert s[i] == s[k + 1..][i - k - 1];
    }
  }

  /** A run is plain when each of its characters is plain in the enclosing string. */
  lemma PlainSlice(s: string, lo: nat, hi: nat)
    requires lo <= hi <= |s|
    requires forall i :: lo <= i < hi ==> PlainChar(s[i])
    ensures PlainRun(s[lo..hi])
  {
    var t := s[lo..hi];
    forall i | 0 <= i < |t| ensures PlainChar(t[i]) { assert t[i] == s[lo + i]; }
  }

  /** Every character of a plain run is plain in the enclosing string. */
  lemma PlainChars(s: string, lo: nat, hi: nat)
    requires lo <= hi <= |s|
    requires PlainRun(s[lo..hi])
    ensures forall i :: lo <= i < hi ==> PlainChar(s[i])
  {
    var t := s[lo..hi];
    forall i | lo <= i < hi ensures PlainChar(s[i]) { assert s[i] == t[i - lo]; }
  }

  lemma ValidEmailMatchesPattern(s: string)
    requires IsValidEmail(s)
    ensures MatchesEmailPattern(s)
  {
    var at := IndexOf(s, '@');
    OnlyOccurrence(s, '@', at);
    var domain := s[at + 1..];
    var k :| 0 < k < |domain| - 1 && domain[k] == '.';
    var dot := at + 1 + k;
    assert s[dot] == '.';
    PlainSlice(s, 0, at);
    PlainSlice(s, at + 1, dot);
    PlainSlice(s, dot + 1, |s|);
    assert s[..at] == s[0..at];
    assert s[dot + 1..] == s[dot + 1..|s|];
  }

  /** The `@` that the pattern places at `at` is the only one. */
  lemma SingleAt(s: string, at: nat)
    requires at < |s| && s[at] == '@'
    requires forall i :: 0 <= i < |s| && i != at ==> s[i] != '@'
    ensures Count(s, '@') == 1 && IndexOf(s, '@') == at
  {
    var rest := s[at + 1..];
    assert Count(s[..at], '@') == 0;
    assert Count(rest, '@') == 0 by {
      forall i | 0 <= i < |rest| ensures rest[i] != '@' {
        assert rest[i] == s[at + 1 + i];
      }
    }
    assert s == s[..at] + [s[at]] + rest;
    CountAppend(s[..at] + [s[at]], rest, '@');
    CountAppend(s[..at], [s[at]], '@');
  }

  /** The three plain runs of a match leave only the two literals to check. */
  lemma MatchPieces(s: string, at: nat, dot: nat)
    requires 0 < at && at + 1 < dot && dot + 1 < |s|
    requires s[at] == '@' && s[dot] == '.'
    requires PlainRun(s[..at]) && PlainRun(s[at + 1..dot]) && PlainRun(s[dot + 1..])
    ensures NoWhitespace(s)
    ensures forall i :: 0 <= i < |s| && i != at ==> s[i] != '@'
  {
    assert s[..at] == s[0..at];
    assert s[dot + 1..] == s[dot + 1..|s|];
    PlainChars(s, 0, at);
    PlainChars(s, at + 1, dot);
    PlainChars(s, dot + 1, |s|);
  }

  lemma PatternIsValidEmail(s: string)
    requires MatchesEmailPattern(s)
    ensures IsValidEmail(s)
  {
    var at, dot :|
      && 0 < at && at + 1 < dot && dot + 1 < |s|
      && s[at] == '@' && s[dot] == '.'
      && PlainRun(s[..at]) && PlainRun(s[at + 1..dot]) && PlainRun(s[dot + 1..]);
    MatchPieces(s, at, dot);
    SingleAt(s, at);
    var rest := s[at + 1..];
    assert rest[dot - at - 1] == '.';
  }

  /** The plain predicate and the regular expression accept the same strings. */
  lemma ValidEmailIffPattern(s: string)
    ensures IsValidEmail(s) <==> MatchesEmailPattern(s)
  {
    if IsValidEmail(s) { ValidEmailMatchesPattern(s); }
    if MatchesEmailPattern(s) { PatternIsValidEmail(s); }
  }
}
