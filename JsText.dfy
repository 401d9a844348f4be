/**
 * The few pieces of JavaScript string semantics the handlers rely on:
 * truthiness of an optional field, `||` on fields, the whitespace class
 * shared by `\s` and `String.prototype.trim`, `trim` itself, and the
 * case-insensitive substring test used by the job lookup.
 */
module JsText {
  import opened Wrappers

  /** A request field as it arrives in a JSON body: absent, or a string. */
  type Field = Option<string>

  /** JavaScript truthiness of a string-valued field: present and non-empty. */
  predicate Truthy(f: Field) {
    f.Some? && f.value != ""
  }

  /** `a || b` on two fields: `a` when truthy, otherwise `b` as it is. */
  function Or(a: Field, b: Field): Field {
    if Truthy(a) then a else b
  }

  /** The characters `\s` matches and `trim` removes (WhiteSpace and LineTerminator). */
  predicate IsWhitespace(c: char) {
    var n := c as int;
    || (0x09 <= n <= 0x0D)      // tab, line feed, vertical tab, form feed, carriage return
    || n == 0x20 || n == 0xA0 || n == 0x1680
    || (0x2000 <= n <= 0x200A)
    || n == 0x2028 || n == 0x2029 || n == 0x202F || n == 0x205F
    || n == 0x3000 || n == 0xFEFF
  }

  /** Every character of `s` is whitespace (the empty string included). */
  ghost predicate Blank(s: string) {
    forall i :: 0 <= i < |s| ==> IsWhitespace(s[i])
  }

  /** `s` without its leading whitespace. */
  function TrimStart(s: string): (r: string)
    ensures |r| <= |s| && r == s[|s| - |r|..]
    ensures Blank(s[..|s| - |r|])
    ensures r == "" <==> Blank(s)
    ensures r != "" ==> !IsWhitespace(r[0])
  {
    if s == "" then ""
    else if IsWhitespace(s[0]) then
      var r := TrimStart(s[1..]);
      assert Blank(s[1..]) ==> Blank(s) by {
        if Blank(s[1..]) {
          forall i | 0 <= i < |s| ensures IsWhitespace(s[i]) {
            if i > 0 { assert s[i] == s[1..][i - 1]; }
          }
        }
      }
      r
    else s
  }

  /** `s` without its trailing whitespace. */
  function TrimEnd(s: string): (r: string)
    ensures |r| <= |s| && r == s[..|r|]
    ensures Blank(s[|r|..])
    ensures r == "" <==> Blank(s)
    ensures r != "" ==> !IsWhitespace(r[|r| - 1])
  {
    if s == "" then ""
    else if IsWhitespace(s[|s| - 1]) then
      var r := TrimEnd(s[..|s| - 1]);
      assert Blank(s[..|s| - 1]) ==> Blank(s) by {
        if Blank(s[..|s| - 1]) {
          forall i | 0 <= i < |s| ensures IsWhitespace(s[i]) {
            if i < |s| - 1 { assert s[i] == s[..|s| - 1][i]; }
          }
        }
      }
      r
    else s
  }

  /**
   * `String.prototype.trim`: whitespace removed at both ends, so the result
   * is falsy exactly when `s` consists of whitespace only.
   */
  function Trim(s: string): (r: string)
    ensures r == "" <==> Blank(s)
  {
    TrimEnd(TrimStart(s))
  }

  /** ASCII upper case mapped to lower case; every other character kept. */
  function LowerChar(c: char): char {
    if 'A' <= c <= 'Z' then (c as int + 32) as char else c
  }

  function ToLower(s: string): (r: string)
    ensures |r| == |s|
    ensures forall i :: 0 <= i < |s| ==> r[i] == LowerChar(s[i])
  {
    seq(|s|, i requires 0 <= i < |s| => LowerChar(s[i]))
  }

  /** `needle` occurs as a contiguous part of `hay`. */
  predicate IsInfix(needle: string, hay: string) {
    exists i :: 0 <= i <= |hay| - |needle| && OccursAt(needle, hay, i)
  }

  /** `needle` sits in `hay` starting at position `i`. */
  predicate OccursAt(needle: string, hay: string, i: int) {
    0 <= i && i + |needle| <= |hay| && hay[i..i + |needle|] == needle
  }

  /** A title filter of the form "contains `needle`, case-insensitively". */
  predicate ContainsIgnoringCase(hay: string, needle: string) {
    IsInfix(ToLower(needle), ToLower(hay))
  }

  /** `a` and `b` differ at most in the case of ASCII letters. */
  ghost predicate SameIgnoringCase(a: string, b: string) {
    |a| == |b| && forall i :: 0 <= i < |a| ==> LowerChar(a[i]) == LowerChar(b[i])
  }

  /** Changing the case of letters in the title or in the position does not change the match. */
  lemma ContainsIgnoringCaseInsensitive(hay1: string, hay2: string, needle1: string, needle2: string)
    requires SameIgnoringCase(hay1, hay2) && SameIgnoringCase(needle1, needle2)
    ensures ContainsIgnoringCase(hay1, needle1) <==> ContainsIgnoringCase(hay2, needle2)
  {
    assert ToLower(hay1) == ToLower(hay2);
    assert ToLower(needle1) == ToLower(needle2);
  }

  /** A title containing the position verbatim matches it. */
  lemma InfixContainsIgnoringCase(needle: string, hay: string)
    requires IsInfix(needle, hay)
    ensures ContainsIgnoringCase(hay, needle)
  {
    var i :| 0 <= i <= |hay| - |needle| && OccursAt(needle, hay, i);
    var lh, ln := ToLower(hay), ToLower(needle);
    assert lh[i..i + |ln|] == ln by {
      forall k | 0 <= k < |ln| ensures lh[i..i + |ln|][k] == ln[k] {
        assert hay[i + k] == hay[i..i + |needle|][k];
      }
    }
    assert OccursAt(ln, lh, i);
  }
}
