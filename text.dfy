/**
  String helpers shared by the quiz and the portal: the parts of JavaScript's
  string semantics that the modelled code relies on (`trim()` emptiness,
  `startsWith`, `includes`, and case mapping restricted to ASCII).
 */
module Text {

  /** The characters ECMAScript's `trim()` strips: WhiteSpace and LineTerminator. */
  predicate IsJsWhitespace(c: char)
  {
    || c == '\U{0009}' || c == '\U{000A}' || c == '\U{000B}' || c == '\U{000C}' || c == '\U{000D}'
    || c == '\U{0020}' || c == '\U{00A0}' || c == '\U{1680}'
    || ('\U{2000}' <= c <= '\U{200A}')
    || c == '\U{2028}' || c == '\U{2029}' || c == '\U{202F}' || c == '\U{205F}'
    || c == '\U{3000}' || c == '\U{FEFF}'
  }

  /** Number of leading white-space characters of `s`, the ones `trimStart()` removes. */
  function LeadingWhitespace(s: string): (n: nat)
    ensures n <= |s|
    ensures forall i :: 0 <= i < n ==> IsJsWhitespace(s[i])
    ensures n == |s| || !IsJsWhitespace(s[n])
  {
    if s != [] && IsJsWhitespace(s[0]) then 1 + LeadingWhitespace(s[1..]) else 0
  }

  /** Number of trailing white-space characters of `s`, the ones `trimEnd()` removes. */
  function TrailingWhitespace(s: string): (n: nat)
    ensures n <= |s|
    ensures forall i :: |s| - n <= i < |s| ==> IsJsWhitespace(s[i])
    ensures n == |s| || !IsJsWhitespace(s[|s| - n - 1])
  {
    if s != [] && IsJsWhitespace(s[|s| - 1]) then 1 + TrailingWhitespace(s[..|s| - 1]) else 0
  }

  /** `s.trim()`: the part of `s` left once its leading and trailing white
      space is removed; it neither starts nor ends with white space. */
  function Trim(s: string): (t: string)
    ensures t == [] || (!IsJsWhitespace(t[0]) && !IsJsWhitespace(t[|t| - 1]))
    ensures exists k :: OccursAt(s, t, k) && WhitespaceOutside(s, k, k + |t|)
  {
    var a := LeadingWhitespace(s);
    if a == |s| then
      assert OccursAt(s, [], 0) && WhitespaceOutside(s, 0, 0);
      []
    else
      var b := |s| - TrailingWhitespace(s);
      assert a < b;
      assert OccursAt(s, s[a..b], a) && WhitespaceOutside(s, a, b);
      s[a..b]
  }

  /** Every character of `s` before `k` or from `m` on is white space. */
  predicate WhitespaceOutside(s: string, k: int, m: int)
  {
    forall i :: 0 <= i < |s| && (i < k || m <= i) ==> IsJsWhitespace(s[i])
  }

  /** `!s.trim()` holds in JavaScript: every character of `s` is white space. */
  predicate Blank(s: string)
  {
    forall i :: 0 <= i < |s| ==> IsJsWhitespace(s[i])
  }

  /** `Blank` is the guard `!s.trim()`: it holds exactly when trimming leaves nothing. */
  lemma BlankIsEmptyTrim(s: string)
    ensures Blank(s) <==> Trim(s) == ""
  {
  }

  /** `s.startsWith(prefix)`. */
  predicate StartsWith(s: string, prefix: string)
  {
    prefix <= s
  }

  /** `hay.includes(needle)`: `needle` occurs in `hay` at some offset. */
  predicate Includes(hay: string, needle: string)
    decreases |hay|
  {
    needle <= hay || (hay != [] && Includes(hay[1..], needle))
  }

  /** `needle` occurs in `hay` starting at offset `k`. */
  predicate OccursAt(hay: string, needle: string, k: int)
  {
    0 <= k && k + |needle| <= |hay| && hay[k..k + |needle|] == needle
  }

  /** The recursive `Includes` agrees with the offset-based reading of `includes`. */
  lemma {:induction false} IncludesAt(hay: string, needle: string)
    ensures Includes(hay, needle) <==> exists k :: OccursAt(hay, needle, k)
    decreases |hay|
  {
    if needle <= hay {
      assert OccursAt(hay, needle, 0);
    } else if hay == [] {
    } else {
      IncludesAt(hay[1..], needle);
      if exists k :: OccursAt(hay, needle, k) {
        var k :| OccursAt(hay, needle, k);
        assert k != 0;
        OccursAtShift(hay, needle, k);
      }
      if Includes(hay[1..], needle) {
        var k :| OccursAt(hay[1..], needle, k);
        OccursAtShift(hay, needle, k + 1);
      }
    }
  }

  /** An occurrence at `k >= 1` is an occurrence at `k - 1` in the tail. */
  lemma OccursAtShift(hay: string, needle: string, k: int)
    requires hay != [] && k >= 1
    ensures OccursAt(hay, needle, k) <==> OccursAt(hay[1..], needle, k - 1)
  {
    if k + |needle| <= |hay| {
      assert hay[1..][k - 1..k - 1 + |needle|] == hay[k..k + |needle|];
    }
  }

  /** The empty string is included in every string, as in JavaScript. */
  lemma IncludesEmpty(hay: string)
    ensures Includes(hay, "")
  {
  }

  predicate IsAsciiLowerLetter(c: char)
  {
    'a' <= c <= 'z'
  }

  predicate IsAsciiUpperLetter(c: char)
  {
    'A' <= c <= 'Z'
  }

  function AsciiUpperChar(c: char): char
  {
    if IsAsciiLowerLetter(c) then (c as int - 32) as char else c
  }

  function AsciiLowerChar(c: char): char
  {
    if IsAsciiUpperLetter(c) then (c as int + 32) as char else c
  }

  /** `toUpperCase()` restricted to the ASCII letters: each small letter becomes
      its capital, every other character is kept, and no small letter is left. */
  function AsciiUpper(s: string): (r: string)
    ensures |r| == |s|
    ensures forall i :: 0 <= i < |s| && IsAsciiLowerLetter(s[i]) ==> r[i] as int == s[i] as int - 32
    ensures forall i :: 0 <= i < |s| && !IsAsciiLowerLetter(s[i]) ==> r[i] == s[i]
    ensures forall i :: 0 <= i < |r| ==> !IsAsciiLowerLetter(r[i])
  {
    seq(|s|, i requires 0 <= i < |s| => AsciiUpperChar(s[i]))
  }

  /** `toLowerCase()` restricted to the ASCII letters: each capital becomes its
      small letter, every other character is kept, and no capital is left. */
  function AsciiLower(s: string): (r: string)
    ensures |r| == |s|
    ensures forall i :: 0 <= i < |s| && IsAsciiUpperLetter(s[i]) ==> r[i] as int == s[i] as int + 32
    ensures forall i :: 0 <= i < |s| && !IsAsciiUpperLetter(s[i]) ==> r[i] == s[i]
    ensures forall i :: 0 <= i < |r| ==> !IsAsciiUpperLetter(r[i])
  {
    seq(|s|, i requires 0 <= i < |s| => AsciiLowerChar(s[i]))
  }

  /** Upper-casing twice is upper-casing once. */
  lemma AsciiUpperIdempotent(s: string)
    ensures AsciiUpper(AsciiUpper(s)) == AsciiUpper(s)
  {
  }

  /** Lower-casing forgets the case the text was typed in. */
  lemma AsciiLowerOfUpper(s: string)
    ensures AsciiLower(AsciiUpper(s)) == AsciiLower(s)
  {
  }

  /** Upper-casing never turns a non-blank room id into a blank one, nor the reverse. */
  lemma AsciiUpperBlank(s: string)
    ensures Blank(AsciiUpper(s)) <==> Blank(s)
  {
    forall i | 0 <= i < |s|
      ensures IsJsWhitespace(AsciiUpper(s)[i]) <==> IsJsWhitespace(s[i])
    {
    }
  }
}
