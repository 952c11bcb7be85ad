/**
  The lobby's settings logic (gemini-quiz-master/components/Lobby.tsx):
  the question-count input, which parses the field with JavaScript's
  `parseInt`, ignores unparseable input and clamps the number to 1..30, and
  the condition that enables the host's start button.
 */
module Lobby {
  import opened QuizTypes
  import opened Text
  import Roster

  // ---------------------------------------------------------------------------
  // parseInt(string) with no radix, after the ECMAScript algorithm; None is NaN.

  /** Value of an ASCII letter or digit as a digit in radix up to 36; 36 for any other character. */
  function DigitValue(c: char): (d: nat)
    ensures d <= 36
    ensures d < 36 <==> '0' <= c <= '9' || 'a' <= c <= 'z' || 'A' <= c <= 'Z'
    ensures d < 10 <==> '0' <= c <= '9'
    ensures '0' <= c <= '9' ==> d == c as int - '0' as int
    ensures 'a' <= c <= 'z' ==> d == c as int - 'a' as int + 10
    ensures 'A' <= c <= 'Z' ==> d == c as int - 'A' as int + 10
  {
    if '0' <= c <= '9' then c as int - '0' as int
    else if 'a' <= c <= 'z' then c as int - 'a' as int + 10
    else if 'A' <= c <= 'Z' then c as int - 'A' as int + 10
    else 36
  }

  /** Drop the leading characters that `parseInt` skips as white space. */
  function SkipWhitespace(s: string): string
  {
    s[LeadingWhitespace(s)..]
  }

  /** Length of the longest prefix of `s` made of digits of the radix. */
  function DigitPrefixLength(s: string, radix: nat): (n: nat)
    ensures n <= |s|
    ensures forall i :: 0 <= i < n ==> DigitValue(s[i]) < radix
    ensures n == |s| || DigitValue(s[n]) >= radix
  {
    if s != [] && DigitValue(s[0]) < radix then 1 + DigitPrefixLength(s[1..], radix) else 0
  }

  /** The number a string of digits denotes in the radix, most significant digit first. */
  function DigitsValue(z: string, radix: nat): nat
  {
    if z == [] then 0 else DigitsValue(z[..|z| - 1], radix) * radix + DigitValue(z[|z| - 1])
  }

  /** `parseInt(input)`: skip white space, read a sign, then the magnitude. */
  function ParseInt(input: string): (r: Option<int>)
    ensures Blank(input) ==> r == None
    ensures var t := SkipWhitespace(input);
      t != [] && t[0] != '+' && t[0] != '-' && DigitValue(t[0]) >= 10 ==> r == None
    ensures r.Some? && r.value < 0 ==> SkipWhitespace(input)[0] == '-'
  {
    ParseSigned(SkipWhitespace(input))
  }

  /** After the white space: an optional sign, then the magnitude. */
  function ParseSigned(s: string): (r: Option<int>)
    ensures s == [] ==> r == None
    ensures s != [] && s[0] != '+' && s[0] != '-' && DigitValue(s[0]) >= 10 ==> r == None
    ensures r.Some? && r.value < 0 ==> s[0] == '-'
    ensures s != [] && (s[0] == '+' || s[0] == '-') ==>
      (r.Some? <==> ParseMagnitude(s[1..]).Some?)
  {
    var sign := if s != [] && s[0] == '-' then -1 else 1;
    var unsigned := if s != [] && (s[0] == '+' || s[0] == '-') then s[1..] else s;
    match ParseMagnitude(unsigned)
    case None => None
    case Some(m) => Some(sign * m)
  }

  /** After the sign: switch to radix 16 after `0x`/`0X`, then read the longest
      digit prefix; no digit at all is NaN. */
  function ParseMagnitude(u: string): (m: Option<nat>)
    ensures u == [] || DigitValue(u[0]) >= 10 ==> m == None
    ensures u != [] && DigitValue(u[0]) < 10 && !(|u| >= 2 && u[0] == '0' && (u[1] == 'x' || u[1] == 'X')) ==>
      m.Some?
    ensures |u| >= 2 && u[0] == '0' && (u[1] == 'x' || u[1] == 'X') ==>
      (m.Some? <==> |u| >= 3 && DigitValue(u[2]) < 16)
  {
    var hex := |u| >= 2 && u[0] == '0' && (u[1] == 'x' || u[1] == 'X');
    var radix := if hex then 16 else 10;
    var digits := if hex then u[2..] else u;
    var n := DigitPrefixLength(digits, radix);
    if n == 0 then None else Some(DigitsValue(digits[..n], radix))
  }

  /** The decimal numeral of a natural number, as a number input field holds it. */
  function NatDigits(n: nat): (z: string)
    ensures z != [] && forall i :: 0 <= i < |z| ==> DigitValue(z[i]) < 10
  {
    var d := ('0' as int + n % 10) as char;
    if n < 10 then [d] else NatDigits(n / 10) + [d]
  }

  /** The decimal numeral of an integer, with a leading `-` when negative. */
  function DecimalString(v: int): string
  {
    if v < 0 then "-" + NatDigits(-v) else NatDigits(v)
  }

  lemma {:induction false} NatDigitsValue(n: nat)
    ensures DigitsValue(NatDigits(n), 10) == n
  {
    var z := NatDigits(n);
    assert z[..|z| - 1] == if n < 10 then [] else NatDigits(n / 10);
    if n >= 10 {
      NatDigitsValue(n / 10);
    }
  }

  lemma {:induction false} DigitPrefixOfNumeral(z: string, t: string, radix: nat)
    requires forall i :: 0 <= i < |z| ==> DigitValue(z[i]) < radix
    requires t == [] || DigitValue(t[0]) >= radix
    ensures DigitPrefixLength(z + t, radix) == |z|
  {
    if z != [] {
      assert (z + t)[1..] == z[1..] + t;
      DigitPrefixOfNumeral(z[1..], t, radix);
    } else {
      assert z + t == t;
    }
  }

  /** The magnitude of a decimal numeral followed by a non-digit is read back. */
  lemma {:induction false} MagnitudeOfNumeral(n: nat, t: string)
    requires t == [] || (DigitValue(t[0]) >= 10 && t[0] != 'x' && t[0] != 'X')
    ensures ParseMagnitude(NatDigits(n) + t) == Some(n)
  {
    var z := NatDigits(n);
    var u := z + t;
    NumeralIsNotHex(z, t);
    NatDigitsValue(n);
    DigitPrefixOfNumeral(z, t, 10);
    assert u[..|z|] == z;
  }

  /** A numeral followed by anything but `x`/`X` does not start a hexadecimal literal. */
  lemma NumeralIsNotHex(z: string, t: string)
    requires z != [] && forall i :: 0 <= i < |z| ==> DigitValue(z[i]) < 10
    requires t == [] || (t[0] != 'x' && t[0] != 'X')
    ensures !(|z + t| >= 2 && (z + t)[1] in "xX")
  {
    if |z| >= 2 {
      assert (z + t)[1] == z[1];
      assert DigitValue(z[1]) < 10;
    } else if |z + t| >= 2 {
      assert (z + t)[1] == t[0];
    }
  }

  lemma DecimalDigitIsPlain(c: char)
    requires DigitValue(c) < 10
    ensures !IsJsWhitespace(c) && c != '-' && c != '+'
  {
  }

  /** Round trip: `parseInt` reads back the decimal numeral of any integer,
      also when the numeral is followed by a non-digit such as `.` or `e`. */
  lemma {:induction false} ParseDecimal(v: int, t: string)
    requires t == [] || (DigitValue(t[0]) >= 10 && t[0] != 'x' && t[0] != 'X')
    ensures ParseInt(DecimalString(v) + t) == Some(v)
  {
    var input := DecimalString(v) + t;
    if v < 0 {
      var n: nat := -v;
      assert input == (['-'] + NatDigits(n)) + t;
      ParseNegativeNumeral(n, t);
    } else {
      var n: nat := v;
      assert input == NatDigits(n) + t;
      ParseNonNegativeNumeral(n, t);
    }
  }

  lemma {:induction false} ParseNonNegativeNumeral(n: nat, t: string)
    requires t == [] || (DigitValue(t[0]) >= 10 && t[0] != 'x' && t[0] != 'X')
    ensures ParseInt(NatDigits(n) + t) == Some(n as int)
  {
    var s := NatDigits(n) + t;
    assert ParseMagnitude(s) == Some(n) by {
      MagnitudeOfNumeral(n, t);
    }
    assert s != [] && !IsJsWhitespace(s[0]) && s[0] != '+' && s[0] != '-' by {
      assert s[0] == NatDigits(n)[0];
      DecimalDigitIsPlain(s[0]);
    }
    assert SkipWhitespace(s) == s;
    assert ParseSigned(s) == Some(n as int);
  }

  lemma {:induction false} ParseNegativeNumeral(n: nat, t: string)
    requires t == [] || (DigitValue(t[0]) >= 10 && t[0] != 'x' && t[0] != 'X')
    ensures ParseInt((['-'] + NatDigits(n)) + t) == Some(-(n as int))
  {
    var u := NatDigits(n) + t;
    var s := ['-'] + u;
    assert (['-'] + NatDigits(n)) + t == s;
    assert SkipWhitespace(s) == s by {
      assert s[0] == '-';
      assert !IsJsWhitespace('-');
    }
    NegativeSign(u, n, t);
  }

  lemma NegativeSign(u: string, n: nat, t: string)
    requires u == NatDigits(n) + t
    requires t == [] || (DigitValue(t[0]) >= 10 && t[0] != 'x' && t[0] != 'X')
    ensures ParseSigned(['-'] + u) == Some(-(n as int))
  {
    MagnitudeOfNumeral(n, t);
    assert (['-'] + u)[1..] == u;
  }

  /** Leading white space never changes what `parseInt` reads. */
  lemma {:induction false} ParseIgnoresLeadingWhitespace(ws: string, s: string)
    requires Blank(ws)
    ensures ParseInt(ws + s) == ParseInt(s)
  {
    SkipWhitespaceBlankPrefix(ws, s);
  }

  lemma SkipWhitespaceBlankPrefix(ws: string, s: string)
    requires Blank(ws)
    ensures SkipWhitespace(ws + s) == SkipWhitespace(s)
  {
    LeadingWhitespaceBlankPrefix(ws, s);
    assert (ws + s)[|ws| + LeadingWhitespace(s)..] == s[LeadingWhitespace(s)..];
  }

  lemma {:induction false} LeadingWhitespaceBlankPrefix(ws: string, s: string)
    requires Blank(ws)
    ensures LeadingWhitespace(ws + s) == |ws| + LeadingWhitespace(s)
  {
    if ws != [] {
      assert (ws + s)[0] == ws[0];
      assert (ws + s)[1..] == ws[1..] + s;
      LeadingWhitespaceBlankPrefix(ws[1..], s);
    } else {
      assert ws + s == s;
    }
  }

  /** An input without any digit, such as the empty field, is NaN. */
  lemma EmptyIsNaN()
    ensures ParseInt("") == None
  {
    assert SkipWhitespace("") == "";
    assert DigitPrefixLength("", 10) == 0;
  }

  // ---------------------------------------------------------------------------
  // The question-count input

  /** `Math.min(Math.max(val, 1), 30)`. */
  function ClampCount(v: int): (c: int)
    ensures MIN_QUESTIONS <= c <= MAX_QUESTIONS
    ensures MIN_QUESTIONS <= v <= MAX_QUESTIONS ==> c == v
    ensures v < MIN_QUESTIONS ==> c == MIN_QUESTIONS
    ensures v > MAX_QUESTIONS ==> c == MAX_QUESTIONS
  {
    var atLeastOne := if v > 1 then v else 1;
    if atLeastOne < 30 then atLeastOne else 30
  }

  /** The count field's `onChange`: the configuration after typing `input`. */
  function CountInput(config: QuizConfig, input: string): (r: QuizConfig)
    ensures ParseInt(input) == None ==> r == config
    ensures r.topic == config.topic && r.difficulty == config.difficulty
    ensures ParseInt(input).Some? ==>
      && MIN_QUESTIONS <= r.count <= MAX_QUESTIONS
      && (MIN_QUESTIONS <= ParseInt(input).value <= MAX_QUESTIONS ==> r.count == ParseInt(input).value)
  {
    match ParseInt(input)
    case None => config
    case Some(v) => config.(count := ClampCount(v))
  }

  /** Typing the numeral of an in-range count stores exactly that count. */
  lemma CountInputNumeral(config: QuizConfig, v: int)
    requires MIN_QUESTIONS <= v <= MAX_QUESTIONS
    ensures CountInput(config, DecimalString(v)) == config.(count := v)
  {
    ParseDecimal(v, "");
    assert DecimalString(v) + "" == DecimalString(v);
  }

  /** Typing the numeral of any integer stores it clamped to the allowed range. */
  lemma CountInputClamps(config: QuizConfig, v: int)
    ensures CountInput(config, DecimalString(v)).count ==
      if v < MIN_QUESTIONS then MIN_QUESTIONS else if v > MAX_QUESTIONS then MAX_QUESTIONS else v
  {
    ParseDecimal(v, "");
    assert DecimalString(v) + "" == DecimalString(v);
  }

  // ---------------------------------------------------------------------------
  // The start button

  /** `disabled={!config.topic || players.length < 1}`, negated. */
  function StartEnabled(config: QuizConfig, players: seq<Player>): (enabled: bool)
  {
    !(config.topic == "" || |players| < 1)
  }

  /** The button is rendered only when the lobby's `isHost` flag, the host flag
      of the own roster entry, is set; the own entry is then in the roster, so
      whenever the button is shown it depends on the topic alone. */
  lemma HostCanStartWithTopic(config: QuizConfig, players: seq<Player>, myId: string)
    requires Roster.HostFlagOf(players, myId)
    ensures StartEnabled(config, players) <==> config.topic != ""
  {
    assert Roster.HasId(players, myId);
  }

  /** The button tests emptiness, not `trim()`: any non-empty topic of white
      space enables it, although `startMultiplayerQuiz` returns at once for
      such a topic (the blank-topic clause of `QuizApp.App.StartMultiplayerQuiz`). */
  lemma StartEnabledForBlankTopic(config: QuizConfig, players: seq<Player>)
    requires config.topic != "" && Blank(config.topic) && |players| >= 1
    ensures StartEnabled(config, players)
  {
  }
}
