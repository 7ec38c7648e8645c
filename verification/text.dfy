/** The handful of Python `str` operations the core relies on, restricted to
    their ASCII behaviour: `isdigit`/`int` on decimal strings, `str(int)`,
    `lower`, `splitlines` and `"\n".join`. */
module Text {
  import opened Results

  predicate IsDigit(c: char) {
    '0' <= c <= '9'
  }

  /** `s.isdigit()` for ASCII text: non-empty and every character a digit. */
  predicate AllDigits(s: string) {
    |s| > 0 && forall i | 0 <= i < |s| :: IsDigit(s[i])
  }

  function DigitValue(c: char): nat
    requires IsDigit(c)
  {
    (c as int - '0' as int) as nat
  }

  function DigitChar(d: nat): (c: char)
    requires d < 10
    ensures IsDigit(c) && DigitValue(c) == d
  {
    ('0' as int + d) as char
  }

  /** Value of a string of decimal digits, most significant first. */
  function DecimalValue(s: string): nat
    requires forall i | 0 <= i < |s| :: IsDigit(s[i])
    decreases |s|
  {
    if |s| == 0 then 0
    else 10 * DecimalValue(s[..|s| - 1]) + DigitValue(s[|s| - 1])
  }

  /** `str(n)` for a natural number: shortest decimal spelling. */
  function NatToString(n: nat): (s: string)
    ensures AllDigits(s)
    ensures DecimalValue(s) == n
    ensures |s| > 1 ==> s[0] != '0'
    decreases n
  {
    if n < 10 then [DigitChar(n)]
    else
      var prefix := NatToString(n / 10);
      var s := prefix + [DigitChar(n % 10)];
      assert s[..|s| - 1] == prefix;
      s
  }

  /** `str(i)` for a Python int. */
  function IntToString(i: int): string {
    if i < 0 then "-" + NatToString(-i) else NatToString(i)
  }

  lemma IntToStringDigits(i: int)
    ensures AllDigits(IntToString(i)) <==> i >= 0
  {
    if i < 0 {
      assert !IsDigit(IntToString(i)[0]);
    }
  }

  /** Digits with single underscores between them, as `int()` accepts. */
  predicate DigitGroups(s: string) {
    && |s| > 0 && IsDigit(s[0]) && IsDigit(s[|s| - 1])
    && (forall i | 0 <= i < |s| :: IsDigit(s[i]) || s[i] == '_')
    && (forall i | 0 <= i < |s| - 1 :: !(s[i] == '_' && s[i + 1] == '_'))
  }

  function DropUnderscores(s: string): (r: string)
    ensures forall i | 0 <= i < |r| :: r[i] in s && r[i] != '_'
    ensures (forall i | 0 <= i < |s| :: s[i] != '_') ==> r == s
  {
    if |s| == 0 then ""
    else if s[0] == '_' then DropUnderscores(s[1..])
    else [s[0]] + DropUnderscores(s[1..])
  }

  /** `int(s)` on a `str`: an optional sign followed by decimal digit groups.
      `None` stands for the `ValueError` Python raises. */
  function ParseInt(s: string): (r: Option<int>)
    ensures r.Some? <==>
      (DigitGroups(s) || (|s| > 0 && s[0] in "+-" && DigitGroups(s[1..])))
  {
    if DigitGroups(s) then Some(DecimalValue(DropUnderscores(s)) as int)
    else if |s| > 0 && s[0] == '+' && DigitGroups(s[1..]) then
      Some(DecimalValue(DropUnderscores(s[1..])) as int)
    else if |s| > 0 && s[0] == '-' && DigitGroups(s[1..]) then
      Some(-(DecimalValue(DropUnderscores(s[1..])) as int))
    else None
  }

  lemma DigitsParse(digits: string)
    requires AllDigits(digits)
    ensures DigitGroups(digits)
    ensures DropUnderscores(digits) == digits
  {
    forall t | 0 <= t < |digits| ensures digits[t] != '_' {
      assert IsDigit(digits[t]);
    }
  }

  lemma ParseNonNegative(n: nat)
    ensures ParseInt(NatToString(n)) == Some(n)
  {
    DigitsParse(NatToString(n));
  }

  lemma ParseNegative(n: nat)
    requires n > 0
    ensures ParseInt("-" + NatToString(n)) == Some(-(n as int))
  {
    var digits := NatToString(n);
    var s := "-" + digits;
    DigitsParse(digits);
    assert s[1..] == digits;
    ParseMinus(s);
  }

  /** A minus sign followed by digit groups parses to the negated value. */
  lemma ParseMinus(s: string)
    requires |s| > 0 && s[0] == '-' && DigitGroups(s[1..])
    ensures ParseInt(s) == Some(-(DecimalValue(DropUnderscores(s[1..])) as int))
  {
    assert !DigitGroups(s) by {
      assert !IsDigit(s[0]);
    }
  }

  /** `int(str(i)) == i`: the decimal spelling of an int parses back to it. */
  lemma ParseIntOfIntToString(i: int)
    ensures ParseInt(IntToString(i)) == Some(i)
  {
    if i < 0 {
      ParseNegative(-i);
    } else {
      ParseNonNegative(i);
    }
  }

  predicate IsUpper(c: char) {
    'A' <= c <= 'Z'
  }

  function LowerChar(c: char): char {
    if IsUpper(c) then (c as int + 32) as char else c
  }

  /** `s.lower()` on ASCII letters. */
  function Lower(s: string): (r: string)
    ensures |r| == |s|
    ensures forall i | 0 <= i < |r| :: !IsUpper(r[i])
    ensures forall i | 0 <= i < |s| && !IsUpper(s[i]) :: r[i] == s[i]
    ensures forall i | 0 <= i < |s| && IsUpper(s[i]) :: r[i] as int == s[i] as int + 32
  {
    if |s| == 0 then "" else [LowerChar(s[0])] + Lower(s[1..])
  }

  predicate IsLowerLetter(c: char) {
    'a' <= c <= 'z'
  }

  /** `upper` spells `word` in capitals. */
  predicate Capitalises(upper: string, word: string) {
    && |upper| == |word|
    && forall i | 0 <= i < |word| :: IsLowerLetter(word[i]) && upper[i] as int == word[i] as int - 32
  }

  /** A string without lower-case letters that lowers to a word of
      lower-case letters is that word in capitals. */
  lemma LowerOfUpper(s: string, word: string, upper: string)
    requires forall i | 0 <= i < |s| :: !IsLowerLetter(s[i])
    requires Capitalises(upper, word)
    requires Lower(s) == word
    ensures s == upper
  {
    assert |s| == |upper|;
    forall i | 0 <= i < |s| ensures s[i] == upper[i] {
      assert Lower(s)[i] == word[i];
      assert IsLowerLetter(word[i]);
      assert IsUpper(s[i]);
      assert Lower(s)[i] as int == s[i] as int + 32;
      assert s[i] as int == upper[i] as int;
    }
  }

  /** The characters `str.splitlines` treats as line boundaries. */
  predicate IsLineBoundary(c: char) {
    c in {'\n', '\r', '\U{0B}', '\U{0C}', '\U{1C}', '\U{1D}', '\U{1E}',
          '\U{85}', '\U{2028}', '\U{2029}'}
  }

  /** Index of the first line boundary at or after `from`, or `|s|`. */
  function NextBoundary(s: string, from: nat): (i: nat)
    requires from <= |s|
    ensures from <= i <= |s|
    ensures i < |s| ==> IsLineBoundary(s[i])
    ensures forall t | from <= t < i :: !IsLineBoundary(s[t])
    decreases |s| - from
  {
    if from == |s| || IsLineBoundary(s[from]) then from else NextBoundary(s, from + 1)
  }

  /** `s.splitlines()`: lines without their terminators, `\r\n` counting as
      one terminator, no trailing empty line for a final terminator. */
  function SplitLines(s: string): (lines: seq<string>)
    ensures |lines| == 0 <==> |s| == 0
    ensures forall k, t | 0 <= k < |lines| && 0 <= t < |lines[k]| :: !IsLineBoundary(lines[k][t])
    decreases |s|
  {
    if |s| == 0 then []
    else
      var i := NextBoundary(s, 0);
      if i == |s| then [s]
      else
        var next := if s[i] == '\r' && i + 1 < |s| && s[i + 1] == '\n' then i + 2 else i + 1;
        [s[..i]] + SplitLines(s[next..])
  }

  /** `sep.join(parts)`. */
  function Join(sep: string, parts: seq<string>): string {
    if |parts| == 0 then ""
    else if |parts| == 1 then parts[0]
    else parts[0] + sep + Join(sep, parts[1..])
  }

  /** Text whose only line boundaries are `\n` and which does not end in one. */
  predicate PlainLines(s: string) {
    && (forall i | 0 <= i < |s| :: IsLineBoundary(s[i]) ==> s[i] == '\n')
    && (|s| > 0 ==> s[|s| - 1] != '\n')
  }

  /** `"\n".join(s.splitlines())` gives back `s` for plain text, and such
      text splits into several lines exactly when it holds a `\n`. */
  lemma {:induction false} JoinSplitLines(s: string)
    requires PlainLines(s)
    ensures Join("\n", SplitLines(s)) == s
    ensures |SplitLines(s)| > 1 <==> '\n' in s
    decreases |s|
  {
    if |s| > 0 {
      var i := NextBoundary(s, 0);
      if i == |s| {
        assert '\n' !in s by {
          forall t | 0 <= t < |s| ensures s[t] != '\n' {
            assert !IsLineBoundary(s[t]);
          }
        }
      } else {
        assert s[i] == '\n';
        var rest := s[i + 1..];
        assert |rest| > 0;
        assert PlainLines(rest);
        JoinSplitLines(rest);
        assert SplitLines(s) == [s[..i]] + SplitLines(rest);
        assert s == s[..i] + "\n" + rest;
      }
    }
  }
}
