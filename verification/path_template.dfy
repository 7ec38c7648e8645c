/** `re.sub(PATH_RE, r"{\1}", rule)` with `PATH_RE = <(?:[^:]*:)?([^>]+)>`,
    the rewrite from the router's `<converter:name>` placeholders to
    OpenAPI's `{name}`. `Substitute` follows what the regular expression
    does under backtracking: `[^:]*` may run across a `>`, so one match can
    swallow several placeholders. `SubstituteIntended` uses the pattern
    with `[^:>]*`, which rewrites each placeholder on its own; the OpenAPI
    builder is modelled with it. */
module PathTemplate {
  import opened Results

  /** A match starting at index 0 of the searched text: the first group's
      text and the index just past the closing `>`. */
  datatype Match = Match(capture: string, end: nat)

  /** Index of the first `c` at or after `from`. */
  function FindFrom(s: string, c: char, from: nat): (r: Option<nat>)
    ensures r.Some? ==> from <= r.value < |s| && s[r.value] == c
    ensures r.Some? ==> forall t | from <= t < r.value :: s[t] != c
    ensures r.None? ==> forall t | from <= t < |s| :: s[t] != c
    decreases |s| - from
  {
    if from >= |s| then None
    else if s[from] == c then Some(from)
    else FindFrom(s, c, from + 1)
  }

  /** `s` begins with `<[^:]*:[^>]+>` where the colon is at `j` and the
      closing `>` at `k`: the optional group taken. Greedy classes that
      exclude the next literal leave exactly one such (j, k). */
  predicate ColonForm(s: string, j: int, k: int) {
    && 0 < j && j + 1 < k < |s|
    && s[0] == '<' && s[j] == ':' && s[k] == '>'
    && (forall t | 0 < t < j :: s[t] != ':')
    && (forall t | j < t < k :: s[t] != '>')
  }

  /** `s` begins with `<[^>]+>`, the closing `>` at `k`: the optional group
      skipped. */
  predicate PlainForm(s: string, k: int) {
    && 1 < k < |s|
    && s[0] == '<' && s[k] == '>'
    && (forall t | 0 < t < k :: s[t] != '>')
  }

  function ColonMatch(s: string): (r: Option<Match>)
    requires |s| > 0 && s[0] == '<'
    ensures forall j, k | ColonForm(s, j, k) :: r == Some(Match(s[j + 1..k], k + 1))
    ensures r.Some? ==> exists j, k :: ColonForm(s, j, k)
  {
    match FindFrom(s, ':', 1)
    case None => None
    case Some(j) =>
      match FindFrom(s, '>', j + 1)
      case None => None
      case Some(k) =>
        if k == j + 1 then None
        else
          assert ColonForm(s, j, k);
          Some(Match(s[j + 1..k], k + 1))
  }

  function PlainMatch(s: string): (r: Option<Match>)
    requires |s| > 0 && s[0] == '<'
    ensures forall k | PlainForm(s, k) :: r == Some(Match(s[1..k], k + 1))
    ensures r.Some? ==> exists k :: PlainForm(s, k)
  {
    match FindFrom(s, '>', 1)
    case None => None
    case Some(k) =>
      if k == 1 then None
      else
        assert PlainForm(s, k);
        Some(Match(s[1..k], k + 1))
  }

  /** The match of PATH_RE anchored at the start of `s`: the optional group
      is tried first, and only when it cannot lead to a match is it
      skipped. */
  function MatchAt(s: string): (r: Option<Match>)
    ensures forall j, k | ColonForm(s, j, k) :: r == Some(Match(s[j + 1..k], k + 1))
    ensures (forall j, k :: !ColonForm(s, j, k)) ==>
      forall k | PlainForm(s, k) :: r == Some(Match(s[1..k], k + 1))
    ensures r.None? <==> (forall j, k :: !ColonForm(s, j, k)) && (forall k :: !PlainForm(s, k))
    ensures r.Some? ==> 2 < r.value.end <= |s|
  {
    if |s| == 0 || s[0] != '<' then None
    else
      match ColonMatch(s)
      case Some(m) => Some(m)
      case None => PlainMatch(s)
  }

  /** `re.sub(PATH_RE, r"{\1}", s)`: scan left to right, replace each match
      by its group in braces and resume after it, copy every other
      character. */
  function Substitute(s: string): string
    decreases |s|
  {
    if |s| == 0 then ""
    else
      match MatchAt(s)
      case Some(m) => "{" + m.capture + "}" + Substitute(s[m.end..])
      case None => [s[0]] + Substitute(s[1..])
  }

  /** Text with no `<` is copied unchanged. */
  lemma {:induction false} NoPlaceholderUnchanged(s: string)
    requires '<' !in s
    ensures Substitute(s) == s
    decreases |s|
  {
    if |s| > 0 {
      assert MatchAt(s).None?;
      NoPlaceholderUnchanged(s[1..]);
    }
  }

  /** Text before the first `<` is copied unchanged. */
  lemma {:induction false} LiteralPrefixCopied(p: string, s: string)
    requires '<' !in p
    ensures Substitute(p + s) == p + Substitute(s)
    decreases |p|
  {
    if |p| > 0 {
      var ps := p + s;
      assert ps[0] == p[0] && p[0] in p;
      assert ps[1..] == p[1..] + s;
      CopyFirst(ps);
      LiteralPrefixCopied(p[1..], s);
      assert p == [p[0]] + p[1..];
    } else {
      assert p + s == s;
    }
  }

  /** Unfolds one copying step of `Substitute`. */
  lemma CopyFirst(s: string)
    requires |s| > 0 && s[0] != '<'
    ensures Substitute(s) == [s[0]] + Substitute(s[1..])
  {
    assert MatchAt(s).None?;
  }

  /** Unfolds one replacement step of `Substitute`. */
  lemma ReplaceFirst(s: string, m: Match)
    requires MatchAt(s) == Some(m)
    ensures Substitute(s) == "{" + m.capture + "}" + Substitute(s[m.end..])
  {
  }

  lemma ConverterForm(converter: string, name: string, q: string)
    requires ':' !in converter
    requires |name| > 0 && '>' !in name
    ensures MatchAt("<" + converter + ":" + name + ">" + q) == Some(Match(name, |converter| + |name| + 3))
  {
    var rest := "<" + converter + ":" + name + ">" + q;
    var j := |converter| + 1;
    var k := j + 1 + |name|;
    ConverterColonForm(converter, name, q);
    ColonFormMatch(rest, j, k);
    assert rest[j + 1..k] == name;
  }

  lemma ColonFormMatch(s: string, j: int, k: int)
    requires ColonForm(s, j, k)
    ensures MatchAt(s) == Some(Match(s[j + 1..k], k + 1))
  {
  }

  /** Where the colon and the closing `>` of `<converter:name>` sit. */
  lemma ConverterColonForm(converter: string, name: string, q: string)
    requires ':' !in converter
    requires |name| > 0 && '>' !in name
    ensures ColonForm("<" + converter + ":" + name + ">" + q, |converter| + 1, |converter| + |name| + 2)
  {
    var rest := "<" + converter + ":" + name + ">" + q;
    var j := |converter| + 1;
    var k := j + 1 + |name|;
    assert rest[j] == ':' && rest[k] == '>';
    forall t | 0 < t < j ensures rest[t] != ':' {
      assert rest[t] == converter[t - 1];
    }
    forall t | j < t < k ensures rest[t] != '>' {
      assert rest[t] == name[t - j - 1];
    }
  }

  /** A rule with one `<converter:name>` placeholder becomes `{name}`, text
      around it copied. `converter` may hold `>` and `<`, which is how a
      match reaches across an earlier placeholder. */
  lemma ConverterPlaceholder(p: string, converter: string, name: string, q: string)
    requires '<' !in p && '<' !in q
    requires ':' !in converter
    requires |name| > 0 && '>' !in name
    ensures Substitute(p + ("<" + converter + ":" + name + ">" + q)) == p + ("{" + name + "}" + q)
  {
    ConverterRest(converter, name, q);
    LiteralPrefixCopied(p, "<" + converter + ":" + name + ">" + q);
  }

  lemma ConverterRest(converter: string, name: string, q: string)
    requires '<' !in q
    requires ':' !in converter
    requires |name| > 0 && '>' !in name
    ensures Substitute("<" + converter + ":" + name + ">" + q) == "{" + name + "}" + q
  {
    var rest := "<" + converter + ":" + name + ">" + q;
    ConverterForm(converter, name, q);
    assert rest[|converter| + |name| + 3..] == q;
    ReplaceFirst(rest, Match(name, |converter| + |name| + 3));
    NoPlaceholderUnchanged(q);
  }

  lemma PlainFormOf(name: string, q: string)
    requires |name| > 0 && '>' !in name && ':' !in name && ':' !in q
    ensures MatchAt("<" + name + ">" + q) == Some(Match(name, |name| + 2))
  {
    var rest := "<" + name + ">" + q;
    var k := |name| + 1;
    assert ':' !in rest;
    forall j, k' ensures !ColonForm(rest, j, k') {
      if 0 <= j < |rest| {
        assert rest[j] in rest;
      }
    }
    assert rest[1..k] == name;
    assert PlainForm(rest, k) by {
      forall t | 0 < t < k ensures rest[t] != '>' {
        assert rest[t] == name[t - 1];
      }
    }
  }

  /** A rule with one `<name>` placeholder becomes `{name}`, provided no
      colon follows it (otherwise the colon form would take over). */
  lemma PlainPlaceholder(p: string, name: string, q: string)
    requires '<' !in p && '<' !in q
    requires |name| > 0 && '>' !in name && ':' !in name && ':' !in q
    ensures Substitute(p + ("<" + name + ">" + q)) == p + ("{" + name + "}" + q)
  {
    var rest := "<" + name + ">" + q;
    PlainFormOf(name, q);
    assert rest[|name| + 2..] == q;
    ReplaceFirst(rest, Match(name, |name| + 2));
    NoPlaceholderUnchanged(q);
    LiteralPrefixCopied(p, rest);
  }

  /** The regular expression as written: `/<a>/<int:b>` becomes `/{b}`,
      the first placeholder lost inside the converter part of the second. */
  lemma SpansEarlierPlaceholder()
    ensures Substitute("/<a>/<int:b>") == "/{b}"
  {
    assert "/<a>/<int:b>" == "/<" + ['a'] + ">/<int:b>";
    PlaceholderSwallowed('a');
  }

  /** `/<c>/<int:b>` becomes `/{b}` whatever the one-letter name `c`: two
      such rules with different first names share one path. */
  lemma PlaceholderSwallowed(c: char)
    requires c != ':' && c != '<' && c != '>'
    ensures Substitute("/<" + [c] + ">/<int:b>") == "/{b}"
  {
    var converter, name := [c] + ">/<int", "b";
    assert "/" + ("<" + converter + ":" + name + ">" + "") == "/<" + [c] + ">/<int:b>";
    assert "/" + ("{" + name + "}" + "") == "/{b}";
    assert ':' !in converter by {
      assert forall t | 0 <= t < |converter| :: converter[t] != ':';
    }
    ConverterPlaceholder("/", converter, name, "");
  }

  // ---------------------------------------------------------------------
  // The pattern as evidently intended: `<(?:[^:>]*:)?([^>]+)>`, where the
  // converter part cannot run past a `>`, so each placeholder is matched
  // on its own.

  /** The colon form of the intended pattern: no `>` before the colon. */
  predicate IntendedColonForm(s: string, j: int, k: int) {
    && ColonForm(s, j, k)
    && (forall t | 0 < t < j :: s[t] != '>')
  }

  /** The intended pattern's match anchored at the start of `s`. */
  function IntendedMatchAt(s: string): (r: Option<Match>)
    ensures forall j, k | IntendedColonForm(s, j, k) :: r == Some(Match(s[j + 1..k], k + 1))
    ensures (forall j, k :: !IntendedColonForm(s, j, k)) ==>
      forall k | PlainForm(s, k) :: r == Some(Match(s[1..k], k + 1))
    ensures r.None? <==> (forall j, k :: !IntendedColonForm(s, j, k)) && (forall k :: !PlainForm(s, k))
    ensures r.Some? ==> 2 < r.value.end <= |s|
  {
    if |s| == 0 || s[0] != '<' then None
    else
      var colon := FindFrom(s, ':', 1);
      var close := FindFrom(s, '>', 1);
      if colon.Some? && close.Some? && colon.value + 1 < close.value then
        IntendedColonUnique(s, colon.value, close.value);
        Some(Match(s[colon.value + 1..close.value], close.value + 1))
      else
        NoIntendedColon(s);
        PlainMatch(s)
  }

  /** The first `:` and the first `>` fix the only intended colon form. */
  lemma IntendedColonUnique(s: string, j: nat, k: nat)
    requires |s| > 0 && s[0] == '<'
    requires FindFrom(s, ':', 1) == Some(j) && FindFrom(s, '>', 1) == Some(k) && j + 1 < k
    ensures IntendedColonForm(s, j, k)
    ensures forall j', k' | IntendedColonForm(s, j', k') :: j' == j && k' == k
  {
    forall j', k' | IntendedColonForm(s, j', k')
      ensures j' == j && k' == k
    {
      assert s[j'] == ':' && s[k'] == '>';
    }
  }

  /** Without a `:` before the first `>` there is no intended colon form. */
  lemma NoIntendedColon(s: string)
    requires |s| > 0 && s[0] == '<'
    requires !(&& FindFrom(s, ':', 1).Some? && FindFrom(s, '>', 1).Some?
               && FindFrom(s, ':', 1).value + 1 < FindFrom(s, '>', 1).value)
    ensures forall j, k :: !IntendedColonForm(s, j, k)
  {
    forall j, k
      ensures !IntendedColonForm(s, j, k)
    {
    }
  }

  /** `re.sub` with the intended pattern. */
  function SubstituteIntended(s: string): string
    decreases |s|
  {
    if |s| == 0 then ""
    else
      match IntendedMatchAt(s)
      case Some(m) => "{" + m.capture + "}" + SubstituteIntended(s[m.end..])
      case None => [s[0]] + SubstituteIntended(s[1..])
  }

  /** Text before the first `<` is copied unchanged. */
  lemma {:induction false} IntendedLiteralPrefix(p: string, s: string)
    requires '<' !in p
    ensures SubstituteIntended(p + s) == p + SubstituteIntended(s)
    decreases |p|
  {
    if |p| > 0 {
      var ps := p + s;
      assert ps[0] == p[0];
      assert IntendedMatchAt(ps).None?;
      assert ps[1..] == p[1..] + s;
      IntendedLiteralPrefix(p[1..], s);
      assert p == [p[0]] + p[1..];
    } else {
      assert p + s == s;
    }
  }

  /** A `<converter:name>` placeholder becomes `{name}` whatever follows
      it, when the converter holds no `:` or `>`. */
  lemma IntendedConverterPlaceholder(converter: string, name: string, q: string)
    requires ':' !in converter && '>' !in converter
    requires |name| > 0 && '>' !in name
    ensures SubstituteIntended("<" + converter + ":" + name + ">" + q) == "{" + name + "}" + SubstituteIntended(q)
  {
    var rest := "<" + converter + ":" + name + ">" + q;
    var end := |converter| + |name| + 3;
    IntendedConverterMatch(converter, name, q);
    assert rest[end..] == q;
  }

  lemma IntendedConverterMatch(converter: string, name: string, q: string)
    requires ':' !in converter && '>' !in converter
    requires |name| > 0 && '>' !in name
    ensures IntendedMatchAt("<" + converter + ":" + name + ">" + q) == Some(Match(name, |converter| + |name| + 3))
  {
    var rest := "<" + converter + ":" + name + ">" + q;
    var j := |converter| + 1;
    var k := j + 1 + |name|;
    assert rest[j + 1..k] == name;
    assert rest[j] == ':' && rest[k] == '>';
    assert IntendedColonForm(rest, j, k) by {
      forall t | 0 < t < j ensures rest[t] != ':' && rest[t] != '>' {
        assert rest[t] == converter[t - 1];
      }
      forall t | j < t < k ensures rest[t] != '>' {
        assert rest[t] == name[t - j - 1];
      }
    }
  }

  /** A `<name>` placeholder becomes `{name}` whatever follows it, when the
      name holds no `:` or `>`. */
  lemma IntendedPlainPlaceholder(name: string, q: string)
    requires |name| > 0 && '>' !in name && ':' !in name
    ensures SubstituteIntended("<" + name + ">" + q) == "{" + name + "}" + SubstituteIntended(q)
  {
    var rest := "<" + name + ">" + q;
    var k := |name| + 1;
    assert rest[k] == '>';
    forall j, k' ensures !IntendedColonForm(rest, j, k') {
      if 0 < j < |rest| && rest[j] == ':' {
        assert j > k;
        assert rest[k] == '>';
      }
    }
    assert rest[1..k] == name;
    assert PlainForm(rest, k) by {
      forall t | 0 < t < k ensures rest[t] != '>' {
        assert rest[t] == name[t - 1];
      }
    }
    assert rest[k + 1..] == q;
  }

  /** A plain placeholder followed by a converter placeholder, the case
      the pattern as written gets wrong: both are rewritten. */
  lemma IntendedPlainThenConverter(p1: string, a: string, p2: string, converter: string, b: string)
    requires '<' !in p1 && '<' !in p2
    requires |a| > 0 && '>' !in a && ':' !in a
    requires ':' !in converter && '>' !in converter
    requires |b| > 0 && '>' !in b
    ensures SubstituteIntended(p1 + ("<" + a + ">" + (p2 + ("<" + converter + ":" + b + ">"))))
         == p1 + ("{" + a + "}" + (p2 + ("{" + b + "}")))
  {
    var second := "<" + converter + ":" + b + ">";
    IntendedConverterPlaceholder(converter, b, "");
    assert second + "" == second;
    assert SubstituteIntended(second) == "{" + b + "}";
    IntendedLiteralPrefix(p2, second);
    var first := "<" + a + ">" + (p2 + second);
    IntendedPlainPlaceholder(a, p2 + second);
    IntendedLiteralPrefix(p1, first);
  }

  /** With the intended pattern `/<a>/<int:b>` becomes `/{a}/{b}`. */
  lemma IntendedKeepsEveryPlaceholder()
    ensures SubstituteIntended("/<a>/<int:b>") == "/{a}/{b}"
  {
    assert "/<a>/<int:b>" == "/<" + ['a'] + ">/<int:b>";
    assert "/{a}/{b}" == "/{" + ['a'] + "}/{b}";
    IntendedKeepsBoth('a');
  }

  /** With the intended pattern `/<c>/<int:b>` becomes `/{c}/{b}`: rules
      with different first names keep different paths. */
  lemma IntendedKeepsBoth(c: char)
    requires c != ':' && c != '<' && c != '>'
    ensures SubstituteIntended("/<" + [c] + ">/<int:b>") == "/{" + [c] + "}/{b}"
  {
    assert "/" + ("<" + [c] + ">" + ("/" + ("<" + "int" + ":" + "b" + ">"))) == "/<" + [c] + ">/<int:b>";
    assert "/" + ("{" + [c] + "}" + ("/" + ("{" + "b" + "}"))) == "/{" + [c] + "}/{b}";
    IntendedPlainThenConverter("/", [c], "/", "int", "b");
  }

  /** Two such rules whose first names differ get different paths. */
  lemma IntendedNamesDiffer(x: char, y: char)
    requires x !in ":<>" && y !in ":<>" && x != y
    ensures SubstituteIntended("/<" + [x] + ">/<int:b>") == "/{" + [x] + "}/{b}"
    ensures SubstituteIntended("/<" + [y] + ">/<int:b>") == "/{" + [y] + "}/{b}"
    ensures SubstituteIntended("/<" + [x] + ">/<int:b>") != SubstituteIntended("/<" + [y] + ">/<int:b>")
  {
    assert ("/{" + [x] + "}/{b}")[2] == x;
    assert ("/{" + [y] + "}/{b}")[2] == y;
    IntendedKeepsBoth(x);
    IntendedKeepsBoth(y);
  }

  /** Without any converter the two patterns agree: the rules they treat
      differently all have a `:`. */
  lemma {:induction false} AgreeWithoutConverters(s: string)
    requires ':' !in s
    ensures SubstituteIntended(s) == Substitute(s)
    decreases |s|
  {
    if |s| > 0 {
      forall j, k ensures !ColonForm(s, j, k) {
        if 0 < j < |s| {
          assert s[j] in s;
        }
      }
      assert MatchAt(s) == IntendedMatchAt(s);
      match MatchAt(s)
      case Some(m) =>
        assert forall t | 0 <= t < |s[m.end..]| :: s[m.end..][t] in s;
        AgreeWithoutConverters(s[m.end..]);
      case None =>
        assert forall t | 0 <= t < |s[1..]| :: s[1..][t] in s;
        AgreeWithoutConverters(s[1..]);
    }
  }
}
