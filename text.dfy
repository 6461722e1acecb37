/** The optional value used for a pipe that may fail to open and a selection that may be absent. */
module Options {
  datatype Option<+T> = None | Some(value: T)
}

/**
 * Text primitives shared by the listing parser, the menu and the command builders:
 * the C locale's white space, the `>>` extraction of one white-space delimited token
 * from a string stream (which, on pieces free of white space and of shell
 * metacharacters joined by single spaces, is also how a shell splits an unquoted
 * command line into arguments), and the decimal
 * rendering that `cout << n` performs for a non-negative integer.
 */
module Text {

  /** `isspace` in the C locale: space, tab, newline, vertical tab, form feed, carriage return. */
  predicate IsSpace(c: char) {
    c == ' ' || c == '\t' || c == '\n' || c == '\U{B}' || c == '\U{C}' || c == '\r'
  }

  predicate NoSpace(s: string) {
    forall i | 0 <= i < |s| :: !IsSpace(s[i])
  }

  predicate AllSpace(s: string) {
    forall i | 0 <= i < |s| :: IsSpace(s[i])
  }

  /** Two runs without white space, one after the other, have none either. */
  lemma NoSpaceAppend(x: string, y: string)
    requires NoSpace(x) && NoSpace(y)
    ensures NoSpace(x + y)
  {
    forall k | 0 <= k < |x + y| ensures !IsSpace((x + y)[k]) {
      if k >= |x| { assert (x + y)[k] == y[k - |x|]; }
    }
  }

  /** What one successful `>>` into a `std::string` yields: a non-empty run without white space. */
  predicate IsToken(s: string) {
    |s| > 0 && NoSpace(s)
  }

  /** The input left after the leading white space is skipped. */
  function SkipSpace(s: string): (r: string)
    ensures |r| <= |s|
  {
    if s != [] && IsSpace(s[0]) then SkipSpace(s[1..]) else s
  }

  /** The longest prefix of `s` that contains no white space. */
  function LeadingRun(s: string): (r: string)
    ensures |r| <= |s|
  {
    if s != [] && !IsSpace(s[0]) then [s[0]] + LeadingRun(s[1..]) else []
  }

  /** Skipping drops a run of white space from the front and stops at the first other character. */
  lemma {:induction false} SkipSpaceSplits(s: string)
    ensures var r := SkipSpace(s);
      && r == s[|s| - |r|..]
      && AllSpace(s[..|s| - |r|])
      && (r == [] || !IsSpace(r[0]))
  {
    if s != [] && IsSpace(s[0]) {
      SkipSpaceSplits(s[1..]);
      var r := SkipSpace(s);
      assert s[1..][|s| - 1 - |r|..] == s[|s| - |r|..];
      assert s[..|s| - |r|] == [s[0]] + s[1..][..|s| - 1 - |r|];
    }
  }

  /** The run is a prefix without white space, ended by white space or by the end of the input. */
  lemma {:induction false} LeadingRunSplits(s: string)
    ensures var r := LeadingRun(s);
      && r == s[..|r|]
      && NoSpace(r)
      && (|r| == |s| || IsSpace(s[|r|]))
  {
    if s != [] && !IsSpace(s[0]) {
      LeadingRunSplits(s[1..]);
    }
  }

  /**
   * `stream >> token` on a stream holding `s`: white space is skipped, then the
   * maximal run of non-space characters is the token and the stream is left just
   * after it. When nothing but white space remains the extraction fails, the token
   * stays empty and the whole input is consumed.
   */
  function ReadToken(s: string): (r: (string, string))
    ensures r.0 != [] ==> |r.1| < |s|
  {
    var t := SkipSpace(s);
    var w := LeadingRun(t);
    (w, t[|w|..])
  }

  /**
   * What `>>` leaves: the token has no white space, only white space precedes it,
   * the rest of the stream begins at white space or is empty, and the token is empty
   * exactly when the stream held nothing but white space, in which case nothing is left.
   */
  lemma ReadTokenSplits(s: string)
    ensures var (tok, rest) := ReadToken(s);
      && NoSpace(tok)
      && |tok| + |rest| <= |s|
      && s == s[..|s| - |tok| - |rest|] + tok + rest
      && AllSpace(s[..|s| - |tok| - |rest|])
      && (rest == [] || IsSpace(rest[0]))
      && (tok == [] <==> AllSpace(s))
      && (tok == [] ==> rest == [])
  {
    var t := SkipSpace(s);
    var w := LeadingRun(t);
    SkipSpaceSplits(s);
    LeadingRunSplits(t);
    assert t == w + t[|w|..];
    assert s == s[..|s| - |t|] + t;
    if w == [] {
      assert t == [];
    } else {
      assert s[|s| - |t|] == t[0];
    }
  }

  /** The words of `s`: the tokens that repeated `>>` extractions yield, in order. */
  function Words(s: string): (ws: seq<string>)
    decreases |s|
  {
    var (t, rest) := ReadToken(s);
    if t == [] then [] else [t] + Words(rest)
  }

  /** The words joined by single spaces, as a command line built by concatenation spells them. */
  function Unwords(ws: seq<string>): string
  {
    if |ws| == 0 then "" else if |ws| == 1 then ws[0] else ws[0] + " " + Unwords(ws[1..])
  }

  predicate AllTokens(ws: seq<string>) {
    forall i | 0 <= i < |ws| :: IsToken(ws[i])
  }

  /** A token followed by white space or by nothing is extracted whole, and the rest is left. */
  lemma ReadTokenOfToken(t: string, s: string)
    requires IsToken(t)
    requires s == [] || IsSpace(s[0])
    ensures ReadToken(t + s) == (t, s)
  {
    var u := t + s;
    assert !IsSpace(u[0]);
    assert SkipSpace(u) == u;
    LeadingRunOfToken(t, s);
    assert u[|t|..] == s;
  }

  lemma {:induction false} LeadingRunOfToken(t: string, s: string)
    requires NoSpace(t)
    requires s == [] || IsSpace(s[0])
    ensures LeadingRun(t + s) == t
  {
    if t == [] {
      assert t + s == s;
    } else {
      assert (t + s)[1..] == t[1..] + s;
      LeadingRunOfToken(t[1..], s);
    }
  }

  /** Leading white space never changes what `>>` extracts. */
  lemma ReadTokenAfterSpace(c: char, s: string)
    requires IsSpace(c)
    ensures ReadToken([c] + s) == ReadToken(s)
  {
    assert ([c] + s)[1..] == s;
    assert SkipSpace([c] + s) == SkipSpace(s);
  }

  /** A token at the front of the input is the first word. */
  lemma WordsOfTokenThen(t: string, s: string)
    requires IsToken(t)
    requires s == [] || IsSpace(s[0])
    ensures Words(t + s) == [t] + Words(s)
  {
    ReadTokenOfToken(t, s);
  }

  /** White space at the front of the input does not change its words. */
  lemma WordsAfterSpace(c: char, s: string)
    requires IsSpace(c)
    ensures Words([c] + s) == Words(s)
  {
    ReadTokenAfterSpace(c, s);
  }

  /** Words are exactly what was joined, provided each piece is a token. */
  lemma {:induction false} WordsOfUnwords(ws: seq<string>)
    requires AllTokens(ws)
    ensures Words(Unwords(ws)) == ws
  {
    if |ws| == 0 {
      EmptyHasNoWords();
    } else if |ws| == 1 {
      UnwordsSingle(ws);
      WordsOfOneToken(ws[0]);
    } else {
      SplitFirst(ws);
      WordsOfUnwords(ws[1..]);
      WordsOfJoin(ws[0], ws[1..]);
    }
  }

  lemma SplitFirst<T>(xs: seq<T>)
    requires |xs| > 0
    ensures xs == [xs[0]] + xs[1..]
  {
  }

  lemma SplitLast<T>(xs: seq<T>)
    requires |xs| > 0
    ensures xs == xs[..|xs| - 1] + [xs[|xs| - 1]]
  {
  }

  lemma UnwordsSingle(ws: seq<string>)
    requires |ws| == 1
    ensures ws == [ws[0]] && Unwords(ws) == ws[0]
  {
  }

  lemma WordsOfOneToken(t: string)
    requires IsToken(t)
    ensures Words(t) == [t]
  {
    assert t + [] == t;
    WordsOfTokenThen(t, []);
    EmptyHasNoWords();
  }

  lemma WordsOfJoin(t: string, rest: seq<string>)
    requires IsToken(t) && |rest| > 0
    ensures Words(Unwords([t] + rest)) == [t] + Words(Unwords(rest))
  {
    UnwordsSpaced(t, rest);
    WordsOfTokenSpaced(t, Unwords(rest));
  }

  lemma UnwordsSpaced(t: string, rest: seq<string>)
    requires |rest| > 0
    ensures Unwords([t] + rest) == t + ([' '] + Unwords(rest))
  {
    UnwordsCons(t, rest);
    assert t + " " + Unwords(rest) == t + ([' '] + Unwords(rest));
  }

  lemma WordsOfTokenSpaced(t: string, tail: string)
    requires IsToken(t)
    ensures Words(t + (" " + tail)) == [t] + Words(tail)
  {
    WordsOfTokenThen(t, [' '] + tail);
    WordsAfterSpace(' ', tail);
  }

  /** Three one-word arguments joined by single spaces, and whatever follows a further space. */
  lemma WordsOfThreeThen(a: string, b: string, c: string, tail: string)
    requires IsToken(a) && IsToken(b) && IsToken(c)
    ensures Words(a + (" " + (b + (" " + (c + (" " + tail)))))) == [a, b, c] + Words(tail)
  {
    WordsOfTokenSpaced(a, b + (" " + (c + (" " + tail))));
    WordsOfTokenSpaced(b, c + (" " + tail));
    WordsOfTokenSpaced(c, tail);
  }

  /** The words of a few one-word arguments joined by single spaces are those arguments. */
  lemma WordsOfThree(a: string, b: string, c: string)
    requires IsToken(a) && IsToken(b) && IsToken(c)
    ensures Words(a + (" " + (b + (" " + c)))) == [a, b, c]
  {
    WordsOfTokenSpaced(a, b + (" " + c));
    WordsOfTokenSpaced(b, c);
    WordsOfOneToken(c);
  }

  lemma WordsOfFour(a: string, b: string, c: string, d: string)
    requires IsToken(a) && IsToken(b) && IsToken(c) && IsToken(d)
    ensures Words(a + (" " + (b + (" " + (c + (" " + d)))))) == [a, b, c, d]
  {
    WordsOfTokenSpaced(a, b + (" " + (c + (" " + d))));
    WordsOfThree(b, c, d);
  }

  lemma WordsOfFive(a: string, b: string, c: string, d: string, e: string)
    requires IsToken(a) && IsToken(b) && IsToken(c) && IsToken(d) && IsToken(e)
    ensures Words(a + (" " + (b + (" " + (c + (" " + (d + (" " + e)))))))) == [a, b, c, d, e]
  {
    WordsOfTokenSpaced(a, b + (" " + (c + (" " + (d + (" " + e))))));
    WordsOfFour(b, c, d, e);
  }

  lemma UnwordsCons(t: string, rest: seq<string>)
    requires |rest| > 0
    ensures Unwords([t] + rest) == t + " " + Unwords(rest)
  {
    assert ([t] + rest)[1..] == rest;
  }

  lemma EmptyHasNoWords()
    ensures Words([]) == []
  {
    assert AllSpace([]);
  }

  /** The first `n` characters of `s`, or all of `s` when it is shorter: `s.substr(0, n)`. */
  function Prefix(s: string, n: nat): (r: string)
    ensures |r| == if |s| < n then |s| else n
    ensures r <= s
  {
    if |s| < n then s else s[..n]
  }

  predicate IsDigit(c: char) {
    '0' <= c <= '9'
  }

  predicate IsDigits(s: string) {
    forall i | 0 <= i < |s| :: IsDigit(s[i])
  }

  function DigitChar(d: nat): (c: char)
    requires d < 10
    ensures IsDigit(c) && c as int - '0' as int == d
  {
    ('0' as int + d) as char
  }

  /** The decimal value a string of digits denotes. */
  function DigitsValue(s: string): nat
    requires IsDigits(s)
  {
    if s == [] then 0 else DigitsValue(s[..|s| - 1]) * 10 + (s[|s| - 1] as int - '0' as int)
  }

  /** `cout << n` for a non-negative `n`: decimal digits, no leading zero. */
  function NatToString(n: nat): (s: string)
    ensures |s| > 0 && IsDigits(s)
    ensures s[0] == '0' ==> n == 0
  {
    if n < 10 then [DigitChar(n)] else NatToString(n / 10) + [DigitChar(n % 10)]
  }

  /** Reading back the rendered digits gives the number again. */
  lemma {:induction false} NatToStringRoundTrip(n: nat)
    ensures DigitsValue(NatToString(n)) == n
  {
    if n >= 10 {
      var s := NatToString(n);
      assert s[..|s| - 1] == NatToString(n / 10);
      NatToStringRoundTrip(n / 10);
    }
  }
}
