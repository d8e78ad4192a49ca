/** The pattern that `NewPipeline` builds around each keyword, and what it matches. */
module BoundaryPattern {
  import opened Results
  import opened Words
  import opened Regexp

  // `(?:^|[^a-zA-Z0-9-])` and `(?:[^a-zA-Z0-9-]|$)`, the class written once.
  const WORD_CLASS := "[^" + ("a-z" + ("A-Z" + ("0-9" + ("-" + "]"))))
  const BEFORE := "(?:" + ("^" + ("|" + (WORD_CLASS + ")")))
  const AFTER := "(?:" + (WORD_CLASS + ("|" + ("$" + ")")))

  const WORD_RANGES := [('a', 'z'), ('A', 'Z'), ('0', '9'), ('-', '-')]

  function PatternText(kw: string): string {
    BEFORE + QuoteMeta(kw) + AFTER
  }

  const OPENING := Alternate(Concat(Begin, Empty), Concat(NotIn(WORD_RANGES), Empty))
  const CLOSING := Alternate(Concat(NotIn(WORD_RANGES), Empty), Concat(End, Empty))

  function KeywordThen(kw: string, tail: Regex): Regex {
    if kw == "" then tail else Concat(Literal(kw[0]), KeywordThen(kw[1..], tail))
  }

  function Pattern(kw: string): Regex {
    Concat(OPENING, KeywordThen(kw, Concat(CLOSING, Empty)))
  }

  // Reading the pattern text.

  lemma {:induction false} ReadRange(lo: char, hi: char, s: string, ranges: seq<(char, char)>, rest: string)
    requires lo != ']' && hi != ']' && ReadRanges(s) == Some((ranges, rest))
    ensures ReadRanges([lo, '-', hi] + s) == Some(([(lo, hi)] + ranges, rest))
  {
    assert ([lo, '-', hi] + s)[3..] == s;
  }

  lemma {:induction false} ReadLoneHyphen(x: string)
    ensures ReadRanges("-" + ("]" + x)) == Some(([('-', '-')], x))
  {
    var close := "]" + x;
    var hyphen := "-" + close;
    assert close[1..] == x && hyphen[1..] == close;
    assert ReadRanges(close) == Some(([], x));
    assert [('-', '-')] + [] == [('-', '-')];
  }

  lemma {:induction false} ReadWordRanges(hyphen: string, x: string)
    requires ReadRanges(hyphen) == Some(([('-', '-')], x))
    ensures ReadRanges("a-z" + ("A-Z" + ("0-9" + hyphen))) == Some((WORD_RANGES, x))
  {
    ReadRange('0', '9', hyphen, [('-', '-')], x);
    ReadRange('A', 'Z', "0-9" + hyphen, [('0', '9')] + [('-', '-')], x);
    ReadRange('a', 'z', "A-Z" + ("0-9" + hyphen), [('A', 'Z')] + ([('0', '9')] + [('-', '-')]), x);
    assert WORD_RANGES == [('a', 'z')] + ([('A', 'Z')] + ([('0', '9')] + [('-', '-')]));
  }

  lemma {:induction false} NegatedClass(inner: string, ranges: seq<(char, char)>, rest: string)
    requires ReadRanges(inner) == Some((ranges, rest))
    ensures ReadAtom("[^" + inner) == Some((NotIn(ranges), rest))
  {
    assert ("[^" + inner)[2..] == inner;
  }

  lemma {:induction false} Reassociate(a: string, b: string, c: string, d: string, e: string, x: string)
    ensures (a + (b + (c + (d + e)))) + x == a + (b + (c + (d + (e + x))))
  {
  }

  lemma {:induction false} ReadWordClass(x: string)
    ensures ReadAtom(WORD_CLASS + x) == Some((NotIn(WORD_RANGES), x))
  {
    var hyphen := "-" + ("]" + x);
    ReadLoneHyphen(x);
    ReadWordRanges(hyphen, x);
    NegatedClass("a-z" + ("A-Z" + ("0-9" + hyphen)), WORD_RANGES, x);
    Reassociate("[^", "a-z", "A-Z", "0-9", "-" + "]", x);
    assert ("-" + "]") + x == hyphen;
  }

  lemma {:induction false} LoneAtom(s: string, atom: Regex, rest: string)
    requires s != "" && s[0] != '|' && s[0] != ')' && ReadAtom(s) == Some((atom, rest))
    requires rest == "" || rest[0] == '|' || rest[0] == ')'
    ensures ReadSequence(s) == Some((Concat(atom, Empty), rest))
  {
    assert ReadSequence(rest) == Some((Empty, rest));
  }

  lemma {:induction false} TwoAlternatives(s: string, left: Regex, right: Regex, t: string, rest: string)
    requires ReadSequence(s) == Some((left, "|" + t)) && ReadSequence(t) == Some((right, rest))
    requires rest == "" || rest[0] != '|'
    ensures ReadAlternatives(s) == Some((Alternate(left, right), rest))
  {
    assert ("|" + t)[1..] == t;
    assert ReadAlternatives(t) == Some((right, rest));
  }

  lemma {:induction false} Group(inner: string, re: Regex, rest: string)
    requires ReadAlternatives(inner) == Some((re, ")" + rest))
    ensures ReadAtom("(?:" + inner) == Some((re, rest))
  {
    assert ("(?:" + inner)[3..] == inner;
    assert (")" + rest)[1..] == rest;
  }

  lemma {:induction false} ReadOpening(x: string)
    ensures ReadAtom(BEFORE + x) == Some((OPENING, x))
  {
    var close := ")" + x;
    var wordClass := WORD_CLASS + close;
    ReadWordClass(close);
    LoneAtom(wordClass, NotIn(WORD_RANGES), close);
    var caret := "^" + ("|" + wordClass);
    assert caret[1..] == "|" + wordClass;
    LoneAtom(caret, Begin, "|" + wordClass);
    TwoAlternatives(caret, Concat(Begin, Empty), Concat(NotIn(WORD_RANGES), Empty), wordClass, close);
    Group(caret, OPENING, x);
    Reassociate("(?:", "^", "|", WORD_CLASS, ")", x);
  }

  lemma {:induction false} ReadClosing()
    ensures ReadSequence(AFTER) == Some((Concat(CLOSING, Empty), ""))
  {
    var dollar := "$" + ")";
    assert dollar[1..] == ")" && ")" + "" == ")";
    LoneAtom(dollar, End, ")");
    var wordClass := WORD_CLASS + ("|" + dollar);
    ReadWordClass("|" + dollar);
    LoneAtom(wordClass, NotIn(WORD_RANGES), "|" + dollar);
    TwoAlternatives(wordClass, Concat(NotIn(WORD_RANGES), Empty), Concat(End, Empty), dollar, ")");
    Group(wordClass, CLOSING, "");
    LoneAtom(AFTER, CLOSING, "");
  }

  lemma {:induction false} ReadQuotedChar(c: char, rest: string)
    ensures
      var s := QuotedChar(c) + rest;
      s[0] != '|' && s[0] != ')' && ReadAtom(s) == Some((Literal(c), rest))
  {
    if IsMeta(c) {
      assert (['\\', c] + rest)[2..] == rest;
    } else {
      assert c != '(' && c != '[' && c != '^' && c != '$' && c != '\\' && c != '|' && c != ')';
      assert ([c] + rest)[1..] == rest;
    }
  }

  lemma {:induction false} ReadQuoted(kw: string, after: string, tail: Regex)
    requires ReadSequence(after) == Some((tail, ""))
    ensures ReadSequence(QuoteMeta(kw) + after) == Some((KeywordThen(kw, tail), ""))
    decreases |kw|
  {
    if kw == "" {
      assert QuoteMeta(kw) + after == after;
    } else {
      ReadQuoted(kw[1..], after, tail);
      var rest := QuoteMeta(kw[1..]) + after;
      ReadQuotedChar(kw[0], rest);
      assert QuoteMeta(kw) + after == QuotedChar(kw[0]) + rest;
    }
  }

  lemma {:induction false} AtomThenRest(s: string, atom: Regex, rest: string, tail: Regex)
    requires s != "" && s[0] == '(' && ReadAtom(s) == Some((atom, rest)) && ReadSequence(rest) == Some((tail, ""))
    ensures Compile(s) == Some(Concat(atom, tail))
  {
    assert ReadSequence(s) == Some((Concat(atom, tail), ""));
  }

  /** Quoting makes every keyword compile, metacharacters included, and stand for itself. */
  lemma {:induction false} PatternCompiles(kw: string)
    ensures Compile(PatternText(kw)) == Some(Pattern(kw))
  {
    var quoted, tail := QuoteMeta(kw) + AFTER, Concat(CLOSING, Empty);
    ReadOpening(quoted);
    ReadQuoted(kw, AFTER, tail) by { ReadClosing(); }
    AtomThenRest(BEFORE + quoted, OPENING, quoted, KeywordThen(kw, tail));
    assert PatternText(kw) == BEFORE + quoted;
  }

  // What the pattern matches.

  lemma {:induction false} ClassIsBoundary(c: char)
    ensures InRanges(c, WORD_RANGES) <==> IsWordChar(c)
  {
    assert WORD_RANGES[0] == ('a', 'z') && WORD_RANGES[1] == ('A', 'Z');
    assert WORD_RANGES[2] == ('0', '9') && WORD_RANGES[3] == ('-', '-');
  }

  lemma {:induction false} KeywordThenMatches(kw: string, tail: Regex, s: string, i: nat, j: nat)
    requires i <= j <= |s|
    ensures MatchesAt(KeywordThen(kw, tail), s, i, j)
       <==> i + |kw| <= j && s[i..i + |kw|] == kw && MatchesAt(tail, s, i + |kw|, j)
    decreases |kw|
  {
    if kw == "" {
      assert s[i..i] == kw;
    } else if i < j {
      KeywordThenMatches(kw[1..], tail, s, i + 1, j);
      if i + |kw| <= j {
        assert s[i..i + |kw|] == [s[i]] + s[i + 1..i + |kw|];
        assert kw == [kw[0]] + kw[1..];
      }
    }
  }

  lemma {:induction false} PaddedMatches(re: Regex, s: string, i: nat, j: nat)
    requires i <= j <= |s|
    ensures MatchesAt(Concat(re, Empty), s, i, j) <==> MatchesAt(re, s, i, j)
  {
    if MatchesAt(re, s, i, j) {
      assert MatchesAt(Empty, s, j, j);
    }
  }

  lemma {:induction false} WordClassMatches(s: string, i: nat, j: nat)
    requires i <= j <= |s|
    ensures MatchesAt(Concat(NotIn(WORD_RANGES), Empty), s, i, j) <==> j == i + 1 && IsBoundary(s[i])
  {
    PaddedMatches(NotIn(WORD_RANGES), s, i, j);
    if i < |s| {
      ClassIsBoundary(s[i]);
    }
  }

  lemma {:induction false} OpeningMatches(s: string, i: nat, k: nat)
    requires i <= k <= |s|
    ensures MatchesAt(OPENING, s, i, k) <==> (i == k == 0 || (k == i + 1 && IsBoundary(s[i])))
  {
    PaddedMatches(Begin, s, i, k);
    WordClassMatches(s, i, k);
  }

  lemma {:induction false} ClosingMatches(s: string, k: nat, j: nat)
    requires k <= j <= |s|
    ensures MatchesAt(Concat(CLOSING, Empty), s, k, j) <==> (k == j == |s| || (j == k + 1 && IsBoundary(s[k])))
  {
    PaddedMatches(CLOSING, s, k, j);
    PaddedMatches(End, s, k, j);
    WordClassMatches(s, k, j);
  }

  /** Searching for the compiled pattern finds exactly the bounded occurrences of the keyword. */
  lemma {:induction false} PatternMeansOccurrence(kw: string, s: string)
    ensures MatchString(Pattern(kw), s) <==> Occurs(kw, s)
  {
    var tail := Concat(CLOSING, Empty);
    if MatchString(Pattern(kw), s) {
      var i, j :| 0 <= i <= |s| && 0 <= j <= |s| && MatchesBetween(Pattern(kw), s, i, j);
      assert MatchesAt(Concat(OPENING, KeywordThen(kw, tail)), s, i, j);
      var k :| i <= k <= j && MatchesAt(OPENING, s, i, k) && MatchesAt(KeywordThen(kw, tail), s, k, j);
      OpeningMatches(s, i, k);
      KeywordThenMatches(kw, tail, s, k, j);
      ClosingMatches(s, k + |kw|, j);
      assert OccursAt(kw, s, k);
    }
    if Occurs(kw, s) {
      var p :| 0 <= p <= |s| && OccursAt(kw, s, p);
      var q := p + |kw|;
      var i := if p == 0 then 0 else p - 1;
      var j := if q == |s| then q else q + 1;
      OpeningMatches(s, i, p);
      KeywordThenMatches(kw, tail, s, p, j);
      ClosingMatches(s, q, j);
      assert MatchesBetween(Pattern(kw), s, i, j);
    }
  }

  /** For a keyword that is one word, the pattern finds it exactly when it is a token of the text. */
  lemma {:induction false} PatternMeansToken(kw: string, s: string)
    requires kw != "" && forall i :: 0 <= i < |kw| ==> IsWordChar(kw[i])
    ensures MatchString(Pattern(kw), s) <==> kw in Tokens(s)
  {
    PatternMeansOccurrence(kw, s);
    WordOccursIffToken(kw, s);
  }
}
