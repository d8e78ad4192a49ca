/** Keywords as plain words: occurrences with a text edge or a boundary character on both sides. */
module Words {

  predicate IsWordChar(c: char) {
    'a' <= c <= 'z' || 'A' <= c <= 'Z' || '0' <= c <= '9' || c == '-'
  }

  predicate IsBoundary(c: char) {
    !IsWordChar(c)
  }

  predicate EdgeBefore(s: string, p: nat)
    requires p <= |s|
  {
    p == 0 || IsBoundary(s[p - 1])
  }

  predicate EdgeAfter(s: string, q: nat)
    requires q <= |s|
  {
    q == |s| || IsBoundary(s[q])
  }

  predicate OccursAt(kw: string, s: string, p: nat) {
    p + |kw| <= |s| && s[p..p + |kw|] == kw && EdgeBefore(s, p) && EdgeAfter(s, p + |kw|)
  }

  predicate Occurs(kw: string, s: string) {
    exists p | 0 <= p <= |s| :: OccursAt(kw, s, p)
  }

  /** The first boundary character at or after `from`, or the end of the text. */
  function NextBoundary(s: string, from: nat): (q: nat)
    requires from <= |s|
    ensures from <= q <= |s|
    ensures forall i :: from <= i < q ==> IsWordChar(s[i])
    ensures q < |s| ==> IsBoundary(s[q])
    decreases |s| - from
  {
    if from == |s| || IsBoundary(s[from]) then from else NextBoundary(s, from + 1)
  }

  /** The text split at every boundary character. */
  function Tokens(s: string): seq<string>
    decreases |s|
  {
    var q := NextBoundary(s, 0);
    if q == |s| then [s] else [s[..q]] + Tokens(s[q + 1..])
  }

  lemma {:induction false} ShiftedOccurrence(kw: string, s: string, q: nat, p: nat)
    requires q < |s| && IsBoundary(s[q])
    ensures OccursAt(kw, s[q + 1..], p) <==> OccursAt(kw, s, p + q + 1)
  {
    var rest := s[q + 1..];
    if p + |kw| <= |rest| {
      assert rest[p..p + |kw|] == s[p + q + 1..p + q + 1 + |kw|];
    }
  }

  lemma {:induction false} OccursFirstOrLater(kw: string, s: string, q: nat)
    requires kw != "" && forall i :: 0 <= i < |kw| ==> IsWordChar(kw[i])
    requires q < |s| && IsBoundary(s[q]) && forall i :: 0 <= i < q ==> IsWordChar(s[i])
    ensures Occurs(kw, s) <==> kw == s[..q] || Occurs(kw, s[q + 1..])
  {
    var rest := s[q + 1..];
    if Occurs(kw, s) {
      var p :| 0 <= p <= |s| && OccursAt(kw, s, p);
      if p <= q {
        WordEndsAtBoundary(kw, s, p, q);
      } else {
        ShiftedOccurrence(kw, s, q, p - q - 1);
      }
    }
    if kw == s[..q] {
      assert OccursAt(kw, s, 0);
    }
    if Occurs(kw, rest) {
      var p :| 0 <= p <= |rest| && OccursAt(kw, rest, p);
      ShiftedOccurrence(kw, s, q, p);
    }
  }

  /** A single word occurs in a text exactly when it is one of the text's tokens. */
  lemma {:induction false} WordOccursIffToken(kw: string, s: string)
    requires kw != "" && forall i :: 0 <= i < |kw| ==> IsWordChar(kw[i])
    ensures Occurs(kw, s) <==> kw in Tokens(s)
    decreases |s|
  {
    var q := NextBoundary(s, 0);
    if q < |s| {
      OccursFirstOrLater(kw, s, q);
      WordOccursIffToken(kw, s[q + 1..]);
    } else {
      if Occurs(kw, s) {
        var p :| 0 <= p <= |s| && OccursAt(kw, s, p);
        WordEndsAtBoundary(kw, s, p, q);
      }
      assert s[..q] == s;
      assert kw == s ==> OccursAt(kw, s, 0);
    }
  }

  lemma {:induction false} WordEndsAtBoundary(kw: string, s: string, p: nat, q: nat)
    requires kw != "" && forall i :: 0 <= i < |kw| ==> IsWordChar(kw[i])
    requires p <= q <= |s| && OccursAt(kw, s, p)
    requires forall i :: 0 <= i < q ==> IsWordChar(s[i])
    requires q < |s| ==> IsBoundary(s[q])
    ensures kw == s[..q]
  {
    assert forall i :: p <= i < p + |kw| ==> s[i] == kw[i - p];
    assert p == 0;
  }

  lemma {:induction false} PartOccurs(kw: string, part: string, off: nat, s: string, p: nat)
    requires off + |part| <= |kw| && kw[off..off + |part|] == part
    requires p + |kw| <= |s| && s[p..p + |kw|] == kw
    requires EdgeBefore(s, p + off) && EdgeAfter(s, p + off + |part|)
    ensures Occurs(part, s)
  {
    forall i | 0 <= i < |part|
      ensures s[p + off + i] == part[i]
    {
      assert s[p..p + |kw|][off + i] == kw[off..off + |part|][i];
    }
    assert s[p + off..p + off + |part|] == part;
    assert OccursAt(part, s, p + off);
  }

  /** A text that holds a phrase `a b c` joined at a boundary character also holds `a` and `c`. */
  lemma {:induction false} PhraseHoldsItsParts(a: string, b: char, c: string, s: string)
    requires IsBoundary(b)
    requires Occurs(a + [b] + c, s)
    ensures Occurs(a, s) && Occurs(c, s)
  {
    var kw := a + [b] + c;
    var p :| 0 <= p <= |s| && OccursAt(kw, s, p);
    assert s[p + |a|] == s[p..p + |kw|][|a|] == b;
    assert kw[0..|a|] == a && kw[|a| + 1..|kw|] == c;
    PartOccurs(kw, a, 0, s, p);
    PartOccurs(kw, c, |a| + 1, s, p);
  }
}
