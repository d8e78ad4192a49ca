/** The opaque page cursor `indexed_at::cid` handed to clients. */
module PageCursor {
  import opened Results
  import opened Timestamps

  datatype Key = Key(indexedAt: string, cid: string)

  /** Position of the first "::" at or after `from`. */
  function FindSeparator(s: string, from: nat): (r: Option<nat>)
    ensures r.Some? ==> from <= r.value && r.value + 1 < |s| && s[r.value] == ':' && s[r.value + 1] == ':'
    ensures forall i :: from <= i && i + 1 < (if r.Some? then r.value + 1 else |s|) ==> s[i] != ':' || s[i + 1] != ':'
    decreases |s| - from
  {
    if from + 1 >= |s| then None
    else if s[from] == ':' && s[from + 1] == ':' then Some(from)
    else FindSeparator(s, from + 1)
  }

  function BuildCursor(k: Key): string {
    k.indexedAt + "::" + k.cid
  }

  function ParseCursor(s: string): Option<Key> {
    var at := FindSeparator(s, 0);
    if at.None? then None
    else if s[..at.value] == "" || s[at.value + 2..] == "" then None
    else Some(Key(s[..at.value], s[at.value + 2..]))
  }

  /** Stamps that a cursor can carry: no "::" inside and no ":" at the end. */
  predicate CarriesInCursor(t: string) {
    && (forall i :: 0 <= i && i + 1 < |t| ==> t[i] != ':' || t[i + 1] != ':')
    && (t != "" ==> t[|t| - 1] != ':')
  }

  /** The page cursor survives a round trip exactly for these keys. */
  lemma {:induction false} CursorRoundTrip(k: Key)
    ensures ParseCursor(BuildCursor(k)) == Some(k)
       <==> k.indexedAt != "" && k.cid != "" && CarriesInCursor(k.indexedAt)
  {
    var s, t := BuildCursor(k), k.indexedAt;
    assert s[|t|] == ':' && s[|t| + 1] == ':';
    assert forall i :: 0 <= i < |t| ==> s[i] == t[i];
    assert s[..|t|] == t && s[|t| + 2..] == k.cid;
    var at := FindSeparator(s, 0);
    if !CarriesInCursor(t) {
      if t != "" && t[|t| - 1] == ':' {
        assert s[|t| - 1] == ':' && s[|t|] == ':';
      } else {
        var i :| 0 <= i && i + 1 < |t| && t[i] == ':' && t[i + 1] == ':';
        assert s[i] == ':' && s[i + 1] == ':';
      }
      assert at.Some? && at.value < |t|;
      assert |s[..at.value]| < |t|;
    } else {
      assert at.Some? && at.value == |t|;
    }
  }

  /** Whatever a client sends back, an accepted cursor rebuilds to the same text. */
  lemma {:induction false} AcceptedCursorRebuilds(s: string)
    ensures ParseCursor(s).Some? ==> BuildCursor(ParseCursor(s).value) == s
  {
    var at := FindSeparator(s, 0);
    if at.Some? {
      assert s == s[..at.value] + "::" + s[at.value + 2..];
    }
  }

  /** Every RFC 3339 `date-time` can be carried in a cursor. */
  lemma {:induction false} DateTimeCarriesInCursor(t: string)
    requires IsDateTime(t)
    ensures t != "" && CarriesInCursor(t)
  {
    var r := t[19..];
    assert forall i :: 19 <= i < |t| ==> t[i] == r[i - 19];
    assert FitsAt(t[..19], DATE_AND_TIME, 18);
    OffsetOrFractionColons(r);
    forall i | 0 <= i && i + 1 < |t|
      ensures t[i] != ':' || t[i + 1] != ':'
    {
      if i < 19 {
        HeadColons(t, i);
      } else {
        assert r[i - 19] != ':' || r[i - 18] != ':';
      }
    }
  }

  /** No "::" inside and no ":" at either end. */
  predicate ColonsApart(s: string) {
    && s != "" && s[0] != ':' && s[|s| - 1] != ':'
    && forall i :: 0 <= i && i + 1 < |s| ==> s[i] != ':' || s[i + 1] != ':'
  }

  lemma {:induction false} OffsetColons(s: string)
    requires IsOffset(s)
    ensures ColonsApart(s)
  {
    if |s| == 6 {
      assert s[1..3][0] == s[1] && s[1..3][1] == s[2] && s[4..6][0] == s[4] && s[4..6][1] == s[5];
    }
  }

  lemma {:induction false} ColonsApartAfter(a: string, b: string)
    requires a != "" && ':' !in a && ColonsApart(b)
    ensures ColonsApart(a + b)
  {
    assert a[0] in a;
    forall i | 0 <= i && i + 1 < |a + b|
      ensures (a + b)[i] != ':' || (a + b)[i + 1] != ':'
    {
      if i < |a| {
        assert a[i] in a;
      } else {
        assert b[i - |a|] != ':' || b[i + 1 - |a|] != ':';
      }
    }
  }

  lemma {:induction false} OffsetOrFractionColons(s: string)
    requires IsFractionAndOffset(s)
    ensures ColonsApart(s)
  {
    if IsOffset(s) {
      OffsetColons(s);
    } else {
      var n :| 2 <= n <= |s| && s[0] == '.' && AllDigits(s[1..n]) && IsOffset(s[n..]);
      var fraction, offset := s[1..n], s[n..];
      OffsetColons(offset);
      assert ':' !in fraction;
      ColonsApartAfter("." + fraction, offset);
      assert s == "." + fraction + offset;
    }
  }

  lemma {:induction false} HeadColons(t: string, i: nat)
    requires IsDateTime(t) && i < 19
    ensures t[i] == ':' ==> t[i + 1] != ':'
  {
    assert FitsAt(t[..19], DATE_AND_TIME, i) && (i < 18 ==> FitsAt(t[..19], DATE_AND_TIME, i + 1));
  }
}
