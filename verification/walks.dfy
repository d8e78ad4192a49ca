/** Following cursors page after page, over a feed that stands still or changes between requests. */
module Walks {
  import opened Results
  import opened Division
  import opened PageCursor
  import opened PageQuery

  /** The cursor of the `i`-th request: the key of the last row of the page before. */
  function CursorAt(pages: seq<seq<FeedRow>>, i: nat): Option<Key>
    requires i <= |pages|
  {
    if i == 0 || pages[i - 1] == [] then None else Some(KeyOf(pages[i - 1][|pages[i - 1]| - 1]))
  }

  ghost predicate PageAt(tables: seq<set<FeedRow>>, limit: nat, pages: seq<seq<FeedRow>>, i: nat)
    requires i < |pages| == |tables|
  {
    IsPage(tables[i], CursorAt(pages, i), limit, pages[i])
  }

  /** Pages fetched one after the other, each on the rows of its time; every page but the last is full. */
  ghost predicate IsWalk(tables: seq<set<FeedRow>>, limit: nat, pages: seq<seq<FeedRow>>) {
    && limit > 0 && |tables| == |pages|
    && (forall i :: 0 <= i < |pages| ==> PageAt(tables, limit, pages, i))
    && (forall i :: 0 <= i < |pages| - 1 ==> |pages[i]| == limit)
  }

  /** A page short of the limit ends a walk: the client is given no further cursor. */
  predicate Finished(limit: nat, pages: seq<seq<FeedRow>>) {
    pages != [] && |pages[|pages| - 1]| < limit
  }

  function Concat(pages: seq<seq<FeedRow>>): seq<FeedRow> {
    if pages == [] then [] else Concat(pages[..|pages| - 1]) + pages[|pages| - 1]
  }

  predicate DistinctKeys(rows: set<FeedRow>) {
    forall r, q :: r in rows && q in rows && KeyOf(r) == KeyOf(q) ==> r == q
  }

  lemma {:induction false} WalkPrefix(tables: seq<set<FeedRow>>, limit: nat, pages: seq<seq<FeedRow>>)
    requires IsWalk(tables, limit, pages) && pages != []
    ensures IsWalk(tables[..|pages| - 1], limit, pages[..|pages| - 1])
  {
    var before, times := pages[..|pages| - 1], tables[..|pages| - 1];
    forall i | 0 <= i < |before|
      ensures PageAt(times, limit, before, i)
    {
      assert PageAt(tables, limit, pages, i);
      assert CursorAt(before, i) == CursorAt(pages, i);
    }
  }

  lemma {:induction false} InConcat(pages: seq<seq<FeedRow>>, r: FeedRow)
    ensures r in Concat(pages) <==> exists i :: 0 <= i < |pages| && r in pages[i]
    decreases |pages|
  {
    if pages != [] {
      InConcat(pages[..|pages| - 1], r);
    }
  }

  lemma {:induction false} NextPageIsOlder(
      page: seq<FeedRow>, rows: set<FeedRow>, limit: nat, next: seq<FeedRow>, p: FeedRow, q: FeedRow)
    requires page != [] && NewestFirst(page) && IsPage(rows, Some(KeyOf(page[|page| - 1])), limit, next)
    requires p in page && q in next
    ensures Older(KeyOf(q), KeyOf(p))
  {
    assert q in Below(rows, Some(KeyOf(page[|page| - 1])));
    var i :| 0 <= i < |page| && page[i] == p;
    OlderIrreflexive(KeyOf(p));
    OlderThanNewer(KeyOf(q), KeyOf(page[|page| - 1]), KeyOf(p));
  }

  /** The rows of a page are older than every row of an earlier page. */
  lemma {:induction false} PagesDescend(
      tables: seq<set<FeedRow>>, limit: nat, pages: seq<seq<FeedRow>>, i: nat, j: nat, p: FeedRow, q: FeedRow)
    requires IsWalk(tables, limit, pages) && i < j < |pages| && p in pages[i] && q in pages[j]
    ensures Older(KeyOf(q), KeyOf(p))
    decreases j
  {
    var before := pages[j - 1];
    assert PageAt(tables, limit, pages, j - 1);
    assert PageAt(tables, limit, pages, j);
    if i == j - 1 {
      NextPageIsOlder(before, tables[j], limit, pages[j], p, q);
    } else {
      NextPageIsOlder(before, tables[j], limit, pages[j], before[0], q);
      PagesDescend(tables, limit, pages, i, j - 1, p, before[0]);
      OlderTransitive(KeyOf(q), KeyOf(before[0]), KeyOf(p));
    }
  }

  predicate StrictlyDescending(rows: seq<FeedRow>) {
    forall i, j :: 0 <= i < j < |rows| ==> Older(KeyOf(rows[j]), KeyOf(rows[i]))
  }

  lemma {:induction false} PageStrict(rows: set<FeedRow>, cursor: Option<Key>, limit: nat, page: seq<FeedRow>)
    requires IsPage(rows, cursor, limit, page) && DistinctKeys(rows)
    ensures StrictlyDescending(page)
  {
    forall i, j | 0 <= i < j < |page|
      ensures Older(KeyOf(page[j]), KeyOf(page[i]))
    {
      assert page[i] in page && page[j] in page;
      OlderConnected(KeyOf(page[i]), KeyOf(page[j]));
    }
  }

  /** With distinct keys at each query, the keys along a walk strictly decrease, whatever changes in between. */
  lemma {:induction false} WalkStrictlyDescends(tables: seq<set<FeedRow>>, limit: nat, pages: seq<seq<FeedRow>>)
    requires IsWalk(tables, limit, pages) && forall i :: 0 <= i < |tables| ==> DistinctKeys(tables[i])
    ensures StrictlyDescending(Concat(pages))
    decreases |pages|
  {
    if pages != [] {
      var n := |pages| - 1;
      var before, last := Concat(pages[..n]), pages[n];
      WalkPrefix(tables, limit, pages);
      WalkStrictlyDescends(tables[..n], limit, pages[..n]);
      assert PageAt(tables, limit, pages, n);
      PageStrict(tables[n], CursorAt(pages, n), limit, last);
      forall a, b | 0 <= a < |before| && 0 <= b < |last|
        ensures Older(KeyOf(last[b]), KeyOf(before[a]))
      {
        assert before[a] in before && last[b] in last;
        InConcat(pages[..n], before[a]);
        var i :| 0 <= i < n && before[a] in pages[..n][i];
        PagesDescend(tables, limit, pages, i, n, before[a], last[b]);
      }
    }
  }

  /** No row twice, distinct keys or not. */
  lemma {:induction false} WalkNoRepeats(tables: seq<set<FeedRow>>, limit: nat, pages: seq<seq<FeedRow>>)
    requires IsWalk(tables, limit, pages)
    ensures NoRepeats(Concat(pages))
    decreases |pages|
  {
    if pages != [] {
      var n := |pages| - 1;
      var before, last := Concat(pages[..n]), pages[n];
      WalkPrefix(tables, limit, pages);
      WalkNoRepeats(tables[..n], limit, pages[..n]);
      assert PageAt(tables, limit, pages, n);
      forall a, b | 0 <= a < |before| && 0 <= b < |last|
        ensures before[a] != last[b]
      {
        assert before[a] in before && last[b] in last;
        InConcat(pages[..n], before[a]);
        var i :| 0 <= i < n && before[a] in pages[..n][i];
        PagesDescend(tables, limit, pages, i, n, before[a], last[b]);
        OlderIrreflexive(KeyOf(last[b]));
      }
    }
  }

  /** A URI whose row only ever gets newer keys is not returned twice, even when it is deleted and created again. */
  lemma {:induction false} NoUriTwice(
      tables: seq<set<FeedRow>>, limit: nat, pages: seq<seq<FeedRow>>, i: nat, j: nat, p: FeedRow, q: FeedRow)
    requires IsWalk(tables, limit, pages) && i < j < |pages| && p in pages[i] && q in pages[j]
    requires forall r, s :: r in tables[i] && s in tables[j] && r.uri == s.uri ==> !Older(KeyOf(s), KeyOf(r))
    ensures p.uri != q.uri
  {
    assert PageAt(tables, limit, pages, i);
    assert PageAt(tables, limit, pages, j);
    assert p in Below(tables[i], CursorAt(pages, i)) && q in Below(tables[j], CursorAt(pages, j));
    PagesDescend(tables, limit, pages, i, j, p, q);
  }

  /** The row shares its key with the last row of the `i`-th page, a full one, and is not on that page. */
  predicate CutOff(limit: nat, pages: seq<seq<FeedRow>>, i: nat, r: FeedRow) {
    && i < |pages| && |pages[i]| == limit && limit > 0
    && KeyOf(pages[i][limit - 1]) == KeyOf(r) && r !in pages[i]
  }

  /** As long as it is neither returned nor cut off, a row that stays is still below the cursor. */
  lemma {:induction false} StillBelow(
      tables: seq<set<FeedRow>>, limit: nat, pages: seq<seq<FeedRow>>, k: nat, r: FeedRow)
    requires IsWalk(tables, limit, pages) && k < |pages|
    requires forall i :: 0 <= i < |tables| ==> r in tables[i]
    requires forall i :: 0 <= i < k ==> r !in pages[i] && !CutOff(limit, pages, i, r)
    ensures r in Below(tables[k], CursorAt(pages, k))
  {
    if k > 0 {
      StillBelow(tables, limit, pages, k - 1, r);
      assert PageAt(tables, limit, pages, k - 1);
      assert !CutOff(limit, pages, k - 1, r);
      if |pages[k - 1]| == limit {
        assert pages[k - 1][limit - 1] in pages[k - 1];
        OlderConnected(KeyOf(r), KeyOf(pages[k - 1][limit - 1]));
      }
    }
  }

  lemma {:induction false} CutOffIsLost(
      tables: seq<set<FeedRow>>, limit: nat, pages: seq<seq<FeedRow>>, i: nat, r: FeedRow)
    requires IsWalk(tables, limit, pages) && CutOff(limit, pages, i, r)
    ensures r !in Concat(pages)
  {
    InConcat(pages, r);
    var last := pages[i][limit - 1];
    assert last in pages[i];
    OlderIrreflexive(KeyOf(r));
    forall j | 0 <= j < |pages|
      ensures r !in pages[j]
    {
      if j < i && r in pages[j] {
        PagesDescend(tables, limit, pages, j, i, r, last);
      } else if j > i && r in pages[j] {
        PagesDescend(tables, limit, pages, i, j, last, r);
      }
    }
  }

  /**
   Exact loss: of the rows that stay throughout a finished walk, it misses exactly those cut off by the
   limit from a row with the same key, whichever order the database gives to equal keys.
   */
  lemma {:induction false} WalkMissesExactlyTies(
      tables: seq<set<FeedRow>>, limit: nat, pages: seq<seq<FeedRow>>, r: FeedRow)
    requires IsWalk(tables, limit, pages) && Finished(limit, pages)
    requires forall i :: 0 <= i < |tables| ==> r in tables[i]
    ensures r !in Concat(pages) <==> exists i :: CutOff(limit, pages, i, r)
  {
    if i :| CutOff(limit, pages, i, r) {
      CutOffIsLost(tables, limit, pages, i, r);
    } else if r !in Concat(pages) {
      NeverCutOffIsReturned(tables, limit, pages, r);
    }
  }

  lemma {:induction false} NeverCutOffIsReturned(
      tables: seq<set<FeedRow>>, limit: nat, pages: seq<seq<FeedRow>>, r: FeedRow)
    requires IsWalk(tables, limit, pages) && Finished(limit, pages)
    requires forall i :: 0 <= i < |tables| ==> r in tables[i]
    requires forall i :: !CutOff(limit, pages, i, r)
    ensures r in Concat(pages)
  {
    var n := |pages| - 1;
    InConcat(pages, r);
    if forall i :: 0 <= i < n ==> r !in pages[i] {
      StillBelow(tables, limit, pages, n, r);
      assert PageAt(tables, limit, pages, n);
    }
  }

  lemma {:induction false} DistinctKeysCutNothing(
      tables: seq<set<FeedRow>>, limit: nat, pages: seq<seq<FeedRow>>, i: nat, r: FeedRow)
    requires IsWalk(tables, limit, pages) && i < |pages| && r in tables[i] && DistinctKeys(tables[i])
    ensures !CutOff(limit, pages, i, r)
  {
    assert PageAt(tables, limit, pages, i);
    assert |pages[i]| == limit && limit > 0 ==> pages[i][limit - 1] in pages[i];
  }

  /** With distinct keys, every row that stays throughout a finished walk is returned, and once only. */
  lemma {:induction false} StayingRowReturnedOnce(
      tables: seq<set<FeedRow>>, limit: nat, pages: seq<seq<FeedRow>>, r: FeedRow)
    requires IsWalk(tables, limit, pages) && Finished(limit, pages)
    requires forall i :: 0 <= i < |tables| ==> r in tables[i] && DistinctKeys(tables[i])
    ensures multiset(Concat(pages))[r] == 1
  {
    forall i: nat | i < |pages|
      ensures !CutOff(limit, pages, i, r)
    {
      DistinctKeysCutNothing(tables, limit, pages, i, r);
    }
    WalkMissesExactlyTies(tables, limit, pages, r);
    WalkNoRepeats(tables, limit, pages);
    OnceInDistinct(Concat(pages), r);
  }

  lemma {:induction false} OnceInDistinct(s: seq<FeedRow>, r: FeedRow)
    requires NoRepeats(s) && r in s
    ensures multiset(s)[r] == 1
  {
    var k :| 0 <= k < |s| && s[k] == r;
    assert s == s[..k] + [r] + s[k + 1..];
    assert r !in s[..k] && r !in s[k + 1..];
  }

  // A feed that stands still.

  function Still(rows: set<FeedRow>, n: nat): seq<set<FeedRow>> {
    seq(n, _ => rows)
  }

  lemma {:induction false} ReturnedRowsExist(
      tables: seq<set<FeedRow>>, limit: nat, pages: seq<seq<FeedRow>>, rows: set<FeedRow>)
    requires IsWalk(tables, limit, pages) && tables == Still(rows, |pages|)
    ensures forall r :: r in Concat(pages) ==> r in rows
  {
    forall r | r in Concat(pages)
      ensures r in rows
    {
      InConcat(pages, r);
      var i :| 0 <= i < |pages| && r in pages[i];
      assert PageAt(tables, limit, pages, i);
      assert r in Below(tables[i], CursorAt(pages, i));
    }
  }

  lemma {:induction false} ConcatLength(tables: seq<set<FeedRow>>, limit: nat, pages: seq<seq<FeedRow>>)
    requires IsWalk(tables, limit, pages) && pages != []
    ensures |Concat(pages)| == (|pages| - 1) * limit + |pages[|pages| - 1]|
    decreases |pages|
  {
    if |pages| > 1 {
      WalkPrefix(tables, limit, pages);
      ConcatLength(tables[..|pages| - 1], limit, pages[..|pages| - 1]);
      Distribute(|pages| - 1, 1, limit);
    } else {
      assert Concat(pages[..0]) == [];
    }
  }

  lemma {:induction false} SetOfDistinct(s: seq<FeedRow>, rows: set<FeedRow>)
    requires NoRepeats(s) && forall r :: r in s <==> r in rows
    ensures |s| == |rows|
    decreases |s|
  {
    if s != [] {
      var n := |s| - 1;
      assert s == s[..n] + [s[n]];
      SetOfDistinct(s[..n], rows - {s[n]});
    } else {
      assert rows == {};
    }
  }

  /**
   A finished walk over a feed at rest with distinct keys is the whole feed, newest first, each row once,
   in one request more than the feed has full pages.
   */
  lemma {:induction false} StillWalkIsExact(rows: set<FeedRow>, limit: nat, pages: seq<seq<FeedRow>>)
    requires IsWalk(Still(rows, |pages|), limit, pages) && Finished(limit, pages) && DistinctKeys(rows)
    ensures StrictlyDescending(Concat(pages))
    ensures forall r :: r in Concat(pages) <==> r in rows
    ensures |Concat(pages)| == |rows|
    ensures |pages| == |rows| / limit + 1
  {
    var tables := Still(rows, |pages|);
    WalkStrictlyDescends(tables, limit, pages);
    WalkNoRepeats(tables, limit, pages);
    ReturnedRowsExist(tables, limit, pages, rows);
    forall r | r in rows
      ensures r in Concat(pages)
    {
      StayingRowReturnedOnce(tables, limit, pages, r);
    }
    SetOfDistinct(Concat(pages), rows);
    ConcatLength(tables, limit, pages);
    QuotientUnique(|rows|, limit, |pages| - 1, |pages[|pages| - 1]|);
  }

  /** Every walk over a feed at rest is over after at most that many requests, ties or not. */
  lemma {:induction false} StillWalkEnds(rows: set<FeedRow>, limit: nat, pages: seq<seq<FeedRow>>)
    requires IsWalk(Still(rows, |pages|), limit, pages)
    ensures |pages| <= |rows| / limit + 1
  {
    if pages != [] {
      var tables := Still(rows, |pages|);
      var got := set r | r in Concat(pages);
      ReturnedRowsExist(tables, limit, pages, rows);
      WalkNoRepeats(tables, limit, pages);
      SetOfDistinct(Concat(pages), got);
      SubsetSize(got, rows);
      ConcatLength(tables, limit, pages);
      QuotientBounds(|rows|, limit, |pages| - 1);
    }
  }

  lemma {:induction false} SubsetSize(a: set<FeedRow>, b: set<FeedRow>)
    requires a <= b
    ensures |a| <= |b|
  {
    assert b == a + (b - a);
  }
}
