/** The keyset query behind a feed page: newest first, below the cursor, at most `limit` rows. */
module PageQuery {
  import opened Results
  import opened TextOrder
  import opened PageCursor
  import opened PostStore

  /** The columns that the query returns. */
  datatype FeedRow = FeedRow(uri: string, cid: string, indexedAt: string)

  function KeyOf(r: FeedRow): Key {
    Key(r.indexedAt, r.cid)
  }

  function FeedRows(t: Table, feed: string): set<FeedRow> {
    set u | u in t && t[u].feed == feed :: FeedRow(u, t[u].cid, t[u].indexedAt)
  }

  /** `a` is older than `b`: by stamp, then by cid. */
  predicate Older(a: Key, b: Key) {
    Less(a.indexedAt, b.indexedAt) || (a.indexedAt == b.indexedAt && Less(a.cid, b.cid))
  }

  lemma {:induction false} OlderIrreflexive(a: Key)
    ensures !Older(a, a)
  {
    LessIrreflexive(a.indexedAt);
    LessIrreflexive(a.cid);
  }

  lemma {:induction false} OlderTransitive(a: Key, b: Key, c: Key)
    requires Older(a, b) && Older(b, c)
    ensures Older(a, c)
  {
    if Less(a.indexedAt, b.indexedAt) && Less(b.indexedAt, c.indexedAt) {
      LessTransitive(a.indexedAt, b.indexedAt, c.indexedAt);
    } else if a.indexedAt == b.indexedAt == c.indexedAt {
      LessTransitive(a.cid, b.cid, c.cid);
    }
  }

  lemma {:induction false} OlderConnected(a: Key, b: Key)
    ensures a == b || Older(a, b) || Older(b, a)
  {
    LessConnected(a.indexedAt, b.indexedAt);
    LessConnected(a.cid, b.cid);
  }

  /** Not older, then older: older. */
  lemma {:induction false} OlderThanNewer(a: Key, b: Key, c: Key)
    requires Older(a, b) && !Older(c, b)
    ensures Older(a, c)
  {
    OlderConnected(b, c);
    if Older(b, c) {
      OlderTransitive(a, b, c);
    }
  }

  /** The rows that the WHERE clause selects; without a cursor, all of them. */
  function Below(rows: set<FeedRow>, cursor: Option<Key>): set<FeedRow> {
    set r | r in rows && (cursor.None? || Older(KeyOf(r), cursor.value))
  }

  predicate NewestFirst(page: seq<FeedRow>) {
    forall i, j :: 0 <= i < j < |page| ==> !Older(KeyOf(page[i]), KeyOf(page[j]))
  }

  predicate NoRepeats(page: seq<FeedRow>) {
    forall i, j :: 0 <= i < j < |page| ==> page[i] != page[j]
  }

  /**
   A result the database may return: rows with equal keys come in any order, and any of them may be the
   ones that LIMIT cuts off.
   */
  ghost predicate IsPage(rows: set<FeedRow>, cursor: Option<Key>, limit: nat, page: seq<FeedRow>) {
    && |page| <= limit
    && NoRepeats(page) && NewestFirst(page)
    && (forall r :: r in page ==> r in Below(rows, cursor))
    && (forall r :: r in Below(rows, cursor) && r !in page ==>
          |page| == limit && forall p :: p in page ==> !Older(KeyOf(p), KeyOf(r)))
  }

  /** All rows of a set, newest first: one outcome of ORDER BY. */
  ghost predicate IsOrdering(rows: set<FeedRow>, full: seq<FeedRow>) {
    NoRepeats(full) && NewestFirst(full) && forall r :: r in full <==> r in rows
  }

  predicate IsNewest(m: FeedRow, rows: set<FeedRow>) {
    m in rows && forall r :: r in rows ==> !Older(KeyOf(m), KeyOf(r))
  }

  lemma {:induction false} NewestExists(rows: set<FeedRow>)
    requires rows != {}
    ensures exists m :: IsNewest(m, rows)
    decreases |rows|
  {
    var x :| x in rows;
    if rows - {x} == {} {
      assert rows == {x};
      OlderIrreflexive(KeyOf(x));
      assert IsNewest(x, rows);
    } else {
      NewestExists(rows - {x});
      var y :| IsNewest(y, rows - {x});
      var m := if Older(KeyOf(y), KeyOf(x)) then x else y;
      OlderIrreflexive(KeyOf(m));
      forall r | r in rows
        ensures !Older(KeyOf(m), KeyOf(r))
      {
        if m == x && r != x && Older(KeyOf(x), KeyOf(r)) {
          OlderTransitive(KeyOf(y), KeyOf(x), KeyOf(r));
        }
      }
      assert IsNewest(m, rows);
    }
  }

  lemma {:induction false} OrderingExists(rows: set<FeedRow>)
    ensures exists full :: IsOrdering(rows, full)
    decreases |rows|
  {
    if rows == {} {
      assert IsOrdering(rows, []);
    } else {
      NewestExists(rows);
      var m :| IsNewest(m, rows);
      OrderingExists(rows - {m});
      var rest :| IsOrdering(rows - {m}, rest);
      assert forall k :: 0 <= k < |rest| ==> rest[k] in rest;
      assert IsOrdering(rows, [m] + rest);
    }
  }

  /** The page characterisation is ORDER BY and LIMIT: a page is the start of some ordering of the selection. */
  lemma {:induction false} PageIsStartOfOrdering(
      rows: set<FeedRow>, cursor: Option<Key>, limit: nat, page: seq<FeedRow>)
    ensures IsPage(rows, cursor, limit, page)
       <==> exists full :: IsOrdering(Below(rows, cursor), full)
                        && page == full[..if limit < |full| then limit else |full|]
  {
    var sel := Below(rows, cursor);
    if IsPage(rows, cursor, limit, page) {
      var cut := sel - set r | r in page;
      OrderingExists(cut);
      var rest :| IsOrdering(cut, rest);
      var full := page + rest;
      forall i, j | 0 <= i < j < |full|
        ensures full[i] != full[j] && !Older(KeyOf(full[i]), KeyOf(full[j]))
      {
        if i < |page| <= j {
          assert full[i] in page && full[j] in rest;
        } else if |page| <= i {
          assert full[i] == rest[i - |page|] && full[j] == rest[j - |page|];
        }
      }
      forall r
        ensures r in full <==> r in sel
      {
        assert r in full <==> r in page || r in rest;
      }
      assert rest != [] ==> rest[0] in cut;
      assert IsOrdering(sel, full) && page == full[..if limit < |full| then limit else |full|];
    }
    if full :| IsOrdering(sel, full) && page == full[..if limit < |full| then limit else |full|] {
      StartOfOrderingIsPage(rows, cursor, limit, full);
    }
  }

  lemma {:induction false} StartOfOrderingIsPage(
      rows: set<FeedRow>, cursor: Option<Key>, limit: nat, full: seq<FeedRow>)
    requires IsOrdering(Below(rows, cursor), full)
    ensures IsPage(rows, cursor, limit, full[..if limit < |full| then limit else |full|])
  {
    var n := if limit < |full| then limit else |full|;
    var page := full[..n];
    assert forall r :: r in page ==> r in full;
    forall r | r in Below(rows, cursor) && r !in page
      ensures |page| == limit && forall p :: p in page ==> !Older(KeyOf(p), KeyOf(r))
    {
      var j :| 0 <= j < |full| && full[j] == r;
      forall p | p in page
        ensures !Older(KeyOf(p), KeyOf(r))
      {
        var i :| 0 <= i < |page| && page[i] == p;
        assert full[i] == p;
      }
    }
  }

  /** Runs the query. Among the newest rows left, any may come next. */
  method QueryPage(rows: set<FeedRow>, cursor: Option<Key>, limit: nat) returns (page: seq<FeedRow>)
    ensures IsPage(rows, cursor, limit, page)
  {
    var rest := Below(rows, cursor);
    page := [];
    while |page| < limit && rest != {}
      invariant |page| <= limit
      invariant forall r :: r in Below(rows, cursor) <==> r in page || r in rest
      invariant forall r :: r in page ==> r !in rest
      invariant NoRepeats(page) && NewestFirst(page)
      invariant forall p, r :: p in page && r in rest ==> !Older(KeyOf(p), KeyOf(r))
    {
      NewestExists(rest);
      var m :| m in rest && IsNewest(m, rest);
      page := page + [m];
      rest := rest - {m};
    }
  }
}
