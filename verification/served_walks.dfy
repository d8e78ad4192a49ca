/** Walking a feed through the service: every cursor travels as text between two requests. */
module ServedWalks {
  import opened Results
  import opened TextOrder
  import opened Timestamps
  import opened PageCursor
  import opened PostStore
  import opened PageQuery
  import opened Walks
  import opened FeedService
  import opened TableRows

  /** Rows as the service writes them: RFC 3339 stamps and non-empty cids. */
  predicate WellStamped(t: Table) {
    forall u :: u in t ==> IsDateTime(t[u].indexedAt) && t[u].cid != ""
  }

  /** The store keeps rows well stamped, if its clock prints RFC 3339 and inserts carry cids. */
  lemma {:induction false} RunKeepsWellStamped(env: Environment, n: nat, t: Table, calls: seq<Call>)
    requires WellStamped(t) && (forall k :: IsDateTime(env.clock(k)))
    requires forall i :: 0 <= i < |calls| && calls[i].Insert? ==> calls[i].cid != ""
    ensures WellStamped(Run(env, n, t, calls))
  {
    var t' := Run(env, n, t, calls);
    forall u | u in t'
      ensures IsDateTime(t'[u].indexedAt) && t'[u].cid != ""
    {
      RowsComeFromInserts(env, n, t, calls, u);
    }
  }

  /** The cursor of a full page comes back as the key of its last row. */
  lemma {:induction false} ServedCursorIsAccepted(
      t: Table, feed: string, cursor: Option<Key>, limit: nat, page: seq<FeedRow>)
    requires WellStamped(t) && limit > 0
    requires IsPage(FeedRows(t, feed), cursor, limit, page) && |page| == limit
    ensures
      var next := ResponseFor(page, limit).cursor;
      next.Some? && RequestKey(next.value) == Ok(Some(KeyOf(page[limit - 1])))
  {
    var last := page[limit - 1];
    assert last in page;
    assert last in Below(FeedRows(t, feed), cursor);
    DateTimeCarriesInCursor(last.indexedAt);
    CursorRoundTrip(KeyOf(last));
    assert BuildCursor(KeyOf(last)) != "";
  }

  /** The `i`-th request of a walk, answered on the table of its time. */
  ghost predicate AnsweredAt(
      feed: string, limit: nat, tables: seq<Table>, cursors: seq<string>, pages: seq<seq<FeedRow>>, i: nat)
    requires i < |pages| == |tables| == |cursors|
  {
    RequestKey(cursors[i]).Ok? && IsPage(FeedRows(tables[i], feed), RequestKey(cursors[i]).value, limit, pages[i])
  }

  /** The `i`-th request carries no cursor at first, and later the one of the answer before. */
  predicate LinkedAt(limit: nat, cursors: seq<string>, pages: seq<seq<FeedRow>>, i: nat)
    requires i < |pages| == |cursors|
  {
    if i == 0 then cursors[i] == "" else ResponseFor(pages[i - 1], limit).cursor == Some(cursors[i])
  }

  /** A client follows the cursors of the answers, from none on. */
  ghost predicate ServedWalk(
      feed: string, limit: nat, tables: seq<Table>, cursors: seq<string>, pages: seq<seq<FeedRow>>)
  {
    && limit > 0 && |pages| == |tables| == |cursors|
    && (forall i :: 0 <= i < |pages| ==> AnsweredAt(feed, limit, tables, cursors, pages, i))
    && (forall i :: 0 <= i < |pages| ==> LinkedAt(limit, cursors, pages, i))
  }

  function RowsOver(tables: seq<Table>, feed: string): seq<set<FeedRow>> {
    seq(|tables|, i requires 0 <= i < |tables| => FeedRows(tables[i], feed))
  }

  lemma {:induction false} ServedPageIsFull(
      feed: string, limit: nat, tables: seq<Table>, cursors: seq<string>, pages: seq<seq<FeedRow>>, i: nat)
    requires ServedWalk(feed, limit, tables, cursors, pages) && 0 < i < |pages|
    ensures |pages[i - 1]| == limit
  {
    assert LinkedAt(limit, cursors, pages, i);
    assert AnsweredAt(feed, limit, tables, cursors, pages, i - 1);
  }

  lemma {:induction false} LaterKey(
      t: Table, feed: string, before: string, limit: nat, page: seq<FeedRow>, cursor: string)
    requires WellStamped(t) && limit > 0 && |page| == limit
    requires RequestKey(before).Ok? && IsPage(FeedRows(t, feed), RequestKey(before).value, limit, page)
    requires ResponseFor(page, limit).cursor == Some(cursor)
    ensures RequestKey(cursor) == Ok(Some(KeyOf(page[|page| - 1])))
  {
    ServedCursorIsAccepted(t, feed, RequestKey(before).value, limit, page);
  }

  lemma {:induction false} ServedKey(
      feed: string, limit: nat, tables: seq<Table>, cursors: seq<string>, pages: seq<seq<FeedRow>>, i: nat)
    requires ServedWalk(feed, limit, tables, cursors, pages) && i < |pages|
    requires forall k :: 0 <= k < |tables| ==> WellStamped(tables[k])
    ensures RequestKey(cursors[i]) == Ok(CursorAt(pages, i))
  {
    assert LinkedAt(limit, cursors, pages, i);
    if i > 0 {
      ServedPageIsFull(feed, limit, tables, cursors, pages, i);
      assert AnsweredAt(feed, limit, tables, cursors, pages, i - 1);
      LaterKey(tables[i - 1], feed, cursors[i - 1], limit, pages[i - 1], cursors[i]);
    }
  }

  /** On well-stamped tables the text cursors lose nothing: the served walk is the walk over keys. */
  lemma {:induction false} ServedWalkIsKeyWalk(
      feed: string, limit: nat, tables: seq<Table>, cursors: seq<string>, pages: seq<seq<FeedRow>>)
    requires ServedWalk(feed, limit, tables, cursors, pages)
    requires forall k :: 0 <= k < |tables| ==> WellStamped(tables[k])
    ensures IsWalk(RowsOver(tables, feed), limit, pages)
  {
    var rows := RowsOver(tables, feed);
    forall i | 0 <= i < |pages|
      ensures PageAt(rows, limit, pages, i)
    {
      assert AnsweredAt(feed, limit, tables, cursors, pages, i);
      ServedKey(feed, limit, tables, cursors, pages, i);
    }
    forall i | 0 <= i < |pages| - 1
      ensures |pages[i]| == limit
    {
      ServedPageIsFull(feed, limit, tables, cursors, pages, i + 1);
    }
  }

  /** The URIs that the responses to a walk list, one response after the other. */
  function Listed(pages: seq<seq<FeedRow>>, limit: nat): seq<string> {
    if pages == [] then []
    else Listed(pages[..|pages| - 1], limit) + ResponseFor(pages[|pages| - 1], limit).feed
  }

  lemma {:induction false} ListedAreRows(pages: seq<seq<FeedRow>>, limit: nat)
    ensures |Listed(pages, limit)| == |Concat(pages)|
    ensures forall i :: 0 <= i < |Concat(pages)| ==> Listed(pages, limit)[i] == Concat(pages)[i].uri
  {
    if pages != [] {
      ListedAreRows(pages[..|pages| - 1], limit);
    }
  }

  /** The key of a URI's row. */
  function KeyIn(t: Table, u: string): Key
    requires u in t
  {
    Key(t[u].indexedAt, t[u].cid)
  }

  /** The URIs are those of the feed in the table, each once, newest first. */
  ghost predicate ListsFeed(t: Table, feed: string, uris: seq<string>) {
    && (forall u :: u in uris <==> u in t && t[u].feed == feed)
    && forall i, j :: 0 <= i < j < |uris| ==>
         uris[i] in t && uris[j] in t && Older(KeyIn(t, uris[j]), KeyIn(t, uris[i]))
  }

  lemma {:induction false} RowsListFeed(t: Table, feed: string, rows: seq<FeedRow>, uris: seq<string>)
    requires |uris| == |rows| && forall i :: 0 <= i < |rows| ==> uris[i] == rows[i].uri
    requires StrictlyDescending(rows) && forall r :: r in rows <==> r in FeedRows(t, feed)
    ensures ListsFeed(t, feed, uris)
  {
    assert forall i :: 0 <= i < |rows| ==> rows[i] in rows && rows[i] in FeedRows(t, feed);
    forall u | u in t && t[u].feed == feed
      ensures u in uris
    {
      var r := FeedRow(u, t[u].cid, t[u].indexedAt);
      assert r in FeedRows(t, feed) && r in rows;
      var i :| 0 <= i < |rows| && rows[i] == r;
      assert uris[i] == u;
    }
    forall i | 0 <= i < |rows|
      ensures uris[i] in t && t[uris[i]].feed == feed && KeyOf(rows[i]) == KeyIn(t, uris[i])
    {
      assert rows[i] in FeedRows(t, feed);
    }
  }

  /**
   Following cursors until none is given, over a table at rest whose feed has distinct keys, returns the
   whole feed newest first, each row once, in one request more than it has full pages.
   */
  lemma {:induction false} ServedStillWalkIsExact(
      t: Table, feed: string, limitStr: string, tables: seq<Table>, cursors: seq<string>, pages: seq<seq<FeedRow>>)
    requires ServedWalk(feed, PageLimit(limitStr), tables, cursors, pages)
    requires pages != [] && forall i :: 0 <= i < |tables| ==> tables[i] == t
    requires WellStamped(t) && DistinctKeys(FeedRows(t, feed))
    requires ResponseFor(pages[|pages| - 1], PageLimit(limitStr)).cursor.None?
    ensures StrictlyDescending(Concat(pages))
    ensures forall r :: r in Concat(pages) <==> r in FeedRows(t, feed)
    ensures |Concat(pages)| == |FeedRows(t, feed)|
    ensures |pages| == |FeedRows(t, feed)| / PageLimit(limitStr) + 1
    ensures ListsFeed(t, feed, Listed(pages, PageLimit(limitStr)))
  {
    var limit, rows := PageLimit(limitStr), FeedRows(t, feed);
    ServedWalkIsKeyWalk(feed, limit, tables, cursors, pages);
    assert RowsOver(tables, feed) == Still(rows, |pages|);
    assert AnsweredAt(feed, limit, tables, cursors, pages, |pages| - 1);
    StillWalkIsExact(rows, limit, pages);
    ListedAreRows(pages, limit);
    RowsListFeed(t, feed, Concat(pages), Listed(pages, limit));
  }

  /** With four-digit years the page order is time order, newest first; cids decide within a second. */
  lemma {:induction false} OlderIsEarlier(a: Utc, c: string, b: Utc, d: string)
    requires Valid(a) && Valid(b)
    ensures Older(Key(Format(a), c), Key(Format(b), d))
       <==> Instant(a) < Instant(b) || (Instant(a) == Instant(b) && Less(c, d))
  {
    TextOrderIsTimeOrder(a, b);
  }
}
