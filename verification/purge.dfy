/** Finding the posts of a feed that its current configuration no longer wants. */
module Purge {
  import opened Results
  import opened Pipelines
  import opened PageCursor
  import opened PostStore
  import opened PageQuery
  import opened Walks
  import opened Ingest

  /** What the public API shows for a URI. */
  datatype View = View(uri: string, record: Record)

  type Api = map<string, Record>

  datatype StalePost = StalePost(uri: string, text: string)

  const PAGE_SIZE := 100
  const BATCH_SIZE := 25

  /** One lookup decides a row: missing, unreadable, no longer wanted, or fine. */
  function Verdict(p: Pipeline, api: Api, row: FeedRow): seq<StalePost> {
    if row.uri !in api then [StalePost(row.uri, "[deleted from Bluesky]")]
    else
      match api[row.uri]
      case OtherRecord => [StalePost(row.uri, "[unreadable record]")]
      case PostRecord(post) => if p.Accepts(post) then [] else [StalePost(row.uri, post.text)]
  }

  /** The reference: one lookup for each of the first `n` rows, in feed order. */
  function StaleAmong(p: Pipeline, api: Api, rows: seq<FeedRow>, n: nat): seq<StalePost>
    requires n <= |rows|
  {
    if n == 0 then [] else StaleAmong(p, api, rows, n - 1) + Verdict(p, api, rows[n - 1])
  }

  function StaleIn(p: Pipeline, api: Api, rows: seq<FeedRow>): seq<StalePost> {
    StaleAmong(p, api, rows, |rows|)
  }

  lemma {:induction false} StaleAmongFirst(p: Pipeline, api: Api, a: seq<FeedRow>, b: seq<FeedRow>, n: nat)
    requires n <= |a|
    ensures StaleAmong(p, api, a + b, n) == StaleAmong(p, api, a, n)
  {
    if n > 0 {
      StaleAmongFirst(p, api, a, b, n - 1);
    }
  }

  lemma {:induction false} StaleAmongBoth(p: Pipeline, api: Api, a: seq<FeedRow>, b: seq<FeedRow>, n: nat)
    requires n <= |b|
    ensures StaleAmong(p, api, a + b, |a| + n) == StaleIn(p, api, a) + StaleAmong(p, api, b, n)
  {
    if n == 0 {
      StaleAmongFirst(p, api, a, b, |a|);
    } else {
      StaleAmongBoth(p, api, a, b, n - 1);
      assert (a + b)[|a| + n - 1] == b[n - 1];
    }
  }

  lemma {:induction false} StaleInAppend(p: Pipeline, api: Api, a: seq<FeedRow>, b: seq<FeedRow>)
    ensures StaleIn(p, api, a + b) == StaleIn(p, api, a) + StaleIn(p, api, b)
  {
    StaleAmongBoth(p, api, a, b, |b|);
  }

  /** The API's answer to one batch: the posts it knows, in no promised order. */
  predicate AnswersBatch(api: Api, uris: seq<string>, posts: seq<View>) {
    && (forall v :: v in posts ==> v.uri in uris && v.uri in api && v.record == api[v.uri])
    && (forall u :: u in uris && u in api ==> View(u, api[u]) in posts)
  }

  method GetPosts(api: Api, uris: seq<string>) returns (posts: seq<View>)
    ensures AnswersBatch(api, uris, posts)
  {
    posts := [];
    for i := 0 to |uris|
      invariant AnswersBatch(api, uris[..i], posts)
    {
      assert uris[..i + 1] == uris[..i] + [uris[i]];
      if uris[i] in api {
        posts := posts + [View(uris[i], api[uris[i]])];
      }
    }
    assert uris[..|uris|] == uris;
  }

  /** Which of the calls to the database and to the API succeed, by their position in the run. */
  datatype Outside = Outside(queryOk: nat -> bool, fetchOk: nat -> bool)

  datatype PurgeError = QueryFailed | FetchFailed

  /** One batch: collect the URIs, fetch them, index the answer, and judge the rows one by one. */
  method JudgeBatch(p: Pipeline, api: Api, batch: seq<FeedRow>) returns (stale: seq<StalePost>)
    ensures stale == StaleIn(p, api, batch)
  {
    var uris: seq<string> := [];
    for j := 0 to |batch|
      invariant |uris| == j && forall k :: 0 <= k < j ==> uris[k] == batch[k].uri
    {
      uris := uris + [batch[j].uri];
    }
    var posts := GetPosts(api, uris);
    var fetched: map<string, Record> := map[];
    for j := 0 to |posts|
      invariant forall u :: u in fetched ==> u in api && fetched[u] == api[u]
      invariant forall k :: 0 <= k < j ==> posts[k].uri in fetched
    {
      assert posts[j] in posts;
      fetched := fetched[posts[j].uri := posts[j].record];
    }
    stale := [];
    for j := 0 to |batch|
      invariant stale == StaleAmong(p, api, batch, j)
    {
      var row := batch[j];
      assert row.uri in fetched <==> row.uri in api by {
        assert uris[j] in uris;
        if row.uri in api {
          assert View(row.uri, api[row.uri]) in posts;
        }
      }
      if row.uri !in fetched {
        stale := stale + [StalePost(row.uri, "[deleted from Bluesky]")];
        continue;
      }
      if !fetched[row.uri].PostRecord? {
        stale := stale + [StalePost(row.uri, "[unreadable record]")];
        continue;
      }
      var post := fetched[row.uri].post;
      var wanted := p.MatchesPost(post.text, post.langs, post.hasEmbed);
      if !wanted {
        stale := stale + [StalePost(row.uri, post.text)];
      }
    }
  }

  lemma {:induction false} NextSlice(p: Pipeline, api: Api, rows: seq<FeedRow>, i: nat, end: nat)
    requires i <= end <= |rows|
    ensures StaleIn(p, api, rows[..end]) == StaleIn(p, api, rows[..i]) + StaleIn(p, api, rows[i..end])
  {
    StaleInAppend(p, api, rows[..i], rows[i..end]);
    assert rows[..end] == rows[..i] + rows[i..end];
  }

  /** Calls `from` to `to` all succeed. */
  ghost predicate AllWork(ok: nat -> bool, from: nat, to: nat) {
    forall k :: from <= k < to ==> ok(k)
  }

  /** How many batches of 25 hold that many rows. */
  function BatchesOf(rows: nat): nat {
    (rows + 24) / 25
  }

  /** How many batches the pages are cut into. */
  function BatchesIn(pages: seq<seq<FeedRow>>): nat {
    if pages == [] then 0 else BatchesIn(pages[..|pages| - 1]) + BatchesOf(|pages[|pages| - 1]|)
  }

  /** One page, cut into batches. */
  method JudgePage(p: Pipeline, api: Api, rows: seq<FeedRow>, outside: Outside, fetches: nat)
    returns (r: Result<seq<StalePost>, PurgeError>, made: nat)
    ensures r.Ok? ==> r.value == StaleIn(p, api, rows)
    ensures r.Ok? ==> made == fetches + BatchesOf(|rows|) && AllWork(outside.fetchOk, fetches, made)
    ensures r.Err? ==> r.error == FetchFailed && exists k :: fetches <= k < made && !outside.fetchOk(k)
    ensures fetches <= made
  {
    var stale: seq<StalePost> := [];
    made := fetches;
    var i := 0;
    while i < |rows|
      invariant 0 <= i <= |rows| && fetches <= made
      invariant stale == StaleIn(p, api, rows[..i])
      invariant made == fetches + BatchesOf(i) && AllWork(outside.fetchOk, fetches, made)
      invariant i < |rows| ==> i % BATCH_SIZE == 0
      decreases |rows| - i
    {
      var end := if i + BATCH_SIZE < |rows| then i + BATCH_SIZE else |rows|;
      made := made + 1;
      if !outside.fetchOk(made - 1) {
        return Err(FetchFailed), made;
      }
      var found := JudgeBatch(p, api, rows[i..end]);
      NextSlice(p, api, rows, i, end);
      stale := stale + found;
      i := end;
    }
    assert rows[..|rows|] == rows;
    return Ok(stale), made;
  }

  lemma {:induction false} StillWalkExtends(
      rows: set<FeedRow>, limit: nat, pages: seq<seq<FeedRow>>, page: seq<FeedRow>)
    requires IsWalk(Still(rows, |pages|), limit, pages) && IsPage(rows, CursorAt(pages, |pages|), limit, page)
    requires pages != [] ==> |pages[|pages| - 1]| == limit
    ensures IsWalk(Still(rows, |pages| + 1), limit, pages + [page])
  {
    var all, tables := pages + [page], Still(rows, |pages| + 1);
    forall i | 0 <= i < |all|
      ensures PageAt(tables, limit, all, i)
    {
      assert CursorAt(all, i) == CursorAt(pages, i);
      if i < |pages| {
        assert PageAt(Still(rows, |pages|), limit, pages, i);
      }
    }
  }

  /** A further page: the walk goes on, its verdicts are appended, and it cannot go on forever. */
  lemma {:induction false} NextPageJudged(
      p: Pipeline, api: Api, rows: set<FeedRow>, limit: nat, pages: seq<seq<FeedRow>>, page: seq<FeedRow>)
    requires IsWalk(Still(rows, |pages|), limit, pages) && IsPage(rows, CursorAt(pages, |pages|), limit, page)
    requires pages != [] ==> |pages[|pages| - 1]| == limit
    ensures IsWalk(Still(rows, |pages| + 1), limit, pages + [page])
    ensures StaleIn(p, api, Concat(pages + [page])) == StaleIn(p, api, Concat(pages)) + StaleIn(p, api, page)
    ensures |pages| < |rows| / limit + 1
    ensures BatchesIn(pages + [page]) == BatchesIn(pages) + BatchesOf(|page|)
  {
    StillWalkExtends(rows, limit, pages, page);
    StillWalkEnds(rows, limit, pages + [page]);
    assert (pages + [page])[..|pages|] == pages;
    StaleInAppend(p, api, Concat(pages), page);
  }

  /**
   Pages through the feed by key until a page comes short, judging every row. Ends on every feed at rest,
   ties or not; `pages` is the walk it made.
   */
  method FindStalePosts(t: Table, feed: string, p: Pipeline, api: Api, outside: Outside)
    returns (r: Result<seq<StalePost>, PurgeError>, ghost pages: seq<seq<FeedRow>>)
    ensures r.Ok? ==>
      && IsWalk(Still(FeedRows(t, feed), |pages|), PAGE_SIZE, pages) && Finished(PAGE_SIZE, pages)
      && r.value == StaleIn(p, api, Concat(pages))
    ensures r.Ok? ==> AllWork(outside.queryOk, 0, |pages|) && AllWork(outside.fetchOk, 0, BatchesIn(pages))
    ensures r == Err(QueryFailed) ==> !outside.queryOk(|pages|)
    ensures r == Err(FetchFailed) ==> exists k :: k >= BatchesIn(pages) && !outside.fetchOk(k)
  {
    var stale: seq<StalePost> := [];
    var cursor: Option<Key> := None;
    var queries, fetches := 0, 0;
    ghost var rowsAtRest := FeedRows(t, feed);
    pages := [];
    while true
      invariant IsWalk(Still(rowsAtRest, |pages|), PAGE_SIZE, pages)
      invariant pages != [] ==> |pages[|pages| - 1]| == PAGE_SIZE
      invariant cursor == CursorAt(pages, |pages|)
      invariant stale == StaleIn(p, api, Concat(pages))
      invariant queries == |pages| && AllWork(outside.queryOk, 0, queries)
      invariant fetches == BatchesIn(pages) && AllWork(outside.fetchOk, 0, fetches)
      decreases |rowsAtRest| / PAGE_SIZE + 1 - |pages|
    {
      queries := queries + 1;
      if !outside.queryOk(queries - 1) {
        return Err(QueryFailed), pages;
      }
      var rows := QueryPage(FeedRows(t, feed), cursor, PAGE_SIZE);
      NextPageJudged(p, api, rowsAtRest, PAGE_SIZE, pages, rows);
      var found, made := JudgePage(p, api, rows, outside, fetches);
      if found.Err? {
        return Err(FetchFailed), pages;
      }
      fetches := made;
      pages := pages + [rows];
      stale := stale + found.value;
      if |rows| < PAGE_SIZE {
        return Ok(stale), pages;
      }
      var last := rows[|rows| - 1];
      cursor := Some(KeyOf(last));
    }
  }
}
