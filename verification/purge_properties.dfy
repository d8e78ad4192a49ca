/** What the purge reports, in terms of the configuration, and what it spares. */
module PurgeProperties {
  import opened Pipelines
  import opened PostStore
  import opened PageQuery
  import opened Walks
  import opened Ingest
  import opened TableRows
  import opened Purge

  lemma {:induction false} ReportedAmong(p: Pipeline, api: Api, rows: seq<FeedRow>, n: nat, sp: StalePost)
    requires n <= |rows|
    ensures sp in StaleAmong(p, api, rows, n) <==> exists i :: 0 <= i < n && sp in Verdict(p, api, rows[i])
  {
    if n > 0 {
      ReportedAmong(p, api, rows, n - 1, sp);
    }
  }

  /** The post is gone, unreadable, or not wanted by the configuration. */
  predicate Unwanted(c: Config, lower: CaseMap, api: Api, uri: string) {
    uri !in api || api[uri].OtherRecord? || !Wants(c, lower, api[uri].post)
  }

  lemma {:induction false} VerdictByConfig(p: Pipeline, c: Config, lower: CaseMap, api: Api, row: FeedRow)
    requires Built(p, c, lower)
    ensures (Verdict(p, api, row) != [] <==> Unwanted(c, lower, api, row.uri))
    ensures forall sp :: sp in Verdict(p, api, row) ==> sp.uri == row.uri
  {
    if row.uri in api && api[row.uri].PostRecord? {
      BuiltDecidesAsConfigured(p, c, lower, api[row.uri].post);
    }
  }

  /** The text a report shows for a URI. */
  function Shown(api: Api, uri: string): string {
    if uri !in api then "[deleted from Bluesky]"
    else if api[uri].OtherRecord? then "[unreadable record]"
    else api[uri].post.text
  }

  /** The unwanted ones of the first `n` rows, in order, as the configuration decides. */
  function UnwantedAmong(c: Config, lower: CaseMap, api: Api, rows: seq<FeedRow>, n: nat): seq<StalePost>
    requires n <= |rows|
  {
    if n == 0 then []
    else
      var uri := rows[n - 1].uri;
      UnwantedAmong(c, lower, api, rows, n - 1)
      + (if Unwanted(c, lower, api, uri) then [StalePost(uri, Shown(api, uri))] else [])
  }

  lemma {:induction false} ReportIsUnwanted(
      p: Pipeline, c: Config, lower: CaseMap, api: Api, rows: seq<FeedRow>, n: nat)
    requires Built(p, c, lower) && n <= |rows|
    ensures StaleAmong(p, api, rows, n) == UnwantedAmong(c, lower, api, rows, n)
  {
    if n > 0 {
      ReportIsUnwanted(p, c, lower, api, rows, n - 1);
      VerdictByConfig(p, c, lower, api, rows[n - 1]);
    }
  }

  /**
   A completed purge of a feed with distinct keys reports exactly the URIs of the feed that are unwanted, one
   report for each unwanted row, in feed order.
   */
  lemma {:induction false} PurgeReportsExactlyUnwanted(
      p: Pipeline, c: Config, lower: CaseMap, api: Api, t: Table, feed: string, pages: seq<seq<FeedRow>>, u: string)
    requires Built(p, c, lower) && DistinctKeys(FeedRows(t, feed))
    requires IsWalk(Still(FeedRows(t, feed), |pages|), PAGE_SIZE, pages) && Finished(PAGE_SIZE, pages)
    ensures (exists sp :: sp in StaleIn(p, api, Concat(pages)) && sp.uri == u)
       <==> u in t && t[u].feed == feed && Unwanted(c, lower, api, u)
    ensures
      var all := Concat(pages);
      && StrictlyDescending(all) && (forall row :: row in all <==> row in FeedRows(t, feed))
      && StaleIn(p, api, all) == UnwantedAmong(c, lower, api, all, |all|)
    ensures |pages| == |FeedRows(t, feed)| / 100 + 1
  {
    var all, rows := Concat(pages), FeedRows(t, feed);
    assert u in t && t[u].feed == feed ==> FeedRow(u, t[u].cid, t[u].indexedAt) in rows;
    StillWalkIsExact(rows, PAGE_SIZE, pages);
    ReportIsUnwanted(p, c, lower, api, all, |all|);
    if sp :| sp in StaleIn(p, api, all) && sp.uri == u {
      ReportedAmong(p, api, all, |all|, sp);
      var i :| 0 <= i < |all| && sp in Verdict(p, api, all[i]);
      VerdictByConfig(p, c, lower, api, all[i]);
      assert all[i] in all;
    }
    if row :| row in rows && row.uri == u && Unwanted(c, lower, api, u) {
      var i :| 0 <= i < |all| && all[i] == row;
      VerdictByConfig(p, c, lower, api, row);
      var sp := Verdict(p, api, row)[0];
      assert sp in Verdict(p, api, all[i]);
      ReportedAmong(p, api, all, |all|, sp);
    }
  }

  /**
   The API still shows the row's post as it was when a commit created it for this feed with the row's cid;
   other posts may have been at the URI before.
   */
  ghost predicate Unchanged(pipelines: seq<Pipeline>, commits: seq<Commit>, api: Api, feed: string, row: FeedRow) {
    forall k, i, post ::
      0 <= k < |commits| && Creates(pipelines, commits[k], i, feed, row.uri, row.cid, post) ==>
        row.uri in api && api[row.uri] == PostRecord(post)
  }

  /** The purge's pipeline and every ingesting pipeline of that name are built from the same configuration. */
  ghost predicate SameConfiguration(pipelines: seq<Pipeline>, p: Pipeline, c: Config, lower: CaseMap) {
    && Built(p, c, lower)
    && forall k :: 0 <= k < |pipelines| && pipelines[k].name == c.name ==> Built(pipelines[k], c, lower)
  }

  /**
   Under an unchanged configuration the purge never reports a post that ingestion put into the feed and
   that is unchanged since, whatever store calls failed, repeated or changed places.
   */
  lemma {:induction false} PurgeSparesIngestedPosts(
      pipelines: seq<Pipeline>, commits: seq<Commit>, env: Environment, n: nat, calls: seq<Call>,
      p: Pipeline, c: Config, lower: CaseMap, api: Api, row: FeedRow)
    requires CallsOf(pipelines, commits, calls)
    requires SameConfiguration(pipelines, p, c, lower)
    requires row in FeedRows(Run(env, n, map[], calls), c.name)
    requires Unchanged(pipelines, commits, api, c.name, row)
    ensures Verdict(p, api, row) == []
  {
    RowsStemFromCreates(pipelines, commits, env, n, calls, row.uri);
    var k: nat, i: nat, post :| k < |commits| && Creates(pipelines, commits[k], i, c.name, row.uri, row.cid, post);
    CreatorAccepts(pipelines, commits[k], i, p, c, lower, row.uri, row.cid, post);
  }

  lemma {:induction false} CreatorAccepts(
      pipelines: seq<Pipeline>, commit: Commit, i: nat, p: Pipeline, c: Config, lower: CaseMap,
      uri: string, cid: string, post: Post)
    requires SameConfiguration(pipelines, p, c, lower) && Creates(pipelines, commit, i, c.name, uri, cid, post)
    ensures p.Accepts(post)
  {
    var k :| 0 <= k < |pipelines| && pipelines[k].name == c.name && pipelines[k].Inserts(commit.repo, post);
    BuiltDecidesAsConfigured(p, c, lower, post);
    BuiltDecidesAsConfigured(pipelines[k], c, lower, post);
  }
}
