/** Whole rows, stamps included: who puts them into the table, how long they stay, what a replay does to them. */
module TableRows {
  import opened Results
  import opened AtUri
  import opened Pipelines
  import opened PostStore
  import opened Ingest
  import opened Entries

  /** Until a delete of its URI, nothing changes a row: not its feed, its cid or its stamp. */
  lemma {:induction false} RowKeptWithoutDelete(env: Environment, n: nat, t: Table, calls: seq<Call>, u: string)
    requires u in t && Delete(u) !in calls
    ensures u in Run(env, n, t, calls) && Run(env, n, t, calls)[u] == t[u]
    decreases |calls|
  {
    if calls != [] {
      var t' := if env.fails(n) then t else Apply(t, calls[0], env.clock(n));
      assert u in t' && t'[u] == t[u] by {
        assert calls[0] in calls;
      }
      RowKeptWithoutDelete(env, n + 1, t', calls[1..], u);
    }
  }

  /** Every row is an old one or was put there by an insert call, with that call's clock reading. */
  lemma {:induction false} RowsComeFromInserts(env: Environment, n: nat, t: Table, calls: seq<Call>, u: string)
    requires u in Run(env, n, t, calls)
    ensures
      var row := Run(env, n, t, calls)[u];
      || (u in t && row == t[u])
      || exists i :: 0 <= i < |calls| && calls[i] == Insert(row.feed, u, row.cid) && row.indexedAt == env.clock(n + i)
    decreases |calls|
  {
    if calls != [] {
      var t' := if env.fails(n) then t else Apply(t, calls[0], env.clock(n));
      RowsComeFromInserts(env, n + 1, t', calls[1..], u);
      var row := Run(env, n, t, calls)[u];
      if u in t' && row == t'[u] {
        if !(u in t && row == t[u]) {
          assert calls[0] == Insert(row.feed, u, row.cid) && row.indexedAt == env.clock(n + 0);
        }
      } else {
        var i :| 0 <= i < |calls[1..]| && calls[1..][i] == Insert(row.feed, u, row.cid)
                 && row.indexedAt == env.clock(n + 1 + i);
        assert calls[i + 1] == Insert(row.feed, u, row.cid) && row.indexedAt == env.clock(n + (i + 1));
      }
    }
  }

  // One feed per URI.

  /** The first pipeline, in order, that takes the post; the number of pipelines when none does. */
  function FirstInserting(pipelines: seq<Pipeline>, n: nat, actor: string, post: Post): (k: nat)
    requires n <= |pipelines|
    ensures k <= n
    ensures k < n ==> pipelines[k].Inserts(actor, post)
    ensures forall i :: 0 <= i < k ==> !pipelines[i].Inserts(actor, post)
  {
    if n == 0 then 0
    else
      var k := FirstInserting(pipelines, n - 1, actor, post);
      if k < n - 1 || pipelines[n - 1].Inserts(actor, post) then k else n
  }

  lemma {:induction false} CreateCallsCause(
      pipelines: seq<Pipeline>, n: nat, actor: string, uri: string, cid: string, post: Post, call: Call)
    requires n <= |pipelines| && call in CreateCalls(pipelines, n, actor, uri, cid, post)
    ensures exists k :: 0 <= k < n && pipelines[k].Inserts(actor, post) && call == Insert(pipelines[k].name, uri, cid)
  {
    if n > 0 && call in CreateCalls(pipelines, n - 1, actor, uri, cid, post) {
      CreateCallsCause(pipelines, n - 1, actor, uri, cid, post, call);
    }
  }

  /** How many of the first `n` pipelines take the post. */
  function Accepting(pipelines: seq<Pipeline>, n: nat, actor: string, post: Post): nat
    requires n <= |pipelines|
  {
    if n == 0 then 0
    else Accepting(pipelines, n - 1, actor, post) + (if pipelines[n - 1].Inserts(actor, post) then 1 else 0)
  }

  /** The first pipeline, in order, that takes the post and whose insert call succeeds, call `n` being the first. */
  function FirstSaved(env: Environment, n: nat, pipelines: seq<Pipeline>, m: nat, actor: string, post: Post): (k: nat)
    requires m <= |pipelines|
    ensures k <= m
    ensures k < m ==> Saves(env, n, pipelines, k, actor, post)
    ensures forall i :: 0 <= i < k ==> !Saves(env, n, pipelines, i, actor, post)
  {
    if m == 0 then 0
    else
      var k := FirstSaved(env, n, pipelines, m - 1, actor, post);
      if k < m - 1 || Saves(env, n, pipelines, m - 1, actor, post) then k else m
  }

  /** Pipeline `i` takes the post and its insert call succeeds. */
  predicate Saves(env: Environment, n: nat, pipelines: seq<Pipeline>, i: nat, actor: string, post: Post)
    requires i < |pipelines|
  {
    pipelines[i].Inserts(actor, post) && !env.fails(n + Accepting(pipelines, i, actor, post))
  }

  /**
   Creating a post gives its URI, if that is free, to the first pipeline in order that takes it and whose insert
   succeeds; a URI that has a row keeps it, and no other URI is touched.
   */
  lemma {:induction false} FirstMatchingPipelineOwnsPost(
      env: Environment, n: nat, t: Table, pipelines: seq<Pipeline>, m: nat, actor: string, uri: string, cid: string,
      post: Post)
    requires m <= |pipelines|
    ensures |CreateCalls(pipelines, m, actor, uri, cid, post)| == Accepting(pipelines, m, actor, post)
    ensures
      var k := FirstSaved(env, n, pipelines, m, actor, post);
      Run(env, n, t, CreateCalls(pipelines, m, actor, uri, cid, post))
      == if uri in t || k == m then t
         else t[uri := Row(pipelines[k].name, cid, env.clock(n + Accepting(pipelines, k, actor, post)))]
  {
    if m > 0 {
      FirstMatchingPipelineOwnsPost(env, n, t, pipelines, m - 1, actor, uri, cid, post);
      var made := CreateCalls(pipelines, m - 1, actor, uri, cid, post);
      if pipelines[m - 1].Inserts(actor, post) {
        RunAppend(env, n, t, made, [Insert(pipelines[m - 1].name, uri, cid)]);
      } else {
        assert made + [] == made;
      }
    }
  }

  /** A delete operation removes the URI if the delete call of one of the pipelines succeeds. */
  lemma {:induction false} DeleteOperationRemoves(env: Environment, n: nat, t: Table, pipelines: nat, uri: string)
    ensures |DeleteCalls(pipelines, uri)| == pipelines
    ensures Run(env, n, t, DeleteCalls(pipelines, uri))
         == if SomeWorks(env, n, pipelines) then t - {uri} else t
  {
    if pipelines > 0 {
      DeleteOperationRemoves(env, n, t, pipelines - 1, uri);
      RunAppend(env, n, t, DeleteCalls(pipelines - 1, uri), [Delete(uri)]);
      assert t - {uri} - {uri} == t - {uri};
      assert SomeWorks(env, n, pipelines) <==> SomeWorks(env, n, pipelines - 1) || !env.fails(n + pipelines - 1);
    }
  }

  /** One of the calls `n` to `n + m` succeeds. */
  predicate SomeWorks(env: Environment, n: nat, m: nat) {
    exists k: nat | n <= k < n + m :: !env.fails(k)
  }

  /** The effect of one operation on the table, without the calls it is made of. */
  function OperationEffect(
      env: Environment, n: nat, t: Table, pipelines: seq<Pipeline>, repo: ByteString, records: map<string, Record>,
      op: Op): Table
  {
    var uri := BuildUri(repo, op.path);
    if !IsPostPath(op.path) then t
    else if op.action.DeleteAction? then
      if SomeWorks(env, n, |pipelines|) then t - {uri} else t
    else if op.action.CreateAction? && op.path in records && records[op.path].PostRecord? then
      var post := records[op.path].post;
      var k := FirstSaved(env, n, pipelines, |pipelines|, repo, post);
      if uri in t || k == |pipelines| then t
      else t[uri := Row(pipelines[k].name, op.cid, env.clock(n + Accepting(pipelines, k, repo, post)))]
    else t
  }

  /** The calls of an operation have just that effect, whichever of them fail. */
  lemma {:induction false} OperationHasEffect(
      env: Environment, n: nat, t: Table, pipelines: seq<Pipeline>, repo: ByteString, records: map<string, Record>,
      op: Op)
    ensures Run(env, n, t, OpCalls(pipelines, repo, records, op))
         == OperationEffect(env, n, t, pipelines, repo, records, op)
  {
    var uri := BuildUri(repo, op.path);
    if op.action.DeleteAction? {
      DeleteOperationRemoves(env, n, t, |pipelines|, uri);
    } else if op.action.CreateAction? && op.path in records && records[op.path].PostRecord? {
      FirstMatchingPipelineOwnsPost(
        env, n, t, pipelines, |pipelines|, repo, uri, op.cid, records[op.path].post);
    }
  }

  // What a whole commit makes of an entry.

  /** What an operation means for the entry at `u`. */
  function OpMeans(
      v: Option<Entry>, u: string, pipelines: seq<Pipeline>, repo: ByteString, records: map<string, Record>,
      op: Op): Option<Entry>
  {
    if pipelines == [] || !IsPostPath(op.path) || BuildUri(repo, op.path) != u then v
    else if op.action.DeleteAction? then None
    else if op.action.CreateAction? && v.None? && op.path in records && records[op.path].PostRecord? then
      var k := FirstInserting(pipelines, |pipelines|, repo, records[op.path].post);
      if k < |pipelines| then Some(Entry(pipelines[k].name, op.cid)) else None
    else v
  }

  /** The first `n` operations, in order. */
  function OpsMean(
      v: Option<Entry>, u: string, pipelines: seq<Pipeline>, repo: ByteString, records: map<string, Record>,
      ops: seq<Op>, n: nat): Option<Entry>
    requires n <= |ops|
  {
    if n == 0 then v
    else OpMeans(OpsMean(v, u, pipelines, repo, records, ops, n - 1), u, pipelines, repo, records, ops[n - 1])
  }

  /** Without failures the first pipeline that takes the post is the first to save it. */
  lemma {:induction false} FirstIsSaved(env: Environment, n: nat, pipelines: seq<Pipeline>, actor: string, post: Post)
    requires NoFailures(env)
    ensures FirstSaved(env, n, pipelines, |pipelines|, actor, post)
         == FirstInserting(pipelines, |pipelines|, actor, post)
  {
    var k := FirstSaved(env, n, pipelines, |pipelines|, actor, post);
    var j := FirstInserting(pipelines, |pipelines|, actor, post);
    assert j < |pipelines| ==> Saves(env, n, pipelines, j, actor, post);
    assert k < |pipelines| ==> Saves(env, n, pipelines, k, actor, post);
  }

  lemma {:induction false} OpCallsMean(
      v: Option<Entry>, u: string, pipelines: seq<Pipeline>, repo: ByteString, records: map<string, Record>, op: Op)
    ensures Evolve(v, u, OpCalls(pipelines, repo, records, op)) == OpMeans(v, u, pipelines, repo, records, op)
  {
    var env := Environment(_ => false, _ => "");
    var t: Table := if v.Some? then map[u := Row(v.value.feed, v.value.cid, "")] else map[];
    RunEvolves(env, 0, t, OpCalls(pipelines, repo, records, op), u);
    OperationHasEffect(env, 0, t, pipelines, repo, records, op);
    if op.path in records && records[op.path].PostRecord? {
      FirstIsSaved(env, 0, pipelines, repo, records[op.path].post);
    }
    assert SomeWorks(env, 0, |pipelines|) <==> pipelines != [] by {
      assert !env.fails(0);
    }
  }

  lemma {:induction false} BatchesMean(
      v: Option<Entry>, u: string, pipelines: seq<Pipeline>, c: Commit, batches: seq<seq<Call>>, n: nat)
    requires c.records.Some? && n <= |c.ops| == |batches|
    requires forall i :: 0 <= i < n ==> batches[i] == OpCalls(pipelines, c.repo, c.records.value, c.ops[i])
    ensures Evolve(v, u, Flat(batches, n)) == OpsMean(v, u, pipelines, c.repo, c.records.value, c.ops, n)
  {
    if n > 0 {
      BatchesMean(v, u, pipelines, c, batches, n - 1);
      EvolveAppend(v, u, Flat(batches, n - 1), batches[n - 1]);
      var w := OpsMean(v, u, pipelines, c.repo, c.records.value, c.ops, n - 1);
      OpCallsMean(w, u, pipelines, c.repo, c.records.value, c.ops[n - 1]);
    }
  }

  /** A commit means all its operations, in order; one that is too big or cannot be read means nothing. */
  lemma {:induction false} CommitMeansItsOperations(
      v: Option<Entry>, u: string, pipelines: seq<Pipeline>, c: Commit)
    ensures Evolve(v, u, CommitCalls(pipelines, c))
         == if c.tooBig || c.records.None? then v
            else OpsMean(v, u, pipelines, c.repo, c.records.value, c.ops, |c.ops|)
  {
    if !c.tooBig && c.records.Some? {
      BatchesMean(v, u, pipelines, c, OpBatches(pipelines, c.repo, c.records.value, c.ops), |c.ops|);
    }
  }

  // Where the rows of a feed come from.

  /** The `i`-th operation of commit `c` created `uri` from `post`, and a pipeline named `feed` takes it. */
  ghost predicate Creates(
      pipelines: seq<Pipeline>, c: Commit, i: nat, feed: string, uri: string, cid: string, post: Post)
  {
    && !c.tooBig && c.records.Some? && i < |c.ops|
    && c.ops[i].action.CreateAction? && IsPostPath(c.ops[i].path) && c.ops[i].cid == cid
    && uri == BuildUri(c.repo, c.ops[i].path)
    && c.ops[i].path in c.records.value && c.records.value[c.ops[i].path] == PostRecord(post)
    && exists k :: 0 <= k < |pipelines| && pipelines[k].name == feed && pipelines[k].Inserts(c.repo, post)
  }

  lemma {:induction false} DeleteCallsDelete(n: nat, uri: string)
    ensures forall c :: c in DeleteCalls(n, uri) ==> c == Delete(uri)
  {
    if n > 0 {
      DeleteCallsDelete(n - 1, uri);
    }
  }

  lemma {:induction false} InsertHasCause(pipelines: seq<Pipeline>, c: Commit, call: Call)
    requires call in CommitCalls(pipelines, c) && call.Insert?
    ensures exists i: nat, post :: Creates(pipelines, c, i, call.feed, call.uri, call.cid, post)
  {
    var batches := OpBatches(pipelines, c.repo, c.records.value, c.ops);
    FlatMember(batches, |c.ops|, call);
    var i: nat :| i < |c.ops| && call in batches[i];
    var op := c.ops[i];
    var uri := BuildUri(c.repo, op.path);
    if op.action.DeleteAction? {
      DeleteCallsDelete(|pipelines|, uri);
      assert false;
    } else {
      var post := c.records.value[op.path].post;
      CreateCallsCause(pipelines, |pipelines|, c.repo, uri, op.cid, post, call);
      assert Creates(pipelines, c, i, call.feed, call.uri, call.cid, post);
    }
  }

  ghost predicate FromCommit(pipelines: seq<Pipeline>, commits: seq<Commit>, call: Call) {
    exists k :: 0 <= k < |commits| && call in CommitCalls(pipelines, commits[k])
  }

  /** Every call belongs to some commit of the log; calls may be lost, repeated or out of order. */
  ghost predicate CallsOf(pipelines: seq<Pipeline>, commits: seq<Commit>, calls: seq<Call>) {
    forall call :: call in calls ==> FromCommit(pipelines, commits, call)
  }

  /**
   Whatever calls fail, repeat or change places, a row of a feed stems from a create operation for its URI
   and cid, whose post a pipeline of that feed's name takes.
   */
  lemma {:induction false} RowsStemFromCreates(
      pipelines: seq<Pipeline>, commits: seq<Commit>, env: Environment, n: nat, calls: seq<Call>, u: string)
    requires CallsOf(pipelines, commits, calls)
    requires u in Run(env, n, map[], calls)
    ensures
      var row := Run(env, n, map[], calls)[u];
      exists at: nat, k: nat, i: nat, post ::
        && row.indexedAt == env.clock(at)
        && k < |commits| && Creates(pipelines, commits[k], i, row.feed, u, row.cid, post)
  {
    var row := Run(env, n, map[], calls)[u];
    RowsComeFromInserts(env, n, map[], calls, u);
    var j :| 0 <= j < |calls| && calls[j] == Insert(row.feed, u, row.cid) && row.indexedAt == env.clock(n + j);
    assert FromCommit(pipelines, commits, calls[j]);
    var k :| 0 <= k < |commits| && calls[j] in CommitCalls(pipelines, commits[k]);
    InsertHasCause(pipelines, commits[k], calls[j]);
    var i: nat, post :| Creates(pipelines, commits[k], i, row.feed, u, row.cid, post);
  }

  /** No row of a feed stems from a repository that its configuration blocks, or from a post that it does not want. */
  lemma {:induction false} BlockedAuthorHasNoRow(
      pipelines: seq<Pipeline>, commits: seq<Commit>, env: Environment, n: nat, calls: seq<Call>,
      c: Config, lower: CaseMap, repo: ByteString, path: ByteString)
    requires CallsOf(pipelines, commits, calls) && (forall k :: 0 <= k < |commits| ==> commits[k].repo != "")
    requires forall k :: 0 <= k < |pipelines| && pipelines[k].name == c.name ==> Built(pipelines[k], c, lower)
    requires repo in c.blockDids && repo != "" && IsPostPath(path)
    requires BuildUri(repo, path) in Run(env, n, map[], calls)
    ensures Run(env, n, map[], calls)[BuildUri(repo, path)].feed != c.name
  {
    var u := BuildUri(repo, path);
    var row := Run(env, n, map[], calls)[u];
    RowsStemFromCreates(pipelines, commits, env, n, calls, u);
    var k: nat, i: nat, post :| k < |commits| && Creates(pipelines, commits[k], i, row.feed, u, row.cid, post);
    PostUriInjective(repo, path, commits[k].repo, commits[k].ops[i].path);
    forall j | 0 <= j < |pipelines| && pipelines[j].name == c.name
      ensures !pipelines[j].Inserts(repo, post)
    {
      InsertsAsConfigured(pipelines[j], c, lower, repo, post);
    }
  }

  // Replays and stamps.

  /** The call that puts the final row at a URI that was absent or deleted on the way, if it has a row in the end. */
  function Reinsert(calls: seq<Call>, u: string): (r: Option<nat>)
    ensures r.Some? ==> r.value < |calls| && calls[r.value].Insert? && calls[r.value].uri == u
    decreases |calls|
  {
    if calls == [] then None
    else
      var n := |calls| - 1;
      var r := Reinsert(calls[..n], u);
      if calls[n].uri != u then r
      else if calls[n].Delete? then None
      else if r.Some? then r
      else Some(n)
  }

  lemma {:induction false} ReinsertedRow(env: Environment, n: nat, t: Table, calls: seq<Call>, u: string)
    requires NoFailures(env) && (Delete(u) in calls || u !in t)
    ensures
      var t', r := Run(env, n, t, calls), Reinsert(calls, u);
      (u in t' <==> r.Some?) && (u in t' ==> t'[u].indexedAt == env.clock(n + r.value))
    decreases |calls|
  {
    if calls != [] {
      var k := |calls| - 1;
      var before, c := calls[..k], calls[k];
      assert calls == before + [c];
      RunAppend(env, n, t, before, [c]);
      if Delete(u) in before || u !in t {
        ReinsertedRow(env, n, t, before, u);
      }
    }
  }

  /**
   A replay absorbs feeds and cids but not stamps: it leaves a surviving row as it was, stamp included,
   exactly when the replayed calls do not delete its URI or the insert that brings the row back reads the old
   stamp on the clock.
   */
  lemma {:induction false} ReplayKeepsRowIff(
      env: Environment, m: nat, t0: Table, calls: seq<Call>, n: nat, u: string)
    requires NoFailures(env)
    ensures
      var t := Run(env, m, t0, calls);
      var t' := Run(env, n, t, calls);
      && (u in t <==> u in t')
      && (u in t && Delete(u) in calls ==> Reinsert(calls, u).Some?)
      && (u in t ==>
            && EntryAt(t, u) == EntryAt(t', u)
            && (t'[u] == t[u]
                <==> Delete(u) !in calls || env.clock(n + Reinsert(calls, u).value) == t[u].indexedAt))
  {
    var t := Run(env, m, t0, calls);
    RunEvolves(env, m, t0, calls, u);
    RunEvolves(env, n, t, calls, u);
    ReplayAbsorbed(EntryAt(t0, u), u, calls);
    if u in t {
      if Delete(u) in calls {
        ReinsertedRow(env, n, t, calls, u);
      } else {
        RowKeptWithoutDelete(env, n, t, calls, u);
      }
    }
  }
}
