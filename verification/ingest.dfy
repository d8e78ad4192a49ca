/** Commits from the firehose become store calls. */
module Ingest {
  import opened Results
  import opened AtUri
  import opened Pipelines
  import opened PostStore

  datatype Record = PostRecord(post: Post) | OtherRecord

  /** The action of an operation; anything but the two named ones is passed over. */
  datatype Action = CreateAction | DeleteAction | OtherAction(name: string)

  datatype Op = Op(action: Action, path: ByteString, cid: string)

  /** A firehose commit; `records` is what its CAR blocks hold, absent when they cannot be read. */
  datatype Commit = Commit(
    seqno: int,
    repo: ByteString,
    tooBig: bool,
    records: Option<map<string, Record>>,
    ops: seq<Op>)

  // The store calls of a commit, in order.

  function DeleteCalls(pipelines: nat, uri: string): seq<Call> {
    if pipelines == 0 then [] else DeleteCalls(pipelines - 1, uri) + [Delete(uri)]
  }

  /** The inserts that the first `n` pipelines make. */
  function CreateCalls(pipelines: seq<Pipeline>, n: nat, actor: string, uri: string, cid: string, post: Post): seq<Call>
    requires n <= |pipelines|
  {
    if n == 0 then []
    else
      CreateCalls(pipelines, n - 1, actor, uri, cid, post)
      + (if pipelines[n - 1].Inserts(actor, post) then [Insert(pipelines[n - 1].name, uri, cid)] else [])
  }

  function OpCalls(pipelines: seq<Pipeline>, repo: ByteString, records: map<string, Record>, op: Op): seq<Call> {
    if !IsPostPath(op.path) then []
    else if op.action.DeleteAction? then DeleteCalls(|pipelines|, BuildUri(repo, op.path))
    else if op.action.CreateAction? && op.path in records && records[op.path].PostRecord? then
      CreateCalls(pipelines, |pipelines|, repo, BuildUri(repo, op.path), op.cid, records[op.path].post)
    else []
  }

  function OpBatches(
      pipelines: seq<Pipeline>, repo: ByteString, records: map<string, Record>, ops: seq<Op>): seq<seq<Call>> {
    seq(|ops|, i requires 0 <= i < |ops| => OpCalls(pipelines, repo, records, ops[i]))
  }

  function CommitCalls(pipelines: seq<Pipeline>, c: Commit): seq<Call> {
    if c.tooBig || c.records.None? then []
    else Flat(OpBatches(pipelines, c.repo, c.records.value, c.ops), |c.ops|)
  }

  /** The calls of each commit of a log. */
  function CommitBatches(pipelines: seq<Pipeline>, commits: seq<Commit>): seq<seq<Call>> {
    seq(|commits|, i requires 0 <= i < |commits| => CommitCalls(pipelines, commits[i]))
  }

  /** Turns commits into store calls; errors of single calls are logged and passed over. */
  class Processor {
    const pipelines: seq<Pipeline>
    const store: Store

    constructor (pipelines: seq<Pipeline>, store: Store)
      ensures this.pipelines == pipelines && this.store == store
    {
      this.pipelines, this.store := pipelines, store;
    }

    method HandleDelete(uri: string)
      modifies store
      ensures store.cursors == old(store.cursors)
      ensures store.calls == old(store.calls) + |pipelines|
      ensures |DeleteCalls(|pipelines|, uri)| == |pipelines|
      ensures store.posts == Run(store.env, old(store.calls), old(store.posts), DeleteCalls(|pipelines|, uri))
    {
      for i := 0 to |pipelines|
        invariant store.cursors == old(store.cursors)
        invariant |DeleteCalls(i, uri)| == i && store.calls == old(store.calls) + i
        invariant store.posts == Run(store.env, old(store.calls), old(store.posts), DeleteCalls(i, uri))
      {
        RunAppend(store.env, old(store.calls), old(store.posts), DeleteCalls(i, uri), [Delete(uri)]);
        var ok := store.DeletePosts([uri]);
        assert Deletes([uri][..1]) == [Delete(uri)];
      }
    }

    method HandleCreate(records: map<string, Record>, actor: string, uri: string, op: Op)
      modifies store
      ensures store.cursors == old(store.cursors)
      ensures op.path in records && records[op.path].PostRecord? ==>
        && store.calls ==
           old(store.calls) + |CreateCalls(pipelines, |pipelines|, actor, uri, op.cid, records[op.path].post)|
        && store.posts == Run(store.env, old(store.calls), old(store.posts),
                              CreateCalls(pipelines, |pipelines|, actor, uri, op.cid, records[op.path].post))
      ensures !(op.path in records && records[op.path].PostRecord?) ==>
        store.posts == old(store.posts) && store.calls == old(store.calls)
    {
      if op.path !in records {
        return;
      }
      if !records[op.path].PostRecord? {
        return;
      }
      var post := records[op.path].post;
      for i := 0 to |pipelines|
        invariant store.cursors == old(store.cursors)
        invariant store.calls == old(store.calls) + |CreateCalls(pipelines, i, actor, uri, op.cid, post)|
        invariant store.posts == Run(store.env, old(store.calls), old(store.posts),
                                     CreateCalls(pipelines, i, actor, uri, op.cid, post))
      {
        var pipe := pipelines[i];
        ghost var made := CreateCalls(pipelines, i, actor, uri, op.cid, post);
        var inserts := pipe.ShouldInsert(actor, post);
        assert made + [] == made;
        if !inserts {
          continue;
        }
        RunAppend(store.env, old(store.calls), old(store.posts), made, [Insert(pipe.name, uri, op.cid)]);
        var ok := store.InsertPost(pipe.name, uri, op.cid);
      }
    }

    method HandleOp(repo: ByteString, records: map<string, Record>, op: Op, ghost calls: seq<Call>)
      requires calls == OpCalls(pipelines, repo, records, op)
      modifies store
      ensures store.cursors == old(store.cursors)
      ensures Performed(store.env, old(store.calls), old(store.posts), calls, store.calls, store.posts)
    {
      if !IsPostPath(op.path) {
        return;
      }
      var uri := BuildUri(repo, op.path);
      if op.action.DeleteAction? {
        HandleDelete(uri);
      } else if op.action.CreateAction? {
        HandleCreate(records, repo, uri, op);
      }
    }

    method ProcessEvent(evt: Option<Commit>)
      modifies store
      ensures store.cursors == old(store.cursors)
      ensures evt.None? ==> store.posts == old(store.posts) && store.calls == old(store.calls)
      ensures evt.Some? ==>
        && store.calls == old(store.calls) + |CommitCalls(pipelines, evt.value)|
        && store.posts == Run(store.env, old(store.calls), old(store.posts), CommitCalls(pipelines, evt.value))
    {
      if evt.None? {
        return;
      }
      var c := evt.value;
      if c.tooBig {
        return;
      }
      if c.records.None? {
        return;
      }
      ProcessOps(c.repo, c.records.value, c.ops, OpBatches(pipelines, c.repo, c.records.value, c.ops));
    }

    method ProcessOps(repo: ByteString, records: map<string, Record>, ops: seq<Op>, ghost batches: seq<seq<Call>>)
      requires |batches| == |ops|
      requires forall i :: 0 <= i < |ops| ==> batches[i] == OpCalls(pipelines, repo, records, ops[i])
      modifies store
      ensures store.cursors == old(store.cursors)
      ensures Performed(store.env, old(store.calls), old(store.posts), Flat(batches, |ops|), store.calls, store.posts)
    {
      ghost var n, t, made := store.calls, store.posts, [];
      for i := 0 to |ops|
        invariant store.cursors == old(store.cursors)
        invariant made == Flat(batches, i) && Performed(store.env, n, t, made, store.calls, store.posts)
      {
        ghost var n1, t1 := store.calls, store.posts;
        HandleOp(repo, records, ops[i], batches[i]);
        PerformedInTurn(store.env, n, t, made, n1, t1, batches[i], store.calls, store.posts);
        made := made + batches[i];
      }
    }
  }

  /** The standalone subscription: process, then move the cursor. */
  class Subscription {
    const processor: Processor
    const service: string
    /** False when no cursor store is configured. */
    const tracksCursor: bool

    constructor (processor: Processor, service: string, tracksCursor: bool)
      ensures this.processor == processor && this.service == service && this.tracksCursor == tracksCursor
    {
      this.processor, this.service, this.tracksCursor := processor, service, tracksCursor;
    }

    /** The cursor moves past a commit last, and only by a store call that may itself fail. */
    method HandleCommit(evt: Commit) returns (ok: bool)
      modifies processor.store
      ensures
        var s := processor.store;
        var calls := CommitCalls(processor.pipelines, evt);
        && s.posts == Run(s.env, old(s.calls), old(s.posts), calls)
        && s.calls == old(s.calls) + |calls| + (if tracksCursor then 1 else 0)
        && ok == (tracksCursor ==> !s.env.fails(old(s.calls) + |calls|))
        && s.cursors == if tracksCursor && ok then old(s.cursors)[service := evt.seqno] else old(s.cursors)
    {
      processor.ProcessEvent(Some(evt));
      if !tracksCursor {
        return true;
      }
      ok := processor.store.UpsertCursor(service, evt.seqno);
    }
  }
}
