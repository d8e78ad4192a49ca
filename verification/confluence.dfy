/** Commits of different repositories may interleave at every store call without changing what the table says. */
module Confluence {
  import opened Results
  import opened AtUri
  import opened Pipelines
  import opened PostStore
  import opened Ingest
  import opened Entries
  import opened TableRows

  /** A store call, and the repository on whose behalf it is made. */
  datatype Task = Task(repo: ByteString, call: Call)

  function Tagged(repo: ByteString, calls: seq<Call>): seq<Task> {
    seq(|calls|, i requires 0 <= i < |calls| => Task(repo, calls[i]))
  }

  /** A repository's commit, reduced to the store calls it makes. */
  datatype Job = Job(repo: ByteString, calls: seq<Call>)

  function JobsOf(pipelines: seq<Pipeline>, commits: seq<Commit>): seq<Job> {
    seq(|commits|, i requires 0 <= i < |commits| => Job(commits[i].repo, CommitCalls(pipelines, commits[i])))
  }

  /** The tasks of the first `n` jobs, one job after the other. */
  function Tasks(jobs: seq<Job>, n: nat): seq<Task>
    requires n <= |jobs|
  {
    if n == 0 then [] else Tasks(jobs, n - 1) + Tagged(jobs[n - 1].repo, jobs[n - 1].calls)
  }

  function CallsIn(tasks: seq<Task>): seq<Call> {
    seq(|tasks|, i requires 0 <= i < |tasks| => tasks[i].call)
  }

  function OfRepo(tasks: seq<Task>, repo: ByteString): seq<Task>
    decreases |tasks|
  {
    if tasks == [] then []
    else (if tasks[0].repo == repo then [tasks[0]] else []) + OfRepo(tasks[1..], repo)
  }

  /** The same tasks in an order that keeps, repository by repository, the order of `tasks`. */
  ghost predicate Interleaves(order: seq<Task>, tasks: seq<Task>) {
    forall repo: ByteString :: OfRepo(order, repo) == OfRepo(tasks, repo)
  }

  lemma {:induction false} OfRepoMember(tasks: seq<Task>, task: Task)
    ensures task in tasks <==> task in OfRepo(tasks, task.repo)
    decreases |tasks|
  {
    if tasks != [] {
      OfRepoMember(tasks[1..], task);
      assert task in tasks <==> task == tasks[0] || task in tasks[1..];
    }
  }

  lemma {:induction false} OnUriFirst(task: Task, rest: seq<Task>, u: string)
    ensures OnUri(CallsIn([task] + rest), u)
         == (if task.call.uri == u then [task.call] else []) + OnUri(CallsIn(rest), u)
  {
    assert CallsIn([task] + rest)[1..] == CallsIn(rest);
  }

  lemma {:induction false} UriCallsAreOfRepo(tasks: seq<Task>, u: string, repo: ByteString)
    requires forall task :: task in tasks && task.call.uri == u ==> task.repo == repo
    ensures OnUri(CallsIn(tasks), u) == OnUri(CallsIn(OfRepo(tasks, repo)), u)
    decreases |tasks|
  {
    if tasks != [] {
      assert forall task :: task in tasks[1..] ==> task in tasks;
      UriCallsAreOfRepo(tasks[1..], u, repo);
      OnUriFirst(tasks[0], tasks[1..], u);
      OnUriFirst(tasks[0], OfRepo(tasks[1..], repo), u);
      assert tasks == [tasks[0]] + tasks[1..] && tasks[0] in tasks;
      assert [] + OfRepo(tasks[1..], repo) == OfRepo(tasks[1..], repo);
    }
  }

  /** No two repositories share a URI. */
  ghost predicate UrisOwned(tasks: seq<Task>) {
    forall a, b :: a in tasks && b in tasks && a.call.uri == b.call.uri ==> a.repo == b.repo
  }

  lemma {:induction false} InterleavingKeepsEvolution(order: seq<Task>, tasks: seq<Task>, v: Option<Entry>, u: string)
    requires Interleaves(order, tasks) && UrisOwned(tasks)
    ensures Evolve(v, u, CallsIn(order)) == Evolve(v, u, CallsIn(tasks))
  {
    forall task | task in order
      ensures task in tasks
    {
      OfRepoMember(order, task);
      OfRepoMember(tasks, task);
    }
    var repo: ByteString :=
      if exists task :: task in tasks && task.call.uri == u
      then var task :| task in tasks && task.call.uri == u; task.repo
      else "";
    UriCallsAreOfRepo(order, u, repo);
    UriCallsAreOfRepo(tasks, u, repo);
    OnlyOwnCallsMatter(v, u, CallsIn(order));
    OnlyOwnCallsMatter(v, u, CallsIn(tasks));
  }

  // The tasks of commits own their URIs.

  lemma {:induction false} CommitCallUri(pipelines: seq<Pipeline>, c: Commit, call: Call)
    requires call in CommitCalls(pipelines, c)
    ensures exists path: ByteString :: IsPostPath(path) && call.uri == BuildUri(c.repo, path)
  {
    var batches := OpBatches(pipelines, c.repo, c.records.value, c.ops);
    FlatMember(batches, |c.ops|, call);
    var i :| 0 <= i < |c.ops| && call in batches[i];
    var path := c.ops[i].path;
    var uri := BuildUri(c.repo, path);
    if c.ops[i].action.DeleteAction? {
      DeleteCallsDelete(|pipelines|, uri);
    } else {
      CreateCallsCause(pipelines, |pipelines|, c.repo, uri, c.ops[i].cid, c.records.value[path].post, call);
    }
  }

  lemma {:induction false} TaskHasJob(jobs: seq<Job>, n: nat, task: Task)
    requires n <= |jobs| && task in Tasks(jobs, n)
    ensures exists k :: 0 <= k < n && task.repo == jobs[k].repo && task.call in jobs[k].calls
  {
    var calls := Tagged(jobs[n - 1].repo, jobs[n - 1].calls);
    if task !in calls {
      TaskHasJob(jobs, n - 1, task);
    }
  }

  lemma {:induction false} CommitsOwnTheirUris(pipelines: seq<Pipeline>, commits: seq<Commit>)
    requires forall k :: 0 <= k < |commits| ==> commits[k].repo != ""
    ensures UrisOwned(Tasks(JobsOf(pipelines, commits), |commits|))
  {
    var jobs := JobsOf(pipelines, commits);
    var tasks := Tasks(jobs, |commits|);
    forall a, b | a in tasks && b in tasks && a.call.uri == b.call.uri
      ensures a.repo == b.repo
    {
      TaskHasJob(jobs, |commits|, a);
      TaskHasJob(jobs, |commits|, b);
      var i :| 0 <= i < |commits| && a.repo == jobs[i].repo && a.call in jobs[i].calls;
      var j :| 0 <= j < |commits| && b.repo == jobs[j].repo && b.call in jobs[j].calls;
      CommitCallUri(pipelines, commits[i], a.call);
      CommitCallUri(pipelines, commits[j], b.call);
      var p: ByteString :| IsPostPath(p) && a.call.uri == BuildUri(a.repo, p);
      var q: ByteString :| IsPostPath(q) && b.call.uri == BuildUri(b.repo, q);
      PostUriInjective(a.repo, p, b.repo, q);
    }
  }

  lemma {:induction false} TasksInOrder(jobs: seq<Job>, batches: seq<seq<Call>>, n: nat)
    requires n <= |jobs| == |batches| && forall i :: 0 <= i < |jobs| ==> jobs[i].calls == batches[i]
    ensures CallsIn(Tasks(jobs, n)) == Flat(batches, n)
  {
    if n > 0 {
      TasksInOrder(jobs, batches, n - 1);
      assert CallsIn(Tagged(jobs[n - 1].repo, jobs[n - 1].calls)) == batches[n - 1];
    }
  }

  /**
   Any interleaving of the store calls of many commits that keeps each repository's own order leaves the
   entries of handling the commits one after the other.
   */
  lemma {:induction false} InterleavingIsConfluent(
      pipelines: seq<Pipeline>, commits: seq<Commit>, order: seq<Task>, t: Table,
      env: Environment, n: nat, env': Environment, n': nat)
    requires forall k :: 0 <= k < |commits| ==> commits[k].repo != ""
    requires Interleaves(order, Tasks(JobsOf(pipelines, commits), |commits|))
    requires NoFailures(env) && NoFailures(env')
    ensures SameEntries(Run(env, n, t, CallsIn(order)),
                        Run(env', n', t, Flat(CommitBatches(pipelines, commits), |commits|)))
  {
    var jobs := JobsOf(pipelines, commits);
    var tasks, calls := Tasks(jobs, |commits|), Flat(CommitBatches(pipelines, commits), |commits|);
    CommitsOwnTheirUris(pipelines, commits);
    TasksInOrder(jobs, CommitBatches(pipelines, commits), |commits|);
    forall u
      ensures EntryAt(Run(env, n, t, CallsIn(order)), u) == EntryAt(Run(env', n', t, calls), u)
    {
      RunEvolves(env, n, t, CallsIn(order), u);
      RunEvolves(env', n', t, calls, u);
      InterleavingKeepsEvolution(order, tasks, EntryAt(t, u), u);
    }
  }
}
