/** Which logs survive crashes with several commits in flight: exactly those whose changes are contained. */
module Survival {
  import opened Results
  import opened AtUri
  import opened Pipelines
  import opened Firehose
  import opened PostStore
  import opened Ingest
  import opened Entries
  import opened Concurrency
  import opened Replay
  import opened ContainedChanges

  /** If the run handles the first `m` commits and no other was begun, the table is that of handling them in turn. */
  ghost predicate EndsRight(st: Stream, events: seq<Event>, m: nat) {
    Runs(st, events, |events|) && HandledUpTo(st, After(st, events, |events|), m) ==>
      Sequential(st, After(st, events, |events|).table, m)
  }

  ghost predicate AlwaysRight(st: Stream) {
    forall events, m: nat :: EndsRight(st, events, m)
  }

  // Building runs.

  /** The run leads to `s`; if `alone`, it handles one commit at a time and stores every cursor. */
  ghost predicate Leads(st: Stream, events: seq<Event>, s: State, alone: bool) {
    && Runs(st, events, |events|) && After(st, events, |events|) == s
    && (alone ==> OneAtATime(st, events, |events|) && AllStored(events))
  }

  lemma {:induction false} RunsGoOn(st: Stream, a: seq<Event>, b: seq<Event>, n: nat)
    requires n <= |a| && Runs(st, a, n)
    ensures Runs(st, a + b, n) && After(st, a + b, n) == After(st, a, n)
    ensures OneAtATime(st, a, n) ==> OneAtATime(st, a + b, n)
  {
    if n > 0 {
      RunsGoOn(st, a, b, n - 1);
    }
  }

  lemma {:induction false} LeadsOn(st: Stream, events: seq<Event>, s: State, e: Event, alone: bool)
    requires Leads(st, events, s, alone) && Enabled(st, s, e)
    requires alone ==> Alone(s, e) && (e.Finish? ==> e.stored)
    ensures Leads(st, events + [e], Do(st, s, e), alone)
  {
    RunsGoOn(st, events, [e], |events|);
  }

  /** `s'` is `s` after the first `n` calls of commit `i`. */
  ghost predicate Advanced(st: Stream, s: State, s': State, i: nat, n: nat)
    requires i < |st.jobs| && n <= |st.jobs[i].calls| && i < |s.done|
  {
    && s'.cursor == s.cursor && s'.from == s.from && s'.over == s.over && s'.done == s.done[i := n]
    && (s'.reach <= s.reach || s'.reach <= i + 1)
    && forall u :: EntryAt(s'.table, u) == Evolve(EntryAt(s.table, u), u, st.jobs[i].calls[..n])
  }

  lemma {:induction false} AdvanceByOne(st: Stream, s: State, s': State, i: nat, n: nat)
    requires |st.seqnos| == |st.jobs| && Turn(st, s, i) && n < |st.jobs[i].calls| && Advanced(st, s, s', i, n)
    ensures Enabled(st, s', Perform(i, "")) && Advanced(st, s, Do(st, s', Perform(i, "")), i, n + 1)
  {
    var calls := st.jobs[i].calls;
    forall u
      ensures EntryAt(Do(st, s', Perform(i, "")).table, u) == Evolve(EntryAt(s.table, u), u, calls[..n + 1])
    {
      assert calls[..n + 1] == calls[..n] + [calls[n]];
      EvolveAppend(EntryAt(s.table, u), u, calls[..n], [calls[n]]);
    }
  }

  lemma {:induction false} PerformSome(st: Stream, events: seq<Event>, s: State, i: nat, n: nat, alone: bool)
    requires |st.seqnos| == |st.jobs| && Leads(st, events, s, alone) && Turn(st, s, i) && s.done[i] == 0
    requires n <= |st.jobs[i].calls| && (alone ==> Alone(s, Finish(i, true)))
    ensures exists more, s' :: Leads(st, more, s', alone) && Advanced(st, s, s', i, n)
  {
    if n == 0 {
      assert st.jobs[i].calls[..0] == [];
      assert Advanced(st, s, s, i, 0);
    } else {
      PerformSome(st, events, s, i, n - 1, alone);
      var more, s' :| Leads(st, more, s', alone) && Advanced(st, s, s', i, n - 1);
      AdvanceByOne(st, s, s', i, n - 1);
      LeadsOn(st, more, s', Perform(i, ""), alone);
    }
  }

  /** Commit `i` is handled to its end and its cursor stored. */
  lemma {:induction false} HandleOne(st: Stream, events: seq<Event>, s: State, i: nat, alone: bool)
    requires |st.seqnos| == |st.jobs| && Leads(st, events, s, alone) && Turn(st, s, i) && s.done[i] == 0
    requires alone ==> Alone(s, Finish(i, true))
    ensures exists more, s' :: Leads(st, more + [Finish(i, true)], s', alone) && Finished(st, s, s', i)
  {
    var calls := st.jobs[i].calls;
    PerformSome(st, events, s, i, |calls|, alone);
    var more, s' :| Leads(st, more, s', alone) && Advanced(st, s, s', i, |calls|);
    assert calls[..|calls|] == calls;
    LeadsOn(st, more, s', Finish(i, true), alone);
    assert Finished(st, s, Do(st, s', Finish(i, true)), i);
  }

  ghost predicate Finished(st: Stream, s: State, s': State, i: nat)
    requires i < |st.jobs| == |st.seqnos| && i < |s.done|
  {
    && s'.cursor == st.seqnos[i] && s'.from == s.from && s'.over == s.over + {i}
    && s'.done == s.done[i := |st.jobs[i].calls|]
    && (s'.reach <= s.reach || s'.reach <= i + 1)
    && forall u :: EntryAt(s'.table, u) == Evolve(EntryAt(s.table, u), u, st.jobs[i].calls)
  }

  /** The commits before `i` are over, and none after `i` is begun. */
  ghost predicate Before(st: Stream, s: State, i: nat) {
    && s.from == 0 && |s.done| == |st.jobs| && s.reach <= i + 1
    && (forall j :: j in s.over <==> 0 <= j < i)
    && (forall j :: i < j < |st.jobs| ==> s.done[j] == 0)
  }

  lemma {:induction false} HandleFirst(st: Stream, i: nat)
    requires |st.seqnos| == |st.jobs| && i < |st.jobs|
    ensures exists events, s :: Leads(st, events, s, false) && InSequence(st, s, i)
  {
    var first := Fresh(st, st.table, st.start, 0, 0);
    if i == 0 {
      assert Leads(st, [], first, false) && InSequence(st, first, 0);
    } else {
      HandleFirst(st, i - 1);
      var events, s :| Leads(st, events, s, false) && InSequence(st, s, i - 1);
      HandleOne(st, events, s, i - 1, false);
      var more, s' :| Leads(st, more + [Finish(i - 1, true)], s', false) && Finished(st, s, s', i - 1);
      NextInSequence(st, s, s', i - 1);
    }
  }

  lemma {:induction false} NextInSequence(st: Stream, s: State, s': State, i: nat)
    requires |st.seqnos| == |st.jobs| && i + 1 < |st.jobs| && InSequence(st, s, i) && Finished(st, s, s', i)
    ensures InSequence(st, s', i + 1)
  {
    forall u
      ensures EntryAt(s'.table, u) == Evolve(EntryAt(st.table, u), u, Flat(Batches(st.jobs), i + 1))
    {
      EvolveAppend(EntryAt(st.table, u), u, Flat(Batches(st.jobs), i), st.jobs[i].calls);
    }
  }

  /** The commits before `i` are handled one after the other, and `i` is not begun. */
  ghost predicate InSequence(st: Stream, s: State, i: nat)
    requires i < |st.jobs|
  {
    && Before(st, s, i) && s.done[i] == 0
    && forall u :: EntryAt(s.table, u) == Evolve(EntryAt(st.table, u), u, Flat(Batches(st.jobs), i))
  }

  /** A state after a restart that leaves the first `m` commits behind the stream, with entry `v` at `u`. */
  predicate LeavesBehind(s: State, m: nat, u: string, v: Option<Entry>) {
    s.from == m && s.reach <= m && EntryAt(s.table, u) == v
  }

  /** Commit `j` overtakes those from `i` on, which are of other repositories, and a crash follows. */
  lemma {:induction false} Overtake(st: Stream, events: seq<Event>, s: State, i: nat, j: nat, u: string)
    requires st.Valid() && Leads(st, events, s, false) && Before(st, s, i) && i < j < |st.jobs|
    requires forall k :: i <= k < j ==> st.jobs[k].repo != st.jobs[j].repo
    requires forall c :: c in st.jobs[j].calls ==> c.uri != u
    ensures exists more, s' :: Leads(st, more, s', false) && LeavesBehind(s', j + 1, u, EntryAt(s.table, u))
  {
    HandleOne(st, events, s, j, false);
    var more, s' :| Leads(st, more + [Finish(j, true)], s', false) && Finished(st, s, s', j);
    OthersLeaveAlone(EntryAt(s.table, u), u, st.jobs[j].calls);
    ResumeAfterCommit(st.seqnos, j);
    assert st.seqnos[j] > 0;
    LeadsOn(st, more + [Finish(j, true)], s', Crash(0), false);
    assert LeavesBehind(Do(st, s', Crash(0)), j + 1, u, EntryAt(s.table, u));
  }

  lemma {:induction false} TwoEnds(
      st: Stream, a: seq<Event>, s: State, b: seq<Event>, s': State, m: nat, u: string,
      v: Option<Entry>, v': Option<Entry>)
    requires Leads(st, a, s, false) && Leads(st, b, s', false) && m <= |st.jobs| && v != v'
    requires LeavesBehind(s, m, u, v) && LeavesBehind(s', m, u, v')
    ensures !AlwaysRight(st)
  {
    assert HandledUpTo(st, s, m) && HandledUpTo(st, s', m);
    assert Sequential(st, s.table, m) && Sequential(st, s'.table, m) ==> EntryAt(s.table, u) == EntryAt(s'.table, u);
    assert !(EndsRight(st, a, m) && EndsRight(st, b, m));
  }

  // A change that is not contained can be lost.

  /** The first call that changes the entry does change it. */
  lemma {:induction false} ChangeShows(st: Stream, u: string, k: nat, x: nat)
    requires FirstChange(st, u, k, x)
    ensures Evolve(EntryAt(st.table, u), u, st.jobs[k].calls[..x + 1]) != EntryAt(st.table, u)
  {
    var calls := st.jobs[k].calls;
    UnalteredEvolves(st.table, u, calls[..x]);
    assert calls[..x + 1] == calls[..x] + [calls[x]];
    EvolveAppend(EntryAt(st.table, u), u, calls[..x], [calls[x]]);
  }

  /** Commit `i` is the first one after `k` that is of another repository. */
  predicate IsFirstForeign(st: Stream, k: nat, i: nat) {
    && k < i < |st.jobs| && st.jobs[i].repo != st.jobs[k].repo
    && forall l :: k <= l < i ==> st.jobs[l].repo == st.jobs[k].repo
  }

  lemma {:induction false} FirstForeign(st: Stream, k: nat, j: nat)
    requires k < j < |st.jobs| && st.jobs[j].repo != st.jobs[k].repo
    ensures exists i: nat :: IsFirstForeign(st, k, i)
  {
    var i := k + 1;
    while st.jobs[i].repo == st.jobs[k].repo
      invariant k < i <= j && forall l :: k <= l < i ==> st.jobs[l].repo == st.jobs[k].repo
      decreases j - i
    {
      i := i + 1;
    }
    assert IsFirstForeign(st, k, i);
  }

  lemma {:induction false} OvertakenChangeIsLost(st: Stream, u: string, k: nat, x: nat, foreign: nat)
    requires st.Valid() && FirstChange(st, u, k, x)
    requires k < foreign < |st.jobs| && st.jobs[foreign].repo != st.jobs[k].repo
    ensures !AlwaysRight(st)
  {
    FirstForeign(st, k, foreign);
    var j: nat :| IsFirstForeign(st, k, j);
    OwnerOfChange(st, u, k, x);
    HandleFirst(st, k);
    var events, s :| Leads(st, events, s, false) && InSequence(st, s, k);
    UnalteredBefore(st, u, k);
    Overtake(st, events, s, k, j, u);
    var a, sa :| Leads(st, a, sa, false) && LeavesBehind(sa, j + 1, u, EntryAt(s.table, u));
    PerformSome(st, events, s, k, x + 1, false);
    var cut, sc :| Leads(st, cut, sc, false) && Advanced(st, s, sc, k, x + 1);
    Overtake(st, cut, sc, k, j, u);
    var b, sb :| Leads(st, b, sb, false) && LeavesBehind(sb, j + 1, u, EntryAt(sc.table, u));
    ChangeShows(st, u, k, x);
    TwoEnds(st, a, sa, b, sb, j + 1, u, EntryAt(s.table, u), EntryAt(sc.table, u));
  }

  /** Without a cursor, a restart just before the commit and one just after its change leave different tables. */
  lemma {:induction false} LiveChangeIsLost(st: Stream, u: string, k: nat, x: nat)
    requires st.Valid() && st.start <= 0 && FirstChange(st, u, k, x)
    ensures !AlwaysRight(st)
  {
    var s := Fresh(st, st.table, st.start, 0, 0);
    LeadsOn(st, [], s, Crash(k + 1), false);
    LeadsOn(st, [], s, Crash(k), false);
    var joined := Do(st, s, Crash(k));
    PerformSome(st, [] + [Crash(k)], joined, k, x + 1, false);
    var b, sb :| Leads(st, b, sb, false) && Advanced(st, joined, sb, k, x + 1);
    LeadsOn(st, b, sb, Crash(k + 1), false);
    ChangeShows(st, u, k, x);
    TwoEnds(st, [] + [Crash(k + 1)], Do(st, s, Crash(k + 1)), b + [Crash(k + 1)], Do(st, sb, Crash(k + 1)), k + 1, u,
            EntryAt(st.table, u), EntryAt(sb.table, u));
  }

  lemma {:induction false} UncontainedIsLost(st: Stream)
    requires st.Valid() && !Contained(st)
    ensures !AlwaysRight(st)
  {
    var i: nat, c :| i < |st.jobs| && c in st.jobs[i].calls && Alters(st.table, c)
      && !(st.start > 0 && forall j :: i < j < |st.jobs| ==> st.jobs[j].repo == st.jobs[i].repo);
    FindFirstChange(st, c.uri);
    var k: nat, x: nat :| FirstChange(st, c.uri, k, x);
    if st.start <= 0 {
      LiveChangeIsLost(st, c.uri, k, x);
    } else {
      var j :| i < j < |st.jobs| && st.jobs[j].repo != st.jobs[i].repo;
      OwnerOfChange(st, c.uri, k, x);
      OvertakenChangeIsLost(st, c.uri, k, x, j);
    }
  }

  /**
   With several commits in flight every run is right, whatever its crashes, exactly when each commit that can
   change the initial table comes from a positive cursor and only commits of its repository follow it.
   */
  lemma {:induction false} SurvivesIff(st: Stream)
    requires st.Valid()
    ensures AlwaysRight(st) <==> Contained(st)
  {
    if Contained(st) {
      forall events, m: nat
        ensures EndsRight(st, events, m)
      {
        if Runs(st, events, |events|) && HandledUpTo(st, After(st, events, |events|), m) {
          ContainedIsRight(st, events, |events|, m);
        }
      }
    } else {
      UncontainedIsLost(st);
    }
  }

  // Over all commits of given numbers and repositories.

  predicate OneRepository(repos: seq<ByteString>) {
    forall i :: 0 <= i < |repos| ==> repos[i] == repos[0]
  }

  predicate OfShape(commits: seq<Commit>, seqnos: seq<int>, repos: seq<ByteString>) {
    && |commits| == |seqnos| == |repos|
    && forall i :: 0 <= i < |commits| ==> commits[i].seqno == seqnos[i] && commits[i].repo == repos[i]
  }

  /** Whatever commits of that shape say, and on any table, every run is right. */
  ghost predicate LosesNothing(pipelines: seq<Pipeline>, seqnos: seq<int>, repos: seq<ByteString>, start: int) {
    forall commits, table ::
      OfShape(commits, seqnos, repos) ==> AlwaysRight(StreamOf(pipelines, commits, start, table))
  }

  lemma {:induction false} ShapeIsValid(
      pipelines: seq<Pipeline>, commits: seq<Commit>, seqnos: seq<int>, repos: seq<ByteString>, start: int,
      table: Table)
    requires OfShape(commits, seqnos, repos) && Numbered(seqnos, start)
    requires forall i :: 0 <= i < |repos| ==> repos[i] != ""
    ensures StreamOf(pipelines, commits, start, table).Valid()
  {
    assert StreamOf(pipelines, commits, start, table).seqnos == seqnos;
    StreamOfIsValid(pipelines, commits, start, table);
  }

  lemma {:induction false} NoPipelinesNoCalls(commit: Commit)
    ensures CommitCalls([], commit) == []
  {
    if !commit.tooBig && commit.records.Some? {
      FlatOfEmpty(OpBatches([], commit.repo, commit.records.value, commit.ops), |commit.ops|);
    }
  }

  lemma {:induction false} FlatOfEmpty(batches: seq<seq<Call>>, n: nat)
    requires n <= |batches| && forall i :: 0 <= i < n ==> batches[i] == []
    ensures Flat(batches, n) == []
  {
    if n > 0 {
      FlatOfEmpty(batches, n - 1);
    }
  }

  const POST_PATH: ByteString := POST_COLLECTION + "/a"

  /** The first commit deletes a post; the others do nothing. */
  function OneDelete(seqnos: seq<int>, repos: seq<ByteString>): seq<Commit>
    requires |seqnos| == |repos|
  {
    seq(|seqnos|, i requires 0 <= i < |seqnos| =>
      Commit(seqnos[i], repos[i], false, Some(map[]), if i == 0 then [Op(DeleteAction, POST_PATH, "")] else []))
  }

  lemma {:induction false} OneDeleteCalls(pipelines: seq<Pipeline>, seqnos: seq<int>, repos: seq<ByteString>)
    requires |seqnos| == |repos| && repos != [] && pipelines != []
    ensures Delete(BuildUri(repos[0], POST_PATH)) in CommitCalls(pipelines, OneDelete(seqnos, repos)[0])
  {
    var commit, n := OneDelete(seqnos, repos)[0], |pipelines|;
    var batches := OpBatches(pipelines, commit.repo, commit.records.value, commit.ops);
    assert Flat(batches, 1) == Flat(batches, 0) + batches[0];
    assert batches[0] == DeleteCalls(n, BuildUri(repos[0], POST_PATH));
    assert DeleteCalls(n, BuildUri(repos[0], POST_PATH))[n - 1 ..] == [Delete(BuildUri(repos[0], POST_PATH))] by {
      DeleteCallsCount(n - 1, BuildUri(repos[0], POST_PATH));
    }
  }

  lemma {:induction false} DeleteCallsCount(n: nat, uri: string)
    ensures |DeleteCalls(n, uri)| == n
  {
    if n > 0 {
      DeleteCallsCount(n - 1, uri);
    }
  }

  lemma {:induction false} DeleteCanBeLost(
      pipelines: seq<Pipeline>, seqnos: seq<int>, repos: seq<ByteString>, start: int)
    requires |seqnos| == |repos| && Numbered(seqnos, start) && (forall i :: 0 <= i < |repos| ==> repos[i] != "")
    requires pipelines != [] && repos != [] && !(start > 0 && OneRepository(repos))
    ensures !LosesNothing(pipelines, seqnos, repos, start)
  {
    var commits, u := OneDelete(seqnos, repos), BuildUri(repos[0], POST_PATH);
    var st := StreamOf(pipelines, commits, start, map[u := Row("", "", "")]);
    OneDeleteCalls(pipelines, seqnos, repos);
    ShapeIsValid(pipelines, commits, seqnos, repos, start, st.table);
    assert st.jobs[0].calls == CommitCalls(pipelines, commits[0]) && Alters(st.table, Delete(u));
    assert !Contained(st) by {
      assert forall j :: 0 <= j < |repos| ==> st.jobs[j].repo == repos[j];
    }
    SurvivesIff(st);
  }

  lemma {:induction false} ShapeIsContained(
      pipelines: seq<Pipeline>, commits: seq<Commit>, seqnos: seq<int>, repos: seq<ByteString>, start: int,
      table: Table)
    requires OfShape(commits, seqnos, repos)
    requires pipelines == [] || repos == [] || (start > 0 && OneRepository(repos))
    ensures Contained(StreamOf(pipelines, commits, start, table))
  {
    var st := StreamOf(pipelines, commits, start, table);
    forall i: nat, c | i < |st.jobs| && c in st.jobs[i].calls && Alters(st.table, c)
      ensures start > 0 && forall j :: i < j < |st.jobs| ==> st.jobs[j].repo == st.jobs[i].repo
    {
      NoPipelinesNoCalls(commits[i]);
      assert forall j :: 0 <= j < |repos| ==> st.jobs[j].repo == repos[j];
    }
  }

  /**
   Handling commits concurrently loses nothing, whatever they say, whatever the table holds and wherever it
   crashes, exactly when no pipeline or no commit is there, or the cursor is positive and one repository wrote all.
   */
  lemma {:induction false} ConcurrencyLosesNothingIff(
      pipelines: seq<Pipeline>, seqnos: seq<int>, repos: seq<ByteString>, start: int)
    requires |seqnos| == |repos| && Numbered(seqnos, start) && (forall i :: 0 <= i < |repos| ==> repos[i] != "")
    ensures LosesNothing(pipelines, seqnos, repos, start)
       <==> pipelines == [] || repos == [] || (start > 0 && OneRepository(repos))
  {
    if pipelines == [] || repos == [] || (start > 0 && OneRepository(repos)) {
      forall commits, table | OfShape(commits, seqnos, repos)
        ensures AlwaysRight(StreamOf(pipelines, commits, start, table))
      {
        ShapeIsValid(pipelines, commits, seqnos, repos, start, table);
        ShapeIsContained(pipelines, commits, seqnos, repos, start, table);
        SurvivesIff(StreamOf(pipelines, commits, start, table));
      }
    } else {
      DeleteCanBeLost(pipelines, seqnos, repos, start);
    }
  }
}
