/**
 Logs that lose nothing with several commits in flight: a commit that can change the table is handled from a
 positive cursor, and only commits of its own repository come after it.
 */
module ContainedChanges {
  import opened AtUri
  import opened Firehose
  import opened PostStore
  import opened Entries
  import opened Concurrency

  /** A commit that can change the initial table comes from a positive cursor and before its own repository only. */
  ghost predicate Contained(st: Stream) {
    forall i: nat, c :: i < |st.jobs| && c in st.jobs[i].calls && Alters(st.table, c) ==>
      st.start > 0 && forall j :: i < j < |st.jobs| ==> st.jobs[j].repo == st.jobs[i].repo
  }

  // A URI that no commit changes.

  ghost predicate Unaltered(st: Stream, u: string) {
    forall i: nat, c :: i < |st.jobs| && c in st.jobs[i].calls && c.uri == u ==> !Alters(st.table, c)
  }

  lemma {:induction false} UnalteredStep(st: Stream, s: State, e: Event, u: string)
    requires Unaltered(st, u) && Enabled(st, s, e) && EntryAt(s.table, u) == EntryAt(st.table, u)
    ensures EntryAt(Do(st, s, e).table, u) == EntryAt(st.table, u)
  {
    if e.Perform? {
      assert st.jobs[e.i].calls[s.done[e.i]] in st.jobs[e.i].calls;
    }
  }

  lemma {:induction false} UnalteredStays(st: Stream, events: seq<Event>, n: nat, u: string)
    requires Unaltered(st, u) && n <= |events| && Runs(st, events, n)
    ensures EntryAt(After(st, events, n).table, u) == EntryAt(st.table, u)
  {
    if n > 0 {
      UnalteredStays(st, events, n - 1, u);
      UnalteredStep(st, After(st, events, n - 1), events[n - 1], u);
    }
  }

  lemma {:induction false} UnalteredBefore(st: Stream, u: string, m: nat)
    requires m <= |st.jobs|
    requires forall i: nat, c :: i < m && c in st.jobs[i].calls && c.uri == u ==> !Alters(st.table, c)
    ensures Evolve(EntryAt(st.table, u), u, Flat(Batches(st.jobs), m)) == EntryAt(st.table, u)
  {
    forall c | c in Flat(Batches(st.jobs), m) && c.uri == u
      ensures !Alters(st.table, c)
    {
      FlatMember(Batches(st.jobs), m, c);
      var i: nat :| i < m && c in Batches(st.jobs)[i];
    }
    UnalteredEvolves(st.table, u, Flat(Batches(st.jobs), m));
  }

  // The first call that changes a URI.

  /** Call `x` of commit `k` is the first one that changes the initial entry of `u`. */
  ghost predicate FirstChange(st: Stream, u: string, k: nat, x: nat) {
    && k < |st.jobs| && FirstAltering(st.table, u, st.jobs[k].calls, x)
    && forall i: nat, c :: i < k && c in st.jobs[i].calls && c.uri == u ==> !Alters(st.table, c)
  }

  /** Call `x` is the first one of `calls` that changes the entry of `u`. */
  ghost predicate FirstAltering(t: Table, u: string, calls: seq<Call>, x: nat) {
    && x < |calls| && calls[x].uri == u && Alters(t, calls[x])
    && forall c :: c in calls[..x] && c.uri == u ==> !Alters(t, c)
  }

  lemma {:induction false} FindFirstAltering(t: Table, u: string, calls: seq<Call>)
    requires exists c :: c in calls && c.uri == u && Alters(t, c)
    ensures exists x: nat :: FirstAltering(t, u, calls, x)
    decreases |calls|
  {
    var n := |calls| - 1;
    assert calls == calls[..n] + [calls[n]];
    if c :| c in calls[..n] && c.uri == u && Alters(t, c) {
      FindFirstAltering(t, u, calls[..n]);
      var x: nat :| FirstAltering(t, u, calls[..n], x);
      assert calls[..n][..x] == calls[..x];
      assert FirstAltering(t, u, calls, x);
    } else {
      assert FirstAltering(t, u, calls, n);
    }
  }

  lemma {:induction false} FindFirstChange(st: Stream, u: string)
    requires !Unaltered(st, u)
    ensures exists k: nat, x: nat :: FirstChange(st, u, k, x)
  {
    var k := 0;
    while forall c :: c in st.jobs[k].calls && c.uri == u ==> !Alters(st.table, c)
      invariant k < |st.jobs|
      invariant forall i: nat, c :: i < k && c in st.jobs[i].calls && c.uri == u ==> !Alters(st.table, c)
      decreases |st.jobs| - k
    {
      k := k + 1;
    }
    FindFirstAltering(st.table, u, st.jobs[k].calls);
    var x: nat :| FirstAltering(st.table, u, st.jobs[k].calls, x);
    assert FirstChange(st, u, k, x);
  }

  lemma {:induction false} ChangeInLane(st: Stream, u: string, k: nat, x: nat)
    requires FirstChange(st, u, k, x)
    ensures ChangeAt(st.table, Lane(st.jobs, st.jobs[k].repo), u, LaneOffset(st.jobs, st.jobs[k].repo, k) + x)
    ensures LaneOffset(st.jobs, st.jobs[k].repo, k) + x < LaneOffset(st.jobs, st.jobs[k].repo, k + 1)
  {
    var repo := st.jobs[k].repo;
    var lane, batches := Lane(st.jobs, repo), LaneBatches(st.jobs, repo);
    var o := LaneOffset(st.jobs, repo, k);
    LaneCallAt(st.jobs, k, x);
    LaneOffsetsGrow(st.jobs, repo, k, k);
    forall p | 0 <= p < o + x && lane[p].uri == u
      ensures !Alters(st.table, lane[p])
    {
      if p < o {
        assert lane[p] == lane[..o][p];
        FlatMember(batches, k, lane[p]);
        var i :| 0 <= i < k && lane[p] in batches[i];
        assert lane[p] in st.jobs[i].calls;
      } else {
        LaneCallAt(st.jobs, k, p - o);
        assert st.jobs[k].calls[..x][p - o] == lane[p];
      }
    }
  }

  // From the first change on, the lane is run in turn; before it, nothing matters.

  /** Once the cursor is beyond commit `k`, what it skips of the repository is over. */
  predicate CursorInTurn(st: Stream, s: State, k: nat, repo: ByteString) {
    && s.cursor > 0
    && (ResumeIndex(st.seqnos, s.cursor) > k ==>
          forall i :: 0 <= i < ResumeIndex(st.seqnos, s.cursor) && i < |st.jobs| && st.jobs[i].repo == repo ==>
            i < s.from || i in s.over)
  }

  /** All commits after `k` are of its repository. */
  predicate LastOthers(st: Stream, k: nat) {
    k < |st.jobs| && forall j :: k < j < |st.jobs| ==> st.jobs[j].repo == st.jobs[k].repo
  }

  lemma {:induction false} FinishInTurn(st: Stream, s: State, i: nat, stored: bool, k: nat)
    requires st.Valid() && LastOthers(st, k) && Enabled(st, s, Finish(i, stored))
    requires CursorInTurn(st, s, k, st.jobs[k].repo)
    ensures CursorInTurn(st, Do(st, s, Finish(i, stored)), k, st.jobs[k].repo)
  {
    ResumeAfterCommit(st.seqnos, i);
    assert st.seqnos[i] > 0;
    assert i >= k ==> st.jobs[i].repo == st.jobs[k].repo;
  }

  lemma {:induction false} StepInTurn(st: Stream, s: State, e: Event, k: nat)
    requires st.Valid() && LastOthers(st, k) && Enabled(st, s, e) && CursorInTurn(st, s, k, st.jobs[k].repo)
    ensures CursorInTurn(st, Do(st, s, e), k, st.jobs[k].repo)
  {
    if e.Finish? {
      FinishInTurn(st, s, e.i, e.stored, k);
    }
  }

  /** A restart takes the lane back to the first change or to where it is. */
  lemma {:induction false} CrashFallsBack(st: Stream, s: State, live: nat, k: nat, a: nat)
    requires Ordered(st, s) && Enabled(st, s, Crash(live)) && k < |st.jobs|
    requires CursorInTurn(st, s, k, st.jobs[k].repo) && LaneOffset(st.jobs, st.jobs[k].repo, k) <= a
    ensures
      var s', repo := Do(st, s, Crash(live)), st.jobs[k].repo;
      Beyond(LanePos(st, s', repo, |st.jobs|), a) <= Beyond(LanePos(st, s, repo, |st.jobs|), a)
  {
    var s', repo := Do(st, s, Crash(live)), st.jobs[k].repo;
    if s'.from > k {
      LanePosGrows(st, s', s, repo, |st.jobs|);
    } else {
      LanePosOfDone(st, s', repo, s'.from);
      LanePosOfRest(st, s', repo, s'.from, |st.jobs|);
      LaneOffsetsGrow(st.jobs, repo, s'.from, k);
    }
  }

  /** What every step keeps at a URI whose first change is in commit `k`, at `a` in the lane. */
  ghost predicate InTurn(st: Stream, s: State, u: string, k: nat, a: nat)
    requires k < |st.jobs|
  {
    && Ordered(st, s) && CursorInTurn(st, s, k, st.jobs[k].repo)
    && a <= |Lane(st.jobs, st.jobs[k].repo)| && Tracks(st, s, u, st.jobs[k].repo, a)
  }

  lemma {:induction false} DoKeepsInTurn(st: Stream, s: State, e: Event, u: string, k: nat, a: nat)
    requires st.Valid() && LastOthers(st, k) && Enabled(st, s, e) && InTurn(st, s, u, k, a)
    requires OwnedBy(st.jobs, u, st.jobs[k].repo) && LaneOffset(st.jobs, st.jobs[k].repo, k) <= a
    requires ChangeAt(st.table, Lane(st.jobs, st.jobs[k].repo), u, a)
    ensures InTurn(st, Do(st, s, e), u, k, a)
  {
    StepInTurn(st, s, e, k);
    if e.Crash? {
      CrashFallsBack(st, s, e.live, k, a);
    }
    DoTracks(st, s, e, u, st.jobs[k].repo, a);
  }

  lemma {:induction false} RunsInTurn(st: Stream, events: seq<Event>, n: nat, u: string, k: nat, a: nat)
    requires st.Valid() && st.start > 0 && LastOthers(st, k) && n <= |events| && Runs(st, events, n)
    requires OwnedBy(st.jobs, u, st.jobs[k].repo) && LaneOffset(st.jobs, st.jobs[k].repo, k) <= a
    requires ChangeAt(st.table, Lane(st.jobs, st.jobs[k].repo), u, a)
    ensures InTurn(st, After(st, events, n), u, k, a)
  {
    if n == 0 {
      ResumeAtStart(st.seqnos, st.start);
      TracksAtFirst(st, u, st.jobs[k].repo, a);
    } else {
      RunsInTurn(st, events, n - 1, u, k, a);
      DoKeepsInTurn(st, After(st, events, n - 1), events[n - 1], u, k, a);
    }
  }

  lemma {:induction false} ChangedIsRight(st: Stream, events: seq<Event>, n: nat, m: nat, u: string)
    requires st.Valid() && Contained(st) && n <= |events| && Runs(st, events, n) && !Unaltered(st, u)
    requires HandledUpTo(st, After(st, events, n), m)
    ensures EntryAt(After(st, events, n).table, u) == Evolve(EntryAt(st.table, u), u, Flat(Batches(st.jobs), m))
  {
    FindFirstChange(st, u);
    var k: nat, x: nat :| FirstChange(st, u, k, x);
    assert st.jobs[k].calls[x] in st.jobs[k].calls;
    OwnerOfChange(st, u, k, x);
    ChangeInLane(st, u, k, x);
    var a := LaneOffset(st.jobs, st.jobs[k].repo, k) + x;
    RunsInTurn(st, events, n, u, k, a);
    HandledMeansThere(st, After(st, events, n), u, st.jobs[k].repo, a, m);
  }

  /** In a contained log, whatever runs concurrently and wherever it crashes, nothing is lost. */
  lemma {:induction false} ContainedIsRight(st: Stream, events: seq<Event>, n: nat, m: nat)
    requires st.Valid() && Contained(st) && n <= |events| && Runs(st, events, n)
    requires HandledUpTo(st, After(st, events, n), m)
    ensures Sequential(st, After(st, events, n).table, m)
  {
    var s := After(st, events, n);
    forall u
      ensures EntryAt(s.table, u) == Evolve(EntryAt(st.table, u), u, Flat(Batches(st.jobs), m))
    {
      if Unaltered(st, u) {
        UnalteredStays(st, events, n, u);
        UnalteredBefore(st, u, m);
      } else {
        ChangedIsRight(st, events, n, m, u);
      }
    }
  }

  lemma {:induction false} OwnerOfChange(st: Stream, u: string, k: nat, x: nat)
    requires st.Valid() && FirstChange(st, u, k, x)
    ensures OwnedBy(st.jobs, u, st.jobs[k].repo)
  {
    var repo := Owner(st, u);
    assert st.jobs[k].calls[x] in st.jobs[k].calls;
  }
}
