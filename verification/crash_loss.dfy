/**
 What a crash loses when several commits are in flight: the calls that commits behind the stored cursor had
 still to make. The table and those calls together always make the table of handling commits one by one.
 */
module CrashLoss {
  import opened Results
  import opened AtUri
  import opened PostStore
  import opened Entries
  import opened CatchingUp
  import opened Confluence
  import opened Concurrency
  import opened Firehose

  // Nothing comes back.

  predicate StreamBehindCursor(st: Stream, s: State) {
    s.cursor > 0 ==> s.from <= ResumeIndex(st.seqnos, s.cursor)
  }

  lemma {:induction false} StepMovesOn(st: Stream, s: State, e: Event)
    requires st.Valid() && Enabled(st, s, e) && StreamBehindCursor(st, s)
    ensures StreamBehindCursor(st, Do(st, s, e)) && s.from <= Do(st, s, e).from
  {
    if e.Finish? {
      ResumeAfterCommit(st.seqnos, e.i);
    }
  }

  lemma {:induction false} StreamMovesOn(st: Stream, events: seq<Event>, n: nat)
    requires st.Valid() && n <= |events| && Runs(st, events, n)
    ensures StreamBehindCursor(st, After(st, events, n))
    ensures n > 0 ==> After(st, events, n - 1).from <= After(st, events, n).from
  {
    if n > 0 {
      StreamMovesOn(st, events, n - 1);
      StepMovesOn(st, After(st, events, n - 1), events[n - 1]);
    }
  }

  lemma {:induction false} StaysForOne(st: Stream, s: State, e: Event, u: string)
    requires Enabled(st, s, e)
    requires forall i, c :: s.from <= i < |st.jobs| && c in st.jobs[i].calls ==> c.uri != u
    ensures EntryAt(Do(st, s, e).table, u) == EntryAt(s.table, u)
  {
    if e.Perform? {
      assert st.jobs[e.i].calls[s.done[e.i]] in st.jobs[e.i].calls;
    }
  }

  /** A URI whose calls are all in commits behind the stream is never touched again. */
  lemma {:induction false} BehindStreamStays(st: Stream, events: seq<Event>, n: nat, n': nat, u: string)
    requires st.Valid() && n <= n' <= |events| && Runs(st, events, n) && Runs(st, events, n')
    requires forall i, c :: After(st, events, n).from <= i < |st.jobs| && c in st.jobs[i].calls ==> c.uri != u
    ensures After(st, events, n).from <= After(st, events, n').from
    ensures EntryAt(After(st, events, n').table, u) == EntryAt(After(st, events, n).table, u)
    decreases n' - n
  {
    if n < n' {
      BehindStreamStays(st, events, n, n' - 1, u);
      StreamMovesOn(st, events, n');
      StaysForOne(st, After(st, events, n' - 1), events[n' - 1], u);
    }
  }

  // What is pending.

  function MadeOf(st: Stream, s: State, i: nat): nat
    requires i < |st.jobs| == |s.done|
  {
    if i < s.from then |st.jobs[i].calls| else s.done[i]
  }

  /** The calls that the first `m` commits still have to make. */
  function Pending(st: Stream, s: State, m: nat): seq<Call>
    requires m <= |st.jobs| && Ordered(st, s)
  {
    if m == 0 then [] else Pending(st, s, m - 1) + st.jobs[m - 1].calls[MadeOf(st, s, m - 1)..]
  }

  function LanePending(st: Stream, s: State, repo: ByteString, m: nat): seq<Call>
    requires m <= |st.jobs| && Ordered(st, s)
  {
    if m == 0 then []
    else
      LanePending(st, s, repo, m - 1)
      + (if st.jobs[m - 1].repo == repo then st.jobs[m - 1].calls[MadeOf(st, s, m - 1)..] else [])
  }

  lemma {:induction false} LaneBeforeIsDone(st: Stream, s: State, repo: ByteString, j: nat)
    requires j < |st.jobs| && Ordered(st, s)
    ensures Made(st, s, repo, j) > 0 ==> LanePos(st, s, repo, j) == LaneOffset(st.jobs, repo, j)
  {
    if Made(st, s, repo, j) > 0 {
      LanePosOfDone(st, s, repo, j);
    }
  }

  predicate PendingIsRest(st: Stream, s: State, repo: ByteString, m: nat)
    requires m <= |st.jobs| && Ordered(st, s)
  {
    && LanePos(st, s, repo, m) <= LaneOffset(st.jobs, repo, m)
    && LanePending(st, s, repo, m) == Flat(LaneBatches(st.jobs, repo), m)[LanePos(st, s, repo, m)..]
  }

  lemma {:induction false} OneMorePending(st: Stream, s: State, repo: ByteString, j: nat)
    requires j < |st.jobs| && Ordered(st, s) && PendingIsRest(st, s, repo, j)
    ensures PendingIsRest(st, s, repo, j + 1)
  {
    LaneBeforeIsDone(st, s, repo, j);
  }

  /** What is pending in a repository is what comes after its position. */
  lemma {:induction false} LanePendingIsRest(st: Stream, s: State, repo: ByteString, m: nat)
    requires m <= |st.jobs| && Ordered(st, s)
    ensures PendingIsRest(st, s, repo, m)
  {
    if m > 0 {
      LanePendingIsRest(st, s, repo, m - 1);
      OneMorePending(st, s, repo, m - 1);
    }
  }

  lemma {:induction false} LanePendingEvolves(
      st: Stream, s: State, v: Option<Entry>, u: string, repo: ByteString, m: nat)
    requires m <= |st.jobs| && Ordered(st, s) && OwnedBy(st.jobs, u, repo)
    ensures Evolve(v, u, LanePending(st, s, repo, m)) == Evolve(v, u, Pending(st, s, m))
  {
    if m > 0 {
      LanePendingEvolves(st, s, v, u, repo, m - 1);
      var rest := st.jobs[m - 1].calls[MadeOf(st, s, m - 1)..];
      forall c | c in rest
        ensures c in st.jobs[m - 1].calls
      {
      }
      LaneStep(v, u, LanePending(st, s, repo, m - 1), if st.jobs[m - 1].repo == repo then rest else [],
               Pending(st, s, m - 1), rest);
    }
  }

  lemma {:induction false} EvolveFurther(f: seq<Call>, v: Option<Entry>, u: string, p: nat, q: nat, end: nat)
    requires p <= q <= end <= |f|
    ensures Evolve(v, u, f[p..end]) == Evolve(Evolve(v, u, f[p..q]), u, f[q..end])
  {
    EvolveAppend(v, u, f[p..q], f[q..end]);
    assert f[p..end] == f[p..q] + f[q..end];
  }

  lemma {:induction false} CatchUpTo(
      f: seq<Call>, v0: Option<Entry>, v: Option<Entry>, u: string, p: nat, q: nat, end: nat)
    requires CaughtUp(f, v0, v, u, p, q) && q <= end <= |f|
    ensures p <= end && Evolve(v, u, f[p..end]) == Evolve(v0, u, f[..end])
  {
    assert CatchesUp(f, v0, v, u, p, q);
    EvolveFurther(f, v, u, p, q, end);
    EvolveFurther(f, v0, u, 0, q, end);
    assert f[0..q] == f[..q] && f[0..end] == f[..end];
  }

  /** Every commit behind the stream was carried out, if it makes any call. */
  predicate PassedAreMade(st: Stream, s: State) {
    forall i :: s.reach <= i < s.from && i < |st.jobs| ==> st.jobs[i].calls == []
  }

  lemma {:induction false} SafeRunsPassMade(st: Stream, events: seq<Event>, n: nat)
    requires n <= |events| && Runs(st, events, n) && SafeRestarts(st, events, n)
    ensures PassedAreMade(st, After(st, events, n))
  {
    if n > 0 {
      SafeRunsPassMade(st, events, n - 1);
      RunsKeepOrdered(st, events, n - 1);
    }
  }

  lemma {:induction false} PendingAt(st: Stream, s: State, u: string, repo: ByteString, m: nat)
    requires Ordered(st, s) && PassedAreMade(st, s) && OwnedBy(st.jobs, u, repo) && Tracks(st, s, u, repo, 0)
    requires s.reach <= m <= |st.jobs|
    ensures Evolve(EntryAt(s.table, u), u, LanePending(st, s, repo, m))
         == Evolve(EntryAt(st.table, u), u, Flat(Batches(st.jobs), m))
  {
    var v0, v, f := EntryAt(st.table, u), EntryAt(s.table, u), Lane(st.jobs, repo);
    var p, end := LanePos(st, s, repo, |st.jobs|), LaneOffset(st.jobs, repo, m);
    LanePosOfRest(st, s, repo, m, |st.jobs|);
    LaneOffsetsGrow(st.jobs, repo, s.reach, m);
    LaneOffsetsGrow(st.jobs, repo, m, m);
    assert f[0..] == f;
    var q: nat :| (q == 0 || q <= LaneOffset(st.jobs, repo, s.reach)) && CaughtUp(f, v0, v, u, p, q);
    CatchUpTo(f, v0, v, u, p, q, end);
    LanePendingIsRest(st, s, repo, m);
    assert f[..end][p..] == f[p..end];
    LaneFront(st.jobs, v0, u, repo, m);
  }

  /** At any moment, the table and the calls that are pending make the sequential table. */
  lemma {:induction false} PendingCompletes(st: Stream, events: seq<Event>, n: nat, m: nat, u: string)
    requires st.Valid() && n <= |events| && Runs(st, events, n) && SafeRestarts(st, events, n)
    requires After(st, events, n).reach <= m <= |st.jobs|
    ensures
      var s := After(st, events, n);
      Ordered(st, s) &&
      Evolve(EntryAt(s.table, u), u, Pending(st, s, m)) == Evolve(EntryAt(st.table, u), u, Flat(Batches(st.jobs), m))
  {
    var s := After(st, events, n);
    var repo := Owner(st, u);
    RunsKeepOrdered(st, events, n);
    RunsTrack(st, events, n, u, repo);
    SafeRunsPassMade(st, events, n);
    PendingAt(st, s, u, repo, m);
    LanePendingEvolves(st, s, EntryAt(s.table, u), u, repo, m);
  }

  // After a crash: a fresh start on the table it leaves, with nothing behind the stream.

  /** The commits with all calls of the first `m` taken out. */
  function Behind(jobs: seq<Job>, m: nat): seq<Job> {
    seq(|jobs|, i requires 0 <= i < |jobs| => if i < m then Job(jobs[i].repo, []) else jobs[i])
  }

  function Rebased(st: Stream, t: Table, m: nat): Stream {
    Stream(st.seqnos, Behind(st.jobs, m), st.start, t)
  }

  /** The calls of commits `m` to `r`, one after the other. */
  function CallsBetween(jobs: seq<Job>, m: nat, r: nat): seq<Call>
    requires r <= |jobs|
  {
    if r <= m then [] else CallsBetween(jobs, m, r - 1) + jobs[r - 1].calls
  }

  lemma {:induction false} BehindLeavesBetween(jobs: seq<Job>, m: nat, r: nat)
    requires r <= |jobs|
    ensures Flat(Batches(Behind(jobs, m)), r) == CallsBetween(jobs, m, r)
  {
    if r > 0 {
      BehindLeavesBetween(jobs, m, r - 1);
      if r <= m {
        assert CallsBetween(jobs, m, r - 1) + [] == [];
      }
    }
  }

  lemma {:induction false} SameStep(st: Stream, t: Table, m: nat, s: State, e: Event)
    requires m <= s.from && Enabled(st, s, e)
    ensures Enabled(Rebased(st, t, m), s, e) && Do(Rebased(st, t, m), s, e) == Do(st, s, e)
  {
    var st' := Rebased(st, t, m);
    if !e.Crash? {
      assert st'.jobs[e.i] == st.jobs[e.i];
      assert Turn(st', s, e.i);
    }
  }

  lemma {:induction false} RestartTracks(st: Stream, s: State, u: string, repo: ByteString)
    requires s.from <= |st.jobs| && s.reach <= |st.jobs| && s == Fresh(st, s.table, s.cursor, s.from, s.reach)
    ensures Ordered(Rebased(st, s.table, s.from), s) && Tracks(Rebased(st, s.table, s.from), s, u, repo, 0)
  {
    var st', v := Rebased(st, s.table, s.from), EntryAt(s.table, u);
    var f := Lane(st'.jobs, repo);
    LanePosOfRest(st', s, repo, 0, |st'.jobs|);
    CleanCatchesUp(f[0..], v, v, u, 0, 0);
    assert CaughtUp(f[0..], v, v, u, Beyond(LanePos(st', s, repo, |st'.jobs|), 0), 0);
  }

  /** State `s` is one of the stream rebased at the restart that led to `s1`. */
  ghost predicate FollowsRestart(st: Stream, s1: State, s: State, u: string, repo: ByteString) {
    var st' := Rebased(st, s1.table, s1.from);
    s1.from <= s.from && Ordered(st', s) && Tracks(st', s, u, repo, 0)
  }

  lemma {:induction false} StepFollows(st: Stream, s1: State, s: State, e: Event, u: string, repo: ByteString)
    requires st.Valid() && OwnedBy(st.jobs, u, repo) && FollowsRestart(st, s1, s, u, repo) && Enabled(st, s, e)
    requires (e.Crash? ==> RestartSkipsNothing(st, s, e.live)) && s.from <= Do(st, s, e).from
    ensures FollowsRestart(st, s1, Do(st, s, e), u, repo)
  {
    SameStep(st, s1.table, s1.from, s, e);
    SafeStepTracks(Rebased(st, s1.table, s1.from), s, e, u, repo);
  }

  /** What holds at a state holds after the event too, unless it is a restart that skips something. */
  ghost predicate Keeps(st: Stream, P: State -> bool, s: State, e: Event) {
    P(s) && Enabled(st, s, e) && (e.Crash? ==> RestartSkipsNothing(st, s, e.live)) ==> P(Do(st, s, e))
  }

  lemma {:induction false} SafeInduction(st: Stream, P: State -> bool, events: seq<Event>, first: nat, k: nat)
    requires first <= k <= |events| && Runs(st, events, first) && Runs(st, events, k)
    requires SafeSince(st, events, first, k) && P(After(st, events, first))
    requires forall s, e :: Keeps(st, P, s, e)
    ensures P(After(st, events, k))
    decreases k
  {
    if first < k {
      SafeInduction(st, P, events, first, k - 1);
      assert Keeps(st, P, After(st, events, k - 1), events[k - 1]);
    }
  }

  /** From a restart on, the run is one of the rebased stream. */
  lemma {:induction false} SinceRestart(
      st: Stream, s1: State, events: seq<Event>, first: nat, k: nat, u: string, repo: ByteString)
    requires st.Valid() && OwnedBy(st.jobs, u, repo) && first <= k <= |events|
    requires Runs(st, events, k) && SafeSince(st, events, first, k)
    requires Runs(st, events, first) && s1 == After(st, events, first) && FollowsRestart(st, s1, s1, u, repo)
    requires StreamBehindCursor(st, s1)
    ensures FollowsRestart(st, s1, After(st, events, k), u, repo)
  {
    var P := s => StreamBehindCursor(st, s) && FollowsRestart(st, s1, s, u, repo);
    forall s, e
      ensures Keeps(st, P, s, e)
    {
      if P(s) && Enabled(st, s, e) && (e.Crash? ==> RestartSkipsNothing(st, s, e.live)) {
        StepMovesOn(st, s, e);
        StepFollows(st, s1, s, e, u, repo);
      }
    }
    SafeInduction(st, P, events, first, k);
  }

  lemma {:induction false} CrashFollows(st: Stream, events: seq<Event>, n: nat, u: string, repo: ByteString)
    requires st.Valid() && n < |events| && events[n].Crash? && Runs(st, events, n) && Runs(st, events, n + 1)
    ensures
      var s1 := After(st, events, n + 1);
      && s1.table == After(st, events, n).table
      && StreamBehindCursor(st, s1) && FollowsRestart(st, s1, s1, u, repo)
  {
    RunsKeepOrdered(st, events, n + 1);
    RestartTracks(st, After(st, events, n + 1), u, repo);
    StreamMovesOn(st, events, n + 1);
  }

  /** Event `n` is a crash, and no restart between it and event `k` skips an unfinished commit. */
  predicate CrashesAt(st: Stream, events: seq<Event>, n: nat, k: nat) {
    && n < k <= |events| && events[n].Crash?
    && Runs(st, events, n) && Runs(st, events, n + 1) && Runs(st, events, k)
    && SafeSince(st, events, n + 1, k)
  }

  /**
   Whatever happened before a crash: when the commits up to `r` are handled after it, and no further restart
   skips an unfinished one, the commits from the restart on have been carried out on the table of the crash.
   */
  lemma {:induction false} TableAfterCrash(st: Stream, events: seq<Event>, n: nat, k: nat, r: nat, u: string)
    requires st.Valid() && CrashesAt(st, events, n, k) && HandledUpTo(st, After(st, events, k), r)
    ensures EntryAt(After(st, events, k).table, u)
         == Evolve(EntryAt(After(st, events, n).table, u), u,
                   CallsBetween(st.jobs, After(st, events, n + 1).from, r))
  {
    var repo := Owner(st, u);
    CrashFollows(st, events, n, u, repo);
    var s1 := After(st, events, n + 1);
    SinceRestart(st, s1, events, n + 1, k, u, repo);
    HandledAfterRestart(st, s1, After(st, events, k), r, u, repo);
  }

  lemma {:induction false} HandledAfterRestart(
      st: Stream, s1: State, s: State, r: nat, u: string, repo: ByteString)
    requires OwnedBy(st.jobs, u, repo) && FollowsRestart(st, s1, s, u, repo) && HandledUpTo(st, s, r)
    ensures EntryAt(s.table, u) == Evolve(EntryAt(s1.table, u), u, CallsBetween(st.jobs, s1.from, r))
  {
    HandledMeansThere(Rebased(st, s1.table, s1.from), s, u, repo, 0, r);
    BehindLeavesBetween(st.jobs, s1.from, r);
  }

  lemma {:induction false} ReachGrows(st: Stream, events: seq<Event>, n: nat, k: nat)
    requires n <= k <= |events| && Runs(st, events, n) && Runs(st, events, k)
    ensures After(st, events, n).reach <= After(st, events, k).reach
    decreases k
  {
    if n < k {
      ReachGrows(st, events, n, k - 1);
    }
  }

  /** On table `t` both sequences of calls come to the same entries. */
  ghost predicate SameEffect(t: Table, a: seq<Call>, b: seq<Call>) {
    forall u :: Evolve(EntryAt(t, u), u, a) == Evolve(EntryAt(t, u), u, b)
  }

  /**
   What a crash loses, for a crash at any moment of a run whose other restarts are safe: when the commits up
   to `r` are handled after it, the table is the sequential one exactly if, on the table of the crash, the
   commits from the restart on have the effect of all calls that were pending.
   */
  lemma {:induction false} CrashLosesPending(st: Stream, events: seq<Event>, n: nat, k: nat, r: nat)
    requires st.Valid() && CrashesAt(st, events, n, k) && SafeRestarts(st, events, n)
    requires HandledUpTo(st, After(st, events, k), r)
    ensures
      var s := After(st, events, n);
      var again := CallsBetween(st.jobs, After(st, events, n + 1).from, r);
      Ordered(st, s) &&
      (Sequential(st, After(st, events, k).table, r) <==> SameEffect(s.table, again, Pending(st, s, r)))
  {
    var s, again := After(st, events, n), CallsBetween(st.jobs, After(st, events, n + 1).from, r);
    RunsKeepOrdered(st, events, n);
    ReachGrows(st, events, n, k);
    forall u
      ensures EntryAt(After(st, events, k).table, u) == Evolve(EntryAt(s.table, u), u, again)
      ensures Evolve(EntryAt(s.table, u), u, Pending(st, s, r))
           == Evolve(EntryAt(st.table, u), u, Flat(Batches(st.jobs), r))
    {
      TableAfterCrash(st, events, n, k, r, u);
      PendingCompletes(st, events, n, r, u);
    }
  }
}
