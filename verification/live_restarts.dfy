/**
 Several commits in flight and no positive cursor at first: every table that goes with a stored cursor is right
 exactly when every commit hides what a live restart may leave, as with one commit at a time.
 */
module LiveRestarts {
  import opened Results
  import opened AtUri
  import opened Firehose
  import opened PostStore
  import opened Entries
  import opened CatchingUp
  import opened Hiding
  import opened Concurrency
  import opened Replay
  import opened ContainedChanges
  import opened Survival

  /** Every commit hides, at every URI, what skipped or cut commits may have left there. */
  ghost predicate SkipsHidden(st: Stream)
    requires |st.seqnos| == |st.jobs|
  {
    forall k: nat, u :: k < |st.jobs| ==> Hides(Batches(st.jobs), EntryAt(st.table, u), u, k)
  }

  ghost predicate MayLeave(st: Stream, u: string, k: nat, x: Option<Entry>)
    requires |st.seqnos| == |st.jobs| && k <= |st.jobs|
  {
    CanLeave(Batches(st.jobs), EntryAt(st.table, u), u, k, x)
  }

  // If every commit hides what came before, only one repository's commits follow a change.

  lemma {:induction false} HidingEndsOthers(st: Stream, u: string, k: nat, x: nat)
    requires |st.seqnos| == |st.jobs| && SkipsHidden(st) && FirstChange(st, u, k, x)
    requires OwnedBy(st.jobs, u, st.jobs[k].repo)
    ensures LastOthers(st, k)
    ensures forall j :: k < j < |st.jobs| ==> st.jobs[j].calls != []
  {
    forall j: nat | k < j < |st.jobs|
      ensures st.jobs[j].repo == st.jobs[k].repo && st.jobs[j].calls != []
    {
      assert Hides(Batches(st.jobs), EntryAt(st.table, u), u, j);
      InFlat(Batches(st.jobs), j, k, st.jobs[k].calls[x]);
      if forall c :: c in st.jobs[j].calls ==> c.uri != u {
        OthersLeaveAlone(None, u, st.jobs[j].calls);
        assert false;
      }
      var c :| c in st.jobs[j].calls && c.uri == u;
    }
  }

  // Before the first stored cursor.

  /** No call is made for the repository's commits from `f` on. */
  predicate LaneFresh(st: Stream, s: State, repo: ByteString, f: nat)
    requires |s.done| == |st.jobs|
  {
    forall i :: f <= i < |st.jobs| && st.jobs[i].repo == repo ==> s.done[i] == 0
  }

  /** The calls made for commit `i` led from an entry that may be left before it to the one at hand. */
  ghost predicate CutNow(st: Stream, s: State, u: string, i: nat)
    requires |st.seqnos| == |st.jobs| == |s.done| && i < |st.jobs| && s.done[i] <= |st.jobs[i].calls|
  {
    exists y :: MayLeave(st, u, i, y) && EntryAt(s.table, u) == Evolve(y, u, st.jobs[i].calls[..s.done[i]])
  }

  /** The entry at hand may be left before every commit that the live stream may join at. */
  ghost predicate LeftForAll(st: Stream, s: State, u: string, repo: ByteString)
    requires |st.seqnos| == |st.jobs| == |s.done|
  {
    forall f: nat :: s.from <= f <= |st.jobs| && LaneFresh(st, s, repo, f) ==> MayLeave(st, u, f, EntryAt(s.table, u))
  }

  ghost predicate WorkingFits(st: Stream, s: State, u: string, repo: ByteString)
    requires |st.seqnos| == |st.jobs| && Ordered(st, s)
  {
    forall i: nat ::
      s.from <= i < |st.jobs| && st.jobs[i].repo == repo && s.done[i] > 0 && i !in s.over ==> CutNow(st, s, u, i)
  }

  /** The entry is what the repository's calls up to their position make of the initial one. */
  ghost predicate CleanSoFar(st: Stream, s: State, u: string, repo: ByteString)
    requires |st.jobs| == |s.done|
  {
    var p := LanePos(st, s, repo, |st.jobs|);
    p <= |Lane(st.jobs, repo)| &&
    EntryAt(s.table, u) == Evolve(EntryAt(st.table, u), u, Lane(st.jobs, repo)[..p])
  }

  ghost predicate Cold(st: Stream, s: State, u: string, k: nat)
    requires |st.seqnos| == |st.jobs| && k < |st.jobs|
  {
    && s.cursor <= 0 && Ordered(st, s)
    && (s.from <= k ==> CleanSoFar(st, s, u, st.jobs[k].repo))
    && LeftForAll(st, s, u, st.jobs[k].repo) && WorkingFits(st, s, u, st.jobs[k].repo)
  }

  lemma {:induction false} ColdAtFirst(st: Stream, u: string, k: nat)
    requires |st.seqnos| == |st.jobs| && st.start <= 0 && k < |st.jobs|
    ensures Cold(st, Fresh(st, st.table, st.start, 0, 0), u, k)
  {
    var s, v := Fresh(st, st.table, st.start, 0, 0), EntryAt(st.table, u);
    LanePosOfRest(st, s, st.jobs[k].repo, 0, |st.jobs|);
    assert Lane(st.jobs, st.jobs[k].repo)[..0] == [];
    forall f: nat | f <= |st.jobs|
      ensures MayLeave(st, u, f, v)
    {
      SkipsTo(Batches(st.jobs), v, u, 0, f, v);
    }
  }

  /** When a commit's turn comes, the entry is one that may be left before it, cut at the calls made. */
  lemma {:induction false} TurnFits(st: Stream, s: State, u: string, i: nat, k: nat)
    requires |st.seqnos| == |st.jobs| && k < |st.jobs| && Cold(st, s, u, k) && Turn(st, s, i)
    requires st.jobs[i].repo == st.jobs[k].repo
    ensures CutNow(st, s, u, i)
  {
    if s.done[i] == 0 {
      assert LaneFresh(st, s, st.jobs[k].repo, i);
      assert st.jobs[i].calls[..0] == [];
      assert MayLeave(st, u, i, EntryAt(s.table, u));
    }
  }

  lemma {:induction false} ColdPerformOwn(st: Stream, s: State, i: nat, stamp: string, u: string, k: nat)
    requires |st.seqnos| == |st.jobs| && k < |st.jobs| && Cold(st, s, u, k)
    requires Enabled(st, s, Perform(i, stamp)) && st.jobs[i].repo == st.jobs[k].repo
    ensures
      var s' := Do(st, s, Perform(i, stamp));
      Ordered(st, s') && LeftForAll(st, s', u, st.jobs[k].repo) && CutNow(st, s', u, i)
  {
    var s', v, calls := Do(st, s, Perform(i, stamp)), EntryAt(st.table, u), st.jobs[i].calls;
    DoKeepsOrdered(st, s, Perform(i, stamp));
    TurnFits(st, s, u, i, k);
    var y :| MayLeave(st, u, i, y) && EntryAt(s.table, u) == Evolve(y, u, calls[..s.done[i]]);
    EvolveNext(y, u, calls, s.done[i]);
    assert EntryAt(s'.table, u) == Evolve(y, u, calls[..s'.done[i]]);
    forall f: nat | s'.from <= f <= |st.jobs| && LaneFresh(st, s', st.jobs[k].repo, f)
      ensures MayLeave(st, u, f, EntryAt(s'.table, u))
    {
      assert f > i;
      CutsAfter(Batches(st.jobs), v, u, i, f, y, s'.done[i], EntryAt(s'.table, u));
    }
  }

  lemma {:induction false} CleanPerform(st: Stream, s: State, i: nat, stamp: string, u: string)
    requires Ordered(st, s) && Enabled(st, s, Perform(i, stamp)) && CleanSoFar(st, s, u, st.jobs[i].repo)
    ensures CleanSoFar(st, Do(st, s, Perform(i, stamp)), u, st.jobs[i].repo)
  {
    PerformMovesOn(st, s, i, stamp);
    NextCallClean(st, s, Do(st, s, Perform(i, stamp)), u, st.jobs[i].repo, LanePos(st, s, st.jobs[i].repo, |st.jobs|));
  }

  lemma {:induction false} NextCallClean(st: Stream, s: State, s': State, u: string, repo: ByteString, p: nat)
    requires |s.done| == |st.jobs| == |s'.done| && CleanSoFar(st, s, u, repo)
    requires p == LanePos(st, s, repo, |st.jobs|) < |Lane(st.jobs, repo)|
    requires p + 1 == LanePos(st, s', repo, |st.jobs|)
    requires EntryAt(s'.table, u) == StepEntry(EntryAt(s.table, u), u, Lane(st.jobs, repo)[p])
    ensures CleanSoFar(st, s', u, repo)
  {
    EvolveNext(EntryAt(st.table, u), u, Lane(st.jobs, repo), p);
  }

  /** Steps that neither touch the URI nor the calls made for its repository. */
  lemma {:induction false} ColdBystander(st: Stream, s: State, s': State, u: string, k: nat)
    requires |st.seqnos| == |st.jobs| && k < |st.jobs| && Cold(st, s, u, k) && Ordered(st, s')
    requires s'.cursor == s.cursor && s'.from == s.from && s.over <= s'.over
    requires EntryAt(s'.table, u) == EntryAt(s.table, u)
    requires forall i :: 0 <= i < |st.jobs| && st.jobs[i].repo == st.jobs[k].repo ==> s'.done[i] == s.done[i]
    ensures Cold(st, s', u, k)
  {
    var repo := st.jobs[k].repo;
    LanePosGrows(st, s, s', repo, |st.jobs|);
    LanePosGrows(st, s', s, repo, |st.jobs|);
    forall f: nat | s'.from <= f <= |st.jobs| && LaneFresh(st, s', repo, f)
      ensures MayLeave(st, u, f, EntryAt(s'.table, u))
    {
      assert LaneFresh(st, s, repo, f);
    }
    forall i: nat | s'.from <= i < |st.jobs| && st.jobs[i].repo == repo && s'.done[i] > 0 && i !in s'.over
      ensures CutNow(st, s', u, i)
    {
      assert CutNow(st, s, u, i);
    }
  }

  lemma {:induction false} ColdPerform(st: Stream, s: State, e: Event, u: string, k: nat)
    requires |st.seqnos| == |st.jobs| && k < |st.jobs| && Cold(st, s, u, k) && OwnedBy(st.jobs, u, st.jobs[k].repo)
    requires Enabled(st, s, e) && e.Perform?
    ensures Cold(st, Do(st, s, e), u, k)
  {
    var s', repo := Do(st, s, e), st.jobs[k].repo;
    DoKeepsOrdered(st, s, e);
    if st.jobs[e.i].repo == repo {
      ColdPerformOwn(st, s, e.i, e.stamp, u, k);
      if s.from <= k {
        CleanPerform(st, s, e.i, e.stamp, u);
      }
      forall i: nat | s'.from <= i < |st.jobs| && st.jobs[i].repo == repo && s'.done[i] > 0 && i !in s'.over
        ensures i == e.i
      {
      }
    } else {
      assert st.jobs[e.i].calls[s.done[e.i]] in st.jobs[e.i].calls;
      ColdBystander(st, s, s', u, k);
    }
  }

  lemma {:induction false} ColdCrash(st: Stream, s: State, live: nat, u: string, k: nat, x: nat)
    requires |st.seqnos| == |st.jobs| && FirstChange(st, u, k, x) && Cold(st, s, u, k)
    requires Enabled(st, s, Crash(live)) && OwnedBy(st.jobs, u, st.jobs[k].repo)
    ensures Cold(st, Do(st, s, Crash(live)), u, k)
  {
    var w := EntryAt(s.table, u);
    DoKeepsOrdered(st, s, Crash(live));
    assert LaneFresh(st, s, st.jobs[k].repo, live);
    assert MayLeave(st, u, live, w);
    forall f: nat | live <= f <= |st.jobs|
      ensures MayLeave(st, u, f, w)
    {
      SkipsTo(Batches(st.jobs), EntryAt(st.table, u), u, live, f, w);
    }
    if live <= k {
      NothingLeftEarly(st, u, k, x, live, w);
      CleanAtStart(st, Do(st, s, Crash(live)), u, st.jobs[k].repo, live);
    }
  }

  /** Before the first change nothing but the initial entry can be left. */
  lemma {:induction false} NothingLeftEarly(st: Stream, u: string, k: nat, x: nat, live: nat, w: Option<Entry>)
    requires |st.seqnos| == |st.jobs| && FirstChange(st, u, k, x) && live <= k && MayLeave(st, u, live, w)
    ensures w == EntryAt(st.table, u)
    ensures Evolve(EntryAt(st.table, u), u, Flat(Batches(st.jobs), live)) == EntryAt(st.table, u)
  {
    forall c | c in Flat(Batches(st.jobs), live) && c.uri == u
      ensures !Alters(st.table, c)
    {
      FlatMember(Batches(st.jobs), live, c);
      var i: nat :| i < live && c in Batches(st.jobs)[i];
    }
    NothingElseLeft(Batches(st.jobs), EntryAt(st.table, u), u, live, w);
    UnalteredBefore(st, u, live);
  }

  lemma {:induction false} CleanAtStart(st: Stream, s: State, u: string, repo: ByteString, live: nat)
    requires live <= |st.jobs| && s == Fresh(st, s.table, s.cursor, live, s.reach)
    requires EntryAt(s.table, u) == EntryAt(st.table, u)
    requires Evolve(EntryAt(st.table, u), u, Flat(Batches(st.jobs), live)) == EntryAt(st.table, u)
    requires OwnedBy(st.jobs, u, repo)
    ensures CleanSoFar(st, s, u, repo)
  {
    LanePosOfDone(st, s, repo, live);
    LanePosOfRest(st, s, repo, live, |st.jobs|);
    LaneFront(st.jobs, EntryAt(st.table, u), u, repo, live);
  }

  // The first stored cursor, and what comes after it.

  lemma {:induction false} CleanTracksFrom(st: Stream, s: State, u: string, repo: ByteString, a: nat)
    requires |s.done| == |st.jobs| && s.reach <= |st.jobs| && ChangeAt(st.table, Lane(st.jobs, repo), u, a)
    requires CleanSoFar(st, s, u, repo)
    requires
      var p := LanePos(st, s, repo, |st.jobs|);
      p <= a || p <= LaneOffset(st.jobs, repo, s.reach)
    ensures Tracks(st, s, u, repo, a)
  {
    var p, lane := LanePos(st, s, repo, |st.jobs|), Lane(st.jobs, repo);
    var v0, v, q := EntryAt(st.table, u), EntryAt(s.table, u), Beyond(p, a);
    LaneUpTo(st.table, lane, u, a, p);
    assert v == Evolve(v0, u, lane[a..][..q]) by {
      if p > a {
        assert lane[a..][..q] == lane[a..p];
      } else {
        assert lane[a..][..0] == [];
      }
    }
    forall r | 0 <= r <= q
      ensures CatchesUp(lane[a..], v0, v, u, r, q)
    {
      CleanCatchesUp(lane[a..], v0, v, u, r, q);
    }
    assert CaughtUp(lane[a..], v0, v, u, Beyond(p, a), q);
  }

  lemma {:induction false} LanePosWithin(st: Stream, s: State, repo: ByteString, n: nat)
    requires n <= |st.jobs| && Ordered(st, s)
    ensures LanePos(st, s, repo, n) <= LaneOffset(st.jobs, repo, n)
  {
    if n > 0 {
      LanePosWithin(st, s, repo, n - 1);
    }
  }

  /** Whatever was left before a commit that hides it, its calls lead to the sequential entry. */
  lemma {:induction false} HidingIsSequential(st: Stream, u: string, i: nat, y: Option<Entry>)
    requires |st.seqnos| == |st.jobs| && i < |st.jobs| && MayLeave(st, u, i, y)
    requires Hides(Batches(st.jobs), EntryAt(st.table, u), u, i)
    ensures Evolve(y, u, st.jobs[i].calls) == Evolve(EntryAt(st.table, u), u, Flat(Batches(st.jobs), i + 1))
  {
    var v, log := EntryAt(st.table, u), Batches(st.jobs);
    HidingSettles(log, v, u, i);
    WholeCanBeLeft(log, v, u, i);
    EvolveAppend(v, u, Flat(log, i), log[i]);
  }

  lemma {:induction false} CutNowIsSequential(st: Stream, s: State, u: string, i: nat)
    requires |st.seqnos| == |st.jobs| == |s.done| && i < |st.jobs| && s.done[i] == |st.jobs[i].calls|
    requires CutNow(st, s, u, i) && Hides(Batches(st.jobs), EntryAt(st.table, u), u, i)
    ensures EntryAt(s.table, u) == Evolve(EntryAt(st.table, u), u, Flat(Batches(st.jobs), i + 1))
  {
    var y :| MayLeave(st, u, i, y) && EntryAt(s.table, u) == Evolve(y, u, st.jobs[i].calls[..s.done[i]]);
    assert st.jobs[i].calls[..s.done[i]] == st.jobs[i].calls;
    HidingIsSequential(st, u, i, y);
  }

  lemma {:induction false} LanePosAtEnd(st: Stream, s: State, i: nat)
    requires Ordered(st, s) && Turn(st, s, i) && s.done[i] == |st.jobs[i].calls|
    ensures LanePos(st, s, st.jobs[i].repo, |st.jobs|) == LaneOffset(st.jobs, st.jobs[i].repo, i + 1)
  {
    LanePosAt(st, s, i);
  }

  /** When a commit after the first change has made its calls, the entry is that of the sequential table. */
  lemma {:induction false} SettledAtEnd(st: Stream, s: State, i: nat, u: string)
    requires |st.seqnos| == |st.jobs| && Ordered(st, s) && Turn(st, s, i) && s.done[i] == |st.jobs[i].calls|
    requires OwnedBy(st.jobs, u, st.jobs[i].repo) && CutNow(st, s, u, i)
    requires Hides(Batches(st.jobs), EntryAt(st.table, u), u, i)
    ensures CleanSoFar(st, s, u, st.jobs[i].repo)
    ensures LanePos(st, s, st.jobs[i].repo, |st.jobs|) == LaneOffset(st.jobs, st.jobs[i].repo, i + 1)
  {
    CutNowIsSequential(st, s, u, i);
    LaneFront(st.jobs, EntryAt(st.table, u), u, st.jobs[i].repo, i + 1);
    LanePosAtEnd(st, s, i);
  }

  lemma {:induction false} FirstStored(st: Stream, s: State, i: nat, u: string, k: nat, x: nat, a: nat)
    requires st.Valid() && SkipsHidden(st) && FirstChange(st, u, k, x) && Cold(st, s, u, k)
    requires Enabled(st, s, Finish(i, true)) && OwnedBy(st.jobs, u, st.jobs[k].repo)
    requires a == LaneOffset(st.jobs, st.jobs[k].repo, k) + x
    ensures InTurn(st, Do(st, s, Finish(i, true)), u, k, a)
  {
    DoKeepsOrdered(st, s, Finish(i, true));
    HidingEndsOthers(st, u, k, x);
    ChangeInLane(st, u, k, x);
    EndTracksFrom(st, s, i, u, k, a);
    StoredTracksFrom(st, s, i, u, st.jobs[k].repo, a);
    StoredInTurn(st, s, i, k);
  }

  lemma {:induction false} StoredTracksFrom(st: Stream, s: State, i: nat, u: string, repo: ByteString, a: nat)
    requires Ordered(st, s) && Enabled(st, s, Finish(i, true)) && a <= |Lane(st.jobs, repo)|
    requires Tracks(st, s, u, repo, a)
    ensures Tracks(st, Do(st, s, Finish(i, true)), u, repo, a)
  {
    var s' := Do(st, s, Finish(i, true));
    LanePosGrows(st, s', s, repo, |st.jobs|);
    BystanderTracks(st, s, s', u, repo, a);
  }

  lemma {:induction false} EndTracksFrom(st: Stream, s: State, i: nat, u: string, k: nat, a: nat)
    requires |st.seqnos| == |st.jobs| && SkipsHidden(st) && k < |st.jobs| && Cold(st, s, u, k) && LastOthers(st, k)
    requires forall j :: k < j < |st.jobs| ==> st.jobs[j].calls != []
    requires Enabled(st, s, Finish(i, true)) && OwnedBy(st.jobs, u, st.jobs[k].repo)
    requires ChangeAt(st.table, Lane(st.jobs, st.jobs[k].repo), u, a) && LaneOffset(st.jobs, st.jobs[k].repo, k) <= a
    ensures Tracks(st, s, u, st.jobs[k].repo, a)
  {
    if s.from > k {
      LateIsClean(st, s, i, u, k);
      LateTracksFrom(st, s, i, u, a);
    } else {
      EarlyTracksFrom(st, s, u, k, a);
    }
  }

  /** The stream has run from before the first change. */
  lemma {:induction false} EarlyTracksFrom(st: Stream, s: State, u: string, k: nat, a: nat)
    requires |st.seqnos| == |st.jobs| && k < |st.jobs| && Cold(st, s, u, k) && s.from <= k
    requires ChangeAt(st.table, Lane(st.jobs, st.jobs[k].repo), u, a) && LaneOffset(st.jobs, st.jobs[k].repo, k) <= a
    ensures Tracks(st, s, u, st.jobs[k].repo, a)
  {
    var n := if s.reach > s.from then s.reach else s.from;
    LanePosOfRest(st, s, st.jobs[k].repo, n, |st.jobs|);
    LanePosWithin(st, s, st.jobs[k].repo, n);
    LaneOffsetsGrow(st.jobs, st.jobs[k].repo, s.from, k);
    CleanTracksFrom(st, s, u, st.jobs[k].repo, a);
  }

  lemma {:induction false} LateIsClean(st: Stream, s: State, i: nat, u: string, k: nat)
    requires |st.seqnos| == |st.jobs| && SkipsHidden(st) && k < |st.jobs| && Cold(st, s, u, k)
    requires Turn(st, s, i) && st.jobs[i].repo == st.jobs[k].repo && s.done[i] == |st.jobs[i].calls|
    requires OwnedBy(st.jobs, u, st.jobs[i].repo)
    ensures CleanSoFar(st, s, u, st.jobs[i].repo)
    ensures LanePos(st, s, st.jobs[i].repo, |st.jobs|) == LaneOffset(st.jobs, st.jobs[i].repo, i + 1)
  {
    assert Hides(Batches(st.jobs), EntryAt(st.table, u), u, i);
    TurnFits(st, s, u, i, k);
    SettledAtEnd(st, s, i, u);
  }

  /** The stream was joined after the first change, and commit `i` has made its calls. */
  lemma {:induction false} LateTracksFrom(st: Stream, s: State, i: nat, u: string, a: nat)
    requires Ordered(st, s) && Turn(st, s, i) && s.done[i] == |st.jobs[i].calls| > 0
    requires CleanSoFar(st, s, u, st.jobs[i].repo)
    requires LanePos(st, s, st.jobs[i].repo, |st.jobs|) == LaneOffset(st.jobs, st.jobs[i].repo, i + 1)
    requires ChangeAt(st.table, Lane(st.jobs, st.jobs[i].repo), u, a)
    ensures Tracks(st, s, u, st.jobs[i].repo, a)
  {
    LaneOffsetsGrow(st.jobs, st.jobs[i].repo, i + 1, s.reach);
    CleanTracksFrom(st, s, u, st.jobs[i].repo, a);
  }

  lemma {:induction false} StoredInTurn(st: Stream, s: State, i: nat, k: nat)
    requires st.Valid() && LastOthers(st, k) && Enabled(st, s, Finish(i, true))
    ensures CursorInTurn(st, Do(st, s, Finish(i, true)), k, st.jobs[k].repo)
  {
    ResumeAfterCommit(st.seqnos, i);
    assert st.seqnos[i] > 0;
    assert i >= k ==> st.jobs[i].repo == st.jobs[k].repo;
  }

  /** What every step keeps at a URI that some commit changes. */
  ghost predicate LiveInv(st: Stream, s: State, u: string, k: nat, a: nat)
    requires |st.seqnos| == |st.jobs| && k < |st.jobs|
  {
    Cold(st, s, u, k) || InTurn(st, s, u, k, a)
  }

  lemma {:induction false} ColdStep(st: Stream, s: State, e: Event, u: string, k: nat, x: nat, a: nat)
    requires st.Valid() && SkipsHidden(st) && FirstChange(st, u, k, x) && OwnedBy(st.jobs, u, st.jobs[k].repo)
    requires a == LaneOffset(st.jobs, st.jobs[k].repo, k) + x && Enabled(st, s, e) && Cold(st, s, u, k)
    ensures LiveInv(st, Do(st, s, e), u, k, a)
  {
    match e
    case Perform(_, _) =>
      ColdPerform(st, s, e, u, k);
    case Finish(i, stored) =>
      if stored {
        FirstStored(st, s, i, u, k, x, a);
      } else {
        DoKeepsOrdered(st, s, e);
        ColdBystander(st, s, Do(st, s, e), u, k);
      }
    case Crash(live) =>
      ColdCrash(st, s, live, u, k, x);
  }

  lemma {:induction false} LiveRuns(st: Stream, events: seq<Event>, n: nat, u: string, k: nat, x: nat, a: nat)
    requires st.Valid() && st.start <= 0 && SkipsHidden(st) && n <= |events| && Runs(st, events, n)
    requires FirstChange(st, u, k, x) && OwnedBy(st.jobs, u, st.jobs[k].repo)
    requires a == LaneOffset(st.jobs, st.jobs[k].repo, k) + x
    ensures LiveInv(st, After(st, events, n), u, k, a)
  {
    if n == 0 {
      ColdAtFirst(st, u, k);
    } else {
      LiveRuns(st, events, n - 1, u, k, x, a);
      LiveStep(st, After(st, events, n - 1), events[n - 1], u, k, x, a);
    }
  }

  lemma {:induction false} LiveStep(st: Stream, s: State, e: Event, u: string, k: nat, x: nat, a: nat)
    requires st.Valid() && SkipsHidden(st) && FirstChange(st, u, k, x) && OwnedBy(st.jobs, u, st.jobs[k].repo)
    requires a == LaneOffset(st.jobs, st.jobs[k].repo, k) + x && Enabled(st, s, e) && LiveInv(st, s, u, k, a)
    ensures LiveInv(st, Do(st, s, e), u, k, a)
  {
    if Cold(st, s, u, k) {
      ColdStep(st, s, e, u, k, x, a);
    } else {
      HidingEndsOthers(st, u, k, x);
      ChangeInLane(st, u, k, x);
      DoKeepsInTurn(st, s, e, u, k, a);
    }
  }

  lemma {:induction false} HiddenIsRight(st: Stream, events: seq<Event>, m: nat)
    requires st.Valid() && st.start <= 0 && SkipsHidden(st) && Runs(st, events, |events|)
    requires HandledUpTo(st, After(st, events, |events|), m) && After(st, events, |events|).cursor > 0
    ensures Sequential(st, After(st, events, |events|).table, m)
  {
    var s := After(st, events, |events|);
    forall u
      ensures EntryAt(s.table, u) == Evolve(EntryAt(st.table, u), u, Flat(Batches(st.jobs), m))
    {
      if Unaltered(st, u) {
        UnalteredStays(st, events, |events|, u);
        UnalteredBefore(st, u, m);
      } else {
        HiddenChangeIsRight(st, events, m, u);
      }
    }
  }

  lemma {:induction false} HiddenChangeIsRight(st: Stream, events: seq<Event>, m: nat, u: string)
    requires st.Valid() && st.start <= 0 && SkipsHidden(st) && Runs(st, events, |events|) && !Unaltered(st, u)
    requires HandledUpTo(st, After(st, events, |events|), m) && After(st, events, |events|).cursor > 0
    ensures EntryAt(After(st, events, |events|).table, u)
         == Evolve(EntryAt(st.table, u), u, Flat(Batches(st.jobs), m))
  {
    FindFirstChange(st, u);
    var k: nat, x: nat :| FirstChange(st, u, k, x);
    var a := LaneOffset(st.jobs, st.jobs[k].repo, k) + x;
    OwnerOfChange(st, u, k, x);
    LiveRuns(st, events, |events|, u, k, x, a);
    ChangeInLane(st, u, k, x);
    HandledMeansThere(st, After(st, events, |events|), u, st.jobs[k].repo, a, m);
  }

  // If some commit does not hide what was left, two runs end with its cursor and different tables.

  ghost predicate EndsRightOnceStored(st: Stream, events: seq<Event>, m: nat) {
    Runs(st, events, |events|) && HandledUpTo(st, After(st, events, |events|), m)
    && After(st, events, |events|).cursor > 0 ==>
      Sequential(st, After(st, events, |events|).table, m)
  }

  ghost predicate RightOnceStored(st: Stream) {
    forall events, m: nat :: EndsRightOnceStored(st, events, m)
  }

  /** With one commit at a time and every cursor stored, each stored cursor finds the crash-free table. */
  ghost predicate CursorsMarkTables(st: Stream) {
    forall events :: st.Valid() && MovesCursor(st, events) ==> MarksTable(st, events)
  }

  ghost predicate MarksTable(st: Stream, events: seq<Event>)
    requires st.Valid() && MovesCursor(st, events)
  {
    CursorIsHandled(st, events);
    Sequential(st, After(st, events, |events|).table, events[|events| - 1].i + 1)
  }

  /** A restart has joined the live stream at commit `k`, with `x` at `u`. */
  ghost predicate JoinedAt(st: Stream, s: State, k: nat, u: string, x: Option<Entry>) {
    s == Fresh(st, s.table, st.start, k, s.reach) && s.reach <= k && EntryAt(s.table, u) == x
  }

  lemma {:induction false} LeftIsReached(st: Stream, u: string, k: nat, x: Option<Entry>)
    requires |st.seqnos| == |st.jobs| && st.start <= 0 && k <= |st.jobs| && MayLeave(st, u, k, x)
    ensures exists events, s :: Leads(st, events, s, true) && JoinedAt(st, s, k, u, x)
  {
    if k == 0 {
      assert Leads(st, [], Fresh(st, st.table, st.start, 0, 0), true);
    } else {
      assert CanLeave(Batches(st.jobs), EntryAt(st.table, u), u, k, x);
      var y, i: nat :| CutAt(Batches(st.jobs), EntryAt(st.table, u), u, k, y, i, x);
      LeftIsReached(st, u, k - 1, y);
      var events, s :| Leads(st, events, s, true) && JoinedAt(st, s, k - 1, u, y);
      PerformSome(st, events, s, k - 1, i, true);
      var more, s' :| Leads(st, more, s', true) && Advanced(st, s, s', k - 1, i);
      CrashJoins(st, s, s', k, u, y, i);
      LeadsOn(st, more, s', Crash(k), true);
    }
  }

  lemma {:induction false} CrashJoins(
      st: Stream, s: State, s': State, k: nat, u: string, y: Option<Entry>, i: nat)
    requires |st.seqnos| == |st.jobs| && st.start <= 0 && 0 < k <= |st.jobs| && i <= |st.jobs[k - 1].calls|
    requires JoinedAt(st, s, k - 1, u, y) && Advanced(st, s, s', k - 1, i)
    ensures Enabled(st, s', Crash(k))
    ensures JoinedAt(st, Do(st, s', Crash(k)), k, u, Evolve(y, u, st.jobs[k - 1].calls[..i]))
  {
  }

  /** A run of one commit at a time that joins the stream at commit `k`, handles it, and leaves `w` at `u`. */
  ghost predicate EndsAt(st: Stream, events: seq<Event>, k: nat, u: string, w: Option<Entry>) {
    && MovesCursor(st, events) && events[|events| - 1].i == k
    && var s := After(st, events, |events|);
      HandledUpTo(st, s, k + 1) && s.cursor > 0 && EntryAt(s.table, u) == w
  }

  lemma {:induction false} JoinsAndEnds(st: Stream, u: string, k: nat, x: Option<Entry>)
    requires st.Valid() && st.start <= 0 && k < |st.jobs| && MayLeave(st, u, k, x)
    ensures exists events :: EndsAt(st, events, k, u, Evolve(x, u, st.jobs[k].calls))
  {
    LeftIsReached(st, u, k, x);
    var events, s :| Leads(st, events, s, true) && JoinedAt(st, s, k, u, x);
    HandleOne(st, events, s, k, true);
    var more, s' :| Leads(st, more + [Finish(k, true)], s', true) && Finished(st, s, s', k);
    FinishEndsAt(st, more, s, s', k, u, x);
  }

  lemma {:induction false} FinishEndsAt(
      st: Stream, more: seq<Event>, s: State, s': State, k: nat, u: string, x: Option<Entry>)
    requires st.Valid() && k < |st.jobs| && JoinedAt(st, s, k, u, x) && Finished(st, s, s', k)
    requires Leads(st, more + [Finish(k, true)], s', true)
    ensures EndsAt(st, more + [Finish(k, true)], k, u, Evolve(x, u, st.jobs[k].calls))
  {
    assert st.seqnos[k] > 0;
    assert HandledUpTo(st, s', k + 1);
  }

  lemma {:induction false} UnhiddenIsLost(st: Stream, k: nat, u: string)
    requires st.Valid() && st.start <= 0 && k < |st.jobs|
    requires !Hides(Batches(st.jobs), EntryAt(st.table, u), u, k)
    ensures !RightOnceStored(st) && !CursorsMarkTables(st)
  {
    var v, log := EntryAt(st.table, u), Batches(st.jobs);
    if Settles(log, v, u, k) {
      SettlingHides(log, v, u, k);
    }
    var x :| CanLeave(log, v, u, k, x) && Evolve(x, u, log[k]) != Evolve(v, u, log[k]);
    SkipsTo(log, v, u, 0, k, v);
    JoinsAndEnds(st, u, k, v);
    JoinsAndEnds(st, u, k, x);
    var a :| EndsAt(st, a, k, u, Evolve(v, u, log[k]));
    var b :| EndsAt(st, b, k, u, Evolve(x, u, log[k]));
    var ta, tb := After(st, a, |a|).table, After(st, b, |b|).table;
    assert Sequential(st, ta, k + 1) && Sequential(st, tb, k + 1) ==> EntryAt(ta, u) == EntryAt(tb, u);
    assert !(EndsRightOnceStored(st, a, k + 1) && EndsRightOnceStored(st, b, k + 1));
    assert !(MarksTable(st, a) && MarksTable(st, b));
  }

  lemma {:induction false} HiddenIsAlwaysRight(st: Stream)
    requires st.Valid() && st.start <= 0 && SkipsHidden(st)
    ensures RightOnceStored(st)
  {
    forall events, m: nat
      ensures EndsRightOnceStored(st, events, m)
    {
      if Runs(st, events, |events|) && HandledUpTo(st, After(st, events, |events|), m)
         && After(st, events, |events|).cursor > 0 {
        HiddenIsRight(st, events, m);
      }
    }
  }

  /**
   With several commits in flight and no positive cursor at first, once a cursor is stored the table is right in
   all runs exactly when every commit hides what a live restart may leave.
   */
  lemma {:induction false} LiveSurvivesIff(st: Stream)
    requires st.Valid() && st.start <= 0
    ensures RightOnceStored(st) <==> SkipsHidden(st)
  {
    if SkipsHidden(st) {
      HiddenIsAlwaysRight(st);
    } else {
      var k: nat, u :| k < |st.jobs| && !Hides(Batches(st.jobs), EntryAt(st.table, u), u, k);
      UnhiddenIsLost(st, k, u);
    }
  }

  /**
   With one commit at a time and no store errors, at every stored cursor the table is that of a crash-free run,
   whatever crashes came before, exactly when the initial cursor is positive or every commit hides what a live
   restart may leave. Several commits in flight are no worse.
   */
  lemma {:induction false} CrashesInvisibleIff(st: Stream)
    requires st.Valid()
    ensures CursorsMarkTables(st) <==> st.start > 0 || SkipsHidden(st)
  {
    if st.start > 0 || SkipsHidden(st) {
      forall events | MovesCursor(st, events)
        ensures MarksTable(st, events)
      {
        MarkedIfHidden(st, events);
      }
    } else {
      var k: nat, u :| k < |st.jobs| && !Hides(Batches(st.jobs), EntryAt(st.table, u), u, k);
      UnhiddenIsLost(st, k, u);
    }
  }

  lemma {:induction false} MarkedIfHidden(st: Stream, events: seq<Event>)
    requires st.Valid() && (st.start > 0 || SkipsHidden(st)) && MovesCursor(st, events)
    ensures MarksTable(st, events)
  {
    CursorIsHandled(st, events);
    var m := events[|events| - 1].i + 1;
    if st.start > 0 {
      ReplayIsInvisible(st, events, |events|, m);
    } else {
      assert st.seqnos[m - 1] > 0;
      HiddenIsRight(st, events, m);
    }
  }
}
