/**
 A subscription that handles several commits at once: those of one repository in turn, those of different
 repositories together. It may crash between any two store calls. It resumes after the stored cursor or, if
 that is not positive, joins the live stream.
 */
module Concurrency {
  import opened Results
  import opened AtUri
  import opened Pipelines
  import opened Firehose
  import opened PostStore
  import opened Ingest
  import opened Entries
  import opened CatchingUp
  import opened Confluence

  /** The commits after the stored cursor `start`, and the table at that point. */
  datatype Stream = Stream(seqnos: seq<int>, jobs: seq<Job>, start: int, table: Table) {
    ghost predicate Valid() {
      Numbered(seqnos, start) && |seqnos| == |jobs| && UrisOwned(Tasks(jobs, |jobs|))
    }
  }

  /** Sequence numbers are positive and grow from the stored cursor. */
  predicate Numbered(seqnos: seq<int>, start: int) {
    Increasing(seqnos) && forall i :: 0 <= i < |seqnos| ==> start < seqnos[i] && 0 < seqnos[i]
  }

  /**
   Since the last restart the stream has run from commit `from` on; `done` counts the calls made for each
   commit since then, and `over` holds the commits whose handler has returned. No call of commit `reach` or
   a later one was ever made.
   */
  datatype State = State(table: Table, cursor: int, from: nat, done: seq<nat>, over: set<nat>, reach: nat)

  datatype Event =
    | Perform(i: nat, stamp: string)   // the next call of commit `i` succeeds at this clock reading
    | Finish(i: nat, stored: bool)     // commit `i` has made its calls; its cursor move is stored or lost
    | Crash(live: nat)                 // restart after the stored cursor; without one, where the live stream is

  /** The scheduler lets commit `i` go on: the earlier commits of its repository are over. */
  predicate Turn(st: Stream, s: State, i: nat) {
    && s.from <= i < |st.jobs| && i < |s.done| && i !in s.over
    && forall j :: s.from <= j < i && st.jobs[j].repo == st.jobs[i].repo ==> j in s.over
  }

  predicate Enabled(st: Stream, s: State, e: Event) {
    |st.seqnos| == |st.jobs| &&
    match e
    case Perform(i, _) => Turn(st, s, i) && s.done[i] < |st.jobs[i].calls|
    case Finish(i, _) => Turn(st, s, i) && s.done[i] == |st.jobs[i].calls|
    case Crash(live) => live <= |st.jobs| && (s.cursor > 0 || NotBegun(s, live))
  }

  /** The live stream does not go back: commit `live` and those after it are new. */
  predicate NotBegun(s: State, live: nat) {
    s.from <= live && forall i :: live <= i < |s.done| ==> s.done[i] == 0 && i !in s.over
  }

  function Fresh(st: Stream, table: Table, cursor: int, from: nat, reach: nat): State {
    State(table, cursor, from, seq(|st.jobs|, _ => 0), {}, reach)
  }

  function Do(st: Stream, s: State, e: Event): State
    requires Enabled(st, s, e)
  {
    match e
    case Perform(i, stamp) =>
      s.(table := Apply(s.table, st.jobs[i].calls[s.done[i]], stamp), done := s.done[i := s.done[i] + 1],
         reach := if s.reach > i then s.reach else i + 1)
    case Finish(i, stored) =>
      s.(cursor := if stored then st.seqnos[i] else s.cursor, over := s.over + {i})
    case Crash(live) =>
      Fresh(st, s.table, s.cursor, StreamStart(st.seqnos, s.cursor, live), s.reach)
  }

  predicate Runs(st: Stream, events: seq<Event>, n: nat)
    requires n <= |events|
    decreases n, 0
  {
    n == 0 || (Runs(st, events, n - 1) && Enabled(st, After(st, events, n - 1), events[n - 1]))
  }

  function After(st: Stream, events: seq<Event>, n: nat): State
    requires n <= |events| && Runs(st, events, n)
    decreases n
  {
    if n == 0 then Fresh(st, st.table, st.start, 0, 0) else Do(st, After(st, events, n - 1), events[n - 1])
  }

  /** Every commit that a restart would skip is over. */
  predicate RestartSkipsNothing(st: Stream, s: State, live: nat) {
    forall i :: 0 <= i < StreamStart(st.seqnos, s.cursor, live) ==> i < s.from || i in s.over
  }

  /** Among the first `n` events, no restart from event `first` on skips a commit that is not over. */
  predicate SafeSince(st: Stream, events: seq<Event>, first: nat, n: nat)
    requires n <= |events| && Runs(st, events, n)
    decreases n
  {
    n <= first ||
    (SafeSince(st, events, first, n - 1) &&
     (events[n - 1].Crash? ==> RestartSkipsNothing(st, After(st, events, n - 1), events[n - 1].live)))
  }

  predicate SafeRestarts(st: Stream, events: seq<Event>, n: nat)
    requires n <= |events| && Runs(st, events, n)
  {
    SafeSince(st, events, 0, n)
  }

  /** The first `m` commits are over or behind the stream, and no other was ever begun. */
  predicate HandledUpTo(st: Stream, s: State, m: nat) {
    s.reach <= m <= |st.jobs| && forall i :: 0 <= i < m ==> i < s.from || i in s.over
  }

  function Batches(jobs: seq<Job>): seq<seq<Call>> {
    seq(|jobs|, i requires 0 <= i < |jobs| => jobs[i].calls)
  }

  /** The table says at every URI what the first `m` commits, one after the other, make of the initial one. */
  ghost predicate Sequential(st: Stream, t: Table, m: nat)
    requires m <= |st.jobs|
  {
    Reflects(t, st.table, Batches(st.jobs), m)
  }

  // The calls of one repository, and how many of them are made.

  function LaneBatches(jobs: seq<Job>, repo: ByteString): seq<seq<Call>> {
    seq(|jobs|, i requires 0 <= i < |jobs| => if jobs[i].repo == repo then jobs[i].calls else [])
  }

  function Lane(jobs: seq<Job>, repo: ByteString): seq<Call> {
    Flat(LaneBatches(jobs, repo), |jobs|)
  }

  function LaneOffset(jobs: seq<Job>, repo: ByteString, n: nat): nat
    requires n <= |jobs|
  {
    |Flat(LaneBatches(jobs, repo), n)|
  }

  lemma {:induction false} LaneOffsetsGrow(jobs: seq<Job>, repo: ByteString, i: nat, j: nat)
    requires i <= j <= |jobs|
    ensures LaneOffset(jobs, repo, i) <= LaneOffset(jobs, repo, j) <= |Lane(jobs, repo)|
    ensures Lane(jobs, repo)[..LaneOffset(jobs, repo, i)] == Flat(LaneBatches(jobs, repo), i)
  {
    FlatPrefix(LaneBatches(jobs, repo), i, j);
    FlatPrefix(LaneBatches(jobs, repo), j, |jobs|);
    FlatPrefix(LaneBatches(jobs, repo), i, |jobs|);
  }

  /** How many calls of commit `i` the subscriber takes as made, if it is one of the repository. */
  function Made(st: Stream, s: State, repo: ByteString, i: nat): nat
    requires i < |st.jobs| == |s.done|
  {
    if st.jobs[i].repo != repo then 0 else if i < s.from then |st.jobs[i].calls| else s.done[i]
  }

  function LanePos(st: Stream, s: State, repo: ByteString, n: nat): nat
    requires n <= |st.jobs| == |s.done|
  {
    if n == 0 then 0 else LanePos(st, s, repo, n - 1) + Made(st, s, repo, n - 1)
  }

  lemma {:induction false} LanePosGrows(st: Stream, s: State, s': State, repo: ByteString, n: nat)
    requires n <= |st.jobs| == |s.done| == |s'.done|
    requires forall i :: 0 <= i < n ==> Made(st, s, repo, i) <= Made(st, s', repo, i)
    ensures LanePos(st, s, repo, n) <= LanePos(st, s', repo, n)
  {
    if n > 0 {
      LanePosGrows(st, s, s', repo, n - 1);
    }
  }

  lemma {:induction false} LanePosOfDone(st: Stream, s: State, repo: ByteString, n: nat)
    requires n <= |st.jobs| == |s.done|
    requires forall i :: 0 <= i < n && st.jobs[i].repo == repo ==> Made(st, s, repo, i) == |st.jobs[i].calls|
    ensures LanePos(st, s, repo, n) == LaneOffset(st.jobs, repo, n)
  {
    if n > 0 {
      LanePosOfDone(st, s, repo, n - 1);
    }
  }

  lemma {:induction false} LanePosOfRest(st: Stream, s: State, repo: ByteString, k: nat, n: nat)
    requires k <= n <= |st.jobs| == |s.done|
    ensures LanePos(st, s, repo, k) <= LanePos(st, s, repo, n)
    ensures (forall i :: k <= i < n ==> Made(st, s, repo, i) == 0) ==>
      LanePos(st, s, repo, n) == LanePos(st, s, repo, k)
  {
    if k < n {
      LanePosOfRest(st, s, repo, k, n - 1);
    }
  }

  /** All work on a repository is on commit `i`: those before it are done, those after it not begun. */
  predicate Current(st: Stream, s: State, i: nat)
    requires i < |st.jobs| == |s.done|
  {
    && s.from <= i
    && (forall j :: 0 <= j < i && st.jobs[j].repo == st.jobs[i].repo ==>
          Made(st, s, st.jobs[i].repo, j) == |st.jobs[j].calls|)
    && (forall j :: i < j < |st.jobs| ==> Made(st, s, st.jobs[i].repo, j) == 0)
  }

  lemma {:induction false} LanePosAt(st: Stream, s: State, i: nat)
    requires i < |st.jobs| == |s.done| && Current(st, s, i)
    ensures LanePos(st, s, st.jobs[i].repo, |st.jobs|) == LaneOffset(st.jobs, st.jobs[i].repo, i) + s.done[i]
  {
    LanePosOfDone(st, s, st.jobs[i].repo, i);
    LanePosOfRest(st, s, st.jobs[i].repo, i + 1, |st.jobs|);
  }

  // Work on a repository is in order.

  predicate Ordered(st: Stream, s: State) {
    && |s.done| == |st.jobs| && s.from <= |st.jobs| && s.reach <= |st.jobs|
    && (forall i :: 0 <= i < |st.jobs| ==> s.done[i] <= if i < s.reach then |st.jobs[i].calls| else 0)
    && (forall i :: i in s.over ==> s.from <= i < |st.jobs| && s.done[i] == |st.jobs[i].calls|)
    && (forall i, j :: s.from <= i < j < |st.jobs| && st.jobs[i].repo == st.jobs[j].repo && s.done[j] > 0 ==>
          i in s.over)
  }

  lemma {:induction false} DoKeepsOrdered(st: Stream, s: State, e: Event)
    requires Ordered(st, s) && Enabled(st, s, e)
    ensures Ordered(st, Do(st, s, e))
  {
  }

  lemma {:induction false} RunsKeepOrdered(st: Stream, events: seq<Event>, n: nat)
    requires n <= |events| && Runs(st, events, n)
    ensures Ordered(st, After(st, events, n))
  {
    if n > 0 {
      RunsKeepOrdered(st, events, n - 1);
      DoKeepsOrdered(st, After(st, events, n - 1), events[n - 1]);
    }
  }

  // The invariant, URI by URI: its repository's calls run to some point and fall back at safe restarts.

  ghost predicate OwnedBy(jobs: seq<Job>, u: string, repo: ByteString) {
    forall i, c :: 0 <= i < |jobs| && c in jobs[i].calls && c.uri == u ==> jobs[i].repo == repo
  }

  lemma {:induction false} LaneCallAt(jobs: seq<Job>, i: nat, k: nat)
    requires i < |jobs| && k < |jobs[i].calls|
    ensures
      var lane, p := Lane(jobs, jobs[i].repo), LaneOffset(jobs, jobs[i].repo, i) + k;
      p < LaneOffset(jobs, jobs[i].repo, i + 1) <= |lane| && lane[p] == jobs[i].calls[k]
  {
    var repo := jobs[i].repo;
    LaneOffsetsGrow(jobs, repo, i + 1, i + 1);
    var p := LaneOffset(jobs, repo, i) + k;
    assert Lane(jobs, repo)[p] == Lane(jobs, repo)[..LaneOffset(jobs, repo, i + 1)][p];
  }

  /** The call that a commit makes next is the next one of its repository. */
  lemma {:induction false} PerformMovesOn(st: Stream, s: State, i: nat, stamp: string)
    requires Ordered(st, s) && Enabled(st, s, Perform(i, stamp))
    ensures
      var lane, repo, s' := Lane(st.jobs, st.jobs[i].repo), st.jobs[i].repo, Do(st, s, Perform(i, stamp));
      var p := LanePos(st, s, repo, |st.jobs|);
      && LanePos(st, s', repo, |st.jobs|) == p + 1 && p < LaneOffset(st.jobs, repo, i + 1) <= |lane|
      && lane[p] == st.jobs[i].calls[s.done[i]]
  {
    var s', repo := Do(st, s, Perform(i, stamp)), st.jobs[i].repo;
    LanePosAt(st, s, i);
    assert Current(st, s', i) by {
      assert forall j :: 0 <= j < |st.jobs| && j != i ==> Made(st, s', repo, j) == Made(st, s, repo, j);
    }
    LanePosAt(st, s', i);
    LaneCallAt(st.jobs, i, s.done[i]);
  }

  /** The call changes the entry that table `t` has for its URI. */
  predicate Alters(t: Table, c: Call) {
    c.Insert? <==> c.uri !in t
  }

  lemma {:induction false} UnalteredEvolves(t: Table, u: string, calls: seq<Call>)
    requires forall c :: c in calls && c.uri == u ==> !Alters(t, c)
    ensures Evolve(EntryAt(t, u), u, calls) == EntryAt(t, u)
    decreases |calls|
  {
    if calls != [] {
      assert calls[0] in calls;
      UnalteredEvolves(t, u, calls[1..]);
    }
  }

  /** Position `a` of the lane holds the first change of `u`. */
  ghost predicate ChangeAt(t: Table, lane: seq<Call>, u: string, a: nat) {
    && a < |lane| && lane[a].uri == u && Alters(t, lane[a])
    && forall p :: 0 <= p < a && lane[p].uri == u ==> !Alters(t, lane[p])
  }

  /** Position `a` of the lane is its start or holds the first change of `u`. */
  ghost predicate GoodBase(t: Table, lane: seq<Call>, u: string, a: nat) {
    a == 0 || ChangeAt(t, lane, u, a)
  }

  /** How far position `p` is beyond `a`. */
  function Beyond(p: nat, a: nat): nat {
    if p > a then p - a else 0
  }

  /** The entry catches up from the lane's position, if that is beyond `a`, and from `a` otherwise. */
  ghost predicate Tracks(st: Stream, s: State, u: string, repo: ByteString, a: nat)
    requires |s.done| == |st.jobs| && a <= |Lane(st.jobs, repo)|
  {
    s.reach <= |st.jobs| &&
    exists q: nat :: (q == 0 || a + q <= LaneOffset(st.jobs, repo, s.reach)) && CaughtUp(Lane(st.jobs, repo)[a..],
        EntryAt(st.table, u), EntryAt(s.table, u), u, Beyond(LanePos(st, s, repo, |st.jobs|), a), q)
  }

  lemma {:induction false} BystanderTracks(st: Stream, s: State, s': State, u: string, repo: ByteString, a: nat)
    requires |s.done| == |st.jobs| == |s'.done| && a <= |Lane(st.jobs, repo)| && Tracks(st, s, u, repo, a)
    requires s.reach <= s'.reach <= |st.jobs| && EntryAt(s'.table, u) == EntryAt(s.table, u)
    requires Beyond(LanePos(st, s', repo, |st.jobs|), a) <= Beyond(LanePos(st, s, repo, |st.jobs|), a)
    ensures Tracks(st, s', u, repo, a)
  {
    LaneOffsetsGrow(st.jobs, repo, s.reach, s'.reach);
    var v0, v, g := EntryAt(st.table, u), EntryAt(s.table, u), Lane(st.jobs, repo)[a..];
    var q: nat :| (q == 0 || a + q <= LaneOffset(st.jobs, repo, s.reach))
               && CaughtUp(g, v0, v, u, Beyond(LanePos(st, s, repo, |st.jobs|), a), q);
    assert CaughtUp(g, v0, v, u, Beyond(LanePos(st, s', repo, |st.jobs|), a), q);
  }

  /** A call before the first change does not disturb what comes from there on. */
  lemma {:induction false} EarlierCallHarmless(
      t: Table, g: seq<Call>, v: Option<Entry>, u: string, q: nat, c: Call)
    requires g != [] && g[0].uri == u && Alters(t, g[0]) && (c.uri == u ==> !Alters(t, c))
    requires CaughtUp(g, EntryAt(t, u), v, u, 0, q)
    ensures CaughtUp(g, EntryAt(t, u), StepEntry(v, u, c), u, 0, q)
  {
    var v0, w := EntryAt(t, u), StepEntry(v, u, c);
    assert CatchesUp(g, v0, v, u, 0, q);
    assert g[0..q] == g[..q];
    if w != v && v0.Some? && q > 0 {
      assert g[..q][0] == Delete(u);
      DeleteForgets(v, w, u, g[..q]);
    }
    assert CatchesUp(g, v0, w, u, 0, q);
  }

  /** How far beyond `a` a lane has been once its call `p` is made. */
  function ReachAfter(a: nat, p: nat, q: nat): nat {
    if p < a || q > p - a then q else p - a + 1
  }

  lemma {:induction false} NextCallCatchesUp(
      t: Table, lane: seq<Call>, u: string, a: nat, v: Option<Entry>, p: nat, q: nat)
    requires GoodBase(t, lane, u, a) && a <= |lane| && p < |lane|
    requires CaughtUp(lane[a..], EntryAt(t, u), v, u, Beyond(p, a), q)
    ensures CaughtUp(lane[a..], EntryAt(t, u), StepEntry(v, u, lane[p]), u, Beyond(p + 1, a), ReachAfter(a, p, q))
  {
    if p < a {
      EarlierCallHarmless(t, lane[a..], v, u, q, lane[p]);
    } else {
      PerformCatchesUp(lane[a..], EntryAt(t, u), v, u, p - a, q);
    }
  }

  /** A step that makes the next call of the lane. */
  lemma {:induction false} NextCallTracks(
      st: Stream, s: State, s': State, u: string, repo: ByteString, a: nat, p: nat)
    requires |s.done| == |st.jobs| == |s'.done| && GoodBase(st.table, Lane(st.jobs, repo), u, a)
    requires Tracks(st, s, u, repo, a) && s.reach <= s'.reach <= |st.jobs|
    requires p == LanePos(st, s, repo, |st.jobs|) && p + 1 == LanePos(st, s', repo, |st.jobs|)
    requires p < LaneOffset(st.jobs, repo, s'.reach) <= |Lane(st.jobs, repo)|
    requires EntryAt(s'.table, u) == StepEntry(EntryAt(s.table, u), u, Lane(st.jobs, repo)[p])
    ensures Tracks(st, s', u, repo, a)
  {
    var v0, v, g := EntryAt(st.table, u), EntryAt(s.table, u), Lane(st.jobs, repo)[a..];
    LaneOffsetsGrow(st.jobs, repo, s.reach, s'.reach);
    var q: nat :| (q == 0 || a + q <= LaneOffset(st.jobs, repo, s.reach)) && CaughtUp(g, v0, v, u, Beyond(p, a), q);
    NextCallCatchesUp(st.table, Lane(st.jobs, repo), u, a, v, p, q);
    assert CaughtUp(g, v0, EntryAt(s'.table, u), u, Beyond(p + 1, a), ReachAfter(a, p, q));
  }

  lemma {:induction false} OwnCallTracks(st: Stream, s: State, i: nat, stamp: string, u: string, a: nat)
    requires Ordered(st, s) && Enabled(st, s, Perform(i, stamp))
    requires GoodBase(st.table, Lane(st.jobs, st.jobs[i].repo), u, a) && Tracks(st, s, u, st.jobs[i].repo, a)
    ensures Tracks(st, Do(st, s, Perform(i, stamp)), u, st.jobs[i].repo, a)
  {
    var s', repo := Do(st, s, Perform(i, stamp)), st.jobs[i].repo;
    PerformMovesOn(st, s, i, stamp);
    LaneOffsetsGrow(st.jobs, repo, i + 1, s'.reach);
    NextCallTracks(st, s, s', u, repo, a, LanePos(st, s, repo, |st.jobs|));
  }

  lemma {:induction false} PerformTracks(st: Stream, s: State, e: Event, u: string, repo: ByteString, a: nat)
    requires Ordered(st, s) && Enabled(st, s, e) && e.Perform? && OwnedBy(st.jobs, u, repo)
    requires GoodBase(st.table, Lane(st.jobs, repo), u, a) && Tracks(st, s, u, repo, a)
    ensures Tracks(st, Do(st, s, e), u, repo, a)
  {
    var s' := Do(st, s, e);
    if st.jobs[e.i].repo == repo {
      OwnCallTracks(st, s, e.i, e.stamp, u, a);
    } else {
      assert st.jobs[e.i].calls[s.done[e.i]] in st.jobs[e.i].calls;
      LanePosGrows(st, s', s, repo, |st.jobs|);
      BystanderTracks(st, s, s', u, repo, a);
    }
  }

  lemma {:induction false} TracksAtFirst(st: Stream, u: string, repo: ByteString, a: nat)
    requires a <= |Lane(st.jobs, repo)|
    ensures Tracks(st, Fresh(st, st.table, st.start, 0, 0), u, repo, a)
  {
    var s, v, g := Fresh(st, st.table, st.start, 0, 0), EntryAt(st.table, u), Lane(st.jobs, repo)[a..];
    LanePosOfRest(st, s, repo, 0, |st.jobs|);
    CleanCatchesUp(g, v, v, u, 0, 0);
    assert CaughtUp(g, v, v, u, Beyond(LanePos(st, s, repo, |st.jobs|), a), 0);
  }

  lemma {:induction false} DoTracks(st: Stream, s: State, e: Event, u: string, repo: ByteString, a: nat)
    requires OwnedBy(st.jobs, u, repo) && Ordered(st, s) && Enabled(st, s, e)
    requires GoodBase(st.table, Lane(st.jobs, repo), u, a) && Tracks(st, s, u, repo, a)
    requires e.Crash? ==>
      Beyond(LanePos(st, Do(st, s, e), repo, |st.jobs|), a) <= Beyond(LanePos(st, s, repo, |st.jobs|), a)
    ensures Ordered(st, Do(st, s, e)) && Tracks(st, Do(st, s, e), u, repo, a)
  {
    DoKeepsOrdered(st, s, e);
    if e.Perform? {
      PerformTracks(st, s, e, u, repo, a);
    } else {
      if e.Finish? {
        LanePosGrows(st, Do(st, s, e), s, repo, |st.jobs|);
      }
      BystanderTracks(st, s, Do(st, s, e), u, repo, a);
    }
  }

  lemma {:induction false} RunsTrack(st: Stream, events: seq<Event>, n: nat, u: string, repo: ByteString)
    requires OwnedBy(st.jobs, u, repo)
    requires n <= |events| && Runs(st, events, n) && SafeRestarts(st, events, n)
    requires Ordered(st, After(st, events, n))
    ensures Tracks(st, After(st, events, n), u, repo, 0)
  {
    if n == 0 {
      TracksAtFirst(st, u, repo, 0);
    } else {
      RunsKeepOrdered(st, events, n - 1);
      RunsTrack(st, events, n - 1, u, repo);
      SafeStepTracks(st, After(st, events, n - 1), events[n - 1], u, repo);
    }
  }

  lemma {:induction false} SafeStepTracks(st: Stream, s: State, e: Event, u: string, repo: ByteString)
    requires OwnedBy(st.jobs, u, repo) && Ordered(st, s) && Enabled(st, s, e) && Tracks(st, s, u, repo, 0)
    requires e.Crash? ==> RestartSkipsNothing(st, s, e.live)
    ensures Ordered(st, Do(st, s, e)) && Tracks(st, Do(st, s, e), u, repo, 0)
  {
    if e.Crash? {
      LanePosGrows(st, Do(st, s, e), s, repo, |st.jobs|);
    }
    DoTracks(st, s, e, u, repo, 0);
  }

  lemma {:induction false} OthersLeaveAlone(v: Option<Entry>, u: string, calls: seq<Call>)
    requires forall c :: c in calls ==> c.uri != u
    ensures Evolve(v, u, calls) == v
    decreases |calls|
  {
    if calls != [] {
      assert calls[0] in calls;
      OthersLeaveAlone(v, u, calls[1..]);
    }
  }

  lemma {:induction false} LaneStep(
      v: Option<Entry>, u: string, a: seq<Call>, x: seq<Call>, b: seq<Call>, y: seq<Call>)
    requires Evolve(v, u, a) == Evolve(v, u, b)
    requires x == y || (x == [] && forall c :: c in y ==> c.uri != u)
    ensures Evolve(v, u, a + x) == Evolve(v, u, b + y)
  {
    EvolveAppend(v, u, a, x);
    EvolveAppend(v, u, b, y);
    if x != y {
      OthersLeaveAlone(Evolve(v, u, b), u, y);
    }
  }

  /** At a URI only the calls of its repository matter. */
  lemma {:induction false} LaneEvolves(jobs: seq<Job>, v: Option<Entry>, u: string, repo: ByteString, m: nat)
    requires m <= |jobs| && OwnedBy(jobs, u, repo)
    ensures Evolve(v, u, Flat(LaneBatches(jobs, repo), m)) == Evolve(v, u, Flat(Batches(jobs), m))
  {
    if m > 0 {
      LaneEvolves(jobs, v, u, repo, m - 1);
      var x, y := LaneBatches(jobs, repo)[m - 1], Batches(jobs)[m - 1];
      LaneStep(v, u, Flat(LaneBatches(jobs, repo), m - 1), x, Flat(Batches(jobs), m - 1), y);
    }
  }

  lemma {:induction false} LaneFront(jobs: seq<Job>, v: Option<Entry>, u: string, repo: ByteString, m: nat)
    requires m <= |jobs| && OwnedBy(jobs, u, repo)
    ensures LaneOffset(jobs, repo, m) <= |Lane(jobs, repo)|
    ensures Evolve(v, u, Lane(jobs, repo)[..LaneOffset(jobs, repo, m)]) == Evolve(v, u, Flat(Batches(jobs), m))
  {
    LaneOffsetsGrow(jobs, repo, m, m);
    LaneEvolves(jobs, v, u, repo, m);
  }

  lemma {:induction false} JobHasTask(jobs: seq<Job>, n: nat, i: nat, c: Call)
    requires i < n <= |jobs| && c in jobs[i].calls
    ensures Task(jobs[i].repo, c) in Tasks(jobs, n)
  {
    if i < n - 1 {
      JobHasTask(jobs, n - 1, i, c);
    } else {
      var k :| 0 <= k < |jobs[i].calls| && jobs[i].calls[k] == c;
      assert Tagged(jobs[i].repo, jobs[i].calls)[k] == Task(jobs[i].repo, c);
    }
  }

  lemma {:induction false} Owner(st: Stream, u: string) returns (repo: ByteString)
    requires st.Valid()
    ensures OwnedBy(st.jobs, u, repo)
  {
    var n := |st.jobs|;
    if exists task :: task in Tasks(st.jobs, n) && task.call.uri == u {
      var task :| task in Tasks(st.jobs, n) && task.call.uri == u;
      repo := task.repo;
    } else {
      repo := "";
    }
    forall i, c | 0 <= i < n && c in st.jobs[i].calls && c.uri == u
      ensures st.jobs[i].repo == repo
    {
      JobHasTask(st.jobs, n, i, c);
    }
  }

  lemma {:induction false} HandledPos(st: Stream, s: State, repo: ByteString, m: nat)
    requires Ordered(st, s) && HandledUpTo(st, s, m)
    ensures LaneOffset(st.jobs, repo, s.reach) <= LaneOffset(st.jobs, repo, m) <= LanePos(st, s, repo, |st.jobs|)
  {
    LanePosOfDone(st, s, repo, m);
    LanePosOfRest(st, s, repo, m, |st.jobs|);
    LaneOffsetsGrow(st.jobs, repo, s.reach, m);
  }

  lemma {:induction false} LaneUpTo(t: Table, lane: seq<Call>, u: string, a: nat, end: nat)
    requires GoodBase(t, lane, u, a) && end <= |lane|
    ensures Evolve(EntryAt(t, u), u, lane[..end])
         == if end <= a then EntryAt(t, u) else Evolve(EntryAt(t, u), u, lane[a..end])
  {
    var cut := if end <= a then end else a;
    UnalteredEvolves(t, u, lane[..cut]);
    EvolveAppend(EntryAt(t, u), u, lane[..cut], lane[cut..end]);
    assert lane[..end] == lane[..cut] + lane[cut..end];
  }

  lemma {:induction false} EndsAtReach(
      t: Table, lane: seq<Call>, u: string, a: nat, v: Option<Entry>, p: nat, q: nat, end: nat)
    requires GoodBase(t, lane, u, a) && a <= |lane| && CaughtUp(lane[a..], EntryAt(t, u), v, u, Beyond(p, a), q)
    requires (q == 0 || a + q <= end) && end <= p && end <= |lane|
    ensures v == Evolve(EntryAt(t, u), u, lane[..end])
  {
    LaneUpTo(t, lane, u, a, end);
    CaughtUpAtReach(lane[a..], EntryAt(t, u), v, u, Beyond(p, a), q);
    if q > 0 {
      assert lane[a..][..q] == lane[a..end];
    } else {
      assert lane[a..][..0] == [];
    }
  }

  lemma {:induction false} HandledMeansThere(st: Stream, s: State, u: string, repo: ByteString, a: nat, m: nat)
    requires Ordered(st, s) && HandledUpTo(st, s, m) && OwnedBy(st.jobs, u, repo)
    requires GoodBase(st.table, Lane(st.jobs, repo), u, a) && Tracks(st, s, u, repo, a)
    ensures EntryAt(s.table, u) == Evolve(EntryAt(st.table, u), u, Flat(Batches(st.jobs), m))
  {
    var lane, v0, v := Lane(st.jobs, repo), EntryAt(st.table, u), EntryAt(s.table, u);
    var p, end := LanePos(st, s, repo, |st.jobs|), LaneOffset(st.jobs, repo, m);
    HandledPos(st, s, repo, m);
    LaneFront(st.jobs, v0, u, repo, m);
    var q: nat :| (q == 0 || a + q <= LaneOffset(st.jobs, repo, s.reach))
               && CaughtUp(lane[a..], v0, v, u, Beyond(p, a), q);
    EndsAtReach(st.table, lane, u, a, v, p, q, end);
  }

  /** If every restart skips only commits that are over, crashes and concurrency cannot be seen in the table. */
  lemma {:induction false} SafeRestartsAreInvisible(st: Stream, events: seq<Event>, n: nat, m: nat)
    requires st.Valid() && n <= |events| && Runs(st, events, n) && SafeRestarts(st, events, n)
    requires HandledUpTo(st, After(st, events, n), m)
    ensures Sequential(st, After(st, events, n).table, m)
  {
    var s := After(st, events, n);
    forall u
      ensures EntryAt(s.table, u) == Evolve(EntryAt(st.table, u), u, Flat(Batches(st.jobs), m))
    {
      var repo := Owner(st, u);
      RunsKeepOrdered(st, events, n);
      RunsTrack(st, events, n, u, repo);
      HandledMeansThere(st, s, u, repo, 0, m);
    }
  }

  // The same for commits.

  function StreamOf(pipelines: seq<Pipeline>, commits: seq<Commit>, start: int, table: Table): Stream {
    Stream(seq(|commits|, i requires 0 <= i < |commits| => commits[i].seqno), JobsOf(pipelines, commits), start, table)
  }

  lemma {:induction false} StreamOfIsValid(
      pipelines: seq<Pipeline>, commits: seq<Commit>, start: int, table: Table)
    requires forall i :: 0 <= i < |commits| ==> commits[i].repo != ""
    requires Numbered(StreamOf(pipelines, commits, start, table).seqnos, start)
    ensures StreamOf(pipelines, commits, start, table).Valid()
    ensures Batches(StreamOf(pipelines, commits, start, table).jobs) == CommitBatches(pipelines, commits)
  {
    CommitsOwnTheirUris(pipelines, commits);
  }

  /**
   Whatever is handled at once and wherever it crashes, the table holds the entries of handling the commits
   one after the other, provided that at each restart the commits up to the stored cursor are over.
   */
  lemma {:induction false} ConcurrentReplayIsInvisible(
      pipelines: seq<Pipeline>, commits: seq<Commit>, start: int, table: Table,
      events: seq<Event>, n: nat, m: nat, env: Environment, k: nat)
    requires forall i :: 0 <= i < |commits| ==> commits[i].repo != ""
    requires Numbered(StreamOf(pipelines, commits, start, table).seqnos, start) && NoFailures(env)
    requires n <= |events| && Runs(StreamOf(pipelines, commits, start, table), events, n)
    requires SafeRestarts(StreamOf(pipelines, commits, start, table), events, n)
    requires HandledUpTo(StreamOf(pipelines, commits, start, table),
                         After(StreamOf(pipelines, commits, start, table), events, n), m)
    ensures SameEntries(After(StreamOf(pipelines, commits, start, table), events, n).table,
                        Run(env, k, table, Flat(CommitBatches(pipelines, commits), m)))
  {
    var st := StreamOf(pipelines, commits, start, table);
    StreamOfIsValid(pipelines, commits, start, table);
    SafeRestartsAreInvisible(st, events, n, m);
    ReflectsIsCrashFree(env, k, After(st, events, n).table, table, CommitBatches(pipelines, commits), m);
  }
}
