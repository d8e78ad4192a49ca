/**
 One commit at a time: each crash-free step, and runs that crash, resume and repeat calls without anything to be
 seen in the table.
 */
module Replay {
  import opened Pipelines
  import opened Firehose
  import opened PostStore
  import opened Ingest
  import opened Entries
  import opened Concurrency

  /**
   One step of the crash-free run: on a table that reflects the first `n` commits, the handler makes it
   reflect one commit more and then moves the cursor to that commit.
   */
  method HandleNext(sub: Subscription, commit: Commit, ghost t0: Table, ghost batches: seq<seq<Call>>, ghost n: nat)
    requires sub.tracksCursor && NoFailures(sub.processor.store.env)
    requires n < |batches| && batches[n] == CommitCalls(sub.processor.pipelines, commit)
    requires Reflects(sub.processor.store.posts, t0, batches, n)
    modifies sub.processor.store
    ensures Reflects(sub.processor.store.posts, t0, batches, n + 1)
    ensures sub.processor.store.cursors == old(sub.processor.store.cursors)[sub.service := commit.seqno]
  {
    NextBatchReflected(sub.processor.store.env, sub.processor.store.calls, sub.processor.store.posts, t0, batches, n);
    var ok := sub.HandleCommit(commit);
  }

  /** No commit is worked on before those ahead of it are over. */
  predicate Alone(s: State, e: Event) {
    !e.Crash? ==> forall j :: s.from <= j < e.i ==> j in s.over
  }

  predicate OneAtATime(st: Stream, events: seq<Event>, n: nat)
    requires n <= |events| && Runs(st, events, n)
    decreases n
  {
    n == 0 || (OneAtATime(st, events, n - 1) && Alone(After(st, events, n - 1), events[n - 1]))
  }

  predicate AllStored(events: seq<Event>) {
    forall i :: 0 <= i < |events| && events[i].Finish? ==> events[i].stored
  }

  // With a positive cursor, restarts skip nothing.

  predicate CursorSafe(st: Stream, s: State) {
    s.cursor > 0 && forall i :: 0 <= i < ResumeIndex(st.seqnos, s.cursor) ==> i < s.from || i in s.over
  }

  lemma {:induction false} AloneKeepsSafe(st: Stream, s: State, e: Event)
    requires st.Valid() && Enabled(st, s, e) && Alone(s, e) && CursorSafe(st, s)
    ensures CursorSafe(st, Do(st, s, e))
  {
    if e.Finish? {
      ResumeAfterCommit(st.seqnos, e.i);
      assert st.seqnos[e.i] > 0;
    }
  }

  lemma {:induction false} OneAtATimeIsSafe(st: Stream, events: seq<Event>, n: nat)
    requires st.Valid() && st.start > 0 && n <= |events| && Runs(st, events, n) && OneAtATime(st, events, n)
    ensures CursorSafe(st, After(st, events, n)) && SafeRestarts(st, events, n)
  {
    if n == 0 {
      ResumeAtStart(st.seqnos, st.start);
    } else {
      OneAtATimeIsSafe(st, events, n - 1);
      AloneKeepsSafe(st, After(st, events, n - 1), events[n - 1]);
    }
  }

  /**
   However often a subscriber of one commit at a time crashes between calls, and even when cursor moves are lost,
   at every new furthest point the table holds the entries of a run that never crashed.
   */
  lemma {:induction false} ReplayIsInvisible(st: Stream, events: seq<Event>, n: nat, m: nat)
    requires st.Valid() && st.start > 0 && n <= |events| && Runs(st, events, n) && OneAtATime(st, events, n)
    requires HandledUpTo(st, After(st, events, n), m)
    ensures Sequential(st, After(st, events, n).table, m)
  {
    OneAtATimeIsSafe(st, events, n);
    SafeRestartsAreInvisible(st, events, n, m);
  }

  // With every cursor move stored, at most one commit is ever replayed.

  /** The commit that is worked on, or comes next. */
  function Next(st: Stream, s: State): nat {
    if s.cursor > 0 then ResumeIndex(st.seqnos, s.cursor) else s.from
  }

  predicate ReplaysOneCommit(st: Stream, s: State) {
    var k := Next(st, s);
    && |s.done| == |st.jobs| && s.from <= k && s.reach <= k + 1
    && (forall i :: s.from <= i < k ==> i in s.over) && (forall i :: i in s.over ==> i < k)
    && (s.cursor <= 0 && (k < |st.jobs| ==> s.done[k] == 0) ==> s.reach <= k)
  }

  lemma {:induction false} StepReplaysOneCommit(st: Stream, s: State, e: Event)
    requires st.Valid() && Enabled(st, s, e) && Alone(s, e) && ReplaysOneCommit(st, s)
    requires e.Finish? ==> e.stored
    ensures ReplaysOneCommit(st, Do(st, s, e))
    ensures e.Finish? ==> HandledUpTo(st, Do(st, s, e), e.i + 1) && Do(st, s, e).cursor == st.seqnos[e.i]
  {
    assert !e.Crash? && e.i > Next(st, s) ==> Next(st, s) in s.over;
    if e.Finish? {
      ResumeAfterCommit(st.seqnos, e.i);
      assert st.seqnos[e.i] > 0;
    }
  }

  lemma {:induction false} RunsReplayOneCommit(st: Stream, events: seq<Event>, n: nat)
    requires st.Valid() && n <= |events| && Runs(st, events, n) && OneAtATime(st, events, n) && AllStored(events)
    ensures ReplaysOneCommit(st, After(st, events, n))
  {
    if n == 0 {
      ResumeAtStart(st.seqnos, st.start);
    } else {
      RunsReplayOneCommit(st, events, n - 1);
      StepReplaysOneCommit(st, After(st, events, n - 1), events[n - 1]);
    }
  }

  /** A run of one commit at a time without store errors, at the moment a cursor is stored. */
  predicate MovesCursor(st: Stream, events: seq<Event>) {
    && Runs(st, events, |events|) && OneAtATime(st, events, |events|) && AllStored(events)
    && events != [] && events[|events| - 1].Finish?
  }

  lemma {:induction false} CursorIsHandled(st: Stream, events: seq<Event>)
    requires st.Valid() && MovesCursor(st, events)
    ensures
      var s, i := After(st, events, |events|), events[|events| - 1].i;
      i < |st.seqnos| && s.cursor == st.seqnos[i] && HandledUpTo(st, s, i + 1)
  {
    var n := |events|;
    RunsReplayOneCommit(st, events, n - 1);
    StepReplaysOneCommit(st, After(st, events, n - 1), events[n - 1]);
  }

  /**
   With no store errors, at the moment the cursor reaches a commit's number the table holds exactly what a
   crash-free run over the commits up to that number leaves.
   */
  lemma {:induction false} CursorMarksCrashFreeTable(
      pipelines: seq<Pipeline>, commits: seq<Commit>, start: int, table: Table, events: seq<Event>,
      env: Environment, k: nat)
    requires start > 0 && (forall i :: 0 <= i < |commits| ==> commits[i].repo != "") && NoFailures(env)
    requires Numbered(StreamOf(pipelines, commits, start, table).seqnos, start)
    requires MovesCursor(StreamOf(pipelines, commits, start, table), events)
    ensures
      var s, i := After(StreamOf(pipelines, commits, start, table), events, |events|), events[|events| - 1].i;
      && i < |commits| && s.cursor == commits[i].seqno
      && SameEntries(s.table, Run(env, k, table, Flat(CommitBatches(pipelines, commits), i + 1)))
  {
    var st, n := StreamOf(pipelines, commits, start, table), |events|;
    StreamOfIsValid(pipelines, commits, start, table);
    CursorIsHandled(st, events);
    OneAtATimeIsSafe(st, events, n);
    ConcurrentReplayIsInvisible(pipelines, commits, start, table, events, n, events[n - 1].i + 1, env, k);
  }
}
