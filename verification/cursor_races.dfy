/** Many publisher and worker handlers at once, every step of one interleaving with every step of the others. */
module CursorRaces {
  import opened Results
  import opened Ingest
  import opened Publishing

  /** How far a handler has come. */
  datatype Progress = Fresh | Sent | FlushDone | Working(left: nat) | Processed | Over

  datatype Handler = Handler(worker: bool, commit: Commit, at: Progress)

  /** The stored cursor, the handlers, and by sequence number what has happened so far. */
  datatype State = State(
    cursor: int, handlers: seq<Handler>,
    published: set<int>, flushed: set<int>, processed: set<int>, skipped: set<int>)

  datatype Event =
    | Hand(c: Commit)                       // the firehose hands a commit to a new publisher handler
    | Receive(c: Commit, calls: nat)        // a worker gets a published message that means `calls` store calls
    | Garbled(c: Commit)                    // a worker gets one that it cannot read
    | Step(h: nat, ok: bool, stored: bool)  // a handler's next step; a failed cursor move may be stored all the same

  predicate Enabled(s: State, e: Event) {
    match e
    case Hand(_) => true
    case Receive(c, _) => c.seqno in s.published
    case Garbled(c) => c.seqno in s.published
    case Step(h, _, _) => h < |s.handlers| && !s.handlers[h].at.Over?
  }

  function Goto(s: State, h: nat, at: Progress): State
    requires h < |s.handlers|
  {
    s.(handlers := s.handlers[h := s.handlers[h].(at := at)])
  }

  function StepHandler(s: State, h: nat, ok: bool, stored: bool): State
    requires h < |s.handlers|
  {
    var c := s.handlers[h].commit;
    var moves := ok || stored;
    match s.handlers[h].at
    case Fresh =>
      if c.tooBig then
        Goto(if moves then s.(cursor := c.seqno, skipped := s.skipped + {c.seqno}) else s, h, Over)
      else if ok then Goto(s.(published := s.published + {c.seqno}), h, Sent)
      else Goto(s, h, Over)
    case Sent =>
      if ok then Goto(s.(flushed := s.flushed + {c.seqno}), h, FlushDone) else Goto(s, h, Over)
    case FlushDone =>
      Goto(if moves then s.(cursor := c.seqno) else s, h, Over)
    case Working(left) =>
      if left > 0 then Goto(s, h, Working(left - 1))
      else Goto(s.(processed := s.processed + {c.seqno}), h, Processed)
    case Processed =>
      Goto(if moves then s.(cursor := c.seqno) else s, h, Over)
    case Over => s
  }

  function Do(s: State, e: Event): State
    requires Enabled(s, e)
  {
    match e
    case Hand(c) => s.(handlers := s.handlers + [Handler(false, c, Fresh)])
    case Receive(c, calls) => s.(handlers := s.handlers + [Handler(true, c, Working(calls))])
    case Garbled(c) => s.(handlers := s.handlers + [Handler(true, c, Over)])
    case Step(h, ok, stored) => StepHandler(s, h, ok, stored)
  }

  function Initial(cursor: int): State {
    State(cursor, [], {}, {}, {}, {})
  }

  predicate Runs(start: int, events: seq<Event>, n: nat)
    requires n <= |events|
    decreases n, 0
  {
    n == 0 || (Runs(start, events, n - 1) && Enabled(After(start, events, n - 1), events[n - 1]))
  }

  function After(start: int, events: seq<Event>, n: nat): State
    requires n <= |events| && Runs(start, events, n)
    decreases n
  {
    if n == 0 then Initial(start) else Do(After(start, events, n - 1), events[n - 1])
  }

  /** A number the cursor may rightly hold. */
  predicate Earned(s: State, start: int, q: int) {
    || q == start || q in s.skipped
    || (q in s.published && q in s.flushed)
    || (q in s.published && q in s.processed)
  }

  predicate HandlerInv(s: State, h: Handler) {
    match h.at
    case Fresh => !h.worker
    case Sent => h.commit.seqno in s.published
    case FlushDone => h.commit.seqno in s.published && h.commit.seqno in s.flushed
    case Working(_) => h.commit.seqno in s.published
    case Processed => h.commit.seqno in s.published && h.commit.seqno in s.processed
    case Over => true
  }

  predicate Inv(s: State, start: int) {
    Earned(s, start, s.cursor) && forall i :: 0 <= i < |s.handlers| ==> HandlerInv(s, s.handlers[i])
  }

  lemma {:induction false} DoKeepsInv(s: State, start: int, e: Event)
    requires Inv(s, start) && Enabled(s, e)
    ensures Inv(Do(s, e), start)
  {
    var s' := Do(s, e);
    if e.Step? {
      assert HandlerInv(s, s.handlers[e.h]);
      forall i | 0 <= i < |s'.handlers|
        ensures HandlerInv(s', s'.handlers[i])
      {
        assert HandlerInv(s, s.handlers[i]);
      }
    }
  }

  lemma {:induction false} RunsKeepInv(start: int, events: seq<Event>, n: nat)
    requires n <= |events| && Runs(start, events, n)
    ensures Inv(After(start, events, n), start)
  {
    if n > 0 {
      RunsKeepInv(start, events, n - 1);
      DoKeepsInv(After(start, events, n - 1), start, events[n - 1]);
    }
  }

  /**
   However handlers interleave and whichever steps fail, the stored cursor is the initial one, that of a
   commit too big to publish, that of one published and flushed, or that of a published one whose processing
   has returned.
   */
  lemma {:induction false} CursorIsEarned(start: int, events: seq<Event>, n: nat)
    requires n <= |events| && Runs(start, events, n)
    ensures Earned(After(start, events, n), start, After(start, events, n).cursor)
  {
    RunsKeepInv(start, events, n);
  }

  // One handler alone does what the publisher's handler does.

  /** The steps of a publisher handler for one commit, with the given outcomes. */
  function SoloRun(c: Commit, o: Outcome): seq<Event> {
    var upsert := Step(0, o.upsert.Stored?, o.upsert.StoredWithError?);
    if c.tooBig then [Hand(c), upsert]
    else if !o.marshalOk || !o.publishOk then [Hand(c), Step(0, false, false)]
    else if !o.flush.Flushed? then [Hand(c), Step(0, true, true), Step(0, false, false)]
    else [Hand(c), Step(0, true, true), Step(0, true, true), upsert]
  }

  lemma {:induction false} OneMore(start: int, events: seq<Event>, n: nat, s: State, s': State)
    requires n < |events| && Runs(start, events, n) && After(start, events, n) == s
    requires Enabled(s, events[n]) && s' == Do(s, events[n])
    ensures Runs(start, events, n + 1) && After(start, events, n + 1) == s'
  {
  }

  function Alone(cursor: int, c: Commit, at: Progress): State {
    Initial(cursor).(handlers := [Handler(false, c, at)])
  }

  lemma {:induction false} SoloRunIsPublish(start: int, b: Broker, c: Commit, o: Outcome)
    ensures
      var events := SoloRun(c, o);
      && Runs(start, events, |events|)
      && After(start, events, |events|).cursor == Publish(Pub(b, start), c, o).0.cursor
      && After(start, events, |events|).handlers == [Handler(false, c, Over)]
  {
    var events := SoloRun(c, o);
    var s1 := Alone(start, c, Fresh);
    OneMore(start, events, 0, Initial(start), s1);
    var s2 := Do(s1, events[1]);
    OneMore(start, events, 1, s1, s2);
    if !c.tooBig && o.marshalOk && o.publishOk {
      var s3 := Do(s2, events[2]);
      OneMore(start, events, 2, s2, s3);
      if o.flush.Flushed? {
        OneMore(start, events, 3, s3, Do(s3, events[3]));
      }
    }
  }

  /** `n` steps of handler `h`, and one more that ends its processing. */
  function AfterCalls(s: State, h: nat, n: nat): (s': State)
    requires h < |s.handlers| && s.handlers[h].at == Working(n)
    ensures |s'.handlers| == |s.handlers| && s'.handlers[h] == s.handlers[h].(at := Processed)
    decreases n
  {
    var s' := Do(s, Step(h, true, true));
    if n == 0 then s' else AfterCalls(s', h, n - 1)
  }

  lemma {:induction false} CallsAreProcessed(s: State, h: nat, n: nat)
    requires h < |s.handlers| && s.handlers[h].at == Working(n)
    ensures
      AfterCalls(s, h, n) == Goto(s.(processed := s.processed + {s.handlers[h].commit.seqno}), h, Processed)
    decreases n
  {
    if n > 0 {
      CallsAreProcessed(Do(s, Step(h, true, true)), h, n - 1);
    }
  }

  /**
   A worker handler alone does what the worker does: after the store calls of its message the commit is
   processed, and only then the cursor moves to it, unless that fails.
   */
  lemma {:induction false} SoloWorkerIsHandle(s: State, c: Commit, calls: nat, ok: bool, stored: bool)
    requires c.seqno in s.published
    ensures
      var h, received := |s.handlers|, Do(s, Receive(c, calls));
      var worked := AfterCalls(received, h, calls);
      var s' := Do(worked, Step(h, ok, stored));
      && worked == s.(processed := s.processed + {c.seqno}, handlers := s.handlers + [Handler(true, c, Processed)])
      && s' == worked.(cursor := if ok || stored then c.seqno else s.cursor,
                       handlers := s.handlers + [Handler(true, c, Over)])
  {
    CallsAreProcessed(Do(s, Receive(c, calls)), |s.handlers|, calls);
  }

  /** How many steps take commit `b` all the way. */
  function StepsOf(b: Commit): nat {
    if b.tooBig then 1 else 3
  }

  function AllTheWay(b: Commit): seq<Event> {
    seq(StepsOf(b), _ => Step(1, true, true))
  }

  /**
   The first of two commits fails to publish while the second one goes all the way. Handlers of one repository
   do not overlap; those of two repositories do.
   */
  function OvertakingRun(a: Commit, b: Commit): seq<Event> {
    if a.repo == b.repo then [Hand(a), Step(0, false, false), Hand(b)] + AllTheWay(b)
    else [Hand(a), Hand(b)] + AllTheWay(b) + [Step(0, false, false)]
  }

  /** Two publisher handlers, the first of which has published nothing. */
  function Pair(cursor: int, a: Handler, b: Commit, at: Progress, published: set<int>, flushed: set<int>): State {
    Initial(cursor).(handlers := [a, Handler(false, b, at)], published := published, flushed := flushed)
  }

  function Numbers(b: Commit): set<int> {
    if b.tooBig then {} else {b.seqno}
  }

  function PairAtEnd(a: Handler, b: Commit): State {
    Pair(b.seqno, a, b, Over, Numbers(b), Numbers(b)).(skipped := if b.tooBig then {b.seqno} else {})
  }

  /** The second handler alone takes the cursor to its commit. */
  lemma {:induction false} SecondGoes(start: int, ev: seq<Event>, n: nat, a: Handler, b: Commit)
    requires n + StepsOf(b) <= |ev| && forall i :: n <= i < n + StepsOf(b) ==> ev[i] == Step(1, true, true)
    requires Runs(start, ev, n) && After(start, ev, n) == Pair(start, a, b, Fresh, {}, {})
    ensures
      var k := n + StepsOf(b);
      Runs(start, ev, k) && After(start, ev, k) == PairAtEnd(a, b)
  {
    var q := b.seqno;
    if b.tooBig {
      OneMore(start, ev, n, Pair(start, a, b, Fresh, {}, {}), PairAtEnd(a, b));
    } else {
      OneMore(start, ev, n, Pair(start, a, b, Fresh, {}, {}), Pair(start, a, b, Sent, {q}, {}));
      OneMore(start, ev, n + 1, Pair(start, a, b, Sent, {q}, {}), Pair(start, a, b, FlushDone, {q}, {q}));
      OneMore(start, ev, n + 2, Pair(start, a, b, FlushDone, {q}, {q}), PairAtEnd(a, b));
    }
  }

  /** Every commit of a repository is handed out when the handlers of its earlier commits have returned. */
  predicate RepoByRepo(start: int, events: seq<Event>, n: nat)
    requires n <= |events| && Runs(start, events, n)
    decreases n
  {
    n == 0 || (RepoByRepo(start, events, n - 1) && TurnOf(After(start, events, n - 1), events[n - 1]))
  }

  predicate TurnOf(s: State, e: Event) {
    e.Hand? ==> forall i :: 0 <= i < |s.handlers| && !s.handlers[i].worker && s.handlers[i].commit.repo == e.c.repo ==>
      s.handlers[i].at.Over?
  }

  lemma {:induction false} HandsInTurn(start: int, events: seq<Event>, k: nat, n: nat)
    requires k <= n <= |events| && Runs(start, events, n) && Runs(start, events, k) && RepoByRepo(start, events, k)
    requires forall i :: k <= i < |events| ==> !events[i].Hand?
    ensures RepoByRepo(start, events, n)
    decreases n
  {
    if k < n {
      HandsInTurn(start, events, k, n - 1);
    }
  }

  /**
   Earned is not enough to restart from: of any two commits the later, too big or not, can take the cursor past
   the earlier, which is then never published.
   */
  lemma {:induction false} CursorCanOvertake(start: int, a: Commit, b: Commit)
    requires a.seqno < b.seqno && !a.tooBig
    ensures
      var ev := OvertakingRun(a, b);
      Runs(start, ev, |ev|) && RepoByRepo(start, ev, |ev|) &&
      var s := After(start, ev, |ev|);
      && s.cursor == b.seqno && a.seqno !in s.published && a.seqno !in s.flushed && a.seqno !in s.processed
      && forall i :: 0 <= i < |s.handlers| ==> s.handlers[i].at.Over?
  {
    var ev, fresh', failed := OvertakingRun(a, b), Handler(false, a, Fresh), Handler(false, a, Over);
    OneMore(start, ev, 0, Initial(start), Alone(start, a, Fresh));
    if a.repo == b.repo {
      OneMore(start, ev, 1, Alone(start, a, Fresh), Alone(start, a, Over));
      OneMore(start, ev, 2, Alone(start, a, Over), Pair(start, failed, b, Fresh, {}, {}));
      SecondGoes(start, ev, 3, failed, b);
      HandsInTurn(start, ev, 3, |ev|);
    } else {
      OneMore(start, ev, 1, Alone(start, a, Fresh), Pair(start, fresh', b, Fresh, {}, {}));
      SecondGoes(start, ev, 2, fresh', b);
      OneMore(start, ev, |ev| - 1, PairAtEnd(fresh', b), PairAtEnd(failed, b));
      HandsInTurn(start, ev, 2, |ev|);
    }
  }

  // When no commit can be skipped.

  /** Commits with growing numbers after the initial cursor. */
  predicate IsLog(start: int, log: seq<Commit>) {
    && (forall i :: 0 <= i < |log| ==> start < log[i].seqno)
    && (forall i, j :: 0 <= i < j < |log| ==> log[i].seqno < log[j].seqno)
  }

  function CommitOf(e: Event): Option<Commit> {
    match e
    case Hand(c) => Some(c)
    case Receive(c, _) => Some(c)
    case Garbled(c) => Some(c)
    case Step(_, _, _) => None
  }

  predicate FromLog(log: seq<Commit>, events: seq<Event>) {
    forall i :: 0 <= i < |events| && CommitOf(events[i]).Some? ==> CommitOf(events[i]).value in log
  }

  /** Each commit to publish up to the cursor has been flushed or processed. */
  predicate NothingSkipped(s: State, log: seq<Commit>) {
    forall c :: c in log && !c.tooBig && c.seqno <= s.cursor ==> c.seqno in s.flushed || c.seqno in s.processed
  }

  /** Handlers work on commits of the log, and numbers that are published or skipped are those of such commits. */
  predicate Stems(s: State, log: seq<Commit>) {
    && (forall i :: 0 <= i < |s.handlers| ==> s.handlers[i].commit in log)
    && (forall q :: q in s.published ==> exists c :: c in log && c.seqno == q)
    && (forall q :: q in s.skipped ==> exists c :: c in log && c.seqno == q && c.tooBig)
  }

  lemma {:induction false} DoStems(s: State, e: Event, log: seq<Commit>)
    requires Stems(s, log) && Enabled(s, e) && (CommitOf(e).Some? ==> CommitOf(e).value in log)
    ensures Stems(Do(s, e), log)
  {
    if e.Step? {
      var c := s.handlers[e.h].commit;
      assert c in log && c.seqno == c.seqno;
    }
  }

  lemma {:induction false} RunsStem(start: int, events: seq<Event>, n: nat, log: seq<Commit>)
    requires n <= |events| && Runs(start, events, n) && FromLog(log, events)
    ensures Stems(After(start, events, n), log)
  {
    if n > 0 {
      RunsStem(start, events, n - 1, log);
      DoStems(After(start, events, n - 1), events[n - 1], log);
    }
  }

  predicate AllButLastTooBig(log: seq<Commit>) {
    forall i :: 0 <= i < |log| - 1 ==> log[i].tooBig
  }

  /** Every run over the log, with any handlers or with those of one repository in turn, skips nothing. */
  ghost predicate SkipsNothing(start: int, log: seq<Commit>, inTurn: bool) {
    forall events ::
      Runs(start, events, |events|) && FromLog(log, events) && (inTurn ==> RepoByRepo(start, events, |events|)) ==>
        NothingSkipped(After(start, events, |events|), log)
  }

  lemma {:induction false} OvertakingSkips(start: int, log: seq<Commit>, inTurn: bool, i: nat)
    requires IsLog(start, log) && i < |log| - 1 && !log[i].tooBig
    ensures !SkipsNothing(start, log, inTurn)
  {
    var ev := OvertakingRun(log[i], log[i + 1]);
    CursorCanOvertake(start, log[i], log[i + 1]);
    assert FromLog(log, ev);
    assert !NothingSkipped(After(start, ev, |ev|), log);
  }

  /**
   With many handlers, each commit to publish up to the stored cursor has been flushed or processed in every
   run, exactly when every commit but the last is too big to publish. Keeping each repository's commits in turn
   changes nothing about that.
   */
  lemma {:induction false} HandlersSkipNothingIff(start: int, log: seq<Commit>, inTurn: bool)
    requires IsLog(start, log)
    ensures SkipsNothing(start, log, inTurn) <==> AllButLastTooBig(log)
  {
    if AllButLastTooBig(log) {
      forall events | Runs(start, events, |events|) && FromLog(log, events)
        ensures NothingSkipped(After(start, events, |events|), log)
      {
        CursorIsEarned(start, events, |events|);
        RunsStem(start, events, |events|, log);
      }
    } else {
      var i :| 0 <= i < |log| - 1 && !log[i].tooBig;
      OvertakingSkips(start, log, inTurn, i);
    }
  }
}
