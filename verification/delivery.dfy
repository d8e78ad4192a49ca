/** At-least-once publishing by one publisher that takes commits in order, beside any number of workers. */
module Delivery {
  import opened Results
  import opened Firehose
  import opened Ingest
  import opened Publishing

  datatype Line = Line(log: seq<Commit>, start: int) {
    function Seqnos(): seq<int> {
      seq(|log|, i requires 0 <= i < |log| => log[i].seqno)
    }

    predicate Valid() {
      start > 0 && Increasing(Seqnos()) && forall i :: 0 <= i < |log| ==> start < Seqnos()[i]
    }
  }

  /** `failed` holds the commits to publish whose handler reported an error while the stream went on. */
  datatype State = State(pub: Pub, next: nat, failed: set<int>)

  datatype Event =
    | Handle(o: Outcome, goesOn: bool) // the next commit; on an error the stream goes on or resumes after the cursor
    | Restart(lost: bool, live: nat)   // the connection or the process restarts; the buffer may be lost
    | Drain(n: nat)                    // buffered messages reach the server without a flush
    | WorkerMoves(seqno: int)          // a worker has handled a delivered message and stores its number

  predicate Enabled(line: Line, s: State, e: Event) {
    match e
    case Handle(_, _) => s.next < |line.log|
    case Restart(_, live) => live <= |line.log|
    case Drain(n) => n <= |s.pub.broker.buffered|
    case WorkerMoves(seqno) => seqno in s.pub.broker.delivered
  }

  function Do(line: Line, s: State, e: Event): State
    requires Enabled(line, s, e)
  {
    var b := s.pub.broker;
    match e
    case Handle(o, goesOn) =>
      var c := line.log[s.next];
      var (pub, ok) := Publish(s.pub, c, o);
      if ok then State(pub, s.next + 1, s.failed)
      else if goesOn then State(pub, s.next + 1, if c.tooBig then s.failed else s.failed + {c.seqno})
      else State(pub, StreamStart(line.Seqnos(), pub.cursor, s.next), s.failed)
    case Restart(lost, live) =>
      s.(pub := s.pub.(broker := if lost then b.(buffered := []) else b),
         next := StreamStart(line.Seqnos(), s.pub.cursor, live))
    case Drain(n) =>
      s.(pub := s.pub.(broker := Broker(b.buffered[n..], b.delivered + b.buffered[..n])))
    case WorkerMoves(seqno) =>
      s.(pub := s.pub.(cursor := seqno))
  }

  function Initial(line: Line): State {
    State(Pub(Broker([], []), line.start), 0, {})
  }

  predicate Runs(line: Line, events: seq<Event>, n: nat)
    requires n <= |events|
    decreases n, 0
  {
    n == 0 || (Runs(line, events, n - 1) && Enabled(line, After(line, events, n - 1), events[n - 1]))
  }

  function After(line: Line, events: seq<Event>, n: nat): State
    requires n <= |events| && Runs(line, events, n)
    decreases n
  {
    if n == 0 then Initial(line) else Do(line, After(line, events, n - 1), events[n - 1])
  }

  /** Every commit to publish up to the stored cursor has reached the server. */
  predicate Kept(line: Line, s: State) {
    forall i :: 0 <= i < |line.log| && line.log[i].seqno <= s.pub.cursor && !line.log[i].tooBig ==>
      line.log[i].seqno in s.pub.broker.delivered
  }

  /** Where the event moves the stored cursor to. */
  function MovedTo(line: Line, s: State, e: Event): Option<int>
    requires Enabled(line, s, e)
  {
    match e
    case Handle(o, _) =>
      var c := line.log[s.next];
      var reached := c.tooBig || (o.marshalOk && o.publishOk && o.flush.Flushed?);
      if reached && !o.upsert.Refused? then Some(c.seqno) else None
    case WorkerMoves(seqno) => Some(seqno)
    case _ => None
  }

  /** The event stores a cursor beyond a commit that failed and still has not reached the server. */
  predicate Overtakes(line: Line, s: State, e: Event)
    requires Enabled(line, s, e)
  {
    MovedTo(line, s, e).Some? &&
    exists g :: g in s.failed && g < MovedTo(line, s, e).value && g !in Do(line, s, e).pub.broker.delivered
  }

  predicate KeptAt(line: Line, events: seq<Event>, k: nat)
    requires k <= |events|
  {
    Runs(line, events, k) && Kept(line, After(line, events, k))
  }

  predicate OvertakesAt(line: Line, events: seq<Event>, k: nat)
    requires k < |events|
  {
    && Runs(line, events, k) && Enabled(line, After(line, events, k), events[k])
    && Overtakes(line, After(line, events, k), events[k])
  }

  /** At every moment of the run. */
  predicate AlwaysKept(line: Line, events: seq<Event>, n: nat)
    requires n <= |events|
  {
    forall k :: 0 <= k <= n ==> KeptAt(line, events, k)
  }

  predicate NeverOvertakes(line: Line, events: seq<Event>, n: nat)
    requires n <= |events|
  {
    forall k :: 0 <= k < n ==> !OvertakesAt(line, events, k)
  }

  // The invariant.

  predicate InLog(line: Line, seqno: int) {
    exists i :: 0 <= i < |line.log| && line.log[i].seqno == seqno
  }

  predicate ToPublish(line: Line, seqno: int) {
    exists i :: 0 <= i < |line.log| && line.log[i].seqno == seqno && !line.log[i].tooBig
  }

  /** Every commit to publish that comes before `bound` is in `got` or has failed. */
  predicate Covers(line: Line, got: seq<int>, failed: set<int>, bound: int) {
    forall i :: 0 <= i < |line.log| && line.log[i].seqno < bound && !line.log[i].tooBig ==>
      line.log[i].seqno in got || line.log[i].seqno in failed
  }

  /** Delivered messages have no gap before them but failed ones, and buffered ones none but what is buffered before. */
  predicate NoGaps(line: Line, b: Broker, failed: set<int>) {
    && (forall m :: m in b.delivered ==> InLog(line, m) && Covers(line, b.delivered, failed, m))
    && (forall j :: 0 <= j < |b.buffered| ==>
          InLog(line, b.buffered[j]) && Covers(line, b.delivered + b.buffered[..j], failed, b.buffered[j]))
  }

  /** Nothing that a restart from `cursor` skips is missing. */
  predicate CursorSafe(line: Line, b: Broker, cursor: int) {
    && cursor > 0
    && forall i :: 0 <= i < |line.log| && line.log[i].seqno <= cursor && !line.log[i].tooBig ==>
         line.log[i].seqno in b.delivered
  }

  predicate PassedOver(line: Line, b: Broker, failed: set<int>, next: nat) {
    && next <= |line.log|
    && forall i :: 0 <= i < next && !line.log[i].tooBig ==>
         line.log[i].seqno in b.delivered || line.log[i].seqno in failed
  }

  predicate Inv(line: Line, s: State) {
    && NoGaps(line, s.pub.broker, s.failed)
    && CursorSafe(line, s.pub.broker, s.pub.cursor)
    && PassedOver(line, s.pub.broker, s.failed, s.next)
  }

  /** A prefix of the buffer reaches the server; the rest is kept or lost. */
  lemma {:induction false} CarryOver(line: Line, b: Broker, failed: set<int>, n: nat, rest: seq<int>)
    requires NoGaps(line, b, failed) && n <= |b.buffered| && (rest == b.buffered[n..] || rest == [])
    ensures NoGaps(line, Broker(rest, b.delivered + b.buffered[..n]), failed)
  {
    forall m | m in b.buffered[..n]
      ensures InLog(line, m) && Covers(line, b.delivered + b.buffered[..n], failed, m)
    {
      var j :| 0 <= j < n && b.buffered[j] == m;
    }
    forall j | 0 <= j < |rest|
      ensures InLog(line, rest[j]) && Covers(line, b.delivered + b.buffered[..n] + rest[..j], failed, rest[j])
    {
      assert b.buffered[n..][j] == b.buffered[n + j];
      assert b.delivered + b.buffered[..n + j] == b.delivered + b.buffered[..n] + b.buffered[n..][..j];
    }
  }

  lemma {:induction false} PublishNext(line: Line, s: State)
    requires line.Valid() && Inv(line, s) && s.next < |line.log|
    ensures
      var b := s.pub.broker;
      NoGaps(line, b.(buffered := b.buffered + [line.log[s.next].seqno]), s.failed)
  {
    var b, seqno := s.pub.broker, line.log[s.next].seqno;
    var buffered := b.buffered + [seqno];
    forall j | 0 <= j < |buffered|
      ensures InLog(line, buffered[j]) && Covers(line, b.delivered + buffered[..j], s.failed, buffered[j])
    {
      if j < |b.buffered| {
        assert buffered[..j] == b.buffered[..j];
      } else {
        NothingBeforeMissing(line, s, b.delivered + buffered[..j]);
      }
    }
  }

  lemma {:induction false} NothingBeforeMissing(line: Line, s: State, got: seq<int>)
    requires line.Valid() && Inv(line, s) && s.next < |line.log|
    requires forall x :: x in s.pub.broker.delivered ==> x in got
    ensures Covers(line, got, s.failed, line.log[s.next].seqno)
  {
    forall i | 0 <= i < |line.log| && line.log[i].seqno < line.log[s.next].seqno && !line.log[i].tooBig
      ensures line.log[i].seqno in got || line.log[i].seqno in s.failed
    {
      assert i < s.next by {
        assert line.Seqnos()[i] < line.Seqnos()[s.next];
      }
    }
  }

  /** A restart skips only what is delivered. */
  lemma {:induction false} RestartSafe(line: Line, b: Broker, failed: set<int>, cursor: int, live: nat)
    requires line.Valid() && CursorSafe(line, b, cursor)
    ensures PassedOver(line, b, failed, StreamStart(line.Seqnos(), cursor, live))
  {
    assert forall i :: 0 <= i < |line.log| ==> line.Seqnos()[i] == line.log[i].seqno;
  }

  /** Moving the cursor to a commit is safe if all before it are delivered or failed, and it passes no failed one. */
  lemma {:induction false} MoveSafe(line: Line, b: Broker, failed: set<int>, k: nat)
    requires line.Valid() && k < |line.log| && Covers(line, b.delivered, failed, line.log[k].seqno)
    requires line.log[k].tooBig || line.log[k].seqno in b.delivered
    requires forall g :: g in failed && g < line.log[k].seqno ==> g in b.delivered
    ensures CursorSafe(line, b, line.log[k].seqno)
  {
    assert line.Seqnos()[k] == line.log[k].seqno;
    forall i | 0 <= i < |line.log| && line.log[i].seqno == line.log[k].seqno
      ensures i == k
    {
      assert line.Seqnos()[i] == line.Seqnos()[k];
    }
  }

  /** After a handler, the stream goes on behind the commit or resumes after the cursor. */
  lemma {:induction false} NextIsPassed(line: Line, s: State, e: Event)
    requires line.Valid() && Inv(line, s) && Enabled(line, s, e) && e.Handle?
    requires
      var s' := Do(line, s, e);
      && CursorSafe(line, s'.pub.broker, s'.pub.cursor)
      && forall x :: x in s.pub.broker.delivered ==> x in s'.pub.broker.delivered
    ensures
      var s' := Do(line, s, e);
      s.failed <= s'.failed && PassedOver(line, s'.pub.broker, s'.failed, s'.next)
  {
    var pub := Do(line, s, e).pub;
    RestartSafe(line, pub.broker, s.failed, pub.cursor, s.next);
  }

  /** What the flush leaves of the buffer with the new message in it. */
  lemma {:induction false} FlushHasNoGaps(line: Line, s: State, f: Flush)
    requires line.Valid() && Inv(line, s) && s.next < |line.log|
    ensures
      var b := s.pub.broker;
      var b' := FlushBroker(b.(buffered := b.buffered + [line.log[s.next].seqno]), f);
      && NoGaps(line, b', s.failed) && (forall x :: x in b.delivered ==> x in b'.delivered)
      && (f.Flushed? ==> line.log[s.next].seqno in b'.delivered)
  {
    var b := s.pub.broker.(buffered := s.pub.broker.buffered + [line.log[s.next].seqno]);
    var b' := FlushBroker(b, f);
    PublishNext(line, s);
    var n := if f.Flushed? || f.reached >= |b.buffered| then |b.buffered| else f.reached;
    assert b.buffered[..|b.buffered|] == b.buffered;
    CarryOver(line, b, s.failed, n, b'.buffered);
    assert line.log[s.next].seqno in b.buffered;
  }

  lemma {:induction false} HandleKeepsInv(line: Line, s: State, e: Event)
    requires line.Valid() && Inv(line, s) && Enabled(line, s, e) && e.Handle? && !Overtakes(line, s, e)
    ensures Inv(line, Do(line, s, e))
  {
    var s' := Do(line, s, e);
    if line.log[s.next].tooBig {
      if !e.o.upsert.Refused? {
        NothingBeforeMissing(line, s, s.pub.broker.delivered);
        MoveSafe(line, s.pub.broker, s.failed, s.next);
      }
    } else if e.o.marshalOk && e.o.publishOk {
      FlushHasNoGaps(line, s, e.o.flush);
      if e.o.flush.Flushed? && !e.o.upsert.Refused? {
        NothingBeforeMissing(line, s, s'.pub.broker.delivered);
        MoveSafe(line, s'.pub.broker, s.failed, s.next);
      }
    }
    NextIsPassed(line, s, e);
  }

  lemma {:induction false} DoKeepsInv(line: Line, s: State, e: Event)
    requires line.Valid() && Inv(line, s) && Enabled(line, s, e) && !Overtakes(line, s, e)
    ensures Inv(line, Do(line, s, e))
  {
    var b := s.pub.broker;
    match e
    case Handle(_, _) =>
      HandleKeepsInv(line, s, e);
    case Restart(lost, live) =>
      RestartSafe(line, b, s.failed, s.pub.cursor, live);
    case Drain(n) =>
      CarryOver(line, b, s.failed, n, b.buffered[n..]);
    case WorkerMoves(seqno) =>
      assert InLog(line, seqno) && Covers(line, b.delivered, s.failed, seqno);
      var k :| 0 <= k < |line.log| && line.log[k].seqno == seqno;
      MoveSafe(line, b, s.failed, k);
  }

  lemma {:induction false} InitialInv(line: Line)
    requires line.Valid()
    ensures Inv(line, Initial(line))
  {
    assert forall i :: 0 <= i < |line.log| ==> line.Seqnos()[i] == line.log[i].seqno;
  }

  lemma {:induction false} RunsKeepInv(line: Line, events: seq<Event>, n: nat)
    requires line.Valid() && n <= |events| && Runs(line, events, n) && NeverOvertakes(line, events, n)
    ensures Inv(line, After(line, events, n))
  {
    if n == 0 {
      InitialInv(line);
    } else {
      RunsKeepInv(line, events, n - 1);
      assert !OvertakesAt(line, events, n - 1);
      DoKeepsInv(line, After(line, events, n - 1), events[n - 1]);
    }
  }

  lemma {:induction false} KeptAtEnd(line: Line, events: seq<Event>, n: nat)
    requires line.Valid() && n <= |events| && Runs(line, events, n) && NeverOvertakes(line, events, n)
    ensures KeptAt(line, events, n)
  {
    RunsKeepInv(line, events, n);
  }

  lemma {:induction false} RunsAlwaysKeep(line: Line, events: seq<Event>, n: nat)
    requires line.Valid() && n <= |events| && Runs(line, events, n) && NeverOvertakes(line, events, n)
    ensures AlwaysKept(line, events, n)
  {
    if n > 0 {
      RunsAlwaysKeep(line, events, n - 1);
    }
    KeptAtEnd(line, events, n);
  }

  predicate FailedToPublish(line: Line, s: State) {
    forall g :: g in s.failed ==> ToPublish(line, g)
  }

  lemma {:induction false} OvertakingSkips(line: Line, s: State, e: Event)
    requires Enabled(line, s, e) && Overtakes(line, s, e) && FailedToPublish(line, s)
    ensures !Kept(line, Do(line, s, e))
  {
    var g :| g in s.failed && g < MovedTo(line, s, e).value && g !in Do(line, s, e).pub.broker.delivered;
    assert ToPublish(line, g);
    assert Do(line, s, e).pub.cursor == MovedTo(line, s, e).value;
  }

  lemma {:induction false} FailedAreToPublish(line: Line, events: seq<Event>, n: nat)
    requires n <= |events| && Runs(line, events, n)
    ensures FailedToPublish(line, After(line, events, n))
  {
    if n > 0 {
      FailedAreToPublish(line, events, n - 1);
    }
  }

  lemma {:induction false} KeptMeansNoOvertaking(line: Line, events: seq<Event>, n: nat)
    requires n <= |events| && AlwaysKept(line, events, n)
    ensures NeverOvertakes(line, events, n)
  {
    forall k | 0 <= k < n
      ensures !OvertakesAt(line, events, k)
    {
      assert KeptAt(line, events, k + 1);
      if OvertakesAt(line, events, k) {
        FailedAreToPublish(line, events, k);
        OvertakingSkips(line, After(line, events, k), events[k]);
      }
    }
  }

  /**
   Through crashes, failed flushes, lost buffers, lost replies and workers' cursor moves, each commit to
   publish up to the stored cursor has reached the server at every moment, exactly if no cursor move is stored
   beyond a commit that failed while the stream went on and has not reached the server since.
   */
  lemma {:induction false} AtLeastOnceIff(line: Line, events: seq<Event>, n: nat)
    requires line.Valid() && n <= |events| && Runs(line, events, n)
    ensures AlwaysKept(line, events, n) <==> NeverOvertakes(line, events, n)
  {
    if NeverOvertakes(line, events, n) {
      RunsAlwaysKeep(line, events, n);
    } else if AlwaysKept(line, events, n) {
      KeptMeansNoOvertaking(line, events, n);
    }
  }

  /** On an error the stream stops and resumes after the stored cursor. */
  predicate StopsOnError(events: seq<Event>, n: nat)
    requires n <= |events|
  {
    forall k :: 0 <= k < n && events[k].Handle? ==> !events[k].goesOn
  }

  lemma {:induction false} StoppingFailsNone(line: Line, events: seq<Event>, n: nat)
    requires n <= |events| && Runs(line, events, n) && StopsOnError(events, n)
    ensures After(line, events, n).failed == {} && NeverOvertakes(line, events, n)
  {
    if n > 0 {
      StoppingFailsNone(line, events, n - 1);
    }
  }

  /** If the stream stops and resumes on errors, no commit to publish is ever skipped. */
  lemma {:induction false} AtLeastOnce(line: Line, events: seq<Event>, n: nat)
    requires line.Valid() && n <= |events| && Runs(line, events, n) && StopsOnError(events, n)
    ensures
      var pub := After(line, events, n).pub;
      forall c :: c in line.log && c.seqno <= pub.cursor && !c.tooBig ==> c.seqno in pub.broker.delivered
  {
    StoppingFailsNone(line, events, n);
    RunsKeepInv(line, events, n);
  }

  // Which logs a stream that goes on after errors can handle.

  ghost predicate EveryRunKeeps(line: Line) {
    forall events :: Runs(line, events, |events|) ==> AlwaysKept(line, events, |events|)
  }

  predicate AllButLastTooBig(line: Line) {
    forall i :: 0 <= i < |line.log| - 1 ==> line.log[i].tooBig
  }

  /** The last commit is the only one that can fail, and no cursor move goes beyond it. */
  lemma {:induction false} LastIsNotPassed(line: Line, s: State, e: Event)
    requires line.Valid() && AllButLastTooBig(line) && Inv(line, s) && FailedToPublish(line, s) && Enabled(line, s, e)
    ensures !Overtakes(line, s, e)
  {
    if MovedTo(line, s, e).Some? {
      var q := MovedTo(line, s, e).value;
      assert InLog(line, q) by {
        if e.Handle? {
          assert line.log[s.next].seqno == q;
        }
      }
      var k :| 0 <= k < |line.log| && line.log[k].seqno == q;
      forall g | g in s.failed
        ensures g >= q
      {
        assert ToPublish(line, g);
        var i :| 0 <= i < |line.log| && line.log[i].seqno == g && !line.log[i].tooBig;
        assert line.Seqnos()[k] == q && line.Seqnos()[i] == g;
      }
    }
  }

  lemma {:induction false} NotPassedAt(line: Line, events: seq<Event>, k: nat)
    requires line.Valid() && AllButLastTooBig(line) && k < |events| && Runs(line, events, k)
    requires Inv(line, After(line, events, k))
    ensures !OvertakesAt(line, events, k)
  {
    FailedAreToPublish(line, events, k);
    if Enabled(line, After(line, events, k), events[k]) {
      LastIsNotPassed(line, After(line, events, k), events[k]);
    }
  }

  lemma {:induction false} LastAloneIsKept(line: Line, events: seq<Event>, n: nat)
    requires line.Valid() && AllButLastTooBig(line) && n <= |events| && Runs(line, events, n)
    ensures NeverOvertakes(line, events, n)
  {
    if n > 0 {
      LastAloneIsKept(line, events, n - 1);
      RunsKeepInv(line, events, n - 1);
      NotPassedAt(line, events, n - 1);
    }
  }

  const FAILS := Outcome(false, false, Flushed, Stored)
  const WORKS := Outcome(true, true, Flushed, Stored)

  /** The first `n` commits fail to publish while the stream goes on; the next one succeeds. */
  function FailingRun(n: nat): seq<Event> {
    seq(n, _ => Handle(FAILS, true)) + [Handle(WORKS, true)]
  }

  /** Whatever has happened to `n` commits of which none was published. */
  predicate NonePublished(line: Line, s: State, n: nat) {
    s.next == n && s.pub.broker == Broker([], [])
  }

  lemma {:induction false} FailingRuns(line: Line, events: seq<Event>, n: nat)
    requires n <= |events| && n <= |line.log| && forall k :: 0 <= k < n ==> events[k] == Handle(FAILS, true)
    ensures Runs(line, events, n) && NonePublished(line, After(line, events, n), n)
  {
    if n > 0 {
      FailingRuns(line, events, n - 1);
    }
  }

  lemma {:induction false} FailureIsPassed(line: Line, i: nat)
    requires line.Valid() && i < |line.log| - 1 && !line.log[i].tooBig
    ensures !EveryRunKeeps(line)
  {
    var events := FailingRun(i + 1);
    FailingRuns(line, events, i + 1);
    var s, s' := After(line, events, i + 1), Do(line, After(line, events, i + 1), events[i + 1]);
    assert Runs(line, events, i + 2) && After(line, events, i + 2) == s';
    assert line.Seqnos()[i] == line.log[i].seqno && line.Seqnos()[i + 1] == line.log[i + 1].seqno;
    assert s'.pub.cursor == line.log[i + 1].seqno && line.log[i].seqno !in s'.pub.broker.delivered;
    assert !KeptAt(line, events, i + 2);
  }

  /** If the stream goes on after errors, every run keeps every commit exactly when all but the last are too big. */
  lemma {:induction false} EveryRunKeepsIff(line: Line)
    requires line.Valid()
    ensures EveryRunKeeps(line) <==> AllButLastTooBig(line)
  {
    if AllButLastTooBig(line) {
      forall events | Runs(line, events, |events|)
        ensures AlwaysKept(line, events, |events|)
      {
        LastAloneIsKept(line, events, |events|);
        RunsAlwaysKeep(line, events, |events|);
      }
    } else {
      var i :| 0 <= i < |line.log| - 1 && !line.log[i].tooBig;
      FailureIsPassed(line, i);
    }
  }
}
