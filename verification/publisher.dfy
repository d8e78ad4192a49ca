/** Commits go from the firehose to the message broker: publish, flush, then move the cursor. */
module Publishing {
  import opened Results
  import opened PostStore
  import opened Ingest

  /** Messages, by sequence number: handed to the connection, and known to have reached the server. */
  datatype Broker = Broker(buffered: seq<int>, delivered: seq<int>)

  /**
   A flush that succeeds means that the whole buffer has reached the server. A failed one may have carried
   a part of it, and the rest may stay in the connection or be lost.
   */
  datatype Flush = Flushed | FlushFailed(reached: nat, kept: bool)

  /** A cursor move is stored, or refused, or stored although an error is reported. */
  datatype Upsert = Stored | Refused | StoredWithError

  datatype Outcome = Outcome(marshalOk: bool, publishOk: bool, flush: Flush, upsert: Upsert)

  datatype Pub = Pub(broker: Broker, cursor: int)

  function FlushBroker(b: Broker, f: Flush): Broker {
    match f
    case Flushed => Broker([], b.delivered + b.buffered)
    case FlushFailed(reached, kept) =>
      var n := if reached < |b.buffered| then reached else |b.buffered|;
      Broker(if kept then b.buffered[n..] else [], b.delivered + b.buffered[..n])
  }

  function MoveCursor(p: Pub, seqno: int, u: Upsert): (Pub, bool) {
    (if u.Refused? then p else p.(cursor := seqno), u.Stored?)
  }

  /** One commit through the publisher, and whether its handler reports success. */
  function Publish(p: Pub, c: Commit, o: Outcome): (Pub, bool) {
    if c.tooBig then MoveCursor(p, c.seqno, o.upsert)
    else if !o.marshalOk || !o.publishOk then (p, false)
    else
      var flushed := p.(broker := FlushBroker(p.broker.(buffered := p.broker.buffered + [c.seqno]), o.flush));
      if o.flush.Flushed? then MoveCursor(flushed, c.seqno, o.upsert) else (flushed, false)
  }

  /**
   A handler succeeds exactly when every step does. Then the message and all before it are at the server and the
   cursor is at the commit; a commit too big is only passed by the cursor.
   */
  lemma {:induction false} PublishSucceedsIff(p: Pub, c: Commit, o: Outcome)
    ensures
      var (p', ok) := Publish(p, c, o);
      && (ok <==> o.upsert.Stored? && (c.tooBig || (o.marshalOk && o.publishOk && o.flush.Flushed?)))
      && (ok ==> p'.cursor == c.seqno)
      && (ok && !c.tooBig ==> p'.broker == Broker([], p.broker.delivered + p.broker.buffered + [c.seqno]))
      && (c.tooBig || !o.marshalOk || !o.publishOk ==> p'.broker == p.broker)
      && (!c.tooBig && !(o.marshalOk && o.publishOk && o.flush.Flushed?) ==> p'.cursor == p.cursor)
  {
  }

  class Connection {
    var buffered: seq<int>
    var delivered: seq<int>

    constructor ()
      ensures Value() == Broker([], [])
    {
      buffered, delivered := [], [];
    }

    function Value(): Broker
      reads this
    {
      Broker(buffered, delivered)
    }

    method Publish(seqno: int, accepted: bool) returns (ok: bool)
      modifies this
      ensures ok == accepted
      ensures Value() == if accepted then old(Value()).(buffered := old(buffered) + [seqno]) else old(Value())
    {
      if accepted {
        buffered := buffered + [seqno];
      }
      return accepted;
    }

    method FlushTimeout(outcome: Flush) returns (ok: bool)
      modifies this
      ensures ok == outcome.Flushed? && Value() == FlushBroker(old(Value()), outcome)
    {
      match outcome
      case Flushed =>
        buffered, delivered := [], delivered + buffered;
        return true;
      case FlushFailed(reached, kept) =>
        var n := if reached < |buffered| then reached else |buffered|;
        buffered, delivered := if kept then buffered[n..] else [], delivered + buffered[..n];
        return false;
    }
  }

  class Publisher {
    const cursorStore: Store
    const nc: Connection
    const service: string

    constructor (cursorStore: Store, nc: Connection, service: string)
      ensures this.cursorStore == cursorStore && this.nc == nc && this.service == service
    {
      this.cursorStore, this.nc, this.service := cursorStore, nc, service;
    }

    /** What the publisher works on; a service without a stored cursor reads as 0. */
    function Value(): Pub
      reads cursorStore, nc
    {
      Pub(nc.Value(), if service in cursorStore.cursors then cursorStore.cursors[service] else 0)
    }

    /** The cursor moves only after a flush that succeeded, or past a commit that is too big to publish. */
    method HandleCommit(evt: Option<Commit>, marshalOk: bool, publishOk: bool, flush: Flush) returns (ok: bool)
      modifies cursorStore, nc
      ensures evt.None? ==> ok && Value() == old(Value())
      ensures evt.Some? ==>
        var upsert := if cursorStore.env.fails(old(cursorStore.calls)) then Refused else Stored;
        (Value(), ok) == Publish(old(Value()), evt.value, Outcome(marshalOk, publishOk, flush, upsert))
      ensures cursorStore.posts == old(cursorStore.posts)
    {
      if evt.None? {
        return true;
      }
      var c := evt.value;
      if c.tooBig {
        ok := cursorStore.UpsertCursor(service, c.seqno);
        return;
      }
      if !marshalOk {
        return false;
      }
      var published := nc.Publish(c.seqno, publishOk);
      if !published {
        return false;
      }
      var flushed := nc.FlushTimeout(flush);
      if !flushed {
        return false;
      }
      ok := cursorStore.UpsertCursor(service, c.seqno);
    }
  }

  /** A queue worker: process the message, then move the cursor; a message that cannot be read is dropped. */
  class Worker {
    const processor: Processor
    const service: string
    const tracksCursor: bool

    constructor (processor: Processor, service: string, tracksCursor: bool)
      ensures this.processor == processor && this.service == service && this.tracksCursor == tracksCursor
    {
      this.processor, this.service, this.tracksCursor := processor, service, tracksCursor;
    }

    method Handle(msg: Option<Commit>)
      modifies processor.store
      ensures msg.None? ==>
        processor.store.posts == old(processor.store.posts) && processor.store.cursors == old(processor.store.cursors)
      ensures msg.Some? ==>
        var s, calls := processor.store, CommitCalls(processor.pipelines, msg.value);
        && s.posts == Run(s.env, old(s.calls), old(s.posts), calls)
        && s.cursors == if tracksCursor && !s.env.fails(old(s.calls) + |calls|)
                        then old(s.cursors)[service := msg.value.seqno] else old(s.cursors)
    {
      if msg.None? {
        return;
      }
      processor.ProcessEvent(msg);
      if tracksCursor {
        var stored := processor.store.UpsertCursor(service, msg.value.seqno);
      }
    }
  }
}
