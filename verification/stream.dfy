/** Streams: byte channels to services, multiplexed over one connection. */
module Streams {
  import opened Bytes
  import opened Results
  import opened Wire
  import opened Framing
  import opened Sessions
  import opened Connections
  import opened Delivery
  import opened Reading

  const WRITE_TOO_LARGE :=
    Error(InvalidArgument, "the write is larger than the negotiated maximum payload")

  function OkayFrame(local: u32, remote: u32): Frame
  {
    Frame(EmptyMessage(OKAY, local, remote), [])
  }

  function CloseFrame(local: u32, remote: u32): Frame
  {
    Frame(EmptyMessage(CLSE, local, remote), [])
  }

  /** What a stream sends when it is closed, unless it has nothing to say. */
  function Farewell(silent: bool, local: u32, remote: u32): seq<Frame>
  {
    if silent then [] else [CloseFrame(local, remote)]
  }

  /** The frame that carries `data`, when its length fits the header. */
  function DataFrame(command: u32, arg0: u32, arg1: u32, data: seq<byte>): (f: Frame)
    requires |data| < WORD
    ensures Carries(f, command, arg0, arg1, data)
  {
    Frame(MakeMessage(command, arg0, arg1, data).value, data)
  }

  /** What the host sends passes every check of a receiver, and its acknowledgements name both ends of the stream. */
  lemma SentIsAcceptable(command: u32, local: u32, remote: u32, data: seq<byte>)
    requires |data| <= MAX_DATA
    ensures Carries(OkayFrame(local, remote), OKAY, local, remote, []) && Acceptable(OkayFrame(local, remote))
    ensures Carries(CloseFrame(local, remote), CLSE, local, remote, []) && Acceptable(CloseFrame(local, remote))
    ensures Acceptable(DataFrame(command, local, remote, data))
  {
    EmptyMessageOnWire(OKAY, local, remote);
    EmptyMessageOnWire(CLSE, local, remote);
  }

  /** OPEN announces a window exactly when delayed acknowledgement was negotiated. */
  function Window(delayedAck: bool): u32 { if delayedAck then INITIAL_DELAYED_ACK_BYTES else 0 }

  function OpenFrame(local: u32, delayedAck: bool, service: seq<byte>): Frame
    requires |Destination(service)| < WORD
  {
    DataFrame(OPEN, local, Window(delayedAck), Destination(service))
  }

  /**
   An OPEN on the wire: the host's id, a window exactly when delayed acknowledgement was negotiated, and the service as
   a C string.
   */
  predicate AnnouncesOpen(f: Frame, local: u32, delayedAck: bool, service: seq<byte>)
  {
    Carries(f, OPEN, local, f.header.arg1, service + [0]) && (f.header.arg1 != 0 <==> delayedAck)
  }

  /** Frames for other streams. */
  predicate Foreign(id: u32, fs: seq<Frame>) { forall f <- fs :: f.header.arg1 != id }

  /** Frames received for an OPEN that the device accepted: others' frames, then the OKAY with the device's id. */
  predicate AnsweredBy(id: u32, fs: seq<Frame>, remote: u32)
  {
    && fs != [] && Foreign(id, fs[..|fs| - 1])
    && var answer := fs[|fs| - 1].header;
       answer.arg1 == id && answer.command == OKAY && answer.arg0 == remote
  }

  /** Frames received for an OPEN that failed: others' frames, and perhaps an answer that is not OKAY. */
  predicate Unanswered(id: u32, fs: seq<Frame>)
  {
    || Foreign(id, fs)
    || (&& fs != [] && Foreign(id, fs[..|fs| - 1])
        && fs[|fs| - 1].header.arg1 == id && fs[|fs| - 1].header.command != OKAY)
  }

  class Stream {
    var connection: Connection
    var service: seq<byte>
    var localId: u32
    var remoteId: u32
    var closed: bool
    var incoming: seq<byte>
    var offset: nat

    ghost predicate Valid()
      reads this
    {
      offset <= |incoming|
    }

    ghost function Link(): Transport
      reads this, connection.session
    {
      connection.session.transport
    }

    /** What the connection still holds for this stream. */
    ghost function Coming(): Haul
      reads this, connection.session, connection.session.transport
    {
      Deliver(localId, connection.Box())
    }

    /** What is left of the buffer: nothing when the cursor is at its end, or past it after a move. */
    ghost function Buffered(): seq<byte>
      reads this
    {
      incoming[Min(offset, |incoming|)..]
    }

    ghost function Supply(): Source
      reads this, connection.session, connection.session.transport
    {
      Source(Buffered(), connection.Box())
    }

    /** The service bytes still to be read: what is buffered, then what the connection holds. */
    ghost function Pending(): seq<byte>
      reads this, connection.session, connection.session.transport
    {
      Contents(localId, Supply())
    }

    ghost function Now(): Moment
      reads this, connection.session, connection.session.transport
    {
      Moment(Supply(), Link().Log(), Link().faults, closed, connection.session.closed)
    }

    ghost function Ack(): Frame
      reads this
    {
      OkayFrame(localId, remoteId)
    }

    constructor (connection: Connection, service: seq<byte>)
      modifies connection`nextLocalId
      ensures this.connection == connection && this.service == service
      ensures localId == old(connection.nextLocalId) && connection.nextLocalId == NextId(localId)
      ensures remoteId == 0 && !closed && incoming == [] && offset == 0
    {
      this.connection, this.service := connection, service;
      remoteId, closed, incoming, offset := 0, false, [], 0;
      var id := connection.AllocateLocalId();
      localId := id;
    }

    /** Move construction: the new stream takes everything over, the old one will not send a CLSE. */
    constructor Move(other: Stream)
      modifies other`closed, other`incoming, other`service
      ensures connection == old(other.connection) && service == old(other.service)
      ensures localId == old(other.localId) && remoteId == old(other.remoteId) && closed == old(other.closed)
      ensures incoming == old(other.incoming) && offset == old(other.offset)
      ensures other.closed && other.incoming == []
    {
      connection, service, localId, remoteId := other.connection, other.service, other.localId, other.remoteId;
      closed, incoming, offset := other.closed, other.incoming, other.offset;
      new;
      other.service, other.incoming, other.closed := [], [], true;
    }

    /** Sends CLSE unless the stream is already closed; the outcome of the send is ignored. */
    method CloseNow()
      modifies this`closed, connection.session.transport
      ensures closed
      ensures connection.Box() == old(connection.Box()) && Link().closes == old(Link().closes)
      ensures Link().faults >= old(Link().faults)
      ensures old(closed) ==> unchanged(Link())
      ensures Link().received == old(Link().received)
      ensures Link().sent == old(Link().sent)
                           + if !old(closed) && !connection.session.closed then [CloseFrame(localId, remoteId)] else []
    {
      if closed {
        return;
      }
      closed := true;
      var _ := connection.Send(EmptyMessage(CLSE, localId, remoteId), []);
    }

    /** Move assignment: the stream this one owns is closed before it is replaced. */
    method MoveFrom(other: Stream)
      modifies this, other`closed, other`incoming, other`service, connection.session.transport
      ensures this == other ==> unchanged(this) && unchanged(Link())
      ensures this != other ==>
                && connection == old(other.connection) && service == old(other.service)
                && localId == old(other.localId) && remoteId == old(other.remoteId) && closed == old(other.closed)
                && incoming == old(other.incoming) && offset == old(other.offset)
                && other.closed && other.incoming == []
                && old(connection).session.transport.received == old(Link().received)
                && old(connection).session.transport.sent
                   == old(Link().sent)
                    + Farewell(old(closed) || old(connection).session.closed, old(localId), old(remoteId))
    {
      if this != other {
        CloseNow();
        connection, service, localId, remoteId := other.connection, other.service, other.localId, other.remoteId;
        closed, incoming, offset := other.closed, other.incoming, other.offset;
        other.service, other.incoming, other.closed := [], [], true;
      }
    }

    /** Receives until the device answers the OPEN; frames for other streams are dropped. */
    method AwaitOkay() returns (r: Status)
      modifies this`remoteId, connection.session`closed, connection.session.transport
      ensures Link().sent == old(Link().sent) && Link().faults >= old(Link().faults)
      ensures r.Ok? ==> Link().faults == old(Link().faults) && !connection.session.closed
      ensures Link().faults == old(Link().faults) ==>
                match Await(localId, old(connection.Box()))
                case Opened(remote, rest) => r == Ok(()) && remoteId == remote && connection.Box() == rest
                case Refused(e, rest) => r == Err(e) && remoteId == old(remoteId) && connection.Box() == rest
      ensures r.Err? ==> remoteId == old(remoteId)
      ensures Link().faults == old(Link().faults) ==>
                connection.session.closed == Dies(localId, old(connection.Box()))
      ensures old(Link().received) <= Link().received
      ensures r.Ok? ==> AnsweredBy(localId, News(old(Link().Log()), Link().Log()), remoteId)
      ensures r.Err? ==> Unanswered(localId, News(old(Link().Log()), Link().Log()))
    {
      ghost var foreign: seq<Frame> := [];
      while true
        invariant Link().faults == old(Link().faults) && Link().sent == old(Link().sent)
        invariant Link().received == old(Link().received) + foreign && Foreign(localId, foreign)
        invariant remoteId == old(remoteId)
        invariant Await(localId, connection.Box()) == Await(localId, old(connection.Box()))
        invariant Dies(localId, connection.Box()) == Dies(localId, old(connection.Box()))
        decreases |Link().tape|
      {
        var frame := connection.Receive();
        if frame.Err? {
          return Err(frame.error);
        }
        assert Link().received == old(Link().received) + (foreign + [frame.value]);
        if frame.value.header.arg1 != localId {
          foreign := foreign + [frame.value];
          continue;
        }
        if frame.value.header.command != OKAY {
          return Err(OPEN_REFUSED);
        }
        remoteId := frame.value.header.arg0;
        return Ok(());
      }
    }

    /** Sends OPEN for a new stream and waits for its answer. A stream that fails to open is destroyed at once. */
    static method Open(connection: Connection, service: seq<byte>) returns (r: Result<Stream>)
      modifies connection`nextLocalId, connection.session`closed, connection.session.transport
      ensures connection.nextLocalId == NextId(old(connection.nextLocalId))
      ensures connection.Link().faults >= old(connection.Link().faults)
      ensures r.Ok? ==>
                && fresh(r.value) && r.value.Valid()
                && r.value.connection == connection && r.value.service == service
                && r.value.localId == old(connection.nextLocalId)
                && !r.value.closed && r.value.incoming == []
                && !connection.session.closed && connection.Link().faults == old(connection.Link().faults)
      ensures connection.Link().faults == old(connection.Link().faults) ==>
                match Opens(old(connection.nextLocalId), service, old(connection.Box()))
                case Opened(remote, rest) => r.Ok? && r.value.remoteId == remote && connection.Box() == rest
                case Refused(e, rest) => r == Err(e) && connection.Box() == rest
      ensures connection.Link().faults == old(connection.Link().faults) && |Destination(service)| < WORD ==>
                connection.session.closed == Dies(old(connection.nextLocalId), old(connection.Box()))
      ensures connection.Link().sent
              == old(connection.Link().sent)
               + (if |Destination(service)| < WORD && !old(connection.session.closed)
                  then [OpenFrame(old(connection.nextLocalId), connection.delayedAck, service)] else [])
               + if r.Ok? || connection.session.closed then [] else [CloseFrame(old(connection.nextLocalId), 0)]
      ensures |Destination(service)| < WORD && !old(connection.session.closed) ==>
                && |old(connection.Link().sent)| < |connection.Link().sent|
                && AnnouncesOpen(connection.Link().sent[|old(connection.Link().sent)|],
                                 old(connection.nextLocalId), connection.delayedAck, service)
      ensures old(connection.Link().received) <= connection.Link().received
      ensures var news := News(old(connection.Link().Log()), connection.Link().Log());
              && (r.Ok? ==> AnsweredBy(old(connection.nextLocalId), news, r.value.remoteId))
              && (r.Err? ==> Unanswered(old(connection.nextLocalId), news))
              && (old(connection.session.closed) ==> connection.session.closed && news == [])
    {
      var stream := new Stream(connection, service);
      var payload := Destination(service);
      var message := MakeMessage(OPEN, stream.localId, Window(connection.delayedAck), payload);
      var outcome: Status;
      if message.Err? {
        outcome := Err(message.error);
      } else {
        outcome := connection.Send(message.value, payload);
        if outcome.Ok? {
          outcome := stream.AwaitOkay();
        }
      }
      if outcome.Err? {
        stream.CloseNow();
        return Err(outcome.error);
      }
      r := Ok(stream);
    }

    /** Sends one WRTE. It does not wait for the OKAY. */
    method Write(data: seq<byte>) returns (r: Status)
      modifies connection.session.transport
      ensures connection.Box() == old(connection.Box()) && Link().closes == old(Link().closes)
      ensures Link().faults >= old(Link().faults) && Link().received == old(Link().received)
      ensures |data| > connection.maxData ==> r == Err(WRITE_TOO_LARGE)
      ensures |data| <= connection.maxData && connection.session.closed ==> r == Err(SESSION_CLOSED)
      ensures |data| > connection.maxData || connection.session.closed ==> unchanged(Link())
      ensures |data| <= connection.maxData && !connection.session.closed ==>
                && Link().sent == old(Link().sent) + [DataFrame(WRTE, localId, remoteId, data)]
                && Carries(Link().sent[|old(Link().sent)|], WRTE, localId, remoteId, data)
                && (r.Ok? <==> Link().faults == old(Link().faults))
    {
      if |data| > connection.maxData {
        return Err(WRITE_TOO_LARGE);
      }
      var message := MakeMessage(WRTE, localId, remoteId, data);
      if message.Err? {
        return Err(message.error);
      }
      r := connection.Send(message.value, data);
    }

    /**
     The receiving loop: skips frames for other streams and acknowledgements of our own writes. `skipped` lists them.
     */
    method NextFrame() returns (r: Result<Frame>, ghost skipped: seq<Frame>)
      modifies connection.session`closed, connection.session.transport
      ensures Idle(localId, skipped) && Link().sent == old(Link().sent) && Link().faults >= old(Link().faults)
      ensures Link().received == old(Link().received) + if r.Ok? then skipped + [r.value] else skipped
      ensures r.Ok? ==>
                && !Passes(localId, r.value.header) && !old(connection.session.closed)
                && Link().faults == old(Link().faults) && !connection.session.closed
                && old(connection.Box()) == Queue(skipped, Arrives(r.value, connection.Box()))
                && |Link().tape| < |old(Link().tape)|
      ensures r.Err? && Link().faults == old(Link().faults) ==>
                && old(connection.Box()) == Queue(skipped, Stops(r.error, !connection.session.closed))
                && connection.Box() == Spent(!connection.session.closed)
      ensures old(connection.session.closed) ==> connection.session.closed && skipped == []
    {
      skipped := [];
      while true
        invariant Link().faults == old(Link().faults) && Link().sent == old(Link().sent)
        invariant old(connection.Box()) == Queue(skipped, connection.Box())
        invariant |Link().tape| <= |old(Link().tape)|
        invariant Link().received == old(Link().received) + skipped && Idle(localId, skipped)
        invariant old(connection.session.closed) ==> connection.session.closed && skipped == []
        decreases |Link().tape|
      {
        r := connection.Receive();
        if r.Err? || (r.value.header.arg1 == localId && r.value.header.command != OKAY) {
          assert r.Ok? ==> old(Link().received) + skipped + [r.value] == old(Link().received) + (skipped + [r.value]);
          return;
        }
        QueueSnoc(skipped, r.value, connection.Box());
        skipped := skipped + [r.value];
      }
    }

    /**
     Buffers the next WRTE and acknowledges it; `false` when the device closed its side instead. `fs` lists the frames
     received.
     */
    method ReceiveMore() returns (r: Result<bool>, ghost fs: seq<Frame>)
      modifies this`closed, this`incoming, this`offset
      modifies connection.session`closed, connection.session.transport
      ensures Reacted(localId, Ack(), old(Now()), Now(), fs) && (old(Valid()) ==> Valid())
      ensures r == Ok(true) ==>
                && TookWrite(localId, Ack(), old(Now()), Now(), fs) && offset == 0
                && !connection.session.closed && |Link().tape| < |old(Link().tape)|
      ensures r != Ok(true) && Link().faults == old(Link().faults) ==>
                CameToEnd(localId, Ack(), old(Now()), Now(), fs, r)
      ensures Link().faults != old(Link().faults) ==> r.Err?
      ensures r != Ok(true) && old(Buffered()) == [] ==> GaveUp(localId, Now(), fs)
    {
      ghost var m := Now();
      var frame;
      frame, fs := NextFrame();
      if frame.Err? {
        NoFrameLeft(localId, Ack(), m, Now(), fs, frame.error);
        return Err(frame.error), fs;
      }
      ghost var skipped := fs;
      fs := skipped + [frame.value];
      assert Link().received == m.log.received + fs;
      var command := frame.value.header.command;
      if command == WRTE {
        incoming, offset := frame.value.payload, 0;
        var sent := connection.Send(EmptyMessage(OKAY, localId, remoteId), []);
        assert incoming[0..] == incoming;
        WriteArrived(localId, Ack(), m, Now(), skipped, frame.value);
        r := if sent.Err? then Err(sent.error) else Ok(true);
      } else {
        if command == CLSE {
          closed := true;
          r := Ok(false);
        } else {
          r := Err(UNEXPECTED_MESSAGE);
        }
        LastFrameArrived(localId, Ack(), m, Now(), skipped, frame.value);
      }
    }

    /**
     Makes sure the buffer is not used up: the first half of a turn of a read that began at `start` and has read
     `done` of its `n` bytes, receiving `fs`, so far.
     */
    method Refill(ghost n: nat, ghost start: Moment, ghost done: seq<byte>, ghost fs: seq<Frame>)
      returns (r: Status, ghost fs': seq<Frame>)
      requires Underway(localId, Ack(), start, Now(), fs, n, done) && |done| < n
      modifies this`closed, this`incoming, this`offset
      modifies connection.session`closed, connection.session.transport
      ensures old(Valid()) ==> Valid()
      ensures r.Ok? ==>
                && Underway(localId, Ack(), start, Now(), fs', n, done) && Valid()
                && (offset == |incoming| ==> |Link().tape| < |old(Link().tape)|)
                && |Link().tape| <= |old(Link().tape)|
      ensures r.Err? ==> Reacted(localId, Ack(), start, Now(), fs') && GaveUp(localId, Now(), fs')
      ensures r.Err? && Link().faults == start.faults ==>
                Exhausted(localId, Ack(), start, Now(), fs', r.error) && Drain(localId, start.supply, n) == Short
    {
      if offset < |incoming| {
        return Ok(()), fs;
      }
      ghost var now := Now();
      ghost var gs;
      var more;
      more, gs := ReceiveMore();
      fs' := fs + gs;
      if more == Ok(true) {
        RefillGoesOn(localId, Ack(), start, now, Now(), fs, gs, n, done);
        return Ok(()), fs';
      }
      r := Err(if more.Err? then more.error else DEVICE_CLOSED);
      ReactedThen(localId, Ack(), start, now, Now(), fs, gs);
      if Link().faults == start.faults {
        RunsOut(localId, Ack(), start, now, Now(), fs, gs, n, done, r.error);
      }
    }

    /** Copies buffered bytes out, as many as there are and as fit: the second half of a turn. */
    method HandOut(buffer: array<byte>, total: nat, ghost start: Moment, ghost fs: seq<Frame>) returns (count: nat)
      requires Valid() && total < buffer.Length
      requires Underway(localId, Ack(), start, Now(), fs, buffer.Length, buffer[..total])
      modifies buffer, this`offset
      ensures Valid() && count == Min(|incoming| - old(offset), buffer.Length - total)
      ensures count <= buffer.Length - total && (count == 0 ==> old(offset) == |incoming|)
      ensures Underway(localId, Ack(), start, Now(), fs, buffer.Length, buffer[..total + count])
    {
      ghost var head, bytes, now := buffer[..total], Buffered(), Now();
      count := Min(|incoming| - offset, buffer.Length - total);
      forall i | 0 <= i < count {
        buffer[total + i] := incoming[offset + i];
      }
      offset := offset + count;
      assert Now() == now.(supply := Source(bytes[count..], connection.Box()));
      assert buffer[..total + count] == head + bytes[..count];
      HandOutGoesOn(localId, Ack(), start, now, Now(), fs, buffer.Length, head, count);
    }

    /** One turn: refills the buffer if need be and copies out as many bytes as there are and as fit. */
    method Turn(buffer: array<byte>, total: nat, ghost start: Moment, ghost fs: seq<Frame>)
      returns (r: Result<nat>, ghost fs': seq<Frame>)
      requires total < buffer.Length
      requires Underway(localId, Ack(), start, Now(), fs, buffer.Length, buffer[..total])
      modifies buffer, this`closed, this`incoming, this`offset
      modifies connection.session`closed, connection.session.transport
      ensures old(Valid()) ==> Valid()
      ensures r.Ok? ==>
                && total + r.value <= buffer.Length
                && Underway(localId, Ack(), start, Now(), fs', buffer.Length, buffer[..total + r.value])
                && (r.value == 0 ==> |Link().tape| < |old(Link().tape)|)
      ensures r.Err? ==> Reacted(localId, Ack(), start, Now(), fs') && GaveUp(localId, Now(), fs')
      ensures r.Err? && Link().faults == start.faults ==>
                && Exhausted(localId, Ack(), start, Now(), fs', r.error)
                && Drain(localId, start.supply, buffer.Length) == Short
    {
      ghost var head := buffer[..total];
      var filled;
      filled, fs' := Refill(buffer.Length, start, head, fs);
      if filled.Err? {
        return Err(filled.error), fs';
      }
      assert offset == |incoming| ==> |Link().tape| < |old(Link().tape)|;
      assert buffer[..total] == head;
      var count := HandOut(buffer, total, start, fs');
      r := Ok(count);
    }

    /**
     Reads exactly `buffer.Length` bytes, whatever WRTE boundaries they straddle. `fs` lists the frames received.
     */
    method Read(buffer: array<byte>) returns (r: Status, ghost fs: seq<Frame>)
      modifies buffer, this`closed, this`incoming, this`offset
      modifies connection.session`closed, connection.session.transport
      ensures Reacted(localId, Ack(), old(Now()), Now(), fs) && (old(Valid()) ==> Valid())
      ensures r.Ok? ==>
                && Took(localId, Ack(), old(Now()), Now(), fs)
                && Drain(localId, old(Supply()), buffer.Length) == Full(buffer[..], Supply())
      ensures r.Err? ==> GaveUp(localId, Now(), fs)
      ensures r.Err? && Link().faults == old(Link().faults) ==>
                && Exhausted(localId, Ack(), old(Now()), Now(), fs, r.error)
                && Drain(localId, old(Supply()), buffer.Length) == Short
    {
      ghost var start := Now();
      var total := 0;
      fs := [];
      NothingYet(localId, Ack(), start, buffer.Length);
      assert buffer[..0] == [];
      while total < buffer.Length
        invariant total <= buffer.Length && (old(Valid()) ==> Valid())
        invariant Underway(localId, Ack(), start, Now(), fs, buffer.Length, buffer[..total])
        decreases buffer.Length - total, |Link().tape|
      {
        var count;
        count, fs := Turn(buffer, total, start, fs);
        if count.Err? {
          return Err(count.error), fs;
        }
        total := total + count.value;
      }
      assert buffer[..] == buffer[..total];
      ReadIsComplete(localId, Ack(), start, Now(), fs, buffer.Length, buffer[..]);
      r := Ok(());
    }

    /** Everything up to the device's CLSE. `fs` lists the frames received. */
    method ReadAll() returns (r: Result<seq<byte>>, ghost fs: seq<Frame>)
      requires Valid()
      modifies this`closed, this`incoming, this`offset
      modifies connection.session`closed, connection.session.transport
      ensures Reacted(localId, Ack(), old(Now()), Now(), fs) && GaveUp(localId, Now(), fs) && Valid()
      ensures r.Ok? ==>
                && r.value == old(Pending()) == old(Buffered()) + OwnPayload(localId, fs)
                && old(Coming()).ending.Closed?
                && Link().faults == old(Link().faults)
      ensures Link().faults == old(Link().faults) ==>
                && (r.Err? ==> old(Coming()).ending.Failed?)
                && Exhausted(localId, Ack(), old(Now()), Now(), fs, if r.Ok? then DEVICE_CLOSED else r.error)
    {
      ghost var start := Now();
      var output := incoming[offset..];
      incoming, offset := [], 0;
      fs := [];
      NothingYet(localId, Ack(), start, 0);
      while true
        invariant incoming == [] && offset == 0
        invariant Collected(localId, Ack(), start, Now(), fs, output)
        decreases |Link().tape|
      {
        ghost var now := Now();
        ghost var gs;
        var more;
        more, gs := ReceiveMore();
        if more != Ok(true) {
          ReactedThen(localId, Ack(), start, now, Now(), fs, gs);
          if Link().faults == start.faults {
            DeliverBehind(localId, fs, now.supply.box);
            ExhaustedThen(localId, Ack(), start, now, Now(), fs, gs, if more.Err? then more.error else DEVICE_CLOSED);
            CollectedAll(localId, Ack(), start, now, Now(), fs, gs, output,
                         if more.Err? then more.error else DEVICE_CLOSED);
            assert output + [] == output;
          }
          return if more.Err? then Err(more.error) else Ok(output), fs + gs;
        }
        CollectedMore(localId, Ack(), start, now, Now(), fs, gs, output);
        output, fs := output + incoming, fs + gs;
        incoming, offset := [], 0;
      }
    }
  }

  /** Any answer but OKAY refuses an open. */
  lemma {:induction false} AwaitRefusal(id: u32, foreign: seq<Frame>, answer: Frame, rest: Inbox)
    requires Foreign(id, foreign) && answer.header.arg1 == id && answer.header.command != OKAY
    ensures Await(id, Queue(foreign, Arrives(answer, rest))) == Refused(OPEN_REFUSED, rest)
    ensures !Dies(id, Queue(foreign, Arrives(answer, rest)))
  {
    if foreign != [] {
      AwaitRefusal(id, foreign[1..], answer, rest);
    }
  }

  /**
   A device that refuses an OPEN with CLSE gets a CLSE for its CLSE, if and only if the session is still open: the
   stream that failed to open was never marked closed.
   */
  method OpenRefused(c: Connection, service: seq<byte>,
                     ghost foreign: seq<Frame>, ghost close: Frame, ghost rest: Inbox)
    returns (r: Result<Stream>)
    requires |Destination(service)| < WORD
    requires Foreign(c.nextLocalId, foreign) && IsEnd(c.nextLocalId, close.header)
    requires c.Box() == Queue(foreign, Arrives(close, rest))
    modifies c`nextLocalId, c.session`closed, c.session.transport
    ensures r.Err?
    ensures c.Link().sent
            == old(c.Link().sent) + [OpenFrame(old(c.nextLocalId), c.delayedAck, service)]
             + if c.session.closed then [] else [CloseFrame(old(c.nextLocalId), 0)]
    ensures c.Link().faults == old(c.Link().faults) ==>
              r == Err(OPEN_REFUSED) && !c.session.closed && c.Box() == rest
  {
    AwaitRefusal(c.nextLocalId, foreign, close, rest);
    r := Stream.Open(c, service);
  }

  /**
   A sequence of writes: the stream on the device whose id is `remoteId` reads from the frames sent exactly the bytes
   written, one WRTE for each write.
   */
  method WriteAll(s: Stream, pieces: seq<seq<byte>>) returns (r: Status)
    requires !s.connection.session.closed && forall p <- pieces :: |p| <= s.connection.maxData
    modifies s.connection.session.transport
    ensures s.Link().faults >= old(s.Link().faults) && (r.Ok? <==> s.Link().faults == old(s.Link().faults))
    ensures old(s.Link().sent) <= s.Link().sent
    ensures r.Ok? ==> Yields(s.remoteId, s.Link().sent[|old(s.Link().sent)|..], pieces)
  {
    ghost var base, news: seq<Frame> := s.Link().sent, [];
    assert pieces[..0] == [];
    for i := 0 to |pieces|
      invariant s.Link().faults == old(s.Link().faults) && s.Link().sent == base + news
      invariant Yields(s.remoteId, news, pieces[..i])
    {
      ghost var f := DataFrame(WRTE, s.localId, s.remoteId, pieces[i]);
      r := s.Write(pieces[i]);
      assert s.Link().sent == base + (news + [f]);
      if r.Err? {
        return;
      }
      YieldsOneMore(s.remoteId, news, pieces, i, f);
      news := news + [f];
    }
    assert pieces[..|pieces|] == pieces && s.Link().sent[|base|..] == news;
    r := Ok(());
  }

  /** Reads `n` bytes into a buffer of its own. */
  method ReadBytes(s: Stream, n: nat) returns (r: Result<seq<byte>>, ghost fs: seq<Frame>)
    modifies s`closed, s`incoming, s`offset, s.connection.session`closed, s.connection.session.transport
    ensures Reacted(s.localId, s.Ack(), old(s.Now()), s.Now(), fs) && (old(s.Valid()) ==> s.Valid())
    ensures r.Err? ==> GaveUp(s.localId, s.Now(), fs)
    ensures r.Ok? ==>
              && Took(s.localId, s.Ack(), old(s.Now()), s.Now(), fs)
              && Drain(s.localId, old(s.Supply()), n) == Full(r.value, s.Supply())
    ensures r.Err? && s.Link().faults == old(s.Link().faults) ==>
              && Exhausted(s.localId, s.Ack(), old(s.Now()), s.Now(), fs, r.error)
              && Drain(s.localId, old(s.Supply()), n) == Short
  {
    var buffer := new byte[n];
    var read;
    read, fs := s.Read(buffer);
    r := if read.Err? then Err(read.error) else Ok(buffer[..]);
  }

  /**
   A buffered, frame-cut stream is a plain byte sequence: reads of any sizes, then a read of all the rest, return
   consecutive pieces of the stream's service bytes, and fail only when the bytes run out or the link does.
   */
  method ReadInPieces(s: Stream, sizes: seq<nat>) returns (r: Result<seq<byte>>, pieces: seq<seq<byte>>)
    requires s.Valid()
    modifies s`closed, s`incoming, s`offset, s.connection.session`closed, s.connection.session.transport
    ensures s.Valid()
    ensures r.Ok? ==>
              && |pieces| == |sizes| && (forall i :: 0 <= i < |sizes| ==> |pieces[i]| == sizes[i])
              && Flatten(pieces) + r.value == old(s.Pending())
    ensures r.Err? && s.Link().faults == old(s.Link().faults) ==>
              Sum(sizes) > |old(s.Pending())| || old(s.Coming()).ending.Failed?
  {
    pieces := [];
    ghost var start, faults := s.Supply(), s.Link().faults;
    for i := 0 to |sizes|
      invariant s.Valid() && s.Link().faults == faults
      invariant CutUp(s.localId, start, s.Supply(), sizes, i, pieces)
    {
      ghost var supply := s.Supply();
      var piece, _ := ReadBytes(s, sizes[i]);
      if piece.Err? {
        if s.Link().faults == faults {
          CutShort(s.localId, start, supply, sizes, i, pieces);
        }
        return Err(piece.error), pieces;
      }
      CutMore(s.localId, start, supply, sizes, i, pieces, piece.value, s.Supply());
      pieces := pieces + [piece.value];
    }
    ghost var fs;
    r, fs := s.ReadAll();
  }
}
