/** The byte channel to a device, and the session that frames it. */
module Sessions {
  import opened Bytes
  import opened Results
  import opened Wire
  import opened Framing

  /**
   A byte channel whose device has a fixed supply of bytes, `tape`, still to deliver. Everything else about it is
   left open: a read delivers any positive number of bytes that fits, any read or write may fail, and a read may
   come back empty with bytes still to come, as an empty USB transfer does. `faults` counts these failures and empty
   reads, so a contract can speak of a call during which the link held; `touches` counts the
   operations asked of the transport, `sent` lists the frames handed to it, and `received` those handed up.
   */
  class Transport {
    var tape: seq<byte>
    var written: seq<byte>
    var closes: nat
    ghost var touches: nat
    ghost var faults: nat
    ghost var sent: seq<Frame>
    ghost var received: seq<Frame>

    /** While no operation has failed, the bytes written are those of the frames sent. */
    ghost predicate Logged()
      reads this
    {
      faults == 0 ==> written == TapeOf(sent)
    }

    ghost function Log(): Journal
      reads this
    {
      Journal(received, sent)
    }

    constructor (tape: seq<byte>)
      ensures this.tape == tape && written == [] && sent == received == [] && closes == touches == faults == 0
    {
      this.tape, written, closes := tape, [], 0;
      touches, faults, sent, received := 0, 0, [], [];
    }

    /** Reads up to the space left in `buffer` after `from`; zero bytes mean the end of the stream. */
    method Read(buffer: array<byte>, from: nat) returns (r: Result<nat>)
      requires from <= buffer.Length
      modifies this`tape, this`touches, this`faults, buffer
      ensures touches == old(touches) + 1
      ensures r.Ok? ==>
                && r.value <= |old(tape)| && from + r.value <= buffer.Length
                && (if r.value == 0 && from < buffer.Length && old(tape) != [] then faults == old(faults) + 1
                    else faults == old(faults))
                && buffer[..from + r.value] == old(buffer[..from]) + old(tape)[..r.value]
                && tape == old(tape)[r.value..]
      ensures r.Err? ==> faults == old(faults) + 1 && Suffix(tape, old(tape)) && r.error.code == ErrorCode.Transport
    {
      touches := touches + 1;
      var fails: bool := *;
      var empty: bool := *;
      if fails {
        var lost: nat :| lost <= |tape|;
        tape := tape[lost..];
        faults := faults + 1;
        r := Err(Error(ErrorCode.Transport, "the read failed"));
      } else {
        var room, count := Min(buffer.Length - from, |tape|), 0;
        if room > 0 && empty {
          faults := faults + 1;
        } else if room > 0 {
          count :| 0 < count <= room;
        }
        forall i | 0 <= i < count {
          buffer[from + i] := tape[i];
        }
        assert buffer[from..from + count] == tape[..count];
        assert buffer[..from + count] == buffer[..from] + buffer[from..from + count];
        tape := tape[count..];
        r := Ok(count);
      }
    }

    /** Writes the whole of `data`, or fails after an unknown part of it. */
    method Write(data: seq<byte>) returns (r: Status)
      modifies this`written, this`touches, this`faults
      ensures touches == old(touches) + 1
      ensures r.Ok? ==> faults == old(faults) && written == old(written) + data
      ensures r.Err? ==> faults == old(faults) + 1 && old(written) <= written <= old(written) + data
    {
      touches := touches + 1;
      var fails: bool := *;
      if fails {
        var part: nat :| part <= |data|;
        written := written + data[..part];
        faults := faults + 1;
        r := Err(Error(ErrorCode.Transport, "the write failed"));
      } else {
        written := written + data;
        r := Ok(());
      }
    }

    method Close()
      modifies this`closes, this`touches
      ensures closes == old(closes) + 1 && touches == old(touches) + 1
    {
      closes, touches := closes + 1, touches + 1;
    }
  }

  /** What a receive reports when the link did not hold: the failure, or an empty read as the end of the stream. */
  predicate LinkError(e: Error) { e.code == ErrorCode.Transport || e == END_OF_STREAM }

  /** Fills `buffer` completely, from as many transport reads as it takes. */
  method ReadExact(t: Transport, buffer: array<byte>) returns (r: Status)
    modifies t`tape, t`touches, t`faults, buffer
    ensures Suffix(t.tape, old(t.tape)) && t.touches >= old(t.touches) && t.faults >= old(t.faults)
    ensures t.faults == old(t.faults) ==>
              if buffer.Length <= |old(t.tape)|
              then r == Ok(()) && buffer[..] == old(t.tape)[..buffer.Length] && t.tape == old(t.tape)[buffer.Length..]
              else r == Err(END_OF_STREAM) && t.tape == []
    ensures t.faults != old(t.faults) ==> r.Err? && LinkError(r.error)
  {
    var total := 0;
    while total < buffer.Length
      invariant total <= buffer.Length && total <= |old(t.tape)|
      invariant t.faults == old(t.faults) && t.touches >= old(t.touches)
      invariant t.tape == old(t.tape)[total..]
      invariant buffer[..total] == old(t.tape)[..total]
    {
      var count := t.Read(buffer, total);
      if count.Err? {
        return Err(count.error);
      }
      if count.value == 0 {
        return Err(END_OF_STREAM);
      }
      assert old(t.tape)[..total] + old(t.tape)[total..][..count.value] == old(t.tape)[..total + count.value];
      total := total + count.value;
    }
    assert buffer[..] == buffer[..total];
    r := Ok(());
  }

  class Session {
    var transport: Transport
    var closed: bool

    ghost function View(): Channel
      reads this, transport
    {
      Channel(!closed, transport.tape)
    }

    constructor (transport: Transport)
      ensures this.transport == transport && !closed
    {
      this.transport, closed := transport, false;
    }

    /** Move construction: the source keeps its transport but is closed from now on. */
    constructor Move(other: Session)
      modifies other`closed
      ensures transport == old(other.transport) && closed == old(other.closed)
      ensures other.closed
    {
      transport, closed := other.transport, other.closed;
      new;
      other.closed := true;
    }

    /** Move assignment. The transport this session had is not closed: it was only borrowed. */
    method MoveFrom(other: Session)
      modifies this, other`closed
      ensures this != other ==> transport == old(other.transport) && closed == old(other.closed) && other.closed
      ensures this == other ==> transport == old(transport) && closed == old(closed)
    {
      if this != other {
        transport, closed := other.transport, other.closed;
        other.closed := true;
      }
    }

    method Close()
      modifies this`closed, transport`closes, transport`touches
      ensures closed
      ensures transport.closes == old(transport.closes) + if old(closed) then 0 else 1
      ensures transport.touches == old(transport.touches) + if old(closed) then 0 else 1
    {
      if closed {
        return;
      }
      closed := true;
      transport.Close();
    }

    method FramingError(error: Error) returns (e: Error)
      modifies this`closed, transport`closes, transport`touches
      ensures e == error && closed
      ensures transport.closes == old(transport.closes) + if old(closed) then 0 else 1
      ensures transport.touches == old(transport.touches) + if old(closed) then 0 else 1
    {
      Close();
      e := error;
    }

    /** Writes a header, then its payload. A header that misstates the payload's length is refused unwritten. */
    method Send(header: Message, payload: seq<byte>) returns (r: Status)
      modifies transport`written, transport`touches, transport`faults, transport`sent
      ensures closed ==> r == Err(SESSION_CLOSED)
      ensures !closed && header.dataLength != |payload| ==> r.Err? && r.error.code == InvalidArgument
      ensures closed || header.dataLength != |payload| ==> unchanged(transport)
      ensures transport.touches >= old(transport.touches) && transport.faults >= old(transport.faults)
      ensures !closed && header.dataLength == |payload| ==>
                && transport.sent == old(transport.sent) + [Frame(header, payload)]
                && (r.Ok? <==> transport.faults == old(transport.faults))
                && (r.Ok? ==> transport.written == old(transport.written) + FrameBytes(Frame(header, payload)))
                && old(transport.written) <= transport.written
                && transport.written <= old(transport.written) + FrameBytes(Frame(header, payload))
      ensures old(transport.Logged()) ==> transport.Logged()
    {
      if closed {
        return Err(SESSION_CLOSED);
      }
      if header.dataLength != |payload| {
        return Err(Error(InvalidArgument, "the header data_length does not match the payload"));
      }
      TapeOfAppend(transport.sent, Frame(header, payload));
      transport.sent := transport.sent + [Frame(header, payload)];
      var bytes := Encode(header);
      assert old(transport.written) + FrameBytes(Frame(header, payload))
          == old(transport.written) + EncodeHeader(header) + payload;
      r := transport.Write(bytes[..]);
      if r.Ok? && payload != [] {
        r := transport.Write(payload);
      }
    }

    /** Reads one header and its payload, and checks them. */
    method Receive() returns (r: Result<Frame>)
      modifies this`closed
      modifies transport`tape, transport`touches, transport`faults, transport`closes, transport`received
      ensures Suffix(transport.tape, old(transport.tape)) && transport.faults >= old(transport.faults)
      ensures transport.touches >= old(transport.touches) + if closed && !old(closed) then 1 else 0
      ensures transport.received == if r.Ok? then old(transport.received) + [r.value] else old(transport.received)
      ensures transport.faults == old(transport.faults) ==> Received(r, View()) == ReceiveFrame(old(View()))
      ensures transport.faults != old(transport.faults) ==> r.Err? && closed == old(closed)
      ensures transport.closes == old(transport.closes) + if closed && !old(closed) then 1 else 0
      ensures old(closed) ==> r == Err(SESSION_CLOSED) && unchanged(transport) && closed
      ensures !old(closed) ==>
                && (closed <==> transport.faults == old(transport.faults) && Violation(old(transport.tape)))
                && (closed <==> r.Err? && ReportsViolation(r.error))
      ensures r.Ok? ==> transport.faults == old(transport.faults)
    {
      if closed {
        return Err(SESSION_CLOSED);
      }
      var bytes := new byte[HEADER_SIZE];
      var read := ReadExact(transport, bytes);
      if read.Err? {
        OtherErrors(read.error);
        return Err(read.error);
      }
      r := ReceiveBody(DecodeHeader(bytes[..]));
      if r.Ok? {
        transport.received := transport.received + [r.value];
      }
    }

    /** The part of a receive that follows the header: its checks, the payload and the payload's check. */
    method ReceiveBody(header: Message) returns (r: Result<Frame>)
      requires !closed
      modifies this`closed, transport`tape, transport`touches, transport`faults, transport`closes
      ensures Suffix(transport.tape, old(transport.tape)) && transport.faults >= old(transport.faults)
      ensures transport.touches >= old(transport.touches) + if closed then 1 else 0
      ensures transport.faults == old(transport.faults) ==>
                Received(r, View()) == ReceivePayload(header, old(transport.tape))
      ensures transport.faults != old(transport.faults) ==> r.Err? && LinkError(r.error) && !closed
      ensures transport.closes == old(transport.closes) + if closed then 1 else 0
      ensures closed <==> r.Err? && ReportsViolation(r.error)
      ensures closed <==> transport.faults == old(transport.faults) && Breaks(header, old(transport.tape))
    {
      ghost var body := transport.tape;
      if header.magic != Magic(header.command) {
        var e := FramingError(BAD_MAGIC);
        return Err(e);
      }
      if header.dataLength > MAX_DATA {
        var e := FramingError(BAD_LENGTH);
        return Err(e);
      }
      var payload := new byte[header.dataLength];
      if payload.Length != 0 {
        var read := ReadExact(transport, payload);
        if read.Err? {
          OtherErrors(read.error);
          return Err(read.error);
        }
        var sum := ComputeChecksum(payload[..]);
        if header.dataCheck != 0 && header.dataCheck != sum {
          var e := FramingError(BAD_CHECKSUM);
          return Err(e);
        }
      }
      assert payload[..] == body[..header.dataLength] && transport.tape == body[header.dataLength..];
      r := Ok(Frame(header, payload[..]));
    }
  }
}
