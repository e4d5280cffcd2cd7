/**
 What a session makes of the bytes a device sends, as a function of those bytes alone. How the bytes are cut
 into transport reads does not appear here: `Sessions.Session.Receive` is proved to compute this function under
 every fragmentation.
 */
module Framing {
  import opened Bytes
  import opened Results
  import opened Wire

  /** A session as its user sees it: whether it is open, and the bytes the device will still deliver. */
  datatype Channel = Channel(open: bool, tape: seq<byte>)

  datatype Received = Received(result: Result<Frame>, after: Channel)

  const SESSION_CLOSED := Error(ErrorCode.Transport, "the session is closed")
  const END_OF_STREAM := Error(ErrorCode.Protocol, "unexpected end of stream")
  const BAD_MAGIC := Error(ErrorCode.Protocol, "the header magic does not match its command")
  const BAD_LENGTH := Error(ErrorCode.Protocol, "the header payload length is past the maximum")
  const BAD_CHECKSUM := Error(ErrorCode.Protocol, "the header payload checksum does not match the payload")

  /**
   One receive. A violation closes the channel; running out of bytes does not, it only drains the tape.
   */
  function ReceiveFrame(ch: Channel): (r: Received)
    ensures r.result.Ok? ==> ch.open && r.after.open && |r.after.tape| + HEADER_SIZE <= |ch.tape|
    ensures |r.after.tape| <= |ch.tape|
  {
    if !ch.open then Received(Err(SESSION_CLOSED), ch)
    else if |ch.tape| < HEADER_SIZE then Received(Err(END_OF_STREAM), Channel(true, []))
    else
      var header := DecodeHeader(ch.tape[..HEADER_SIZE]);
      ReceivePayload(header, ch.tape[HEADER_SIZE..])
  }

  function ReceivePayload(header: Message, body: seq<byte>): (r: Received)
    ensures |r.after.tape| <= |body|
    ensures r.result.Ok? ==> r.after.open
  {
    if header.magic != Magic(header.command) then Received(Err(BAD_MAGIC), Channel(false, body))
    else if header.dataLength > MAX_DATA then Received(Err(BAD_LENGTH), Channel(false, body))
    else if |body| < header.dataLength then Received(Err(END_OF_STREAM), Channel(true, []))
    else
      var payload, rest := body[..header.dataLength], body[header.dataLength..];
      if !ChecksumAccepted(header, payload) then Received(Err(BAD_CHECKSUM), Channel(false, rest))
      else Received(Ok(Frame(header, payload)), Channel(true, rest))
  }

  /**
   The bytes break the rules: a whole header whose magic is wrong or whose length is past the maximum, or a whole
   non-empty payload that its header's non-zero checksum contradicts.
   */
  predicate Violation(tape: seq<byte>)
  {
    |tape| >= HEADER_SIZE && Breaks(DecodeHeader(tape[..HEADER_SIZE]), tape[HEADER_SIZE..])
  }

  predicate Breaks(m: Message, body: seq<byte>)
  {
    || m.magic != Magic(m.command)
    || m.dataLength > MAX_DATA
    || (0 < m.dataLength <= |body| && m.dataCheck != 0 && m.dataCheck != Checksum(body[..m.dataLength]))
  }

  /** The errors that report a broken rule. */
  predicate ReportsViolation(e: Error) { e == BAD_MAGIC || e == BAD_LENGTH || e == BAD_CHECKSUM }

  /** Running out of bytes is not one of them, and neither is any failure of the link. */
  lemma OtherErrors(e: Error)
    requires e == END_OF_STREAM || e.code != ErrorCode.Protocol
    ensures !ReportsViolation(e)
  {
    assert "unexpected end of stream"[0] == 'u' && "the header magic does not match its command"[0] == 't';
    assert "the header payload length is past the maximum"[0] == 't';
    assert "the header payload checksum does not match the payload"[0] == 't';
  }

  /** A receive closes an open channel exactly when the bytes break the rules, and its error says so. */
  lemma ClosesIffViolation(tape: seq<byte>)
    ensures var Received(result, after) := ReceiveFrame(Channel(true, tape));
            && (!after.open <==> Violation(tape))
            && (Violation(tape) <==> result.Err? && ReportsViolation(result.error))
  {
    OtherErrors(END_OF_STREAM);
  }

  /** A frame that follows the rules is received whole, and exactly its bytes are consumed. */
  lemma ReceiveInvertsSend(f: Frame, tail: seq<byte>)
    requires Acceptable(f)
    ensures ReceiveFrame(Channel(true, FrameBytes(f) + tail)) == Received(Ok(f), Channel(true, tail))
  {
    var tape := FrameBytes(f) + tail;
    assert tape[..HEADER_SIZE] == EncodeHeader(f.header);
    assert tape[HEADER_SIZE..] == f.payload + tail;
    HeaderRoundTrip(f.header);
    assert (f.payload + tail)[..|f.payload|] == f.payload;
    assert (f.payload + tail)[|f.payload|..] == tail;
  }

  /** Conversely, whatever is received was on the tape, byte for byte, and follows the rules. */
  lemma ReceivedWasSent(ch: Channel)
    requires ReceiveFrame(ch).result.Ok?
    ensures var Received(result, after) := ReceiveFrame(ch);
            Acceptable(result.value) && ch.tape == FrameBytes(result.value) + after.tape
  {
    var header := DecodeHeader(ch.tape[..HEADER_SIZE]);
    HeaderBytesRoundTrip(ch.tape[..HEADER_SIZE]);
    var body := ch.tape[HEADER_SIZE..];
    assert ch.tape == ch.tape[..HEADER_SIZE] + body;
    assert body == body[..header.dataLength] + body[header.dataLength..];
  }

  /**
   Everything a channel will yield to successive receives: frames, then the failure that ends them and whether
   the session is still open after it.
   */
  datatype Inbox = Arrives(frame: Frame, rest: Inbox) | Stops(error: Error, open: bool)

  function InboxOf(ch: Channel): Inbox
    decreases |ch.tape|, 2
  {
    if ch.open then OpenInbox(ch.tape) else Stops(SESSION_CLOSED, false)
  }

  function OpenInbox(tape: seq<byte>): Inbox
    decreases |tape|, 1
  {
    if |tape| < HEADER_SIZE then Stops(END_OF_STREAM, true) else Arrival(tape)
  }

  function Arrival(tape: seq<byte>): Inbox
    requires |tape| >= HEADER_SIZE
    decreases |tape|, 0
  {
    var Received(result, after) := ReceiveFrame(Channel(true, tape));
    match result
    case Ok(f) => Arrives(f, InboxOf(after))
    case Err(e) => Stops(e, after.open)
  }

  /** What is left after the last failure: the same answer to every further receive. */
  function Spent(open: bool): Inbox
  {
    if open then Stops(END_OF_STREAM, true) else Stops(SESSION_CLOSED, false)
  }

  /** One receive takes the first item of the inbox. */
  lemma InboxStep(ch: Channel)
    ensures var Received(result, after) := ReceiveFrame(ch);
            match InboxOf(ch)
            case Arrives(f, rest) => result == Ok(f) && InboxOf(after) == rest
            case Stops(e, open) => result == Err(e) && after.open == open && InboxOf(after) == Spent(open)
  {
    if ch.open {
      var Received(result, after) := ReceiveFrame(ch);
      if |ch.tape| < HEADER_SIZE {
        assert InboxOf(ch) == Stops(END_OF_STREAM, true);
      } else {
        assert InboxOf(ch) == OpenInbox(ch.tape) == Arrival(ch.tape);
        if result.Err? && after.open {
          assert after.tape == [];
        }
      }
    }
  }

  /** The frames of `fs`, then whatever `rest` holds. */
  function Queue(fs: seq<Frame>, rest: Inbox): Inbox
  {
    if fs == [] then rest else Arrives(fs[0], Queue(fs[1..], rest))
  }

  /** An acceptable frame is the first item of the inbox, and the rest starts on the byte after it. */
  lemma FrameArrives(f: Frame, rest: seq<byte>)
    requires Acceptable(f)
    ensures InboxOf(Channel(true, FrameBytes(f) + rest)) == Arrives(f, InboxOf(Channel(true, rest)))
  {
    ReceiveInvertsSend(f, rest);
    InboxStep(Channel(true, FrameBytes(f) + rest));
  }

  /**
   The framing round trip: the bytes of any run of acceptable frames yield exactly those frames, and the receives
   that follow start on the byte after them.
   */
  lemma {:induction false} FramingRoundTrip(fs: seq<Frame>, tail: seq<byte>)
    requires forall f <- fs :: Acceptable(f)
    ensures InboxOf(Channel(true, TapeOf(fs) + tail)) == Queue(fs, InboxOf(Channel(true, tail)))
  {
    if fs == [] {
      assert TapeOf(fs) + tail == tail;
    } else {
      var rest := TapeOf(fs[1..]) + tail;
      assert TapeOf(fs) + tail == FrameBytes(fs[0]) + rest;
      FrameArrives(fs[0], rest);
      FramingRoundTrip(fs[1..], tail);
    }
  }

  /** Every frame an inbox yields was on the tape, in order and byte for byte, and was acceptable. */
  lemma {:induction false} InboxWasSent(ch: Channel, fs: seq<Frame>, rest: Inbox)
    requires InboxOf(ch) == Queue(fs, rest)
    ensures TapeOf(fs) <= ch.tape
    ensures forall f <- fs :: Acceptable(f)
    ensures fs != [] ==> InboxOf(Channel(true, ch.tape[|TapeOf(fs)|..])) == rest
    decreases |fs|
  {
    if fs != [] {
      InboxStep(ch);
      ReceivedWasSent(ch);
      var after := ReceiveFrame(ch).after;
      InboxWasSent(after, fs[1..], rest);
      assert TapeOf(fs) == FrameBytes(fs[0]) + TapeOf(fs[1..]);
      assert ch.tape == FrameBytes(fs[0]) + after.tape;
      assert ch.tape[|TapeOf(fs)|..] == after.tape[|TapeOf(fs[1..])|..];
      assert fs[1..] == [] ==> after == Channel(true, after.tape[0..]);
      forall f <- fs ensures Acceptable(f) { assert f == fs[0] || f in fs[1..]; }
    }
  }

  /** Two runs of acceptable frames with the same bytes are the same run: the framing is unambiguous. */
  lemma {:induction false} FramingUnambiguous(fs: seq<Frame>, gs: seq<Frame>)
    requires TapeOf(fs) == TapeOf(gs)
    requires forall f <- fs :: Acceptable(f)
    requires forall g <- gs :: Acceptable(g)
    ensures fs == gs
  {
    if fs != [] && gs != [] {
      ReceiveInvertsSend(fs[0], TapeOf(fs[1..]));
      ReceiveInvertsSend(gs[0], TapeOf(gs[1..]));
      FramingUnambiguous(fs[1..], gs[1..]);
      assert fs == [fs[0]] + fs[1..] && gs == [gs[0]] + gs[1..];
    }
  }

  /**
   One payload byte damaged in transit. The session notices and closes if and only if the sender set the
   checksum; a zero checksum is taken as "not computed" and the damaged frame is handed up.
   */
  lemma DamageIsNoticedIffChecksummed(f: Frame, at: nat, value: byte, tail: seq<byte>)
    requires Acceptable(f) && at < |f.payload| && value != f.payload[at]
    ensures var damaged := Frame(f.header, f.payload[at := value]);
            var r := ReceiveFrame(Channel(true, FrameBytes(damaged) + tail));
            if f.header.dataCheck != 0
            then r == Received(Err(BAD_CHECKSUM), Channel(false, tail))
            else r == Received(Ok(damaged), Channel(true, tail))
  {
    var damaged := Frame(f.header, f.payload[at := value]);
    if f.header.dataCheck == 0 {
      ReceiveInvertsSend(damaged, tail);
    } else {
      ChecksumDetectsOneByte(f.payload, at, value);
      var tape := FrameBytes(damaged) + tail;
      assert tape[..HEADER_SIZE] == EncodeHeader(f.header);
      var body := tape[HEADER_SIZE..];
      assert body == damaged.payload + tail;
      HeaderRoundTrip(f.header);
      assert body[..|f.payload|] == damaged.payload && body[|f.payload|..] == tail;
    }
  }
}
