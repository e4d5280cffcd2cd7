/**
 What one stream makes of everything a device sends: which frames are its own, the bytes they carry, and how the
 delivery ends. All of it is a function of the session's inbox; `Streams.Stream` is proved to compute it.
 */
module Delivery {
  import opened Bytes
  import opened Results
  import opened Wire
  import opened Framing

  // ----- the frames of a stream, as the wire has them: `arg1` is the recipient's id

  /** Data for the stream `id`. */
  predicate IsData(id: u32, m: Message) { m.command == WRTE && m.arg1 == id }

  /** The end of the stream `id`. */
  predicate IsEnd(id: u32, m: Message) { m.command == CLSE && m.arg1 == id }

  /** A frame for another stream, or an acknowledgement of a write of the stream `id`: neither concerns its reader. */
  predicate Passes(id: u32, m: Message) { m.arg1 != id || (m.command == OKAY && m.arg1 == id) }

  // ----- the reader

  datatype Reaction = Skip | Accept | HangUp | Reject

  /** How a stream with local id `id` treats a frame: `arg1` is the recipient's id. */
  function React(id: u32, m: Message): Reaction
  {
    if m.arg1 != id then Skip
    else if m.command == WRTE then Accept
    else if m.command == OKAY then Skip
    else if m.command == CLSE then HangUp
    else Reject
  }

  const UNEXPECTED_MESSAGE := Error(ErrorCode.Protocol, "unexpected message on the stream")
  const DEVICE_CLOSED := Error(ErrorCode.Protocol, "the device closed the stream")
  const OPEN_REFUSED := Error(ErrorCode.Protocol, "failed to open the stream")

  /** How a delivery ends: the device's CLSE, or the failure that cuts it short; and the inbox after that. */
  datatype Ending = Closed(rest: Inbox) | Failed(error: Error, rest: Inbox)

  /** The service bytes held for a stream, the number of WRTE frames that carry them, and what follows them. */
  datatype Haul = Haul(content: seq<byte>, writes: nat, ending: Ending)

  function Deliver(id: u32, box: Inbox): Haul
  {
    match box
    case Stops(e, open) => Haul([], 0, Failed(e, Spent(open)))
    case Arrives(f, rest) =>
      match React(id, f.header)
      case Skip => Deliver(id, rest)
      case Accept => var haul := Deliver(id, rest); Haul(f.payload + haul.content, 1 + haul.writes, haul.ending)
      case HangUp => Haul([], 0, Closed(rest))
      case Reject => Haul([], 0, Failed(UNEXPECTED_MESSAGE, rest))
  }

  /** The error a reader of exact byte counts reports when the content runs out. */
  function ShortRead(e: Ending): Error
  {
    if e.Closed? then DEVICE_CLOSED else e.error
  }

  // ----- reading in pieces

  /** Where a stream reads from: the bytes it has buffered, then what the session will yield. */
  datatype Source = Source(buffered: seq<byte>, box: Inbox)

  function Contents(id: u32, s: Source): seq<byte> { s.buffered + Deliver(id, s.box).content }

  /** The next bytes of a source and what is left of it, unless it holds too few. */
  datatype Drained = Full(bytes: seq<byte>, left: Source) | Short

  function Ahead(front: seq<byte>, d: Drained): Drained
  {
    if d.Full? then Full(front + d.bytes, d.left) else d
  }

  /**
   The next `n` bytes of a source. Frames are received only when the buffer is used up, so what is left of the inbox
   starts behind the WRTE frame that holds the last byte.
   */
  function Drain(id: u32, s: Source, n: nat): Drained
    decreases s.box, 1
  {
    if n <= |s.buffered| then Full(s.buffered[..n], Source(s.buffered[n..], s.box))
    else Ahead(s.buffered, Draw(id, s.box, n - |s.buffered|))
  }

  function Draw(id: u32, box: Inbox, n: nat): Drained
    decreases box, 0
  {
    match box
    case Stops(_, _) => Short
    case Arrives(f, rest) =>
      match React(id, f.header)
      case Skip => Draw(id, rest, n)
      case Accept => Drain(id, Source(f.payload, rest), n)
      case HangUp => Short
      case Reject => Short
  }

  /** `d` is the first `n` bytes of `all`, and what is left has the rest of them. */
  ghost predicate Splits(id: u32, all: seq<byte>, end: Ending, n: nat, d: Drained)
  {
    if n > |all| then d == Short
    else d.Full? && d.bytes == all[..n] && Contents(id, d.left) == all[n..] && Deliver(id, d.left.box).ending == end
  }

  lemma SplitsAhead(id: u32, front: seq<byte>, all: seq<byte>, end: Ending, n: nat, d: Drained)
    requires Splits(id, all, end, n, d)
    ensures Splits(id, front + all, end, |front| + n, Ahead(front, d))
  {
    if n <= |all| {
      assert front + all[..n] == (front + all)[..|front| + n] && all[n..] == (front + all)[|front| + n..];
    }
  }

  /** Reading `n` bytes takes them off the front of the contents, and fails exactly when there are fewer. */
  lemma {:induction false} DrainSplits(id: u32, s: Source, n: nat)
    ensures Splits(id, Contents(id, s), Deliver(id, s.box).ending, n, Drain(id, s, n))
    decreases s.box, 1
  {
    var b, behind := s.buffered, Deliver(id, s.box).content;
    if n <= |b| {
      assert b[..n] == (b + behind)[..n] && b[n..] + behind == (b + behind)[n..];
    } else {
      DrawSplits(id, s.box, n - |b|);
      SplitsAhead(id, b, behind, Deliver(id, s.box).ending, n - |b|, Draw(id, s.box, n - |b|));
    }
  }

  lemma {:induction false} DrawSplits(id: u32, box: Inbox, n: nat)
    requires n > 0
    ensures Splits(id, Deliver(id, box).content, Deliver(id, box).ending, n, Draw(id, box, n))
    decreases box, 0
  {
    if box.Arrives? {
      match React(id, box.frame.header)
      case Skip => DrawSplits(id, box.rest, n);
      case Accept => DrainSplits(id, Source(box.frame.payload, box.rest), n);
      case HangUp =>
      case Reject =>
    }
  }

  lemma FullIsFront(id: u32, s: Source, n: nat, bytes: seq<byte>, left: Source)
    requires Drain(id, s, n) == Full(bytes, left)
    ensures |bytes| == n && Contents(id, s) == bytes + Contents(id, left)
    ensures Deliver(id, left.box).ending == Deliver(id, s.box).ending
  {
    DrainSplits(id, s, n);
  }

  /** Reading within what some frames give leaves the last of them unread, and everything behind them. */
  lemma {:induction false} DrainLeaves(id: u32, s: Source, n: nat, fs: seq<Frame>, rest: Inbox) returns (k: nat)
    requires s.box == Queue(fs, rest) && Traffic(id, fs) && n <= |s.buffered| + |OwnPayload(id, fs)|
    ensures k <= |fs| && Drain(id, s, n).Full? && Drain(id, s, n).left.box == Queue(fs[k..], rest)
    decreases |fs|, 1
  {
    if n <= |s.buffered| {
      k := 0;
      assert fs[0..] == fs;
    } else {
      k := DrawLeaves(id, n - |s.buffered|, fs, rest);
    }
  }

  lemma {:induction false} DrawLeaves(id: u32, n: nat, fs: seq<Frame>, rest: Inbox) returns (k: nat)
    requires Traffic(id, fs) && 0 < n <= |OwnPayload(id, fs)|
    ensures k <= |fs| && Draw(id, Queue(fs, rest), n).Full?
    ensures Draw(id, Queue(fs, rest), n).left.box == Queue(fs[k..], rest)
    decreases |fs|, 0
  {
    if React(id, fs[0].header) == Skip {
      k := DrawLeaves(id, n, fs[1..], rest);
    } else {
      k := DrainLeaves(id, Source(fs[0].payload, Queue(fs[1..], rest)), n, fs[1..], rest);
    }
    k := k + 1;
    assert fs[1..][k - 1..] == fs[k..];
  }

  /** Handing out buffered bytes is part of reading them. */
  lemma DrainFront(id: u32, s: Source, count: nat, n: nat)
    requires count <= |s.buffered| && count <= n
    ensures Drain(id, s, n) == Ahead(s.buffered[..count], Drain(id, Source(s.buffered[count..], s.box), n - count))
  {
    var b, c := s.buffered[..count], s.buffered[count..];
    assert s.buffered == b + c;
    if n <= |s.buffered| {
      assert s.buffered[..n] == b + c[..n - count] && s.buffered[n..] == c[n - count..];
    } else {
      AheadTwice(b, c, Draw(id, s.box, n - |s.buffered|));
    }
  }

  lemma AheadTwice(a: seq<byte>, b: seq<byte>, d: Drained)
    ensures Ahead(a, Ahead(b, d)) == Ahead(a + b, d)
  {
    if d.Full? {
      assert a + (b + d.bytes) == a + b + d.bytes;
    }
  }

  /** Reading in two pieces is reading in one. */
  lemma {:induction false} DrainTwice(id: u32, s: Source, a: nat, b: nat)
    ensures match Drain(id, s, a)
            case Full(bytes, left) => Drain(id, s, a + b) == Ahead(bytes, Drain(id, left, b))
            case Short => Drain(id, s, a + b) == Short
    decreases s.box, 1
  {
    if a <= |s.buffered| {
      DrainFront(id, s, a, a + b);
    } else {
      DrawTwice(id, s.box, a - |s.buffered|, b);
      var d := Draw(id, s.box, a - |s.buffered|);
      if d.Full? {
        AheadTwice(s.buffered, d.bytes, Drain(id, d.left, b));
      }
    }
  }

  lemma {:induction false} DrawTwice(id: u32, box: Inbox, a: nat, b: nat)
    requires a > 0
    ensures match Draw(id, box, a)
            case Full(bytes, left) => Draw(id, box, a + b) == Ahead(bytes, Drain(id, left, b))
            case Short => Draw(id, box, a + b) == Short
    decreases box, 0
  {
    if box.Arrives? {
      match React(id, box.frame.header)
      case Skip => DrawTwice(id, box.rest, a, b);
      case Accept => DrainTwice(id, Source(box.frame.payload, box.rest), a, b);
      case HangUp =>
      case Reject =>
    }
  }

  datatype Opening = Opened(remote: u32, rest: Inbox) | Refused(error: Error, rest: Inbox)

  /** Waits for the answer to an OPEN. */
  function Await(id: u32, box: Inbox): Opening
  {
    match box
    case Stops(e, open) => Refused(e, Spent(open))
    case Arrives(f, rest) =>
      if f.header.arg1 != id then Await(id, rest)
      else if f.header.command != OKAY then Refused(OPEN_REFUSED, rest)
      else Opened(f.header.arg0, rest)
  }

  /** Whether the session ends before an OPEN is answered. */
  predicate Dies(id: u32, box: Inbox)
  {
    match box
    case Stops(_, open) => !open
    case Arrives(f, rest) => f.header.arg1 != id && Dies(id, rest)
  }

  /** OPEN's destination is a C string, so the terminating NUL is part of the payload. */
  function Destination(service: seq<byte>): seq<byte> { service + [0] }

  /** The whole opening: a destination too long for a header is refused before anything is received. */
  function Opens(id: u32, service: seq<byte>, box: Inbox): Opening
  {
    match DataLengthOf(Destination(service))
    case Err(e) => Refused(e, box)
    case Ok(_) => Await(id, box)
  }

  // ----- frames put on the channel by a device

  /** The payloads of the frames the stream accepts, in order. */
  function OwnPayload(id: u32, fs: seq<Frame>): seq<byte>
  {
    if fs == [] then []
    else (if IsData(id, fs[0].header) then fs[0].payload else []) + OwnPayload(id, fs[1..])
  }

  function OwnWrites(id: u32, fs: seq<Frame>): nat
  {
    if fs == [] then 0
    else (if IsData(id, fs[0].header) then 1 else 0) + OwnWrites(id, fs[1..])
  }

  lemma {:induction false} OwnWritesAppend(id: u32, fs: seq<Frame>, gs: seq<Frame>)
    ensures OwnWrites(id, fs + gs) == OwnWrites(id, fs) + OwnWrites(id, gs)
  {
    if fs == [] {
      assert fs + gs == gs;
    } else {
      OwnWritesAppend(id, fs[1..], gs);
      assert (fs + gs)[1..] == fs[1..] + gs;
    }
  }

  lemma {:induction false} OwnPayloadAppend(id: u32, fs: seq<Frame>, gs: seq<Frame>)
    ensures OwnPayload(id, fs + gs) == OwnPayload(id, fs) + OwnPayload(id, gs)
  {
    if fs == [] {
      assert fs + gs == gs;
    } else {
      var mine := if IsData(id, fs[0].header) then fs[0].payload else [];
      OwnPayloadAppend(id, fs[1..], gs);
      assert (fs + gs)[1..] == fs[1..] + gs;
      Regroup(mine, OwnPayload(id, fs[1..]), OwnPayload(id, gs));
    }
  }

  /** The frames give the stream `id` exactly these pieces, one WRTE for each. */
  ghost predicate Yields(id: u32, fs: seq<Frame>, pieces: seq<seq<byte>>)
  {
    OwnPayload(id, fs) == Flatten(pieces) && OwnWrites(id, fs) == |pieces|
  }

  lemma YieldsOneMore(id: u32, fs: seq<Frame>, pieces: seq<seq<byte>>, i: nat, f: Frame)
    requires i < |pieces| && Yields(id, fs, pieces[..i]) && IsData(id, f.header) && f.payload == pieces[i]
    ensures Yields(id, fs + [f], pieces[..i + 1])
  {
    assert pieces[..i + 1] == pieces[..i] + [f.payload];
    OwnPayloadAppend(id, fs, [f]);
    OwnWritesAppend(id, fs, [f]);
    FlattenAppend(pieces[..i], [f.payload]);
    assert OwnPayload(id, [f]) == f.payload + OwnPayload(id, []) == f.payload + [];
    assert OwnWrites(id, [f]) == 1 + OwnWrites(id, []);
    assert Flatten([f.payload]) == f.payload + Flatten([]);
  }

  lemma {:induction false} NoWriteNoPayload(id: u32, fs: seq<Frame>)
    requires OwnWrites(id, fs) == 0
    ensures OwnPayload(id, fs) == []
  {
    if fs != [] {
      NoWriteNoPayload(id, fs[1..]);
    }
  }

  /** Whether the device's CLSE for the stream is among the frames. */
  predicate Hung(id: u32, fs: seq<Frame>) { exists f <- fs :: IsEnd(id, f.header) }

  lemma QueueSnoc(fs: seq<Frame>, f: Frame, rest: Inbox)
    ensures Queue(fs + [f], rest) == Queue(fs, Arrives(f, rest))
  {
    QueueConcat(fs, [f], rest);
    assert Queue([f], rest) == Arrives(f, Queue([], rest));
  }

  /** Frames that a reading stream skips. */
  ghost predicate Idle(id: u32, fs: seq<Frame>) { forall f <- fs :: Passes(id, f.header) }

  lemma {:induction false} IdleFrames(id: u32, fs: seq<Frame>, rest: Inbox)
    requires Idle(id, fs)
    ensures OwnPayload(id, fs) == [] && OwnWrites(id, fs) == 0 && !Hung(id, fs)
    ensures Deliver(id, Queue(fs, rest)) == Deliver(id, rest)
    ensures forall n: nat :: Draw(id, Queue(fs, rest), n) == Draw(id, rest, n)
  {
    if fs != [] {
      IdleFrames(id, fs[1..], rest);
    }
  }

  lemma {:induction false} QueueConcat(fs: seq<Frame>, gs: seq<Frame>, rest: Inbox)
    ensures Queue(fs + gs, rest) == Queue(fs, Queue(gs, rest))
  {
    if fs == [] {
      assert fs + gs == gs;
    } else {
      assert (fs + gs)[1..] == fs[1..] + gs;
      QueueConcat(fs[1..], gs, rest);
    }
  }

  /** Frames that leave the stream running: its data, acknowledgements, and anything for other streams. */
  ghost predicate Traffic(id: u32, fs: seq<Frame>)
  {
    forall f <- fs :: Passes(id, f.header) || IsData(id, f.header)
  }

  lemma {:induction false} DeliveryOfQueue(id: u32, fs: seq<Frame>, close: Frame, rest: Inbox)
    requires Traffic(id, fs) && IsEnd(id, close.header)
    ensures Deliver(id, Queue(fs, Arrives(close, rest))) == Haul(OwnPayload(id, fs), OwnWrites(id, fs), Closed(rest))
  {
    if fs != [] {
      DeliveryOfQueue(id, fs[1..], close, rest);
    }
  }

  /** What a stream gets is what the frames received so far give it, and then what is left gives it. */
  lemma {:induction false} DeliverBehind(id: u32, fs: seq<Frame>, rest: Inbox)
    requires Traffic(id, fs)
    ensures var coming := Deliver(id, rest);
            Deliver(id, Queue(fs, rest))
            == Haul(OwnPayload(id, fs) + coming.content, OwnWrites(id, fs) + coming.writes, coming.ending)
  {
    var last := Deliver(id, rest).content;
    if fs == [] {
      assert [] + last == last;
    } else {
      var mine, others := fs[0].payload, OwnPayload(id, fs[1..]);
      DeliverBehind(id, fs[1..], rest);
      if IsData(id, fs[0].header) {
        assert mine + (others + last) == mine + others + last;
      } else {
        assert [] + others == others;
      }
    }
  }

  /** A delivery that the session's failure cuts short fails with it, whatever was delivered before. */
  lemma DeliveryCutShort(id: u32, fs: seq<Frame>, error: Error, open: bool)
    requires Traffic(id, fs)
    ensures Deliver(id, Queue(fs, Stops(error, open)))
         == Haul(OwnPayload(id, fs), OwnWrites(id, fs), Failed(error, Spent(open)))
  {
    DeliverBehind(id, fs, Stops(error, open));
    assert OwnPayload(id, fs) + [] == OwnPayload(id, fs);
  }

  /** And so does one that meets a frame which has no business on an open stream. */
  lemma DeliveryRejected(id: u32, fs: seq<Frame>, odd: Frame, rest: Inbox)
    requires Traffic(id, fs) && odd.header.arg1 == id && odd.header.command !in {WRTE, OKAY, CLSE}
    ensures Deliver(id, Queue(fs, Arrives(odd, rest)))
         == Haul(OwnPayload(id, fs), OwnWrites(id, fs), Failed(UNEXPECTED_MESSAGE, rest))
  {
    DeliverBehind(id, fs, Arrives(odd, rest));
    assert OwnPayload(id, fs) + [] == OwnPayload(id, fs);
  }

  /**
   Frames for other streams are dropped, not queued. Reading stream `a` to its end therefore costs a second stream
   exactly what the device sent it meanwhile; it costs nothing if and only if that was nothing.
   */
  lemma {:induction false} ReadingCostsOtherStreams(a: u32, b: u32, fs: seq<Frame>, close: Frame, rest: Inbox)
    requires a != b && Traffic(a, fs) && Traffic(b, fs) && IsEnd(a, close.header)
    ensures var box := Queue(fs, Arrives(close, rest));
            var left := Deliver(a, box).ending.rest;
            && Deliver(b, box).content == OwnPayload(b, fs) + Deliver(b, left).content
            && (Deliver(b, left).content == Deliver(b, box).content <==> OwnPayload(b, fs) == [])
  {
    DeliveryOfQueue(a, fs, close, rest);
    DeliverBehind(b, fs, Arrives(close, rest));
  }

  /**
   Delivery, from the bytes on the wire: whatever frames surround them and however the service bytes are cut into
   WRTE frames, the stream's content is those bytes, one acknowledgement is due per WRTE, and what is received
   next starts on the byte after the CLSE.
   */
  lemma DeliveryOfTape(id: u32, fs: seq<Frame>, close: Frame, tail: seq<byte>)
    requires forall f <- fs :: Acceptable(f)
    requires Acceptable(close) && Traffic(id, fs) && IsEnd(id, close.header)
    ensures Deliver(id, InboxOf(Channel(true, TapeOf(fs) + (FrameBytes(close) + tail))))
         == Haul(OwnPayload(id, fs), OwnWrites(id, fs), Closed(InboxOf(Channel(true, tail))))
  {
    FramingRoundTrip(fs, FrameBytes(close) + tail);
    FrameArrives(close, tail);
    DeliveryOfQueue(id, fs, close, InboxOf(Channel(true, tail)));
  }

  /** Frames for other streams before the device's answer do not disturb an open. */
  lemma {:induction false} AwaitBehind(id: u32, fs: seq<Frame>, rest: Inbox)
    requires forall f <- fs :: f.header.arg1 != id
    ensures Await(id, Queue(fs, rest)) == Await(id, rest)
  {
    if fs != [] {
      AwaitBehind(id, fs[1..], rest);
    }
  }

  /** A whole session of a service as a device plays it: frames for others, the OKAY, the service's frames, the CLSE. */
  datatype Play = Play(before: seq<Frame>, okay: Frame, service: seq<Frame>, close: Frame)

  /** A play the device may give to the stream `id`, cutting and interleaving as it likes. */
  ghost predicate FairPlay(id: u32, p: Play)
  {
    && (forall f <- p.before :: Acceptable(f) && f.header.arg1 != id)
    && Acceptable(p.okay) && p.okay.header.arg1 == id && p.okay.header.command == OKAY
    && (forall f <- p.service :: Acceptable(f)) && Traffic(id, p.service)
    && Acceptable(p.close) && IsEnd(id, p.close.header)
  }

  function PlayBytes(p: Play, tail: seq<byte>): seq<byte>
  {
    TapeOf(p.before) + (FrameBytes(p.okay) + (TapeOf(p.service) + (FrameBytes(p.close) + tail)))
  }

  /** What the session yields of a play. */
  lemma PlayQueue(p: Play, tail: seq<byte>)
    requires (forall f <- p.before :: Acceptable(f)) && Acceptable(p.okay)
    requires (forall f <- p.service :: Acceptable(f)) && Acceptable(p.close)
    ensures InboxOf(Channel(true, PlayBytes(p, tail)))
         == Queue(p.before, Arrives(p.okay, Queue(p.service, Arrives(p.close, InboxOf(Channel(true, tail))))))
  {
    var served := TapeOf(p.service) + (FrameBytes(p.close) + tail);
    FramingRoundTrip(p.before, FrameBytes(p.okay) + served);
    FrameArrives(p.okay, served);
    FramingRoundTrip(p.service, FrameBytes(p.close) + tail);
    FrameArrives(p.close, tail);
  }

  /** From the bytes on the wire to the service bytes: opening, delivery, acknowledgements and end of one stream. */
  lemma ServiceDelivery(id: u32, p: Play, tail: seq<byte>)
    requires FairPlay(id, p)
    ensures var o := Await(id, InboxOf(Channel(true, PlayBytes(p, tail))));
            && o.Opened? && o.remote == p.okay.header.arg0
            && Deliver(id, o.rest)
            == Haul(OwnPayload(id, p.service), OwnWrites(id, p.service), Closed(InboxOf(Channel(true, tail))))
  {
    PlayQueue(p, tail);
    AwaitBehind(id, p.before, Arrives(p.okay, Queue(p.service, Arrives(p.close, InboxOf(Channel(true, tail))))));
    DeliveryOfQueue(id, p.service, p.close, InboxOf(Channel(true, tail)));
  }
}
