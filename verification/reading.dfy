/**
 What reading does to a stream, as relations between its states: which frames it took, what it acknowledged, and how
 far it has come. `Streams.Stream` is proved to follow them.
 */
module Reading {
  import opened Bytes
  import opened Results
  import opened Wire
  import opened Framing
  import opened Delivery

  /** Everything about a stream that reading can change. */
  datatype Moment = Moment(supply: Source, log: Journal, faults: nat, closed: bool, sessionClosed: bool)

  // ----- the journal

  /** The frames handed up between two points of a run. */
  function News(before: Journal, after: Journal): seq<Frame>
    requires before.received <= after.received
  {
    after.received[|before.received|..]
  }

  /** The journal of a stream that reads the frames `fs`: each WRTE of its own is acknowledged, nothing else is sent. */
  function Replied(id: u32, ack: Frame, j: Journal, fs: seq<Frame>): Journal
    decreases |fs|, 1
  {
    if fs == [] then j else RepliedTo(id, ack, j, fs)
  }

  function RepliedTo(id: u32, ack: Frame, j: Journal, fs: seq<Frame>): Journal
    requires fs != []
    decreases |fs|, 0
  {
    var f, before := fs[|fs| - 1], Replied(id, ack, j, fs[..|fs| - 1]);
    Journal(before.received + [f], if IsData(id, f.header) then before.sent + [ack] else before.sent)
  }

  lemma RepliedOne(id: u32, ack: Frame, j: Journal, f: Frame)
    ensures Replied(id, ack, j, [f])
         == Journal(j.received + [f], if IsData(id, f.header) then j.sent + [ack] else j.sent)
  {
    assert Replied(id, ack, j, [f]) == RepliedTo(id, ack, j, [f]);
    assert [f][..0] == [] && Replied(id, ack, j, []) == j;
  }

  lemma {:induction false} RepliedThen(id: u32, ack: Frame, j: Journal, fs: seq<Frame>, gs: seq<Frame>)
    ensures Replied(id, ack, Replied(id, ack, j, fs), gs) == Replied(id, ack, j, fs + gs)
  {
    if gs == [] {
      assert fs + gs == fs;
    } else {
      var init := gs[..|gs| - 1];
      RepliedThen(id, ack, j, fs, init);
      assert (fs + gs)[..|fs + gs| - 1] == fs + init;
    }
  }

  /** Only the acknowledgement `ack` has been sent between two points of a run. */
  ghost predicate AcksOnly(before: seq<Frame>, after: seq<Frame>, ack: Frame)
  {
    before <= after && forall i :: |before| <= i < |after| ==> after[i] == ack
  }

  /** One acknowledgement per WRTE received for the stream, and the frames received are all in the journal. */
  lemma {:induction false} RepliedOncePerWrite(id: u32, ack: Frame, j: Journal, fs: seq<Frame>)
    ensures var after := Replied(id, ack, j, fs);
            && after.received == j.received + fs
            && AcksOnly(j.sent, after.sent, ack)
            && |after.sent| == |j.sent| + OwnWrites(id, fs)
  {
    if fs == [] {
      assert j.received + fs == j.received;
    } else {
      var init, f := fs[..|fs| - 1], fs[|fs| - 1];
      RepliedOncePerWrite(id, ack, j, init);
      OwnWritesAppend(id, init, [f]);
      assert fs == init + [f];
      assert OwnWrites(id, [f]) == (if IsData(id, f.header) then 1 else 0) + OwnWrites(id, []);
      assert j.received + init + [f] == j.received + fs;
    }
  }

  lemma RepliedLast(id: u32, ack: Frame, j: Journal, skipped: seq<Frame>, f: Frame)
    requires Idle(id, skipped)
    ensures Replied(id, ack, j, skipped + [f])
         == Journal(j.received + (skipped + [f]), if IsData(id, f.header) then j.sent + [ack] else j.sent)
    ensures Hung(id, skipped + [f]) <==> IsEnd(id, f.header)
    ensures OwnWrites(id, skipped + [f]) == if IsData(id, f.header) then 1 else 0
  {
    RepliedIdle(id, ack, j, skipped);
    IdleFrames(id, skipped, Spent(true));
    assert (skipped + [f])[..|skipped|] == skipped;
    assert j.received + skipped + [f] == j.received + (skipped + [f]);
    OwnWritesAppend(id, skipped, [f]);
    assert OwnWrites(id, [f]) == (if IsData(id, f.header) then 1 else 0) + OwnWrites(id, []);
    assert f in skipped + [f];
  }

  lemma {:induction false} RepliedIdle(id: u32, ack: Frame, j: Journal, fs: seq<Frame>)
    requires Idle(id, fs)
    ensures Replied(id, ack, j, fs) == Journal(j.received + fs, j.sent)
  {
    if fs == [] {
      assert j.received + fs == j.received;
    } else {
      RepliedIdle(id, ack, j, fs[..|fs| - 1]);
      assert j.received + fs[..|fs| - 1] + [fs[|fs| - 1]] == j.received + fs;
    }
  }

  // ----- the buffer

  /** What the buffer holds when the last of the frames has been taken and nothing handed out since. */
  function LastBuffer(id: u32, buffer: seq<byte>, fs: seq<Frame>): seq<byte>
  {
    if fs == [] then buffer
    else if IsData(id, fs[|fs| - 1].header) then fs[|fs| - 1].payload
    else LastBuffer(id, buffer, fs[..|fs| - 1])
  }

  lemma {:induction false} LastBufferCons(id: u32, buffer: seq<byte>, f: Frame, fs: seq<Frame>)
    ensures LastBuffer(id, buffer, [f] + fs)
         == LastBuffer(id, if IsData(id, f.header) then f.payload else buffer, fs)
  {
    if fs == [] {
      assert [f] + fs == [f] && [f][..0] == [];
    } else {
      LastBufferCons(id, buffer, f, fs[..|fs| - 1]);
      assert ([f] + fs)[..|fs|] == [f] + fs[..|fs| - 1];
    }
  }

  /** How many frames an inbox yields. */
  function Size(box: Inbox): nat { if box.Stops? then 0 else 1 + Size(box.rest) }

  lemma {:induction false} QueueSize(fs: seq<Frame>, rest: Inbox)
    ensures Size(Queue(fs, rest)) == |fs| + Size(rest)
  {
    if fs != [] {
      QueueSize(fs[1..], rest);
    }
  }

  lemma {:induction false} DrainShrinks(id: u32, s: Source, n: nat)
    ensures Drain(id, s, n).Full? ==> Size(Drain(id, s, n).left.box) <= Size(s.box)
    decreases s.box, 1
  {
    if n > |s.buffered| {
      DrawShrinks(id, s.box, n - |s.buffered|);
    }
  }

  lemma {:induction false} DrawShrinks(id: u32, box: Inbox, n: nat)
    ensures Draw(id, box, n).Full? ==> Size(Draw(id, box, n).left.box) < Size(box)
    decreases box, 0
  {
    if box.Arrives? {
      match React(id, box.frame.header)
      case Skip => DrawShrinks(id, box.rest, n);
      case Accept => DrainShrinks(id, Source(box.frame.payload, box.rest), n);
      case HangUp =>
      case Reject =>
    }
  }

  /** What a read leaves in the buffer is the end of the last WRTE taken. */
  lemma {:induction false} DrainKeeps(id: u32, s: Source, n: nat, fs: seq<Frame>, left: Source)
    requires s.box == Queue(fs, left.box) && Drain(id, s, n).Full? && Drain(id, s, n).left == left
    ensures Suffix(left.buffered, LastBuffer(id, s.buffered, fs))
    decreases |fs|, 1
  {
    QueueSize(fs, left.box);
    if n > |s.buffered| {
      DrawShrinks(id, s.box, n - |s.buffered|);
      DrawKeeps(id, s.buffered, n - |s.buffered|, fs, left);
    }
  }

  lemma {:induction false} DrawKeeps(id: u32, buffer: seq<byte>, n: nat, fs: seq<Frame>, left: Source)
    requires fs != [] && n > 0
    requires var d := Draw(id, Queue(fs, left.box), n); d.Full? && d.left == left
    ensures Suffix(left.buffered, LastBuffer(id, buffer, fs))
    decreases |fs|, 0
  {
    var f, rest := fs[0], fs[1..];
    LastBufferCons(id, buffer, f, rest);
    assert fs == [f] + rest;
    QueueSize(rest, left.box);
    if React(id, f.header) == Skip {
      DrawShrinks(id, Queue(rest, left.box), n);
      DrawKeeps(id, buffer, n, rest, left);
    } else {
      DrainKeeps(id, Source(f.payload, Queue(rest, left.box)), n, rest, left);
    }
  }

  /** A successful read hands out everything that was buffered or taken, but for what is still buffered. */
  lemma ReadTakesAll(id: u32, ack: Frame, m: Moment, m': Moment, fs: seq<Frame>, n: nat, bytes: seq<byte>)
    requires Took(id, ack, m, m', fs) && Drain(id, m.supply, n) == Full(bytes, m'.supply)
    ensures m.supply.buffered + OwnPayload(id, fs) == bytes + m'.supply.buffered
  {
    var first, payload, later := m.supply.buffered, OwnPayload(id, fs), Deliver(id, m'.supply.box).content;
    FullIsFront(id, m.supply, n, bytes, m'.supply);
    DeliverBehind(id, fs, m'.supply.box);
    assert first + (payload + later) == first + payload + later;
    assert bytes + (m'.supply.buffered + later) == bytes + m'.supply.buffered + later;
    SameFront(first + payload, bytes + m'.supply.buffered, later);
  }

  lemma SameFront(a: seq<byte>, b: seq<byte>, tail: seq<byte>)
    requires a + tail == b + tail
    ensures a == b
  {
    assert |a| == |b|;
    assert a == (a + tail)[..|a|] && b == (b + tail)[..|b|];
  }

  // ----- the state

  /**
   What every call that reads has done, however it ended: it received `fs`, acknowledged the stream's own WRTE frames
   among them, and marked the stream closed if and only if the device's CLSE was among them. A closed session stays
   closed and yields nothing.
   */
  ghost predicate Reacted(id: u32, ack: Frame, m: Moment, m': Moment, fs: seq<Frame>)
  {
    && m'.log == Replied(id, ack, m.log, fs)
    && m'.closed == (m.closed || Hung(id, fs))
    && m.faults <= m'.faults
    && (m.sessionClosed ==> m'.sessionClosed && fs == [])
  }

  /** The link held, and the frames received are those at the front of the inbox; none of them ends the stream. */
  ghost predicate Took(id: u32, ack: Frame, m: Moment, m': Moment, fs: seq<Frame>)
  {
    && Reacted(id, ack, m, m', fs) && Traffic(id, fs)
    && m.supply.box == Queue(fs, m'.supply.box)
    && m'.faults == m.faults && m'.closed == m.closed && m'.sessionClosed == m.sessionClosed
  }

  /** The next WRTE of the stream is in the buffer. */
  ghost predicate TookWrite(id: u32, ack: Frame, m: Moment, m': Moment, fs: seq<Frame>)
  {
    && Took(id, ack, m, m', fs)
    && fs != [] && Idle(id, fs[..|fs| - 1])
    && IsData(id, fs[|fs| - 1].header) && m'.supply.buffered == fs[|fs| - 1].payload
  }

  /** The bytes ran out while the link held: everything up to the ending was taken, and `error` reports the ending. */
  ghost predicate Exhausted(id: u32, ack: Frame, m: Moment, m': Moment, fs: seq<Frame>, error: Error)
  {
    var coming := Deliver(id, m.supply.box);
    && Reacted(id, ack, m, m', fs) && m'.faults == m.faults
    && error == ShortRead(coming.ending)
    && m'.supply == Source([], coming.ending.rest)
    && OwnWrites(id, fs) == coming.writes && Hung(id, fs) == coming.ending.Closed?
  }

  /** No WRTE was left for the stream: `r` is `false` for the device's CLSE, and the failure otherwise. */
  ghost predicate CameToEnd(id: u32, ack: Frame, m: Moment, m': Moment, fs: seq<Frame>, r: Result<bool>)
  {
    var coming := Deliver(id, m.supply.box);
    && coming.content == [] && coming.writes == 0 && m'.supply.buffered == m.supply.buffered
    && r == (if coming.ending.Closed? then Ok(false) else Err(coming.ending.error))
    && (m.supply.buffered == [] ==> Exhausted(id, ack, m, m', fs, ShortRead(coming.ending)))
  }

  /** `m'` is `m` after only these frames were received. */
  ghost predicate Heard(m: Moment, m': Moment, fs: seq<Frame>)
  {
    && m'.log == Journal(m.log.received + fs, m.log.sent)
    && m'.supply.buffered == m.supply.buffered && m.faults <= m'.faults
    && (m.sessionClosed ==> m'.sessionClosed && fs == [])
  }

  /** The session had nothing more, or the link failed first. */
  lemma NoFrameLeft(id: u32, ack: Frame, m: Moment, m': Moment, fs: seq<Frame>, error: Error)
    requires Idle(id, fs) && Heard(m, m', fs) && m'.closed == m.closed
    requires m'.faults == m.faults ==>
               && m.supply.box == Queue(fs, Stops(error, !m'.sessionClosed))
               && m'.supply.box == Spent(!m'.sessionClosed)
    ensures Reacted(id, ack, m, m', fs)
    ensures m'.faults == m.faults ==> CameToEnd(id, ack, m, m', fs, Err(error))
  {
    RepliedIdle(id, ack, m.log, fs);
    IdleFrames(id, fs, Stops(error, !m'.sessionClosed));
  }

  /** The stream's CLSE, or a frame that has no business there. */
  lemma LastFrameArrived(id: u32, ack: Frame, m: Moment, m': Moment, skipped: seq<Frame>, f: Frame)
    requires Idle(id, skipped) && Heard(m, m', skipped + [f]) && m'.faults == m.faults
    requires !Passes(id, f.header) && !IsData(id, f.header)
    requires m'.closed == (m.closed || IsEnd(id, f.header))
    requires m.supply.box == Queue(skipped, Arrives(f, m'.supply.box))
    ensures Reacted(id, ack, m, m', skipped + [f])
    ensures CameToEnd(id, ack, m, m', skipped + [f],
                      if IsEnd(id, f.header) then Ok(false) else Err(UNEXPECTED_MESSAGE))
  {
    RepliedLast(id, ack, m.log, skipped, f);
    IdleFrames(id, skipped, Arrives(f, m'.supply.box));
  }

  /** A WRTE of the stream, which has been acknowledged. */
  lemma WriteArrived(id: u32, ack: Frame, m: Moment, m': Moment, skipped: seq<Frame>, f: Frame)
    requires Idle(id, skipped) && IsData(id, f.header)
    requires m'.log == Journal(m.log.received + (skipped + [f]), m.log.sent + [ack])
    requires m'.closed == m.closed && m.faults <= m'.faults && !m.sessionClosed && !m'.sessionClosed
    requires m.supply.box == Queue(skipped, Arrives(f, m'.supply.box)) && m'.supply.buffered == f.payload
    ensures Reacted(id, ack, m, m', skipped + [f])
    ensures m'.faults == m.faults ==> TookWrite(id, ack, m, m', skipped + [f])
  {
    RepliedLast(id, ack, m.log, skipped, f);
    QueueSnoc(skipped, f, m'.supply.box);
    assert (skipped + [f])[..|skipped|] == skipped;
  }

  /** A call that failed left nothing in the buffer, or the whole of the last WRTE it took. */
  ghost predicate GaveUp(id: u32, m': Moment, fs: seq<Frame>)
  {
    || m'.supply.buffered == []
    || (fs != [] && IsData(id, fs[|fs| - 1].header) && m'.supply.buffered == fs[|fs| - 1].payload)
  }

  /** In the course of a read of `n` bytes that began at `m`, the bytes `done` have been read. */
  ghost predicate Underway(id: u32, ack: Frame, m: Moment, m': Moment, fs: seq<Frame>, n: nat, done: seq<byte>)
  {
    && |done| <= n && Took(id, ack, m, m', fs)
    && Drain(id, m.supply, n) == Ahead(done, Drain(id, m'.supply, n - |done|))
  }

  lemma NothingYet(id: u32, ack: Frame, m: Moment, n: nat)
    ensures Took(id, ack, m, m, []) && Underway(id, ack, m, m, [], n, [])
  {
    var d := Drain(id, m.supply, n);
    assert d.Full? ==> [] + d.bytes == d.bytes;
  }

  lemma ReactedThen(id: u32, ack: Frame, a: Moment, b: Moment, c: Moment, fs: seq<Frame>, gs: seq<Frame>)
    requires Reacted(id, ack, a, b, fs) && Reacted(id, ack, b, c, gs)
    ensures Reacted(id, ack, a, c, fs + gs)
  {
    RepliedThen(id, ack, a.log, fs, gs);
  }

  lemma TookThen(id: u32, ack: Frame, a: Moment, b: Moment, c: Moment, fs: seq<Frame>, gs: seq<Frame>)
    requires Took(id, ack, a, b, fs) && Took(id, ack, b, c, gs)
    ensures Took(id, ack, a, c, fs + gs)
  {
    ReactedThen(id, ack, a, b, c, fs, gs);
    QueueConcat(fs, gs, c.supply.box);
  }

  lemma ExhaustedThen(id: u32, ack: Frame, a: Moment, b: Moment, c: Moment,
                      fs: seq<Frame>, gs: seq<Frame>, error: Error)
    requires Took(id, ack, a, b, fs) && Exhausted(id, ack, b, c, gs, error)
    ensures Exhausted(id, ack, a, c, fs + gs, error)
  {
    ReactedThen(id, ack, a, b, c, fs, gs);
    DeliverBehind(id, fs, b.supply.box);
    OwnWritesAppend(id, fs, gs);
    assert Hung(id, fs + gs) == Hung(id, gs);
  }

  /** A WRTE in the buffer is what a read would have received next. */
  lemma WriteIsNext(id: u32, ack: Frame, m: Moment, m': Moment, fs: seq<Frame>)
    requires TookWrite(id, ack, m, m', fs)
    ensures forall n: nat :: Draw(id, m.supply.box, n) == Drain(id, m'.supply, n)
    ensures Deliver(id, m.supply.box).content == Contents(id, m'.supply)
  {
    var init, f, rest := fs[..|fs| - 1], fs[|fs| - 1], m'.supply.box;
    assert fs == init + [f];
    QueueConcat(init, [f], rest);
    assert Queue([f], rest) == Arrives(f, Queue([], rest));
    IdleFrames(id, init, Arrives(f, rest));
  }

  /** A WRTE replaces a buffer that was used up. */
  lemma RefillGoesOn(id: u32, ack: Frame, start: Moment, m: Moment, m': Moment,
                     fs: seq<Frame>, gs: seq<Frame>, n: nat, done: seq<byte>)
    requires Underway(id, ack, start, m, fs, n, done) && |done| < n
    requires m.supply.buffered == [] && TookWrite(id, ack, m, m', gs)
    ensures Underway(id, ack, start, m', fs + gs, n, done)
  {
    TookThen(id, ack, start, m, m', fs, gs);
    WriteIsNext(id, ack, m, m', gs);
    var d := Draw(id, m.supply.box, n - |done|);
    assert d.Full? ==> [] + d.bytes == d.bytes;
  }

  /** Bytes handed out of the buffer are the next ones. */
  lemma HandOutGoesOn(id: u32, ack: Frame, start: Moment, m: Moment, m': Moment,
                      fs: seq<Frame>, n: nat, done: seq<byte>, count: nat)
    requires Underway(id, ack, start, m, fs, n, done)
    requires count <= |m.supply.buffered| && |done| + count <= n
    requires m' == m.(supply := Source(m.supply.buffered[count..], m.supply.box))
    ensures Underway(id, ack, start, m', fs, n, done + m.supply.buffered[..count])
  {
    DrainFront(id, m.supply, count, n - |done|);
    AheadTwice(done, m.supply.buffered[..count], Drain(id, m'.supply, n - |done| - count));
  }

  /** A read that runs out of bytes after some of them. */
  lemma RunsOut(id: u32, ack: Frame, start: Moment, m: Moment, m': Moment,
                fs: seq<Frame>, gs: seq<Frame>, n: nat, done: seq<byte>, error: Error)
    requires Underway(id, ack, start, m, fs, n, done) && |done| < n
    requires m.supply.buffered == [] && Exhausted(id, ack, m, m', gs, error)
    requires Deliver(id, m.supply.box).content == []
    ensures Exhausted(id, ack, start, m', fs + gs, error) && Drain(id, start.supply, n) == Short
  {
    ExhaustedThen(id, ack, start, m, m', fs, gs, error);
    DrainSplits(id, m.supply, n - |done|);
  }

  /** Once all bytes are there, the read is complete. */
  lemma ReadIsComplete(id: u32, ack: Frame, m: Moment, m': Moment, fs: seq<Frame>, n: nat, done: seq<byte>)
    requires Underway(id, ack, m, m', fs, n, done) && |done| == n
    ensures Drain(id, m.supply, n) == Full(done, m'.supply)
  {
    var left := m'.supply;
    assert left.buffered[..0] == [] && left.buffered[0..] == left.buffered && done + [] == done;
  }

  /** `output` has been collected since `start`, and the buffer is used up. */
  ghost predicate Collected(id: u32, ack: Frame, start: Moment, m: Moment, fs: seq<Frame>, output: seq<byte>)
  {
    && Took(id, ack, start, m, fs) && m.supply.buffered == []
    && output + Deliver(id, m.supply.box).content == Contents(id, start.supply)
  }

  /** In the end, all that was buffered or received has been collected. */
  lemma CollectedAll(id: u32, ack: Frame, start: Moment, m: Moment, m': Moment,
                     fs: seq<Frame>, gs: seq<Frame>, output: seq<byte>, error: Error)
    requires Collected(id, ack, start, m, fs, output) && Exhausted(id, ack, m, m', gs, error)
    requires Deliver(id, m.supply.box).content == [] && Deliver(id, m.supply.box).writes == 0
    ensures output == start.supply.buffered + OwnPayload(id, fs + gs)
  {
    DeliverBehind(id, fs, m.supply.box);
    NoWriteNoPayload(id, gs);
    OwnPayloadAppend(id, fs, gs);
    var first, payload := start.supply.buffered, OwnPayload(id, fs);
    assert payload + [] == payload && output + [] == output;
  }

  lemma CollectedMore(id: u32, ack: Frame, start: Moment, m: Moment, m': Moment,
                      fs: seq<Frame>, gs: seq<Frame>, output: seq<byte>)
    requires Collected(id, ack, start, m, fs, output) && TookWrite(id, ack, m, m', gs)
    ensures Collected(id, ack, start, m'.(supply := Source([], m'.supply.box)), fs + gs, output + m'.supply.buffered)
  {
    TookThen(id, ack, start, m, m', fs, gs);
    WriteIsNext(id, ack, m, m', gs);
    assert output + (m'.supply.buffered + Deliver(id, m'.supply.box).content)
        == output + m'.supply.buffered + Deliver(id, m'.supply.box).content;
  }

  // ----- reading in pieces

  function Sum(sizes: seq<nat>): nat { if sizes == [] then 0 else Sum(sizes[..|sizes| - 1]) + sizes[|sizes| - 1] }

  lemma {:induction false} SumPrefix(sizes: seq<nat>, i: nat)
    requires i <= |sizes|
    ensures Sum(sizes[..i]) <= Sum(sizes)
  {
    var n := |sizes| - 1;
    if i == |sizes| {
      assert sizes[..i] == sizes;
    } else {
      SumPrefix(sizes[..n], i);
      assert sizes[..n][..i] == sizes[..i];
    }
  }

  lemma FlattenOneMore(pieces: seq<seq<byte>>, piece: seq<byte>, rest: seq<byte>)
    ensures Flatten(pieces + [piece]) + rest == Flatten(pieces) + (piece + rest)
    ensures |Flatten(pieces + [piece])| == |Flatten(pieces)| + |piece|
  {
    FlattenAppend(pieces, [piece]);
    assert Flatten([piece]) == piece;
  }

  /** Pieces of the first `i` sizes have been read, one behind the other, and `left` has the rest. */
  ghost predicate CutUp(id: u32, start: Source, left: Source, sizes: seq<nat>, i: nat, pieces: seq<seq<byte>>)
  {
    && i <= |sizes| && |pieces| == i && (forall j :: 0 <= j < i ==> |pieces[j]| == sizes[j])
    && Flatten(pieces) + Contents(id, left) == Contents(id, start) && |Flatten(pieces)| == Sum(sizes[..i])
    && Deliver(id, left.box).ending == Deliver(id, start.box).ending
  }

  lemma CutMore(id: u32, start: Source, s: Source, sizes: seq<nat>, i: nat, pieces: seq<seq<byte>>,
                piece: seq<byte>, left: Source)
    requires CutUp(id, start, s, sizes, i, pieces) && i < |sizes| && Drain(id, s, sizes[i]) == Full(piece, left)
    ensures CutUp(id, start, left, sizes, i + 1, pieces + [piece])
  {
    FullIsFront(id, s, sizes[i], piece, left);
    FlattenOneMore(pieces, piece, Contents(id, left));
    assert sizes[..i + 1][..i] == sizes[..i];
  }

  lemma CutShort(id: u32, start: Source, s: Source, sizes: seq<nat>, i: nat, pieces: seq<seq<byte>>)
    requires CutUp(id, start, s, sizes, i, pieces) && i < |sizes| && Drain(id, s, sizes[i]) == Short
    ensures Sum(sizes) > |Contents(id, start)|
  {
    DrainSplits(id, s, sizes[i]);
    assert sizes[..i + 1][..i] == sizes[..i];
    SumPrefix(sizes, i + 1);
  }
}
