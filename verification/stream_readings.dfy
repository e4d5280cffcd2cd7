/**
 Calls that read, as runs: the frames a call received and the bytes it took out of its handle's buffer, step by step.
 */
module StreamReadings {
  import opened Bytes
  import opened Results
  import opened Wire
  import opened Delivery
  import opened Reading
  import opened Streams
  import opened StreamRuns
  import opened StreamBytes

  /** The frames received and sent so far, behind those of the time before the run. */
  function JournalOf(w: World, base: Journal): Journal
  {
    Journal(base.received + Frames(w.received), base.sent + Frames(w.log))
  }

  lemma {:induction false} RunConcat(w: World, run: seq<Step>, more: seq<Step>)
    requires IsRun(w, run) && IsRun(After(w, run), more)
    ensures IsRun(w, run + more) && After(w, run + more) == After(After(w, run), more)
    decreases |run|
  {
    if run == [] {
      assert run + more == more;
    } else {
      RunConcat(Apply(w, run[0]), run[1..], more);
      assert (run + more)[1..] == run[1..] + more;
    }
  }

  lemma JournalTake(w: World, h: nat, f: Frame, base: Journal)
    requires h < |w.handles|
    ensures var x := w.handles[h];
            JournalOf(TakeFrame(w, h, f), base)
            == Replied(x.local, OkayFrame(x.local, x.remote), JournalOf(w, base), [f])
  {
    var x, w' := w.handles[h], TakeFrame(w, h, f);
    var ack := OkayFrame(x.local, x.remote);
    RepliedOne(x.local, ack, JournalOf(w, base), f);
    assert Frames(w'.received) == Frames(w.received) + [f];
    assert base.received + (Frames(w.received) + [f]) == base.received + Frames(w.received) + [f];
    if IsData(x.local, f.header) {
      assert Frames(w'.log) == Frames(w.log) + [ack];
      assert base.sent + (Frames(w.log) + [ack]) == base.sent + Frames(w.log) + [ack];
    }
  }

  /** Between two points of a run, exactly the bytes of `p` were handed out. */
  ghost predicate MoreHanded(w: World, w': World, p: Piece)
  {
    forall k :: HandedBytes(w'.handed, k) == HandedBytes(w.handed, k) + BytesFor(p, k)
  }

  lemma NothingHanded(w: World, w': World)
    requires w'.handed == w.handed
    ensures MoreHanded(w, w', Piece(0, []))
  {
    assert forall k :: HandedBytes(w.handed, k) + BytesFor(Piece(0, []), k) == HandedBytes(w.handed, k);
  }

  lemma HandedThen(a: World, b: World, c: World, k: nat, first: seq<byte>, second: seq<byte>)
    requires MoreHanded(a, b, Piece(k, first)) && MoreHanded(b, c, Piece(k, second))
    ensures MoreHanded(a, c, Piece(k, first + second))
  {
    forall j ensures HandedBytes(c.handed, j) == HandedBytes(a.handed, j) + BytesFor(Piece(k, first + second), j) {
      assert HandedBytes(b.handed, j) == HandedBytes(a.handed, j) + BytesFor(Piece(k, first), j);
      Regroup(HandedBytes(a.handed, j), BytesFor(Piece(k, first), j), BytesFor(Piece(k, second), j));
    }
  }

  /** A handle hands out the first `n` bytes it has buffered. */
  lemma Handing(w: World, h: nat, n: nat, base: Journal) returns (run: seq<Step>)
    requires h < |w.handles| && n <= |w.handles[h].buffer|
    ensures IsRun(w, run)
    ensures var w', x := After(w, run), w.handles[h];
            && w' == w.(handles := w.handles[h := x.(buffer := x.buffer[n..])], handed := w'.handed)
            && MoreHanded(w, w', Piece(x.stream, x.buffer[..n])) && JournalOf(w', base) == JournalOf(w, base)
  {
    run := Single(w, HandOut(h, n));
    var p := Piece(w.handles[h].stream, w.handles[h].buffer[..n]);
    forall k ensures HandedBytes(w.handed + [p], k) == HandedBytes(w.handed, k) + BytesFor(p, k) {
      HandedAppend(w.handed, p, k);
    }
  }

  /** A handle whose buffer is used up if need be takes one frame. */
  lemma TakingOne(w: World, h: nat, f: Frame, base: Journal) returns (run: seq<Step>)
    requires Enabled(w, Take(h, f))
    ensures IsRun(w, run)
    ensures var w', x := After(w, run), w.handles[h];
            && w' == w.(handles := w.handles[h := x.(closed := x.closed || IsEnd(x.local, f.header),
                                                     buffer := LastBuffer(x.local, x.buffer, [f]))],
                        log := w'.log, received := w'.received)
            && JournalOf(w', base) == Replied(x.local, OkayFrame(x.local, x.remote), JournalOf(w, base), [f])
  {
    run := Single(w, Take(h, f));
    JournalTake(w, h, f, base);
    LastBufferCons(w.handles[h].local, w.handles[h].buffer, f, []);
    assert [f] + [] == [f];
    assert w.handles[h := w.handles[h]] == w.handles;
  }

  /** The frames of a call that reads, and the bytes it takes out of the buffer: all but those in `left`. */
  ghost predicate Consumed(w: World, w': World, h: nat,
                           fs: seq<Frame>, left: seq<byte>, bytes: seq<byte>, base: Journal)
    requires h < |w.handles|
  {
    var x := w.handles[h];
    && w' == w.(handles := w.handles[h := x.(closed := x.closed || Hung(x.local, fs), buffer := left)],
                log := w'.log, received := w'.received, handed := w'.handed)
    && JournalOf(w', base) == Replied(x.local, OkayFrame(x.local, x.remote), JournalOf(w, base), fs)
    && MoreHanded(w, w', Piece(x.stream, bytes)) && bytes + left == x.buffer + OwnPayload(x.local, fs)
  }

  /** One frame: before it is put in the buffer, a WRTE finds the buffer used up. */
  lemma ConsumingOne(w: World, h: nat, f: Frame, base: Journal) returns (run: seq<Step>, bytes: seq<byte>)
    requires h < |w.handles| && w.alive
    ensures IsRun(w, run)
    ensures var x := w.handles[h];
            Consumed(w, After(w, run), h, [f], LastBuffer(x.local, x.buffer, [f]), bytes, base)
  {
    var x := w.handles[h];
    var n := if IsData(x.local, f.header) then |x.buffer| else 0;
    run := Handing(w, h, n, base);
    var emptied := After(w, run);
    var take := TakingOne(emptied, h, f, base);
    bytes := x.buffer[..n];
    RunConcat(w, run, take);
    run := run + take;
    LastBufferCons(x.local, x.buffer, f, []);
    LastBufferCons(x.local, x.buffer[n..], f, []);
    assert [f] + [] == [f] && OwnPayload(x.local, []) == [];
    assert x.buffer == bytes + x.buffer[n..] && f.payload + [] == f.payload && x.buffer + [] == x.buffer;
  }

  lemma ConsumedThen(w: World, a: World, b: World, h: nat, fs: seq<Frame>, gs: seq<Frame>,
                     middle: seq<byte>, left: seq<byte>, first: seq<byte>, second: seq<byte>, base: Journal)
    requires h < |w.handles| && Consumed(w, a, h, fs, middle, first, base) && Consumed(a, b, h, gs, left, second, base)
    ensures Consumed(w, b, h, fs + gs, left, first + second, base)
  {
    var x := w.handles[h];
    RepliedThen(x.local, OkayFrame(x.local, x.remote), JournalOf(w, base), fs, gs);
    HandedThen(w, a, b, x.stream, first, second);
    OwnPayloadAppend(x.local, fs, gs);
    Balance(x.buffer, OwnPayload(x.local, fs), OwnPayload(x.local, gs), first, second, middle, left);
    assert Hung(x.local, fs + gs) <==> Hung(x.local, fs) || Hung(x.local, gs);
  }

  lemma Balance(buffer: seq<byte>, p: seq<byte>, q: seq<byte>,
                first: seq<byte>, second: seq<byte>, middle: seq<byte>, left: seq<byte>)
    requires first + middle == buffer + p && second + left == middle + q
    ensures first + second + left == buffer + (p + q)
  {
    Regroup(first, second, left);
    Regroup(first, middle, q);
    Regroup(buffer, p, q);
  }

  lemma {:induction false} Consuming(w: World, h: nat, fs: seq<Frame>, left: seq<byte>, base: Journal)
    returns (run: seq<Step>, bytes: seq<byte>)
    requires h < |w.handles| && (w.alive || fs == [])
    requires Suffix(left, LastBuffer(w.handles[h].local, w.handles[h].buffer, fs))
    ensures IsRun(w, run) && Consumed(w, After(w, run), h, fs, left, bytes, base)
    decreases |fs|
  {
    var x := w.handles[h];
    if fs == [] {
      var n := |x.buffer| - |left|;
      run := Handing(w, h, n, base);
      bytes := x.buffer[..n];
      assert x.buffer == bytes + left && x.buffer + [] == x.buffer;
    } else {
      var f, rest, later, more := fs[0], fs[1..], [], [];
      assert fs == [f] + rest;
      LastBufferCons(x.local, x.buffer, f, rest);
      LastBufferCons(x.local, x.buffer, f, []);
      assert [f] + [] == [f];
      run, bytes := ConsumingOne(w, h, f, base);
      var taken := After(w, run);
      later, more := Consuming(taken, h, rest, left, base);
      ConsumedThen(w, taken, After(taken, later), h, [f], rest, taken.handles[h].buffer, left, bytes, more, base);
      RunConcat(w, run, later);
      run, bytes := run + later, bytes + more;
    }
  }

  /** A call that reads is the run of the frames it received and the bytes it took, and perhaps of the session's end. */
  lemma ReadingRuns(w: World, h: nat, m: Moment, m': Moment, fs: seq<Frame>, base: Journal)
    returns (run: seq<Step>, bytes: seq<byte>)
    requires h < |w.handles|
    requires var x := w.handles[h];
             && Reacted(x.local, OkayFrame(x.local, x.remote), m, m', fs)
             && m.closed == x.closed && m.supply.buffered == x.buffer
             && Suffix(m'.supply.buffered, LastBuffer(x.local, x.buffer, fs))
    requires m.log == JournalOf(w, base) && m.sessionClosed == !w.alive
    ensures IsRun(w, run)
    ensures var w', x := After(w, run), w.handles[h];
            && w' == w.(handles := w.handles[h := x.(closed := m'.closed, buffer := m'.supply.buffered)],
                        alive := !m'.sessionClosed, log := w'.log, received := w'.received, handed := w'.handed)
            && JournalOf(w', base) == m'.log && MoreHanded(w, w', Piece(x.stream, bytes))
            && bytes + m'.supply.buffered == x.buffer + OwnPayload(x.local, fs)
  {
    run, bytes := Consuming(w, h, fs, m'.supply.buffered, base);
    if m'.sessionClosed && w.alive {
      var taken := After(w, run);
      var end := Single(taken, Die);
      RunConcat(w, run, end);
      run := run + end;
    }
  }

  /** However a call that reads ends, what it leaves in the buffer is the end of the last WRTE it took. */
  lemma GaveUpKeeps(id: u32, buffer: seq<byte>, m': Moment, fs: seq<Frame>)
    requires GaveUp(id, m', fs)
    ensures Suffix(m'.supply.buffered, LastBuffer(id, buffer, fs))
  {
  }

  lemma Single(w: World, s: Step) returns (run: seq<Step>)
    requires Enabled(w, s)
    ensures IsRun(w, run) && After(w, run) == Apply(w, s)
  {
    run := [s];
    assert IsRun(Apply(w, s), []) && run[1..] == [];
  }

  /** The world after a call that reads on handle `h`, which brought its stream to the moment `m'`. */
  ghost predicate ReadTo(w: World, w': World, h: nat, m': Moment, base: Journal)
    requires h < |w.handles|
  {
    && w' == w.(handles := w.handles[h := w.handles[h].(closed := m'.closed, buffer := m'.supply.buffered)],
                alive := !m'.sessionClosed, log := w'.log, received := w'.received, handed := w'.handed)
    && JournalOf(w', base) == m'.log
  }

  /** What a handle says of the moment its object is in. */
  ghost predicate Shows(w: World, h: nat, m: Moment, base: Journal)
  {
    && h < |w.handles| && m.closed == w.handles[h].closed && m.supply.buffered == w.handles[h].buffer
    && m.log == JournalOf(w, base) && m.sessionClosed == !w.alive
  }

  /** `output` is what the call returned, if it succeeded; `piece` is what it took out of the buffer. */
  lemma ReadRuns(w: World, h: nat, m: Moment, m': Moment, fs: seq<Frame>, n: nat,
                 output: Result<seq<byte>>, base: Journal)
    returns (run: seq<Step>, piece: Piece)
    requires Shows(w, h, m, base)
    requires Reacted(w.handles[h].local, OkayFrame(w.handles[h].local, w.handles[h].remote), m, m', fs)
    requires output.Ok? ==>
               && Took(w.handles[h].local, OkayFrame(w.handles[h].local, w.handles[h].remote), m, m', fs)
               && Drain(w.handles[h].local, m.supply, n) == Full(output.value, m'.supply)
    requires output.Err? ==> GaveUp(w.handles[h].local, m', fs)
    ensures IsRun(w, run) && ReadTo(w, After(w, run), h, m', base) && MoreHanded(w, After(w, run), piece)
    ensures output.Ok? ==> piece.bytes == output.value
  {
    var x := w.handles[h];
    if output.Ok? {
      DrainKeeps(x.local, m.supply, n, fs, m'.supply);
    } else {
      GaveUpKeeps(x.local, x.buffer, m', fs);
    }
    var bytes;
    run, bytes := ReadingRuns(w, h, m, m', fs, base);
    piece := Piece(x.stream, bytes);
    if output.Ok? {
      ReadTakesAll(x.local, OkayFrame(x.local, x.remote), m, m', fs, n, output.value);
      SameFront(bytes, output.value, m'.supply.buffered);
    }
  }

  lemma ReadAllRuns(w: World, h: nat, m: Moment, m': Moment, fs: seq<Frame>, output: Result<seq<byte>>, base: Journal)
    returns (run: seq<Step>, piece: Piece)
    requires Shows(w, h, m, base)
    requires Reacted(w.handles[h].local, OkayFrame(w.handles[h].local, w.handles[h].remote), m, m', fs)
    requires GaveUp(w.handles[h].local, m', fs)
    requires output.Ok? ==>
               m'.supply.buffered == [] && output.value == w.handles[h].buffer + OwnPayload(w.handles[h].local, fs)
    ensures IsRun(w, run) && ReadTo(w, After(w, run), h, m', base) && MoreHanded(w, After(w, run), piece)
    ensures output.Ok? ==> piece.bytes == output.value
  {
    var x := w.handles[h];
    GaveUpKeeps(x.local, x.buffer, m', fs);
    var bytes;
    run, bytes := ReadingRuns(w, h, m, m', fs, base);
    piece := Piece(x.stream, bytes);
    assert bytes + [] == bytes;
  }

  lemma JournalGoodbye(w: World, h: Handle, base: Journal)
    ensures base.sent + Frames(w.log + Goodbye(h, w.alive))
         == JournalOf(w, base).sent + Farewell(h.closed || !w.alive, h.local, h.remote)
  {
    var entries, frames := Goodbye(h, w.alive), Farewell(h.closed || !w.alive, h.local, h.remote);
    assert Frames(w.log + entries) == Frames(w.log) + frames;
    Regroup(base.sent, Frames(w.log), frames);
  }

  lemma JournalOpen(w: World, k: nat, announced: seq<Frame>, close: seq<Frame>, waited: seq<Frame>, base: Journal)
    ensures base.received + Frames(w.received + Waiting(k, waited)) == JournalOf(w, base).received + waited
    ensures base.sent + Frames(w.log + Tag(k, announced) + Tag(k, close)) == JournalOf(w, base).sent + announced + close
  {
    assert Frames(w.received + Waiting(k, waited)) == Frames(w.received) + waited;
    assert Frames(w.log + Tag(k, announced) + Tag(k, close)) == Frames(w.log) + announced + close;
  }

  /** Steps other than handing out. */
  lemma QuietStep(w: World, s: Step) returns (run: seq<Step>)
    requires Enabled(w, s) && !s.HandOut?
    ensures IsRun(w, run) && After(w, run) == Apply(w, s) && MoreHanded(w, After(w, run), Piece(0, []))
  {
    run := Single(w, s);
    NothingHanded(w, Apply(w, s));
  }

  /** Bytes handed out so far, call by call. */
  ghost predicate HandedAs(w: World, pieces: seq<Piece>)
  {
    forall k :: HandedBytes(w.handed, k) == HandedBytes(pieces, k)
  }

  lemma HandedAsThen(w: World, w': World, pieces: seq<Piece>, p: Piece)
    requires HandedAs(w, pieces) && MoreHanded(w, w', p)
    ensures HandedAs(w', pieces + [p])
  {
    forall k ensures HandedBytes(w'.handed, k) == HandedBytes(pieces + [p], k) {
      HandedAppend(pieces, p, k);
    }
  }
}
