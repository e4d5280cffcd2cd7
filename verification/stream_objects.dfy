/** `Stream` objects as instances of the machine of `StreamRuns`, whatever operations are called on them. */
module StreamObjects {
  import opened Bytes
  import opened Results
  import opened Wire
  import opened Connections
  import opened Delivery
  import opened Reading
  import opened Streams
  import opened StreamRuns
  import opened StreamBytes
  import opened StreamReadings

  /** A handle of the machine says what its object holds. */
  ghost predicate Depicts(x: Handle, s: Stream, c: Connection)
    reads s
  {
    && s.connection == c && s.localId == x.local && s.remoteId == x.remote
    && s.closed == x.closed && s.Buffered() == x.buffer
  }

  /** The machine says what the connection holds, and what was received and sent on it since `base`. */
  ghost predicate Carries(w: World, c: Connection, base: Journal)
    reads c, c.session, c.session.transport
  {
    && c.nextLocalId == NextLocal(w) && c.session.closed == !w.alive
    && c.Link().Log() == JournalOf(w, base)
  }

  ghost predicate Matches(w: World, ss: seq<Stream>, c: Connection, base: Journal)
    reads ss, c, c.session, c.session.transport
  {
    && |ss| == |w.handles|
    && (forall i, j :: 0 <= i < j < |ss| ==> ss[i] != ss[j])
    && (forall i :: 0 <= i < |ss| ==> Depicts(w.handles[i], ss[i], c))
    && Carries(w, c, base)
  }

  datatype Request =
    | DoOpen(service: seq<byte>)
    | DoWrite(h: nat, data: seq<byte>)
    | DoRead(h: nat, n: nat)
    | DoReadAll(h: nat)
    | DoMoveConstruct(h: nat)
    | DoMoveAssign(to: nat, from: nat)
    | DoDestroy(h: nat)
    | DoCloseConnection

  /** A handle exists. All that is left may be read only where the cursor is within the buffer. */
  predicate Possible(q: Request, ss: seq<Stream>)
    reads ss
  {
    match q
    case DoOpen(_) => true
    case DoWrite(h, _) => h < |ss|
    case DoRead(h, _) => h < |ss|
    case DoReadAll(h) => h < |ss| && ss[h].offset <= |ss[h].incoming|
    case DoMoveConstruct(h) => h < |ss|
    case DoMoveAssign(to, from) => to < |ss| && from < |ss|
    case DoDestroy(h) => h < |ss|
    case DoCloseConnection => true
  }

  method PerformRead(h: nat, n: nat, ghost w: World, ss: seq<Stream>, c: Connection, ghost base: Journal)
    returns (ghost run: seq<Step>, ghost piece: Piece, output: Option<seq<byte>>)
    requires Matches(w, ss, c, base) && h < |ss|
    modifies ss, c.session`closed, c.session.transport
    ensures IsRun(w, run) && Matches(After(w, run), ss, c, base) && MoreHanded(w, After(w, run), piece)
    ensures output.Some? ==> piece.bytes == output.value
  {
    ghost var m := ss[h].Now();
    var read, fs := ReadBytes(ss[h], n);
    run, piece := ReadRuns(w, h, m, ss[h].Now(), fs, n, read, base);
    output := if read.Ok? then Some(read.value) else None;
  }

  method PerformReadAll(h: nat, ghost w: World, ss: seq<Stream>, c: Connection, ghost base: Journal)
    returns (ghost run: seq<Step>, ghost piece: Piece, output: Option<seq<byte>>)
    requires Matches(w, ss, c, base) && h < |ss| && ss[h].Valid()
    modifies ss, c.session`closed, c.session.transport
    ensures IsRun(w, run) && Matches(After(w, run), ss, c, base) && MoreHanded(w, After(w, run), piece)
    ensures output.Some? ==> piece.bytes == output.value
  {
    ghost var m := ss[h].Now();
    var read, fs := ss[h].ReadAll();
    run, piece := ReadAllRuns(w, h, m, ss[h].Now(), fs, read, base);
    output := if read.Ok? then Some(read.value) else None;
  }

  /** An open and the frames it sent and received, one by one. */
  method OpenOn(c: Connection, service: seq<byte>)
    returns (r: Result<Stream>, ghost announced: seq<Frame>, ghost waited: seq<Frame>, ghost close: seq<Frame>)
    modifies c`nextLocalId, c.session`closed, c.session.transport
    ensures var id := old(c.nextLocalId);
            && c.nextLocalId == NextId(id)
            && c.Link().received == old(c.Link().received) + waited
            && c.Link().sent == old(c.Link().sent) + announced + close
            && |announced| <= 1 && (forall f <- announced :: f.header.command == OPEN)
            && (r.Ok? ==>
                  && fresh(r.value) && Depicts(Handle(0, id, r.value.remoteId, false, []), r.value, c)
                  && !old(c.session.closed) && !c.session.closed
                  && |announced| == 1 && close == [] && AnsweredBy(id, waited, r.value.remoteId))
            && (r.Err? ==> Unanswered(id, waited) && close == Farewell(c.session.closed, id, 0))
            && (old(c.session.closed) ==> c.session.closed && announced == [] && waited == [])
  {
    ghost var id, log := c.nextLocalId, c.Link().Log();
    announced :=
      if |Destination(service)| < WORD && !c.session.closed then [OpenFrame(id, c.delayedAck, service)] else [];
    r := Stream.Open(c, service);
    waited, close := News(log, c.Link().Log()), if r.Ok? then [] else Farewell(c.session.closed, id, 0);
  }

  method PerformOpen(service: seq<byte>, ghost w: World, ss: seq<Stream>, c: Connection, ghost base: Journal)
    returns (ghost step: Step, ss': seq<Stream>)
    requires Matches(w, ss, c, base)
    modifies c, c.session`closed, c.session.transport
    ensures Enabled(w, step) && !step.HandOut? && Matches(Apply(w, step), ss', c, base)
    ensures forall i :: 0 <= i < |ss'| ==> ss'[i] in ss || fresh(ss'[i])
  {
    ghost var id, k := c.nextLocalId, w.streams;
    var r, announced, waited, close := OpenOn(c, service);
    JournalOpen(w, k, announced, close, waited, base);
    if r.Ok? {
      step, ss' := Open(announced[0], waited, r.value.remoteId), ss + [r.value];
      assert w.log + Tag(k, announced) + Tag(k, []) == w.log + [Entry(k, announced[0])];
    } else {
      step, ss' := Refuse(announced, waited, c.session.closed), ss;
      assert Tag(k, close) == Goodbye(Handle(k, id, 0, false, []), !c.session.closed);
    }
  }

  method PerformWrite(h: nat, data: seq<byte>, ghost w: World, ss: seq<Stream>, c: Connection, ghost base: Journal)
    returns (ghost run: seq<Step>)
    requires Matches(w, ss, c, base) && h < |ss|
    modifies c.session.transport
    ensures IsRun(w, run) && Matches(After(w, run), ss, c, base) && After(w, run).handed == w.handed
  {
    var s := ss[h];
    var _ := s.Write(data);
    if |data| > c.maxData || c.session.closed {
      run := [];
    } else {
      run := Single(w, Write(h, DataFrame(WRTE, s.localId, s.remoteId, data)));
    }
  }

  method PerformClose(ghost w: World, ss: seq<Stream>, c: Connection, ghost base: Journal) returns (ghost step: Step)
    requires Matches(w, ss, c, base)
    modifies c.session`closed, c.session.transport
    ensures Enabled(w, step) && !step.HandOut? && Matches(Apply(w, step), ss, c, base)
  {
    step := Die;
    c.Close();
  }

  method PerformDestroy(h: nat, ghost w: World, ss: seq<Stream>, c: Connection, ghost base: Journal)
    returns (ghost step: Step)
    requires Matches(w, ss, c, base) && h < |ss|
    modifies ss, c.session.transport
    ensures Enabled(w, step) && !step.HandOut? && Matches(Apply(w, step), ss, c, base)
  {
    step := Destroy(h);
    ss[h].CloseNow();
    JournalGoodbye(w, w.handles[h], base);
  }

  method PerformMoveAssign(to: nat, from: nat, ghost w: World, ss: seq<Stream>, c: Connection, ghost base: Journal)
    returns (ghost step: Step)
    requires Matches(w, ss, c, base) && to < |ss| && from < |ss|
    modifies ss, c.session.transport
    ensures Enabled(w, step) && !step.HandOut? && Matches(Apply(w, step), ss, c, base)
  {
    step := MoveAssign(to, from);
    if to == from {
      ss[to].MoveFrom(ss[from]);
    } else {
      MoveBetween(to, from, w, ss, c, base);
    }
  }

  /** A move between two streams of a connection, with what it sends. */
  method MoveOver(target: Stream, source: Stream, c: Connection)
    requires target != source && target.connection == source.connection == c
    modifies target, source, c.session.transport
    ensures target.connection == source.connection == c && source.closed && source.Buffered() == []
    ensures source.localId == old(source.localId) && source.remoteId == old(source.remoteId)
    ensures target.localId == old(source.localId) && target.remoteId == old(source.remoteId)
    ensures target.closed == old(source.closed) && target.Buffered() == old(source.Buffered())
    ensures c.Link().received == old(c.Link().received)
    ensures c.Link().sent == old(c.Link().sent)
                           + Farewell(old(target.closed) || c.session.closed, old(target.localId), old(target.remoteId))
  {
    target.MoveFrom(source);
  }

  method MoveBetween(to: nat, from: nat, ghost w: World, ss: seq<Stream>, c: Connection, ghost base: Journal)
    requires Matches(w, ss, c, base) && to < |ss| && from < |ss| && to != from
    modifies ss, c.session.transport
    ensures Matches(Apply(w, MoveAssign(to, from)), ss, c, base)
  {
    ghost var w' := Apply(w, MoveAssign(to, from));
    var target, source := ss[to], ss[from];
    JournalGoodbye(w, w.handles[to], base);
    assert Depicts(w.handles[to], target, c) && Depicts(w.handles[from], source, c);
    MoveOver(target, source, c);
    forall i | 0 <= i < |ss| ensures Depicts(w'.handles[i], ss[i], c) {
      if i != to && i != from {
        assert w'.handles[i] == w.handles[i] && ss[i] != target && ss[i] != source;
      }
    }
  }

  method PerformMoveConstruct(h: nat, ghost w: World, ss: seq<Stream>, c: Connection, ghost base: Journal)
    returns (ghost step: Step, s: Stream)
    requires Matches(w, ss, c, base) && h < |ss|
    modifies ss
    ensures fresh(s) && Enabled(w, step) && !step.HandOut? && Matches(Apply(w, step), ss + [s], c, base)
  {
    s := new Stream.Move(ss[h]);
    step := MoveConstruct(h);
  }

  /** An operation on the objects that reads is a few steps of the machine. */
  method PerformReading(q: Request, ghost w: World, ss: seq<Stream>, c: Connection, ghost base: Journal)
    returns (ghost run: seq<Step>, ghost piece: Piece, output: Option<seq<byte>>)
    requires Matches(w, ss, c, base) && Possible(q, ss) && (q.DoRead? || q.DoReadAll?)
    modifies ss, c.session`closed, c.session.transport
    ensures IsRun(w, run) && Matches(After(w, run), ss, c, base)
    ensures MoreHanded(w, After(w, run), piece) && (output.Some? ==> piece.bytes == output.value)
  {
    if q.DoRead? {
      run, piece, output := PerformRead(q.h, q.n, w, ss, c, base);
    } else {
      run, piece, output := PerformReadAll(q.h, w, ss, c, base);
    }
  }

  /** And so is any other. */
  method PerformOther(q: Request, ghost w: World, ss: seq<Stream>, c: Connection, ghost base: Journal)
    returns (ghost run: seq<Step>, ss': seq<Stream>)
    requires Matches(w, ss, c, base) && Possible(q, ss) && !q.DoRead? && !q.DoReadAll?
    modifies ss, c, c.session`closed, c.session.transport
    ensures IsRun(w, run) && Matches(After(w, run), ss', c, base) && MoreHanded(w, After(w, run), Piece(0, []))
    ensures forall i :: 0 <= i < |ss'| ==> ss'[i] in ss || fresh(ss'[i])
  {
    ss' := ss;
    ghost var step: Step;
    if q.DoWrite? {
      run := PerformWrite(q.h, q.data, w, ss, c, base);
      NothingHanded(w, After(w, run));
      return;
    } else if q.DoOpen? {
      step, ss' := PerformOpen(q.service, w, ss, c, base);
    } else if q.DoMoveConstruct? {
      var s;
      step, s := PerformMoveConstruct(q.h, w, ss, c, base);
      ss' := ss + [s];
    } else if q.DoMoveAssign? {
      step := PerformMoveAssign(q.to, q.from, w, ss, c, base);
    } else if q.DoDestroy? {
      step := PerformDestroy(q.h, w, ss, c, base);
    } else {
      step := PerformClose(w, ss, c, base);
    }
    run := QuietStep(w, step);
  }

  /** One operation: the steps it comes to, the bytes it takes out of a buffer, and what it returns if it is a read. */
  method Perform(q: Request, ghost w: World, ss: seq<Stream>, c: Connection, ghost base: Journal)
    returns (ghost run: seq<Step>, ss': seq<Stream>, ghost piece: Piece, output: Option<seq<byte>>)
    requires Matches(w, ss, c, base) && Possible(q, ss)
    modifies ss, c, c.session`closed, c.session.transport
    ensures IsRun(w, run) && Matches(After(w, run), ss', c, base)
    ensures forall i :: 0 <= i < |ss'| ==> ss'[i] in ss || fresh(ss'[i])
    ensures MoreHanded(w, After(w, run), piece) && (output.Some? ==> piece.bytes == output.value)
  {
    if q.DoRead? || q.DoReadAll? {
      ss' := ss;
      run, piece, output := PerformReading(q, w, ss, c, base);
    } else {
      run, ss' := PerformOther(q, w, ss, c, base);
      piece, output := Piece(0, []), None;
    }
  }

  /**
   Any schedule of operations on the streams of a connection is a run of the machine, so the theorems above apply to
   it: until the local ids repeat, no more than one CLSE goes out for each of them; and if the run is tidy, the pieces
   that the reads took are, stream by stream, the payloads received, in order. What a read returned is its piece.
   */
  method Drive(c: Connection, schedule: seq<Request>)
    returns (ghost run: seq<Step>, ss: seq<Stream>, ghost pieces: seq<Piece>, outputs: seq<Option<seq<byte>>>)
    modifies c, c.session`closed, c.session.transport
    ensures IsRun(Start(old(c.nextLocalId), !old(c.session.closed)), run)
    ensures |pieces| == |outputs| == |schedule|
    ensures forall i :: 0 <= i < |outputs| ==> outputs[i].Some? ==> pieces[i].bytes == outputs[i].value
    ensures var start := Start(old(c.nextLocalId), !old(c.session.closed));
            var w := After(start, run);
            && Matches(w, ss, c, old(c.Link().Log())) && Inv(w) && HandedAs(w, pieces)
            && (w.streams <= WORD ==>
                  forall id: u32 :: ClosesOf(c.Link().sent[|old(c.Link().sent)|..], id) <= 1)
            && (TidyRun(start, run) ==> forall k :: InOrder(w, k))
  {
    ghost var start, base := Start(c.nextLocalId, !c.session.closed), c.Link().Log();
    run, ss, pieces, outputs := [], [], [], [];
    assert JournalOf(start, base) == base;
    for i := 0 to |schedule|
      invariant IsRun(start, run) && Matches(After(start, run), ss, c, base)
      invariant forall j :: 0 <= j < |ss| ==> fresh(ss[j])
      invariant |pieces| == |outputs| == i && HandedAs(After(start, run), pieces)
      invariant forall j :: 0 <= j < i ==> outputs[j].Some? ==> pieces[j].bytes == outputs[j].value
    {
      ghost var w, piece, more := After(start, run), Piece(0, []), [];
      var output: Option<seq<byte>> := None;
      if Possible(schedule[i], ss) {
        more, ss, piece, output := Perform(schedule[i], w, ss, c, base);
        RunConcat(start, run, more);
        run := run + more;
      } else {
        NothingHanded(w, w);
      }
      HandedAsThen(w, After(start, run), pieces, piece);
      pieces, outputs := pieces + [piece], outputs + [output];
    }
    ghost var w := After(start, run);
    assert c.Link().sent[|base.sent|..] == Frames(w.log);
    RunMeets(start, run);
  }

  /** What the theorems about runs say of one of them. */
  lemma RunMeets(start: World, run: seq<Step>)
    requires start == Start(start.first, start.alive) && IsRun(start, run)
    ensures var w := After(start, run);
            && Inv(w) && (w.streams <= WORD ==> forall id: u32 :: ClosesOf(Frames(w.log), id) <= 1)
            && (TidyRun(start, run) ==> forall k :: InOrder(w, k))
  {
    var w := After(start, run);
    ReachableInv(start.first, start.alive, run);
    forall id: u32 | w.streams <= WORD ensures ClosesOf(Frames(w.log), id) <= 1 {
      OneCloseOnTheWire(start.first, start.alive, run, id);
    }
    forall k | TidyRun(start, run) ensures InOrder(w, k) {
      BytesInOrder(start.first, start.alive, run, k);
    }
  }
}
