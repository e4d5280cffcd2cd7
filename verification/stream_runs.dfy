/**
 Streams over whole runs: any interleaving of opens, reads, writes, moves and destructions of the streams of one
 connection. Each OPEN starts a new stream; moves pass it from handle to handle. Every frame the session hands up is a
 step of the run, and what it causes follows from the frame and the handle that reads it. `StreamObjects.Drive` shows
 that every schedule of operations on `Stream` objects is such a run, with the frames received and sent as listed.
 */
module StreamRuns {
  import opened Bytes
  import opened Wire
  import opened Connections
  import opened Delivery
  import opened Streams

  /** A `Stream` object: the stream it refers to, the ids of that stream, the closed flag, and what it has buffered. */
  datatype Handle = Handle(stream: nat, local: u32, remote: u32, closed: bool, buffer: seq<byte>)

  /** Bytes that a reading call took out of the buffer of a stream's handle. */
  datatype Piece = Piece(stream: nat, bytes: seq<byte>)

  /** Who sends or gets a frame: a stream, a stream that waits for its OPEN to be answered, or a handle that reads. */
  datatype Role = Sender | Waiter | Reader(local: u32, remote: u32)

  /** A frame handed to the session or handed up by it on behalf of a stream. */
  datatype Entry = Entry(stream: nat, frame: Frame, role: Role := Sender)

  function Awaited(stream: nat, frame: Frame): Entry { Entry(stream, frame, Waiter) }

  function Taken(stream: nat, local: u32, remote: u32, frame: Frame): Entry
  {
    Entry(stream, frame, Reader(local, remote))
  }

  /** A connection whose first stream has the local id `first`; `alive` while its session is open. */
  datatype World = World(first: u32, alive: bool, handles: seq<Handle>, log: seq<Entry>, received: seq<Entry>,
                         handed: seq<Piece>, streams: nat)

  /** The session dies in a `Die` step, or while an OPEN waits for its answer. */
  datatype Step =
    | Open(opening: Frame, waited: seq<Frame>, remote: u32)
    | Refuse(announced: seq<Frame>, waited: seq<Frame>, dies: bool)
    | Take(h: nat, frame: Frame)
    | HandOut(h: nat, n: nat)
    | Die
    | Write(h: nat, frame: Frame)
    | MoveConstruct(h: nat)
    | MoveAssign(to: nat, from: nat)
    | Destroy(h: nat)

  /** The local id of the next stream. */
  function NextLocal(w: World): u32 { IdAfter(w.first, w.streams) }

  predicate Enabled(w: World, s: Step)
  {
    match s
    case Open(opening, waited, remote) =>
      w.alive && opening.header.command == OPEN && AnsweredBy(NextLocal(w), waited, remote)
    case Refuse(announced, waited, _) =>
      && |announced| <= 1 && (forall f <- announced :: f.header.command == OPEN)
      && Unanswered(NextLocal(w), waited) && (w.alive || (announced == [] && waited == []))
    case Take(h, frame) =>
      && h < |w.handles| && w.alive
      && (IsData(w.handles[h].local, frame.header) ==> w.handles[h].buffer == [])
    case HandOut(h, n) => h < |w.handles| && n <= |w.handles[h].buffer|
    case Die => true
    case Write(h, frame) => h < |w.handles| && w.alive && frame.header.command == WRTE
    case MoveConstruct(h) => h < |w.handles|
    case MoveAssign(to, from) => to < |w.handles| && from < |w.handles|
    case Destroy(h) => h < |w.handles|
  }

  function Tag(stream: nat, fs: seq<Frame>): (r: seq<Entry>)
    ensures |r| == |fs|
  {
    seq(|fs|, i requires 0 <= i < |fs| => Entry(stream, fs[i]))
  }

  function Waiting(stream: nat, fs: seq<Frame>): (r: seq<Entry>)
    ensures |r| == |fs|
  {
    seq(|fs|, i requires 0 <= i < |fs| => Awaited(stream, fs[i]))
  }

  /** `close_now` on a handle: the entry it adds to the log. */
  function Goodbye(h: Handle, alive: bool): seq<Entry>
  {
    if h.closed || !alive then [] else [Entry(h.stream, CloseFrame(h.local, h.remote))]
  }

  function Apply(w: World, s: Step): World
    requires Enabled(w, s)
  {
    match s
    case Open(opening, waited, remote) =>
      w.(handles := w.handles + [Handle(w.streams, NextLocal(w), remote, false, [])],
         log := w.log + [Entry(w.streams, opening)],
         received := w.received + Waiting(w.streams, waited), streams := w.streams + 1)
    case Refuse(announced, waited, dies) =>
      var alive := w.alive && !dies;
      w.(log := w.log + Tag(w.streams, announced) + Goodbye(Handle(w.streams, NextLocal(w), 0, false, []), alive),
         received := w.received + Waiting(w.streams, waited), streams := w.streams + 1, alive := alive)
    case Take(h, frame) => TakeFrame(w, h, frame)
    case HandOut(h, n) =>
      var x := w.handles[h];
      w.(handles := w.handles[h := x.(buffer := x.buffer[n..])], handed := w.handed + [Piece(x.stream, x.buffer[..n])])
    case Die => w.(alive := false)
    case Write(h, frame) => w.(log := w.log + [Entry(w.handles[h].stream, frame)])
    case MoveConstruct(h) => w.(handles := w.handles[h := MovedFrom(w.handles[h])] + [w.handles[h]])
    case MoveAssign(to, from) =>
      if to == from then w
      else w.(handles := w.handles[to := w.handles[from]][from := MovedFrom(w.handles[from])],
              log := w.log + Goodbye(w.handles[to], w.alive))
    case Destroy(h) =>
      w.(handles := w.handles[h := w.handles[h].(closed := true)], log := w.log + Goodbye(w.handles[h], w.alive))
  }

  /** The source of a move: its buffer is gone, and it will not send a CLSE. */
  function MovedFrom(h: Handle): Handle { h.(closed := true, buffer := []) }

  /**
   A handle reads a frame: its own WRTE is buffered and acknowledged, its own CLSE closes it, anything else changes
   nothing.
   */
  function TakeFrame(w: World, h: nat, frame: Frame): World
    requires h < |w.handles|
  {
    var x := w.handles[h];
    var heard := w.(received := w.received + [Taken(x.stream, x.local, x.remote, frame)]);
    match React(x.local, frame.header)
    case Accept =>
      heard.(log := w.log + [Entry(x.stream, OkayFrame(x.local, x.remote))],
             handles := w.handles[h := x.(buffer := frame.payload)])
    case HangUp => heard.(handles := w.handles[h := x.(closed := true)])
    case Skip => heard
    case Reject => heard
  }

  predicate IsRun(w: World, run: seq<Step>)
    decreases |run|
  {
    run == [] || (Enabled(w, run[0]) && IsRun(Apply(w, run[0]), run[1..]))
  }

  function After(w: World, run: seq<Step>): World
    requires IsRun(w, run)
    decreases |run|
  {
    if run == [] then w else After(Apply(w, run[0]), run[1..])
  }

  function Start(first: u32, alive: bool): World { World(first, alive, [], [], [], [], 0) }

  /** How many handles still own stream `k`, and so would send its CLSE. */
  function Owners(hs: seq<Handle>, k: nat): nat
  {
    if hs == [] then 0 else Owners(hs[..|hs| - 1], k) + One(Owns(hs[|hs| - 1], k))
  }

  predicate Owns(h: Handle, k: nat) { h.stream == k && !h.closed }

  /** How many CLSE frames the log holds for stream `k`. */
  function Closes(log: seq<Entry>, k: nat): nat
  {
    if log == [] then 0 else Closes(log[..|log| - 1], k) + One(IsClose(log[|log| - 1], k))
  }

  predicate IsClose(e: Entry, k: nat) { e.stream == k && e.frame.header.command == CLSE }

  function AckOf(e: Entry): seq<Entry> { if e.frame.header.command == OKAY then [e] else [] }

  /** The acknowledgements in the log, in order. */
  function Acks(log: seq<Entry>): seq<Entry>
  {
    if log == [] then [] else Acks(log[..|log| - 1]) + AckOf(log[|log| - 1])
  }

  function DueFor(r: Entry): seq<Entry>
  {
    if r.role.Reader? && IsData(r.role.local, r.frame.header)
    then [Entry(r.stream, OkayFrame(r.role.local, r.role.remote))]
    else []
  }

  /** The acknowledgements due for the frames received: one for each WRTE a handle read for its own stream, in order. */
  function Due(received: seq<Entry>): seq<Entry>
  {
    if received == [] then [] else Due(received[..|received| - 1]) + DueFor(received[|received| - 1])
  }

  lemma {:induction false} OwnersUpdate(hs: seq<Handle>, i: nat, h: Handle, k: nat)
    requires i < |hs|
    ensures Owners(hs[i := h], k) == Owners(hs, k) - One(Owns(hs[i], k)) + One(Owns(h, k))
  {
    var n := |hs| - 1;
    if i == n {
      assert hs[i := h][..n] == hs[..n];
    } else {
      assert hs[i := h][..n] == hs[..n][i := h];
      OwnersUpdate(hs[..n], i, h, k);
    }
  }

  lemma OwnersAppend(hs: seq<Handle>, h: Handle, k: nat)
    ensures Owners(hs + [h], k) == Owners(hs, k) + One(Owns(h, k))
  {
    assert (hs + [h])[..|hs|] == hs;
  }

  lemma LogAppend(log: seq<Entry>, e: Entry, k: nat)
    ensures Closes(log + [e], k) == Closes(log, k) + One(IsClose(e, k))
    ensures Acks(log + [e]) == Acks(log) + AckOf(e)
  {
    assert (log + [e])[..|log|] == log;
  }

  lemma DueAppend(received: seq<Entry>, r: Entry)
    ensures Due(received + [r]) == Due(received) + DueFor(r)
  {
    assert (received + [r])[..|received|] == received;
  }

  /** Nothing is due for the frames received while an OPEN waits. */
  lemma {:induction false} DueWaiting(received: seq<Entry>, stream: nat, fs: seq<Frame>)
    ensures Due(received + Waiting(stream, fs)) == Due(received)
  {
    if fs == [] {
      assert received + Waiting(stream, fs) == received;
    } else {
      var init, last := Waiting(stream, fs[..|fs| - 1]), Awaited(stream, fs[|fs| - 1]);
      DueWaiting(received, stream, fs[..|fs| - 1]);
      assert Waiting(stream, fs) == init + [last];
      Regroup(received, init, [last]);
      DueAppend(received + init, last);
    }
  }

  lemma {:induction false} FreshStream(w: World, k: nat)
    requires WellNumbered(w) && k >= w.streams
    ensures Owners(w.handles, k) == 0 && Closes(w.log, k) == 0
  {
    NoOwner(w.handles, k);
    NoEntry(w.log, k);
  }

  lemma {:induction false} NoOwner(hs: seq<Handle>, k: nat)
    requires forall h <- hs :: h.stream < k
    ensures Owners(hs, k) == 0
  {
    if hs != [] {
      NoOwner(hs[..|hs| - 1], k);
    }
  }

  lemma {:induction false} NoEntry(log: seq<Entry>, k: nat)
    requires forall e <- log :: e.stream < k
    ensures Closes(log, k) == 0
  {
    if log != [] {
      NoEntry(log[..|log| - 1], k);
    }
  }

  /** Streams are numbered in the order of their OPENs, and a stream's handles and CLSEs carry its local id. */
  predicate WellNumbered(w: World)
  {
    && (forall h <- w.handles :: h.stream < w.streams && h.local == IdAfter(w.first, h.stream))
    && (forall e <- w.log :: e.stream < w.streams && Labelled(w.first, e))
  }

  predicate Labelled(first: u32, e: Entry)
  {
    e.frame.header.command == CLSE ==> e.frame.header.arg0 == IdAfter(first, e.stream)
  }

  /** The effect of a step on one stream: ownership is only spent, and a CLSE costs it. */
  lemma StepOnStream(w: World, s: Step, k: nat)
    requires WellNumbered(w) && Enabled(w, s) && k < w.streams
    ensures var w' := Apply(w, s);
            && Owners(w'.handles, k) + Closes(w'.log, k) <= Owners(w.handles, k) + Closes(w.log, k)
            && Owners(w'.handles, k) <= Owners(w.handles, k)
            && Closes(w'.log, k) >= Closes(w.log, k)
            && (Owners(w.handles, k) == 0 ==> Closes(w'.log, k) == Closes(w.log, k))
  {
    match s
    case Open(opening, _, remote) =>
      OwnersAppend(w.handles, Handle(w.streams, NextLocal(w), remote, false, []), k);
      LogAppend(w.log, Entry(w.streams, opening), k);
    case Refuse(announced, waited, dies) =>
      RefuseOnStream(w, announced, waited, dies, k);
    case Take(h, frame) =>
      OwnersUpdate(w.handles, h, TakeFrame(w, h, frame).handles[h], k);
      LogAppend(w.log, Entry(w.handles[h].stream, OkayFrame(w.handles[h].local, w.handles[h].remote)), k);
    case HandOut(h, n) =>
      OwnersUpdate(w.handles, h, w.handles[h].(buffer := w.handles[h].buffer[n..]), k);
    case Die =>
    case Write(h, frame) =>
      LogAppend(w.log, Entry(w.handles[h].stream, frame), k);
    case MoveConstruct(h) =>
      OwnersUpdate(w.handles, h, MovedFrom(w.handles[h]), k);
      OwnersAppend(w.handles[h := MovedFrom(w.handles[h])], w.handles[h], k);
    case MoveAssign(to, from) =>
      if to != from {
        OwnersUpdate(w.handles, to, w.handles[from], k);
        OwnersUpdate(w.handles[to := w.handles[from]], from, MovedFrom(w.handles[from]), k);
        GoodbyeOnStream(w.log, w.handles[to], w.alive, k);
      }
    case Destroy(h) =>
      OwnersUpdate(w.handles, h, w.handles[h].(closed := true), k);
      GoodbyeOnStream(w.log, w.handles[h], w.alive, k);
  }

  lemma GoodbyeOnStream(log: seq<Entry>, h: Handle, alive: bool, k: nat)
    ensures Closes(log + Goodbye(h, alive), k) == Closes(log, k) + One(alive && Owns(h, k))
    ensures Acks(log + Goodbye(h, alive)) == Acks(log)
  {
    if h.closed || !alive {
      assert log + Goodbye(h, alive) == log;
    } else {
      LogAppend(log, Entry(h.stream, CloseFrame(h.local, h.remote)), k);
    }
  }

  lemma RefuseOnStream(w: World, announced: seq<Frame>, waited: seq<Frame>, dies: bool, k: nat)
    requires Enabled(w, Refuse(announced, waited, dies))
    ensures var log := Apply(w, Refuse(announced, waited, dies)).log;
            && Closes(log, k) == Closes(w.log, k) + One(w.alive && !dies && k == w.streams)
            && Acks(log) == Acks(w.log)
  {
    var logged := w.log + Tag(w.streams, announced);
    if announced == [] {
      assert logged == w.log;
    } else {
      assert logged == w.log + [Entry(w.streams, announced[0])];
      LogAppend(w.log, Entry(w.streams, announced[0]), k);
    }
    GoodbyeOnStream(logged, Handle(w.streams, NextLocal(w), 0, false, []), w.alive && !dies, k);
  }

  /**
   Each stream is owned by one handle, or its CLSE has been sent once, or neither; and the acknowledgements sent are
   those due for the frames received.
   */
  ghost predicate Inv(w: World)
  {
    && WellNumbered(w)
    && (forall k: nat :: Owners(w.handles, k) + Closes(w.log, k) <= 1)
    && Acks(w.log) == Due(w.received)
  }

  lemma StepKeepsNumbering(w: World, s: Step)
    requires WellNumbered(w) && Enabled(w, s)
    ensures WellNumbered(Apply(w, s))
  {
  }

  lemma StepKeepsInv(w: World, s: Step)
    requires Inv(w) && Enabled(w, s)
    ensures Inv(Apply(w, s))
  {
    var w' := Apply(w, s);
    StepKeepsNumbering(w, s);
    forall k: nat ensures Owners(w'.handles, k) + Closes(w'.log, k) <= 1 {
      if k < w.streams {
        StepOnStream(w, s, k);
      } else if k < w'.streams {
        FreshStream(w, k);
        if s.Open? {
          OwnersAppend(w.handles, Handle(w.streams, NextLocal(w), s.remote, false, []), k);
          LogAppend(w.log, Entry(w.streams, s.opening), k);
        } else {
          RefuseOnStream(w, s.announced, s.waited, s.dies, k);
        }
      } else {
        FreshStream(w', k);
      }
    }
    StepKeepsAcks(w, s);
  }

  /** What a frame read by a handle adds to the records: an acknowledgement exactly for its own data. */
  lemma TakenIsLogged(w: World, h: nat, frame: Frame)
    requires h < |w.handles|
    ensures var x, w' := w.handles[h], TakeFrame(w, h, frame);
            && w'.received == w.received + [Taken(x.stream, x.local, x.remote, frame)]
            && w'.log == w.log + DueFor(Taken(x.stream, x.local, x.remote, frame))
  {
    var x := w.handles[h];
    if !IsData(x.local, frame.header) {
      assert w.log + [] == w.log;
    }
  }

  lemma TakeKeepsAcks(w: World, h: nat, frame: Frame)
    requires h < |w.handles| && Acks(w.log) == Due(w.received)
    ensures Acks(TakeFrame(w, h, frame).log) == Due(TakeFrame(w, h, frame).received)
  {
    var x := w.handles[h];
    var r := Taken(x.stream, x.local, x.remote, frame);
    TakenIsLogged(w, h, frame);
    DueAppend(w.received, r);
    AcksAppendDue(w.log, r);
  }

  lemma AcksAppendDue(log: seq<Entry>, r: Entry)
    ensures Acks(log + DueFor(r)) == Acks(log) + DueFor(r)
  {
    if DueFor(r) == [] {
      assert log + [] == log;
    } else {
      LogAppend(log, DueFor(r)[0], 0);
    }
  }

  lemma StepKeepsAcks(w: World, s: Step)
    requires Enabled(w, s) && Acks(w.log) == Due(w.received)
    ensures Acks(Apply(w, s).log) == Due(Apply(w, s).received)
  {
    match s
    case Open(opening, waited, _) =>
      LogAppend(w.log, Entry(w.streams, opening), 0);
      DueWaiting(w.received, w.streams, waited);
    case Refuse(announced, waited, dies) =>
      RefuseOnStream(w, announced, waited, dies, 0);
      DueWaiting(w.received, w.streams, waited);
    case Take(h, frame) => TakeKeepsAcks(w, h, frame);
    case HandOut(_, _) =>
    case Die =>
    case Write(h, frame) => LogAppend(w.log, Entry(w.handles[h].stream, frame), 0);
    case MoveConstruct(_) =>
    case MoveAssign(to, _) => GoodbyeOnStream(w.log, w.handles[to], w.alive, 0);
    case Destroy(h) => GoodbyeOnStream(w.log, w.handles[h], w.alive, 0);
  }

  lemma {:induction false} RunKeepsInv(w: World, run: seq<Step>)
    requires Inv(w) && IsRun(w, run)
    ensures Inv(After(w, run)) && After(w, run).first == w.first
    decreases |run|
  {
    if run != [] {
      StepKeepsInv(w, run[0]);
      RunKeepsInv(Apply(w, run[0]), run[1..]);
    }
  }

  lemma ReachableInv(first: u32, alive: bool, run: seq<Step>)
    requires IsRun(Start(first, alive), run)
    ensures Inv(After(Start(first, alive), run)) && After(Start(first, alive), run).first == first
  {
    RunKeepsInv(Start(first, alive), run);
  }

  /**
   Over every run: at most one CLSE is ever sent for a stream, however it is moved, and the acknowledgements sent
   are those of the WRTE frames that handles received for their streams, one for one and in order.
   */
  lemma AtMostOneClose(first: u32, alive: bool, run: seq<Step>, k: nat)
    requires IsRun(Start(first, alive), run)
    ensures var w := After(Start(first, alive), run);
            Closes(w.log, k) <= 1 && Acks(w.log) == Due(w.received)
  {
    ReachableInv(first, alive, run);
  }

  /** Frames that are not for the handle that reads them cause nothing: no send, and no change of any handle. */
  lemma ForeignFrameIsDropped(w: World, h: nat, frame: Frame)
    requires Enabled(w, Take(h, frame)) && frame.header.arg1 != w.handles[h].local
    ensures var w' := Apply(w, Take(h, frame));
            w' == w.(received := w'.received) && Due(w'.received) == Due(w.received)
  {
    var x := w.handles[h];
    DueAppend(w.received, Taken(x.stream, x.local, x.remote, frame));
  }

  // ----- CLSE frames on the wire

  function Frames(entries: seq<Entry>): (r: seq<Frame>)
    ensures |r| == |entries|
  {
    seq(|entries|, i requires 0 <= i < |entries| => entries[i].frame)
  }

  /** How many CLSE frames carry the local id `id`. */
  function ClosesOf(fs: seq<Frame>, id: u32): nat
  {
    if fs == [] then 0 else ClosesOf(fs[..|fs| - 1], id) + One(IsCloseOf(fs[|fs| - 1].header, id))
  }

  predicate IsCloseOf(m: Message, id: u32) { m.command == CLSE && m.arg0 == id }

  /** The number of the stream with a local id, among the first 2^32. */
  function StreamWith(first: u32, id: u32): nat { if first <= id then id - first else id + WORD - first }

  lemma {:induction false} ClosesOfIsCloses(first: u32, log: seq<Entry>, id: u32)
    requires forall e <- log :: e.stream < WORD && Labelled(first, e)
    ensures ClosesOf(Frames(log), id) == Closes(log, StreamWith(first, id))
  {
    if log != [] {
      var n := |log| - 1;
      ClosesOfIsCloses(first, log[..n], id);
      assert Frames(log)[..n] == Frames(log[..n]);
      IdAfterIs(first, log[n].stream);
      assert log[n] in log;
    }
  }

  /** Until the local ids repeat, the frames sent hold at most one CLSE for each of them. */
  lemma OneCloseOnTheWire(first: u32, alive: bool, run: seq<Step>, id: u32)
    requires IsRun(Start(first, alive), run) && After(Start(first, alive), run).streams <= WORD
    ensures ClosesOf(Frames(After(Start(first, alive), run).log), id) <= 1
  {
    var w := After(Start(first, alive), run);
    ReachableInv(first, alive, run);
    ClosesOfIsCloses(first, w.log, id);
    assert Owners(w.handles, StreamWith(first, id)) + Closes(w.log, StreamWith(first, id)) <= 1;
  }

  // ----- the device's CLSE

  /** Once no handle owns a stream, no CLSE is sent for it any more. */
  lemma {:induction false} NoOwnerNoClose(w: World, run: seq<Step>, k: nat)
    requires WellNumbered(w) && IsRun(w, run) && k < w.streams && Owners(w.handles, k) == 0
    ensures Closes(After(w, run).log, k) == Closes(w.log, k)
    decreases |run|
  {
    if run != [] {
      StepOnStream(w, run[0], k);
      StepKeepsNumbering(w, run[0]);
      NoOwnerNoClose(Apply(w, run[0]), run[1..], k);
    }
  }

  lemma {:induction false} SomeOwner(hs: seq<Handle>, k: nat) returns (i: nat)
    requires Owners(hs, k) > 0
    ensures i < |hs| && Owns(hs[i], k)
  {
    i := |hs| - 1;
    if !Owns(hs[i], k) {
      i := SomeOwner(hs[..i], k);
    }
  }

  /** No further CLSE will be sent for stream `k`, whatever happens. */
  ghost predicate NotAnswered(w: World, k: nat)
  {
    forall later | IsRun(w, later) :: Closes(After(w, later).log, k) == Closes(w.log, k)
  }

  /** On a live session, no further CLSE is sent for a stream if and only if nobody owns it. */
  lemma NotAnsweredIffNotOwned(w: World, k: nat)
    requires WellNumbered(w) && w.alive && k < w.streams
    ensures NotAnswered(w, k) <==> Owners(w.handles, k) == 0
  {
    if Owners(w.handles, k) == 0 {
      forall later | IsRun(w, later) ensures Closes(After(w, later).log, k) == Closes(w.log, k) {
        NoOwnerNoClose(w, later, k);
      }
    } else {
      var i := SomeOwner(w.handles, k);
      var run := [Destroy(i)];
      assert run[1..] == [] && IsRun(Apply(w, Destroy(i)), []);
      assert IsRun(w, run) && After(w, run) == Apply(w, Destroy(i));
      GoodbyeOnStream(w.log, w.handles[i], true, k);
    }
  }

  /**
   The device's CLSE must not be answered with a CLSE. Whoever reads it, it is never answered if and only if the handle
   that reads it owns the stream, or nobody does: a handle that was moved from swallows the CLSE, and the owner will
   send one of its own.
   */
  lemma CloseUnansweredIffOwnerReads(first: u32, alive: bool, before: seq<Step>, h: nat, frame: Frame)
    requires IsRun(Start(first, alive), before)
    requires Enabled(After(Start(first, alive), before), Take(h, frame))
    requires IsEnd(After(Start(first, alive), before).handles[h].local, frame.header)
    ensures var w := After(Start(first, alive), before);
            var x := w.handles[h];
            NotAnswered(Apply(w, Take(h, frame)), x.stream) <==> !x.closed || Owners(w.handles, x.stream) == 0
  {
    var w := After(Start(first, alive), before);
    var x, k := w.handles[h], w.handles[h].stream;
    ReachableInv(first, alive, before);
    StepKeepsNumbering(w, Take(h, frame));
    assert w.handles[h] in w.handles && Owners(w.handles, k) + Closes(w.log, k) <= 1;
    OwnersUpdate(w.handles, h, x.(closed := true), k);
    NotAnsweredIffNotOwned(Apply(w, Take(h, frame)), k);
  }

  /** A device's CLSE received by the handle that owns the stream is never answered with a CLSE, then or later. */
  lemma SeenCloseIsNotAnswered(first: u32, alive: bool, before: seq<Step>, h: nat, frame: Frame, later: seq<Step>)
    requires IsRun(Start(first, alive), before)
    requires Enabled(After(Start(first, alive), before), Take(h, frame))
    requires var x := After(Start(first, alive), before).handles[h];
             !x.closed && IsEnd(x.local, frame.header)
    requires IsRun(Apply(After(Start(first, alive), before), Take(h, frame)), later)
    ensures var w := After(Start(first, alive), before);
            Closes(After(Apply(w, Take(h, frame)), later).log, w.handles[h].stream) == 0
  {
    var w := After(Start(first, alive), before);
    ReachableInv(first, alive, before);
    OwnersUpdate(w.handles, h, w.handles[h].(closed := true), w.handles[h].stream);
    assert Owners(w.handles, w.handles[h].stream) + Closes(w.log, w.handles[h].stream) <= 1;
    CloseUnansweredIffOwnerReads(first, alive, before, h, frame);
  }

  /** The smallest case of a CLSE that is answered: a stream is opened and moved, and the old handle reads the CLSE. */
  lemma StaleHandleMissesClose(first: u32, opening: Frame, waited: seq<Frame>, remote: u32, frame: Frame)
    requires Enabled(Start(first, true), Open(opening, waited, remote)) && IsEnd(first, frame.header)
    ensures var moved := Apply(Apply(Start(first, true), Open(opening, waited, remote)), MoveConstruct(0));
            Closes(Apply(Apply(moved, Take(0, frame)), Destroy(1)).log, 0) == 1
  {
    var moved := Apply(Apply(Start(first, true), Open(opening, waited, remote)), MoveConstruct(0));
    var seen := Apply(moved, Take(0, frame));
    TakenIsLogged(moved, 0, frame);
    assert seen.log == [Entry(0, opening)] == [] + [Entry(0, opening)];
    assert seen.handles[1] == Handle(0, first, remote, false, []);
    LogAppend([], Entry(0, opening), 0);
    GoodbyeOnStream(seen.log, seen.handles[1], true, 0);
  }

  /** A failed open is answered with one CLSE if and only if the session is still open, even one refused with CLSE. */
  lemma RefusalIsAnswered(w: World, announced: seq<Frame>, waited: seq<Frame>, dies: bool)
    requires Inv(w) && Enabled(w, Refuse(announced, waited, dies))
    ensures var w' := Apply(w, Refuse(announced, waited, dies));
            Closes(w'.log, w.streams) == One(w'.alive)
  {
    FreshStream(w, w.streams);
    RefuseOnStream(w, announced, waited, dies, w.streams);
  }
}
