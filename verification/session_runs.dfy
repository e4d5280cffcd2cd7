/**
 Sessions over whole runs: any interleaving of sends, receives, closes and moves of session handles. A run is a list
 of calls; a call carries what the environment decided (how often the transport was used, whether the link failed).
 What a receive does follows from the bytes the device has to deliver. `Drive` shows that every schedule of operations
 on `Session` objects is such a run.
 */
module SessionRuns {
  import opened Bytes
  import opened Results
  import opened Wire
  import opened Framing
  import opened Sessions

  /** A session handle: which transport it borrows, and its closed flag. */
  datatype Handle = Handle(link: nat, closed: bool)

  /**
   One transport: the bytes its device had at first and has left, the frames handed up from it, whether a receive
   lost bytes to a failing link, the operations asked of it, and the closes among them.
   */
  datatype Link = Link(origin: seq<byte>, tape: seq<byte>, received: seq<Frame>, lost: bool, touches: nat, closes: nat)

  datatype World = World(handles: seq<Handle>, links: seq<Link>)

  /** A receive during which the link fails carries what the failure left of the device's bytes. */
  datatype Call =
    | Create(tape: seq<byte>)
    | Send(h: nat, uses: nat)
    | Receive(h: nat, uses: nat, fault: Option<seq<byte>>)
    | Close(h: nat)
    | MoveConstruct(h: nat)
    | MoveAssign(to: nat, from: nat)

  predicate Enabled(w: World, c: Call)
  {
    match c
    case Create(_) => true
    case Send(h, _) => h < |w.handles|
    case Receive(h, _, _) => h < |w.handles|
    case Close(h) => h < |w.handles|
    case MoveConstruct(h) => h < |w.handles|
    case MoveAssign(to, from) => to < |w.handles| && from < |w.handles|
  }

  predicate WellLinked(w: World)
  {
    forall i :: 0 <= i < |w.handles| ==> w.handles[i].link < |w.links|
  }

  /** Operations asked of a handle's transport, which leave it as `l` but for their number. */
  function Use(w: World, h: nat, uses: nat, l: Link): World
    requires WellLinked(w) && h < |w.handles|
  {
    w.(links := w.links[w.handles[h].link := l.(touches := l.touches + uses)])
  }

  function LinkOf(w: World, h: nat): Link
    requires WellLinked(w) && h < |w.handles|
  {
    w.links[w.handles[h].link]
  }

  /** `Session::close`. */
  function Shut(w: World, h: nat): World
    requires WellLinked(w) && h < |w.handles|
  {
    var k := w.handles[h].link;
    if w.handles[h].closed then w
    else World(w.handles[h := Handle(k, true)],
               w.links[k := w.links[k].(touches := w.links[k].touches + 1, closes := w.links[k].closes + 1)])
  }

  function Fresh(tape: seq<byte>): Link { Link(tape, tape, [], false, 0, 0) }

  /** A transport after a receive during which the link holds. */
  function Drawn(l: Link): Link
  {
    var Received(result, after) := ReceiveFrame(Channel(true, l.tape));
    l.(tape := after.tape, received := if result.Ok? then l.received + [result.value] else l.received)
  }

  function Apply(w: World, c: Call): (w': World)
    requires WellLinked(w) && Enabled(w, c)
    ensures WellLinked(w') && |w'.links| >= |w.links|
  {
    match c
    case Create(tape) => World(w.handles + [Handle(|w.links|, false)], w.links + [Fresh(tape)])
    case Send(h, uses) => if w.handles[h].closed then w else Use(w, h, uses, LinkOf(w, h))
    case Receive(h, uses, fault) =>
      if w.handles[h].closed then w
      else if fault.Some? then Use(w, h, uses, LinkOf(w, h).(tape := fault.value, lost := true))
      else
        var used := Use(w, h, uses, Drawn(LinkOf(w, h)));
        if Violation(LinkOf(w, h).tape) then Shut(used, h) else used
    case Close(h) => Shut(w, h)
    case MoveConstruct(h) =>
      w.(handles := w.handles[h := w.handles[h].(closed := true)] + [w.handles[h]])
    case MoveAssign(to, from) =>
      if to == from then w
      else w.(handles := w.handles[to := w.handles[from]][from := w.handles[from].(closed := true)])
  }

  /** A run: every call is made on a handle that exists at that point. */
  predicate IsRun(w: World, run: seq<Call>)
    requires WellLinked(w)
    decreases |run|
  {
    run == [] || (Enabled(w, run[0]) && IsRun(Apply(w, run[0]), run[1..]))
  }

  function After(w: World, run: seq<Call>): (w': World)
    requires WellLinked(w) && IsRun(w, run)
    ensures WellLinked(w') && |w'.links| >= |w.links|
    decreases |run|
  {
    if run == [] then w else After(Apply(w, run[0]), run[1..])
  }

  const START := World([], [])

  /** How many handles can still use transport `k`. */
  function OpenOn(hs: seq<Handle>, k: nat): nat
  {
    if hs == [] then 0 else OpenOn(hs[..|hs| - 1], k) + One(hs[|hs| - 1] == Handle(k, false))
  }

  lemma {:induction false} OpenOnUpdate(hs: seq<Handle>, i: nat, h: Handle, k: nat)
    requires i < |hs|
    ensures OpenOn(hs[i := h], k) == OpenOn(hs, k) - One(hs[i] == Handle(k, false)) + One(h == Handle(k, false))
  {
    var n := |hs| - 1;
    if i == n {
      assert hs[i := h][..n] == hs[..n];
    } else {
      assert hs[i := h][..n] == hs[..n][i := h];
      OpenOnUpdate(hs[..n], i, h, k);
    }
  }

  lemma OpenOnAppend(hs: seq<Handle>, h: Handle, k: nat)
    ensures OpenOn(hs + [h], k) == OpenOn(hs, k) + One(h == Handle(k, false))
  {
    assert (hs + [h])[..|hs|] == hs;
  }

  lemma {:induction false} OpenOnFresh(hs: seq<Handle>, k: nat)
    requires forall i :: 0 <= i < |hs| ==> hs[i].link < k
    ensures OpenOn(hs, k) == 0
  {
    if hs != [] {
      OpenOnFresh(hs[..|hs| - 1], k);
    }
  }

  lemma {:induction false} OpenOnHas(hs: seq<Handle>, i: nat)
    requires i < |hs| && !hs[i].closed
    ensures OpenOn(hs, hs[i].link) >= 1
  {
    if i < |hs| - 1 {
      OpenOnHas(hs[..|hs| - 1], i);
    }
  }

  /** Each transport has one open handle, or has been closed once, or neither; never more. */
  ghost predicate Owned(w: World)
  {
    && WellLinked(w)
    && forall k: nat :: k < |w.links| ==> OpenOn(w.handles, k) + w.links[k].closes <= 1
  }

  /** The exact effect of a call on one transport's open handles, closes and touches. */
  lemma ApplyOnLink(w: World, c: Call, k: nat)
    requires WellLinked(w) && Enabled(w, c) && k < |w.links|
    ensures var w' := Apply(w, c);
            && OpenOn(w'.handles, k) + w'.links[k].closes <= OpenOn(w.handles, k) + w.links[k].closes
            && OpenOn(w'.handles, k) <= OpenOn(w.handles, k)
            && (OpenOn(w.handles, k) == 0 ==> w'.links[k] == w.links[k])
  {
    match c
    case Create(_) =>
      OpenOnAppend(w.handles, Handle(|w.links|, false), k);
    case Send(h, uses) =>
      if !w.handles[h].closed {
        OpenOnHas(w.handles, h);
      }
    case Receive(h, uses, fault) =>
      if !w.handles[h].closed {
        OpenOnHas(w.handles, h);
        OpenOnUpdate(w.handles, h, Handle(w.handles[h].link, true), k);
      }
    case Close(h) =>
      if !w.handles[h].closed {
        OpenOnHas(w.handles, h);
        OpenOnUpdate(w.handles, h, Handle(w.handles[h].link, true), k);
      }
    case MoveConstruct(h) =>
      var hs := w.handles[h := w.handles[h].(closed := true)];
      OpenOnUpdate(w.handles, h, w.handles[h].(closed := true), k);
      OpenOnAppend(hs, w.handles[h], k);
    case MoveAssign(to, from) =>
      if to != from {
        OpenOnUpdate(w.handles, to, w.handles[from], k);
        OpenOnUpdate(w.handles[to := w.handles[from]], from, w.handles[from].(closed := true), k);
      }
  }

  lemma ApplyKeepsOwned(w: World, c: Call)
    requires Owned(w) && Enabled(w, c)
    ensures Owned(Apply(w, c))
  {
    var w' := Apply(w, c);
    forall k: nat | k < |w'.links|
      ensures OpenOn(w'.handles, k) + w'.links[k].closes <= 1
    {
      if k < |w.links| {
        ApplyOnLink(w, c, k);
      } else {
        OpenOnFresh(w.handles, k);
        OpenOnAppend(w.handles, Handle(k, false), k);
      }
    }
  }

  lemma {:induction false} RunKeepsOwned(w: World, run: seq<Call>)
    requires Owned(w) && IsRun(w, run)
    ensures Owned(After(w, run))
    decreases |run|
  {
    if run != [] {
      ApplyKeepsOwned(w, run[0]);
      RunKeepsOwned(Apply(w, run[0]), run[1..]);
    }
  }

  /** Over every run, a transport is closed at most once and at most one handle can use it, never both. */
  lemma ClosedAtMostOnce(run: seq<Call>)
    requires IsRun(START, run)
    ensures Owned(After(START, run))
  {
    RunKeepsOwned(START, run);
  }

  /** A transport no handle can use is never touched again, whatever is called afterwards. */
  lemma {:induction false} NoHandleNoTouch(w: World, run: seq<Call>, k: nat)
    requires WellLinked(w) && IsRun(w, run)
    requires k < |w.links| && OpenOn(w.handles, k) == 0
    ensures After(w, run).links[k] == w.links[k]
    ensures OpenOn(After(w, run).handles, k) == 0
    decreases |run|
  {
    if run != [] {
      ApplyOnLink(w, run[0], k);
      NoHandleNoTouch(Apply(w, run[0]), run[1..], k);
    }
  }

  /** A receive on an open handle closes the transport if and only if the link holds and the bytes break the rules. */
  lemma ReceiveClosesIffViolation(w: World, h: nat, uses: nat, fault: Option<seq<byte>>)
    requires WellLinked(w) && h < |w.handles| && !w.handles[h].closed
    ensures var k, w' := w.handles[h].link, Apply(w, Receive(h, uses, fault));
            && (w'.links[k].closes == w.links[k].closes + 1 <==> fault.None? && Violation(w.links[k].tape))
            && (w'.handles[h].closed <==> fault.None? && Violation(w.links[k].tape))
            && w'.links[k].closes <= w.links[k].closes + 1
  {
  }

  lemma ViolationCloses(w: World, h: nat, uses: nat)
    requires Owned(w) && h < |w.handles| && !w.handles[h].closed && Violation(LinkOf(w, h).tape)
    ensures var k, dead := w.handles[h].link, Apply(w, Receive(h, uses, None));
            dead.links[k].closes == 1 && OpenOn(dead.handles, k) == 0
  {
    var k, dead := w.handles[h].link, Apply(w, Receive(h, uses, None));
    ReceiveClosesIffViolation(w, h, uses, None);
    OpenOnHas(w.handles, h);
    ApplyKeepsOwned(w, Receive(h, uses, None));
    assert OpenOn(w.handles, k) + w.links[k].closes <= 1;
    assert OpenOn(dead.handles, k) + dead.links[k].closes <= 1;
  }

  /**
   Bytes that break the framing rules end the session for good: the receive that meets them closes the transport, and
   no later call of any kind on any handle touches that transport again.
   */
  lemma ViolationIsFinal(before: seq<Call>, h: nat, uses: nat, later: seq<Call>)
    requires IsRun(START, before)
    requires h < |After(START, before).handles| && !After(START, before).handles[h].closed
    requires Violation(LinkOf(After(START, before), h).tape)
    requires IsRun(Apply(After(START, before), Receive(h, uses, None)), later)
    ensures var w := After(START, before);
            var k := w.handles[h].link;
            var dead := Apply(w, Receive(h, uses, None));
            && dead.links[k].closes == 1
            && OpenOn(After(dead, later).handles, k) == 0
            && After(dead, later).links[k] == dead.links[k]
  {
    var w := After(START, before);
    ClosedAtMostOnce(before);
    ViolationCloses(w, h, uses);
    NoHandleNoTouch(Apply(w, Receive(h, uses, None)), later, w.handles[h].link);
  }

  /** Until its bytes run out or break the rules, a transport's bytes are the frames handed up and what is left. */
  ghost predicate Aligned(l: Link)
  {
    !l.lost ==>
      && TapeOf(l.received) <= l.origin && (forall f <- l.received :: Acceptable(f))
      && (l.closes == 0 && l.tape != [] ==> l.origin == TapeOf(l.received) + l.tape)
  }

  ghost predicate AllAligned(w: World) { forall k :: 0 <= k < |w.links| ==> Aligned(w.links[k]) }

  lemma DrawnIsAligned(l: Link)
    requires Aligned(l) && l.closes == 0
    ensures !l.lost ==> TapeOf(Drawn(l).received) <= l.origin && forall f <- Drawn(l).received :: Acceptable(f)
    ensures !Violation(l.tape) ==> Aligned(Drawn(l))
  {
    var Received(result, after) := ReceiveFrame(Channel(true, l.tape));
    ClosesIffViolation(l.tape);
    if result.Ok? && !l.lost {
      ReceivedWasSent(Channel(true, l.tape));
      TapeOfAppend(l.received, result.value);
      Regroup(TapeOf(l.received), FrameBytes(result.value), after.tape);
    }
  }

  lemma ReceiveKeepsAligned(w: World, h: nat, uses: nat, fault: Option<seq<byte>>)
    requires Owned(w) && AllAligned(w) && h < |w.handles|
    ensures AllAligned(Apply(w, Receive(h, uses, fault)))
  {
    if !w.handles[h].closed {
      var k, l, w' := w.handles[h].link, LinkOf(w, h), Apply(w, Receive(h, uses, fault));
      OpenOnHas(w.handles, h);
      assert OpenOn(w.handles, k) + l.closes <= 1;
      DrawnIsAligned(l);
      assert Aligned(w'.links[k]);
      assert forall i :: 0 <= i < |w.links| && i != k ==> w'.links[i] == w.links[i];
    }
  }

  lemma ApplyKeepsAligned(w: World, c: Call)
    requires Owned(w) && AllAligned(w) && Enabled(w, c)
    ensures AllAligned(Apply(w, c))
  {
    if c.Receive? {
      ReceiveKeepsAligned(w, c.h, c.uses, c.fault);
    } else if c.Create? {
      assert Aligned(Fresh(c.tape)) by { assert TapeOf([]) + c.tape == c.tape; }
    }
  }

  lemma {:induction false} RunKeepsAligned(w: World, run: seq<Call>)
    requires Owned(w) && AllAligned(w) && IsRun(w, run)
    ensures AllAligned(After(w, run))
    decreases |run|
  {
    if run != [] {
      ApplyKeepsOwned(w, run[0]);
      ApplyKeepsAligned(w, run[0]);
      RunKeepsAligned(Apply(w, run[0]), run[1..]);
    }
  }

  /**
   Over every run, however sessions are moved and calls interleaved: unless the link loses bytes, the frames handed
   up from a transport are acceptable, and their bytes are the first that its device sent, in order.
   */
  lemma ReceivedInOrder(run: seq<Call>, k: nat)
    requires IsRun(START, run) && k < |After(START, run).links| && !After(START, run).links[k].lost
    ensures var l := After(START, run).links[k];
            TapeOf(l.received) <= l.origin && forall f <- l.received :: Acceptable(f)
  {
    RunKeepsAligned(START, run);
  }

  // ----- the objects are instances of the machine

  ghost predicate Matches(w: World, hs: seq<Session>, ts: seq<Transport>)
    reads hs, ts
  {
    && |hs| == |w.handles| && |ts| == |w.links| && WellLinked(w)
    && (forall i, j :: 0 <= i < j < |hs| ==> hs[i] != hs[j])
    && (forall i, j :: 0 <= i < j < |ts| ==> ts[i] != ts[j])
    && (forall i :: 0 <= i < |hs| ==> hs[i].closed == w.handles[i].closed && hs[i].transport == ts[w.handles[i].link])
    && (forall k :: 0 <= k < |ts| ==> Portrays(w.links[k], ts[k]) && ts[k].Logged())
  }

  ghost predicate Portrays(l: Link, t: Transport)
    reads t
  {
    && l.tape == t.tape && l.received == t.received && l.touches == t.touches && l.closes == t.closes
    && (t.faults == 0 ==> !l.lost)
  }

  datatype Request =
    | NewSession(tape: seq<byte>)
    | DoSend(h: nat, header: Message, payload: seq<byte>)
    | DoReceive(h: nat)
    | DoClose(h: nat)
    | DoMoveConstruct(h: nat)
    | DoMoveAssign(to: nat, from: nat)

  predicate Possible(q: Request, handles: nat)
  {
    match q
    case NewSession(_) => true
    case DoSend(h, _, _) => h < handles
    case DoReceive(h) => h < handles
    case DoClose(h) => h < handles
    case DoMoveConstruct(h) => h < handles
    case DoMoveAssign(to, from) => to < handles && from < handles
  }

  // One operation on the objects is one call of the machine.

  method PerformSend(h: nat, header: Message, payload: seq<byte>, ghost w: World, hs: seq<Session>, ts: seq<Transport>)
    returns (ghost c: Call)
    requires Matches(w, hs, ts) && h < |hs|
    modifies ts
    ensures Enabled(w, c) && Matches(Apply(w, c), hs, ts)
  {
    var t := hs[h].transport;
    ghost var before := t.touches;
    var _ := hs[h].Send(header, payload);
    c := Send(h, t.touches - before);
  }

  method PerformReceive(h: nat, ghost w: World, hs: seq<Session>, ts: seq<Transport>) returns (ghost c: Call)
    requires Matches(w, hs, ts) && h < |hs|
    modifies hs, ts
    ensures Enabled(w, c) && Matches(Apply(w, c), hs, ts)
  {
    var t := hs[h].transport;
    ghost var touches, faults, tape, wasClosed := t.touches, t.faults, t.tape, hs[h].closed;
    var _ := hs[h].Receive();
    ghost var uses := t.touches - touches;
    if t.faults != faults {
      c := Receive(h, uses, Some(t.tape));
    } else if !wasClosed && Violation(tape) {
      c := Receive(h, uses - 1, None);
    } else {
      c := Receive(h, uses, None);
    }
    assert Portrays(Apply(w, c).links[w.handles[h].link], t);
  }

  method PerformClose(h: nat, ghost w: World, hs: seq<Session>, ts: seq<Transport>) returns (ghost c: Call)
    requires Matches(w, hs, ts) && h < |hs|
    modifies hs, ts
    ensures Enabled(w, c) && Matches(Apply(w, c), hs, ts)
  {
    hs[h].Close();
    c := Close(h);
  }

  method PerformMoveAssign(to: nat, from: nat, ghost w: World, hs: seq<Session>, ts: seq<Transport>)
    returns (ghost c: Call)
    requires Matches(w, hs, ts) && to < |hs| && from < |hs|
    modifies hs
    ensures Enabled(w, c) && Matches(Apply(w, c), hs, ts)
  {
    hs[to].MoveFrom(hs[from]);
    c := MoveAssign(to, from);
  }

  method PerformMoveConstruct(h: nat, ghost w: World, hs: seq<Session>, ts: seq<Transport>)
    returns (ghost c: Call, s: Session)
    requires Matches(w, hs, ts) && h < |hs|
    modifies hs
    ensures fresh(s) && Enabled(w, c) && Matches(Apply(w, c), hs + [s], ts)
  {
    s := new Session.Move(hs[h]);
    c := MoveConstruct(h);
  }

  method PerformCreate(tape: seq<byte>, ghost w: World, hs: seq<Session>, ts: seq<Transport>)
    returns (ghost c: Call, s: Session, t: Transport)
    requires Matches(w, hs, ts)
    ensures fresh(s) && fresh(t) && Enabled(w, c) && Matches(Apply(w, c), hs + [s], ts + [t])
  {
    t := new Transport(tape);
    s := new Session(t);
    c := Create(tape);
  }

  method Perform(q: Request, ghost w: World, hs: seq<Session>, ts: seq<Transport>)
    returns (ghost c: Call, hs': seq<Session>, ts': seq<Transport>)
    requires Matches(w, hs, ts) && Possible(q, |hs|)
    modifies hs, ts
    ensures Enabled(w, c) && Matches(Apply(w, c), hs', ts')
    ensures forall i :: 0 <= i < |hs'| ==> hs'[i] in hs || fresh(hs'[i])
    ensures forall i :: 0 <= i < |ts'| ==> ts'[i] in ts || fresh(ts'[i])
  {
    hs', ts' := hs, ts;
    match q
    case NewSession(tape) =>
      var s, t;
      c, s, t := PerformCreate(tape, w, hs, ts);
      hs', ts' := hs + [s], ts + [t];
    case DoSend(h, header, payload) => c := PerformSend(h, header, payload, w, hs, ts);
    case DoReceive(h) => c := PerformReceive(h, w, hs, ts);
    case DoClose(h) => c := PerformClose(h, w, hs, ts);
    case DoMoveConstruct(h) =>
      var s;
      c, s := PerformMoveConstruct(h, w, hs, ts);
      hs' := hs + [s];
    case DoMoveAssign(to, from) => c := PerformMoveAssign(to, from, w, hs, ts);
  }

  lemma {:induction false} RunExtend(w: World, run: seq<Call>, c: Call)
    requires WellLinked(w) && IsRun(w, run) && Enabled(After(w, run), c)
    ensures IsRun(w, run + [c]) && After(w, run + [c]) == Apply(After(w, run), c)
    decreases |run|
  {
    if run == [] {
      assert (run + [c])[1..] == [];
    } else {
      RunExtend(Apply(w, run[0]), run[1..], c);
      assert (run + [c])[1..] == run[1..] + [c];
    }
  }

  /**
   Any schedule of operations on session objects is a run of the machine, so the theorems above apply to it. And while
   no operation on a transport fails, what its sessions wrote is received as the frames they sent.
   */
  method Drive(schedule: seq<Request>) returns (ghost run: seq<Call>, hs: seq<Session>, ts: seq<Transport>)
    ensures IsRun(START, run) && Matches(After(START, run), hs, ts)
    ensures Owned(After(START, run)) && AllAligned(After(START, run))
    ensures forall t <- ts :: t.faults == 0 && (forall f <- t.sent :: Acceptable(f)) ==>
              InboxOf(Channel(true, t.written)) == Queue(t.sent, Spent(true))
  {
    run, hs, ts := [], [], [];
    for i := 0 to |schedule|
      invariant IsRun(START, run) && Matches(After(START, run), hs, ts)
      invariant (forall j :: 0 <= j < |hs| ==> fresh(hs[j])) && (forall j :: 0 <= j < |ts| ==> fresh(ts[j]))
    {
      if Possible(schedule[i], |hs|) {
        ghost var c: Call;
        c, hs, ts := Perform(schedule[i], After(START, run), hs, ts);
        RunExtend(START, run, c);
        run := run + [c];
      }
    }
    ClosedAtMostOnce(run);
    RunKeepsAligned(START, run);
    forall t <- ts | t.faults == 0 && (forall f <- t.sent :: Acceptable(f))
      ensures InboxOf(Channel(true, t.written)) == Queue(t.sent, Spent(true))
    {
      FramingRoundTrip(t.sent, []);
      assert TapeOf(t.sent) + [] == t.written;
    }
  }
}
