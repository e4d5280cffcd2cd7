/** What a request to the sync service does to its connection: everything sent for it, and what it leaves unread. */
module SyncRequests {
  import opened Bytes
  import opened Results
  import opened Wire
  import opened Framing
  import opened Connections
  import opened Delivery
  import opened Reading
  import opened Streams
  import opened SyncProtocol
  import opened SyncReading

  const SYNC_SERVICE: seq<byte> := Ascii("sync:")

  // ----- requests

  function Request(id: u32, path: seq<byte>): seq<byte> { Le32(id) + Le32(|path| % WORD) + path }

  function ListRequest(v2: bool, path: seq<byte>): seq<byte> { Request(if v2 then LIST_V2 else LIST_V1, path) }

  function StatRequest(v2: bool, path: seq<byte>): seq<byte> { Request(if v2 then STAT_V2 else STAT_V1, path) }

  const QUIT_REQUEST: seq<byte> := Le32(QUIT) + Le32(0)

  /** What the device reads of a request: its id, the length of the path, and the path. */
  lemma RequestLayout(id: u32, path: seq<byte>)
    requires |path| < WORD
    ensures var b := Request(id, path);
            |b| == 8 + |path| && b[..4] == Le32(id) && U32At(b, 4) == |path| && b[8..] == path
  {
    WordsRead(id, |path|, path);
  }

  /** The requests by name, and QUIT. */
  lemma RequestNames(v2: bool, path: seq<byte>)
    ensures ListRequest(v2, path)[..4] == Ascii(if v2 then "LIS2" else "LIST")
    ensures StatRequest(v2, path)[..4] == Ascii(if v2 then "STA2" else "STAT")
    ensures Request(RECV_V1, path)[..4] == Ascii("RECV") && Request(SEND_V1, path)[..4] == Ascii("SEND")
    ensures QUIT_REQUEST == Ascii("QUIT") + [0, 0, 0, 0]
  {
    IdsAreNames();
    TransferIdsAreNames();
  }

  // ----- what a request comes to

  /** What matters of a connection before or after an operation. */
  datatype Setup = Setup(sent: seq<Frame>, closed: bool, box: Inbox, delayedAck: bool, maxData: u32, nextId: u32)

  ghost function At(c: Connection): Setup
    reads c, c.session, c.session.transport
  {
    Setup(c.Link().sent, c.session.closed, c.Box(), c.delayedAck, c.maxData, c.nextLocalId)
  }

  /** The device's answer to opening the service. */
  function Greeting(x: Setup): Opening { Opens(x.nextId, SYNC_SERVICE, x.box) }

  /** Whether the service opens and the request can be sent. */
  predicate Begins(x: Setup, request: seq<byte>) { Greeting(x).Opened? && |request| <= x.maxData }

  /** The bytes the service has to say. */
  function Says(x: Setup): seq<byte>
  {
    if Greeting(x).Opened? then Deliver(x.nextId, Greeting(x).rest).content else []
  }

  /** Why a request was not sent. */
  function Refusal(x: Setup, request: seq<byte>): Error
    requires !Begins(x, request)
  {
    if Greeting(x).Refused? then Greeting(x).error else WRITE_TOO_LARGE
  }

  /** The result of a request whose reply has the outcome `o`. */
  function Answer<T>(x: Setup, request: seq<byte>, o: Outcome<T>): Result<T>
  {
    if Begins(x, request) then ResultOf(o, Deliver(x.nextId, Greeting(x).rest).ending) else Err(Refusal(x, request))
  }

  /** What is left of the inbox `rest` once a reply with the outcome `o` has been read from it. */
  function Left<T>(id: u32, rest: Inbox, o: Outcome<T>): Inbox
  {
    var haul := Deliver(id, rest);
    if o.RanOut? then haul.ending.rest
    else if |o.rest| > |haul.content| then rest
    else
      match Drain(id, Source([], rest), |haul.content| - |o.rest|)
      case Full(_, left) => left.box
      case Short => rest
  }

  /** How many WRTE frames that takes, each of which is acknowledged. */
  function Acked<T>(id: u32, rest: Inbox, o: Outcome<T>): int
  {
    Deliver(id, rest).writes - if o.RanOut? then 0 else Deliver(id, Left(id, rest, o)).writes
  }

  function AckRun(ack: Frame, n: int): seq<Frame> { if n <= 0 then [] else seq(n, _ => ack) }

  /** The frames that open the service and ask for something. */
  function Asking(delayedAck: bool, local: u32, remote: u32, request: seq<byte>): seq<Frame>
    requires |request| < WORD
  {
    [OpenFrame(local, delayedAck, SYNC_SERVICE), DataFrame(WRTE, local, remote, request)]
  }

  /** The frames that leave sync mode and close the stream. */
  function Leaving(local: u32, remote: u32): seq<Frame>
  {
    [DataFrame(WRTE, local, remote, QUIT_REQUEST), CloseFrame(local, remote)]
  }

  /**
   The frames sent last: QUIT and CLSE after a success, otherwise a CLSE, unless the device closed the stream first or
   the session is dead.
   */
  function Closing<T>(local: u32, remote: u32, rest: Inbox, o: Outcome<T>, closed: bool): seq<Frame>
  {
    if Succeeds(o) then Leaving(local, remote)
    else if closed || (o.RanOut? && Deliver(local, rest).ending.Closed?) then []
    else [CloseFrame(local, remote)]
  }

  /** A request that was not sent: the OPEN, if the session was open, and the CLSE, if it still is. */
  ghost predicate NotBegun(x: Setup, x': Setup)
  {
    && x'.delayedAck == x.delayedAck && x'.maxData == x.maxData && x'.nextId == NextId(x.nextId)
    && x'.box == Greeting(x).rest
    && x'.sent == x.sent + (if x.closed then [] else [OpenFrame(x.nextId, x.delayedAck, SYNC_SERVICE)])
                + Farewell(x'.closed, x.nextId, if Greeting(x).Opened? then Greeting(x).remote else 0)
  }

  /**
   Everything an operation does to its connection: the frames sent for the request, with `more` behind it, one
   acknowledgement for each WRTE its reply took, and the closing; and the inbox it leaves to the next operation.
   */
  ghost predicate Performed<T>(x: Setup, request: seq<byte>, more: seq<Frame>, o: Outcome<T>, x': Setup)
  {
    && x'.delayedAck == x.delayedAck && x'.maxData == x.maxData && x'.nextId == NextId(x.nextId)
    && if !Begins(x, request) then NotBegun(x, x')
       else
         var Opened(remote, rest) := Greeting(x);
         && x'.box == Left(x.nextId, rest, o)
         && x'.sent == x.sent + Asking(x.delayedAck, x.nextId, remote, request) + more
                     + AckRun(OkayFrame(x.nextId, remote), Acked(x.nextId, rest, o))
                     + Closing(x.nextId, remote, rest, o, x'.closed)
         && (Succeeds(o) ==> !x'.closed)
  }

  /** The journal and the inbox after a reply has been read from its beginning. */
  lemma ReplyRead<T>(id: u32, ack: Frame, m: Moment, now: Moment, o: Outcome<T>, r: Result<T>)
    requires Follows(id, ack, m, now, o, r) && m.supply.buffered == []
    ensures now.supply.box == Left(id, m.supply.box, o)
    ensures now.log.sent == m.log.sent + AckRun(ack, Acked(id, m.supply.box, o))
    ensures now.closed == (m.closed || (o.RanOut? && EndOf(id, m).Closed?))
    ensures Succeeds(o) ==> now.sessionClosed == m.sessionClosed
  {
    var rest := m.supply.box;
    assert m.supply == Source([], rest) && Contents(id, m.supply) == Deliver(id, rest).content;
    if o.RanOut? {
      var fs :| Exhausted(id, ack, m, now, fs, ShortRead(EndOf(id, m)));
      RepliedOncePerWrite(id, ack, m.log, fs);
    } else {
      var fs, n :| Stage(id, ack, m, now, fs, n);
      FullIsFront(id, m.supply, n, Drain(id, m.supply, n).bytes, now.supply);
      RepliedOncePerWrite(id, ack, m.log, fs);
      DeliverBehind(id, fs, now.supply.box);
    }
    AcksAreRun(m.log.sent, now.log.sent, ack);
  }

  lemma AcksAreRun(before: seq<Frame>, after: seq<Frame>, ack: Frame)
    requires AcksOnly(before, after, ack)
    ensures after == before + AckRun(ack, |after| - |before|)
  {
  }

  /** The request has been sent, and `more` behind it; `m` is the moment from which its reply is read. */
  ghost predicate Asked(x: Setup, request: seq<byte>, more: seq<Frame>, m: Moment)
  {
    && Begins(x, request)
    && m.supply == Source([], Greeting(x).rest) && !m.closed && !m.sessionClosed
    && m.log.sent == x.sent + Asking(x.delayedAck, x.nextId, Greeting(x).remote, request) + more
  }

  lemma JustNow(id: u32, ack: Frame, m: Moment)
    ensures Since(id, ack, m, m)
  {
    NothingYet(id, ack, m, 0);
    assert m.supply.buffered[0..] == m.supply.buffered;
    assert Stage(id, ack, m, m, [], 0);
  }

  /** The reply to a request has been read, with the outcome `o`: all that is left is to close the stream. */
  ghost predicate ReplyTaken<T>(x: Setup, request: seq<byte>, more: seq<Frame>, o: Outcome<T>,
                                now: Moment, r: Result<T>)
  {
    && Begins(x, request) && r == Answer(x, request, o)
    && now.supply.box == Left(x.nextId, Greeting(x).rest, o)
    && now.log.sent == x.sent + Asking(x.delayedAck, x.nextId, Greeting(x).remote, request) + more
                     + AckRun(OkayFrame(x.nextId, Greeting(x).remote), Acked(x.nextId, Greeting(x).rest, o))
    && now.closed == (o.RanOut? && Deliver(x.nextId, Greeting(x).rest).ending.Closed?)
    && (Succeeds(o) ==> !now.sessionClosed)
  }

  lemma ReplyIsRead<T>(x: Setup, request: seq<byte>, more: seq<Frame>, m: Moment, now: Moment,
                       o: Outcome<T>, r: Result<T>)
    requires Asked(x, request, more, m)
    requires Follows(x.nextId, OkayFrame(x.nextId, Greeting(x).remote), m, now, o, r)
    ensures ReplyTaken(x, request, more, o, now, r)
  {
    ReplyRead(x.nextId, OkayFrame(x.nextId, Greeting(x).remote), m, now, o, r);
  }

  /** An operation is over: its result and all it did to the connection follow from the setup it found. */
  ghost predicate Concluded<T>(x: Setup, request: seq<byte>, more: seq<Frame>, o: Outcome<T>, x': Setup, r: Result<T>)
  {
    r == Answer(x, request, o) && Performed(x, request, more, o, x')
  }

  lemma ClosingConcludes<T>(x: Setup, request: seq<byte>, more: seq<Frame>, o: Outcome<T>, now: Moment, r: Result<T>,
                            x': Setup)
    requires ReplyTaken(x, request, more, o, now, r)
    requires x' == Setup(now.log.sent + Closing(x.nextId, Greeting(x).remote, Greeting(x).rest, o, x'.closed),
                         now.sessionClosed, now.supply.box, x.delayedAck, x.maxData, NextId(x.nextId))
    ensures Concluded(x, request, more, o, x', r)
  {
  }

  lemma RefusalConcludes<T>(x: Setup, request: seq<byte>, more: seq<Frame>, o: Outcome<T>, x': Setup)
    requires !Begins(x, request) && NotBegun(x, x')
    ensures Concluded(x, request, more, o, x', Err(Refusal(x, request)))
  {
  }

  /** A reader that got to an outcome took from its inbox the frames in front of what is left, and no others. */
  lemma {:induction false} DrainTook(id: u32, s: Source, n: nat) returns (fs: seq<Frame>)
    requires Drain(id, s, n).Full?
    ensures Traffic(id, fs) && s.box == Queue(fs, Drain(id, s, n).left.box)
    decreases s.box, 1
  {
    fs := [];
    if n > |s.buffered| {
      fs := DrawTook(id, s.box, n - |s.buffered|);
    }
  }

  lemma {:induction false} DrawTook(id: u32, box: Inbox, n: nat) returns (fs: seq<Frame>)
    requires Draw(id, box, n).Full?
    ensures Traffic(id, fs) && box == Queue(fs, Draw(id, box, n).left.box)
    decreases box, 0
  {
    var f, rest := box.frame, box.rest;
    if IsData(id, f.header) {
      fs := DrainTook(id, Source(f.payload, rest), n);
    } else {
      fs := DrawTook(id, rest, n);
    }
    var before := fs;
    fs := [f] + before;
    assert fs[1..] == before;
  }

  /** One acknowledgement for each WRTE of the stream among the frames that the operation took from its inbox. */
  lemma AckedPerWrite<T>(id: u32, rest: Inbox, o: Outcome<T>) returns (fs: seq<Frame>)
    requires o.Outcome? && |o.rest| <= |Deliver(id, rest).content|
    ensures rest == Queue(fs, Left(id, rest, o)) && Acked(id, rest, o) == OwnWrites(id, fs)
  {
    var content, s := Deliver(id, rest).content, Source([], rest);
    var n := |content| - |o.rest|;
    assert Contents(id, s) == content;
    DrainSplits(id, s, n);
    fs := DrainTook(id, s, n);
    DeliverBehind(id, fs, Left(id, rest, o));
  }

  /**
   What a successful operation sends, frame by frame: the OPEN of the sync service, the request, `more`, nothing but
   acknowledgements with both ids, and at last QUIT and CLSE.
   */
  lemma SuccessOnWire<T>(x: Setup, request: seq<byte>, more: seq<Frame>, o: Outcome<T>, x': Setup)
    requires Begins(x, request) && Succeeds(o) && Performed(x, request, more, o, x')
    ensures var id, remote, last := x.nextId, Greeting(x).remote, |x'.sent|;
            && |x.sent| + 4 + |more| <= last
            && AnnouncesOpen(x'.sent[|x.sent|], id, x.delayedAck, Ascii("sync:"))
            && Carries(x'.sent[|x.sent| + 1], WRTE, id, remote, request)
            && x'.sent[|x.sent| + 2..|x.sent| + 2 + |more|] == more
            && (forall i :: |x.sent| + 2 + |more| <= i < last - 2 ==> Carries(x'.sent[i], OKAY, id, remote, []))
            && Carries(x'.sent[last - 2], WRTE, id, remote, Ascii("QUIT") + [0, 0, 0, 0])
            && Carries(x'.sent[last - 1], CLSE, id, remote, [])
  {
    var id, remote, rest := x.nextId, Greeting(x).remote, Greeting(x).rest;
    var asking, acks := Asking(x.delayedAck, id, remote, request), AckRun(OkayFrame(id, remote), Acked(id, rest, o));
    RequestNames(true, []);
    assert x'.sent == x.sent + asking + more + acks + Leaving(id, remote);
    assert forall i :: 0 <= i < |acks| ==> acks[i] == OkayFrame(id, remote);
    assert |x'.sent| == |x.sent| + 2 + |more| + |acks| + 2;
  }
}
