/**
 The sync operations from the bytes on the wire: whatever the framing, the answer depends on what the device says and
 on nothing else. Each is stated of the call itself, under every fragmentation of the transport's reads.
 */
module SyncEndToEnd {
  import opened Bytes
  import opened Results
  import opened Framing
  import opened Connections
  import opened Delivery
  import opened SyncProtocol
  import opened SyncRoundTrips
  import opened SyncRequests
  import opened Sync

  /** The device is about to give this play to the next stream of an open connection. */
  ghost predicate Stages(c: Connection, play: Play, tail: seq<byte>)
    reads c, c.session, c.session.transport
  {
    !c.session.closed && c.Link().tape == PlayBytes(play, tail) && FairPlay(c.nextLocalId, play)
  }

  /** The setup of an operation to which the device gives a play. */
  ghost predicate Plays(x: Setup, play: Play, tail: seq<byte>)
  {
    FairPlay(x.nextId, play) && x.box == InboxOf(Channel(true, PlayBytes(play, tail)))
  }

  /** The service opens and says the service bytes of the play, and then closes the stream. */
  lemma PlayIsHeard(x: Setup, play: Play, tail: seq<byte>)
    requires Plays(x, play, tail)
    ensures Greeting(x).Opened? && Says(x) == OwnPayload(x.nextId, play.service)
    ensures Deliver(x.nextId, Greeting(x).rest).ending == Closed(InboxOf(Channel(true, tail)))
  {
    ServiceDelivery(x.nextId, play, tail);
  }

  /** A path within the limit, whose request fits one WRTE. */
  predicate Sendable(path: seq<byte>, maxData: u32) { |path| <= MAX_PATH_LENGTH && REQUEST_SIZE + |path| <= maxData }

  /** `list` returns the device's readable entries, in order, whatever the device says after DONE. */
  method ListAgainstPlay(c: Connection, path: seq<byte>, ghost ls: seq<Listed>, ghost body: seq<byte>,
                         ghost extra: seq<byte>, ghost play: Play, ghost tail: seq<byte>)
    returns (r: Result<seq<DirEntry>>)
    requires Stages(c, play, tail) && Sendable(path, c.maxData)
    requires var v2 := c.SupportsFeature("ls_v2");
             && (forall l <- ls :: Writable(v2, l) && |l.name| <= MAX_NAME_LENGTH) && |body| == DentBody(v2)
             && OwnPayload(c.nextLocalId, play.service) == ListingBytes(v2, ls) + (DoneDent(body) + extra)
    modifies c`nextLocalId, c.session`closed, c.session.transport
    ensures r.Ok? || c.Link().faults == old(c.Link().faults) ==> r == Ok(Shown(c.SupportsFeature("ls_v2"), ls))
  {
    PlayIsHeard(At(c), play, tail);
    ListingRoundTrip(c.SupportsFeature("ls_v2"), ls, body, extra);
    r := List(c, path);
  }

  /** What a device that knows `a` of a path lets `stat` tell. */
  function Known(v2: bool, a: Attributes): Option<FileStat>
  {
    if (if v2 then a.error != 0 else MetaOf(a) == FileStat(0, 0, 0)) then None else Some(MetaOf(a))
  }

  /** `stat` returns the device's metadata, or nothing for a path it reports missing. */
  method StatAgainstPlay(c: Connection, path: seq<byte>, ghost reply: u32, ghost a: Attributes,
                         ghost extra: seq<byte>, ghost play: Play, ghost tail: seq<byte>)
    returns (r: Result<Option<FileStat>>)
    requires Stages(c, play, tail) && Sendable(path, c.maxData)
    requires var v2 := c.SupportsFeature("stat_v2");
             && (v2 || FitsV1(a))
             && OwnPayload(c.nextLocalId, play.service) == Le32(reply) + StatBytes(v2, a) + extra
    modifies c`nextLocalId, c.session`closed, c.session.transport
    ensures r.Ok? || c.Link().faults == old(c.Link().faults) ==> r == Ok(Known(c.SupportsFeature("stat_v2"), a))
  {
    PlayIsHeard(At(c), play, tail);
    StatRoundTrip(c.SupportsFeature("stat_v2"), reply, a, extra);
    r := Stat(c, path);
  }

  /** `pull` writes the file the device sends, in whatever chunks it sends it. */
  method PullAgainstPlay(c: Connection, path: seq<byte>, before: seq<byte>, ghost cs: seq<Chunk>, ghost mtime: u32,
                         ghost extra: seq<byte>, ghost play: Play, ghost tail: seq<byte>)
    returns (r: Status, file: seq<byte>)
    requires Stages(c, play, tail) && Sendable(path, c.maxData)
    requires OwnPayload(c.nextLocalId, play.service) == BlocksBytes(cs) + (DoneBytes(mtime) + extra)
    modifies c`nextLocalId, c.session`closed, c.session.transport
    ensures r.Ok? || c.Link().faults == old(c.Link().faults) ==> r == Ok(()) && file == Flatten(cs)
  {
    PlayIsHeard(At(c), play, tail);
    TransferOfBlocks(cs, DoneBytes(mtime) + extra);
    TransferOfDone(mtime, extra);
    assert Flatten(cs) + [] == Flatten(cs);
    r, file := Pull(c, path, before);
  }

  /** A transfer cut off by the device leaves the whole chunks that came before, and reports the closed stream. */
  method PullCutOff(c: Connection, path: seq<byte>, before: seq<byte>, ghost cs: seq<Chunk>, ghost part: seq<byte>,
                    ghost play: Play, ghost tail: seq<byte>)
    returns (r: Status, file: seq<byte>)
    requires Stages(c, play, tail) && Sendable(path, c.maxData)
    requires |part| < 4 && OwnPayload(c.nextLocalId, play.service) == BlocksBytes(cs) + part
    modifies c`nextLocalId, c.session`closed, c.session.transport
    ensures c.Link().faults == old(c.Link().faults) ==> r == Err(DEVICE_CLOSED) && file == Flatten(cs)
  {
    PlayIsHeard(At(c), play, tail);
    TransferOfBlocks(cs, part);
    TransferStep(part);
    assert Flatten(cs) + [] == Flatten(cs);
    r, file := Pull(c, path, before);
  }

  /** A listing that the device rejects, at once or after some entries, fails with the device's reason. */
  method ListRejected(c: Connection, path: seq<byte>, ghost ls: seq<Listed>, ghost reason: seq<byte>,
                      ghost extra: seq<byte>, ghost play: Play, ghost tail: seq<byte>)
    returns (r: Result<seq<DirEntry>>)
    requires Stages(c, play, tail) && Sendable(path, c.maxData) && |reason| < WORD
    requires var v2 := c.SupportsFeature("ls_v2");
             && (forall l <- ls :: Writable(v2, l) && |l.name| <= MAX_NAME_LENGTH)
             && OwnPayload(c.nextLocalId, play.service) == ListingBytes(v2, ls) + (FailBytes(reason) + extra)
    modifies c`nextLocalId, c.session`closed, c.session.transport
    ensures r.Err?
    ensures c.Link().faults == old(c.Link().faults) ==>
              r == Err(Error(ErrorCode.Device, "the sync request failed: " + Chars(reason)))
  {
    PlayIsHeard(At(c), play, tail);
    ListingRejected(c.SupportsFeature("ls_v2"), ls, reason, extra);
    r := List(c, path);
  }

  /** A pull that the device rejects, at once or after some chunks, fails with the device's reason and keeps those. */
  method PullRejected(c: Connection, path: seq<byte>, before: seq<byte>, ghost cs: seq<Chunk>, ghost reason: seq<byte>,
                      ghost extra: seq<byte>, ghost play: Play, ghost tail: seq<byte>)
    returns (r: Status, file: seq<byte>)
    requires Stages(c, play, tail) && Sendable(path, c.maxData) && |reason| < WORD
    requires OwnPayload(c.nextLocalId, play.service) == BlocksBytes(cs) + (FailBytes(reason) + extra)
    modifies c`nextLocalId, c.session`closed, c.session.transport
    ensures r.Err?
    ensures c.Link().faults == old(c.Link().faults) ==>
              && r == Err(Error(ErrorCode.Device, "the sync request failed: " + Chars(reason)))
              && file == Flatten(cs)
  {
    PlayIsHeard(At(c), play, tail);
    TransferRejected(cs, reason, extra);
    r, file := Pull(c, path, before);
  }

  // ----- push

  /**
   Push, then pull. A device whose stream reads what the push of a file sends, and that later plays it back to a pull,
   cut and interleaved as it likes, gives back the same file.
   */
  method PushThenPull(c: Connection, path: seq<byte>, before: seq<byte>, ghost pushed: Setup, ghost content: seq<byte>,
                      ghost mtime: u32, ghost play: Play, ghost tail: seq<byte>)
    returns (r: Status, file: seq<byte>)
    requires Greeting(pushed).Opened? && BlocksFit(content, pushed.maxData)
    requires Stages(c, play, tail) && Sendable(path, c.maxData)
    requires OwnPayload(c.nextLocalId, play.service)
          == OwnPayload(Greeting(pushed).remote, Sending(pushed, content, mtime))
    modifies c`nextLocalId, c.session`closed, c.session.transport
    ensures r.Ok? || c.Link().faults == old(c.Link().faults) ==> r == Ok(()) && file == content
  {
    FileArrives(pushed.nextId, Greeting(pushed).remote, content, mtime);
    BlocksShape(content);
    assert DoneBytes(mtime) + [] == DoneBytes(mtime);
    r, file := PullAgainstPlay(c, path, before, Blocks(content), mtime, [], play, tail);
  }

  /** After a stat, the next play finds the connection ready: what is left of the first is not for the next stream. */
  lemma NextPlay(x: Setup, request: seq<byte>, o: Outcome<Option<FileStat>>, x': Setup,
                 first: Play, second: Play, tail: seq<byte>)
    requires Plays(x, first, PlayBytes(second, tail)) && FairPlay(NextId(x.nextId), second)
    requires Begins(x, request) && Performed(x, request, [], o, x')
    requires o.Outcome? && |o.rest| <= |OwnPayload(x.nextId, first.service)|
    requires forall f <- first.service + [first.close] :: f.header.arg1 != x'.nextId
    ensures Greeting(x').Opened? && Greeting(x').remote == second.okay.header.arg0
    ensures Says(x') == OwnPayload(x'.nextId, second.service)
    ensures Deliver(x'.nextId, Greeting(x').rest).ending == Closed(InboxOf(Channel(true, tail)))
  {
    var id, next := x.nextId, InboxOf(Channel(true, PlayBytes(second, tail)));
    var rest := Queue(first.service, Arrives(first.close, next));
    PlayQueue(first, PlayBytes(second, tail));
    AwaitBehind(id, first.before, Arrives(first.okay, rest));
    PlayIsHeard(x, first, PlayBytes(second, tail));
    var k := DrainLeaves(id, Source([], rest), |Says(x)| - |o.rest|, first.service, Arrives(first.close, next));
    var left := first.service[k..] + [first.close];
    QueueSnoc(first.service[k..], first.close, next);
    assert x'.box == Queue(left, next);
    AwaitBehind(x'.nextId, left, next);
    ServiceDelivery(x'.nextId, second, tail);
  }

  /** The device's acknowledgement of a push. */
  function Acknowledgement(length: u32): seq<byte> { Ascii("OKAY") + Le32(length) }

  lemma AcknowledgementIsSuccess(length: u32, extra: seq<byte>)
    ensures StatusAt(Acknowledgement(length) + extra) == Outcome(Ok(()), extra)
  {
    var p := Acknowledgement(length) + extra;
    StatusSucceedsIff(p);
    assert p[..4] == Ascii("OKAY") && p[8..] == extra;
  }

  /**
   A device's part in a push: on one stream it tells about the destination, on the next it answers for the file, each
   time cutting and interleaving as it likes.
   */
  datatype Scene = Scene(first: Play, reply: u32, known: Attributes, extra: seq<byte>, second: Play, tail: seq<byte>)

  function SceneBytes(s: Scene): seq<byte> { PlayBytes(s.first, PlayBytes(s.second, s.tail)) }

  /** Both streams get a fair play, and no frame of the first is for the second. */
  ghost predicate FairScene(id: u32, v2: bool, s: Scene)
  {
    && FairPlay(id, s.first) && FairPlay(NextId(id), s.second)
    && (forall f <- s.first.service + [s.first.close] :: f.header.arg1 != NextId(id))
    && (v2 || FitsV1(s.known))
    && OwnPayload(id, s.first.service) == Le32(s.reply) + StatBytes(v2, s.known) + s.extra
  }

  /** What the device has to say for the file. */
  function Reply(id: u32, s: Scene): seq<byte> { OwnPayload(NextId(id), s.second.service) }

  lemma FirstPlayTells(x: Setup, v2: bool, s: Scene, path: seq<byte>)
    requires FairScene(x.nextId, v2, s) && x.box == InboxOf(Channel(true, SceneBytes(s))) && Sendable(path, x.maxData)
    ensures Begins(x, StatRequest(v2, path)) && StatOutcome(v2, x) == Outcome(Ok(Known(v2, s.known)), s.extra)
    ensures Answer(x, StatRequest(v2, path), StatOutcome(v2, x)) == Ok(Known(v2, s.known))
  {
    PlayIsHeard(x, s.first, PlayBytes(s.second, s.tail));
    StatRoundTrip(v2, s.reply, s.known, s.extra);
  }

  lemma SecondPlayAnswers(x: Setup, v2: bool, s: Scene, path: seq<byte>, middle: Setup,
                          spec: seq<byte>, content: seq<byte>, mtime: u32)
    requires FairScene(x.nextId, v2, s) && x.box == InboxOf(Channel(true, SceneBytes(s))) && Sendable(path, x.maxData)
    requires Performed(x, StatRequest(v2, path), [], StatOutcome(v2, x), middle)
    requires BlocksFit(content, x.maxData) && |Request(SEND_V1, spec)| <= x.maxData
    ensures Begins(middle, Request(SEND_V1, spec)) && Greeting(middle).remote == s.second.okay.header.arg0
    ensures SendOutcome(middle, content) == StatusAt(Reply(x.nextId, s))
    ensures Sending(middle, content, mtime)
         == FileFrames(NextId(x.nextId), s.second.okay.header.arg0, content, mtime)
  {
    FirstPlayTells(x, v2, s, path);
    NextPlay(x, StatRequest(v2, path), StatOutcome(v2, x), middle, s.first, s.second, s.tail);
  }

  /** What a push comes to, given what its two halves did. */
  lemma SceneConcludes(x: Setup, v2: bool, s: Scene, path: seq<byte>, middle: Setup, end: Setup, r: Status,
                       spec: seq<byte>, content: seq<byte>, mtime: u32)
    requires FairScene(x.nextId, v2, s) && x.box == InboxOf(Channel(true, SceneBytes(s))) && Sendable(path, x.maxData)
    requires Performed(x, StatRequest(v2, path), [], StatOutcome(v2, x), middle)
    requires BlocksFit(content, x.maxData) && |Request(SEND_V1, spec)| <= x.maxData
    requires Concluded(middle, Request(SEND_V1, spec), Sending(middle, content, mtime), SendOutcome(middle, content),
                       end, r)
    ensures StatusAt(Reply(x.nextId, s)).Outcome? ==> r == StatusAt(Reply(x.nextId, s)).result
    ensures Performed(middle, Request(SEND_V1, spec),
                      FileFrames(NextId(x.nextId), s.second.okay.header.arg0, content, mtime),
                      StatusAt(Reply(x.nextId, s)), end)
  {
    SecondPlayAnswers(x, v2, s, path, middle, spec, content, mtime);
  }

  /** Everything a push to a device that plays a scene comes to, but for the device's answer. */
  method PushOnScene(c: Connection, path: seq<byte>, name: seq<byte>, mode: u32, content: seq<byte>, mtime: u32,
                     ghost s: Scene)
    returns (r: Status, ghost middle: Setup)
    requires !c.session.closed && c.Link().tape == SceneBytes(s)
    requires FairScene(c.nextLocalId, c.SupportsFeature("stat_v2"), s)
    requires Sendable(path, c.maxData) && BlocksFit(content, c.maxData)
    requires |Request(SEND_V1, SendSpec(path, name, mode, Known(c.SupportsFeature("stat_v2"), s.known)))| <= c.maxData
    modifies c`nextLocalId, c.session`closed, c.session.transport
    ensures r.Ok? || c.Link().faults == old(c.Link().faults) ==>
              var spec := SendSpec(path, name, mode, Known(c.SupportsFeature("stat_v2"), s.known));
              var status := StatusAt(Reply(old(c.nextLocalId), s));
              && (status.Outcome? ==> r == status.result)
              && Performed(middle, Request(SEND_V1, spec),
                           FileFrames(NextId(old(c.nextLocalId)), s.second.okay.header.arg0, content, mtime),
                           status, At(c))
  {
    ghost var x, v2 := At(c), c.SupportsFeature("stat_v2");
    FirstPlayTells(x, v2, s, path);
    r, middle := Push(c, path, name, mode, content, mtime);
    if r.Ok? || c.Link().faults == old(c.Link().faults) {
      SceneConcludes(x, v2, s, path, middle, At(c), r, SendSpec(path, name, mode, Known(v2, s.known)), content, mtime);
    }
  }

  /**
   A whole push that the device acknowledges. It succeeds, and the stream on the device has read the file, block by
   block, and its time: whatever the first stream left unread does not disturb the second.
   */
  method PushAgainstScene(c: Connection, path: seq<byte>, name: seq<byte>, mode: u32, content: seq<byte>, mtime: u32,
                          ghost s: Scene, ghost length: u32, ghost more: seq<byte>)
    returns (r: Status, ghost middle: Setup)
    requires !c.session.closed && c.Link().tape == SceneBytes(s)
    requires FairScene(c.nextLocalId, c.SupportsFeature("stat_v2"), s)
    requires Reply(c.nextLocalId, s) == Acknowledgement(length) + more
    requires Sendable(path, c.maxData) && BlocksFit(content, c.maxData)
    requires |Request(SEND_V1, SendSpec(path, name, mode, Known(c.SupportsFeature("stat_v2"), s.known)))| <= c.maxData
    modifies c`nextLocalId, c.session`closed, c.session.transport
    ensures r.Ok? || c.Link().faults == old(c.Link().faults) ==>
              var spec := SendSpec(path, name, mode, Known(c.SupportsFeature("stat_v2"), s.known));
              var frames := FileFrames(NextId(old(c.nextLocalId)), s.second.okay.header.arg0, content, mtime);
              && r == Ok(())
              && Performed(middle, Request(SEND_V1, spec), frames, Outcome(Ok(()), more), At(c))
              && OwnPayload(s.second.okay.header.arg0, frames) == BlocksBytes(Blocks(content)) + DoneBytes(mtime)
  {
    AcknowledgementIsSuccess(length, more);
    FileArrives(NextId(c.nextLocalId), s.second.okay.header.arg0, content, mtime);
    r, middle := PushOnScene(c, path, name, mode, content, mtime, s);
  }

  /** A push that the device rejects, before or after it has read the file, fails with the device's reason. */
  method PushRejected(c: Connection, path: seq<byte>, name: seq<byte>, mode: u32, content: seq<byte>, mtime: u32,
                      ghost s: Scene, ghost reason: seq<byte>, ghost more: seq<byte>)
    returns (r: Status, ghost middle: Setup)
    requires !c.session.closed && c.Link().tape == SceneBytes(s)
    requires FairScene(c.nextLocalId, c.SupportsFeature("stat_v2"), s)
    requires |reason| < WORD && Reply(c.nextLocalId, s) == FailBytes(reason) + more
    requires Sendable(path, c.maxData) && BlocksFit(content, c.maxData)
    requires |Request(SEND_V1, SendSpec(path, name, mode, Known(c.SupportsFeature("stat_v2"), s.known)))| <= c.maxData
    modifies c`nextLocalId, c.session`closed, c.session.transport
    ensures r.Err?
    ensures c.Link().faults == old(c.Link().faults) ==>
              r == Err(Error(ErrorCode.Device, "the sync request failed: " + Chars(reason)))
  {
    RejectionIsReported(false, reason, more);
    r, middle := PushOnScene(c, path, name, mode, content, mtime, s);
  }
}
