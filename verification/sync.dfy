/** The sync service's operations on a connection: list, stat, pull and push. */
module Sync {
  import opened Bytes
  import opened Results
  import opened Wire
  import opened Connections
  import opened Delivery
  import opened Streams
  import opened SyncProtocol
  import opened SyncRoundTrips
  import opened SyncReading
  import opened SyncRequests

  // ----- the parts of an operation

  /** A stream whose request has been sent, with `more` behind it, and whose reply is still to be read. */
  ghost predicate Awaits(s: Stream, x: Setup, request: seq<byte>, more: seq<Frame>)
    reads s, s.connection, s.connection.session, s.connection.session.transport
  {
    && s.Valid() && Asked(x, request, more, s.Now()) && IsFor(s, x) && s.Pending() == Says(x)
    && s.connection.delayedAck == x.delayedAck && s.connection.maxData == x.maxData
    && s.connection.nextLocalId == NextId(x.nextId)
  }

  ghost predicate IsFor(s: Stream, x: Setup)
    reads s
  {
    Greeting(x).Opened? && s.localId == x.nextId && s.remoteId == Greeting(x).remote
  }

  /** Opens the service and sends a request. */
  method BeginRequest(c: Connection, request: seq<byte>) returns (r: Result<Stream>)
    modifies c`nextLocalId, c.session`closed, c.session.transport
    ensures c.Link().faults >= old(c.Link().faults) && c.nextLocalId == NextId(old(c.nextLocalId))
    ensures r.Ok? ==>
              && fresh(r.value) && r.value.connection == c
              && c.Link().faults == old(c.Link().faults) && Awaits(r.value, old(At(c)), request, [])
    ensures r.Err? && c.Link().faults == old(c.Link().faults) ==>
              && !Begins(old(At(c)), request) && r.error == Refusal(old(At(c)), request)
              && NotBegun(old(At(c)), At(c))
  {
    r := Stream.Open(c, SYNC_SERVICE);
    if r.Err? {
      return;
    }
    var s := r.value;
    var written := s.Write(request);
    if written.Err? {
      s.CloseNow();
      return Err(written.error);
    }
    assert s.Buffered() == [] && [] + s.Coming().content == s.Coming().content;
    assert old(c.Link().sent) + Asking(c.delayedAck, s.localId, s.remoteId, request) + [] == c.Link().sent;
  }

  /** Leaves sync mode after a success, and destroys the stream. `held` says that the link has held so far. */
  method Finish<T>(s: Stream, result: Result<T>, ghost held: bool,
                   ghost x: Setup, ghost request: seq<byte>, ghost more: seq<Frame>, ghost o: Outcome<T>)
    returns (r: Result<T>)
    requires held ==>
               && ReplyTaken(x, request, more, o, s.Now(), result) && IsFor(s, x) && REQUEST_SIZE <= |request|
               && s.connection.delayedAck == x.delayedAck && s.connection.maxData == x.maxData
               && s.connection.nextLocalId == NextId(x.nextId)
    modifies s`closed, s.connection.session.transport
    ensures s.Link().faults >= old(s.Link().faults)
    ensures r.Ok? ==> result.Ok?
    ensures held && (r.Ok? || s.Link().faults == old(s.Link().faults)) ==>
              Concluded(x, request, more, o, At(s.connection), r)
  {
    r := result;
    ghost var now := s.Now();
    if result.Ok? {
      var quit := s.Write(QUIT_REQUEST);
      if quit.Err? {
        r := Err(quit.error);
      }
    }
    s.CloseNow();
    if held && (r.Ok? || s.Link().faults == now.faults) {
      assert s.Link().sent
          == now.log.sent + Closing(s.localId, s.remoteId, Greeting(x).rest, o, s.connection.session.closed);
      ClosingConcludes(x, request, more, o, now, result, At(s.connection));
    }
  }

  // ----- the operations

  function ListOutcome(v2: bool, x: Setup): Outcome<seq<DirEntry>> { ListingAt(v2, Says(x)) }

  /** Reads the reply to a LIST. */
  method ListReply(s: Stream, v2: bool, ghost x: Setup, ghost request: seq<byte>) returns (r: Result<seq<DirEntry>>)
    requires Awaits(s, x, request, [])
    modifies s`closed, s`incoming, s`offset, s.connection.session`closed, s.connection.session.transport
    ensures s.Link().faults >= old(s.Link().faults) && (r.Ok? ==> s.Link().faults == old(s.Link().faults))
    ensures s.Link().faults == old(s.Link().faults) ==> ReplyTaken(x, request, [], ListOutcome(v2, x), s.Now(), r)
  {
    ghost var m := s.Now();
    JustNow(s.localId, s.Ack(), m);
    r := ReadListing(s, v2, m);
    if s.Link().faults == m.faults {
      ReplyIsRead(x, request, [], m, s.Now(), ListOutcome(v2, x), r);
    }
  }

  method List(c: Connection, path: seq<byte>) returns (r: Result<seq<DirEntry>>)
    modifies c`nextLocalId, c.session`closed, c.session.transport
    ensures c.Link().faults >= old(c.Link().faults)
    ensures |path| > MAX_PATH_LENGTH ==> r == Err(PATH_TOO_LONG) && At(c) == old(At(c))
    ensures |path| <= MAX_PATH_LENGTH && (r.Ok? || c.Link().faults == old(c.Link().faults)) ==>
              var v2, x := c.SupportsFeature("ls_v2"), old(At(c));
              Concluded(x, ListRequest(v2, path), [], ListOutcome(v2, x), At(c), r)
  {
    if |path| > MAX_PATH_LENGTH {
      return Err(PATH_TOO_LONG);
    }
    var v2 := c.SupportsFeature("ls_v2");
    ghost var x := At(c);
    var stream := BeginRequest(c, ListRequest(v2, path));
    if stream.Err? {
      if c.Link().faults == old(c.Link().faults) {
        RefusalConcludes(x, ListRequest(v2, path), [], ListOutcome(v2, x), At(c));
      }
      return Err(stream.error);
    }
    r := ListReply(stream.value, v2, x, ListRequest(v2, path));
    r := Finish(stream.value, r, c.Link().faults == old(c.Link().faults),
                x, ListRequest(v2, path), [], ListOutcome(v2, x));
  }

  function StatOutcome(v2: bool, x: Setup): Outcome<Option<FileStat>> { StatAt(v2, Says(x)) }

  /** Reads the reply to a STAT. */
  method StatReply(s: Stream, v2: bool, ghost x: Setup, ghost request: seq<byte>) returns (r: Result<Option<FileStat>>)
    requires Awaits(s, x, request, [])
    modifies s`closed, s`incoming, s`offset, s.connection.session`closed, s.connection.session.transport
    ensures s.Link().faults >= old(s.Link().faults) && (r.Ok? ==> s.Link().faults == old(s.Link().faults))
    ensures s.Link().faults == old(s.Link().faults) ==> ReplyTaken(x, request, [], StatOutcome(v2, x), s.Now(), r)
  {
    ghost var m := s.Now();
    JustNow(s.localId, s.Ack(), m);
    r := ReadStat(s, v2, m);
    if s.Link().faults == m.faults {
      ReplyIsRead(x, request, [], m, s.Now(), StatOutcome(v2, x), r);
    }
  }

  method Stat(c: Connection, path: seq<byte>) returns (r: Result<Option<FileStat>>)
    modifies c`nextLocalId, c.session`closed, c.session.transport
    ensures c.Link().faults >= old(c.Link().faults)
    ensures |path| > MAX_PATH_LENGTH ==> r == Err(PATH_TOO_LONG) && At(c) == old(At(c))
    ensures |path| <= MAX_PATH_LENGTH && (r.Ok? || c.Link().faults == old(c.Link().faults)) ==>
              var v2, x := c.SupportsFeature("stat_v2"), old(At(c));
              Concluded(x, StatRequest(v2, path), [], StatOutcome(v2, x), At(c), r)
  {
    if |path| > MAX_PATH_LENGTH {
      return Err(PATH_TOO_LONG);
    }
    var v2 := c.SupportsFeature("stat_v2");
    ghost var x := At(c);
    var stream := BeginRequest(c, StatRequest(v2, path));
    if stream.Err? {
      if c.Link().faults == old(c.Link().faults) {
        RefusalConcludes(x, StatRequest(v2, path), [], StatOutcome(v2, x), At(c));
      }
      return Err(stream.error);
    }
    r := StatReply(stream.value, v2, x, StatRequest(v2, path));
    r := Finish(stream.value, r, c.Link().faults == old(c.Link().faults),
                x, StatRequest(v2, path), [], StatOutcome(v2, x));
  }

  function PullOutcome(x: Setup): Outcome<()> { TransferAt(Says(x)).outcome }

  /** Reads the reply to a RECV into the file. */
  method PullReply(s: Stream, ghost x: Setup, ghost request: seq<byte>) returns (r: Status, file: seq<byte>)
    requires Awaits(s, x, request, [])
    modifies s`closed, s`incoming, s`offset, s.connection.session`closed, s.connection.session.transport
    ensures s.Link().faults >= old(s.Link().faults) && (r.Ok? ==> s.Link().faults == old(s.Link().faults))
    ensures s.Link().faults == old(s.Link().faults) ==> ReplyTaken(x, request, [], PullOutcome(x), s.Now(), r)
    ensures HoldsChunks(file, Says(x))
    ensures s.Link().faults == old(s.Link().faults) ==> file == TransferAt(Says(x)).written
  {
    ghost var m := s.Now();
    JustNow(s.localId, s.Ack(), m);
    r, file := ReadTransfer(s, m);
    if s.Link().faults == m.faults {
      ReplyIsRead(x, request, [], m, s.Now(), PullOutcome(x), r);
    }
  }

  /**
   The v1 pull; `before` is the local file's content, which is replaced once the request has been sent. Whatever
   happens then, the file holds whole chunks of what the device sent, from the first on.
   */
  method Pull(c: Connection, path: seq<byte>, before: seq<byte>) returns (r: Status, file: seq<byte>)
    modifies c`nextLocalId, c.session`closed, c.session.transport
    ensures c.Link().faults >= old(c.Link().faults)
    ensures |path| > MAX_PATH_LENGTH ==> r == Err(PATH_TOO_LONG) && file == before && At(c) == old(At(c))
    ensures file == before || (Begins(old(At(c)), Request(RECV_V1, path)) && HoldsChunks(file, Says(old(At(c)))))
    ensures |path| <= MAX_PATH_LENGTH && (r.Ok? || c.Link().faults == old(c.Link().faults)) ==>
              var request, x := Request(RECV_V1, path), old(At(c));
              && Concluded(x, request, [], PullOutcome(x), At(c), r)
              && file == if Begins(x, request) then TransferAt(Says(x)).written else before
  {
    if |path| > MAX_PATH_LENGTH {
      return Err(PATH_TOO_LONG), before;
    }
    ghost var x := At(c);
    var stream := BeginRequest(c, Request(RECV_V1, path));
    if stream.Err? {
      if c.Link().faults == old(c.Link().faults) {
        RefusalConcludes(x, Request(RECV_V1, path), [], PullOutcome(x), At(c));
      }
      return Err(stream.error), before;
    }
    r, file := PullReply(stream.value, x, Request(RECV_V1, path));
    r := Finish(stream.value, r, c.Link().faults == old(c.Link().faults),
                x, Request(RECV_V1, path), [], PullOutcome(x));
  }

  /** The WRTE frames that carry a file: one per block. */
  function BlockFrames(local: u32, remote: u32, cs: seq<Chunk>): (fs: seq<Frame>)
    ensures |fs| == |cs|
  {
    if cs == [] then []
    else [DataFrame(WRTE, local, remote, BlockBytes(cs[0]))] + BlockFrames(local, remote, cs[1..])
  }

  lemma {:induction false} BlockFramesAppend(local: u32, remote: u32, cs: seq<Chunk>, c: Chunk)
    ensures BlockFrames(local, remote, cs + [c])
         == BlockFrames(local, remote, cs) + [DataFrame(WRTE, local, remote, BlockBytes(c))]
  {
    if cs != [] {
      assert (cs + [c])[1..] == cs[1..] + [c];
      BlockFramesAppend(local, remote, cs[1..], c);
    }
  }

  /** What the stream on the device reads of the blocks: their bytes, one WRTE for each. */
  lemma {:induction false} BlocksArrive(local: u32, remote: u32, cs: seq<Chunk>)
    ensures OwnPayload(remote, BlockFrames(local, remote, cs)) == BlocksBytes(cs)
    ensures OwnWrites(remote, BlockFrames(local, remote, cs)) == |cs|
  {
    if cs != [] {
      BlocksArrive(local, remote, cs[1..]);
    }
  }

  /** Whether the largest block of a file fits one WRTE; the first block is the largest. */
  predicate BlocksFit(content: seq<byte>, maxData: u32)
  {
    content == [] || 8 + Min(MAX_CHUNK_SIZE, |content|) <= maxData
  }

  /** Every block fits if the first one does. */
  lemma LaterBlocksFit(content: seq<byte>, offset: nat, maxData: u32)
    requires offset < |content|
    ensures BlocksFit(content, maxData) ==> 8 + Min(MAX_CHUNK_SIZE, |content| - offset) <= maxData
    ensures offset == 0 ==> (BlocksFit(content, maxData) <==> 8 + Min(MAX_CHUNK_SIZE, |content|) <= maxData)
  {
  }

  /** One turn of the sending loop moves one block from what is left of the file to what is done. */
  lemma NextBlock(content: seq<byte>, offset: nat, done: seq<Chunk>)
    requires offset < |content|
    ensures var count := Min(MAX_CHUNK_SIZE, |content| - offset);
            var chunk := content[offset..offset + count];
            done + Blocks(content[offset..]) == done + [chunk] + Blocks(content[offset + count..])
  {
    var count := Min(MAX_CHUNK_SIZE, |content| - offset);
    assert content[offset..][..count] == content[offset..offset + count];
    assert content[offset..][count..] == content[offset + count..];
  }

  /** Sends one DATA block, behind those already sent. */
  method SendBlock(s: Stream, chunk: Chunk, ghost base: seq<Frame>, ghost done: seq<Chunk>) returns (r: Status)
    requires !s.connection.session.closed ==> s.Link().sent == base + BlockFrames(s.localId, s.remoteId, done)
    modifies s.connection.session.transport
    ensures s.Link().faults >= old(s.Link().faults) && s.connection.Box() == old(s.connection.Box())
    ensures s.Link().received == old(s.Link().received)
    ensures r.Ok? ==> s.Link().faults == old(s.Link().faults) && !s.connection.session.closed
    ensures r.Ok? ==> 8 + |chunk| <= s.connection.maxData
    ensures r.Ok? ==> s.Link().sent == base + BlockFrames(s.localId, s.remoteId, done + [chunk])
    ensures r.Err? && s.Link().faults == old(s.Link().faults) && !s.connection.session.closed ==>
              r == Err(WRITE_TOO_LARGE) && 8 + |chunk| > s.connection.maxData && s.Link().sent == old(s.Link().sent)
  {
    BlockFramesAppend(s.localId, s.remoteId, done, chunk);
    r := s.Write(BlockBytes(chunk));
  }

  /** The sending loop: the file is read 64 KiB at a time, and each piece goes out as one DATA block in one WRTE. */
  method SendContent(s: Stream, content: seq<byte>) returns (r: Status)
    modifies s.connection.session.transport
    ensures s.Link().faults >= old(s.Link().faults) && s.connection.Box() == old(s.connection.Box())
    ensures s.Link().received == old(s.Link().received) && (r.Ok? ==> s.Link().faults == old(s.Link().faults))
    ensures s.Link().faults == old(s.Link().faults) && !s.connection.session.closed ==>
              && (r.Ok? <==> BlocksFit(content, s.connection.maxData))
              && (r.Err? ==> r == Err(WRITE_TOO_LARGE) && s.Link().sent == old(s.Link().sent))
              && (r.Ok? ==> s.Link().sent
                            == old(s.Link().sent) + BlockFrames(s.localId, s.remoteId, Blocks(content)))
  {
    var offset, more := 0, true;
    ghost var base, done: seq<Chunk> := s.Link().sent, [];
    while more
      invariant offset <= |content|
      invariant Blocks(content) == done + Blocks(content[offset..])
      invariant !more ==> offset == |content|
      invariant if offset == 0 then done == [] else BlocksFit(content, s.connection.maxData)
      invariant s.connection.Box() == old(s.connection.Box()) && s.Link().received == old(s.Link().received)
      invariant s.Link().faults == old(s.Link().faults)
      invariant !s.connection.session.closed ==>
                  s.Link().sent == base + BlockFrames(s.localId, s.remoteId, done)
      decreases more, |content| - offset
    {
      var count := Min(MAX_CHUNK_SIZE, |content| - offset);
      more := count == MAX_CHUNK_SIZE;
      if count <= 0 {
        break;
      }
      var chunk := content[offset..offset + count];
      NextBlock(content, offset, done);
      r := SendBlock(s, chunk, base, done);
      if r.Err? {
        LaterBlocksFit(content, offset, s.connection.maxData);
        return;
      }
      done := done + [chunk];
      offset := offset + count;
    }
    assert Blocks(content) == done by { assert done + [] == done; }
    r := Ok(());
  }

  /** The frames that carry a file and its end. */
  function FileFrames(local: u32, remote: u32, content: seq<byte>, mtime: u32): seq<Frame>
  {
    BlockFrames(local, remote, Blocks(content)) + [DataFrame(WRTE, local, remote, DoneBytes(mtime))]
  }

  /** What the stream on the device reads of a file: its blocks, and then DONE with the time. */
  lemma FileArrives(local: u32, remote: u32, content: seq<byte>, mtime: u32)
    ensures OwnPayload(remote, FileFrames(local, remote, content, mtime))
            == BlocksBytes(Blocks(content)) + DoneBytes(mtime)
  {
    var blocks, done := BlockFrames(local, remote, Blocks(content)), DataFrame(WRTE, local, remote, DoneBytes(mtime));
    BlocksArrive(local, remote, Blocks(content));
    OwnPayloadAppend(remote, blocks, [done]);
    assert OwnPayload(remote, [done]) == DoneBytes(mtime) + OwnPayload(remote, []) == DoneBytes(mtime) + [];
  }

  /** What is sent behind the SEND request: nothing at all when the first block is too large. */
  function Sending(x: Setup, content: seq<byte>, mtime: u32): seq<Frame>
  {
    if Greeting(x).Opened? && BlocksFit(content, x.maxData)
    then FileFrames(x.nextId, Greeting(x).remote, content, mtime)
    else []
  }

  /** A push succeeds when every block fits the device's maximum payload and the device acknowledges the DONE. */
  function SendOutcome(x: Setup, content: seq<byte>): Outcome<()>
  {
    if BlocksFit(content, x.maxData) then StatusAt(Says(x)) else Outcome(Err(WRITE_TOO_LARGE), Says(x))
  }

  /** Sends the file and its end. */
  method SendAll(s: Stream, content: seq<byte>, mtime: u32) returns (r: Status)
    requires s.connection.maxData >= REQUEST_SIZE && !s.connection.session.closed
    modifies s.connection.session.transport
    ensures s.Link().faults >= old(s.Link().faults) && (r.Ok? ==> s.Link().faults == old(s.Link().faults))
    ensures s.connection.Box() == old(s.connection.Box()) && s.Link().received == old(s.Link().received)
    ensures s.Link().faults == old(s.Link().faults) ==>
              if BlocksFit(content, s.connection.maxData)
              then r.Ok? && s.Link().sent == old(s.Link().sent) + FileFrames(s.localId, s.remoteId, content, mtime)
              else r == Err(WRITE_TOO_LARGE) && s.Link().sent == old(s.Link().sent)
  {
    ghost var before, blocks := s.Link().sent, BlockFrames(s.localId, s.remoteId, Blocks(content));
    r := SendContent(s, content);
    if r.Err? {
      return;
    }
    ghost var done := [DataFrame(WRTE, s.localId, s.remoteId, DoneBytes(mtime))];
    r := s.Write(DoneBytes(mtime));
    assert before + blocks + done == before + (blocks + done);
  }

  /** Sends the file, and reads the device's word on it. */
  method Deposit(s: Stream, content: seq<byte>, mtime: u32, ghost x: Setup, ghost request: seq<byte>)
    returns (r: Status)
    requires Awaits(s, x, request, []) && REQUEST_SIZE <= |request|
    modifies s`closed, s`incoming, s`offset, s.connection.session`closed, s.connection.session.transport
    ensures s.Link().faults >= old(s.Link().faults) && (r.Ok? ==> s.Link().faults == old(s.Link().faults))
    ensures s.Link().faults == old(s.Link().faults) ==>
              ReplyTaken(x, request, Sending(x, content, mtime), SendOutcome(x, content), s.Now(), r)
  {
    ghost var front := s.Link().sent;
    r := SendAll(s, content, mtime);
    ghost var m := s.Now();
    JustNow(s.localId, s.Ack(), m);
    ghost var base := x.sent + Asking(x.delayedAck, x.nextId, s.remoteId, request);
    assert base + [] == base;
    if r.Ok? {
      r := ReadStatus(s, m);
    }
    if s.Link().faults == old(s.Link().faults) {
      assert Asked(x, request, Sending(x, content, mtime), m);
      ReplyIsRead(x, request, Sending(x, content, mtime), m, s.Now(), SendOutcome(x, content), r);
    }
  }

  /** The sending half of a push, from the SEND request on; `spec` is the destination, a comma and the mode. */
  method SendFile(c: Connection, spec: seq<byte>, content: seq<byte>, mtime: u32) returns (r: Status)
    modifies c`nextLocalId, c.session`closed, c.session.transport
    ensures c.Link().faults >= old(c.Link().faults)
    ensures r.Ok? || c.Link().faults == old(c.Link().faults) ==>
              var request, x := Request(SEND_V1, spec), old(At(c));
              Concluded(x, request, Sending(x, content, mtime), SendOutcome(x, content), At(c), r)
  {
    ghost var x, request := At(c), Request(SEND_V1, spec);
    var stream := BeginRequest(c, Request(SEND_V1, spec));
    if stream.Err? {
      if c.Link().faults == old(c.Link().faults) {
        RefusalConcludes(x, request, Sending(x, content, mtime), SendOutcome(x, content), At(c));
      }
      return Err(stream.error);
    }
    r := Deposit(stream.value, content, mtime, x, request);
    r := Finish(stream.value, r, c.Link().faults == old(c.Link().faults),
                x, request, Sending(x, content, mtime), SendOutcome(x, content));
  }

  /** A number in decimal. */
  function Decimal(n: nat): string
  {
    if n < 10 then [DIGITS[n]] else Decimal(n / 10) + [DIGITS[n % 10]]
  }

  const DIGITS := "0123456789"

  // What a device makes of the destination and the mode.

  /** The number that a text of digits spells. */
  function Spelled(s: seq<byte>): nat
  {
    if s == [] then 0 else 10 * Spelled(s[..|s| - 1]) + if s[|s| - 1] >= 48 then s[|s| - 1] - 48 else 0
  }

  predicate AllDigits(s: seq<byte>) { s != [] && forall c <- s :: 48 <= c <= 57 }

  /** The decimal text of a number reads back as the number. */
  lemma {:induction false} DecimalIsSpelled(n: nat)
    ensures AllDigits(Ascii(Decimal(n))) && Spelled(Ascii(Decimal(n))) == n
  {
    var text := Ascii(Decimal(n));
    DigitIs(n % 10);
    if n < 10 {
      assert text == Ascii([DIGITS[n]]) && text[..0] == [];
      assert Spelled([]) == 0;
    } else {
      DecimalIsSpelled(n / 10);
      assert text == Ascii(Decimal(n / 10)) + Ascii([DIGITS[n % 10]]);
      assert text[..|text| - 1] == Ascii(Decimal(n / 10));
    }
  }

  lemma DigitIs(d: nat)
    requires d < 10
    ensures Ascii([DIGITS[d]]) == [48 + d]
  {
  }

  /** Splits at the last comma: the destination, and the mode behind it. */
  function Split(spec: seq<byte>): Option<(seq<byte>, seq<byte>)>
  {
    if spec == [] then None
    else if spec[|spec| - 1] == 44 then Some((spec[..|spec| - 1], []))
    else
      match Split(spec[..|spec| - 1])
      case None => None
      case Some((path, mode)) => Some((path, mode + [spec[|spec| - 1]]))
  }

  lemma {:induction false} SplitBehindComma(path: seq<byte>, digits: seq<byte>)
    requires forall c <- digits :: c != 44
    ensures Split(path + [44] + digits) == Some((path, digits))
  {
    var spec := path + [44] + digits;
    if digits == [] {
      assert spec == path + [44] && spec[..|spec| - 1] == path;
    } else {
      var init, last := digits[..|digits| - 1], digits[|digits| - 1];
      assert digits == init + [last] && last in digits && forall c <- init :: c in digits;
      assert spec[..|spec| - 1] == path + [44] + init && spec[|spec| - 1] == last;
      SplitBehindComma(path, init);
    }
  }

  /** The file type bits of a mode say directory. */
  predicate IsDirectory(a: FileStat) { a.mode / 0x1000 % 0x10 == 4 }

  predicate IntoDirectory(existing: Option<FileStat>) { existing.Some? && IsDirectory(existing.value) }

  /** A destination that is an existing directory receives the file under its local name. */
  function SendSpec(path: seq<byte>, name: seq<byte>, mode: u32, existing: Option<FileStat>): seq<byte>
  {
    (if IntoDirectory(existing) then path + Ascii("/") + name else path) + Ascii("," + Decimal(mode))
  }

  /**
   The device reads the destination and the mode back: the path, with a slash and the name behind it if it is a
   directory, and the number.
   */
  lemma SpecIsRead(path: seq<byte>, name: seq<byte>, mode: u32, existing: Option<FileStat>)
    ensures var digits := Ascii(Decimal(mode));
            && Split(SendSpec(path, name, mode, existing))
               == Some((if existing.Some? && existing.value.mode / 0x1000 % 0x10 == 4 then path + [47] + name else path,
                        digits))
            && AllDigits(digits) && Spelled(digits) == mode
  {
    var digits := Ascii(Decimal(mode));
    var target := if IntoDirectory(existing) then path + Ascii("/") + name else path;
    DecimalIsSpelled(mode);
    assert Ascii("/") == [47];
    CommaDecimal(mode);
    Regroup(target, [44], digits);
    SplitBehindComma(target, digits);
  }

  lemma CommaDecimal(mode: u32)
    ensures Ascii("," + Decimal(mode)) == [44] + Ascii(Decimal(mode))
  {
  }

  /** A request within the protocol's limit on the path it carries. */
  predicate WithinLimit(request: seq<byte>) { |request| <= REQUEST_SIZE + MAX_PATH_LENGTH }

  /** What a caller can check before a push: there is room for the name, if it is needed, and for the mode. */
  predicate SpecFits(path: seq<byte>, name: seq<byte>, mode: u32, existing: Option<FileStat>)
  {
    |path| + (if IntoDirectory(existing) then 1 + |name| else 0) + 1 + |Decimal(mode)| <= MAX_PATH_LENGTH
  }

  /** The limit is checked on the path alone. The SEND request keeps it if and only if what is added fits too. */
  lemma SendWithinLimitIff(path: seq<byte>, name: seq<byte>, mode: u32, existing: Option<FileStat>)
    ensures WithinLimit(Request(SEND_V1, SendSpec(path, name, mode, existing)))
       <==> SpecFits(path, name, mode, existing)
  {
    var digits := Decimal(mode);
    assert |Ascii("," + digits)| == 1 + |digits|;
  }

  /** A path of exactly 1024 bytes is one that passes a push's own check and makes its SEND request too long. */
  lemma PathAtLimitOverflows(name: seq<byte>, mode: u32, existing: Option<FileStat>)
    ensures var path := seq(MAX_PATH_LENGTH, _ => 0x61);
            && |path| <= MAX_PATH_LENGTH
            && WithinLimit(StatRequest(true, path)) && WithinLimit(StatRequest(false, path))
            && !WithinLimit(Request(SEND_V1, SendSpec(path, name, mode, existing)))
  {
    SendWithinLimitIff(seq(MAX_PATH_LENGTH, _ => 0x61), name, mode, existing);
  }

  /** The requests a push has sent: the frames behind the OPENs of its two streams. */
  lemma RequestIsSent<T>(x: Setup, request: seq<byte>, more: seq<Frame>, o: Outcome<T>, x': Setup)
    requires Begins(x, request) && Performed(x, request, more, o, x')
    ensures |x.sent| + 1 < |x'.sent|
    ensures x'.sent[|x.sent| + 1] == DataFrame(WRTE, x.nextId, Greeting(x).remote, request)
  {
  }

  /** The frame of the SEND request went out, and it is within the limit exactly if the extended path is. */
  ghost predicate SendsAt(sent: seq<Frame>, at: nat, request: seq<byte>, fits: bool)
  {
    && at < |sent| && sent[at].header.command == WRTE && sent[at].payload == request
    && (WithinLimit(sent[at].payload) <==> fits)
  }

  /**
   The v1 push of a local file called `name`: looks at the destination first, and then sends. `middle` is the
   connection between the two: the sending starts on what the look left in the inbox.
   */
  method Push(c: Connection, path: seq<byte>, name: seq<byte>, mode: u32, content: seq<byte>, mtime: u32)
    returns (r: Status, ghost middle: Setup)
    modifies c`nextLocalId, c.session`closed, c.session.transport
    ensures |path| > MAX_PATH_LENGTH ==> r == Err(PATH_TOO_LONG)
    ensures |path| <= MAX_PATH_LENGTH && (r.Ok? || c.Link().faults == old(c.Link().faults)) ==>
              var v2, x := c.SupportsFeature("stat_v2"), old(At(c));
              var found := Answer(x, StatRequest(v2, path), StatOutcome(v2, x));
              && Concluded(x, StatRequest(v2, path), [], StatOutcome(v2, x), middle, found)
              && match found
                 case Err(e) => r == Err(e) && At(c) == middle
                 case Ok(existing) =>
                   var request := Request(SEND_V1, SendSpec(path, name, mode, existing));
                   && Concluded(middle, request, Sending(middle, content, mtime), SendOutcome(middle, content),
                                At(c), r)
                   && (Begins(middle, request) ==>
                         SendsAt(c.Link().sent, |middle.sent| + 1, request, SpecFits(path, name, mode, existing)))
  {
    var existing := Stat(c, path);
    middle := At(c);
    if existing.Err? {
      return Err(existing.error), middle;
    }
    r := SendFile(c, SendSpec(path, name, mode, existing.value), content, mtime);
    SendWithinLimitIff(path, name, mode, existing.value);
    ghost var request := Request(SEND_V1, SendSpec(path, name, mode, existing.value));
    if Begins(middle, request) && (r.Ok? || c.Link().faults == old(c.Link().faults)) {
      RequestIsSent(middle, request, Sending(middle, content, mtime), SendOutcome(middle, content), At(c));
    }
  }
}
