/**
 Reading the sync protocol from a stream. Each method is told the moment `m` at which the reading began; while the link
 holds it yields what the functions of `SyncProtocol` say of the bytes pending, leaves the stream where they say, and
 sends nothing but acknowledgements.
 */
module SyncReading {
  import opened Bytes
  import opened Results
  import opened Wire
  import opened Delivery
  import opened Reading
  import opened Streams
  import opened SyncProtocol
  import opened SyncRoundTrips

  /** `n` bytes have been read since `m`, and `fs` received for them. */
  ghost predicate Stage(id: u32, ack: Frame, m: Moment, m': Moment, fs: seq<Frame>, n: nat)
  {
    && Took(id, ack, m, m', fs)
    && Drain(id, m.supply, n).Full? && Drain(id, m.supply, n).left == m'.supply
  }

  /** Nothing but reading has happened since `m`, and the link held. */
  ghost predicate Since(id: u32, ack: Frame, m: Moment, m': Moment)
  {
    exists fs, n :: Stage(id, ack, m, m', fs, n)
  }

  /** How the stream ends. */
  function EndOf(id: u32, m: Moment): Ending { Deliver(id, m.supply.box).ending }

  /** Reading since `m` has used up everything the device had for the stream. */
  ghost predicate RanDry(id: u32, ack: Frame, m: Moment, m': Moment)
  {
    exists fs :: Exhausted(id, ack, m, m', fs, ShortRead(EndOf(id, m)))
  }

  /** A reading that began at `m` has come to the outcome `o`, and `r` reports it. */
  ghost predicate Follows<T>(id: u32, ack: Frame, m: Moment, m': Moment, o: Outcome<T>, r: Result<T>)
  {
    && r == ResultOf(o, EndOf(id, m))
    && if o.RanOut? then RanDry(id, ack, m, m') else Since(id, ack, m, m') && Contents(id, m'.supply) == o.rest
  }

  lemma StageRead(id: u32, ack: Frame, m: Moment, a: Moment, b: Moment,
                  fs: seq<Frame>, n: nat, gs: seq<Frame>, k: nat, bytes: seq<byte>)
    requires Stage(id, ack, m, a, fs, n) && Took(id, ack, a, b, gs) && Drain(id, a.supply, k) == Full(bytes, b.supply)
    ensures Stage(id, ack, m, b, fs + gs, n + k)
    ensures TakeAt(Contents(id, a.supply), k) == Outcome(Ok(bytes), Contents(id, b.supply))
  {
    TookThen(id, ack, m, a, b, fs, gs);
    DrainTwice(id, m.supply, n, k);
    DrainSplits(id, a.supply, k);
  }

  lemma StageShort(id: u32, ack: Frame, m: Moment, a: Moment, b: Moment,
                   fs: seq<Frame>, n: nat, gs: seq<Frame>, k: nat, error: Error)
    requires Stage(id, ack, m, a, fs, n) && Exhausted(id, ack, a, b, gs, error) && Drain(id, a.supply, k) == Short
    ensures Exhausted(id, ack, m, b, fs + gs, error) && error == ShortRead(EndOf(id, m))
    ensures TakeAt(Contents(id, a.supply), k).RanOut?
  {
    ExhaustedThen(id, ack, m, a, b, fs, gs, error);
    DrainSplits(id, a.supply, k);
  }

  method Get(s: Stream, n: nat, ghost m: Moment) returns (r: Result<seq<byte>>)
    requires s.Valid() && Since(s.localId, s.Ack(), m, s.Now())
    modifies s`closed, s`incoming, s`offset, s.connection.session`closed, s.connection.session.transport
    ensures s.Valid() && s.Link().faults >= m.faults && (r.Ok? ==> s.Link().faults == m.faults)
    ensures s.Link().faults == m.faults ==> Follows(s.localId, s.Ack(), m, s.Now(), TakeAt(old(s.Pending()), n), r)
  {
    ghost var a := s.Now();
    ghost var fs, k :| Stage(s.localId, s.Ack(), m, a, fs, k);
    ghost var gs;
    r, gs := ReadBytes(s, n);
    if r.Ok? {
      StageRead(s.localId, s.Ack(), m, a, s.Now(), fs, k, gs, n, r.value);
    } else if s.Link().faults == m.faults {
      StageShort(s.localId, s.Ack(), m, a, s.Now(), fs, k, gs, n, r.error);
    }
  }

  /** Reads the reason behind a FAIL. */
  method SyncFail<T>(s: Stream, ghost m: Moment) returns (r: Result<T>)
    requires s.Valid() && Since(s.localId, s.Ack(), m, s.Now())
    modifies s`closed, s`incoming, s`offset, s.connection.session`closed, s.connection.session.transport
    ensures s.Valid() && s.Link().faults >= m.faults && (r.Ok? ==> s.Link().faults == m.faults)
    ensures s.Link().faults == m.faults ==> Follows(s.localId, s.Ack(), m, s.Now(), FailAt(old(s.Pending())), r)
    ensures r.Err?
  {
    ghost var p := s.Pending();
    var length := Get(s, 4, m);
    if length.Err? {
      return Err(length.error);
    }
    assert p[0..4] == length.value == length.value[0..4];
    r := ReadReason(s, U32At(length.value, 0), m);
  }

  method ReadReason<T>(s: Stream, n: u32, ghost m: Moment) returns (r: Result<T>)
    requires s.Valid() && Since(s.localId, s.Ack(), m, s.Now())
    modifies s`closed, s`incoming, s`offset, s.connection.session`closed, s.connection.session.transport
    ensures s.Valid() && s.Link().faults >= m.faults && (r.Ok? ==> s.Link().faults == m.faults)
    ensures s.Link().faults == m.faults ==> Follows(s.localId, s.Ack(), m, s.Now(), ReasonAt(old(s.Pending()), n), r)
    ensures r.Err?
  {
    var reason := Get(s, n, m);
    r := if reason.Err? then Err(reason.error)
         else Err(Error(ErrorCode.Device, "the sync request failed: " + Chars(reason.value)));
  }

  /** One response of a listing. */
  method ReadRecord(s: Stream, v2: bool, ghost m: Moment) returns (r: Result<Record>)
    requires s.Valid() && Since(s.localId, s.Ack(), m, s.Now())
    modifies s`closed, s`incoming, s`offset, s.connection.session`closed, s.connection.session.transport
    ensures s.Valid() && s.Link().faults >= m.faults && (r.Ok? ==> s.Link().faults == m.faults)
    ensures s.Link().faults == m.faults ==> Follows(s.localId, s.Ack(), m, s.Now(), RecordAt(v2, old(s.Pending())), r)
  {
    ghost var p := s.Pending();
    var idBytes := Get(s, 4, m);
    if idBytes.Err? {
      return Err(idBytes.error);
    }
    assert p[0..4] == idBytes.value == idBytes.value[0..4];
    var id := U32At(idBytes.value, 0);
    if id == FAIL {
      r := SyncFail(s, m);
      return;
    }
    var body := Get(s, DentBody(v2), m);
    if body.Err? {
      return Err(body.error);
    }
    assert p[4..][..DentBody(v2)] == p[4..4 + DentBody(v2)] && p[4..][DentBody(v2)..] == p[4 + DentBody(v2)..];
    r := ReadRecordBody(s, v2, id, body.value, m);
  }

  method ReadRecordBody(s: Stream, v2: bool, id: u32, body: seq<byte>, ghost m: Moment) returns (r: Result<Record>)
    requires |body| == DentBody(v2)
    requires s.Valid() && Since(s.localId, s.Ack(), m, s.Now())
    modifies s`closed, s`incoming, s`offset, s.connection.session`closed, s.connection.session.transport
    ensures s.Valid() && s.Link().faults >= m.faults && (r.Ok? ==> s.Link().faults == m.faults)
    ensures s.Link().faults == m.faults ==>
              Follows(s.localId, s.Ack(), m, s.Now(), RecordOf(v2, id, body, old(s.Pending())), r)
  {
    if id == DONE {
      return Ok(Last);
    }
    if id != DentId(v2) {
      return Err(UNEXPECTED_RESPONSE);
    }
    var nameLength := NameLength(v2, body);
    if nameLength > MAX_NAME_LENGTH {
      return Err(NAME_TOO_LONG);
    }
    var name := Get(s, nameLength, m);
    if name.Err? {
      return Err(name.error);
    }
    if v2 && U32At(body, 0) != 0 {
      return Ok(Unreadable);
    }
    var a := BodyMeta(v2, body);
    r := Ok(Entry(DirEntry(name.value, a.mode, a.size, a.mtime)));
  }

  /** The listing loop. */
  method ReadListing(s: Stream, v2: bool, ghost m: Moment) returns (r: Result<seq<DirEntry>>)
    requires s.Valid() && Since(s.localId, s.Ack(), m, s.Now())
    modifies s`closed, s`incoming, s`offset, s.connection.session`closed, s.connection.session.transport
    ensures s.Valid() && s.Link().faults >= m.faults && (r.Ok? ==> s.Link().faults == m.faults)
    ensures s.Link().faults == m.faults ==> Follows(s.localId, s.Ack(), m, s.Now(), ListingAt(v2, old(s.Pending())), r)
  {
    ghost var all := ListingAt(v2, s.Pending());
    var entries: seq<DirEntry> := [];
    assert Succeeds(all) ==> [] + all.result.value == all.result.value;
    while true
      invariant s.Valid() && Since(s.localId, s.Ack(), m, s.Now()) && s.Link().faults == m.faults
      invariant all == Prepend(entries, ListingAt(v2, s.Pending()))
      decreases |s.Pending()|
    {
      ListingStep(v2, s.Pending());
      ghost var o := RecordAt(v2, s.Pending());
      var record := ReadRecord(s, v2, m);
      if record.Err? {
        return Err(record.error);
      }
      if record.value.Last? {
        assert entries + [] == entries;
        return Ok(entries);
      }
      if record.value.Entry? {
        PrependTwice(entries, record.value.entry, ListingAt(v2, o.rest));
        entries := entries + [record.value.entry];
      }
    }
  }

  lemma PrependTwice<T>(front: seq<T>, x: T, o: Outcome<seq<T>>)
    ensures Prepend(front, Prepend([x], o)) == Prepend(front + [x], o)
  {
    if Succeeds(o) {
      assert front + ([x] + o.result.value) == front + [x] + o.result.value;
    }
  }

  /** One response of a RECV. */
  method ReadChunk(s: Stream, ghost m: Moment) returns (r: Result<Option<seq<byte>>>)
    requires s.Valid() && Since(s.localId, s.Ack(), m, s.Now())
    modifies s`closed, s`incoming, s`offset, s.connection.session`closed, s.connection.session.transport
    ensures s.Valid() && s.Link().faults >= m.faults && (r.Ok? ==> s.Link().faults == m.faults)
    ensures s.Link().faults == m.faults ==> Follows(s.localId, s.Ack(), m, s.Now(), ChunkAt(old(s.Pending())), r)
  {
    ghost var p := s.Pending();
    var idBytes := Get(s, 4, m);
    if idBytes.Err? {
      return Err(idBytes.error);
    }
    assert p[0..4] == idBytes.value == idBytes.value[0..4];
    var id := U32At(idBytes.value, 0);
    if id == FAIL {
      r := SyncFail(s, m);
      return;
    }
    var sizeBytes := Get(s, 4, m);
    if sizeBytes.Err? {
      return Err(sizeBytes.error);
    }
    assert p[4..8] == p[4..][..4] == sizeBytes.value == sizeBytes.value[0..4] && p[8..] == p[4..][4..];
    r := ReadChunkBody(s, id, U32At(sizeBytes.value, 0), m);
  }

  method ReadChunkBody(s: Stream, id: u32, size: u32, ghost m: Moment) returns (r: Result<Option<seq<byte>>>)
    requires s.Valid() && Since(s.localId, s.Ack(), m, s.Now())
    modifies s`closed, s`incoming, s`offset, s.connection.session`closed, s.connection.session.transport
    ensures s.Valid() && s.Link().faults >= m.faults && (r.Ok? ==> s.Link().faults == m.faults)
    ensures s.Link().faults == m.faults ==>
              Follows(s.localId, s.Ack(), m, s.Now(), ChunkOf(id, size, old(s.Pending())), r)
  {
    if id == DONE {
      return Ok(None);
    }
    if id != DATA {
      return Err(UNEXPECTED_RESPONSE);
    }
    if size > MAX_CHUNK_SIZE {
      return Err(CHUNK_TOO_LARGE);
    }
    var chunk := Get(s, size, m);
    r := if chunk.Err? then Err(chunk.error) else Ok(Some(chunk.value));
  }

  /** The file holds some of the whole chunks of a transfer, from the first on. */
  ghost predicate HoldsChunks(file: seq<byte>, p: seq<byte>)
  {
    exists k: nat :: k <= |WholeBlocks(p)| && file == Flatten(WholeBlocks(p)[..k])
  }

  /**
   The transfer loop: each chunk is written to the file as it arrives. However it ends, even by a failure of the link,
   the file holds whole chunks only.
   */
  method ReadTransfer(s: Stream, ghost m: Moment) returns (r: Status, file: seq<byte>)
    requires s.Valid() && Since(s.localId, s.Ack(), m, s.Now())
    modifies s`closed, s`incoming, s`offset, s.connection.session`closed, s.connection.session.transport
    ensures s.Valid() && s.Link().faults >= m.faults && (r.Ok? ==> s.Link().faults == m.faults)
    ensures s.Link().faults == m.faults ==>
              Follows(s.localId, s.Ack(), m, s.Now(), TransferAt(old(s.Pending())).outcome, r)
    ensures s.Link().faults == m.faults ==> file == TransferAt(old(s.Pending())).written
    ensures HoldsChunks(file, old(s.Pending()))
  {
    ghost var p := s.Pending();
    ghost var done: seq<Chunk> := [];
    file := [];
    ChunksSoFar(p, p, done);
    while true
      invariant s.Valid() && Since(s.localId, s.Ack(), m, s.Now()) && s.Link().faults == m.faults
      invariant Transferred(p, s.Pending(), done) && file == Flatten(done)
      decreases |s.Pending()|
    {
      ghost var here := s.Pending();
      TransferStep(here);
      ChunkIffBlock(here);
      var chunk := ReadChunk(s, m);
      if chunk.Err? || chunk.value.None? {
        TransferStops(p, here, done);
        r := if chunk.Err? then Err(chunk.error) else Ok(());
        return;
      }
      TransferGoesOn(p, here, done);
      FlattenAppend(done, [chunk.value.value]);
      assert Flatten([chunk.value.value]) == chunk.value.value;
      done, file := done + [chunk.value.value], file + chunk.value.value;
    }
  }

  /** The chunks `done` are the first of the transfer of `p`, and the rest of it is that of `here`. */
  ghost predicate Transferred(p: seq<byte>, here: seq<byte>, done: seq<Chunk>)
  {
    && WholeBlocks(p) == done + WholeBlocks(here)
    && TransferAt(p) == Transfer(Flatten(done) + TransferAt(here).written, TransferAt(here).outcome)
  }

  lemma ChunksSoFar(p: seq<byte>, here: seq<byte>, done: seq<Chunk>)
    requires done == [] && here == p
    ensures Transferred(p, here, done)
  {
    assert done + WholeBlocks(p) == WholeBlocks(p) && Flatten(done) + TransferAt(p).written == TransferAt(p).written;
  }

  lemma TransferGoesOn(p: seq<byte>, here: seq<byte>, done: seq<Chunk>)
    requires Transferred(p, here, done) && Succeeds(ChunkAt(here)) && ChunkAt(here).result.value.Some?
    ensures HasBlock(here) && |ChunkAt(here).result.value.value| <= MAX_CHUNK_SIZE
    ensures Transferred(p, ChunkAt(here).rest, done + [ChunkAt(here).result.value.value])
  {
    ChunkIffBlock(here);
    TransferStep(here);
    var chunk: Chunk, rest := ChunkAt(here).result.value.value, ChunkAt(here).rest;
    assert done + ([chunk] + WholeBlocks(rest)) == done + [chunk] + WholeBlocks(rest);
    FlattenAppend(done, [chunk]);
    assert Flatten([chunk]) == chunk;
    assert Flatten(done) + (chunk + TransferAt(rest).written) == Flatten(done) + chunk + TransferAt(rest).written;
  }

  lemma TransferStops(p: seq<byte>, here: seq<byte>, done: seq<Chunk>)
    requires Transferred(p, here, done)
    ensures HoldsChunks(Flatten(done), p)
    ensures !(Succeeds(ChunkAt(here)) && ChunkAt(here).result.value.Some?) ==> TransferAt(p).written == Flatten(done)
  {
    TransferStep(here);
    assert WholeBlocks(p)[..|done|] == done;
    assert Flatten(done) + [] == Flatten(done);
  }

  method ReadStat(s: Stream, v2: bool, ghost m: Moment) returns (r: Result<Option<FileStat>>)
    requires s.Valid() && Since(s.localId, s.Ack(), m, s.Now())
    modifies s`closed, s`incoming, s`offset, s.connection.session`closed, s.connection.session.transport
    ensures s.Valid() && s.Link().faults >= m.faults && (r.Ok? ==> s.Link().faults == m.faults)
    ensures s.Link().faults == m.faults ==> Follows(s.localId, s.Ack(), m, s.Now(), StatAt(v2, old(s.Pending())), r)
  {
    ghost var p := s.Pending();
    var idBytes := Get(s, 4, m);
    if idBytes.Err? {
      return Err(idBytes.error);
    }
    var body := Get(s, StatBody(v2), m);
    if body.Err? {
      return Err(body.error);
    }
    assert p[4..][..StatBody(v2)] == p[4..4 + StatBody(v2)] && p[4..][StatBody(v2)..] == p[4 + StatBody(v2)..];
    r := Ok(if Missing(v2, body.value) then None else Some(BodyMeta(v2, body.value)));
  }

  method ReadStatus(s: Stream, ghost m: Moment) returns (r: Status)
    requires s.Valid() && Since(s.localId, s.Ack(), m, s.Now())
    modifies s`closed, s`incoming, s`offset, s.connection.session`closed, s.connection.session.transport
    ensures s.Valid() && s.Link().faults >= m.faults && (r.Ok? ==> s.Link().faults == m.faults)
    ensures s.Link().faults == m.faults ==> Follows(s.localId, s.Ack(), m, s.Now(), StatusAt(old(s.Pending())), r)
  {
    ghost var p := s.Pending();
    var idBytes := Get(s, 4, m);
    if idBytes.Err? {
      return Err(idBytes.error);
    }
    assert p[0..4] == idBytes.value == idBytes.value[0..4];
    var id := U32At(idBytes.value, 0);
    if id == FAIL {
      r := SyncFail(s, m);
      return;
    }
    if id != OKAY {
      return Err(UNEXPECTED_RESPONSE);
    }
    var length := Get(s, 4, m);
    assert |p| >= 8 ==> p[4..][4..] == p[8..];
    r := if length.Err? then Err(length.error) else Ok(());
  }
}
