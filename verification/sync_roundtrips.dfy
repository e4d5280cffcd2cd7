/** What the two sides of the sync protocol make of each other's bytes: listings, transfers and their alignment. */
module SyncRoundTrips {
  import opened Bytes
  import opened Results
  import opened SyncProtocol

  // ----- listings

  /** A directory entry as the device knows it. */
  datatype Listed = Listed(attributes: Attributes, name: seq<byte>)

  ghost predicate Writable(v2: bool, l: Listed) { (v2 || FitsV1(l.attributes)) && |l.name| < WORD }

  function DentBytes(v2: bool, l: Listed): seq<byte>
    requires Writable(v2, l)
  {
    Le32(DentId(v2)) + (StatBytes(v2, l.attributes) + Le32(|l.name|)) + l.name
  }

  /** A directory entry on the wire: its id, its metadata, the length of its name, and its name. */
  lemma DentLayout(v2: bool, l: Listed)
    requires Writable(v2, l)
    ensures var b, at := DentBytes(v2, l), if v2 then 72 else 16;
            && |b| == at + 4 + |l.name|
            && b[..4] == Ascii(if v2 then "DNT2" else "DENT") && b[4..at] == StatBytes(v2, l.attributes)
            && U32At(b, at) == |l.name| && b[at + 4..] == l.name
  {
    IdsAreNames();
    var b, at := DentBytes(v2, l), if v2 then 72 else 16;
    assert b[at..at + 4] == Le32(|l.name|);
    Le32RoundTrip(b, at, |l.name|);
  }

  function ListingBytes(v2: bool, ls: seq<Listed>): seq<byte>
    requires forall l <- ls :: Writable(v2, l)
  {
    if ls == [] then [] else DentBytes(v2, ls[0]) + ListingBytes(v2, ls[1..])
  }

  /** DONE is a whole entry in size; what its body holds does not matter. */
  function DoneDent(body: seq<byte>): seq<byte> { Le32(DONE) + body }

  function EntryOf(l: Listed): DirEntry
  {
    DirEntry(l.name, l.attributes.mode, l.attributes.size, l.attributes.mtime)
  }

  /** The entries a listing shows: v2 marks those that could not be read, and they are left out. */
  function Shown(v2: bool, ls: seq<Listed>): seq<DirEntry>
  {
    if ls == [] then []
    else (if v2 && ls[0].attributes.error != 0 then [] else [EntryOf(ls[0])]) + Shown(v2, ls[1..])
  }

  /** What a record for `l` says, given its body. */
  function RecordFor(v2: bool, l: Listed, tail: seq<byte>): Outcome<Record>
  {
    if |l.name| > MAX_NAME_LENGTH then Outcome(Err(NAME_TOO_LONG), l.name + tail)
    else Outcome(Ok(if v2 && l.attributes.error != 0 then Unreadable else Entry(EntryOf(l))), tail)
  }

  lemma DentBodyRead(v2: bool, l: Listed, tail: seq<byte>)
    requires Writable(v2, l)
    ensures RecordOf(v2, DentId(v2), StatBytes(v2, l.attributes) + Le32(|l.name|), l.name + tail)
         == RecordFor(v2, l, tail)
  {
    var body, behind := StatBytes(v2, l.attributes) + Le32(|l.name|), l.name + tail;
    assert body[|body| - 4..] == Le32(|l.name|);
    Le32RoundTrip(body, |body| - 4, |l.name|);
    MetaRoundTrip(v2, l.attributes, Le32(|l.name|));
    assert behind[..|l.name|] == l.name && behind[|l.name|..] == tail;
  }

  /** A response is read as its id, its body and what is behind. */
  lemma ResponseRead(v2: bool, id: u32, body: seq<byte>, behind: seq<byte>)
    requires id != FAIL && |body| == DentBody(v2)
    ensures RecordAt(v2, Le32(id) + body + behind) == RecordOf(v2, id, body, behind)
  {
    var p := Le32(id) + body + behind;
    assert p[0..4] == Le32(id) && p[4..4 + |body|] == body && p[4 + |body|..] == behind;
    Le32RoundTrip(p, 0, id);
  }

  lemma DentIsRecord(v2: bool, l: Listed, tail: seq<byte>)
    requires Writable(v2, l)
    ensures RecordAt(v2, DentBytes(v2, l) + tail) == RecordFor(v2, l, tail)
  {
    var id, body := Le32(DentId(v2)), StatBytes(v2, l.attributes) + Le32(|l.name|);
    assert id + body + l.name + tail == id + body + (l.name + tail);
    ResponseRead(v2, DentId(v2), body, l.name + tail);
    DentBodyRead(v2, l, tail);
  }

  lemma ListingOfDent(v2: bool, l: Listed, rest: seq<byte>)
    requires Writable(v2, l)
    ensures ListingAt(v2, DentBytes(v2, l) + rest)
         == if |l.name| > MAX_NAME_LENGTH then Outcome(Err(NAME_TOO_LONG), l.name + rest)
            else if v2 && l.attributes.error != 0 then ListingAt(v2, rest)
            else Prepend([EntryOf(l)], ListingAt(v2, rest))
  {
    DentIsRecord(v2, l, rest);
    ListingStep(v2, DentBytes(v2, l) + rest);
  }

  /** Every name fits, so the listing shows its readable entries; or one does not, and the listing fails. */
  ghost predicate Told(v2: bool, ls: seq<Listed>, tail: seq<byte>, o: Outcome<seq<DirEntry>>)
  {
    if forall l <- ls :: |l.name| <= MAX_NAME_LENGTH then o == Outcome(Ok(Shown(v2, ls)), tail)
    else o.Outcome? && o.result == Err(NAME_TOO_LONG)
  }

  lemma {:induction false} ListingIsTold(v2: bool, ls: seq<Listed>, done: seq<byte>, tail: seq<byte>)
    requires forall l <- ls :: Writable(v2, l)
    requires ListingAt(v2, done) == Outcome(Ok([]), tail)
    ensures Told(v2, ls, tail, ListingAt(v2, ListingBytes(v2, ls) + done))
  {
    if ls == [] {
      assert ListingBytes(v2, ls) + done == done;
    } else {
      var rest := ListingBytes(v2, ls[1..]) + done;
      assert ListingBytes(v2, ls) + done == DentBytes(v2, ls[0]) + rest;
      ListingOfDent(v2, ls[0], rest);
      ListingIsTold(v2, ls[1..], done, tail);
      if |ls[0].name| <= MAX_NAME_LENGTH {
        TellsFirst(v2, ls, tail, ListingAt(v2, rest));
      }
    }
  }

  lemma TellsFirst(v2: bool, ls: seq<Listed>, tail: seq<byte>, o: Outcome<seq<DirEntry>>)
    requires ls != [] && Told(v2, ls[1..], tail, o) && |ls[0].name| <= MAX_NAME_LENGTH
    ensures Told(v2, ls, tail, if v2 && ls[0].attributes.error != 0 then o else Prepend([EntryOf(ls[0])], o))
  {
    assert forall l :: l in ls <==> l == ls[0] || l in ls[1..];
    assert [] + Shown(v2, ls[1..]) == Shown(v2, ls[1..]);
  }

  /**
   Listing round trip and alignment. A listing of any entries yields exactly the readable ones, in order and with
   their full metadata, and the cursor ends on the byte after DONE; unless a name is longer than 255 bytes, which
   fails the listing.
   */
  lemma ListingRoundTrip(v2: bool, ls: seq<Listed>, body: seq<byte>, tail: seq<byte>)
    requires (forall l <- ls :: Writable(v2, l)) && |body| == DentBody(v2)
    ensures Told(v2, ls, tail, ListingAt(v2, ListingBytes(v2, ls) + (DoneDent(body) + tail)))
  {
    var done := DoneDent(body) + tail;
    ResponseRead(v2, DONE, body, tail);
    ListingStep(v2, done);
    ListingIsTold(v2, ls, done, tail);
  }

  /** Entries at the front of a listing are shown, whatever comes behind them. */
  lemma {:induction false} ListingBehind(v2: bool, ls: seq<Listed>, behind: seq<byte>)
    requires forall l <- ls :: Writable(v2, l) && |l.name| <= MAX_NAME_LENGTH
    ensures ListingAt(v2, ListingBytes(v2, ls) + behind) == Prepend(Shown(v2, ls), ListingAt(v2, behind))
  {
    var o := ListingAt(v2, behind);
    if ls == [] {
      assert ListingBytes(v2, ls) + behind == behind;
      assert Succeeds(o) ==> [] + o.result.value == o.result.value;
    } else {
      var rest := ListingBytes(v2, ls[1..]) + behind;
      assert ListingBytes(v2, ls) + behind == DentBytes(v2, ls[0]) + rest;
      ListingOfDent(v2, ls[0], rest);
      ListingBehind(v2, ls[1..], behind);
      if Succeeds(o) {
        Regroup([EntryOf(ls[0])], Shown(v2, ls[1..]), o.result.value);
      }
      assert [] + Shown(v2, ls[1..]) == Shown(v2, ls[1..]);
    }
  }

  /** A listing that the device rejects, at once or after some entries, fails with the device's reason. */
  lemma ListingRejected(v2: bool, ls: seq<Listed>, reason: seq<byte>, tail: seq<byte>)
    requires (forall l <- ls :: Writable(v2, l) && |l.name| <= MAX_NAME_LENGTH) && |reason| < WORD
    ensures ListingAt(v2, ListingBytes(v2, ls) + (FailBytes(reason) + tail)) == Outcome(Err(Rejection(reason)), tail)
  {
    ListingBehind(v2, ls, FailBytes(reason) + tail);
    RejectionIsReported(v2, reason, tail);
    ListingStep(v2, FailBytes(reason) + tail);
  }

  /** Where the v1 form has room, both forms of a listing give the same result and, on success, the same end. */
  lemma {:induction false} ListingFormsAgree(ls: seq<Listed>, b1: seq<byte>, b2: seq<byte>, tail: seq<byte>)
    requires forall l <- ls :: Writable(false, l) && l.attributes.error == 0
    requires |b1| == DentBody(false) && |b2| == DentBody(true)
    ensures var v1 := ListingAt(false, ListingBytes(false, ls) + (DoneDent(b1) + tail));
            var v2 := ListingAt(true, ListingBytes(true, ls) + (DoneDent(b2) + tail));
            && v1.Outcome? && v2.Outcome? && v1.result == v2.result
            && (v1.result.Ok? ==> v1.rest == v2.rest == tail)
  {
    ListingRoundTrip(false, ls, b1, tail);
    ListingRoundTrip(true, ls, b2, tail);
    ShownAgree(ls);
  }

  lemma {:induction false} ShownAgree(ls: seq<Listed>)
    requires forall l <- ls :: l.attributes.error == 0
    ensures Shown(false, ls) == Shown(true, ls)
  {
    if ls != [] {
      ShownAgree(ls[1..]);
    }
  }

  // ----- transfers

  /** What one DATA record can carry. */
  type Chunk = c: seq<byte> | |c| <= MAX_CHUNK_SIZE

  /** A file cut into chunks of at most 64 KiB. */
  function Blocks(content: seq<byte>): seq<Chunk>
  {
    if content == [] then []
    else var n := Min(MAX_CHUNK_SIZE, |content|); [content[..n]] + Blocks(content[n..])
  }

  /** None is empty, all but the last are full, there are just enough of them, and together they are the file. */
  lemma {:induction false} BlocksShape(content: seq<byte>)
    ensures Flatten(Blocks(content)) == content
    ensures |Blocks(content)| == (|content| + MAX_CHUNK_SIZE - 1) / MAX_CHUNK_SIZE
    ensures forall i :: 0 <= i < |Blocks(content)| ==> 0 < |Blocks(content)[i]|
    ensures forall i :: 0 <= i < |Blocks(content)| - 1 ==> |Blocks(content)[i]| == MAX_CHUNK_SIZE
    decreases |content|
  {
    if content != [] {
      var n := Min(MAX_CHUNK_SIZE, |content|);
      BlocksShape(content[n..]);
      assert content == content[..n] + content[n..];
      assert Blocks(content)[1..] == Blocks(content[n..]);
      if n < |content| {
        assert |content[n..]| == |content| - MAX_CHUNK_SIZE;
      }
    }
  }

  function BlockBytes(chunk: Chunk): (r: seq<byte>)
    ensures |r| == 8 + |chunk|
  {
    Le32(DATA) + Le32(|chunk|) + chunk
  }

  function BlocksBytes(cs: seq<Chunk>): seq<byte>
  {
    if cs == [] then [] else BlockBytes(cs[0]) + BlocksBytes(cs[1..])
  }

  function DoneBytes(mtime: u32): seq<byte> { Le32(DONE) + Le32(mtime) }

  /** DATA and DONE as they are on the wire. */
  lemma TransferLayout(chunk: Chunk, mtime: u32)
    ensures BlockBytes(chunk)[..4] == Ascii("DATA") && U32At(BlockBytes(chunk), 4) == |chunk|
    ensures BlockBytes(chunk)[8..] == chunk
    ensures |DoneBytes(mtime)| == 8 && DoneBytes(mtime)[..4] == Ascii("DONE") && U32At(DoneBytes(mtime), 4) == mtime
  {
    TransferIdsAreNames();
    Le32RoundTrip(BlockBytes(chunk), 4, |chunk|);
    Le32RoundTrip(DoneBytes(mtime), 4, mtime);
  }

  lemma BlockIsChunk(chunk: Chunk, tail: seq<byte>)
    ensures ChunkAt(BlockBytes(chunk) + tail) == Outcome(Ok(Some(chunk)), tail)
  {
    var p := BlockBytes(chunk) + tail;
    assert p[0..4] == Le32(DATA) && p[4..8] == Le32(|chunk|);
    Le32RoundTrip(p, 0, DATA);
    Le32RoundTrip(p, 4, |chunk|);
    assert p[8..] == chunk + tail;
    assert (chunk + tail)[..|chunk|] == chunk && (chunk + tail)[|chunk|..] == tail;
  }

  lemma DoneIsEnd(mtime: u32, tail: seq<byte>)
    ensures ChunkAt(DoneBytes(mtime) + tail) == Outcome(Ok(None), tail)
  {
    var p := DoneBytes(mtime) + tail;
    assert p[0..4] == Le32(DONE) && p[8..] == tail;
    Le32RoundTrip(p, 0, DONE);
  }

  lemma TransferOfBlock(chunk: Chunk, tail: seq<byte>)
    ensures TransferAt(BlockBytes(chunk) + tail)
         == Transfer(chunk + TransferAt(tail).written, TransferAt(tail).outcome)
  {
    BlockIsChunk(chunk, tail);
    TransferStep(BlockBytes(chunk) + tail);
  }

  lemma TransferOfDone(mtime: u32, tail: seq<byte>)
    ensures TransferAt(DoneBytes(mtime) + tail) == Transfer([], Outcome(Ok(()), tail))
  {
    DoneIsEnd(mtime, tail);
    TransferStep(DoneBytes(mtime) + tail);
  }

  /** Chunks at the front of a transfer are written out, whatever comes behind them. */
  lemma {:induction false} TransferOfBlocks(cs: seq<Chunk>, tail: seq<byte>)
    ensures TransferAt(BlocksBytes(cs) + tail)
         == Transfer(Flatten(cs) + TransferAt(tail).written, TransferAt(tail).outcome)
  {
    if cs == [] {
      assert BlocksBytes(cs) + tail == tail;
    } else {
      var rest := BlocksBytes(cs[1..]) + tail;
      assert BlocksBytes(cs) + tail == BlockBytes(cs[0]) + rest;
      TransferOfBlock(cs[0], rest);
      TransferOfBlocks(cs[1..], tail);
    }
  }

  /** A transfer the device rejects, at once or after some chunks, keeps those and fails with the device's reason. */
  lemma TransferRejected(cs: seq<Chunk>, reason: seq<byte>, tail: seq<byte>)
    requires |reason| < WORD
    ensures TransferAt(BlocksBytes(cs) + (FailBytes(reason) + tail))
         == Transfer(Flatten(cs), Outcome(Err(Rejection(reason)), tail))
  {
    TransferOfBlocks(cs, FailBytes(reason) + tail);
    RejectionIsReported(false, reason, tail);
    TransferStep(FailBytes(reason) + tail);
    assert Flatten(cs) + [] == Flatten(cs);
  }

  /** What a push writes for a file, a pull reads back: the same content, up to the byte after DONE. */
  lemma TransferRoundTrip(content: seq<byte>, mtime: u32, tail: seq<byte>)
    ensures TransferAt(BlocksBytes(Blocks(content)) + (DoneBytes(mtime) + tail))
         == Transfer(content, Outcome(Ok(()), tail))
  {
    BlocksShape(content);
    TransferOfBlocks(Blocks(content), DoneBytes(mtime) + tail);
    TransferOfDone(mtime, tail);
    assert content + [] == content;
  }

  /** Whether `p` starts with a whole, well-sized DATA record. */
  predicate HasBlock(p: seq<byte>)
  {
    |p| >= 8 && U32At(p, 0) == DATA && U32At(p, 4) <= MAX_CHUNK_SIZE && 8 + U32At(p, 4) <= |p|
  }

  /** The DATA records at the front of arbitrary bytes. */
  function WholeBlocks(p: seq<byte>): seq<Chunk>
  {
    if HasBlock(p) then var n := 8 + U32At(p, 4); [p[8..n]] + WholeBlocks(p[n..]) else []
  }

  lemma BlockBytesOf(p: seq<byte>)
    requires HasBlock(p)
    ensures BlockBytes(p[8..8 + U32At(p, 4)]) == p[..8 + U32At(p, 4)]
  {
    U32RoundTrip(p, 0);
    U32RoundTrip(p, 4);
    assert p[..8] == p[0..4] + p[4..8];
  }

  lemma ChunkIffBlock(p: seq<byte>)
    ensures var r := ChunkAt(p);
            if HasBlock(p) then r == Outcome(Ok(Some(p[8..8 + U32At(p, 4)])), p[8 + U32At(p, 4)..])
            else Succeeds(r) ==> r.result == Ok(None) && |p| >= 8 && p[0..4] == Le32(DONE) && r.rest == p[8..]
  {
    if HasBlock(p) {
      var n := U32At(p, 4);
      assert p[8..][..n] == p[8..8 + n] && p[8..][n..] == p[8 + n..];
    } else if |p| >= 8 {
      U32RoundTrip(p, 0);
    }
  }

  lemma BlocksBytesCons(p: seq<byte>, n: nat, chunk: Chunk, others: seq<Chunk>)
    requires n <= |p| && BlockBytes(chunk) == p[..n]
    requires BlocksBytes(others) <= p[n..]
    ensures BlocksBytes([chunk] + others) <= p
    ensures p[|BlocksBytes([chunk] + others)|..] == p[n..][|BlocksBytes(others)|..]
  {
    assert ([chunk] + others)[1..] == others;
    PrefixBehind(p, n, BlocksBytes(others));
  }

  lemma {:induction false} WholeBlocksArePrefix(p: seq<byte>)
    ensures BlocksBytes(WholeBlocks(p)) <= p
    ensures !HasBlock(p[|BlocksBytes(WholeBlocks(p))|..])
    decreases |p|
  {
    if HasBlock(p) {
      var n := 8 + U32At(p, 4);
      WholeBlocksArePrefix(p[n..]);
      BlockBytesOf(p);
      BlocksBytesCons(p, n, p[8..n], WholeBlocks(p[n..]));
    } else {
      assert p[0..] == p;
    }
  }

  /**
   Accumulation, on arbitrary bytes: whether the transfer succeeds or fails, what has been written is exactly the
   DATA records fully read; and success means the bytes were those records, then DONE, and the cursor is behind it.
   */
  lemma TransferAccumulates(p: seq<byte>)
    ensures TransferAt(p).written == Flatten(WholeBlocks(p))
    ensures BlocksBytes(WholeBlocks(p)) <= p
    ensures var behind, o := p[|BlocksBytes(WholeBlocks(p))|..], TransferAt(p).outcome;
            Succeeds(o) ==> |behind| >= 8 && behind[0..4] == Le32(DONE) && o.rest == behind[8..]
  {
    WholeBlocksArePrefix(p);
    var blocks := WholeBlocks(p);
    var behind := p[|BlocksBytes(blocks)|..];
    assert p == BlocksBytes(blocks) + behind;
    TransferOfBlocks(blocks, behind);
    ChunkIffBlock(behind);
    TransferStep(behind);
    assert Flatten(blocks) + [] == Flatten(blocks);
  }
}
