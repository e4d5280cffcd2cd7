/**
 The sync protocol as functions of the service bytes: what a listing, a transfer, a stat or a status reply says, and
 where it ends. The device's side, which writes these bytes, is modelled beside it.
 */
module SyncProtocol {
  import opened Bytes
  import opened Results
  import opened Wire
  import opened Delivery

  // Request and response ids: four ASCII characters, like the ADB commands. OKAY is shared with them.
  const LIST_V1: u32 := 0x5453_494c
  const LIST_V2: u32 := 0x3253_494c
  const DENT_V1: u32 := 0x544e_4544
  const DENT_V2: u32 := 0x3254_4e44
  const RECV_V1: u32 := 0x5643_4552
  const SEND_V1: u32 := 0x444e_4553
  const STAT_V2: u32 := 0x3241_5453
  const STAT_V1: u32 := 0x5441_5453
  const DATA: u32 := 0x4154_4144
  const DONE: u32 := 0x454e_4f44
  const FAIL: u32 := 0x4c49_4146
  const QUIT: u32 := 0x5449_5551

  /** An id is its name, on the wire. */
  lemma IdsAreNames()
    ensures Le32(LIST_V1) == Ascii("LIST") && Le32(LIST_V2) == Ascii("LIS2")
    ensures Le32(DENT_V1) == Ascii("DENT") && Le32(DENT_V2) == Ascii("DNT2")
    ensures Le32(STAT_V1) == Ascii("STAT") && Le32(STAT_V2) == Ascii("STA2")
  {
  }

  lemma TransferIdsAreNames()
    ensures Le32(RECV_V1) == Ascii("RECV") && Le32(SEND_V1) == Ascii("SEND") && Le32(QUIT) == Ascii("QUIT")
    ensures Le32(DATA) == Ascii("DATA") && Le32(DONE) == Ascii("DONE") && Le32(FAIL) == Ascii("FAIL")
  {
  }

  const REQUEST_SIZE: nat := 8
  const MAX_PATH_LENGTH: nat := 1024
  const MAX_NAME_LENGTH: nat := 255
  const MAX_CHUNK_SIZE: nat := 0x1_0000
  const DENT_V1_BODY: nat := 16
  const DENT_V2_BODY: nat := 72
  const STAT_V1_BODY: nat := 12
  const STAT_V2_BODY: nat := 68

  const UNEXPECTED_RESPONSE := Error(ErrorCode.Protocol, "unexpected sync response")
  const NAME_TOO_LONG := Error(ErrorCode.Protocol, "the entry name is longer than 255 bytes")
  const CHUNK_TOO_LARGE := Error(ErrorCode.Protocol, "the sync chunk is larger than 64 KiB")
  const PATH_TOO_LONG :=
    Error(InvalidArgument, "the path is longer than the sync limit of 1024 bytes")

  /**
   What a parse of the service bytes yields and the bytes behind it, whether it succeeds or fails; unless the bytes run
   out first.
   */
  datatype Outcome<+T> = Outcome(result: Result<T>, rest: seq<byte>) | RanOut

  predicate Succeeds<T>(o: Outcome<T>) { o.Outcome? && o.result.Ok? }

  /** What the caller is told: bytes that run out are reported by the way the stream ends. */
  function ResultOf<T>(o: Outcome<T>, end: Ending): Result<T>
  {
    if o.RanOut? then Err(ShortRead(end)) else o.result
  }

  /** The next `n` bytes. */
  function TakeAt(p: seq<byte>, n: nat): Outcome<seq<byte>>
  {
    if |p| < n then RanOut else Outcome(Ok(p[..n]), p[n..])
  }

  /** A FAIL, behind its id: the length of the reason, and the reason, which is the error. */
  function FailAt<T>(p: seq<byte>): (o: Outcome<T>)
    ensures !Succeeds(o)
  {
    if |p| < 4 then RanOut else ReasonAt(p[4..], U32At(p, 0))
  }

  function ReasonAt<T>(p: seq<byte>, n: u32): (o: Outcome<T>)
    ensures !Succeeds(o)
  {
    if |p| < n then RanOut
    else Outcome(Err(Error(ErrorCode.Device, "the sync request failed: " + Chars(p[..n]))), p[n..])
  }

  // ----- metadata

  datatype DirEntry = DirEntry(name: seq<byte>, mode: u32, size: u64, mtime: i64)

  datatype FileStat = FileStat(mode: u32, size: u64, mtime: i64)

  function BodyMeta(v2: bool, body: seq<byte>): FileStat
    requires |body| >= if v2 then STAT_V2_BODY else STAT_V1_BODY
  {
    if v2 then FileStat(U32At(body, 20), U64At(body, 36), Signed(U64At(body, 52)))
    else FileStat(U32At(body, 0), U32At(body, 4), U32At(body, 8))
  }

  // ----- listings

  datatype Record = Last | Entry(entry: DirEntry) | Unreadable

  function DentBody(v2: bool): nat { if v2 then DENT_V2_BODY else DENT_V1_BODY }

  function DentId(v2: bool): u32 { if v2 then DENT_V2 else DENT_V1 }

  function NameLength(v2: bool, body: seq<byte>): u32
    requires |body| == DentBody(v2)
  {
    U32At(body, if v2 then 68 else 12)
  }

  /** One response of a listing. The body of DONE is read like that of an entry. */
  function RecordAt(v2: bool, p: seq<byte>): (r: Outcome<Record>)
    ensures Succeeds(r) ==> |r.rest| < |p|
  {
    if |p| < 4 then RanOut
    else if U32At(p, 0) == FAIL then FailAt(p[4..])
    else if |p| < 4 + DentBody(v2) then RanOut
    else RecordOf(v2, U32At(p, 0), p[4..4 + DentBody(v2)], p[4 + DentBody(v2)..])
  }

  function RecordOf(v2: bool, id: u32, body: seq<byte>, p: seq<byte>): (r: Outcome<Record>)
    requires |body| == DentBody(v2)
    ensures r.Outcome? ==> |r.rest| <= |p|
  {
    if id == DONE then Outcome(Ok(Last), p)
    else if id != DentId(v2) then Outcome(Err(UNEXPECTED_RESPONSE), p)
    else if NameLength(v2, body) > MAX_NAME_LENGTH then Outcome(Err(NAME_TOO_LONG), p)
    else if |p| < NameLength(v2, body) then RanOut
    else
      var name, rest := p[..NameLength(v2, body)], p[NameLength(v2, body)..];
      if v2 && U32At(body, 0) != 0 then Outcome(Ok(Unreadable), rest)
      else
        var m := BodyMeta(v2, body);
        Outcome(Ok(Entry(DirEntry(name, m.mode, m.size, m.mtime))), rest)
  }

  /** A listing: the entries up to DONE, without those the device could not stat. */
  function ListingAt(v2: bool, p: seq<byte>): Outcome<seq<DirEntry>>
    decreases |p|, 2
  {
    if p == [] then RanOut else ListingFrom(v2, p)
  }

  function ListingFrom(v2: bool, p: seq<byte>): Outcome<seq<DirEntry>>
    decreases |p|, 1
  {
    if |p| < 4 then RanOut else ListingReply(v2, p)
  }

  function ListingReply(v2: bool, p: seq<byte>): Outcome<seq<DirEntry>>
    decreases |p|, 0
  {
    match RecordAt(v2, p)
    case RanOut => RanOut
    case Outcome(Err(e), rest) => Outcome(Err(e), rest)
    case Outcome(Ok(Last), rest) => Outcome(Ok([]), rest)
    case Outcome(Ok(Unreadable), rest) => ListingAt(v2, rest)
    case Outcome(Ok(Entry(e)), rest) => Prepend([e], ListingAt(v2, rest))
  }

  /** A listing is its first record, then the rest of the listing. */
  lemma ListingStep(v2: bool, p: seq<byte>)
    ensures ListingAt(v2, p)
         == match RecordAt(v2, p)
            case RanOut => RanOut
            case Outcome(Err(e), rest) => Outcome(Err(e), rest)
            case Outcome(Ok(Last), rest) => Outcome(Ok([]), rest)
            case Outcome(Ok(Unreadable), rest) => ListingAt(v2, rest)
            case Outcome(Ok(Entry(e)), rest) => Prepend([e], ListingAt(v2, rest))
  {
    if |p| >= 4 {
      assert ListingAt(v2, p) == ListingFrom(v2, p) == ListingReply(v2, p);
    }
  }

  function Prepend<T>(front: seq<T>, o: Outcome<seq<T>>): Outcome<seq<T>>
  {
    if Succeeds(o) then Outcome(Ok(front + o.result.value), o.rest) else o
  }

  // ----- transfers

  /** One response of a RECV: a chunk of the file, or `None` for DONE. */
  function ChunkAt(p: seq<byte>): (r: Outcome<Option<seq<byte>>>)
    ensures Succeeds(r) ==> |r.rest| < |p|
  {
    if |p| < 4 then RanOut
    else if U32At(p, 0) == FAIL then FailAt(p[4..])
    else if |p| < 8 then RanOut
    else ChunkOf(U32At(p, 0), U32At(p, 4), p[8..])
  }

  function ChunkOf(id: u32, size: u32, p: seq<byte>): (r: Outcome<Option<seq<byte>>>)
    ensures r.Outcome? ==> |r.rest| <= |p|
  {
    if id == DONE then Outcome(Ok(None), p)
    else if id != DATA then Outcome(Err(UNEXPECTED_RESPONSE), p)
    else if size > MAX_CHUNK_SIZE then Outcome(Err(CHUNK_TOO_LARGE), p)
    else if |p| < size then RanOut
    else Outcome(Ok(Some(p[..size])), p[size..])
  }

  /** A transfer: the bytes written to the file, whether or not it completes, and its outcome. */
  datatype Transfer = Transfer(written: seq<byte>, outcome: Outcome<()>)

  function TransferAt(p: seq<byte>): Transfer
    decreases |p|, 2
  {
    if p == [] then Transfer([], RanOut) else TransferFrom(p)
  }

  function TransferFrom(p: seq<byte>): Transfer
    decreases |p|, 1
  {
    if |p| < 4 then Transfer([], RanOut) else TransferReply(p)
  }

  function TransferReply(p: seq<byte>): Transfer
    decreases |p|, 0
  {
    match ChunkAt(p)
    case RanOut => Transfer([], RanOut)
    case Outcome(Err(e), rest) => Transfer([], Outcome(Err(e), rest))
    case Outcome(Ok(None), rest) => Transfer([], Outcome(Ok(()), rest))
    case Outcome(Ok(Some(data)), rest) => var t := TransferAt(rest); Transfer(data + t.written, t.outcome)
  }

  /** A transfer is its first response, then the rest of the transfer. */
  lemma TransferStep(p: seq<byte>)
    ensures TransferAt(p)
         == match ChunkAt(p)
            case RanOut => Transfer([], RanOut)
            case Outcome(Err(e), rest) => Transfer([], Outcome(Err(e), rest))
            case Outcome(Ok(None), rest) => Transfer([], Outcome(Ok(()), rest))
            case Outcome(Ok(Some(data)), rest) => var t := TransferAt(rest); Transfer(data + t.written, t.outcome)
  {
    if |p| >= 4 {
      assert TransferAt(p) == TransferFrom(p) == TransferReply(p);
    }
  }

  // ----- stat and status

  function StatBody(v2: bool): nat { if v2 then STAT_V2_BODY else STAT_V1_BODY }

  /** The reply to a STAT. Its id is read and not looked at. */
  function StatAt(v2: bool, p: seq<byte>): Outcome<Option<FileStat>>
  {
    if |p| < 4 + StatBody(v2) then RanOut
    else
      var body, rest := p[4..4 + StatBody(v2)], p[4 + StatBody(v2)..];
      if Missing(v2, body) then Outcome(Ok(None), rest) else Outcome(Ok(Some(BodyMeta(v2, body))), rest)
  }

  /** v2 reports an error; v1 has no room for one and answers all zeros. */
  predicate Missing(v2: bool, body: seq<byte>)
    requires |body| == StatBody(v2)
  {
    if v2 then U32At(body, 0) != 0 else U32At(body, 0) == 0 && U32At(body, 4) == 0 && U32At(body, 8) == 0
  }

  /** The acknowledgement of a SEND. */
  function StatusAt(p: seq<byte>): Outcome<()>
  {
    if |p| < 4 then RanOut
    else if U32At(p, 0) == FAIL then FailAt(p[4..])
    else if U32At(p, 0) != OKAY then Outcome(Err(UNEXPECTED_RESPONSE), p[4..])
    else if |p| < 8 then RanOut
    else Outcome(Ok(()), p[8..])
  }

  // ----- the device's side: metadata

  /** Everything `lstat` tells, with the error that replaces it. */
  datatype Attributes = Attributes(
    error: u32, dev: u64, ino: u64, mode: u32, nlink: u32, uid: u32, gid: u32,
    size: u64, atime: i64, mtime: i64, ctime: i64)

  function MetaOf(a: Attributes): FileStat { FileStat(a.mode, a.size, a.mtime) }

  function StatV2(a: Attributes): (r: seq<byte>)
    ensures |r| == STAT_V2_BODY
  {
    Le32(a.error) + Le64(a.dev) + Le64(a.ino) + Le32(a.mode) + Le32(a.nlink) + Le32(a.uid) + Le32(a.gid)
    + Le64(a.size) + Le64(Unsigned(a.atime)) + Le64(Unsigned(a.mtime)) + Le64(Unsigned(a.ctime))
  }

  /** The v1 form has room for 32 bits of size and time. */
  predicate FitsV1(a: Attributes) { a.size < WORD && 0 <= a.mtime < WORD }

  function StatV1(a: Attributes): (r: seq<byte>)
    requires FitsV1(a)
    ensures |r| == STAT_V1_BODY
  {
    Le32(a.mode) + Le32(a.size) + Le32(a.mtime)
  }

  function StatBytes(v2: bool, a: Attributes): (r: seq<byte>)
    requires v2 || FitsV1(a)
    ensures |r| == StatBody(v2)
  {
    if v2 then StatV2(a) else StatV1(a)
  }

  /** Where the v2 form has its fields. */
  lemma StatV2Layout(a: Attributes)
    ensures var b := StatV2(a);
            && U32At(b, 0) == a.error && U64At(b, 4) == a.dev && U64At(b, 12) == a.ino && U32At(b, 20) == a.mode
            && U32At(b, 24) == a.nlink && U32At(b, 28) == a.uid && U32At(b, 32) == a.gid && U64At(b, 36) == a.size
            && Signed(U64At(b, 44)) == a.atime && Signed(U64At(b, 52)) == a.mtime && Signed(U64At(b, 60)) == a.ctime
  {
    var b := StatV2(a);
    Le32RoundTrip(b, 0, a.error);
    Le64RoundTrip(b, 4, a.dev);
    Le64RoundTrip(b, 12, a.ino);
    Le32RoundTrip(b, 20, a.mode);
    Le32RoundTrip(b, 24, a.nlink);
    Le32RoundTrip(b, 28, a.uid);
    Le32RoundTrip(b, 32, a.gid);
    Le64RoundTrip(b, 36, a.size);
    StatV2Times(a);
  }

  lemma StatV2Times(a: Attributes)
    ensures var b := StatV2(a);
            Signed(U64At(b, 44)) == a.atime && Signed(U64At(b, 52)) == a.mtime && Signed(U64At(b, 60)) == a.ctime
  {
    var b := StatV2(a);
    Le64RoundTrip(b, 44, Unsigned(a.atime));
    Le64RoundTrip(b, 52, Unsigned(a.mtime));
    Le64RoundTrip(b, 60, Unsigned(a.ctime));
    SignedRoundTrip(a.atime);
    SignedRoundTrip(a.mtime);
    SignedRoundTrip(a.ctime);
  }

  /** Where the v1 form has its three. */
  lemma StatV1Layout(a: Attributes)
    requires FitsV1(a)
    ensures var b := StatV1(a); U32At(b, 0) == a.mode && U32At(b, 4) == a.size && U32At(b, 8) == a.mtime
  {
    var b := StatV1(a);
    Le32RoundTrip(b, 0, a.mode);
    Le32RoundTrip(b, 4, a.size);
    Le32RoundTrip(b, 8, a.mtime);
  }

  /** A metadata body is read back, whatever follows it. */
  lemma MetaRoundTrip(v2: bool, a: Attributes, tail: seq<byte>)
    requires v2 || FitsV1(a)
    ensures BodyMeta(v2, StatBytes(v2, a) + tail) == MetaOf(a)
    ensures v2 ==> U32At(StatBytes(v2, a) + tail, 0) == a.error
  {
    var b := StatBytes(v2, a) + tail;
    if v2 {
      Le32RoundTrip(b, 0, a.error);
      Le32RoundTrip(b, 20, a.mode);
      Le64RoundTrip(b, 36, a.size);
      Le64RoundTrip(b, 52, Unsigned(a.mtime));
      SignedRoundTrip(a.mtime);
    } else {
      Le32RoundTrip(b, 0, a.mode);
      Le32RoundTrip(b, 4, a.size);
      Le32RoundTrip(b, 8, a.mtime);
    }
  }

  /**
   Stat: under any response id the reply's metadata is read back and the cursor ends behind it; the path counts as
   missing exactly when v2 reports an error, or v1 has nothing but zeros to say.
   */
  lemma StatRoundTrip(v2: bool, id: u32, a: Attributes, tail: seq<byte>)
    requires v2 || FitsV1(a)
    ensures StatAt(v2, Le32(id) + StatBytes(v2, a) + tail)
         == Outcome(Ok(if (if v2 then a.error != 0 else MetaOf(a) == FileStat(0, 0, 0)) then None
                       else Some(MetaOf(a))), tail)
  {
    var p, body := Le32(id) + StatBytes(v2, a) + tail, StatBytes(v2, a);
    assert p[4..4 + StatBody(v2)] == body && p[4 + StatBody(v2)..] == tail;
    MetaRoundTrip(v2, a, []);
    assert body + [] == body;
  }

  /** The two forms tell the same story of a path exactly when it is not the path whose metadata is all zeros. */
  lemma StatFormsAgree(id: u32, a: Attributes, tail: seq<byte>)
    requires FitsV1(a) && a.error == 0
    ensures StatAt(false, Le32(id) + StatV1(a) + tail) == StatAt(true, Le32(id) + StatV2(a) + tail)
       <==> MetaOf(a) != FileStat(0, 0, 0)
  {
    StatRoundTrip(false, id, a, tail);
    StatRoundTrip(true, id, a, tail);
  }

  // ----- the device's side: rejections and statuses

  /** A rejection, with the reason for it. */
  function FailBytes(reason: seq<byte>): seq<byte>
    requires |reason| < WORD
  {
    Le32(FAIL) + Le32(|reason|) + reason
  }

  /** What the caller of a rejected operation gets. */
  function Rejection(reason: seq<byte>): Error
  {
    Error(ErrorCode.Device, "the sync request failed: " + Chars(reason))
  }

  lemma ReasonIsRead<T>(reason: seq<byte>, tail: seq<byte>) returns (o: Outcome<T>)
    requires |reason| < WORD
    ensures var p := FailBytes(reason) + tail;
            && |p| >= 8 && U32At(p, 0) == FAIL && FailAt<T>(p[4..]) == o == Outcome(Err(Rejection(reason)), tail)
  {
    var p := FailBytes(reason) + tail;
    assert p[0..4] == Le32(FAIL);
    Le32RoundTrip(p, 0, FAIL);
    var q := p[4..];
    assert q[0..4] == Le32(|reason|) && q[4..] == reason + tail;
    Le32RoundTrip(q, 0, |reason|);
    assert (reason + tail)[..|reason|] == reason && (reason + tail)[|reason|..] == tail;
    o := FailAt<T>(q);
  }

  /** A rejection is the device's error with the device's reason, wherever it comes. */
  lemma RejectionIsReported(v2: bool, reason: seq<byte>, tail: seq<byte>)
    requires |reason| < WORD
    ensures StatusAt(FailBytes(reason) + tail) == Outcome(Err(Rejection(reason)), tail)
    ensures RecordAt(v2, FailBytes(reason) + tail) == Outcome(Err(Rejection(reason)), tail)
    ensures ChunkAt(FailBytes(reason) + tail) == Outcome(Err(Rejection(reason)), tail)
  {
    var a: Outcome<()> := ReasonIsRead(reason, tail);
    var b: Outcome<Record> := ReasonIsRead(reason, tail);
    var c: Outcome<Option<seq<byte>>> := ReasonIsRead(reason, tail);
  }

  /** A status is a success if and only if it is a whole one that starts with OKAY. */
  lemma StatusSucceedsIff(p: seq<byte>)
    ensures Succeeds(StatusAt(p)) <==> |p| >= 8 && p[..4] == Ascii("OKAY")
    ensures Succeeds(StatusAt(p)) ==> StatusAt(p) == Outcome(Ok(()), p[8..])
  {
    CommandsAreNames();
    if |p| >= 4 {
      U32RoundTrip(p, 0);
      assert p[0..4] == p[..4];
      if p[..4] == Ascii("OKAY") {
        Le32RoundTrip(p, 0, OKAY);
      }
    }
  }

  /** A reply with an id that has no business there is an error, and so is a chunk past 64 KiB. */
  lemma OddRepliesFail(v2: bool, id: u32, word: u32, body: seq<byte>, behind: seq<byte>)
    requires id != FAIL && |body| == DentBody(v2)
    ensures id != OKAY ==> StatusAt(Le32(id) + behind) == Outcome(Err(UNEXPECTED_RESPONSE), behind)
    ensures id != DATA && id != DONE ==>
              ChunkAt(Le32(id) + Le32(word) + behind) == Outcome(Err(UNEXPECTED_RESPONSE), behind)
    ensures word > MAX_CHUNK_SIZE ==>
              ChunkAt(Le32(DATA) + Le32(word) + behind) == Outcome(Err(CHUNK_TOO_LARGE), behind)
    ensures id != DONE && id != DentId(v2) ==>
              RecordAt(v2, Le32(id) + body + behind) == Outcome(Err(UNEXPECTED_RESPONSE), behind)
  {
    WordsRead(id, word, behind);
    WordsRead(DATA, word, behind);
    var p, q := Le32(id) + behind, Le32(id) + body + behind;
    assert p[0..4] == Le32(id) && p[4..] == behind;
    Le32RoundTrip(p, 0, id);
    assert q[0..4] == Le32(id) && q[4..4 + |body|] == body && q[4 + |body|..] == behind;
    Le32RoundTrip(q, 0, id);
  }

  lemma WordsRead(a: u32, b: u32, behind: seq<byte>)
    ensures var p := Le32(a) + Le32(b) + behind; U32At(p, 0) == a && U32At(p, 4) == b && p[8..] == behind
  {
    var p := Le32(a) + Le32(b) + behind;
    assert p[0..4] == Le32(a) && p[4..8] == Le32(b);
    Le32RoundTrip(p, 0, a);
    Le32RoundTrip(p, 4, b);
  }
}
