/** ADB messages: the 24-byte header, its integrity fields, and the frame built from a header and a payload. */
module Wire {
  import opened Bytes
  import opened Results

  const HEADER_SIZE: nat := 24
  const MAX_DATA: nat := 0x10_0000
  const VERSION: u32 := 0x0100_0001
  const INITIAL_DELAYED_ACK_BYTES: u32 := 0x4_0000

  // Command identifiers: four ASCII characters, first character in the least significant byte.
  const CNXN: u32 := 0x4e58_4e43
  const AUTH: u32 := 0x4854_5541
  const OPEN: u32 := 0x4e45_504f
  const OKAY: u32 := 0x5941_4b4f
  const CLSE: u32 := 0x4553_4c43
  const WRTE: u32 := 0x4554_5257

  /** A command identifier is its name, on the wire. */
  lemma CommandsAreNames()
    ensures Le32(CNXN) == Ascii("CNXN") && Le32(AUTH) == Ascii("AUTH") && Le32(OPEN) == Ascii("OPEN")
    ensures Le32(OKAY) == Ascii("OKAY") && Le32(CLSE) == Ascii("CLSE") && Le32(WRTE) == Ascii("WRTE")
  {
  }

  const AUTH_SIGNATURE: u32 := 2
  const AUTH_PUBLIC_KEY: u32 := 3

  datatype Message = Message(command: u32, arg0: u32, arg1: u32, dataLength: u32, dataCheck: u32, magic: u32)

  datatype Frame = Frame(header: Message, payload: seq<byte>)

  /** The frames handed up by a session, and those handed to it. */
  datatype Journal = Journal(received: seq<Frame>, sent: seq<Frame>)

  /** Exclusive or with all ones, on 32 bits. */
  function Magic(command: u32): u32 { WORD - 1 - command }

  /** Bit `i` of a word. */
  function Bit(v: nat, i: nat): nat { if i == 0 then v % 2 else Bit(v / 2, i - 1) }

  /** A number below 2^n and the complement that adds up to 2^n - 1 differ in every one of the n bits. */
  lemma {:induction false} ComplementBits(n: nat, v: nat, i: nat)
    requires v < Pow2(n) && i < n
    ensures Bit(Pow2(n) - 1 - v, i) == 1 - Bit(v, i)
  {
    var half := Pow2(n - 1);
    assert Pow2(n) == 2 * half;
    if i > 0 {
      assert (2 * half - 1 - v) / 2 == half - 1 - v / 2;
      ComplementBits(n - 1, v / 2, i - 1);
    }
  }

  /** The magic is the bitwise complement of the command. */
  lemma MagicIsComplement(command: u32, i: nat)
    requires i < 32
    ensures Bit(Magic(command), i) == 1 - Bit(command, i)
  {
    assert Pow2(12) == 0x1000 && Pow2(22) == 0x40_0000;
    assert Pow2(32) == WORD;
    ComplementBits(32, command, i);
  }

  function ByteSum(data: seq<byte>): nat
  {
    if data == [] then 0 else ByteSum(data[..|data| - 1]) + data[|data| - 1]
  }

  /** The sum of the payload bytes in 32-bit arithmetic. */
  function Checksum(data: seq<byte>): u32 { ByteSum(data) % WORD }

  method ComputeChecksum(data: seq<byte>) returns (sum: u32)
    ensures sum == Checksum(data)
  {
    sum := 0;
    for i := 0 to |data|
      invariant sum == Checksum(data[..i])
    {
      assert data[..i + 1][..i] == data[..i];
      sum := (sum + data[i]) % WORD;
    }
    assert data[..|data|] == data;
  }

  lemma {:induction false} ByteSumAppend(a: seq<byte>, b: seq<byte>)
    ensures ByteSum(a + b) == ByteSum(a) + ByteSum(b)
  {
    if b == [] {
      assert a + b == a;
    } else {
      ByteSumAppend(a, b[..|b| - 1]);
      assert (a + b)[..|a + b| - 1] == a + b[..|b| - 1];
    }
  }

  /** The sum counts every byte once. */
  lemma ByteSumOfOne(x: byte)
    ensures ByteSum([x]) == x
  {
    assert [x][..0] == [] && ByteSum([]) == 0;
  }

  /** Changing any one byte changes the checksum, whatever the length of the data. */
  lemma ChecksumDetectsOneByte(data: seq<byte>, at: nat, value: byte)
    requires at < |data| && value != data[at]
    ensures Checksum(data[at := value]) != Checksum(data)
  {
    var pre, post := data[..at], data[at + 1..];
    assert data == pre + [data[at]] + post;
    assert data[at := value] == pre + [value] + post;
    ByteSumAppend(pre + [data[at]], post);
    ByteSumAppend(pre, [data[at]]);
    ByteSumAppend(pre + [value], post);
    ByteSumAppend(pre, [value]);
    var rest := ByteSum(pre) + ByteSum(post);
    ByteSumOfOne(value);
    ByteSumOfOne(data[at]);
    assert ByteSum(data) == rest + data[at] && ByteSum(data[at := value]) == rest + value;
  }

  function DataLengthOf(payload: seq<byte>): (r: Result<u32>)
    ensures r.Ok? <==> |payload| < WORD
    ensures r.Ok? ==> r.value == |payload|
  {
    if |payload| > 0xFFFF_FFFF
    then Result<u32>.Err(Error(InvalidArgument, "the payload is too large for the ADB header"))
    else Ok(|payload|)
  }

  function EncodeHeader(m: Message): (r: seq<byte>)
    ensures |r| == HEADER_SIZE
  {
    Le32(m.command) + Le32(m.arg0) + Le32(m.arg1) + Le32(m.dataLength) + Le32(m.dataCheck) + Le32(m.magic)
  }

  function DecodeHeader(b: seq<byte>): Message
    requires |b| == HEADER_SIZE
  {
    Message(U32At(b, 0), U32At(b, 4), U32At(b, 8), U32At(b, 12), U32At(b, 16), U32At(b, 20))
  }

  /** Fills a 24-byte array field by field. */
  method Encode(m: Message) returns (bytes: array<byte>)
    ensures fresh(bytes) && bytes[..] == EncodeHeader(m)
  {
    bytes := new byte[HEADER_SIZE];
    WriteU32(bytes, 0, m.command);
    assert bytes[..4] == Le32(m.command);
    WriteU32(bytes, 4, m.arg0);
    assert bytes[..8] == Le32(m.command) + Le32(m.arg0);
    WriteU32(bytes, 8, m.arg1);
    WriteU32(bytes, 12, m.dataLength);
    assert bytes[..16] == Le32(m.command) + Le32(m.arg0) + Le32(m.arg1) + Le32(m.dataLength);
    WriteU32(bytes, 16, m.dataCheck);
    WriteU32(bytes, 20, m.magic);
  }

  /** The six words of a header, each at its place. */
  lemma HeaderLayout(m: Message)
    ensures var b := EncodeHeader(m);
            && U32At(b, 0) == m.command && U32At(b, 4) == m.arg0 && U32At(b, 8) == m.arg1
            && U32At(b, 12) == m.dataLength && U32At(b, 16) == m.dataCheck && U32At(b, 20) == m.magic
  {
    var b := EncodeHeader(m);
    Le32RoundTrip(b, 0, m.command);
    Le32RoundTrip(b, 4, m.arg0);
    Le32RoundTrip(b, 8, m.arg1);
    Le32RoundTrip(b, 12, m.dataLength);
    Le32RoundTrip(b, 16, m.dataCheck);
    Le32RoundTrip(b, 20, m.magic);
  }

  lemma HeaderRoundTrip(m: Message)
    ensures DecodeHeader(EncodeHeader(m)) == m
  {
    HeaderLayout(m);
  }

  lemma HeaderBytesRoundTrip(b: seq<byte>)
    requires |b| == HEADER_SIZE
    ensures EncodeHeader(DecodeHeader(b)) == b
  {
    U32RoundTrip(b, 0);
    U32RoundTrip(b, 4);
    U32RoundTrip(b, 8);
    U32RoundTrip(b, 12);
    U32RoundTrip(b, 16);
    U32RoundTrip(b, 20);
    assert b == b[0..4] + b[4..8] + b[8..12] + b[12..16] + b[16..20] + b[20..24];
  }

  function FrameBytes(f: Frame): (r: seq<byte>)
    ensures |r| == HEADER_SIZE + |f.payload|
  {
    EncodeHeader(f.header) + f.payload
  }

  /** The bytes of a sequence of frames sent one after the other. */
  function TapeOf(fs: seq<Frame>): seq<byte>
  {
    if fs == [] then [] else FrameBytes(fs[0]) + TapeOf(fs[1..])
  }

  lemma {:induction false} TapeOfAppend(fs: seq<Frame>, f: Frame)
    ensures TapeOf(fs + [f]) == TapeOf(fs) + FrameBytes(f)
  {
    var bytes := FrameBytes(f);
    if fs == [] {
      assert bytes + [] == bytes == [] + bytes;
    } else {
      var first, others := FrameBytes(fs[0]), TapeOf(fs[1..]);
      TapeOfAppend(fs[1..], f);
      assert (fs + [f])[1..] == fs[1..] + [f];
      assert first + (others + bytes) == first + others + bytes;
    }
  }

  /** The frames the integrity rules accept: an absent or zero checksum is not verified. */
  ghost predicate Acceptable(f: Frame)
  {
    && f.header.magic == Magic(f.header.command)
    && f.header.dataLength == |f.payload| <= MAX_DATA
    && ChecksumAccepted(f.header, f.payload)
  }

  predicate ChecksumAccepted(m: Message, payload: seq<byte>)
  {
    payload == [] || m.dataCheck == 0 || m.dataCheck == Checksum(payload)
  }

  /** A frame with these fields on the wire. */
  predicate Carries(f: Frame, command: u32, arg0: u32, arg1: u32, payload: seq<byte>)
  {
    f.header.command == command && f.header.arg0 == arg0 && f.header.arg1 == arg1 && f.payload == payload
  }

  /** A message without payload. */
  function EmptyMessage(command: u32, arg0: u32, arg1: u32): Message
  {
    Message(command, arg0, arg1, 0, 0, Magic(command))
  }

  /** Such a message is a frame with these fields that a receiver accepts. */
  lemma EmptyMessageOnWire(command: u32, arg0: u32, arg1: u32)
    ensures var f := Frame(EmptyMessage(command, arg0, arg1), []);
            Carries(f, command, arg0, arg1, []) && Acceptable(f)
  {
  }

  /** A message that announces `payload`. */
  function MakeMessage(command: u32, arg0: u32, arg1: u32, payload: seq<byte>): (r: Result<Message>)
    ensures r.Ok? <==> |payload| < WORD
    ensures r.Ok? ==> Carries(Frame(r.value, payload), command, arg0, arg1, payload)
    ensures r.Ok? && |payload| <= MAX_DATA ==> Acceptable(Frame(r.value, payload))
  {
    match DataLengthOf(payload)
    case Err(e) => Err(e)
    case Ok(length) => Ok(Message(command, arg0, arg1, length, Checksum(payload), Magic(command)))
  }
}
