/** Running a command: the shell services, and the packets of the v2 protocol inside the stream. */
module Shell {
  import opened Bytes
  import opened Results
  import opened Wire
  import opened Framing
  import opened Connections
  import opened Delivery
  import opened Reading
  import opened Streams

  const STDOUT: byte := 1
  const STDERR: byte := 2
  const EXIT: byte := 3

  const PACKET_HEADER: nat := 5

  datatype Packet = Packet(id: byte, data: seq<byte>)

  datatype CommandResult = CommandResult(
    output: seq<byte>, standardOutput: seq<byte>, errorOutput: seq<byte>, exitCode: byte, success: bool)

  // ----- what a list of packets means

  /** The data of the packets whose id is in `ids`, in order. */
  function Select(ps: seq<Packet>, ids: set<byte>): seq<byte>
  {
    if ps == [] then []
    else Select(ps[..|ps| - 1], ids) + if ps[|ps| - 1].id in ids then ps[|ps| - 1].data else []
  }

  predicate ReportsExit(p: Packet) { p.id == 3 && p.data != [] }

  /** The status of the last packet that reports one, or zero. */
  function ExitCode(ps: seq<Packet>): byte
  {
    if ps == [] then 0
    else if ReportsExit(ps[|ps| - 1]) then ps[|ps| - 1].data[0]
    else ExitCode(ps[..|ps| - 1])
  }

  function Interpret(ps: seq<Packet>): CommandResult
  {
    CommandResult(Select(ps, {STDOUT, STDERR}), Select(ps, {STDOUT}), Select(ps, {STDERR}),
                  ExitCode(ps), ExitCode(ps) == 0)
  }

  /** The exit code is the first byte of the last non-empty exit packet, or zero when there is none. */
  lemma {:induction false} ExitCodeIsLast(ps: seq<Packet>)
    ensures if exists i :: 0 <= i < |ps| && ReportsExit(ps[i])
            then exists i :: 0 <= i < |ps| && ReportsExit(ps[i]) && ExitCode(ps) == ps[i].data[0]
                          && forall j :: i < j < |ps| ==> !ReportsExit(ps[j])
            else ExitCode(ps) == 0
  {
    if ps != [] && !ReportsExit(ps[|ps| - 1]) {
      var init := ps[..|ps| - 1];
      ExitCodeIsLast(init);
      assert forall i :: 0 <= i < |init| ==> init[i] == ps[i];
    }
  }

  /** `o` consists of `a` and `b` interleaved, each in its own order. */
  ghost predicate Merge(o: seq<byte>, a: seq<byte>, b: seq<byte>)
  {
    if o == [] then a == [] && b == []
    else
      var n := |o| - 1;
      || (a != [] && a[|a| - 1] == o[n] && Merge(o[..n], a[..|a| - 1], b))
      || (b != [] && b[|b| - 1] == o[n] && Merge(o[..n], a, b[..|b| - 1]))
  }

  lemma {:induction false} MergeExtend(o: seq<byte>, a: seq<byte>, b: seq<byte>, x: seq<byte>)
    requires Merge(o, a, b)
    ensures Merge(o + x, a + x, b) && Merge(o + x, a, b + x)
  {
    if x == [] {
      assert o + x == o && a + x == a && b + x == b;
    } else {
      var init := x[..|x| - 1];
      MergeExtend(o, a, b, init);
      assert (o + x)[..|o + x| - 1] == o + init;
      assert (a + x)[..|a + x| - 1] == a + init;
      assert (b + x)[..|b + x| - 1] == b + init;
    }
  }

  /** The combined output is an order-preserving merge of the standard output and the standard error. */
  lemma {:induction false} OutputIsMerge(ps: seq<Packet>)
    ensures var r := Interpret(ps); Merge(r.output, r.standardOutput, r.errorOutput)
  {
    if ps != [] {
      var init, last := ps[..|ps| - 1], ps[|ps| - 1];
      OutputIsMerge(init);
      var r := Interpret(init);
      MergeExtend(r.output, r.standardOutput, r.errorOutput, last.data);
      assert r.output + [] == r.output && r.standardOutput + [] == r.standardOutput
          && r.errorOutput + [] == r.errorOutput;
    }
  }

  /** The data of the packets with a given id, from the first on. */
  function DataOf(id: byte, ps: seq<Packet>): seq<byte>
  {
    if ps == [] then [] else (if ps[0].id == id then ps[0].data else []) + DataOf(id, ps[1..])
  }

  lemma {:induction false} DataOfAppend(id: byte, ps: seq<Packet>, p: Packet)
    ensures DataOf(id, ps + [p]) == DataOf(id, ps) + if p.id == id then p.data else []
  {
    if ps == [] {
      assert [p][1..] == [] && ps + [p] == [p];
      assert DataOf(id, [p]) == (if p.id == id then p.data else []) + [];
    } else {
      var first := if ps[0].id == id then ps[0].data else [];
      DataOfAppend(id, ps[1..], p);
      assert (ps + [p])[1..] == ps[1..] + [p];
      Regroup(first, DataOf(id, ps[1..]), if p.id == id then p.data else []);
    }
  }

  /** Packets with id 1 are the standard output, those with id 2 the error output, and success is exit code 0. */
  lemma {:induction false} InterpretByStream(ps: seq<Packet>)
    ensures var r := Interpret(ps);
            && r.standardOutput == DataOf(1, ps) && r.errorOutput == DataOf(2, ps)
            && (r.success <==> r.exitCode == 0)
  {
    if ps != [] {
      var init, last := ps[..|ps| - 1], ps[|ps| - 1];
      InterpretByStream(init);
      assert ps == init + [last];
      DataOfAppend(1, init, last);
      DataOfAppend(2, init, last);
    }
  }

  // ----- packets as bytes

  function PacketBytes(p: Packet): (r: seq<byte>)
    requires |p.data| < WORD
    ensures |r| == PACKET_HEADER + |p.data|
  {
    [p.id] + Le32(|p.data|) + p.data
  }

  ghost predicate Encodable(ps: seq<Packet>) { forall p <- ps :: |p.data| < WORD }

  function PacketsBytes(ps: seq<Packet>): seq<byte>
    requires Encodable(ps)
  {
    if ps == [] then [] else PacketBytes(ps[0]) + PacketsBytes(ps[1..])
  }

  /** Whether `raw` starts with a whole packet. */
  predicate HasPacket(raw: seq<byte>)
  {
    |raw| >= PACKET_HEADER && PACKET_HEADER + U32At(raw, 1) <= |raw|
  }

  function FirstPacket(raw: seq<byte>): Packet
    requires HasPacket(raw)
  {
    Packet(raw[0], raw[PACKET_HEADER..PACKET_HEADER + U32At(raw, 1)])
  }

  /** The packets at the front of `raw`; a packet cut short ends them. */
  function Packets(raw: seq<byte>): seq<Packet>
    decreases |raw|, 1
  {
    if |raw| < PACKET_HEADER then [] else PacketsFrom(raw)
  }

  function PacketsFrom(raw: seq<byte>): seq<Packet>
    requires |raw| >= PACKET_HEADER
    decreases |raw|, 0
  {
    if !HasPacket(raw) then []
    else [FirstPacket(raw)] + Packets(raw[PACKET_HEADER + U32At(raw, 1)..])
  }

  /** A packet is its id, the length of its data, and its data. */
  lemma PacketLayout(p: Packet)
    requires |p.data| < WORD
    ensures var b := PacketBytes(p); b[0] == p.id && U32At(b, 1) == |p.data| && b[5..] == p.data
  {
    var b := PacketBytes(p);
    assert b[1..5] == Le32(|p.data|);
    Le32RoundTrip(b, 1, |p.data|);
  }

  lemma FirstPacketRoundTrip(p: Packet, rest: seq<byte>)
    requires |p.data| < WORD
    ensures var raw := PacketBytes(p) + rest;
            && HasPacket(raw) && FirstPacket(raw) == p
            && PACKET_HEADER + U32At(raw, 1) == |PacketBytes(p)|
  {
    var raw := PacketBytes(p) + rest;
    assert raw[1..5] == Le32(|p.data|);
    Le32RoundTrip(raw, 1, |p.data|);
    assert raw[PACKET_HEADER..PACKET_HEADER + |p.data|] == p.data;
  }

  lemma FirstPacketBytes(raw: seq<byte>)
    requires HasPacket(raw)
    ensures PacketBytes(FirstPacket(raw)) == raw[..PACKET_HEADER + U32At(raw, 1)]
  {
    U32RoundTrip(raw, 1);
    assert raw[..5] == [raw[0]] + raw[1..5];
  }

  /** Packets survive the trip through bytes, with anything but a whole packet behind them. */
  lemma {:induction false} PacketsRoundTrip(ps: seq<Packet>, cut: seq<byte>)
    requires Encodable(ps) && !HasPacket(cut)
    ensures Packets(PacketsBytes(ps) + cut) == ps
  {
    if ps == [] {
      assert PacketsBytes(ps) + cut == cut;
    } else {
      var rest := PacketsBytes(ps[1..]) + cut;
      assert PacketsBytes(ps) + cut == PacketBytes(ps[0]) + rest;
      FirstPacketRoundTrip(ps[0], rest);
      assert (PacketBytes(ps[0]) + rest)[|PacketBytes(ps[0])|..] == rest;
      PacketsRoundTrip(ps[1..], cut);
      assert ps == [ps[0]] + ps[1..];
    }
  }

  lemma PacketsBytesCons(raw: seq<byte>, n: nat, p: Packet, ps: seq<Packet>)
    requires n <= |raw| && |p.data| < WORD && PacketBytes(p) == raw[..n]
    requires Encodable(ps) && PacketsBytes(ps) <= raw[n..]
    ensures Encodable([p] + ps) && PacketsBytes([p] + ps) <= raw
    ensures raw[|PacketsBytes([p] + ps)|..] == raw[n..][|PacketsBytes(ps)|..]
  {
    assert ([p] + ps)[1..] == ps;
    PrefixBehind(raw, n, PacketsBytes(ps));
  }

  /** On arbitrary bytes: the packets found are a prefix of the bytes, and what is left does not start with a packet. */
  lemma {:induction false} PacketsArePrefix(raw: seq<byte>)
    ensures Encodable(Packets(raw))
    ensures PacketsBytes(Packets(raw)) <= raw
    ensures !HasPacket(raw[|PacketsBytes(Packets(raw))|..])
    decreases |raw|
  {
    if !HasPacket(raw) {
      assert raw[0..] == raw;
    } else {
      var n := PACKET_HEADER + U32At(raw, 1);
      FirstPacketBytes(raw);
      PacketsArePrefix(raw[n..]);
      PacketsBytesCons(raw, n, FirstPacket(raw), Packets(raw[n..]));
    }
  }

  /** And they are all of them: any packet list encoded at the front of the bytes is a prefix of those found. */
  lemma {:induction false} PacketsAreLongest(raw: seq<byte>, ps: seq<Packet>)
    requires Encodable(ps) && PacketsBytes(ps) <= raw
    ensures ps <= Packets(raw)
    decreases |ps|
  {
    if ps != [] {
      var first, n := PacketBytes(ps[0]), |PacketBytes(ps[0])|;
      assert PacketsBytes(ps) == first + PacketsBytes(ps[1..]);
      assert raw == first + raw[n..];
      FirstPacketRoundTrip(ps[0], raw[n..]);
      assert PacketsBytes(ps[1..]) <= raw[n..];
      PacketsAreLongest(raw[n..], ps[1..]);
      assert ps == [ps[0]] + ps[1..];
    }
  }

  // ----- the packet loop and the services

  lemma InterpretExtend(done: seq<Packet>, p: Packet)
    ensures var r, r' := Interpret(done), Interpret(done + [p]);
            && r'.output == r.output + (if p.id in {STDOUT, STDERR} then p.data else [])
            && r'.standardOutput == r.standardOutput + (if p.id == STDOUT then p.data else [])
            && r'.errorOutput == r.errorOutput + (if p.id == STDERR then p.data else [])
            && r'.exitCode == (if ReportsExit(p) then p.data[0] else r.exitCode)
  {
    assert (done + [p])[..|done|] == done;
  }

  /** One turn of the packet loop, on the bytes from `offset` on. */
  lemma PacketsAt(raw: seq<byte>, offset: nat)
    requires offset + PACKET_HEADER <= |raw|
    ensures var start, length := offset + PACKET_HEADER, U32At(raw, offset + 1);
            Packets(raw[offset..])
            == if start + length > |raw| then []
               else [Packet(raw[offset], raw[start..start + length])] + Packets(raw[start + length..])
  {
    var here, length := raw[offset..], U32At(raw, offset + 1);
    assert here[1..5] == raw[offset + 1..offset + 5];
    if PACKET_HEADER + length <= |here| {
      assert here[PACKET_HEADER..PACKET_HEADER + length]
          == raw[offset + PACKET_HEADER..offset + PACKET_HEADER + length];
      assert here[PACKET_HEADER + length..] == raw[offset + PACKET_HEADER + length..];
    }
  }

  /** The body of the packet loop: what one whole packet adds to the result. */
  method TakePacket(result: CommandResult, p: Packet, ghost done: seq<Packet>) returns (r: CommandResult)
    requires result == Interpret(done).(success := false)
    ensures r == Interpret(done + [p]).(success := false)
  {
    InterpretExtend(done, p);
    r := result;
    if p.id == STDOUT {
      r := r.(standardOutput := r.standardOutput + p.data, output := r.output + p.data);
    } else if p.id == STDERR {
      r := r.(errorOutput := r.errorOutput + p.data, output := r.output + p.data);
    } else if p.id == EXIT {
      if |p.data| >= 1 {
        r := r.(exitCode := p.data[0]);
      }
    }
  }

  /** The head of the packet loop: the packet that starts at `offset`, unless it is cut short. */
  method PacketAt(raw: seq<byte>, offset: nat) returns (p: Option<Packet>)
    requires offset + PACKET_HEADER <= |raw|
    ensures p.None? ==> Packets(raw[offset..]) == []
    ensures p.Some? ==> var next := offset + PACKET_HEADER + |p.value.data|;
                        next <= |raw| && Packets(raw[offset..]) == [p.value] + Packets(raw[next..])
  {
    PacketsAt(raw, offset);
    var id, length := raw[offset], U32At(raw, offset + 1);
    var start := offset + PACKET_HEADER;
    if start + length > |raw| {
      return None;
    }
    p := Some(Packet(id, raw[start..start + length]));
  }

  /** The packet loop of the v2 service. */
  method ParsePackets(raw: seq<byte>) returns (result: CommandResult)
    ensures result == Interpret(Packets(raw))
  {
    result := CommandResult([], [], [], 0, false);
    var offset := 0;
    ghost var done: seq<Packet> := [];
    assert raw[0..] == raw;
    while offset + PACKET_HEADER <= |raw|
      invariant offset <= |raw|
      invariant Packets(raw) == done + Packets(raw[offset..])
      invariant result == Interpret(done).(success := false)
      decreases |raw| - offset
    {
      var packet := PacketAt(raw, offset);
      if packet.None? {
        break;
      }
      result := TakePacket(result, packet.value, done);
      offset := offset + PACKET_HEADER + |packet.value.data|;
      assert done + ([packet.value] + Packets(raw[offset..])) == done + [packet.value] + Packets(raw[offset..]);
      done := done + [packet.value];
    }
    assert Packets(raw) == done;
    result := result.(success := result.exitCode == 0);
  }

  datatype Protocol = Auto | V2 | V1

  function Service(v2: bool, command: seq<byte>): seq<byte>
  {
    Ascii(if v2 then "shell,v2,raw:" else "shell:") + command
  }

  // What a device makes of the service it is asked for.

  /** The text of a C string: what comes before the first NUL. */
  function CText(s: seq<byte>): seq<byte>
  {
    if s == [] || s[0] == 0 then [] else [s[0]] + CText(s[1..])
  }

  lemma {:induction false} CTextBehind(a: seq<byte>, b: seq<byte>)
    requires 0 !in a
    ensures CText(a + b) == a + CText(b)
  {
    if a == [] {
      assert a + b == b;
    } else {
      CTextBehind(a[1..], b);
      assert (a + b)[1..] == a[1..] + b;
      Regroup([a[0]], a[1..], CText(b));
    }
  }

  lemma {:induction false} CTextTerminated(s: seq<byte>)
    ensures CText(s + [0]) == CText(s)
  {
    if s != [] && s[0] != 0 {
      CTextTerminated(s[1..]);
      assert (s + [0])[1..] == s[1..] + [0];
    }
  }

  /** The command asked for, and whether of the v2 service, if it is a shell service at all. */
  function Asked(payload: seq<byte>): Option<(bool, seq<byte>)>
  {
    var text := CText(payload);
    if Ascii("shell,v2,raw:") <= text then Some((true, text[|Ascii("shell,v2,raw:")|..]))
    else if Ascii("shell:") <= text then Some((false, text[|Ascii("shell:")|..]))
    else None
  }

  /** The device is asked for the service that is meant, with the command up to its first NUL. */
  lemma ServiceIsAsked(v2: bool, command: seq<byte>)
    ensures Asked(Destination(Service(v2, command))) == Some((v2, CText(command)))
  {
    var name := Ascii(if v2 then "shell,v2,raw:" else "shell:");
    var text := name + CText(command);
    assert Destination(Service(v2, command)) == name + (command + [0]);
    assert Ascii("shell:")[5] == 58 && Ascii("shell,v2,raw:")[5] == 44;
    CTextBehind(name, command + [0]);
    CTextTerminated(command);
    assert text[|name|..] == CText(command);
    if !v2 {
      assert text[5] == 58;
    }
  }

  /** What the bytes of a shell service say: v1 has no packets and always reports success. */
  function Meaning(v2: bool, raw: seq<byte>): CommandResult
  {
    if v2 then Interpret(Packets(raw)) else CommandResult(raw, [], [], 0, true)
  }

  /** The answer to a command, as a function of what the device delivers. */
  function Answer(v2: bool, id: u32, command: seq<byte>, box: Inbox): Result<CommandResult>
  {
    match Said(id, Service(v2, command), box)
    case Err(e) => Err(e)
    case Ok(raw) => Ok(Meaning(v2, raw))
  }

  /** What the device has left to say after a service: everything behind the stream's end. */
  function Leftover(id: u32, service: seq<byte>, box: Inbox): Inbox
  {
    match Opens(id, service, box)
    case Refused(_, rest) => rest
    case Opened(_, rest) => Deliver(id, rest).ending.rest
  }

  /**
   All that was sent for a command that was answered: the OPEN, then one acknowledgement per WRTE of the service. The
   device closes the stream, so no CLSE goes out.
   */
  ghost predicate Conversed(before: seq<Frame>, after: seq<Frame>, delayedAck: bool,
                            id: u32, service: seq<byte>, box: Inbox)
  {
    && |Destination(service)| < WORD && Opens(id, service, box).Opened?
    && var o := Opens(id, service, box);
       && AcksOnly(before + [OpenFrame(id, delayedAck, service)], after, OkayFrame(id, o.remote))
       && |after| == |before| + 1 + Deliver(id, o.rest).writes
  }

  /** Everything a service says, or why it could not be had. */
  function Said(id: u32, service: seq<byte>, box: Inbox): Result<seq<byte>>
  {
    match Opens(id, service, box)
    case Refused(e, _) => Err(e)
    case Opened(_, rest) =>
      var haul := Deliver(id, rest);
      match haul.ending
      case Failed(e, _) => Err(e)
      case Closed(_) => Ok(haul.content)
  }

  /** Opens a service, reads all it says, and closes the stream: what both forms of a command do. */
  method Fetch(c: Connection, service: seq<byte>) returns (r: Result<seq<byte>>)
    modifies c`nextLocalId, c.session`closed, c.session.transport
    ensures r.Ok? ==> c.Link().faults == old(c.Link().faults)
    ensures c.Link().faults == old(c.Link().faults) ==>
              && r == Said(old(c.nextLocalId), service, old(c.Box()))
              && c.Box() == Leftover(old(c.nextLocalId), service, old(c.Box()))
              && (r.Ok? ==> Conversed(old(c.Link().sent), c.Link().sent, c.delayedAck, old(c.nextLocalId),
                                      service, old(c.Box())))
  {
    var stream := Stream.Open(c, service);
    if stream.Err? {
      return Err(stream.error);
    }
    assert stream.value.Pending() == stream.value.Coming().content;
    ghost var log := c.Link().Log();
    ghost var fs;
    r, fs := stream.value.ReadAll();
    RepliedOncePerWrite(stream.value.localId, stream.value.Ack(), log, fs);
    stream.value.CloseNow();
  }

  method RunV1(c: Connection, command: seq<byte>) returns (r: Result<CommandResult>)
    modifies c`nextLocalId, c.session`closed, c.session.transport
    ensures r.Ok? ==> c.Link().faults == old(c.Link().faults)
    ensures c.Link().faults == old(c.Link().faults) ==>
              && r == Answer(false, old(c.nextLocalId), command, old(c.Box()))
              && c.Box() == Leftover(old(c.nextLocalId), Service(false, command), old(c.Box()))
              && (r.Ok? ==> Conversed(old(c.Link().sent), c.Link().sent, c.delayedAck, old(c.nextLocalId),
                                      Service(false, command), old(c.Box())))
  {
    var raw := Fetch(c, Service(false, command));
    if raw.Err? {
      return Err(raw.error);
    }
    r := Ok(CommandResult(raw.value, [], [], 0, true));
  }

  method RunV2(c: Connection, command: seq<byte>) returns (r: Result<CommandResult>)
    modifies c`nextLocalId, c.session`closed, c.session.transport
    ensures r.Ok? ==> c.Link().faults == old(c.Link().faults)
    ensures c.Link().faults == old(c.Link().faults) ==>
              && r == Answer(true, old(c.nextLocalId), command, old(c.Box()))
              && c.Box() == Leftover(old(c.nextLocalId), Service(true, command), old(c.Box()))
              && (r.Ok? ==> Conversed(old(c.Link().sent), c.Link().sent, c.delayedAck, old(c.nextLocalId),
                                      Service(true, command), old(c.Box())))
  {
    var raw := Fetch(c, Service(true, command));
    if raw.Err? {
      return Err(raw.error);
    }
    var result := ParsePackets(raw.value);
    r := Ok(result);
  }

  predicate UsesV2(protocol: Protocol, features: seq<string>)
  {
    protocol == V2 || (protocol == Auto && "shell_v2" in features)
  }

  /**
   Runs a command. The service asked for is v2 if the caller wants it, or leaves the choice and the device has the
   `shell_v2` feature.
   */
  method Run(c: Connection, command: seq<byte>, protocol: Protocol) returns (r: Result<CommandResult>)
    modifies c`nextLocalId, c.session`closed, c.session.transport
    ensures r.Ok? ==> c.Link().faults == old(c.Link().faults)
    ensures c.Link().faults == old(c.Link().faults) ==>
              && r == Answer(UsesV2(protocol, c.features), old(c.nextLocalId), command, old(c.Box()))
              && c.Box() == Leftover(old(c.nextLocalId), Service(UsesV2(protocol, c.features), command), old(c.Box()))
              && (r.Ok? ==> Conversed(old(c.Link().sent), c.Link().sent, c.delayedAck, old(c.nextLocalId),
                                      Service(UsesV2(protocol, c.features), command), old(c.Box())))
    ensures r.Ok? ==>
              && |old(c.Link().sent)| < |c.Link().sent|
              && var open := c.Link().sent[|old(c.Link().sent)|];
                 && open.header.command == OPEN && open.header.arg0 == old(c.nextLocalId)
                 && Asked(open.payload)
                 == Some((protocol == V2 || (protocol == Auto && "shell_v2" in c.features), CText(command)))
  {
    var v2 := UsesV2(protocol, c.features);
    if v2 {
      r := RunV2(c, command);
    } else {
      r := RunV1(c, command);
    }
    ServiceIsAsked(v2, command);
  }

  /**
   End to end. The device plays any packet list to the command's stream: cut into WRTE frames anywhere, between
   frames for other streams and acknowledgements, with any trailing fragment of a packet. The answer is the
   meaning of the packet list, and the next command starts on the byte after the stream's CLSE.
   */
  lemma EndToEnd(id: u32, command: seq<byte>, ps: seq<Packet>, cut: seq<byte>, play: Play, tail: seq<byte>)
    requires FairPlay(id, play) && |Destination(Service(true, command))| < WORD
    requires Encodable(ps) && !HasPacket(cut)
    requires OwnPayload(id, play.service) == PacketsBytes(ps) + cut
    ensures var box := InboxOf(Channel(true, PlayBytes(play, tail)));
            && Answer(true, id, command, box) == Ok(Interpret(ps))
            && Leftover(id, Service(true, command), box) == InboxOf(Channel(true, tail))
  {
    ServiceDelivery(id, play, tail);
    PacketsRoundTrip(ps, cut);
  }

  /**
   The same of the call: on a connection whose device is about to send those bytes, the command returns the meaning of
   the packet list under every fragmentation of the transport's reads, and leaves the connection ready for the next.
   */
  method RunAgainstPlay(c: Connection, command: seq<byte>, ghost ps: seq<Packet>, ghost cut: seq<byte>,
                        ghost play: Play, ghost tail: seq<byte>)
    returns (r: Result<CommandResult>)
    requires !c.session.closed && c.Link().tape == PlayBytes(play, tail)
    requires FairPlay(c.nextLocalId, play) && |Destination(Service(true, command))| < WORD
    requires Encodable(ps) && !HasPacket(cut) && OwnPayload(c.nextLocalId, play.service) == PacketsBytes(ps) + cut
    modifies c`nextLocalId, c.session`closed, c.session.transport
    ensures r.Ok? ==> c.Link().faults == old(c.Link().faults)
    ensures c.Link().faults == old(c.Link().faults) ==>
              r == Ok(Interpret(ps)) && c.Box() == InboxOf(Channel(true, tail))
  {
    EndToEnd(c.nextLocalId, command, ps, cut, play, tail);
    r := RunV2(c, command);
  }

  /** The v1 service has no packets: all its bytes are the output, and a command always counts as successful. */
  method RunV1AgainstPlay(c: Connection, command: seq<byte>, ghost play: Play, ghost tail: seq<byte>)
    returns (r: Result<CommandResult>)
    requires !c.session.closed && c.Link().tape == PlayBytes(play, tail)
    requires FairPlay(c.nextLocalId, play) && |Destination(Service(false, command))| < WORD
    modifies c`nextLocalId, c.session`closed, c.session.transport
    ensures r.Ok? ==> c.Link().faults == old(c.Link().faults)
    ensures c.Link().faults == old(c.Link().faults) ==>
              && r.Ok? && c.Box() == InboxOf(Channel(true, tail))
              && r.value.output == OwnPayload(old(c.nextLocalId), play.service)
              && r.value.standardOutput == [] && r.value.errorOutput == []
              && r.value.exitCode == 0 && r.value.success
  {
    ServiceDelivery(c.nextLocalId, play, tail);
    r := RunV1(c, command);
  }

  /** A device that opens the service, and then sends `service` and whatever `rest` is. */
  ghost predicate Begins(id: u32, box: Inbox, before: seq<Frame>, okay: Frame, service: seq<Frame>, rest: Inbox)
  {
    && box == Queue(before, Arrives(okay, Queue(service, rest)))
    && (forall f <- before :: f.header.arg1 != id) && okay.header.arg1 == id && okay.header.command == OKAY
    && Traffic(id, service)
  }

  /** Output that is cut short by the end of the session or by an odd frame is not reported as an answer. */
  method RunCutShort(c: Connection, command: seq<byte>, protocol: Protocol, ghost before: seq<Frame>, ghost okay: Frame,
                     ghost service: seq<Frame>, ghost rest: Inbox)
    returns (r: Result<CommandResult>)
    requires Begins(c.nextLocalId, c.Box(), before, okay, service, rest)
    requires |command| + 14 < WORD
    requires rest.Arrives? ==>
               rest.frame.header.arg1 == c.nextLocalId && rest.frame.header.command !in {WRTE, OKAY, CLSE}
    modifies c`nextLocalId, c.session`closed, c.session.transport
    ensures r.Err?
    ensures c.Link().faults == old(c.Link().faults) ==>
              r == Err(if rest.Stops? then rest.error else UNEXPECTED_MESSAGE)
  {
    AwaitBehind(c.nextLocalId, before, Arrives(okay, Queue(service, rest)));
    if rest.Stops? {
      DeliveryCutShort(c.nextLocalId, service, rest.error, rest.open);
    } else {
      DeliveryRejected(c.nextLocalId, service, rest.frame, rest.rest);
    }
    r := Run(c, command, protocol);
  }

  /** The answer depends on the service bytes alone: two plays that carry the same bytes get the same answer. */
  lemma AnswerDependsOnBytesOnly(v2: bool, id: u32, command: seq<byte>, p: Play, q: Play, s: seq<byte>, t: seq<byte>)
    requires FairPlay(id, p) && FairPlay(id, q)
    requires OwnPayload(id, p.service) == OwnPayload(id, q.service)
    ensures Answer(v2, id, command, InboxOf(Channel(true, PlayBytes(p, s))))
         == Answer(v2, id, command, InboxOf(Channel(true, PlayBytes(q, t))))
  {
    ServiceDelivery(id, p, s);
    ServiceDelivery(id, q, t);
  }
}
