/** The CNXN handshake: what the host sends and settles, over every behaviour of the device. */
module Handshakes {
  import opened Bytes
  import opened Results
  import opened Wire
  import opened Framing
  import opened Streams
  import opened Banner

  type Signer = seq<byte> -> Result<seq<byte>>

  /** Which codecs the build has; each adds its name to the host's banner. */
  datatype Codecs = Codecs(zstd: bool, lz4: bool, brotli: bool)

  /** What the caller of `connect` brings. */
  datatype Host = Host(publicKey: seq<byte>, signer: Option<Signer>, delayedAck: bool, codecs: Codecs)

  const SYSTEM_IDENTITY := "host::" + FEATURES + "shell_v2" + "," + "stat_v2" + "," + "ls_v2"
  const DELAYED_ACK := "delayed_ack"

  const NO_KEY :=
    Error(ErrorCode.Crypto,
          "the device rejected the signature and no public key is available to request authorization")
  const UNEXPECTED_ANSWER := Error(ErrorCode.Protocol, "unexpected response to the CNXN message")

  /** A feature name that is advertised under a condition. */
  datatype Optional = Optional(condition: bool, name: string)

  /** Appends the names whose condition holds. */
  function Advertise(banner: string, extras: seq<Optional>): (r: string)
    requires forall e <- extras :: |e.name| < 20
    ensures |r| <= |banner| + 20 * |extras|
    decreases |extras|
  {
    if extras == [] then banner
    else if extras[0].condition then Advertise(banner + "," + extras[0].name, extras[1..])
    else Advertise(banner, extras[1..])
  }

  function Extras(codecs: Codecs, delayedAck: bool): seq<Optional>
  {
    [Optional(codecs.zstd || codecs.lz4 || codecs.brotli, "sendrecv_v2"),
     Optional(codecs.zstd, "sendrecv_v2_zstd"),
     Optional(codecs.lz4, "sendrecv_v2_lz4"),
     Optional(codecs.brotli, "sendrecv_v2_brotli"),
     Optional(delayedAck, DELAYED_ACK)]
  }

  function Identity(codecs: Codecs, delayedAck: bool): (r: string)
    ensures |r| < 200
  {
    Advertise(SYSTEM_IDENTITY, Extras(codecs, delayedAck))
  }

  /** The field between the first two "::" of a banner. */
  function ParseSerial(banner: string): string
  {
    match Find(banner, "::", 0)
    case None => ""
    case Some(first) =>
      match Find(banner, "::", first + 2)
      case None => ""
      case Some(second) => banner[first + 2..second]
  }

  /** The frames a host can send during a handshake. */
  datatype Outgoing = Hello | Signature(data: Payload) | Key(data: Payload)

  /** Bytes whose length fits a header. */
  type Payload = d: seq<byte> | |d| < WORD

  function FrameOf(host: Host, o: Outgoing): Frame
  {
    match o
    case Hello => DataFrame(CNXN, VERSION, MAX_DATA, Ascii(Identity(host.codecs, host.delayedAck)))
    case Signature(data) => DataFrame(AUTH, AUTH_SIGNATURE, 0, data)
    case Key(data) => DataFrame(AUTH, AUTH_PUBLIC_KEY, 0, data)
  }

  /** What goes out, field by field: CNXN with the host's version and limits, and AUTH of type 2 or 3. */
  lemma OutgoingOnWire(host: Host, data: Payload)
    ensures Carries(FrameOf(host, Hello), CNXN, 0x0100_0001, 1024 * 1024, Ascii(Identity(host.codecs, host.delayedAck)))
    ensures Carries(FrameOf(host, Signature(data)), AUTH, 2, 0, data)
    ensures Carries(FrameOf(host, Key(data)), AUTH, 3, 0, data)
  {
  }

  /** In a colon-free text between `from` and a double colon, the double colon is the first. */
  lemma FirstDoubleColon(text: string, from: nat, at: nat)
    requires from <= at <= |text| - 2 && text[at..at + 2] == "::" && ':' !in text[from..at]
    ensures Find(text, "::", from) == Some(at)
  {
    forall i: nat | from <= i < at ensures !OccursAt(text, "::", i) {
      assert text[i] == text[from..at][i - from];
      assert i + 2 <= |text| ==> text[i..i + 2][0] == text[i];
    }
    assert OccursAt(text, "::", at);
  }

  /** The serial is what stands between the first two double colons. */
  lemma SerialRoundTrip(kind: string, serial: string, rest: string)
    requires ':' !in kind && ':' !in serial
    ensures ParseSerial(kind + "::" + serial + "::" + rest) == serial
  {
    var banner, start, second := kind + "::" + serial + "::" + rest, |kind| + 2, |kind| + 2 + |serial|;
    assert banner[0..|kind|] == kind && banner[|kind|..start] == "::";
    FirstDoubleColon(banner, 0, |kind|);
    assert banner[start..second] == serial && banner[second..second + 2] == "::";
    FirstDoubleColon(banner, start, second);
  }

  /** How a successful handshake ends: the device's CNXN, and whether the user was asked to authorize the host. */
  datatype Agreement = Agreement(device: Frame, asked: bool)

  /** What a successful handshake settles for the connection. */
  datatype Settled = Settled(version: u32, maxData: u32, features: seq<string>, serial: string,
                             delayedAck: bool, requestedAuthorization: bool)

  /** A whole handshake: what was sent and received, the outcome, and what the device has left to say. */
  datatype Handshake = Handshake(sent: seq<Outgoing>, received: seq<Frame>, outcome: Result<Agreement>, rest: Inbox)

  function Shake(host: Host, box: Inbox): Handshake
  {
    match box
    case Stops(e, open) => Handshake([Hello], [], Err(e), Spent(open))
    case Arrives(f, rest) =>
      if f.header.command != AUTH then Conclude([Hello], [f], false, rest)
      else if host.signer.None? then Offer(host, [Hello], [f], rest)
      else Sign(host, f, rest)
  }

  /** Answers the first AUTH with its payload signed. */
  function Sign(host: Host, token: Frame, box: Inbox): Handshake
    requires host.signer.Some?
  {
    match host.signer.value(token.payload)
    case Err(e) => Handshake([Hello], [token], Err(e), box)
    case Ok(signature) =>
      if |signature| >= WORD then Handshake([Hello], [token], Err(DataLengthOf(signature).error), box)
      else
        match box
        case Stops(e, open) => Handshake([Hello, Signature(signature)], [token], Err(e), Spent(open))
        case Arrives(f, rest) =>
          if f.header.command != AUTH then Conclude([Hello, Signature(signature)], [token, f], false, rest)
          else Offer(host, [Hello, Signature(signature)], [token, f], rest)
  }

  /** Answers an AUTH with the public key, to ask for authorization on the device. */
  function Offer(host: Host, sent: seq<Outgoing>, received: seq<Frame>, box: Inbox): Handshake
  {
    var key := host.publicKey + [0];
    if host.publicKey == [] then Handshake(sent, received, Err(NO_KEY), box)
    else if |key| >= WORD then Handshake(sent, received, Err(DataLengthOf(key).error), box)
    else
      match box
      case Stops(e, open) => Handshake(sent + [Key(key)], received, Err(e), Spent(open))
      case Arrives(f, rest) => Conclude(sent + [Key(key)], received + [f], true, rest)
  }

  /** The last frame must be the device's CNXN. */
  function Conclude(sent: seq<Outgoing>, received: seq<Frame>, asked: bool, rest: Inbox): Handshake
    requires received != []
  {
    Handshake(sent, received, Verdict(received[|received| - 1], asked), rest)
  }

  function Verdict(last: Frame, asked: bool): Result<Agreement>
  {
    if last.header.command != CNXN then Err(UNEXPECTED_ANSWER) else Ok(Agreement(last, asked))
  }

  /** The connection's settings follow from the banner of the device's CNXN. */
  function Settle(host: Host, a: Agreement): Settled
  {
    var banner := Chars(a.device.payload);
    Settled(a.device.header.arg0, a.device.header.arg1, FeaturesOf(banner), ParseSerial(banner),
            host.delayedAck && DELAYED_ACK in FeaturesOf(banner), a.asked)
  }

  // ----- what every handshake has in common

  /** CNXN, then at most one signature, which is that of the first token, then at most one public key. */
  ghost predicate SentInOrder(host: Host, h: Handshake)
  {
    && 1 <= |h.sent| <= 3 && h.sent[0] == Hello
    && (|h.sent| == 2 ==> SignsFirstToken(host, h) || IsKey(host, h.sent[1]))
    && (|h.sent| == 3 ==> SignsFirstToken(host, h) && IsKey(host, h.sent[2]))
  }

  ghost predicate SignsFirstToken(host: Host, h: Handshake)
  {
    && |h.sent| >= 2 && h.sent[1].Signature?
    && h.received != [] && h.received[0].header.command == AUTH
    && host.signer.Some? && host.signer.value(h.received[0].payload) == Ok(h.sent[1].data)
  }

  predicate IsKey(host: Host, o: Outgoing)
  {
    host.publicKey != [] && o.Key? && o.data == host.publicKey + [0]
  }

  /**
   Over every device behaviour: what is sent, that the frames received are the first the device sent, and that only the
   last of them can be anything but an AUTH.
   */
  lemma HandshakeOrder(host: Host, box: Inbox)
    ensures var h := Shake(host, box);
            && SentInOrder(host, h)
            && |h.received| <= |h.sent| && box == Queue(h.received, Behind(box, |h.received|))
            && (forall i :: 0 <= i < |h.received| - 1 ==> h.received[i].header.command == AUTH)
  {
    HandshakeConsumes(host, box);
  }

  /** What is left of an inbox once its first `n` frames have been taken. */
  function Behind(box: Inbox, n: nat): Inbox { if n == 0 || box.Stops? then box else Behind(box.rest, n - 1) }

  /**
   However it ends, a handshake has taken from the device the frames it lists, in order, and no others: what is left is
   what is behind them, unless a frame was sent that got no answer.
   */
  lemma HandshakeConsumes(host: Host, box: Inbox)
    ensures var h := Shake(host, box);
            var behind := Behind(box, |h.received|);
            && box == Queue(h.received, behind)
            && if |h.sent| == |h.received| then h.rest == behind else behind.Stops? && h.rest == Spent(behind.open)
  {
    var h := Shake(host, box);
    if box.Arrives? {
      BehindUpToThree(box, |h.received|);
    }
    QueueOfUpToThree(h.received, Behind(box, |h.received|));
  }

  lemma BehindUpToThree(box: Inbox, n: nat)
    requires 1 <= n <= 3 && box.Arrives?
    ensures n == 1 ==> Behind(box, n) == box.rest
    ensures n == 2 && box.rest.Arrives? ==> Behind(box, n) == box.rest.rest
    ensures n == 3 && box.rest.Arrives? && box.rest.rest.Arrives? ==> Behind(box, n) == box.rest.rest.rest
  {
    assert Behind(box, n) == Behind(box.rest, n - 1);
    if n > 1 && box.rest.Arrives? {
      BehindUpToThree(box.rest, n - 1);
    }
  }

  lemma QueueOfUpToThree(fs: seq<Frame>, rest: Inbox)
    ensures |fs| == 1 ==> Queue(fs, rest) == Arrives(fs[0], rest)
    ensures |fs| == 2 ==> Queue(fs, rest) == Arrives(fs[0], Arrives(fs[1], rest))
    ensures |fs| == 3 ==> Queue(fs, rest) == Arrives(fs[0], Arrives(fs[1], Arrives(fs[2], rest)))
  {
    if |fs| == 2 || |fs| == 3 {
      QueueOfUpToThree(fs[1..], rest);
    }
  }

  /**
   Success: every frame sent was answered, the last answer was the device's CNXN, and authorization counts as
   requested exactly when the public key was sent.
   */
  lemma HandshakeSuccess(host: Host, box: Inbox)
    ensures var h := Shake(host, box);
            h.outcome.Ok? ==>
              && |h.received| == |h.sent| >= 1
              && h.outcome.value.device == h.received[|h.received| - 1]
              && h.outcome.value.device.header.command == CNXN
              && (h.outcome.value.asked <==> exists o <- h.sent :: o.Key?)
  {
    var h := Shake(host, box);
    if h.outcome.Ok? {
      assert h.outcome.value.asked <==> h.sent[|h.sent| - 1].Key?;
    }
  }

  // ----- what exactly is sent, and what comes of it

  predicate IsAuth(box: Inbox) { box.Arrives? && box.frame.header.command == AUTH }

  /** The host has a signer, which signs the token, with a signature that fits a frame. */
  predicate CanSign(host: Host, token: seq<byte>)
  {
    host.signer.Some? && host.signer.value(token).Ok? && |host.signer.value(token).value| < WORD
  }

  predicate HasKey(host: Host) { host.publicKey != [] && |host.publicKey| + 1 < WORD }

  /** A signature is sent if and only if the device first asks for authentication and the host can sign its token. */
  lemma SignatureSentIff(host: Host, box: Inbox)
    ensures var h := Shake(host, box);
            && ((exists o <- h.sent :: o.Signature?) <==> IsAuth(box) && CanSign(host, box.frame.payload))
            && ((exists o <- h.sent :: o.Signature?) ==>
                  |h.sent| >= 2 && h.sent[1] == Signature(host.signer.value(box.frame.payload).value))
  {
    var h := Shake(host, box);
    if IsAuth(box) && CanSign(host, box.frame.payload) {
      assert h.sent[1].Signature?;
    }
  }

  /**
   The public key is sent if and only if the host has one that fits, and the device asks for authentication: once if the
   host has no signer, and otherwise again after the signature.
   */
  lemma KeySentIff(host: Host, box: Inbox)
    ensures var h := Shake(host, box);
            var asked := IsAuth(box)
                      && (host.signer.None? || (CanSign(host, box.frame.payload) && IsAuth(box.rest)));
            && ((exists o <- h.sent :: o.Key?) <==> asked && HasKey(host))
            && (asked && host.publicKey == [] ==> h.outcome == Err(NO_KEY))
  {
    var h := Shake(host, box);
    var asked := IsAuth(box) && (host.signer.None? || (CanSign(host, box.frame.payload) && IsAuth(box.rest)));
    if asked && HasKey(host) {
      assert h.sent[|h.sent| - 1].Key?;
    }
  }

  /** A device that trusts the host answers CNXN at once. */
  lemma TrustedHost(host: Host, cnxn: Frame, rest: Inbox)
    requires cnxn.header.command == CNXN
    ensures Shake(host, Queue([cnxn], rest)) == Handshake([Hello], [cnxn], Ok(Agreement(cnxn, false)), rest)
  {
    QueueOfUpToThree([cnxn], rest);
  }

  /** A known host signs the token, and nobody is asked. */
  lemma KnownHost(host: Host, token: Frame, cnxn: Frame, rest: Inbox)
    requires token.header.command == AUTH && cnxn.header.command == CNXN && CanSign(host, token.payload)
    ensures Shake(host, Queue([token, cnxn], rest))
         == Handshake([Hello, Signature(host.signer.value(token.payload).value)], [token, cnxn],
                      Ok(Agreement(cnxn, false)), rest)
  {
    QueueOfUpToThree([token, cnxn], rest);
  }

  /** A host that the device does not know sends its key after the signature, and the user is asked. */
  lemma UnknownHost(host: Host, token: Frame, again: Frame, cnxn: Frame, rest: Inbox)
    requires token.header.command == AUTH && again.header.command == AUTH && cnxn.header.command == CNXN
    requires CanSign(host, token.payload) && HasKey(host)
    ensures Shake(host, Queue([token, again, cnxn], rest))
         == Handshake([Hello, Signature(host.signer.value(token.payload).value), Key(host.publicKey + [0])],
                      [token, again, cnxn], Ok(Agreement(cnxn, true)), rest)
  {
    QueueOfUpToThree([token, again, cnxn], rest);
  }

  /** A host that cannot sign sends its key at once. */
  lemma UnsignedHost(host: Host, token: Frame, cnxn: Frame, rest: Inbox)
    requires token.header.command == AUTH && cnxn.header.command == CNXN && host.signer.None? && HasKey(host)
    ensures Shake(host, Queue([token, cnxn], rest))
         == Handshake([Hello, Key(host.publicKey + [0])], [token, cnxn], Ok(Agreement(cnxn, true)), rest)
  {
    QueueOfUpToThree([token, cnxn], rest);
  }

  /** OPEN announces a window exactly when both sides advertised delayed acknowledgement. */
  lemma WindowIffBothAdvertise(host: Host, box: Inbox)
    requires Shake(host, box).outcome.Ok?
    ensures var agreed := Shake(host, box).outcome.value;
            Window(Settle(host, agreed).delayedAck) != 0
            <==> DELAYED_ACK in FeaturesOf(Identity(host.codecs, host.delayedAck))
                 && DELAYED_ACK in FeaturesOf(Chars(agreed.device.payload))
  {
    IdentityFeatures(host.codecs, host.delayedAck);
    AdvertisesDelayedAck(host.codecs, host.delayedAck);
  }

  // ----- the host's own banner

  /** The names meant to be advertised. */
  function Meant(names: seq<string>, extras: seq<Optional>): seq<string>
    decreases |extras|
  {
    if extras == [] then names
    else Meant(if extras[0].condition then names + [extras[0].name] else names, extras[1..])
  }

  const BASE_FEATURES := ["shell_v2", "stat_v2", "ls_v2"]

  function OwnFeatures(codecs: Codecs, delayedAck: bool): seq<string>
  {
    Meant(BASE_FEATURES, Extras(codecs, delayedAck))
  }

  lemma {:induction false} JoinAppend(names: seq<string>, x: string)
    requires names != []
    ensures Join(names + [x]) == Join(names) + "," + x
  {
    if |names| == 1 {
      assert (names + [x])[1..] == [x];
    } else {
      assert (names + [x])[1..] == names[1..] + [x];
      JoinAppend(names[1..], x);
      assert Join(names + [x]) == names[0] + "," + (Join(names[1..]) + "," + x);
      assert Join(names) + "," + x == names[0] + "," + Join(names[1..]) + "," + x;
    }
  }

  lemma {:induction false} AdvertiseIsMeant(prefix: string, names: seq<string>, extras: seq<Optional>)
    requires names != [] && (forall n <- names :: Plain(n))
    requires forall e <- extras :: |e.name| < 20 && Plain(e.name)
    ensures Advertise(prefix + Join(names), extras) == prefix + Join(Meant(names, extras))
    ensures forall n <- Meant(names, extras) :: Plain(n)
    decreases |extras|
  {
    if extras != [] {
      var e := extras[0];
      assert Plain(e.name);
      if e.condition {
        JoinAppend(names, e.name);
        assert prefix + Join(names) + "," + e.name == prefix + Join(names + [e.name]);
        AdvertiseIsMeant(prefix, names + [e.name], extras[1..]);
      } else {
        AdvertiseIsMeant(prefix, names, extras[1..]);
      }
    }
  }

  lemma BaseIdentity()
    ensures forall n <- BASE_FEATURES :: Plain(n)
    ensures SYSTEM_IDENTITY == "host::" + FEATURES + Join(BASE_FEATURES)
  {
    var names := BASE_FEATURES;
    assert names[1..] == ["stat_v2", "ls_v2"] && names[1..][1..] == ["ls_v2"];
    assert Join(names) == "shell_v2" + "," + ("stat_v2" + "," + "ls_v2");
  }

  lemma {:induction false} MeantContains(names: seq<string>, extras: seq<Optional>, x: string)
    ensures x in Meant(names, extras) <==> x in names || Optional(true, x) in extras
    decreases |extras|
  {
    if extras != [] {
      MeantContains(if extras[0].condition then names + [extras[0].name] else names, extras[1..], x);
      assert Optional(true, x) in extras <==> extras[0] == Optional(true, x) || Optional(true, x) in extras[1..];
    }
  }

  lemma FeatureNamesArePlain()
    ensures Plain("sendrecv_v2") && Plain("sendrecv_v2_zstd") && Plain("sendrecv_v2_lz4")
    ensures Plain("sendrecv_v2_brotli") && Plain(DELAYED_ACK)
  {
  }

  lemma ExtrasArePlain(codecs: Codecs, delayedAck: bool)
    ensures forall e <- Extras(codecs, delayedAck) :: |e.name| < 20 && Plain(e.name)
  {
    FeatureNamesArePlain();
    var extras := Extras(codecs, delayedAck);
    forall e <- extras ensures |e.name| < 20 && Plain(e.name) {
      assert e == extras[0] || e == extras[1] || e == extras[2] || e == extras[3] || e == extras[4];
    }
  }

  lemma ReadsMeant(extras: seq<Optional>)
    requires forall e <- extras :: |e.name| < 20 && Plain(e.name)
    ensures FeaturesOf(Advertise(SYSTEM_IDENTITY, extras)) == Meant(BASE_FEATURES, extras)
  {
    var names := Meant(BASE_FEATURES, extras);
    BaseIdentity();
    AdvertiseIsMeant("host::" + FEATURES, BASE_FEATURES, extras);
    FeaturesRoundTrip("host::", names, "");
    assert Join(names) + "" == Join(names);
  }

  /** The host's banner, written out. */
  lemma IdentityText(codecs: Codecs, delayedAck: bool)
    ensures Identity(codecs, delayedAck) == "host::" + "features=" + Join(OwnFeatures(codecs, delayedAck))
  {
    ExtrasArePlain(codecs, delayedAck);
    BaseIdentity();
    AdvertiseIsMeant("host::" + FEATURES, BASE_FEATURES, Extras(codecs, delayedAck));
  }

  /** The device reads from the host's banner exactly what the host means to advertise. */
  lemma IdentityFeatures(codecs: Codecs, delayedAck: bool)
    ensures FeaturesOf(Identity(codecs, delayedAck)) == OwnFeatures(codecs, delayedAck)
  {
    ExtrasArePlain(codecs, delayedAck);
    ReadsMeant(Extras(codecs, delayedAck));
  }

  lemma AdvertisesDelayedAck(codecs: Codecs, delayedAck: bool)
    ensures DELAYED_ACK in OwnFeatures(codecs, delayedAck) <==> delayedAck
  {
    var extras := Extras(codecs, delayedAck);
    MeantContains(BASE_FEATURES, extras, DELAYED_ACK);
    assert extras[4] == Optional(delayedAck, DELAYED_ACK);
    assert DELAYED_ACK[0] == 'd' && "sendrecv_v2"[0] == 's' && |DELAYED_ACK| == 11;
  }
}
