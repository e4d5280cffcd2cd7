/** `Connection::connect`: the handshake performed on a transport. */
module Connecting {
  import opened Bytes
  import opened Results
  import opened Wire
  import opened Framing
  import opened Sessions
  import opened Connections
  import opened Banner
  import opened Handshakes

  /** The frames of what the host sent, in order. */
  function FramesOf(host: Host, os: seq<Outgoing>): seq<Frame>
  {
    if os == [] then [] else FramesOf(host, os[..|os| - 1]) + [FrameOf(host, os[|os| - 1])]
  }

  lemma FramesOfAppend(host: Host, os: seq<Outgoing>, o: Outgoing)
    ensures FramesOf(host, os + [o]) == FramesOf(host, os) + [FrameOf(host, o)]
  {
    assert (os + [o])[..|os|] == os;
  }

  /** The journal holds what was sent and received before the handshake, then the handshake's own frames. */
  ghost predicate Logged(c: Connection, host: Host, base: Journal, os: seq<Outgoing>, fs: seq<Frame>)
    reads c.session, c.session.transport
  {
    c.Link().sent == base.sent + FramesOf(host, os) && c.Link().received == base.received + fs
  }

  /**
   Sends one frame and receives the device's next. `seen` is the inbox as the host saw it: what the session holds or,
   when the link fails, nothing but that failure.
   */
  method Exchange(c: Connection, host: Host, o: Outgoing,
                  ghost base: Journal, ghost os: seq<Outgoing>, ghost fs: seq<Frame>)
    returns (r: Result<Frame>, ghost seen: Inbox)
    requires !c.session.closed && Logged(c, host, base, os, fs)
    modifies c.session`closed, c.session.transport
    ensures c.Link().faults >= old(c.Link().faults)
    ensures r.Ok? ==>
              c.Link().faults == old(c.Link().faults) && !c.session.closed && seen.Arrives? && c.Box() == seen.rest
    ensures c.Link().faults == old(c.Link().faults) ==>
              seen == old(c.Box()) && (seen.Stops? ==> c.Box() == Spent(seen.open))
    ensures if seen.Arrives? then r == Ok(seen.frame) && Logged(c, host, base, os + [o], fs + [seen.frame])
            else r == Err(seen.error) && Logged(c, host, base, os + [o], fs)
  {
    FramesOfAppend(host, os, o);
    var frame := FrameOf(host, o);
    assert base.sent + FramesOf(host, os) + [frame] == base.sent + (FramesOf(host, os) + [frame]);
    seen := c.Box();
    var sent := c.Send(frame.header, frame.payload);
    if sent.Err? {
      return Err(sent.error), Stops(sent.error, true);
    }
    r := c.Receive();
    assert r.Ok? ==> base.received + fs + [r.value] == base.received + (fs + [r.value]);
    if c.Link().faults != old(c.Link().faults) {
      seen := Stops(r.error, true);
    }
  }

  /** Offers the public key after an AUTH that the signature did not settle. */
  method OfferKey(c: Connection, host: Host, ghost base: Journal, ghost os: seq<Outgoing>, ghost fs: seq<Frame>)
    returns (r: Result<Frame>, ghost seen: Inbox)
    requires !c.session.closed && Logged(c, host, base, os, fs) && fs != []
    modifies c`requestedAuthorization, c.session`closed, c.session.transport
    ensures c.Link().faults >= old(c.Link().faults) && c.requestedAuthorization
    ensures r.Ok? ==> c.Link().faults == old(c.Link().faults) && !c.session.closed
    ensures var h := Offer(host, os, fs, seen);
            && Logged(c, host, base, h.sent, h.received)
            && h.outcome == (if r.Ok? then Verdict(r.value, true) else Err(r.error))
            && (c.Link().faults == old(c.Link().faults) ==> seen == old(c.Box()) && c.Box() == h.rest)
  {
    c.requestedAuthorization := true;
    seen := c.Box();
    if host.publicKey == [] {
      return Err(NO_KEY), seen;
    }
    var key := host.publicKey + [0];
    var length := DataLengthOf(key);
    if length.Err? {
      return Err(length.error), seen;
    }
    r, seen := Exchange(c, host, Key(key), base, os, fs);
  }

  /** Answers the first AUTH: with a signature when there is a signer, and with the key when that is not enough. */
  method Authenticate(c: Connection, host: Host, token: Frame, ghost base: Journal)
    returns (r: Result<Frame>, ghost seen: Inbox)
    requires !c.session.closed && Logged(c, host, base, [Hello], [token])
    requires !c.requestedAuthorization && token.header.command == AUTH
    modifies c`requestedAuthorization, c.session`closed, c.session.transport
    ensures c.Link().faults >= old(c.Link().faults)
    ensures r.Ok? ==> c.Link().faults == old(c.Link().faults) && !c.session.closed
    ensures var h := Shake(host, Arrives(token, seen));
            && Logged(c, host, base, h.sent, h.received)
            && h.outcome == (if r.Ok? then Verdict(r.value, c.requestedAuthorization) else Err(r.error))
            && (c.Link().faults == old(c.Link().faults) ==> seen == old(c.Box()) && c.Box() == h.rest)
  {
    seen := c.Box();
    if host.signer.None? {
      r, seen := OfferKey(c, host, base, [Hello], [token]);
      return;
    }
    var signature := host.signer.value(token.payload);
    if signature.Err? {
      return Err(signature.error), seen;
    }
    var length := DataLengthOf(signature.value);
    if length.Err? {
      return Err(length.error), seen;
    }
    r, seen := Exchange(c, host, Signature(signature.value), base, [Hello], [token]);
    if r.Err? || r.value.header.command != AUTH {
      return;
    }
    ghost var next, later := r.value, seen;
    r, later := OfferKey(c, host, base, [Hello, Signature(signature.value)], [token, next]);
    seen := Arrives(next, later);
  }

  /** All the sending and receiving of a handshake, up to the frame that must be the device's CNXN. */
  method Greet(c: Connection, host: Host) returns (r: Result<Frame>, ghost seen: Inbox)
    requires !c.session.closed && !c.requestedAuthorization
    modifies c`requestedAuthorization, c.session`closed, c.session.transport
    ensures c.Link().faults >= old(c.Link().faults)
    ensures r.Ok? ==> c.Link().faults == old(c.Link().faults) && !c.session.closed
    ensures var h := Shake(host, seen);
            && Logged(c, host, old(c.Link().Log()), h.sent, h.received)
            && h.outcome == (if r.Ok? then Verdict(r.value, c.requestedAuthorization) else Err(r.error))
            && (c.Link().faults == old(c.Link().faults) ==> seen == old(c.Box()) && c.Box() == h.rest)
  {
    ghost var base := c.Link().Log();
    assert base.sent + [] == base.sent && base.received + [] == base.received;
    r, seen := Exchange(c, host, Hello, base, [], []);
    assert [] + [Hello] == [Hello] && (seen.Arrives? ==> [] + [seen.frame] == [seen.frame]);
    if r.Err? || r.value.header.command != AUTH {
      return;
    }
    ghost var token, later := r.value, seen;
    r, later := Authenticate(c, host, r.value, base);
    seen := Arrives(token, later);
  }

  /** The connection holds what the handshake settled. */
  ghost predicate Holds(c: Connection, s: Settled)
    reads c
  {
    && c.deviceVersion == s.version && c.maxData == s.maxData && c.features == s.features
    && c.deviceSerial == s.serial && c.delayedAck == s.delayedAck
    && c.requestedAuthorization == s.requestedAuthorization
  }

  /** Takes the device's word from its CNXN. */
  method TakeWord(c: Connection, host: Host, frame: Frame)
    modifies c`deviceVersion, c`maxData, c`features, c`deviceSerial, c`delayedAck
    ensures Holds(c, Settle(host, Agreement(frame, c.requestedAuthorization)))
  {
    c.deviceVersion, c.maxData := frame.header.arg0, frame.header.arg1;
    var banner := Chars(frame.payload);
    var features := ParseFeatures(banner);
    c.features, c.deviceSerial := features, ParseSerial(banner);
    c.delayedAck := host.delayedAck && c.SupportsFeature(DELAYED_ACK);
  }

  /** The frames sent are in order, and no frame got more than one answer. */
  ghost predicate Orderly(host: Host, h: Handshake) { SentInOrder(host, h) && |h.received| <= |h.sent| <= 3 }

  lemma HandshakesAreOrderly(host: Host, box: Inbox)
    ensures Orderly(host, Shake(host, box))
  {
    HandshakeOrder(host, box);
  }

  /**
   Connects over a transport. The result is that of `Shake` on the inbox as the host saw it: all that the device sends
   while the link holds, and otherwise a part of it that ends in the link's failure. Whatever happens, the frames sent
   are in order, and there is at most one answer to each.
   */
  method Connect(transport: Transport, host: Host) returns (r: Result<Connection>, ghost seen: Inbox)
    modifies transport
    ensures transport.faults >= old(transport.faults) && (r.Ok? ==> transport.faults == old(transport.faults))
    ensures r.Ok? ==>
              && fresh(r.value) && fresh(r.value.session) && r.value.session.transport == transport
              && !r.value.session.closed && r.value.nextLocalId == 2
    ensures transport.faults == old(transport.faults) ==> seen == InboxOf(Channel(true, old(transport.tape)))
    ensures var h := Shake(host, seen);
            && transport.sent == old(transport.sent) + FramesOf(host, h.sent)
            && transport.received == old(transport.received) + h.received
            && Orderly(host, h)
            && (r.Ok? <==> h.outcome.Ok?)
            && (r.Err? ==> r.error == h.outcome.error)
            && (r.Ok? ==> Holds(r.value, Settle(host, h.outcome.value)) && r.value.Box() == h.rest)
  {
    var session := new Session(transport);
    var c := new Connection(session);
    var frame;
    frame, seen := Greet(c, host);
    HandshakesAreOrderly(host, seen);
    if frame.Err? {
      return Err(frame.error), seen;
    }
    if frame.value.header.command != CNXN {
      return Err(UNEXPECTED_ANSWER), seen;
    }
    TakeWord(c, host, frame.value);
    r := Ok(c);
  }

  // ----- connecting to a device that behaves

  /** The device is about to send these frames. */
  ghost predicate Stages(transport: Transport, frames: seq<Frame>, tail: seq<byte>)
    reads transport
  {
    transport.tape == TapeOf(frames) + tail && forall f <- frames :: Acceptable(f)
  }

  /** The frames sent since `base` are these, field by field. */
  ghost predicate SentHello(host: Host, sent: seq<Frame>, base: seq<Frame>, more: nat)
  {
    && |sent| == |base| + 1 + more && base <= sent
    && Carries(sent[|base|], CNXN, 0x0100_0001, 1024 * 1024, Ascii(Identity(host.codecs, host.delayedAck)))
  }

  /** The connection has what the device's CNXN says. */
  ghost predicate TakesWord(c: Connection, host: Host, cnxn: Frame, asked: bool)
    reads c
  {
    && c.deviceVersion == cnxn.header.arg0 && c.maxData == cnxn.header.arg1
    && c.features == FeaturesOf(Chars(cnxn.payload)) && c.deviceSerial == ParseSerial(Chars(cnxn.payload))
    && c.requestedAuthorization == asked
    && c.delayedAck == (host.delayedAck && "delayed_ack" in FeaturesOf(Chars(cnxn.payload)))
  }

  lemma FramesOfUpToThree(host: Host, os: seq<Outgoing>)
    requires |os| <= 3
    ensures |FramesOf(host, os)| == |os|
    ensures forall i :: 0 <= i < |os| ==> FramesOf(host, os)[i] == FrameOf(host, os[i])
  {
    if os != [] {
      FramesOfUpToThree(host, os[..|os| - 1]);
    }
  }

  /** A device that trusts the host: CNXN is answered by CNXN. */
  method ConnectTrusted(transport: Transport, host: Host, ghost cnxn: Frame, ghost tail: seq<byte>)
    returns (r: Result<Connection>)
    requires Stages(transport, [cnxn], tail) && cnxn.header.command == CNXN
    modifies transport
    ensures transport.faults == old(transport.faults) ==>
              && r.Ok? && TakesWord(r.value, host, cnxn, false) && r.value.Box() == InboxOf(Channel(true, tail))
              && SentHello(host, transport.sent, old(transport.sent), 0)
  {
    ghost var rest := InboxOf(Channel(true, tail));
    FramingRoundTrip([cnxn], tail);
    TrustedHost(host, cnxn, rest);
    FramesOfUpToThree(host, [Hello]);
    OutgoingOnWire(host, []);
    ghost var seen;
    r, seen := Connect(transport, host);
  }

  /** A device that knows the host: the token is signed, and nobody is asked. */
  method ConnectKnown(transport: Transport, host: Host, ghost token: Frame, ghost cnxn: Frame, ghost tail: seq<byte>)
    returns (r: Result<Connection>)
    requires Stages(transport, [token, cnxn], tail)
    requires token.header.command == AUTH && cnxn.header.command == CNXN && CanSign(host, token.payload)
    modifies transport
    ensures transport.faults == old(transport.faults) ==>
              && r.Ok? && TakesWord(r.value, host, cnxn, false) && r.value.Box() == InboxOf(Channel(true, tail))
              && SentHello(host, transport.sent, old(transport.sent), 1)
              && Carries(transport.sent[|old(transport.sent)| + 1], AUTH, 2, 0, host.signer.value(token.payload).value)
  {
    ghost var rest := InboxOf(Channel(true, tail));
    ghost var signature := host.signer.value(token.payload).value;
    FramingRoundTrip([token, cnxn], tail);
    KnownHost(host, token, cnxn, rest);
    FramesOfUpToThree(host, [Hello, Signature(signature)]);
    OutgoingOnWire(host, signature);
    ghost var seen;
    r, seen := Connect(transport, host);
  }

  /** A device that does not know the host, and whose user authorizes it. */
  method ConnectUnknown(transport: Transport, host: Host, ghost token: Frame, ghost again: Frame, ghost cnxn: Frame,
                        ghost tail: seq<byte>)
    returns (r: Result<Connection>)
    requires Stages(transport, [token, again, cnxn], tail)
    requires token.header.command == AUTH && again.header.command == AUTH && cnxn.header.command == CNXN
    requires CanSign(host, token.payload) && HasKey(host)
    modifies transport
    ensures transport.faults == old(transport.faults) ==>
              && r.Ok? && TakesWord(r.value, host, cnxn, true) && r.value.Box() == InboxOf(Channel(true, tail))
              && SentHello(host, transport.sent, old(transport.sent), 2)
              && Carries(transport.sent[|old(transport.sent)| + 1], AUTH, 2, 0, host.signer.value(token.payload).value)
              && Carries(transport.sent[|old(transport.sent)| + 2], AUTH, 3, 0, host.publicKey + [0])
  {
    ghost var rest := InboxOf(Channel(true, tail));
    ghost var signature, key := host.signer.value(token.payload).value, host.publicKey + [0];
    FramingRoundTrip([token, again, cnxn], tail);
    UnknownHost(host, token, again, cnxn, rest);
    FramesOfUpToThree(host, [Hello, Signature(signature), Key(key)]);
    OutgoingOnWire(host, signature);
    OutgoingOnWire(host, key);
    ghost var seen;
    r, seen := Connect(transport, host);
  }
}
