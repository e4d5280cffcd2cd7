/** A connection: the session with a device and what the handshake settled about it. */
module Connections {
  import opened Bytes
  import opened Results
  import opened Wire
  import opened Framing
  import opened Sessions

  class Connection {
    const session: Session
    var deviceVersion: u32
    var maxData: u32
    var nextLocalId: u32
    var features: seq<string>
    var deviceSerial: string
    var delayedAck: bool
    var requestedAuthorization: bool

    /** The transport under the session. */
    ghost function Link(): Transport
      reads session
    {
      session.transport
    }

    /** What the device will still deliver. */
    ghost function Box(): Inbox
      reads session, session.transport
    {
      InboxOf(session.View())
    }

    constructor (session: Session)
      ensures this.session == session
      ensures deviceVersion == 0 && maxData == 0 && nextLocalId == 2
      ensures features == [] && deviceSerial == "" && !delayedAck && !requestedAuthorization
    {
      this.session := session;
      deviceVersion, maxData, nextLocalId := 0, 0, 2;
      features, deviceSerial := [], "";
      delayedAck, requestedAuthorization := false, false;
    }

    method AllocateLocalId() returns (id: u32)
      modifies this`nextLocalId
      ensures id == old(nextLocalId) && nextLocalId == NextId(old(nextLocalId))
    {
      id := nextLocalId;
      nextLocalId := if nextLocalId == WORD - 1 then 0 else nextLocalId + 1;
    }

    predicate SupportsFeature(feature: string)
      reads this
    {
      feature in features
    }

    /** Closes the session: the transport is closed, and every later call fails. */
    method Close()
      modifies session`closed, session.transport`closes, session.transport`touches
      ensures session.closed
      ensures Link().closes == old(Link().closes) + if old(session.closed) then 0 else 1
    {
      session.Close();
    }

    method Send(header: Message, payload: seq<byte>) returns (r: Status)
      modifies session.transport`written, session.transport`touches, session.transport`faults, session.transport`sent
      ensures session.closed ==> r == Err(SESSION_CLOSED)
      ensures session.closed || header.dataLength != |payload| ==> r.Err? && unchanged(Link())
      ensures !session.closed && header.dataLength == |payload| ==>
                && Link().sent == old(Link().sent) + [Frame(header, payload)]
                && (r.Ok? <==> Link().faults == old(Link().faults))
      ensures Box() == old(Box()) && Link().faults >= old(Link().faults)
    {
      r := session.Send(header, payload);
    }

    /** Takes the first item of the inbox, unless the link fails. */
    method Receive() returns (r: Result<Frame>)
      modifies session`closed
      modifies session.transport`tape, session.transport`touches, session.transport`faults, session.transport`closes
      modifies session.transport`received
      ensures Link().faults == old(Link().faults) ==>
                if old(Box()).Arrives?
                then r == Ok(old(Box()).frame) && Box() == old(Box()).rest && !old(session.closed) && !session.closed
                else r == Err(old(Box()).error) && Box() == Spent(old(Box()).open) && session.closed == !old(Box()).open
      ensures Link().faults != old(Link().faults) ==> r.Err? && session.closed == old(session.closed)
      ensures Suffix(Link().tape, old(Link().tape)) && Link().faults >= old(Link().faults)
      ensures r.Ok? ==> |Link().tape| < |old(Link().tape)|
      ensures Link().received == if r.Ok? then old(Link().received) + [r.value] else old(Link().received)
    {
      InboxStep(session.View());
      r := session.Receive();
    }
  }

  /** The 32-bit increment. */
  function NextId(id: u32): u32 { if id == WORD - 1 then 0 else id + 1 }

  /** The local id of the `n`-th stream from the one with id `first` on, counted from zero. */
  function IdAfter(first: u32, n: nat): u32 { if n == 0 then first else NextId(IdAfter(first, n - 1)) }

  lemma NextIdIs(k: nat)
    ensures NextId(k % WORD) == (k + 1) % WORD
  {
    var q, r := k / WORD, k % WORD;
    assert k + 1 == q * WORD + (r + 1);
    if r == WORD - 1 {
      assert k + 1 == (q + 1) * WORD;
    }
  }

  lemma {:induction false} IdAfterIs(first: u32, n: nat)
    ensures IdAfter(first, n) == (first + n) % WORD
  {
    if n > 0 {
      IdAfterIs(first, n - 1);
      NextIdIs(first + n - 1);
    }
  }

  /** The local id of the `n`-th stream of a connection. */
  function IdOfStream(n: nat): u32 { IdAfter(2, n) }

  predicate SameId(i: nat, j: nat) { IdOfStream(i) == IdOfStream(j) }

  /** Ids repeat after a whole round of the counter, and not before. */
  lemma IdsRepeat(first: u32, i: nat, j: nat)
    requires i < j <= i + WORD
    ensures IdAfter(first, i) == IdAfter(first, j) <==> j == i + WORD
  {
    IdAfterIs(first, i);
    IdAfterIs(first, j);
    var p, q := (first + i) / WORD, (first + j) / WORD;
    assert first + i == p * WORD + IdAfter(first, i) && first + j == q * WORD + IdAfter(first, j);
  }

  /** Local ids are promised to be unique. The counter wraps, so the first `n` are exactly when `n` is at most 2^32. */
  lemma IdsUniqueUntilWrap(n: nat)
    ensures (forall i: nat, j: nat :: i < j < n ==> !SameId(i, j)) <==> n <= WORD
  {
    if n > WORD {
      IdsRepeat(2, 0, WORD);
      assert SameId(0, WORD);
    } else {
      forall i: nat, j: nat | i < j < n
        ensures !SameId(i, j)
      {
        IdsRepeat(2, i, j);
      }
    }
  }

  /** They are also promised to be non-zero: the first `n` are exactly when `n` is below 2^32 - 1. */
  lemma IdsNonZeroUntilWrap(n: nat)
    ensures (forall i :: 0 <= i < n ==> IdOfStream(i) != 0) <==> n < WORD - 1
  {
    if n >= WORD - 1 {
      IdAfterIs(2, WORD - 2);
      assert IdOfStream(WORD - 2) == 0;
    } else {
      forall i | 0 <= i < n
        ensures IdOfStream(i) != 0
      {
        IdAfterIs(2, i);
      }
    }
  }
}
