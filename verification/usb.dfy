/** The buffering of the USB transport: transfers come in whole, reads take what they ask for. */
module Usb {
  import opened Bytes
  import opened Results

  const READ_BUFFER_SIZE: nat := 0x4_0000

  datatype Code = Success | Timeout | Failure

  /** One bulk transfer: its result code and the bytes it moved, whatever the code. */
  datatype Transfer = Transfer(code: Code, data: Block)

  type Block = d: seq<byte> | |d| <= READ_BUFFER_SIZE

  /** A timeout that still moved bytes counts as a short transfer. */
  predicate Accepted(t: Transfer) { t.code == Success || (t.code == Timeout && t.data != []) }

  const TRANSFER_FAILED := Error(ErrorCode.Transport, "libusb_bulk_transfer failed")

  /** The buffer and its cursor, the transfers the driver made, and the bytes handed out. */
  datatype State = State(incoming: seq<byte>, offset: nat, transfers: seq<Transfer>, handed: seq<byte>)

  const START := State([], 0, [], [])

  /** The bytes of the accepted transfers, in order. */
  function Delivered(ts: seq<Transfer>): seq<byte>
  {
    if ts == [] then []
    else if Accepted(ts[|ts| - 1]) then Delivered(ts[..|ts| - 1]) + ts[|ts| - 1].data
    else Delivered(ts[..|ts| - 1])
  }

  lemma DeliveredAppend(ts: seq<Transfer>, t: Transfer)
    ensures Delivered(ts + [t]) == if Accepted(t) then Delivered(ts) + t.data else Delivered(ts)
  {
    assert (ts + [t])[..|ts|] == ts;
  }

  /** The buffer grown to full size for a transfer, with `data` written over its front. */
  function Overwritten(incoming: seq<byte>, data: Block): (r: seq<byte>)
    requires |incoming| <= READ_BUFFER_SIZE
    ensures |r| == READ_BUFFER_SIZE
  {
    var grown := incoming + seq(READ_BUFFER_SIZE - |incoming|, _ => 0);
    data + grown[|data|..]
  }

  datatype Did<T> = Did(result: Result<T>, state: State)

  /** `read` of up to `n` bytes; `t` is what a transfer would do, if one is needed. */
  function ReadFrom(s: State, n: nat, t: Transfer): Did<seq<byte>>
    requires |s.incoming| <= READ_BUFFER_SIZE
  {
    if s.offset < |s.incoming| then HandOut(s, n)
    else
      var moved := s.(transfers := s.transfers + [t]);
      if !Accepted(t) then Did(Err(TRANSFER_FAILED), moved.(incoming := Overwritten(s.incoming, t.data)))
      else HandOut(moved.(incoming := t.data, offset := 0), n)
  }

  function HandOut(s: State, n: nat): Did<seq<byte>>
    requires s.offset <= |s.incoming|
  {
    var count := Min(|s.incoming| - s.offset, n);
    var bytes := s.incoming[s.offset..s.offset + count];
    Did(Ok(bytes), s.(offset := s.offset + count, handed := s.handed + bytes))
  }

  /** `wait_readable`: buffers a transfer for the next read, and forgets a failed one. */
  function WaitOn(s: State, t: Transfer): Did<bool>
  {
    if s.offset < |s.incoming| then Did(Ok(true), s)
    else
      var moved := s.(transfers := s.transfers + [t], offset := 0);
      if !Accepted(t) then Did(Err(TRANSFER_FAILED), moved.(incoming := []))
      else Did(Ok(t.code == Success || t.data != []), moved.(incoming := t.data))
  }

  /** What the transport interface promises of a wait: a timeout is an answer, not an error. */
  function PromisedWait(s: State, t: Transfer): Result<bool>
  {
    if s.offset < |s.incoming| then Ok(true)
    else if t.code == Failure then Err(TRANSFER_FAILED)
    else Ok(t.code == Success || t.data != [])
  }

  /** The promise is kept unless a transfer was needed and timed out with nothing; a wait never answers "not yet". */
  lemma WaitKeepsPromiseUnlessTimeout(s: State, t: Transfer)
    ensures WaitOn(s, t).result == PromisedWait(s, t) <==> s.offset < |s.incoming| || t != Transfer(Timeout, [])
    ensures WaitOn(s, t).result != Ok(false)
  {
  }

  ghost predicate WellFormed(s: State) { s.offset <= |s.incoming| <= READ_BUFFER_SIZE }

  /** Nothing lost, nothing invented, nothing reordered. */
  ghost predicate Conserved(s: State)
  {
    WellFormed(s) && s.handed + s.incoming[s.offset..] == Delivered(s.transfers)
  }

  datatype Call = DoRead(n: nat, transfer: Transfer) | DoWait(transfer: Transfer)

  function Step(s: State, c: Call): (s': State)
    requires WellFormed(s)
    ensures WellFormed(s')
  {
    match c
    case DoRead(n, t) => ReadFrom(s, n, t).state
    case DoWait(t) => WaitOn(s, t).state
  }

  /** Whether a call is a read whose transfer fails. */
  predicate FailsRead(s: State, c: Call)
  {
    c.DoRead? && s.offset >= |s.incoming| && !Accepted(c.transfer)
  }

  lemma HandOutKeepsConserved(s: State, n: nat)
    requires Conserved(s)
    ensures Conserved(HandOut(s, n).state)
  {
    var left, count := s.incoming[s.offset..], Min(|s.incoming| - s.offset, n);
    var bytes := s.incoming[s.offset..s.offset + count];
    assert left == bytes + s.incoming[s.offset + count..];
    Regroup(s.handed, bytes, s.incoming[s.offset + count..]);
  }

  /** A transfer into a buffer that was used up. */
  lemma TransferKeepsConserved(s: State, t: Transfer)
    requires Conserved(s) && s.offset == |s.incoming|
    ensures Conserved(State(if Accepted(t) then t.data else [], 0, s.transfers + [t], s.handed))
  {
    DeliveredAppend(s.transfers, t);
    assert s.incoming[s.offset..] == [] && s.handed + [] == s.handed;
    assert t.data[0..] == t.data;
  }

  lemma StepKeepsConserved(s: State, c: Call)
    requires Conserved(s) && !FailsRead(s, c)
    ensures Conserved(Step(s, c))
  {
    if s.offset == |s.incoming| {
      TransferKeepsConserved(s, c.transfer);
    }
    if c.DoRead? {
      HandOutKeepsConserved(
        if s.offset < |s.incoming| then s else State(c.transfer.data, 0, s.transfers + [c.transfer], s.handed), c.n);
    }
  }

  function After(s: State, cs: seq<Call>): (s': State)
    requires WellFormed(s)
    ensures WellFormed(s')
    decreases |cs|
  {
    if cs == [] then s else After(Step(s, cs[0]), cs[1..])
  }

  /**
   A failed read grows the buffer and leaves the cursor, so it keeps the balance if and only if the cursor was at
   the very end of a full buffer.
   */
  lemma FailedReadConservesIffFull(s: State, c: Call)
    requires Conserved(s) && FailsRead(s, c)
    ensures Conserved(Step(s, c)) <==> s.offset == READ_BUFFER_SIZE
  {
    var s' := Step(s, c);
    DeliveredAppend(s.transfers, c.transfer);
    assert s.incoming[s.offset..] == [] && s.handed + [] == s.handed;
    assert |s'.incoming[s'.offset..]| == READ_BUFFER_SIZE - s.offset;
    if s.offset == READ_BUFFER_SIZE {
      assert s'.incoming[s'.offset..] == [];
    }
  }

  /** Otherwise the next read hands out bytes that no transfer delivered. */
  lemma PhantomBytes(s: State, c: Call, n: nat, t: Transfer)
    requires Conserved(s) && FailsRead(s, c) && s.offset < READ_BUFFER_SIZE && n > 0
    ensures var did := ReadFrom(Step(s, c), n, t);
            did.result.Ok? && did.result.value != [] && |did.state.handed| > |Delivered(did.state.transfers)|
  {
    DeliveredAppend(s.transfers, c.transfer);
    assert s.incoming[s.offset..] == [] && s.handed + [] == s.handed;
  }

  /** How many more bytes have been handed out, or are about to be, than the transfers delivered. */
  function Excess(s: State): int
    requires WellFormed(s)
  {
    |s.handed| + |s.incoming| - s.offset - |Delivered(s.transfers)|
  }

  /** It never shrinks. */
  lemma ExcessStays(s: State, c: Call)
    requires WellFormed(s)
    ensures Excess(Step(s, c)) >= Excess(s)
    ensures FailsRead(s, c) && s.offset < READ_BUFFER_SIZE ==> Excess(Step(s, c)) > Excess(s)
  {
    DeliveredAppend(s.transfers, c.transfer);
  }

  lemma {:induction false} ExcessStaysOverRuns(s: State, cs: seq<Call>)
    requires WellFormed(s)
    ensures Excess(After(s, cs)) >= Excess(s)
    decreases |cs|
  {
    if cs != [] {
      ExcessStays(s, cs[0]);
      ExcessStaysOverRuns(Step(s, cs[0]), cs[1..]);
    }
  }

  /** A run in which every failed read finds the cursor at the very end of a full buffer. */
  predicate Harmless(s: State, cs: seq<Call>)
    requires WellFormed(s)
    decreases |cs|
  {
    cs == [] || ((FailsRead(s, cs[0]) ==> s.offset == READ_BUFFER_SIZE) && Harmless(Step(s, cs[0]), cs[1..]))
  }

  lemma {:induction false} ConservedIffHarmless(s: State, cs: seq<Call>)
    requires Conserved(s)
    ensures Conserved(After(s, cs)) <==> Harmless(s, cs)
    decreases |cs|
  {
    if cs != [] {
      var c := cs[0];
      if FailsRead(s, c) && s.offset < READ_BUFFER_SIZE {
        ExcessStays(s, c);
        ExcessStaysOverRuns(Step(s, c), cs[1..]);
        assert Excess(s) == |s.handed + s.incoming[s.offset..]| - |Delivered(s.transfers)|;
        var end := After(s, cs);
        assert Excess(end) == |end.handed + end.incoming[end.offset..]| - |Delivered(end.transfers)|;
      } else {
        if FailsRead(s, c) {
          FailedReadConservesIffFull(s, c);
        } else {
          StepKeepsConserved(s, c);
        }
        ConservedIffHarmless(Step(s, c), cs[1..]);
      }
    }
  }

  /** A run in which no read fails. */
  predicate SoundRun(s: State, cs: seq<Call>)
    requires WellFormed(s)
    decreases |cs|
  {
    cs == [] || (!FailsRead(s, cs[0]) && SoundRun(Step(s, cs[0]), cs[1..]))
  }

  lemma {:induction false} SoundRunsAreHarmless(s: State, cs: seq<Call>)
    requires WellFormed(s) && SoundRun(s, cs)
    ensures Harmless(s, cs)
    decreases |cs|
  {
    if cs != [] {
      SoundRunsAreHarmless(Step(s, cs[0]), cs[1..]);
    }
  }

  /**
   Conservation: over any interleaving of reads and waits, the bytes handed out, followed by those still buffered, are
   the bytes the transfers delivered, if and only if no read failed short of a full buffer; so if none failed, they are.
   */
  lemma UsbConservation(cs: seq<Call>)
    ensures Conserved(After(START, cs)) <==> Harmless(START, cs)
    ensures SoundRun(START, cs) ==> Conserved(After(START, cs))
  {
    ConservedIffHarmless(START, cs);
    if SoundRun(START, cs) {
      SoundRunsAreHarmless(START, cs);
    }
  }

  // ----- the object

  /** The endpoint, as the driver sees it: any code, any bytes that fit. It keeps a record of its transfers. */
  class Endpoint {
    ghost var transfers: seq<Transfer>

    constructor ()
      ensures transfers == []
    {
      transfers := [];
    }

    method BulkTransfer() returns (t: Transfer)
      modifies this
      ensures transfers == old(transfers) + [t]
    {
      var code: Code := *;
      var data: Block := *;
      t := Transfer(code, data);
      transfers := transfers + [t];
    }
  }

  /** The last transfer of a record. */
  function Latest(ts: seq<Transfer>): Transfer { if ts == [] then Transfer(Success, []) else ts[|ts| - 1] }

  class UsbTransport {
    const endpoint: Endpoint
    var incoming: seq<byte>
    var offset: nat
    ghost var handed: seq<byte>

    ghost function View(): State
      reads this, endpoint
    {
      State(incoming, offset, endpoint.transfers, handed)
    }

    constructor ()
      ensures fresh(endpoint) && View() == START
    {
      endpoint := new Endpoint();
      incoming, offset, handed := [], 0, [];
    }

    /** Hands out buffered bytes; a transfer is made exactly when there are none. */
    method Read(buffer: array<byte>) returns (r: Result<nat>)
      requires WellFormed(View())
      modifies this, endpoint, buffer
      ensures var did := ReadFrom(old(View()), buffer.Length, Latest(endpoint.transfers));
              && View() == did.state && WellFormed(View())
              && (r.Ok? <==> did.result.Ok?)
              && (r.Err? ==> r.error == did.result.error)
              && (r.Ok? ==> r.value == |did.result.value| <= buffer.Length && buffer[..r.value] == did.result.value)
      ensures if old(offset) < |old(incoming)| then
                && endpoint.transfers == old(endpoint.transfers)
                && r == Ok(Min(|old(incoming)| - old(offset), buffer.Length))
                && buffer[..r.value] == old(incoming)[old(offset)..old(offset) + r.value]
              else
                && endpoint.transfers == old(endpoint.transfers) + [Latest(endpoint.transfers)]
                && var t := Latest(endpoint.transfers);
                   if t.code == Failure || (t.code == Timeout && t.data == []) then r == Err(TRANSFER_FAILED)
                   else r == Ok(Min(|t.data|, buffer.Length)) && buffer[..r.value] == t.data[..r.value]
    {
      if offset >= |incoming| {
        var transfer := endpoint.BulkTransfer();
        if !Accepted(transfer) {
          incoming := Overwritten(incoming, transfer.data);
          return Err(TRANSFER_FAILED);
        }
        incoming, offset := transfer.data, 0;
        if transfer.data == [] {
          assert incoming[0..0] == [] && handed + [] == handed && buffer[..0] == [];
          return Ok(0);
        }
      }
      var count := Min(|incoming| - offset, buffer.Length);
      forall i | 0 <= i < count {
        buffer[i] := incoming[offset + i];
      }
      assert buffer[..count] == incoming[offset..offset + count];
      handed := handed + incoming[offset..offset + count];
      offset := offset + count;
      r := Ok(count);
    }

    /** Makes a transfer for the next read, exactly when nothing is buffered. */
    method WaitReadable() returns (r: Result<bool>)
      requires WellFormed(View())
      modifies this, endpoint
      ensures Did(r, View()) == WaitOn(old(View()), Latest(endpoint.transfers)) && WellFormed(View())
      ensures if old(offset) < |old(incoming)| then r == Ok(true) && endpoint.transfers == old(endpoint.transfers)
              else
                && endpoint.transfers == old(endpoint.transfers) + [Latest(endpoint.transfers)]
                && var t := Latest(endpoint.transfers);
                   r == if t.code == Failure || (t.code == Timeout && t.data == [])
                        then Err(TRANSFER_FAILED) else Ok(true)
    {
      if offset < |incoming| {
        return Ok(true);
      }
      var transfer := endpoint.BulkTransfer();
      if !Accepted(transfer) {
        incoming, offset := [], 0;
        return Err(TRANSFER_FAILED);
      }
      incoming, offset := transfer.data, 0;
      r := Ok(transfer.code == Success || transfer.data != []);
    }
  }

  datatype Request = AskRead(n: nat) | AskWait

  /** The call that a request turned out to be. */
  predicate Answers(c: Call, q: Request)
  {
    match q
    case AskRead(n) => c.DoRead? && c.n == n
    case AskWait => c.DoWait?
  }

  lemma {:induction false} AfterAppend(s: State, cs: seq<Call>, c: Call)
    requires WellFormed(s)
    ensures After(s, cs + [c]) == Step(After(s, cs), c)
    decreases |cs|
  {
    if cs == [] {
      assert (cs + [c])[1..] == [];
    } else {
      AfterAppend(Step(s, cs[0]), cs[1..], c);
      assert (cs + [c])[1..] == cs[1..] + [c];
    }
  }

  /** One request on the object is one step of the machine; `bytes` is what it handed to the caller. */
  method Perform(u: UsbTransport, q: Request) returns (ghost c: Call, bytes: seq<byte>)
    requires WellFormed(u.View())
    modifies u, u.endpoint
    ensures Answers(c, q) && u.View() == Step(old(u.View()), c) && u.handed == old(u.handed) + bytes
  {
    bytes := [];
    match q
    case AskRead(n) =>
      var buffer := new byte[n];
      var count := u.Read(buffer);
      c := DoRead(n, Latest(u.endpoint.transfers));
      bytes := if count.Ok? then buffer[..count.value] else [];
    case AskWait =>
      var _ := u.WaitReadable();
      c := DoWait(Latest(u.endpoint.transfers));
  }

  /**
   Any schedule of reads and waits on a transport is a run of the machine, so conservation holds of what the caller
   gets: `output`, followed by what is buffered, is what the driver's transfers delivered, if and only if the run is
   harmless.
   */
  method Drive(schedule: seq<Request>) returns (u: UsbTransport, output: seq<byte>, ghost run: seq<Call>)
    ensures |run| == |schedule| && forall i :: 0 <= i < |run| ==> Answers(run[i], schedule[i])
    ensures u.View() == After(START, run) && output == u.handed && WellFormed(u.View())
    ensures output + u.incoming[u.offset..] == Delivered(u.endpoint.transfers) <==> Harmless(START, run)
  {
    u := new UsbTransport();
    output, run := [], [];
    for i := 0 to |schedule|
      invariant fresh(u) && fresh(u.endpoint)
      invariant |run| == i && forall j :: 0 <= j < i ==> Answers(run[j], schedule[j])
      invariant WellFormed(u.View()) && u.View() == After(START, run) && output == u.handed
    {
      ghost var c: Call;
      var bytes: seq<byte>;
      c, bytes := Perform(u, schedule[i]);
      AfterAppend(START, run, c);
      run := run + [c];
      output := output + bytes;
    }
    UsbConservation(run);
  }
}
