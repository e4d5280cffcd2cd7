/**
 The bytes of streams over whole runs: what reads hand out, stream by stream and across moves, against the payloads of
 the WRTE frames that handles took.
 */
module StreamBytes {
  import opened Bytes
  import opened Wire
  import opened Delivery
  import opened StreamRuns

  function PayloadFor(r: Entry, k: nat): seq<byte>
  {
    if r.role.Reader? && r.stream == k && IsData(r.role.local, r.frame.header) then r.frame.payload else []
  }

  /** The payloads of the WRTE frames that handles took for stream `k`, in order. */
  function TakenBytes(received: seq<Entry>, k: nat): seq<byte>
  {
    if received == [] then []
    else TakenBytes(received[..|received| - 1], k) + PayloadFor(received[|received| - 1], k)
  }

  function BytesFor(p: Piece, k: nat): seq<byte> { if p.stream == k then p.bytes else [] }

  /** The bytes handed out of stream `k`, in order. */
  function HandedBytes(ps: seq<Piece>, k: nat): seq<byte>
  {
    if ps == [] then [] else HandedBytes(ps[..|ps| - 1], k) + BytesFor(ps[|ps| - 1], k)
  }

  lemma TakenAppend(received: seq<Entry>, r: Entry, k: nat)
    ensures TakenBytes(received + [r], k) == TakenBytes(received, k) + PayloadFor(r, k)
  {
    assert (received + [r])[..|received|] == received;
  }

  lemma HandedAppend(ps: seq<Piece>, p: Piece, k: nat)
    ensures HandedBytes(ps + [p], k) == HandedBytes(ps, k) + BytesFor(p, k)
  {
    assert (ps + [p])[..|ps|] == ps;
  }

  lemma {:induction false} TakenWaiting(received: seq<Entry>, stream: nat, fs: seq<Frame>, k: nat)
    ensures TakenBytes(received + Waiting(stream, fs), k) == TakenBytes(received, k)
  {
    if fs == [] {
      assert received + Waiting(stream, fs) == received;
    } else {
      var init, last := Waiting(stream, fs[..|fs| - 1]), Awaited(stream, fs[|fs| - 1]);
      TakenWaiting(received, stream, fs[..|fs| - 1], k);
      assert Waiting(stream, fs) == init + [last];
      Regroup(received, init, [last]);
      TakenAppend(received + init, last, k);
      assert TakenBytes(received, k) + [] == TakenBytes(received, k);
    }
  }

  predicate Holds(h: Handle, k: nat) { h.stream == k && h.buffer != [] }

  /** No handle has bytes of stream `k` buffered. */
  predicate NoneHeld(hs: seq<Handle>, k: nat) { forall h <- hs :: !Holds(h, k) }

  /**
   The bytes of stream `k` are in order: what was handed out and then what is buffered, by one handle at most, is what
   was taken.
   */
  ghost predicate InOrder(w: World, k: nat)
  {
    && (forall i, j :: 0 <= i < j < |w.handles| ==> !Holds(w.handles[i], k) || !Holds(w.handles[j], k))
    && (forall h <- w.handles :: Holds(h, k) ==> TakenBytes(w.received, k) == HandedBytes(w.handed, k) + h.buffer)
    && (NoneHeld(w.handles, k) ==> TakenBytes(w.received, k) == HandedBytes(w.handed, k))
  }

  /**
   What a user of streams can see to: a handle takes a WRTE only while no other handle of its stream has bytes buffered,
   and a handle with bytes buffered is not assigned over.
   */
  predicate Tidy(w: World, s: Step)
    requires Enabled(w, s)
  {
    match s
    case Take(h, frame) =>
      IsData(w.handles[h].local, frame.header) ==> NoneHeld(w.handles, w.handles[h].stream)
    case MoveAssign(to, from) => to == from || w.handles[to].buffer == []
    case _ => true
  }

  predicate TidyRun(w: World, run: seq<Step>)
    requires IsRun(w, run)
    decreases |run|
  {
    run == [] || (Tidy(w, run[0]) && TidyRun(Apply(w, run[0]), run[1..]))
  }

  lemma TakeKeepsOrder(w: World, h: nat, frame: Frame, k: nat)
    requires Enabled(w, Take(h, frame)) && Tidy(w, Take(h, frame)) && InOrder(w, k)
    ensures InOrder(TakeFrame(w, h, frame), k)
  {
    var x, w' := w.handles[h], TakeFrame(w, h, frame);
    TakenIsLogged(w, h, frame);
    TakenAppend(w.received, Taken(x.stream, x.local, x.remote, frame), k);
    var before := TakenBytes(w.received, k);
    assert before + [] == before;
    if IsData(x.local, frame.header) && x.stream == k {
      assert forall i :: 0 <= i < |w.handles| ==> !Holds(w.handles[i], k);
      assert forall i :: 0 <= i < |w.handles| && i != h ==> w'.handles[i] == w.handles[i];
      if frame.payload == [] {
        assert NoneHeld(w'.handles, k);
      } else {
        assert w'.handles[h] in w'.handles && Holds(w'.handles[h], k);
      }
    } else {
      SameHolders(w, w', h, k);
    }
  }

  /** A step that leaves the buffers and the bytes of a stream alone leaves their order alone. */
  lemma SameHolders(w: World, w': World, h: nat, k: nat)
    requires h < |w.handles| == |w'.handles| && InOrder(w, k)
    requires forall i :: 0 <= i < |w.handles| && i != h ==> w'.handles[i] == w.handles[i]
    requires w'.handles[h].stream == w.handles[h].stream
    requires w.handles[h].stream == k ==> w'.handles[h].buffer == w.handles[h].buffer
    requires TakenBytes(w'.received, k) == TakenBytes(w.received, k)
    requires HandedBytes(w'.handed, k) == HandedBytes(w.handed, k)
    ensures InOrder(w', k)
  {
    assert forall i :: 0 <= i < |w.handles| ==> Holds(w'.handles[i], k) == Holds(w.handles[i], k);
    if NoneHeld(w'.handles, k) {
      assert forall i :: 0 <= i < |w.handles| ==> !Holds(w'.handles[i], k);
    }
  }

  lemma HandOutKeepsOrder(w: World, h: nat, n: nat, k: nat)
    requires Enabled(w, HandOut(h, n)) && InOrder(w, k)
    ensures InOrder(Apply(w, HandOut(h, n)), k)
  {
    var x, handed := w.handles[h], HandedBytes(w.handed, k);
    HandedAppend(w.handed, Piece(x.stream, x.buffer[..n]), k);
    if Holds(x, k) {
      HolderHandsOut(w, h, n, k);
    } else {
      assert handed + [] == handed;
      assert x.stream == k ==> x.buffer[..n] == [] && x.buffer[n..] == [];
      SameHolders(w, Apply(w, HandOut(h, n)), h, k);
    }
  }

  /** The one handle with bytes buffered hands out the first of them. */
  lemma HolderHandsOut(w: World, h: nat, n: nat, k: nat)
    requires Enabled(w, HandOut(h, n)) && InOrder(w, k) && Holds(w.handles[h], k)
    ensures InOrder(Apply(w, HandOut(h, n)), k)
  {
    var x, hs := w.handles[h], Apply(w, HandOut(h, n)).handles;
    var given, left, handed := x.buffer[..n], x.buffer[n..], HandedBytes(w.handed, k);
    HandedAppend(w.handed, Piece(k, given), k);
    assert x in w.handles && x.buffer == given + left;
    Regroup(handed, given, left);
    OthersHoldNothing(w.handles, h, k);
    assert forall i :: 0 <= i < |hs| && i != h ==> hs[i] == w.handles[i];
    if left == [] {
      assert handed + given + [] == handed + given;
    } else {
      assert hs[h] in hs && Holds(hs[h], k);
    }
  }

  lemma OthersHoldNothing(hs: seq<Handle>, h: nat, k: nat)
    requires h < |hs| && Holds(hs[h], k)
    requires forall i, j :: 0 <= i < j < |hs| ==> !Holds(hs[i], k) || !Holds(hs[j], k)
    ensures forall i :: 0 <= i < |hs| && i != h ==> !Holds(hs[i], k)
  {
  }

  /** Buffers that only change hands keep the order. */
  lemma MovesKeepOrder(w: World, hs: seq<Handle>, k: nat)
    requires InOrder(w, k)
    requires forall i, j :: 0 <= i < j < |hs| ==> !Holds(hs[i], k) || !Holds(hs[j], k)
    requires forall h <- hs :: Holds(h, k) ==> h in w.handles
    requires NoneHeld(hs, k) ==> NoneHeld(w.handles, k)
    ensures InOrder(w.(handles := hs), k)
  {
  }

  lemma MoveConstructKeepsOrder(w: World, h: nat, k: nat)
    requires h < |w.handles| && InOrder(w, k)
    ensures InOrder(Apply(w, MoveConstruct(h)), k)
  {
    var hs := w.handles[h := MovedFrom(w.handles[h])] + [w.handles[h]];
    forall i, j | 0 <= i < j < |hs| ensures !Holds(hs[i], k) || !Holds(hs[j], k) {
      if i != h && j == |w.handles| {
        assert hs[i] == w.handles[i] && hs[j] == w.handles[h];
        assert if i < h then !Holds(w.handles[i], k) || !Holds(w.handles[h], k)
               else !Holds(w.handles[h], k) || !Holds(w.handles[i], k);
      }
    }
    if NoneHeld(hs, k) {
      forall x <- w.handles ensures !Holds(x, k) {
        var i :| 0 <= i < |w.handles| && w.handles[i] == x;
        assert if i == h then hs[|w.handles|] == x else hs[i] == x;
      }
    }
    MovesKeepOrder(w, hs, k);
  }

  lemma MoveAssignKeepsOrder(w: World, to: nat, from: nat, k: nat)
    requires to < |w.handles| && from < |w.handles| && to != from && w.handles[to].buffer == [] && InOrder(w, k)
    ensures InOrder(w.(handles := w.handles[to := w.handles[from]][from := MovedFrom(w.handles[from])]), k)
  {
    var hs := w.handles[to := w.handles[from]][from := MovedFrom(w.handles[from])];
    forall i, j | 0 <= i < j < |hs| ensures !Holds(hs[i], k) || !Holds(hs[j], k) {
      var a, b := if i == to then from else i, if j == to then from else j;
      if i != from && j != from {
        assert hs[i] == w.handles[a] && hs[j] == w.handles[b];
        assert if a < b then !Holds(w.handles[a], k) || !Holds(w.handles[b], k)
               else !Holds(w.handles[b], k) || !Holds(w.handles[a], k);
      }
    }
    if NoneHeld(hs, k) {
      forall x <- w.handles ensures !Holds(x, k) {
        var i :| 0 <= i < |w.handles| && w.handles[i] == x;
        assert if i == from then hs[to] == x else i == to || hs[i] == x;
      }
    }
    MovesKeepOrder(w, hs, k);
  }

  lemma StepKeepsOrder(w: World, s: Step, k: nat)
    requires Enabled(w, s) && Tidy(w, s) && InOrder(w, k)
    ensures InOrder(Apply(w, s), k)
  {
    match s
    case Open(_, waited, remote) =>
      TakenWaiting(w.received, w.streams, waited, k);
      var added := Handle(w.streams, NextLocal(w), remote, false, []);
      if NoneHeld(w.handles + [added], k) {
        assert forall h <- w.handles :: h in w.handles + [added];
      }
      MovesKeepOrder(w, w.handles + [added], k);
    case Refuse(_, waited, _) => TakenWaiting(w.received, w.streams, waited, k);
    case Take(h, frame) => TakeKeepsOrder(w, h, frame, k);
    case HandOut(h, n) => HandOutKeepsOrder(w, h, n, k);
    case Die =>
    case Write(_, _) =>
    case MoveConstruct(h) => MoveConstructKeepsOrder(w, h, k);
    case MoveAssign(to, from) =>
      if to != from {
        MoveAssignKeepsOrder(w, to, from, k);
      }
    case Destroy(h) => SameHolders(w, Apply(w, s), h, k);
  }

  lemma {:induction false} RunKeepsOrder(w: World, run: seq<Step>, k: nat)
    requires IsRun(w, run) && TidyRun(w, run) && InOrder(w, k)
    ensures InOrder(After(w, run), k)
    decreases |run|
  {
    if run != [] {
      StepKeepsOrder(w, run[0], k);
      RunKeepsOrder(Apply(w, run[0]), run[1..], k);
    }
  }

  /**
   Over every tidy run, however its handles are moved: the bytes handed out of a stream, and then those buffered for it,
   are the payloads of the WRTE frames taken for it, in order.
   */
  lemma BytesInOrder(first: u32, alive: bool, run: seq<Step>, k: nat)
    requires IsRun(Start(first, alive), run) && TidyRun(Start(first, alive), run)
    ensures InOrder(After(Start(first, alive), run), k)
  {
    RunKeepsOrder(Start(first, alive), run, k);
  }

  /**
   Tidiness is needed. When a handle takes a WRTE while another of its stream has bytes buffered, as one that was moved
   from can, what it reads overtakes them: the order is kept if and only if it makes no difference to the bytes.
   */
  lemma UntidyTakeReorders(w: World, i: nat, j: nat, frame: Frame, k: nat)
    requires Enabled(w, Take(i, frame)) && IsData(w.handles[i].local, frame.header)
    requires i != j && j < |w.handles| && w.handles[i].stream == k && Holds(w.handles[j], k) && InOrder(w, k)
    ensures var p, q := w.handles[j].buffer, frame.payload;
            var taken := TakeFrame(w, i, frame);
            var end := Apply(Apply(taken, HandOut(i, |q|)), HandOut(j, |p|));
            && !Tidy(w, Take(i, frame))
            && TakenBytes(end.received, k) == HandedBytes(w.handed, k) + (p + q)
            && HandedBytes(end.handed, k) == HandedBytes(w.handed, k) + (q + p)
            && (TakenBytes(end.received, k) == HandedBytes(end.handed, k) <==> p + q == q + p)
  {
    var x, y := w.handles[i], w.handles[j];
    var p, q, handed := y.buffer, frame.payload, HandedBytes(w.handed, k);
    assert y in w.handles;
    TakenIsLogged(w, i, frame);
    TakenAppend(w.received, Taken(x.stream, x.local, x.remote, frame), k);
    assert q[..|q|] == q && p[..|p|] == p;
    HandedTwice(w.handed, k, q, p);
    Regroup(handed, p, q);
    SameBehind(handed, p + q, q + p);
  }

  lemma HandedTwice(ps: seq<Piece>, k: nat, a: seq<byte>, b: seq<byte>)
    ensures HandedBytes(ps + [Piece(k, a)] + [Piece(k, b)], k) == HandedBytes(ps, k) + (a + b)
  {
    HandedAppend(ps, Piece(k, a), k);
    HandedAppend(ps + [Piece(k, a)], Piece(k, b), k);
    Regroup(HandedBytes(ps, k), a, b);
  }

  lemma SameBehind(front: seq<byte>, a: seq<byte>, b: seq<byte>)
    requires |a| == |b|
    ensures front + a == front + b <==> a == b
  {
    if front + a == front + b {
      assert a == (front + a)[|front|..] && b == (front + b)[|front|..];
    }
  }
}
