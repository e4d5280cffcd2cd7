/** Bytes, machine words and the little-endian layout every layer of the wire format shares. */
module Bytes {

  type byte = b: int | 0 <= b < 0x100
  type u32 = w: int | 0 <= w < WORD
  type u64 = w: int | 0 <= w < WORD * WORD
  type i64 = w: int | -(WORD * WORD / 2) <= w < WORD * WORD / 2

  const WORD := 0x1_0000_0000

  /** The four bytes of a word, least significant first. */
  function Le32(v: u32): (r: seq<byte>)
    ensures |r| == 4
  {
    [v % 0x100, v / 0x100 % 0x100, v / 0x1_0000 % 0x100, v / 0x100_0000]
  }

  /** The value of up to four bytes, least significant first. */
  function LeValue(w: seq<byte>): (v: nat)
    requires |w| <= 4
    ensures v < match |w| case 0 => 1 case 1 => 0x100 case 2 => 0x1_0000 case 3 => 0x100_0000 case _ => WORD
  {
    if w == [] then 0 else w[0] + 0x100 * LeValue(w[1..])
  }

  /** The word stored at offset `at`. */
  function U32At(s: seq<byte>, at: nat): (v: u32)
    requires at + 4 <= |s|
  {
    LeValue(s[at..at + 4])
  }

  /** The least significant byte comes first. */
  lemma WordIsLittleEndian(s: seq<byte>, at: nat)
    requires at + 4 <= |s|
    ensures U32At(s, at)
         == s[at] as int + 0x100 * s[at + 1] as int + 0x1_0000 * s[at + 2] as int + 0x100_0000 * s[at + 3] as int
  {
    var w := s[at..at + 4];
    assert w[1..][1..] == w[2..] && w[2..][1..] == w[3..] && w[3..][1..] == [];
    assert LeValue(w[3..]) == w[3];
    assert LeValue(w[2..]) == w[2] + 0x100 * LeValue(w[3..]);
    assert LeValue(w[1..]) == w[1] + 0x100 * LeValue(w[2..]);
  }

  function Le64(v: u64): (r: seq<byte>)
    ensures |r| == 8
  {
    Le32(v % WORD) + Le32(v / WORD)
  }

  function U64At(s: seq<byte>, at: nat): (v: u64)
    requires at + 8 <= |s|
  {
    U32At(s, at) + WORD * U32At(s, at + 4)
  }

  /** The signed reading of a 64-bit word, and its inverse (two's complement). */
  function Signed(v: u64): (r: i64)
    ensures (r - v) % (WORD * WORD) == 0
  {
    if v < WORD * WORD / 2 then v else v - WORD * WORD
  }

  function Unsigned(v: i64): u64 { if v >= 0 then v else v + WORD * WORD }

  lemma SignedRoundTrip(v: i64)
    ensures Signed(Unsigned(v)) == v
  {
  }

  lemma Le32Value(v: u32)
    ensures LeValue(Le32(v)) == v
  {
    var b := Le32(v);
    var v1, v2, v3 := v / 0x100, v / 0x1_0000, v / 0x100_0000;
    assert v == v % 0x100 + 0x100 * v1 && v1 == v1 % 0x100 + 0x100 * v2 && v2 == v2 % 0x100 + 0x100 * v3;
    assert b[1..][1..] == b[2..] && b[2..][1..] == b[3..] && b[3..][1..] == [];
    assert LeValue(b[3..]) == v3;
    assert LeValue(b[2..]) == v2;
    assert LeValue(b[1..]) == v1;
  }

  /** A word written anywhere in a byte string is read back. */
  lemma Le32RoundTrip(s: seq<byte>, at: nat, v: u32)
    requires at + 4 <= |s| && s[at..at + 4] == Le32(v)
    ensures U32At(s, at) == v
  {
    Le32Value(v);
  }

  lemma DigitsOfWord(b0: int, b1: int, b2: int, b3: int)
    requires 0 <= b0 < 0x100 && 0 <= b1 < 0x100 && 0 <= b2 < 0x100 && 0 <= b3 < 0x100
    ensures var v := b0 + 0x100 * (b1 + 0x100 * (b2 + 0x100 * b3));
            v % 0x100 == b0 && v / 0x100 % 0x100 == b1 && v / 0x1_0000 % 0x100 == b2 && v / 0x100_0000 == b3
  {
    var v := b0 + 0x100 * b1 + 0x1_0000 * b2 + 0x100_0000 * b3;
    assert v / 0x100 == b1 + 0x100 * b2 + 0x1_0000 * b3;
    assert v / 0x1_0000 == b2 + 0x100 * b3;
  }

  /** Writing back the word that was read restores the bytes. */
  lemma U32RoundTrip(s: seq<byte>, at: nat)
    requires at + 4 <= |s|
    ensures Le32(U32At(s, at)) == s[at..at + 4]
  {
    var w := s[at..at + 4];
    assert w[1..][1..] == w[2..] && w[2..][1..] == w[3..] && w[3..][1..] == [];
    assert LeValue(w[3..]) == w[3];
    assert LeValue(w[2..]) == w[2] + 0x100 * LeValue(w[3..]);
    assert LeValue(w[1..]) == w[1] + 0x100 * LeValue(w[2..]);
    DigitsOfWord(w[0], w[1], w[2], w[3]);
  }

  lemma Le64RoundTrip(s: seq<byte>, at: nat, v: u64)
    requires at + 8 <= |s| && s[at..at + 8] == Le64(v)
    ensures U64At(s, at) == v
  {
    assert s[at..at + 4] == s[at..at + 8][..4] == Le32(v % WORD);
    assert s[at + 4..at + 8] == s[at..at + 8][4..] == Le32(v / WORD);
    Le32RoundTrip(s, at, v % WORD);
    Le32RoundTrip(s, at + 4, v / WORD);
  }

  /** Stores a word in place; the bytes around it are untouched. */
  method WriteU32(out: array<byte>, at: nat, v: u32)
    requires at + 4 <= out.Length
    modifies out
    ensures out[..] == old(out[..])[..at] + Le32(v) + old(out[..])[at + 4..]
  {
    out[at] := v % 0x100;
    out[at + 1] := v / 0x100 % 0x100;
    out[at + 2] := v / 0x1_0000 % 0x100;
    out[at + 3] := v / 0x100_0000;
  }

  /** The concatenation of a list of pieces. */
  function Flatten<T>(parts: seq<seq<T>>): seq<T>
  {
    if parts == [] then [] else parts[0] + Flatten(parts[1..])
  }

  lemma {:induction false} FlattenAppend<T>(parts: seq<seq<T>>, more: seq<seq<T>>)
    ensures Flatten(parts + more) == Flatten(parts) + Flatten(more)
  {
    if parts == [] {
      assert parts + more == more;
    } else {
      FlattenAppend(parts[1..], more);
      assert (parts + more)[1..] == parts[1..] + more;
      assert Flatten(parts + more) == parts[0] + Flatten(parts[1..] + more);
    }
  }

  /** A prefix of what is behind `n` elements extends those elements to a longer prefix. */
  lemma PrefixBehind<T>(s: seq<T>, n: nat, more: seq<T>)
    requires n <= |s| && more <= s[n..]
    ensures s[..n] + more <= s
    ensures s[n + |more|..] == s[n..][|more|..]
  {
    assert s == s[..n] + s[n..];
  }

  ghost predicate Suffix<T(!new)>(s: seq<T>, of: seq<T>)
  {
    |s| <= |of| && s == of[|of| - |s|..]
  }

  lemma Regroup<T>(a: seq<T>, b: seq<T>, c: seq<T>)
    ensures a + (b + c) == a + b + c
  {
  }

  /** The text of a byte string, one character per byte. */
  function Chars(s: seq<byte>): (r: string)
    ensures |r| == |s|
  {
    seq(|s|, i requires 0 <= i < |s| => s[i] as char)
  }

  function Ascii(s: string): (r: seq<byte>)
    ensures |r| == |s|
  {
    seq(|s|, i requires 0 <= i < |s| => (s[i] as int) % 0x100)
  }

  function Pow2(n: nat): (r: nat)
    ensures r > n
  {
    if n == 0 then 1 else 2 * Pow2(n - 1)
  }

  function One(b: bool): nat { if b then 1 else 0 }

  function Min(a: nat, b: nat): nat { if a < b then a else b }
}
