/** The Montgomery parameter of the public key blob: inversion modulo 2^32 by Newton's iteration. */
module Newton {
  import opened Bytes

  const MODULUS_BYTES: nat := 256
  const BLOB_SIZE: nat := 8 + 2 * MODULUS_BYTES + 4

  /** One step, in unsigned 32-bit arithmetic. */
  function NewtonStep(v: u32, x: u32): u32 { x * ((2 - v * x) % WORD) % WORD }

  function Multiple(m: int, k: int): int { m * k }

  /** `x` inverts `v` modulo `m`. */
  ghost predicate Inverts(v: int, x: int, m: int) { exists k: int :: v * x == 1 + Multiple(m, k) }

  /** The precision after `i` steps: 2, squared `i` times. */
  function Precision(i: nat): nat { if i == 0 then 2 else Precision(i - 1) * Precision(i - 1) }

  lemma {:induction false} Pow2Sum(a: nat, b: nat)
    ensures Pow2(a + b) == Pow2(a) * Pow2(b)
  {
    if a > 0 {
      Pow2Sum(a - 1, b);
      TwiceProduct(Pow2(a - 1), Pow2(b));
    }
  }

  lemma TwiceProduct(x: int, y: int)
    ensures 2 * x * y == 2 * (x * y)
  {
  }

  /** The number of correct bits doubles with each step. */
  lemma {:induction false} PrecisionIsPower(i: nat)
    ensures Precision(i) == Pow2(Pow2(i))
  {
    if i == 0 {
      assert Pow2(0) == 1 && Pow2(1) == 2;
    } else {
      PrecisionIsPower(i - 1);
      Pow2Sum(Pow2(i - 1), Pow2(i - 1));
    }
  }

  /** The algebra of a step: the error 1 - v*x is squared, and wrapping only adds multiples of the word. */
  lemma ErrorSquares(v: int, x: int, m: int, k: int, a: int, b: int, c: int)
    requires v * x == 1 + m * k
    ensures var word := m * m * c;
            var x' := x * (2 - v * x + a * word) - b * word;
            v * x' == 1 + m * m * ((1 + m * k) * (a * c) - k * k - v * b * c)
  {
    var word := m * m * c;
    var y := m * k;
    calc {
      v * (x * (2 - v * x + a * word) - b * word);
      (v * x) * (2 - v * x + a * word) - v * (b * word);
      (1 + y) * (1 - y + a * word) - v * (b * word);
      1 - y * y + (1 + y) * (a * word) - v * (b * word);
      { assert y * y == m * m * (k * k); }
      1 - m * m * (k * k) + (1 + y) * (a * word) - v * (b * word);
      { assert (1 + y) * (a * word) == m * m * ((1 + y) * (a * c));
        assert v * (b * word) == m * m * (v * b * c); }
      1 - m * m * (k * k) + m * m * ((1 + y) * (a * c)) - m * m * (v * b * c);
      1 + m * m * ((1 + y) * (a * c) - k * k - v * b * c);
    }
  }

  /** Each step squares the modulus up to which the iterate is an inverse, as long as that divides the word. */
  lemma StepSquares(v: u32, x: u32, m: int, c: int)
    requires Inverts(v, x, m) && m * m * c == WORD
    ensures Inverts(v, NewtonStep(v, x), m * m)
  {
    var k :| v * x == 1 + Multiple(m, k);
    var w := 2 - v * x;
    var a := -(w / WORD);
    var p := x * (w % WORD);
    var b := p / WORD;
    assert w % WORD == w + a * WORD;
    assert p % WORD == p - b * WORD;
    ErrorSquares(v, x, m, k, a, b, c);
    var q := (1 + m * k) * (a * c) - k * k - v * b * c;
    assert v * NewtonStep(v, x) == 1 + Multiple(m * m, q);
  }

  /** The squares of the first five precisions divide the word; the fifth square is the word itself. */
  lemma PrecisionDividesWord(i: nat) returns (c: int)
    requires i < 5
    ensures Precision(i) * Precision(i) * c == WORD && Precision(i + 1) == Precision(i) * Precision(i)
    ensures i == 4 ==> Precision(i + 1) == WORD
  {
    assert Precision(0) == 2 && Precision(1) == 4 && Precision(2) == 0x10;
    assert Precision(3) == 0x100 && Precision(4) == 0x1_0000 && Precision(5) == WORD;
    c := if i == 0 then 0x4000_0000 else if i == 1 then 0x1000_0000 else if i == 2 then 0x100_0000
         else if i == 3 then 0x1_0000 else 1;
  }

  /** Wrapping the inner product as well changes nothing. */
  lemma WrappedStep(v: u32, x: u32)
    ensures x * ((2 - v * x % WORD) % WORD) % WORD == NewtonStep(v, x)
  {
    var p := v * x;
    assert p == p / WORD * WORD + p % WORD;
    assert (2 - p % WORD) % WORD == (2 - p) % WORD;
  }

  /** An even value has no inverse. */
  lemma EvenHasNoInverse(v: int, x: int)
    requires v % 2 == 0
    ensures v * x % WORD != 1
  {
    var h := v / 2;
    assert v * x == 2 * (h * x);
    assert v * x % 2 == 0;
  }

  /** The iterate after `i` steps from 1. */
  function Iterate(v: u32, i: nat): u32 { if i == 0 then 1 else NewtonStep(v, Iterate(v, i - 1)) }

  lemma {:induction false} IterateInverts(v: u32, i: nat)
    requires v % 2 == 1 && i <= 5
    ensures Inverts(v, Iterate(v, i), Precision(i))
  {
    if i == 0 {
      assert v * Iterate(v, 0) == 1 + Multiple(2, v / 2);
    } else {
      IterateInverts(v, i - 1);
      var c := PrecisionDividesWord(i - 1);
      StepSquares(v, Iterate(v, i - 1), Precision(i - 1), c);
    }
  }

  lemma InverseLeavesOne(v: int, x: int, m: int)
    requires m >= 2 && Inverts(v, x, m)
    ensures v * x % m == 1
  {
    var k :| v * x == 1 + Multiple(m, k);
    var q, r := v * x / m, v * x % m;
    assert v * x == m * q + r;
    assert r - 1 == m * (k - q);
    if k != q {
      MultipleIsFar(m, k - q);
    }
  }

  /** A multiple that is not zero is at least the modulus away from it. */
  lemma MultipleIsFar(m: int, d: int)
    requires m > 0 && d != 0
    ensures m * d >= m || m * d <= -m
  {
  }

  /** For an odd value, the product with the iterate after step `i` is 1 modulo 2^(2^i), up to step 5: modulo 2^32. */
  lemma IterateDoublesBits(v: u32, i: nat)
    requires v % 2 == 1 && i <= 5
    ensures v * Iterate(v, i) % Pow2(Pow2(i)) == 1
    ensures i == 5 ==> Pow2(Pow2(i)) == WORD
  {
    IterateInverts(v, i);
    PrecisionIsPower(i);
    InverseLeavesOne(v, Iterate(v, i), Pow2(Pow2(i)));
    if i == 5 {
      var c := PrecisionDividesWord(4);
    }
  }

  /** Five steps from 1. For odd values the result inverts the value modulo 2^32; for even values nothing does. */
  method InverseMod2To32(value: u32) returns (inverse: u32)
    ensures inverse == Iterate(value, 5)
    ensures value * inverse % WORD == 1 <==> value % 2 == 1
  {
    inverse := 1;
    for i := 0 to 5
      invariant inverse == Iterate(value, i)
    {
      WrappedStep(value, inverse);
      inverse := inverse * ((2 - value * inverse % WORD) % WORD) % WORD;
    }
    if value % 2 == 1 {
      IterateDoublesBits(value, 5);
    } else {
      EvenHasNoInverse(value, inverse);
    }
  }

  lemma NegatedInverse(v: u32, x: u32)
    ensures v * ((0 - x) % WORD) % WORD == WORD - 1 <==> v * x % WORD == 1
  {
    var y := (0 - x) % WORD;
    if x == 0 {
      assert v * y == 0 && v * x == 0;
    } else {
      assert y == WORD - x;
      assert v * y == v * WORD - v * x;
      var q, r := v * x / WORD, v * x % WORD;
      assert v * y == (v - q) * WORD - r;
    }
  }

  /** The Montgomery parameter: -1/n0 modulo 2^32, which exists exactly when n0 is odd. */
  method MontgomeryParameter(n0: u32) returns (n0inv: u32)
    ensures n0 * n0inv % WORD == WORD - 1 <==> n0 % 2 == 1
  {
    var inverse := InverseMod2To32(n0);
    n0inv := (0 - inverse) % WORD;
    NegatedInverse(n0, inverse);
  }

  /** `w` is the Montgomery parameter of `n0`, if it has one. */
  predicate Montgomery(n0: u32, w: u32) { n0 * w % WORD == WORD - 1 <==> n0 % 2 == 1 }

  /**
   Fills in the head of the key blob from the modulus behind it: the word count, then the parameter of the modulus's
   lowest word. An RSA modulus is odd, so it has one.
   */
  method StoreHead(blob: array<byte>)
    requires blob.Length == BLOB_SIZE
    modifies blob
    ensures blob[8..] == old(blob[8..])
    ensures U32At(blob[..], 0) == MODULUS_BYTES / 4
    ensures Montgomery(U32At(blob[..], 8), U32At(blob[..], 4))
  {
    ghost var before := blob[..];
    var n0 := U32At(blob[..], 8);
    WriteU32(blob, 0, MODULUS_BYTES / 4);
    ghost var between := blob[..];
    assert between[..4] == Le32(MODULUS_BYTES / 4) && between[8..] == before[8..];
    var n0inv := MontgomeryParameter(n0);
    WriteU32(blob, 4, n0inv);
    ghost var after := blob[..];
    assert after[0..4] == between[..4] && after[4..8] == Le32(n0inv) && after[8..] == before[8..];
    Le32RoundTrip(after, 0, MODULUS_BYTES / 4);
    Le32RoundTrip(after, 4, n0inv);
    assert after[8..12] == after[8..][..4] == before[8..12];
  }
}
