/** The checksum of the wire format, and its meaning as polynomial division.

    A byte string is read as a polynomial over GF(2), most significant bit first.
    The byte-wise shift register of the code is related to division by
    x^8 + x^7 + x^2 + 1. Bit-vector reasoning is confined to `ShiftIsAbsorb`,
    `BitsXor` and `BitsInjective`; everything else is about sequences of booleans. */
module Crc {

  type Byte = bv8

  const POLYNOMIAL: Byte := 0x85

  // ---------- The code ----------

  /** One round of the inner loop: multiply the register by x. */
  function Shift(crc: Byte): Byte {
    if (crc & 0x80) == 0x80 then (crc << 1) ^ POLYNOMIAL else crc << 1
  }

  function Shifts(crc: Byte, n: nat): Byte
    decreases n
  {
    if n == 0 then crc else Shifts(Shift(crc), n - 1)
  }

  function Resume(crc: Byte, payload: seq<Byte>): Byte
    decreases |payload|
  {
    if payload == [] then crc else Resume(Shifts(crc ^ payload[0], 8), payload[1..])
  }

  function Crc8(payload: seq<Byte>): Byte {
    Resume(0, payload)
  }

  /** The loops of the code. The result is the remainder of payload * x^8 by the
      generator, which is the register function above. */
  method ComputeCrc8(payload: seq<Byte>) returns (crc: Byte)
    ensures crc == Crc8(payload)
    ensures IsRemainder(BitString(payload) + Zeros(8), GENERATOR, Bits(crc))
  {
    crc := 0;
    for i := 0 to |payload|
      invariant Resume(crc, payload[i..]) == Crc8(payload)
    {
      crc := crc ^ payload[i];
      ghost var start := crc;
      for j := 0 to 8
        invariant Shifts(crc, 8 - j) == Shifts(start, 8)
      {
        crc := if (crc & 0x80) == 0x80 then (crc << 1) ^ POLYNOMIAL else crc << 1;
      }
    }
    CrcIsRemainder(payload);
  }

  // ---------- Bits and polynomials ----------

  type Bitstring = seq<bool>

  /** The mask of the bit at position i, counting from the most significant. */
  function Mask(i: nat): Byte {
    match i
    case 0 => 0x80
    case 1 => 0x40
    case 2 => 0x20
    case 3 => 0x10
    case 4 => 0x08
    case 5 => 0x04
    case 6 => 0x02
    case _ => 0x01
  }

  predicate Bit(b: Byte, i: nat) {
    (b & Mask(i)) != 0
  }

  function Bits(b: Byte): (r: Bitstring)
    ensures |r| == 8
  {
    seq(8, i requires 0 <= i < 8 => Bit(b, i))
  }

  function BitString(bytes: seq<Byte>): (r: Bitstring)
    ensures |r| == 8 * |bytes|
  {
    if bytes == [] then [] else Bits(bytes[0]) + BitString(bytes[1..])
  }

  function Zeros(n: nat): (r: Bitstring)
    ensures |r| == n
  {
    seq(n, _ => false)
  }

  function Diff(a: Bitstring, b: Bitstring): (r: Bitstring)
    requires |a| == |b|
    ensures |r| == |a|
  {
    seq(|a|, i requires 0 <= i < |a| => a[i] != b[i])
  }

  /** The coefficient of x^k. */
  function Coef(p: Bitstring, k: int): bool {
    0 <= k < |p| && p[|p| - 1 - k]
  }

  /** The sum over j < n of a_(k-j) * b_j, in GF(2). */
  function Convolve(a: Bitstring, b: Bitstring, k: int, n: nat): bool {
    n > 0 && (Convolve(a, b, k, n - 1) != (Coef(b, n - 1) && Coef(a, k - (n - 1))))
  }

  /** The coefficient of x^k in the product a * b. */
  function ProductCoef(a: Bitstring, b: Bitstring, k: int): bool {
    Convolve(a, b, k, |b|)
  }

  /** m == q * g + r. */
  ghost predicate Divides(m: Bitstring, q: Bitstring, g: Bitstring, r: Bitstring) {
    forall k :: Coef(m, k) == (ProductCoef(q, g, k) != Coef(r, k))
  }

  ghost predicate IsRemainder(m: Bitstring, g: Bitstring, r: Bitstring) {
    |r| < |g| && exists q: Bitstring :: Divides(m, q, g, r)
  }

  /** x^8 + x^7 + x^2 + 1. */
  const GENERATOR: Bitstring := [true, true, false, false, false, false, true, false, true]

  // ---------- The register, one bit at a time ----------

  type Register = r: Bitstring | |r| == 8 witness [false, false, false, false, false, false, false, false]

  /** Position i of the register after reading `bit`. The bit that leaves, r[0] != bit,
      is a digit of the quotient, and is added back where the generator has a term. */
  predicate Tap(r: Register, bit: bool, i: nat)
    requires i < 8
  {
    var t := r[0] != bit;
    if i == 7 then t else r[i + 1] != (t && (i == 0 || i == 5))
  }

  function Absorb(r: Register, bit: bool): Register {
    seq(8, i requires 0 <= i < 8 => Tap(r, bit, i))
  }

  function Run(r: Register, bits: Bitstring): Register
    decreases |bits|
  {
    if bits == [] then r else Run(Absorb(r, bits[0]), bits[1..])
  }

  function Idle(r: Register, n: nat): Register
    decreases n
  {
    if n == 0 then r else Idle(Absorb(r, false), n - 1)
  }

  lemma {:induction false} RunConcat(r: Register, a: Bitstring, b: Bitstring)
    ensures Run(r, a + b) == Run(Run(r, a), b)
    decreases |a|
  {
    if a == [] {
      assert a + b == b;
    } else {
      assert (a + b)[1..] == a[1..] + b;
      RunConcat(Absorb(r, a[0]), a[1..], b);
    }
  }

  // ---------- Bytes as registers ----------

  lemma {:induction false} ShiftIsAbsorb(crc: Byte)
    ensures Bits(Shift(crc)) == Absorb(Bits(crc), false)
  {
    forall i: nat | i < 8
      ensures Bit(Shift(crc), i) == Tap(Bits(crc), false, i)
    {
      ShiftAt(crc, i);
    }
  }

  lemma {:induction false} ShiftAt(crc: Byte, i: nat)
    requires i < 8
    ensures Bit(Shift(crc), i) ==
            if i == 7 then Bit(crc, 0) else Bit(crc, i + 1) != (Bit(crc, 0) && (i == 0 || i == 5))
  {
  }

  lemma {:induction false} BitsXor(a: Byte, b: Byte)
    ensures Bits(a ^ b) == Diff(Bits(a), Bits(b))
  {
    forall i: nat | i < 8
      ensures Bit(a ^ b, i) == (Bit(a, i) != Bit(b, i))
    {
      MaskXor(a, b, Mask(i));
    }
  }

  lemma {:induction false} MaskXor(a: Byte, b: Byte, m: Byte)
    requires m & (m - 1) == 0
    ensures ((a ^ b) & m != 0) == ((a & m != 0) != (b & m != 0))
  {
  }

  lemma {:induction false} BitsInjective(a: Byte, b: Byte)
    requires Bits(a) == Bits(b)
    ensures a == b
  {
    forall i: nat | i < 8
      ensures Bit(a, i) == Bit(b, i)
    {
      assert Bits(a)[i] == Bits(b)[i];
    }
    assert Bit(a, 0) == Bit(b, 0) && Bit(a, 1) == Bit(b, 1) && Bit(a, 2) == Bit(b, 2) && Bit(a, 3) == Bit(b, 3);
    assert Bit(a, 4) == Bit(b, 4) && Bit(a, 5) == Bit(b, 5) && Bit(a, 6) == Bit(b, 6) && Bit(a, 7) == Bit(b, 7);
  }

  lemma {:induction false} ShiftsAreIdle(crc: Byte, n: nat)
    ensures Bits(Shifts(crc, n)) == Idle(Bits(crc), n)
    decreases n
  {
    if n > 0 {
      ShiftIsAbsorb(crc);
      ShiftsAreIdle(Shift(crc), n - 1);
    }
  }

  /** At most eight bits, left-aligned. */
  function Pack(w: Bitstring): Register
    requires |w| <= 8
  {
    w + Zeros(8 - |w|)
  }

  lemma {:induction false} PackCons(r: Register, w: Bitstring)
    requires 0 < |w| <= 8
    ensures Absorb(Diff(r, Pack(w)), false) == Diff(Absorb(r, w[0]), Pack(w[1..]))
  {
  }

  /** Up to eight bits may be added in at once, as the code does with a byte. */
  lemma {:induction false} RunPacked(r: Register, w: Bitstring)
    requires |w| <= 8
    ensures Run(r, w) == Idle(Diff(r, Pack(w)), |w|)
    decreases |w|
  {
    if w == [] {
      assert Diff(r, Pack(w)) == r;
    } else {
      PackCons(r, w);
      RunPacked(Absorb(r, w[0]), w[1..]);
    }
  }

  lemma {:induction false} ByteStep(crc: Byte, b: Byte, rounds: nat)
    requires rounds == 8
    ensures Bits(Shifts(crc ^ b, rounds)) == Run(Bits(crc), Bits(b))
  {
    ShiftsAreIdle(crc ^ b, rounds);
    BitsXor(crc, b);
    assert Pack(Bits(b)) == Bits(b);
    RunPacked(Bits(crc), Bits(b));
  }

  lemma {:induction false} ResumeIsRun(crc: Byte, payload: seq<Byte>)
    ensures Bits(Resume(crc, payload)) == Run(Bits(crc), BitString(payload))
    decreases |payload|
  {
    if payload == [] {
    } else {
      var b, rest := payload[0], payload[1..];
      ByteStep(crc, b, 8);
      RunConcat(Bits(crc), Bits(b), BitString(rest));
      ResumeIsRun(Shifts(crc ^ b, 8), rest);
    }
  }

  const ZERO: Register := Zeros(8)

  lemma {:induction false} CrcIsRun(payload: seq<Byte>)
    ensures Bits(Crc8(payload)) == Run(ZERO, BitString(payload))
  {
    assert Bits(0) == ZERO;
    ResumeIsRun(0, payload);
  }

  // ---------- The register is polynomial division ----------

  lemma {:induction false} ProductByGenerator(q: Bitstring, k: int)
    ensures ProductCoef(q, GENERATOR, k) ==
            (((Coef(q, k) != Coef(q, k - 2)) != Coef(q, k - 7)) != Coef(q, k - 8))
  {
    var g := GENERATOR;
    assert Coef(g, 0) && !Coef(g, 1) && Coef(g, 2) && !Coef(g, 3) && !Coef(g, 4);
    assert !Coef(g, 5) && !Coef(g, 6) && Coef(g, 7) && Coef(g, 8);
    assert Convolve(q, g, k, 1) == Coef(q, k);
    assert Convolve(q, g, k, 3) == (Convolve(q, g, k, 2) != Coef(q, k - 2));
    assert Convolve(q, g, k, 5) == Convolve(q, g, k, 3);
    assert Convolve(q, g, k, 7) == Convolve(q, g, k, 5);
    assert Convolve(q, g, k, 8) == (Convolve(q, g, k, 7) != Coef(q, k - 7));
  }

  /** The quotient digits the register discards while it reads `bits`. */
  function Quotient(bits: Bitstring): (q: Bitstring) {
    if bits == [] then []
    else
      var n := |bits| - 1;
      Quotient(bits[..n]) + [Run(ZERO, bits[..n])[0] != bits[n]]
  }

  lemma {:induction false} RunDivides(bits: Bitstring)
    ensures Divides(bits + Zeros(8), Quotient(bits), GENERATOR, Run(ZERO, bits))
    decreases |bits|
  {
    if bits == [] {
      forall k
        ensures Coef([] + Zeros(8), k) == (ProductCoef([], GENERATOR, k) != Coef(ZERO, k))
      {
        ProductByGenerator([], k);
      }
    } else {
      var n := |bits| - 1;
      var front, b := bits[..n], bits[n];
      RunDivides(front);
      assert bits == front + [b];
      RunConcat(ZERO, front, [b]);
      AppendedDigit(front, b, Quotient(front), Run(ZERO, front));
    }
  }

  /** One more bit multiplies everything by x, and the new quotient digit cancels x^8. */
  lemma {:induction false} AppendedDigit(front: Bitstring, b: bool, q: Bitstring, r: Register)
    requires Divides(front + Zeros(8), q, GENERATOR, r)
    ensures Divides(front + [b] + Zeros(8), q + [r[0] != b], GENERATOR, Absorb(r, b))
  {
    var t := r[0] != b;
    forall k
      ensures Coef(front + [b] + Zeros(8), k) == (ProductCoef(q + [t], GENERATOR, k) != Coef(Absorb(r, b), k))
    {
      assert Coef(front + Zeros(8), k - 1) == (ProductCoef(q, GENERATOR, k - 1) != Coef(r, k - 1));
      AppendedCoef(front, b, q, t, r, Absorb(r, b), k);
    }
  }

  lemma {:induction false} AppendedCoef(front: Bitstring, b: bool, q: Bitstring, t: bool, r: Bitstring,
                                        r': Bitstring, k: int)
    requires |r| == |r'| == 8 && t == (r[0] != b)
    requires forall i :: 0 <= i < 8 ==> r'[i] == if i == 7 then t else r[i + 1] != (t && (i == 0 || i == 5))
    requires Coef(front + Zeros(8), k - 1) == (ProductCoef(q, GENERATOR, k - 1) != Coef(r, k - 1))
    ensures Coef(front + [b] + Zeros(8), k) == (ProductCoef(q + [t], GENERATOR, k) != Coef(r', k))
  {
    ProductByGenerator(q, k - 1);
    ProductByGenerator(q + [t], k);
    AppendCoef(q, t, k);
    AppendCoef(q, t, k - 2);
    AppendCoef(q, t, k - 7);
    AppendCoef(q, t, k - 8);
    assert Coef(front + Zeros(8), k - 1) == Coef(front, k - 9);
    assert Coef(front + [b] + Zeros(8), k) == if k == 8 then b else Coef(front, k - 9);
    assert Coef(r', k) == if k == 8 then false else Coef(r, k - 1) != (t && (k == 0 || k == 2 || k == 7));
  }

  lemma {:induction false} AppendCoef(q: Bitstring, t: bool, k: int)
    ensures Coef(q + [t], k) == if k == 0 then t else Coef(q, k - 1)
  {
  }

  /** The checksum is the remainder of payload * x^8 by the generator. */
  lemma {:induction false} CrcIsRemainder(payload: seq<Byte>)
    ensures IsRemainder(BitString(payload) + Zeros(8), GENERATOR, Bits(Crc8(payload)))
  {
    CrcIsRun(payload);
    RunDivides(BitString(payload));
  }

  /** ... and there is only one remainder. */
  lemma {:induction false} RemainderIsUnique(m: Bitstring, r1: Bitstring, r2: Bitstring)
    requires IsRemainder(m, GENERATOR, r1) && IsRemainder(m, GENERATOR, r2)
    requires |r1| == |r2| == 8
    ensures r1 == r2
  {
    var q1: Bitstring :| Divides(m, q1, GENERATOR, r1);
    var q2: Bitstring :| Divides(m, q2, GENERATOR, r2);
    forall e: nat {
      QuotientIsUnique(m, q1, q2, r1, r2, e);
    }
    forall i | 0 <= i < 8
      ensures r1[i] == r2[i]
    {
      var k := 7 - i;
      ProductByGenerator(q1, k);
      ProductByGenerator(q2, k);
      assert Coef(m, k) == (ProductCoef(q1, GENERATOR, k) != Coef(r1, k));
      assert Coef(m, k) == (ProductCoef(q2, GENERATOR, k) != Coef(r2, k));
    }
  }

  lemma {:induction false} QuotientIsUnique(m: Bitstring, q1: Bitstring, q2: Bitstring,
                                            r1: Bitstring, r2: Bitstring, e: nat)
    requires Divides(m, q1, GENERATOR, r1) && Divides(m, q2, GENERATOR, r2)
    requires |r1| == |r2| == 8
    ensures Coef(q1, e) == Coef(q2, e)
    decreases |q1| + |q2| - e
  {
    if e < |q1| + |q2| {
      QuotientIsUnique(m, q1, q2, r1, r2, e + 1);
      QuotientIsUnique(m, q1, q2, r1, r2, e + 6);
      QuotientIsUnique(m, q1, q2, r1, r2, e + 8);
      ProductByGenerator(q1, e + 8);
      ProductByGenerator(q2, e + 8);
      assert Coef(m, e + 8) == (ProductCoef(q1, GENERATOR, e + 8) != Coef(r1, e + 8));
      assert Coef(m, e + 8) == (ProductCoef(q2, GENERATOR, e + 8) != Coef(r2, e + 8));
    }
  }
}
