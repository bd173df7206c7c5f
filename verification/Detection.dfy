/** Which corruptions of a payload and its checksum byte the check notices. */
module Detection {

  import opened Crc

  // ---------- Linearity ----------

  function XorBytes(a: seq<Byte>, b: seq<Byte>): (r: seq<Byte>)
    requires |a| == |b|
    ensures |r| == |a|
  {
    seq(|a|, i requires 0 <= i < |a| => a[i] ^ b[i])
  }

  lemma {:induction false} AbsorbXor(r: Register, s: Register, a: bool, b: bool)
    ensures Absorb(Diff(r, s), a != b) == Diff(Absorb(r, a), Absorb(s, b))
  {
  }

  lemma {:induction false} RunXor(r: Register, s: Register, a: Bitstring, b: Bitstring)
    requires |a| == |b|
    ensures Run(Diff(r, s), Diff(a, b)) == Diff(Run(r, a), Run(s, b))
    decreases |a|
  {
    if a == [] {
    } else {
      assert Diff(a, b)[1..] == Diff(a[1..], b[1..]);
      AbsorbXor(r, s, a[0], b[0]);
      RunXor(Absorb(r, a[0]), Absorb(s, b[0]), a[1..], b[1..]);
    }
  }

  lemma {:induction false} DiffConcat(a: Bitstring, b: Bitstring, c: Bitstring, d: Bitstring)
    requires |a| == |c| && |b| == |d|
    ensures Diff(a + b, c + d) == Diff(a, c) + Diff(b, d)
  {
  }

  lemma {:induction false} BitStringXor(a: seq<Byte>, b: seq<Byte>)
    requires |a| == |b|
    ensures BitString(XorBytes(a, b)) == Diff(BitString(a), BitString(b))
    decreases |a|
  {
    if a == [] {
    } else {
      BitsXor(a[0], b[0]);
      BitStringXor(a[1..], b[1..]);
      assert XorBytes(a, b)[1..] == XorBytes(a[1..], b[1..]);
      DiffConcat(Bits(a[0]), BitString(a[1..]), Bits(b[0]), BitString(b[1..]));
    }
  }

  lemma {:induction false} CrcIsLinear(a: seq<Byte>, b: seq<Byte>)
    requires |a| == |b|
    ensures Crc8(XorBytes(a, b)) == Crc8(a) ^ Crc8(b)
  {
    CrcIsRun(a);
    CrcIsRun(b);
    CrcIsRun(XorBytes(a, b));
    BitStringXor(a, b);
    XorIsZero(ZERO, ZERO);
    RunXor(ZERO, ZERO, BitString(a), BitString(b));
    BitsXor(Crc8(a), Crc8(b));
    BitsInjective(Crc8(XorBytes(a, b)), Crc8(a) ^ Crc8(b));
  }

  // ---------- The check as a property of the error pattern ----------

  lemma {:induction false} AbsorbToZero(r: Register)
    ensures Absorb(r, false) == ZERO <==> r == ZERO
  {
    var a := Absorb(r, false);
    if a == ZERO {
      forall i | 0 <= i < 8
        ensures !r[i]
      {
        assert a[7] == r[0] && (i > 0 ==> !a[i - 1]);
      }
    }
    if r == ZERO {
      assert a == ZERO;
    }
  }

  lemma {:induction false} IdleToZero(r: Register, n: nat)
    ensures Idle(r, n) == ZERO <==> r == ZERO
    decreases n
  {
    if n > 0 {
      AbsorbToZero(r);
      IdleToZero(Absorb(r, false), n - 1);
    }
  }

  lemma {:induction false} BitStringConcat(a: seq<Byte>, b: seq<Byte>)
    ensures BitString(a + b) == BitString(a) + BitString(b)
    decreases |a|
  {
    if a == [] {
      assert a + b == b;
    } else {
      assert (a + b)[1..] == a[1..] + b;
      BitStringConcat(a[1..], b);
    }
  }

  lemma {:induction false} ZeroByte(b: Byte)
    ensures Bits(b) == ZERO <==> b == 0
  {
    if Bits(b) == ZERO {
      BitsInjective(b, 0);
    }
  }

  lemma {:induction false} XorIsZero(r: Register, s: Register)
    ensures Diff(r, s) == ZERO <==> r == s
  {
    if r == s {
      assert Diff(r, s) == ZERO;
    } else {
      var i :| 0 <= i < 8 && r[i] != s[i];
      assert Diff(r, s)[i];
    }
  }

  lemma {:induction false} RunByteToZero(r: Register, s: Register)
    ensures Run(r, s) == ZERO <==> r == s
  {
    RunPacked(r, s);
    assert Pack(s) == s;
    IdleToZero(Diff(r, s), |s|);
    XorIsZero(r, s);
  }

  lemma {:induction false} RunWithChecksum(payload: seq<Byte>, crc: Byte)
    ensures Bits(Crc8(payload + [crc])) == Run(Bits(Crc8(payload)), Bits(crc))
  {
    CrcIsRun(payload);
    CrcIsRun(payload + [crc]);
    BitStringConcat(payload, [crc]);
    assert BitString([crc]) == Bits(crc);
    RunConcat(ZERO, BitString(payload), Bits(crc));
  }

  /** Running the checksum on over the checksum byte gives zero, and over no other byte. */
  lemma {:induction false} SelfCheck(payload: seq<Byte>, crc: Byte)
    ensures Crc8(payload + [crc]) == 0 <==> crc == Crc8(payload)
  {
    RunWithChecksum(payload, crc);
    RunByteToZero(Bits(Crc8(payload)), Bits(crc));
    ZeroByte(Crc8(payload + [crc]));
    if Bits(crc) == Bits(Crc8(payload)) {
      BitsInjective(Crc8(payload), crc);
    }
  }

  /** The bits flipped between what was sent, checksum included, and what arrived. */
  function ErrorPattern(sent: seq<Byte>, received: seq<Byte>, crc: Byte): Bitstring
    requires |sent| == |received|
  {
    Diff(BitString(sent + [Crc8(sent)]), BitString(received + [crc]))
  }

  /** Undetected exactly when the register ends at zero on the error pattern. */
  lemma {:induction false} AcceptedExactlyWhen(sent: seq<Byte>, received: seq<Byte>, crc: Byte)
    requires |sent| == |received|
    ensures Crc8(received) == crc <==> Run(ZERO, ErrorPattern(sent, received, crc)) == ZERO
  {
    var a, b := sent + [Crc8(sent)], received + [crc];
    SelfCheck(sent, Crc8(sent));
    SelfCheck(received, crc);
    CrcIsRun(a);
    CrcIsRun(b);
    ZeroByte(Crc8(b));
    XorIsZero(ZERO, ZERO);
    RunXor(ZERO, ZERO, BitString(a), BitString(b));
    XorIsZero(ZERO, Run(ZERO, BitString(b)));
  }

  /** In polynomials: undetected exactly when the generator divides the error. */
  lemma {:induction false} UndetectedExactlyWhenDivisible(sent: seq<Byte>, received: seq<Byte>, crc: Byte)
    requires |sent| == |received|
    ensures Crc8(received) == crc <==>
            IsRemainder(ErrorPattern(sent, received, crc) + Zeros(8), GENERATOR, Zeros(8))
  {
    var e := ErrorPattern(sent, received, crc);
    AcceptedExactlyWhen(sent, received, crc);
    RunDivides(e);
    if IsRemainder(e + Zeros(8), GENERATOR, Zeros(8)) {
      RemainderIsUnique(e + Zeros(8), Run(ZERO, e), Zeros(8));
    }
  }

  // ---------- Odd weight ----------

  function Weight(e: Bitstring): nat {
    if e == [] then 0 else (if e[0] then 1 else 0) + Weight(e[1..])
  }

  function Parity(r: Register): bool {
    r[0] != (r[1] != (r[2] != (r[3] != (r[4] != (r[5] != (r[6] != r[7]))))))
  }

  lemma {:induction false} AbsorbParity(r: Register, b: bool)
    ensures Parity(Absorb(r, b)) == (Parity(r) != b)
  {
    var a, t := Absorb(r, b), r[0] != b;
    assert a[0] == (r[1] != t) && a[1] == r[2] && a[2] == r[3] && a[3] == r[4];
    assert a[4] == r[5] && a[5] == (r[6] != t) && a[6] == r[7] && a[7] == t;
  }

  /** x + 1 divides the generator, so the register keeps the parity of what it read. */
  lemma {:induction false} RunKeepsParity(r: Register, e: Bitstring)
    ensures Parity(Run(r, e)) == (Parity(r) != (Weight(e) % 2 == 1))
    decreases |e|
  {
    if e == [] {
    } else {
      AbsorbParity(r, e[0]);
      RunKeepsParity(Absorb(r, e[0]), e[1..]);
    }
  }

  /** An odd number of flipped bits is always noticed, at any length. */
  lemma {:induction false} OddErrorsDetected(sent: seq<Byte>, received: seq<Byte>, crc: Byte)
    requires |sent| == |received|
    requires Weight(ErrorPattern(sent, received, crc)) % 2 == 1
    ensures Crc8(received) != crc
  {
    AcceptedExactlyWhen(sent, received, crc);
    RunKeepsParity(ZERO, ErrorPattern(sent, received, crc));
  }

  // ---------- Bursts ----------

  ghost predicate Silent(e: Bitstring) {
    forall i :: 0 <= i < |e| ==> !e[i]
  }

  lemma {:induction false} RunSilent(r: Register, e: Bitstring)
    requires Silent(e)
    ensures Run(r, e) == Idle(r, |e|)
    decreases |e|
  {
    if e == [] {
    } else {
      RunSilent(Absorb(r, e[0]), e[1..]);
    }
  }

  /** Every flipped bit lies in one window of eight. */
  ghost predicate Burst(e: Bitstring, from: nat) {
    !Silent(e) && forall i :: 0 <= i < |e| && e[i] ==> from <= i < from + 8
  }

  lemma {:induction false} RunBurst(e: Bitstring, from: nat)
    requires Burst(e, from)
    ensures Run(ZERO, e) != ZERO
  {
    var to := if from + 8 <= |e| then from + 8 else |e|;
    var head, window, tail := e[..from], e[from..to], e[to..];
    assert e == head + (window + tail);
    RunConcat(ZERO, head, window + tail);
    RunSilent(ZERO, head);
    IdleToZero(ZERO, |head|);
    RunConcat(ZERO, window, tail);
    RunPacked(ZERO, window);
    RunSilent(Run(ZERO, window), tail);
    IdleToZero(Run(ZERO, window), |tail|);
    IdleToZero(Pack(window), |window|);
    assert Diff(ZERO, Pack(window)) == Pack(window);
    var i :| 0 <= i < |e| && e[i];
    assert window[i - from];
    PackIsZero(window);
  }

  lemma {:induction false} PackIsZero(w: Bitstring)
    requires |w| <= 8
    ensures Pack(w) == ZERO <==> Silent(w)
  {
    assert forall i :: 0 <= i < |w| ==> w[i] == Pack(w)[i];
  }

  /** Flips confined to eight adjacent bits are always noticed, at any length. */
  lemma {:induction false} BurstsDetected(sent: seq<Byte>, received: seq<Byte>, crc: Byte, from: nat)
    requires |sent| == |received|
    requires Burst(ErrorPattern(sent, received, crc), from)
    ensures Crc8(received) != crc
  {
    AcceptedExactlyWhen(sent, received, crc);
    RunBurst(ErrorPattern(sent, received, crc), from);
  }

  // ---------- Two flipped bits ----------

  /** The register of x^7: reading a single one bit steps it once. */
  const X7: Register := [true] + Zeros(7)

  ghost predicate OnlyAt(e: Bitstring, i: nat, j: nat) {
    i < j < |e| && e[i] && e[j] && forall k :: 0 <= k < |e| && k != i && k != j ==> !e[k]
  }

  lemma {:induction false} AbsorbToOne(r: Register)
    ensures Absorb(r, true) == ZERO <==> r == X7
  {
    AbsorbXor(r, X7, false, false);
    AbsorbToZero(Diff(r, X7));
    XorIsZero(r, X7);
    assert Absorb(Diff(r, X7), false) == Absorb(r, true);
  }

  lemma {:induction false} RunTwo(e: Bitstring, i: nat, j: nat)
    requires OnlyAt(e, i, j)
    ensures Run(ZERO, e) == ZERO <==> Idle(X7, j - i) == X7
  {
    var head, gap, tail := e[..i], e[i + 1..j], e[j + 1..];
    assert e == head + ([true] + (gap + ([true] + tail)));
    RunConcat(ZERO, head, [true] + (gap + ([true] + tail)));
    RunSilent(ZERO, head);
    IdleToZero(ZERO, |head|);
    var one := Absorb(ZERO, true);
    RunConcat(ZERO, [true], gap + ([true] + tail));
    assert Run(ZERO, [true]) == one == Absorb(X7, false);
    RunConcat(one, gap, [true] + tail);
    RunSilent(one, gap);
    var mid := Run(one, gap);
    assert mid == Idle(X7, j - i);
    RunConcat(mid, [true], tail);
    assert Run(mid, [true]) == Absorb(mid, true);
    RunSilent(Absorb(mid, true), tail);
    IdleToZero(Absorb(mid, true), |tail|);
    AbsorbToOne(mid);
  }

  lemma {:induction false} IdleSum(r: Register, m: nat, n: nat)
    ensures Idle(r, m + n) == Idle(Idle(r, m), n)
    decreases m
  {
    if m > 0 {
      IdleSum(Absorb(r, false), m - 1, n);
    }
  }

  /** A register that comes back after d steps comes back after every multiple of d. */
  lemma {:induction false} IdleMultiple(d: nat, q: nat, r: nat)
    requires Idle(X7, d) == X7
    ensures Idle(X7, q * d + r) == Idle(X7, r)
    decreases q
  {
    if q > 0 {
      assert q * d + r == d + ((q - 1) * d + r);
      IdleSum(X7, d, (q - 1) * d + r);
      IdleMultiple(d, q - 1, r);
    }
  }

  lemma {:induction false} IdlePeriod(d: nat, n: nat)
    requires d > 0 && Idle(X7, d) == X7
    ensures Idle(X7, n) == Idle(X7, n % d)
  {
    assert n == n / d * d + n % d;
    IdleMultiple(d, n / d, n % d);
  }

  /** x^7, x^15, x^23, ... modulo the generator, on the byte register of the code. */
  const ORBIT: seq<Byte> := [0x80, 0x89, 0xBF, 0x0B, 0xB9, 0x1F, 0xC1, 0x8A,
                             0xB5, 0x37, 0x31, 0x25, 0x5D, 0xC8, 0xBC, 0x01]

  lemma {:induction false} OrbitStep(i: nat)
    requires i < 15
    ensures Shifts(ORBIT[i], 8) == ORBIT[i + 1]
  {
  }

  lemma {:induction false} OrbitIdle(i: nat)
    requires i < 15
    ensures Idle(Bits(ORBIT[i]), 8) == Bits(ORBIT[i + 1])
  {
    OrbitStep(i);
    ShiftsAreIdle(ORBIT[i], 8);
  }

  lemma {:induction false} OrbitFrom(i: nat)
    requires i <= 15
    ensures Idle(X7, 8 * i) == Bits(ORBIT[i])
  {
    if i == 0 {
      assert Bits(0x80) == X7;
    } else {
      OrbitFrom(i - 1);
      OrbitIdle(i - 1);
      IdleSum(X7, 8 * (i - 1), 8);
    }
  }

  /** x^127 == 1 modulo the generator. */
  lemma {:induction false} Order()
    ensures Idle(X7, 127) == X7
  {
    OrbitFrom(0);
    OrbitFrom(15);
    IdleSum(X7, 120, 7);
    ShiftsAreIdle(ORBIT[15], 7);
  }

  lemma {:induction false} Prime127(d: nat)
    requires 1 < d < 127
    ensures 127 % d != 0
  {
  }

  /** 127 is prime, so no shorter period is possible: it would divide down to one. */
  lemma {:induction false} NoShorterPeriod(d: nat)
    requires 0 < d < 127
    ensures Idle(X7, d) != X7
    decreases d
  {
    if d == 1 {
      assert Idle(X7, 1) == Absorb(X7, false);
      assert Absorb(X7, false)[7] && !X7[7];
    } else if Idle(X7, d) == X7 {
      Order();
      IdlePeriod(d, 127);
      Prime127(d);
      NoShorterPeriod(127 % d);
    }
  }

  /** Two flips go unnoticed exactly when a multiple of 127 bits lies between them. */
  lemma {:induction false} TwoFlipsUndetectedExactlyWhen(sent: seq<Byte>, received: seq<Byte>, crc: Byte,
                                                         i: nat, j: nat)
    requires |sent| == |received|
    requires OnlyAt(ErrorPattern(sent, received, crc), i, j)
    ensures Crc8(received) == crc <==> (j - i) % 127 == 0
  {
    AcceptedExactlyWhen(sent, received, crc);
    RunTwo(ErrorPattern(sent, received, crc), i, j);
    Order();
    IdlePeriod(127, j - i);
    if (j - i) % 127 != 0 {
      NoShorterPeriod((j - i) % 127);
    }
  }

  // ---------- Minimum distance ----------

  lemma {:induction false} WeightZero(e: Bitstring)
    ensures Weight(e) == 0 <==> Silent(e)
    decreases |e|
  {
    if e == [] {
    } else {
      WeightZero(e[1..]);
      assert Silent(e) <==> !e[0] && Silent(e[1..]) by {
        if !e[0] && Silent(e[1..]) {
          assert forall i :: 0 < i < |e| ==> e[i] == e[1..][i - 1];
        }
      }
    }
  }

  lemma {:induction false} FirstOne(e: Bitstring) returns (i: nat)
    requires Weight(e) > 0
    ensures i < |e| && e[i] && Silent(e[..i]) && Weight(e[i + 1..]) == Weight(e) - 1
    decreases |e|
  {
    if e[0] {
      i := 0;
    } else {
      var j := FirstOne(e[1..]);
      i := j + 1;
      assert e[i + 1..] == e[1..][j + 1..];
      assert forall k :: 0 < k < i ==> e[k] == e[1..][..j][k - 1];
    }
  }

  lemma {:induction false} TwoOnes(e: Bitstring) returns (i: nat, j: nat)
    requires Weight(e) == 2
    ensures OnlyAt(e, i, j)
  {
    i := FirstOne(e);
    var rest := e[i + 1..];
    var k := FirstOne(rest);
    WeightZero(rest[k + 1..]);
    j := i + 1 + k;
    assert e[j] == rest[k];
    forall m | 0 <= m < |e| && m != i && m != j
      ensures !e[m]
    {
      if m < i {
        assert e[m] == e[..i][m];
      } else if m < j {
        assert e[m] == rest[..k][m - i - 1];
      } else {
        assert e[m] == rest[k + 1..][m - j - 1];
      }
    }
  }

  /** One, two or three flips are noticed while payload and checksum fit in 127 bits. */
  lemma {:induction false} MinimumDistance(sent: seq<Byte>, received: seq<Byte>, crc: Byte)
    requires |sent| == |received| <= 14
    requires 1 <= Weight(ErrorPattern(sent, received, crc)) <= 3
    ensures Crc8(received) != crc
  {
    var e := ErrorPattern(sent, received, crc);
    if Weight(e) == 2 {
      var i, j := TwoOnes(e);
      TwoFlipsUndetectedExactlyWhen(sent, received, crc, i, j);
    } else {
      OddErrorsDetected(sent, received, crc);
    }
  }

  lemma {:induction false} WeightConcat(a: Bitstring, b: Bitstring)
    ensures Weight(a + b) == Weight(a) + Weight(b)
    decreases |a|
  {
    if a == [] {
      assert a + b == b;
    } else {
      assert (a + b)[1..] == a[1..] + b;
      WeightConcat(a[1..], b);
    }
  }

  lemma {:induction false} OnlyAtWeight(e: Bitstring, i: nat, j: nat)
    requires OnlyAt(e, i, j)
    ensures Weight(e) == 2
  {
    var head, gap, tail := e[..i], e[i + 1..j], e[j + 1..];
    assert e == head + ([true] + (gap + ([true] + tail)));
    WeightConcat(head, [true] + (gap + ([true] + tail)));
    WeightConcat(gap, [true] + tail);
    WeightZero(head);
    WeightZero(gap);
    WeightZero(tail);
  }

  lemma {:induction false} FlipBits(a: Byte, m: Byte)
    ensures Diff(Bits(a), Bits(a ^ m)) == Bits(m)
  {
    BitsXor(a, a ^ m);
    assert a ^ (a ^ m) == m;
  }

  /** The length bound is the largest: one byte more and two flips can pass. */
  lemma {:induction false} FifteenBytesAreTooMany(sent: seq<Byte>) returns (received: seq<Byte>, crc: Byte)
    requires |sent| == 15
    ensures |received| == 15 && Weight(ErrorPattern(sent, received, crc)) == 2
    ensures Crc8(received) == crc
  {
    received := [sent[0] ^ 0x80] + sent[1..];
    crc := Crc8(sent) ^ 0x01;
    EndBits();
    FlipEnds(sent, Crc8(sent), received, crc, 0x80, 0x01);
    TwoFlipsUndetectedExactlyWhen(sent, received, crc, 0, 127);
  }

  lemma {:induction false} EndBits()
    ensures Bits(0x80) == [true] + Zeros(7)
    ensures Bits(0x01) == Zeros(7) + [true]
  {
  }

  /** Flipping the first bit and the last leaves exactly those two in the pattern. */
  lemma {:induction false} FlipEnds(a: seq<Byte>, c: Byte, b: seq<Byte>, d: Byte, first: Byte, last: Byte)
    requires |a| == 15 && b == [a[0] ^ first] + a[1..] && d == c ^ last
    requires Bits(first) == [true] + Zeros(7) && Bits(last) == Zeros(7) + [true]
    ensures OnlyAt(Diff(BitString(a + [c]), BitString(b + [d])), 0, 127)
    ensures Weight(Diff(BitString(a + [c]), BitString(b + [d]))) == 2
  {
    OuterBytes(a, c);
    OuterBytes(b, d);
    assert b[1..] == a[1..];
    FlipBits(a[0], first);
    FlipBits(c, last);
    FlipOuter(Bits(a[0]), Bits(b[0]), BitString(a[1..]), Bits(c), Bits(d));
  }

  lemma {:induction false} FlipOuter(a: Bitstring, b: Bitstring, middle: Bitstring, c: Bitstring, d: Bitstring)
    requires |a| == |b| == |c| == |d| == 8 && |middle| == 112
    requires Diff(a, b) == [true] + Zeros(7) && Diff(c, d) == Zeros(7) + [true]
    ensures OnlyAt(Diff((a + middle) + c, (b + middle) + d), 0, 127)
    ensures Weight(Diff((a + middle) + c, (b + middle) + d)) == 2
  {
    var e := Diff((a + middle) + c, (b + middle) + d);
    DiffConcat(a + middle, c, b + middle, d);
    DiffConcat(a, middle, b, middle);
    TwoEnds(Diff(middle, middle), e);
    OnlyAtWeight(e, 0, 127);
  }

  lemma {:induction false} OuterBytes(a: seq<Byte>, c: Byte)
    requires a != []
    ensures BitString(a + [c]) == (Bits(a[0]) + BitString(a[1..])) + Bits(c)
  {
    BitStringConcat(a, [c]);
    assert BitString([c]) == Bits(c);
  }

  lemma {:induction false} TwoEnds(middle: Bitstring, e: Bitstring)
    requires |middle| == 112 && Silent(middle)
    requires e == (([true] + Zeros(7)) + middle) + (Zeros(7) + [true])
    ensures OnlyAt(e, 0, 127)
  {
  }
}
