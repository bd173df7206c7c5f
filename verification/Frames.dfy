/** The frames of the wire format: building them, and recognising them. */
module Frames {

  import opened Crc

  /** The first byte of a frame, whoever sends it. */
  const HEADER: Byte := 0xAA
  /** Header, two size bytes, and the checksum. */
  const FRAME_OVERHEAD := 4
  /** Largest frame the assembler accepts. */
  const MAX_FRAME_LEN := 256
  /** A frame is a measurement from this length on, and a command's status below it. */
  const MEASUREMENT_FRAME_MIN_LEN := 30

  type Frame = seq<Byte>

  function Value(b: Byte): (n: nat)
    ensures n < 256
  {
    b as nat
  }

  function FromBigEndian(hi: Byte, lo: Byte): nat {
    Value(hi) * 256 + Value(lo)
  }

  /** The length a header announces for the whole frame. */
  function AnnouncedLen(s: seq<Byte>): nat
    requires |s| >= 3
  {
    FromBigEndian(s[1], s[2]) + FRAME_OVERHEAD
  }

  function PayloadOf(f: Frame): seq<Byte>
    requires |f| >= FRAME_OVERHEAD
  {
    f[3..|f| - 1]
  }

  predicate WellFormed(f: Frame) {
    && FRAME_OVERHEAD <= |f| <= MAX_FRAME_LEN
    && f[0] == HEADER
    && AnnouncedLen(f) == |f|
    && Crc8(PayloadOf(f)) == f[|f| - 1]
  }

  // ---------- Building ----------

  lemma {:induction false} EveryValue(n: nat) returns (b: Byte)
    requires n < 256
    ensures Value(b) == n
  {
    if n == 0 {
      b := 0;
    } else {
      var c := EveryValue(n - 1);
      b := c + 1;
    }
  }

  lemma ByteOfValue(b: Byte)
    ensures Value(b) as Byte == b
  {
  }

  lemma ByteValue(n: nat)
    requires n < 256
    ensures Value(n as Byte) == n
  {
    var b := EveryValue(n);
    ByteOfValue(b);
  }

  method ToBigEndian(n: nat) returns (hi: Byte, lo: Byte)
    requires n < 0x1_0000
    ensures FromBigEndian(hi, lo) == n
  {
    hide Value;
    ByteValue(n / 256);
    ByteValue(n % 256);
    hi, lo := (n / 256) as Byte, (n % 256) as Byte;
  }

  /** The size field keeps the low sixteen bits of the payload length. */
  method Generate(payload: seq<Byte>) returns (frame: Frame)
    ensures |frame| == |payload| + 4
    ensures frame[0] == 0xAA
    ensures FromBigEndian(frame[1], frame[2]) == |payload| % 0x1_0000
    ensures PayloadOf(frame) == payload
    ensures frame[|frame| - 1] == Crc8(payload)
    ensures WellFormed(frame) <==> |payload| <= 252
  {
    hide Crc8;
    hide FromBigEndian;
    hide IsRemainder;
    frame := [HEADER];
    var hi, lo := ToBigEndian(|payload| % 0x1_0000);
    frame := frame + [hi, lo];
    frame := frame + payload;
    var crc := ComputeCrc8(payload);
    frame := frame + [crc];
    assert PayloadOf(frame) == payload;
  }

  lemma {:induction false} Parts(f: Frame)
    requires WellFormed(f)
    ensures f == [HEADER, f[1], f[2]] + PayloadOf(f) + [Crc8(PayloadOf(f))]
  {
    hide Crc8;
    hide FromBigEndian;
  }

  lemma SizeBytes(h: Byte, l: Byte, h': Byte, l': Byte)
    requires FromBigEndian(h, l) == FromBigEndian(h', l')
    ensures h == h' && l == l'
  {
    hide Value;
    assert Value(h) == Value(h') && Value(l) == Value(l');
    ByteOfValue(h);
    ByteOfValue(h');
    ByteOfValue(l);
    ByteOfValue(l');
  }

  /** A frame is determined by its payload. */
  lemma {:induction false} FrameOfPayload(f: Frame, g: Frame)
    requires WellFormed(f) && WellFormed(g) && PayloadOf(f) == PayloadOf(g)
    ensures f == g
  {
    hide Crc8;
    hide FromBigEndian;
    Parts(f);
    Parts(g);
    SizeBytes(f[1], f[2], g[1], g[2]);
  }
}
