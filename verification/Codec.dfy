/** Sender and receiver together: what is framed, sent in any chunks, and pulled out in any
    rhythm comes back; what is damaged on the way does not. */
module Codec {

  import opened Options
  import opened Crc
  import opened Detection
  import opened Frames
  import opened Assembler
  import opened Protocol

  // ---------- Any chunking, any laziness ----------

  /** One use of an assembler: feed a chunk, or pull once on the iterator in hand. An
      iterator that is abandoned early is one that is pulled fewer times. */
  datatype Op = FeedOp(data: seq<Byte>) | PullOp

  datatype Session = Session(fed: seq<Byte>, yielded: seq<Frame>, buf: seq<Byte>)

  function Step(s: Session, op: Op): Session {
    match op
    case FeedOp(data) => s.(fed := s.fed + data, buf := s.buf + data)
    case PullOp =>
      match Next(s.buf)
      case (None, rest) => s.(buf := rest)
      case (Some(f), rest) => s.(yielded := s.yielded + [f], buf := rest)
  }

  function Perform(s: Session, ops: seq<Op>): Session
    decreases |ops|
  {
    if ops == [] then s else Perform(Step(s, ops[0]), ops[1..])
  }

  const FRESH := Session([], [], [])

  lemma {:induction false} PerformAccounts(s: Session, ops: seq<Op>)
    requires Accounts(s.fed, s.yielded, s.buf)
    ensures var t := Perform(s, ops); Accounts(t.fed, t.yielded, t.buf)
    decreases |ops|
  {
    hide Accounts;
    hide WellFormed;
    if ops != [] {
      match ops[0]
      case FeedOp(data) =>
        ExtendKeepsAccount(s.fed, s.yielded, s.buf, data);
        PerformAccounts(Step(s, ops[0]), ops[1..]);
      case PullOp =>
        NextKeepsAccount(s.fed, s.yielded, s.buf);
        PerformAccounts(Step(s, ops[0]), ops[1..]);
    }
  }

  /** The frames handed out, then those a full drain would still give, are the parse of
      everything fed; nothing else about the session matters. */
  lemma {:induction false} ChunkingDoesNotMatter(ops: seq<Op>)
    ensures var t := Perform(FRESH, ops);
            Parse(t.fed) == Parsed(t.yielded + Parse(t.buf).frames, Parse(t.buf).residue)
  {
    PerformAccounts(FRESH, ops);
  }

  // ---------- Round trip ----------

  datatype Item = Noise(bytes: seq<Byte>) | Framed(frame: Frame)

  predicate Sendable(item: Item) {
    match item
    case Noise(bytes) => HEADER !in bytes
    case Framed(f) => WellFormed(f)
  }

  function Wire(items: seq<Item>): seq<Byte> {
    if items == [] then []
    else (match items[0] case Noise(bytes) => bytes case Framed(f) => f) + Wire(items[1..])
  }

  function FramesIn(items: seq<Item>): seq<Frame> {
    if items == [] then []
    else (match items[0] case Noise(_) => [] case Framed(f) => [f]) + FramesIn(items[1..])
  }

  lemma {:induction false} NoiseVanishes(noise: seq<Byte>, rest: seq<Byte>)
    requires HEADER !in noise
    ensures Parse(noise + rest) == Parse(rest)
    decreases |noise|
  {
    hide Crc8;
    hide FromBigEndian;
    if noise == [] {
      assert noise + rest == rest;
    } else {
      assert (noise + rest)[0] == noise[0];
      assert (noise + rest)[1..] == noise[1..] + rest;
      NoiseVanishes(noise[1..], rest);
    }
  }

  lemma {:induction false} WireParses(items: seq<Item>)
    requires forall i :: 0 <= i < |items| ==> Sendable(items[i])
    ensures Parse(Wire(items)) == Parsed(FramesIn(items), [])
    decreases |items|
  {
    hide WellFormed;
    hide Judge;
    if items != [] {
      var rest := Wire(items[1..]);
      WireParses(items[1..]);
      match items[0]
      case Noise(bytes) =>
        NoiseVanishes(bytes, rest);
      case Framed(f) =>
        FrameIsTaken(f, rest);
    }
  }

  lemma {:induction false} FrameIsTaken(f: Frame, rest: seq<Byte>)
    requires WellFormed(f)
    ensures Parse(f + rest) == Parsed([f] + Parse(rest).frames, Parse(rest).residue)
  {
    hide Crc8;
    hide FromBigEndian;
    var s := f + rest;
    assert s[..|f|] == f && s[|f|..] == rest;
    TakesWellFormed(s, |f|);
  }

  /** At every moment what came out is a prefix of what was sent, and once everything has
      been fed and the buffer drained it is all of it, with nothing left over. */
  lemma {:induction false} RoundTrip(items: seq<Item>, ops: seq<Op>)
    requires forall i :: 0 <= i < |items| ==> Sendable(items[i])
    ensures var t := Perform(FRESH, ops);
            && (t.fed <= Wire(items) ==> t.yielded <= FramesIn(items))
            && (t.fed == Wire(items) && Next(t.buf).0.None? ==> t.yielded == FramesIn(items) && Next(t.buf).1 == [])
  {
    hide WellFormed;
    hide Judge;
    var t := Perform(FRESH, ops);
    WireParses(items);
    ChunkingDoesNotMatter(ops);
    if t.fed <= Wire(items) {
      var rest := Wire(items)[|t.fed|..];
      assert Wire(items) == t.fed + rest;
      ParseConcat(t.fed, rest);
    }
    ParseByNext(t.buf);
  }

  // ---------- Damage ----------

  /** The payloads of the commands the tool sends. */
  datatype Command = Monitoring | TurnOn | TurnOff | BlinkLed | SetClock(fields: ClockFields)

  function CommandPayload(c: Command): seq<Byte> {
    match c
    case Monitoring => [0x08]
    case TurnOn => [0xA7, 0x01]
    case TurnOff => [0xA7, 0x00]
    case BlinkLed => [0x3E, 0x01, 0x02, 0x02, 0x0F]
    case SetClock(fields) => [0x01] + fields
  }

  /** The frame of a command. */
  ghost predicate Carries(frame: Frame, c: Command) {
    WellFormed(frame) && PayloadOf(frame) == CommandPayload(c)
  }

  method BuildCommand(c: Command) returns (frame: Frame)
    ensures Carries(frame, c) && |frame| <= 12
  {
    frame := Generate(CommandPayload(c));
  }

  /** The frame that asks for a measurement, byte by byte. */
  lemma MonitoringFrame(frame: Frame)
    requires Carries(frame, Monitoring)
    ensures frame == [0xAA, 0x00, 0x01, 0x08, 0xB3]
  {
    hide Crc8;
    SizeOfOne();
    MonitoringChecksum();
    Parts(frame);
    var f1, f2 := frame[1], frame[2];
    assert |frame| == 5 && FromBigEndian(f1, f2) == 1;
    SizeBytes(f1, f2, 0x00, 0x01);
  }

  lemma SizeOfOne()
    ensures FromBigEndian(0x00, 0x01) == 1
  {
  }

  lemma MonitoringChecksum()
    ensures Crc8([0x08]) == 0xB3
  {
    assert Shifts(0x08, 8) == Shifts(Shift(0x08), 7) == Shifts(0x10, 7);
    assert Shifts(0x10, 7) == Shifts(Shift(0x10), 6) == Shifts(0x20, 6);
    assert Shifts(0x20, 6) == Shifts(Shift(0x20), 5) == Shifts(0x40, 5);
    assert Shifts(0x40, 5) == Shifts(Shift(0x40), 4) == Shifts(0x80, 4);
    assert Shifts(0x80, 4) == Shifts(Shift(0x80), 3) == Shifts(0x85, 3);
    assert Shifts(0x85, 3) == Shifts(Shift(0x85), 2) == Shifts(0x8F, 2);
    assert Shifts(0x8F, 2) == Shifts(Shift(0x8F), 1) == Shifts(0x9B, 1);
    assert Shifts(0x9B, 1) == Shifts(Shift(0x9B), 0) == 0xB3;
    assert 0 as Byte ^ 0x08 == 0x08;
    assert [0x08 as Byte][1..] == [];
    assert Resume(0, [0x08]) == Resume(Shifts(0x08, 8), []);
  }

  /** Flip up to three bits of payload and checksum of a short frame, and the assembler
      does not take it; every command frame is short enough. */
  lemma {:induction false} DamagedFrameRejected(f: Frame, g: Frame)
    requires WellFormed(f) && |f| <= 14 + FRAME_OVERHEAD
    requires |g| == |f| && g[..3] == f[..3]
    requires 1 <= Weight(ErrorPattern(PayloadOf(f), PayloadOf(g), g[|g| - 1])) <= 3
    ensures !WellFormed(g) && Judge(g) == Drop
  {
    hide Crc8;
    hide FromBigEndian;
    hide Weight;
    hide ErrorPattern;
    MinimumDistance(PayloadOf(f), PayloadOf(g), g[|g| - 1]);
    assert g[0] == g[..3][0] && g[1] == g[..3][1] && g[2] == g[..3][2];
    assert f[0] == f[..3][0] && f[1] == f[..3][1] && f[2] == f[..3][2];
  }
}
