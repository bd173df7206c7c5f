/** The frame assembler: an incremental parser over a mutable buffer, specified by a
    recursive parse of the whole byte stream. */
module Assembler {

  import opened Options
  import opened Crc
  import opened Frames

  // ---------- The parse of a complete stream ----------

  /** What the bytes at the front of the buffer call for. */
  datatype Verdict = Wait | Drop | Take(len: nat)

  function Judge(s: seq<Byte>): Verdict
    requires s != []
  {
    if s[0] != HEADER then Drop
    else if |s| < 3 then Wait
    else
      var len := AnnouncedLen(s);
      if len > MAX_FRAME_LEN then Drop
      else if |s| < len then Wait
      else if Crc8(s[3..len - 1]) != s[len - 1] then Drop
      else Take(len)
  }

  datatype Parsed = Parsed(frames: seq<Frame>, residue: seq<Byte>)

  function Parse(s: seq<Byte>): Parsed
    decreases |s|
  {
    if s == [] then Parsed([], [])
    else
      match Judge(s)
      case Wait => Parsed([], s)
      case Drop => Parse(s[1..])
      case Take(n) => var rest := Parse(s[n..]); Parsed([s[..n]] + rest.frames, rest.residue)
  }

  /** One pull of the iterator: the first frame, if any, and what stays in the buffer. */
  function Next(s: seq<Byte>): (Option<Frame>, seq<Byte>)
    decreases |s|
  {
    if s == [] then (None, [])
    else
      match Judge(s)
      case Wait => (None, s)
      case Drop => Next(s[1..])
      case Take(n) => (Some(s[..n]), s[n..])
  }

  /** A frame is taken exactly when a well-formed one is there. */
  lemma {:induction false} TakesWellFormed(s: seq<Byte>, n: nat)
    requires s != []
    ensures Judge(s) == Take(n) <==> n <= |s| && WellFormed(s[..n])
  {
    hide Crc8;
    hide FromBigEndian;
    if FRAME_OVERHEAD <= n <= |s| {
      assert s[..n][3..n - 1] == s[3..n - 1];
      assert AnnouncedLen(s[..n]) == AnnouncedLen(s);
    }
  }

  lemma {:induction false} ParseByNext(s: seq<Byte>)
    ensures match Next(s)
            case (None, rest) => Parse(s) == Parsed([], rest) && Parse(rest) == Parsed([], rest) && |rest| <= |s|
            case (Some(f), rest) => && Parse(s) == Parsed([f] + Parse(rest).frames, Parse(rest).residue)
                                    && WellFormed(f) && |rest| < |s|
    decreases |s|
  {
    hide Crc8;
    hide FromBigEndian;
    if s == [] {
    } else {
      match Judge(s)
      case Wait =>
      case Drop => ParseByNext(s[1..]);
      case Take(n) => TakesWellFormed(s, n);
    }
  }

  /** More bytes do not change a verdict once there is one. */
  lemma {:induction false} JudgeIsStable(a: seq<Byte>, b: seq<Byte>)
    requires a != [] && Judge(a) != Wait
    ensures Judge(a + b) == Judge(a)
    ensures Judge(a).Take? ==> 0 < Judge(a).len <= |a|
  {
    hide Crc8;
    hide FromBigEndian;
    if a[0] == HEADER && AnnouncedLen(a) <= MAX_FRAME_LEN {
      var len := AnnouncedLen(a);
      assert (a + b)[3..len - 1] == a[3..len - 1];
    }
  }

  /** The parse of a stream may be interrupted anywhere and resumed from the residue. */
  lemma {:induction false} ParseConcat(a: seq<Byte>, b: seq<Byte>)
    ensures var pa := Parse(a);
            var pb := Parse(pa.residue + b);
            Parse(a + b) == Parsed(pa.frames + pb.frames, pb.residue)
    decreases |a|
  {
    hide Judge;
    if a == [] {
      assert a + b == b;
    } else {
      if Judge(a) == Wait {
      } else {
        JudgeIsStable(a, b);
        match Judge(a)
        case Drop =>
          assert (a + b)[1..] == a[1..] + b;
          ParseConcat(a[1..], b);
        case Take(n) =>
          assert (a + b)[..n] == a[..n] && (a + b)[n..] == a[n..] + b;
          ParseConcat(a[n..], b);
      }
    }
  }

  // ---------- The buffer ----------

  /** The account of a stream: what was handed out, and what the buffer still holds. */
  ghost predicate Accounts(fed: seq<Byte>, yielded: seq<Frame>, buf: seq<Byte>) {
    Parse(fed) == Parsed(yielded + Parse(buf).frames, Parse(buf).residue)
  }

  lemma {:induction false} ExtendKeepsAccount(fed: seq<Byte>, yielded: seq<Frame>, buf: seq<Byte>, data: seq<Byte>)
    requires Accounts(fed, yielded, buf)
    ensures Accounts(fed + data, yielded, buf + data)
  {
    hide Parse;
    ParseConcat(buf, data);
    ParseConcat(fed, data);
    var more := Parse(Parse(buf).residue + data);
    assert yielded + (Parse(buf).frames + more.frames) == yielded + Parse(buf).frames + more.frames;
  }

  lemma {:induction false} NextKeepsAccount(fed: seq<Byte>, yielded: seq<Frame>, buf: seq<Byte>)
    requires Accounts(fed, yielded, buf)
    ensures match Next(buf)
            case (None, rest) => Accounts(fed, yielded, rest) && Parse(fed) == Parsed(yielded, rest) && |rest| <= |buf|
            case (Some(f), rest) => && Accounts(fed, yielded + [f], rest) && yielded + [f] <= Parse(fed).frames
                                    && WellFormed(f) && |rest| < |buf|
  {
    hide Judge;
    hide WellFormed;
    ParseByNext(buf);
    match Next(buf)
    case (None, rest) =>
    case (Some(f), rest) =>
      assert yielded + ([f] + Parse(rest).frames) == yielded + [f] + Parse(rest).frames;
  }

  class FrameAssembler {
    var buf: seq<Byte>
    /** All bytes fed, and all frames handed out, since creation or the last clear. */
    ghost var fed: seq<Byte>
    ghost var yielded: seq<Frame>

    /** However the stream was chunked and wherever iterators were abandoned: the
        frames handed out, then those still in the buffer, are the parse of the stream. */
    ghost predicate Valid()
      reads this
    {
      Accounts(fed, yielded, buf)
    }

    constructor ()
      ensures Valid() && buf == fed == [] && yielded == []
    {
      buf, fed, yielded := [], [], [];
    }

    /** The first half of `feed`; the iterator it returns is `NextFrame`. */
    method Extend(data: seq<Byte>)
      requires Valid()
      modifies this
      ensures Valid() && buf == old(buf) + data
      ensures fed == old(fed) + data && yielded == old(yielded)
    {
      ExtendKeepsAccount(fed, yielded, buf, data);
      buf := buf + data;
      fed := fed + data;
    }

    method NextFrame() returns (r: Option<Frame>)
      requires Valid()
      modifies this
      ensures Valid() && fed == old(fed)
      ensures (r, buf) == Next(old(buf))
      ensures r.Some? ==> WellFormed(r.value) && yielded == old(yielded) + [r.value] && yielded <= Parse(fed).frames
      ensures r.None? ==> yielded == old(yielded) && Parse(fed) == Parsed(yielded, buf)
      ensures |buf| <= |old(buf)| && (r.Some? ==> |buf| < |old(buf)|)
    {
      hide Crc8;
      hide FromBigEndian;
      hide IsRemainder;
      hide Accounts;
      hide Parse;
      hide WellFormed;
      NextKeepsAccount(fed, yielded, buf);
      while true
        invariant fed == old(fed) && yielded == old(yielded)
        invariant Next(buf) == Next(old(buf))
        decreases |buf|
      {
        var header := Position(buf);
        if header == |buf| {
          buf := [];
          return None;
        }
        if header > 0 {
          buf := buf[header..];
        }
        if |buf| < 3 {
          return None;
        }
        var frameLen := AnnouncedLen(buf);
        if frameLen > MAX_FRAME_LEN {
          buf := buf[1..];
          continue;
        }
        if |buf| < frameLen {
          return None;
        }
        var payloadEnd := frameLen - 1;
        var crc := ComputeCrc8(buf[3..payloadEnd]);
        if crc != buf[payloadEnd] {
          buf := buf[1..];
          continue;
        }
        r := Some(buf[..frameLen]);
        buf := buf[frameLen..];
        yielded := yielded + [r.value];
        return r;
      }
    }

    method Clear()
      modifies this
      ensures Valid() && buf == fed == [] && yielded == []
    {
      buf, fed, yielded := [], [], [];
    }
  }

  /** The index of the first header byte, or the length when there is none. */
  method Position(buf: seq<Byte>) returns (i: nat)
    ensures i <= |buf| && (i < |buf| ==> buf[i] == HEADER)
    ensures forall k :: 0 <= k < i ==> buf[k] != HEADER
    ensures Next(buf) == Next(buf[i..])
  {
    i := 0;
    while i < |buf| && buf[i] != HEADER
      invariant i <= |buf|
      invariant forall k :: 0 <= k < i ==> buf[k] != HEADER
      invariant Next(buf) == Next(buf[i..])
    {
      assert buf[i..][1..] == buf[i + 1..];
      i := i + 1;
    }
  }
}
