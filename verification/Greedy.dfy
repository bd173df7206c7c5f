/** Which well-formed frames of a stream the assembler finds, and how soon. */
module Greedy {

  import opened Crc
  import opened Frames
  import opened Assembler

  /** A well-formed frame starts at offset p of the stream. */
  predicate FrameAt(s: seq<Byte>, p: nat) {
    && p + 3 <= |s|
    && p + AnnouncedLen(s[p..]) <= |s|
    && WellFormed(s[p..p + AnnouncedLen(s[p..])])
  }

  function EndAt(s: seq<Byte>, p: nat): nat
    requires FrameAt(s, p)
  {
    p + AnnouncedLen(s[p..])
  }

  /** The offsets, from i on, at which the parse takes a frame. */
  function Starts(s: seq<Byte>, i: nat): seq<nat>
    requires i <= |s|
    decreases |s| - i
  {
    if i == |s| then []
    else
      match Judge(s[i..])
      case Wait => []
      case Drop => Starts(s, i + 1)
      case Take(n) =>
        TakesWellFormed(s[i..], n);
        [i] + Starts(s, i + n)
  }

  /** Where the parse from i on stops and the residue begins. */
  function Stop(s: seq<Byte>, i: nat): (j: nat)
    requires i <= |s|
    ensures i <= j <= |s|
    decreases |s| - i
  {
    if i == |s| then i
    else
      match Judge(s[i..])
      case Wait => i
      case Drop => Stop(s, i + 1)
      case Take(n) =>
        TakesWellFormed(s[i..], n);
        Stop(s, i + n)
  }

  lemma {:induction false} FrameAtIsTake(s: seq<Byte>, i: nat)
    requires i < |s|
    ensures FrameAt(s, i) <==> Judge(s[i..]).Take?
    ensures FrameAt(s, i) ==> Judge(s[i..]) == Take(EndAt(s, i) - i) && i + FRAME_OVERHEAD <= EndAt(s, i) <= |s|
  {
    hide Crc8;
    hide FromBigEndian;
    if i + 3 <= |s| {
      var n := AnnouncedLen(s[i..]);
      TakesWellFormed(s[i..], n);
      if i + n <= |s| {
        assert s[i..][..n] == s[i..i + n];
      }
    }
  }

  // A set of starting points is a greedy choice from i up to `end` when ...

  /** ... each carries a frame, and they are in order and disjoint, ... */
  ghost predicate Disjoint(s: seq<Byte>, starts: seq<nat>, i: nat, end: nat) {
    && (forall k :: 0 <= k < |starts| ==> i <= starts[k] && FrameAt(s, starts[k]) && EndAt(s, starts[k]) <= end)
    && (forall k, l :: 0 <= k < l < |starts| ==> EndAt(s, starts[k]) <= starts[l])
  }

  /** ... and each frame that is there starts one of them or starts inside one. */
  ghost predicate Complete(s: seq<Byte>, starts: seq<nat>, i: nat, end: nat) {
    forall p: nat :: i <= p < end && FrameAt(s, p) ==> Covered(s, starts, p)
  }

  ghost predicate Covered(s: seq<Byte>, starts: seq<nat>, p: nat) {
    exists k :: 0 <= k < |starts| && FrameAt(s, starts[k]) && starts[k] <= p < EndAt(s, starts[k])
  }

  lemma {:induction false} CoveredCons(s: seq<Byte>, x: nat, rest: seq<nat>, p: nat)
    requires FrameAt(s, x)
    ensures Covered(s, [x] + rest, p) <==> x <= p < EndAt(s, x) || Covered(s, rest, p)
  {
    hide FrameAt;
    var starts := [x] + rest;
    if x <= p < EndAt(s, x) {
      assert starts[0] == x;
    }
    if Covered(s, rest, p) {
      var k :| 0 <= k < |rest| && FrameAt(s, rest[k]) && rest[k] <= p < EndAt(s, rest[k]);
      assert starts[k + 1] == rest[k];
    }
    if Covered(s, starts, p) {
      var k :| 0 <= k < |starts| && FrameAt(s, starts[k]) && starts[k] <= p < EndAt(s, starts[k]);
      assert k > 0 ==> rest[k - 1] == starts[k];
    }
  }

  /** The parse stops at i: it has reached the end or has to wait for more. */
  predicate StopsAt(s: seq<Byte>, i: nat)
    requires i <= |s|
  {
    i == |s| || Judge(s[i..]).Wait?
  }

  /** One step of the parse: stop, take the frame that starts here, or skip a byte. */
  lemma {:induction false} Unfold(s: seq<Byte>, i: nat)
    requires i <= |s|
    ensures StopsAt(s, i) ==> && !FrameAt(s, i) && Starts(s, i) == [] && Stop(s, i) == i
                              && Parse(s[i..]) == Parsed([], s[i..])
    ensures !StopsAt(s, i) ==> i < |s|
    ensures FrameAt(s, i) ==>
              var next := EndAt(s, i);
              && i + FRAME_OVERHEAD <= next <= |s|
              && Starts(s, i) == [i] + Starts(s, next)
              && Stop(s, i) == Stop(s, next)
              && Parse(s[i..]) == Parsed([s[i..next]] + Parse(s[next..]).frames, Parse(s[next..]).residue)
    ensures !StopsAt(s, i) && !FrameAt(s, i) ==>
              && Starts(s, i) == Starts(s, i + 1)
              && Stop(s, i) == Stop(s, i + 1)
              && Parse(s[i..]) == Parse(s[i + 1..])
  {
    hide Judge;
    hide FrameAt;
    hide EndAt;
    if i < |s| {
      FrameAtIsTake(s, i);
      assert s[i..][1..] == s[i + 1..];
      if FrameAt(s, i) {
        var n := EndAt(s, i) - i;
        assert s[i..][..n] == s[i..i + n] && s[i..][n..] == s[i + n..];
      }
    } else {
      NoFrameAtTheEnd(s);
    }
  }

  lemma NoFrameAtTheEnd(s: seq<Byte>)
    ensures !FrameAt(s, |s|)
  {
  }

  /** The frames of the parse are the slices at these offsets, and the residue is the rest. */
  lemma {:induction false} ParseIsGreedy(s: seq<Byte>, i: nat)
    requires i <= |s|
    ensures var starts := Starts(s, i);
            && |Parse(s[i..]).frames| == |starts|
            && forall k :: 0 <= k < |starts| ==>
                             FrameAt(s, starts[k]) && Parse(s[i..]).frames[k] == s[starts[k]..EndAt(s, starts[k])]
    ensures Parse(s[i..]).residue == s[Stop(s, i)..]
    decreases |s| - i
  {
    hide Parse;
    hide Starts;
    hide Stop;
    hide StopsAt;
    hide FrameAt;
    Unfold(s, i);
    if FrameAt(s, i) {
      ParseIsGreedy(s, EndAt(s, i));
    } else if !StopsAt(s, i) {
      ParseIsGreedy(s, i + 1);
    }
  }

  /** Every frame of the parse is a contiguous slice of the stream. */
  lemma {:induction false} FrameIsSlice(s: seq<Byte>, f: Frame) returns (start: nat)
    requires f in Parse(s).frames
    ensures FrameAt(s, start) && f == s[start..EndAt(s, start)]
  {
    hide Parse;
    hide FrameAt;
    assert s[0..] == s;
    ParseIsGreedy(s, 0);
    var k :| 0 <= k < |Parse(s).frames| && Parse(s).frames[k] == f;
    start := Starts(s, 0)[k];
  }

  lemma DisjointCons(s: seq<Byte>, x: nat, rest: seq<nat>, end: nat)
    requires FrameAt(s, x) && x <= EndAt(s, x) <= end && Disjoint(s, rest, EndAt(s, x), end)
    ensures Disjoint(s, [x] + rest, x, end)
  {
    hide FrameAt;
    hide EndAt;
    var starts := [x] + rest;
    assert forall k :: 1 <= k < |starts| ==> starts[k] == rest[k - 1];
  }

  lemma {:induction false} StartsAreDisjoint(s: seq<Byte>, i: nat)
    requires i <= |s|
    ensures Disjoint(s, Starts(s, i), i, Stop(s, i))
    decreases |s| - i
  {
    hide Starts;
    hide Stop;
    hide StopsAt;
    hide FrameAt;
    hide Disjoint;
    Unfold(s, i);
    if FrameAt(s, i) {
      var next := EndAt(s, i);
      StartsAreDisjoint(s, next);
      DisjointCons(s, i, Starts(s, next), Stop(s, next));
    } else if StopsAt(s, i) {
      EmptyIsDisjoint(s, i);
    } else {
      StartsAreDisjoint(s, i + 1);
      DisjointFromEarlier(s, Starts(s, i + 1), i, Stop(s, i + 1));
    }
  }

  lemma EmptyIsDisjoint(s: seq<Byte>, i: nat)
    ensures Disjoint(s, [], i, i)
  {
  }

  lemma DisjointFromEarlier(s: seq<Byte>, starts: seq<nat>, i: nat, end: nat)
    requires Disjoint(s, starts, i + 1, end)
    ensures Disjoint(s, starts, i, end)
  {
    hide FrameAt;
  }

  lemma {:induction false} StartsAreComplete(s: seq<Byte>, i: nat)
    requires i <= |s|
    ensures Complete(s, Starts(s, i), i, Stop(s, i))
    decreases |s| - i
  {
    hide Starts;
    hide Stop;
    hide StopsAt;
    hide FrameAt;
    hide Covered;
    Unfold(s, i);
    if FrameAt(s, i) {
      var next := EndAt(s, i);
      StartsAreComplete(s, next);
      CompleteCons(s, i, Starts(s, next), Stop(s, next));
    } else if !StopsAt(s, i) {
      StartsAreComplete(s, i + 1);
      CompleteFromEarlier(s, Starts(s, i + 1), i, Stop(s, i + 1));
    }
  }

  lemma CompleteFromEarlier(s: seq<Byte>, starts: seq<nat>, i: nat, end: nat)
    requires Complete(s, starts, i + 1, end) && !FrameAt(s, i)
    ensures Complete(s, starts, i, end)
  {
    hide FrameAt;
    hide Covered;
  }

  lemma CompleteCons(s: seq<Byte>, x: nat, rest: seq<nat>, end: nat)
    requires FrameAt(s, x) && Complete(s, rest, EndAt(s, x), end)
    ensures Complete(s, [x] + rest, x, end)
  {
    hide FrameAt;
    hide EndAt;
    hide Covered;
    forall p: nat | x <= p < end && FrameAt(s, p)
      ensures Covered(s, [x] + rest, p)
    {
      CoveredCons(s, x, rest, p);
    }
  }

  /** A greedy choice from a frame on takes that frame first. */
  lemma {:induction false} FirstChoice(s: seq<Byte>, starts: seq<nat>, i: nat, end: nat)
    requires i < end && FrameAt(s, i)
    requires Disjoint(s, starts, i, end) && Complete(s, starts, i, end)
    ensures starts != [] && starts[0] == i
    ensures Disjoint(s, starts[1..], EndAt(s, i), end) && Complete(s, starts[1..], EndAt(s, i), end)
  {
    hide FrameAt;
    var k :| 0 <= k < |starts| && FrameAt(s, starts[k]) && starts[k] <= i < EndAt(s, starts[k]);
    StartsBeforeEnd(s, starts[0]);
    var rest := starts[1..];
    assert starts == [i] + rest;
    forall p: nat | EndAt(s, i) <= p < end && FrameAt(s, p)
      ensures Covered(s, rest, p)
    {
      CoveredCons(s, i, rest, p);
    }
  }

  lemma {:induction false} StartsBeforeEnd(s: seq<Byte>, p: nat)
    requires FrameAt(s, p)
    ensures p < EndAt(s, p)
  {
  }

  lemma NothingFits(s: seq<Byte>, starts: seq<nat>, i: nat)
    requires Disjoint(s, starts, i, i)
    ensures starts == []
  {
    hide FrameAt;
    hide EndAt;
    if starts != [] {
      var first := starts[0];
      StartsBeforeEnd(s, first);
    }
  }

  /** There is one greedy choice only: these two conditions define what is emitted. */
  lemma {:induction false} GreedyIsUnique(s: seq<Byte>, starts: seq<nat>, i: nat)
    requires i <= |s|
    requires Disjoint(s, starts, i, Stop(s, i)) && Complete(s, starts, i, Stop(s, i))
    ensures starts == Starts(s, i)
    decreases |s| - i
  {
    hide Starts;
    hide Stop;
    hide StopsAt;
    hide FrameAt;
    hide Covered;
    Unfold(s, i);
    if FrameAt(s, i) {
      FirstChoice(s, starts, i, Stop(s, i));
      GreedyIsUnique(s, starts[1..], EndAt(s, i));
    } else if StopsAt(s, i) {
      NothingFits(s, starts, i);
    } else {
      GreedyIsUnique(s, starts, i + 1);
    }
  }

  /** Sound, complete, and the only such choice, for the whole stream. */
  lemma {:induction false} GreedyExactly(s: seq<Byte>, starts: seq<nat>)
    ensures Disjoint(s, starts, 0, Stop(s, 0)) && Complete(s, starts, 0, Stop(s, 0)) <==> starts == Starts(s, 0)
  {
    StartsAreDisjoint(s, 0);
    StartsAreComplete(s, 0);
    if Disjoint(s, starts, 0, Stop(s, 0)) && Complete(s, starts, 0, Stop(s, 0)) {
      GreedyIsUnique(s, starts, 0);
    }
  }

  /** Bounded memory: what a full drain leaves is empty, or starts with a header byte and
      is shorter than the largest frame. */
  lemma {:induction false} ResidueIsBounded(s: seq<Byte>)
    ensures var r := Parse(s).residue;
            r == [] || (r[0] == 0xAA && |r| <= 255)
    decreases |s|
  {
    hide Crc8;
    hide FromBigEndian;
    if s == [] {
    } else {
      match Judge(s)
      case Wait =>
      case Drop => ResidueIsBounded(s[1..]);
      case Take(n) =>
        TakesWellFormed(s, n);
        ResidueIsBounded(s[n..]);
    }
  }

  /** Bounded recovery: once 256 bytes from its start have arrived, a well-formed frame has
      been emitted or overlapped by an emitted one, whatever precedes it. */
  lemma {:induction false} RecoversWithin256(s: seq<Byte>, p: nat)
    requires FrameAt(s, p) && p + 256 <= |s|
    ensures Covered(s, Starts(s, 0), p)
  {
    hide FrameAt;
    assert s[0..] == s;
    ParseIsGreedy(s, 0);
    ResidueIsBounded(s);
    StartsAreDisjoint(s, 0);
    StartsAreComplete(s, 0);
    assert |Parse(s).residue| == |s| - Stop(s, 0);
  }

  /** A frame that is there has been emitted or overlapped exactly when the scan has passed its
      start; until then it is held back. */
  lemma {:induction false} HeldBackExactlyFromStop(s: seq<Byte>, p: nat)
    requires FrameAt(s, p)
    ensures Covered(s, Starts(s, 0), p) <==> p < Stop(s, 0)
  {
    hide FrameAt;
    hide EndAt;
    hide Starts;
    hide Stop;
    StartsAreDisjoint(s, 0);
    StartsAreComplete(s, 0);
    StartsBeforeEnd(s, p);
    EndsInStream(s, p);
  }

  lemma EndsInStream(s: seq<Byte>, p: nat)
    requires FrameAt(s, p)
    ensures EndAt(s, p) <= |s|
  {
  }

  /** The scan stops early for any three bytes that announce a frame of at most 256 bytes which is
      not all there: whatever follows them, complete frames included, is held back. */
  lemma {:induction false} HeaderHoldsBack(hi: Byte, lo: Byte, behind: seq<Byte>, p: nat)
    requires 3 + |behind| < FromBigEndian(hi, lo) + FRAME_OVERHEAD <= MAX_FRAME_LEN
    requires FrameAt(behind, p)
    ensures var s := [HEADER, hi, lo] + behind;
            && Starts(s, 0) == [] && Stop(s, 0) == 0 && Parse(s) == Parsed([], s)
            && FrameAt(s, 3 + p) && !Covered(s, Starts(s, 0), 3 + p)
  {
    hide Crc8;
    hide FromBigEndian;
    var s := [HEADER, hi, lo] + behind;
    assert s[0..] == s;
    assert s[3 + p..] == behind[p..];
    var n := AnnouncedLen(behind[p..]);
    assert s[3 + p..3 + p + n] == behind[p..p + n];
    assert Judge(s) == Wait;
    HeldBackExactlyFromStop(s, 3 + p);
  }

  /** This does happen: a stray header that announces 256 bytes holds back every well-formed frame
      of up to 252 behind it. */
  lemma {:induction false} EveryFrameCanBeHeldBack(f: Frame)
    requires WellFormed(f) && |f| < MAX_FRAME_LEN - 3
    ensures var s := [HEADER, 0x00, 0xFC] + f;
            FrameAt(s, 3) && !Covered(s, Starts(s, 0), 3)
  {
    hide Crc8;
    AnnouncesTheLargest();
    hide FromBigEndian;
    assert f[0..] == f && f[..|f|] == f;
    HeaderHoldsBack(0x00, 0xFC, f, 0);
  }

  lemma AnnouncesTheLargest()
    ensures FromBigEndian(0x00, 0xFC) + FRAME_OVERHEAD == MAX_FRAME_LEN
  {
  }
}
