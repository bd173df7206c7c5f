/** Waiting on a notification stream for a frame of one kind. */
module Waiting {

  import opened Options
  import opened Crc
  import opened Frames
  import opened Assembler

  /** One notification: on the RX characteristic or on another one. */
  datatype Event = Event(rx: bool, value: seq<Byte>)

  datatype FrameKind = CommandFrame | MeasurementFrame
  {
    predicate Matches(frame: Frame) {
      (|frame| >= MEASUREMENT_FRAME_MIN_LEN) == MeasurementFrame?
    }
  }

  /** A frame of 30 bytes or more answers a request for a measurement and nothing else. */
  lemma KindByLength(kind: FrameKind, frame: Frame)
    ensures kind.Matches(frame) <==> if kind == MeasurementFrame then |frame| >= 30 else |frame| < 30
  {
  }

  function RxBytes(events: seq<Event>): seq<Byte> {
    if events == [] then []
    else
      var e := events[|events| - 1];
      RxBytes(events[..|events| - 1]) + (if e.rx then e.value else [])
  }

  ghost predicate AnyRx(events: seq<Event>) {
    exists e :: e in events && e.rx
  }

  lemma RxSnoc(events: seq<Event>, e: Event)
    ensures RxBytes(events + [e]) == RxBytes(events) + (if e.rx then e.value else [])
    ensures AnyRx(events + [e]) <==> AnyRx(events) || e.rx
  {
    assert (events + [e])[..|events|] == events;
    if AnyRx(events) {
      var f :| f in events && f.rx;
      assert f in events + [e];
    }
    if e.rx {
      assert (events + [e])[|events|] == e;
    }
  }

  lemma NothingRead(events: seq<Event>)
    ensures RxBytes(events[..0]) == [] && !AnyRx(events[..0])
  {
  }

  /** Pull frames until one is of `kind`, leaving those behind it in the buffer. */
  method PullUntil(assembler: FrameAssembler, kind: FrameKind) returns (found: Option<Frame>, others: seq<Frame>)
    requires assembler.Valid()
    modifies assembler
    ensures assembler.Valid() && assembler.fed == old(assembler.fed)
    ensures assembler.yielded == old(assembler.yielded) + others + (if found.Some? then [found.value] else [])
    ensures forall f :: f in others ==> WellFormed(f) && !kind.Matches(f)
    ensures found.Some? ==> WellFormed(found.value) && kind.Matches(found.value)
    ensures found.None? ==> assembler.yielded == Parse(assembler.fed).frames
  {
    hide Crc8;
    hide FromBigEndian;
    hide WellFormed;
    hide Next;
    hide Parse;
    hide Accounts;
    others := [];
    found := assembler.NextFrame();
    while found.Some? && !kind.Matches(found.value)
      invariant assembler.Valid() && assembler.fed == old(assembler.fed)
      invariant assembler.yielded == old(assembler.yielded) + others + (if found.Some? then [found.value] else [])
      invariant found.Some? ==> WellFormed(found.value)
      invariant found.None? ==> assembler.yielded == Parse(assembler.fed).frames
      invariant forall f :: f in others ==> WellFormed(f) && !kind.Matches(f)
      decreases |assembler.buf|, if found.Some? then 1 else 0
    {
      others := others + [found.value];
      found := assembler.NextFrame();
    }
  }

  /** One notification on the RX characteristic. */
  method FeedUntil(assembler: FrameAssembler, data: seq<Byte>, kind: FrameKind)
    returns (found: Option<Frame>, others: seq<Frame>)
    requires assembler.Valid()
    modifies assembler
    ensures assembler.Valid() && assembler.fed == old(assembler.fed) + data
    ensures assembler.yielded == old(assembler.yielded) + others + (if found.Some? then [found.value] else [])
    ensures forall f :: f in others ==> WellFormed(f) && !kind.Matches(f)
    ensures found.Some? ==> WellFormed(found.value) && kind.Matches(found.value)
    ensures found.None? ==> assembler.yielded == Parse(assembler.fed).frames
  {
    hide WellFormed;
    hide Parse;
    hide Accounts;
    assembler.Extend(data);
    found, others := PullUntil(assembler, kind);
  }

  /** Read notifications until they have completed a frame of `kind`. `events`
      are the notifications that arrive before the wait is ended from outside, by the end of
      the stream, a timeout, or a shutdown; `others` are the frames handed to `on_other`.
      The frame found is the first of its kind, frames behind it stay in the buffer, and no
      notification is read beyond the one that brought it to light. */
  method NextMatchingFrame(assembler: FrameAssembler, events: seq<Event>, kind: FrameKind)
    returns (found: Option<Frame>, consumed: nat, others: seq<Frame>)
    requires assembler.Valid()
    modifies assembler
    ensures assembler.Valid() && consumed <= |events|
    ensures assembler.fed == old(assembler.fed) + RxBytes(events[..consumed])
    ensures assembler.yielded == old(assembler.yielded) + others + (if found.Some? then [found.value] else [])
    ensures forall f :: f in others ==> WellFormed(f) && !kind.Matches(f)
    ensures found.Some? ==> WellFormed(found.value) && kind.Matches(found.value)
    ensures found.None? ==> consumed == |events|
    ensures found.Some? ==> consumed > 0 && events[consumed - 1].rx
    ensures found.Some? && AnyRx(events[..consumed - 1]) ==>
              |Parse(old(assembler.fed) + RxBytes(events[..consumed - 1])).frames| < |assembler.yielded|
    ensures found.None? && AnyRx(events) ==> assembler.yielded == Parse(assembler.fed).frames
  {
    hide WellFormed;
    hide Parse;
    hide FrameAssembler.Valid;
    hide RxBytes;
    hide AnyRx;
    found, consumed, others := None, 0, [];
    NothingRead(events);
    while consumed < |events|
      invariant assembler.Valid() && consumed <= |events| && found.None?
      invariant assembler.fed == old(assembler.fed) + RxBytes(events[..consumed])
      invariant assembler.yielded == old(assembler.yielded) + others
      invariant forall f :: f in others ==> WellFormed(f) && !kind.Matches(f)
      invariant AnyRx(events[..consumed]) ==> assembler.yielded == Parse(assembler.fed).frames
    {
      var event := events[consumed];
      RxSnoc(events[..consumed], event);
      assert events[..consumed + 1] == events[..consumed] + [event];
      consumed := consumed + 1;
      if event.rx {
        var more;
        found, more := FeedUntil(assembler, event.value, kind);
        others := others + more;
        if found.Some? {
          return;
        }
      }
    }
    assert events[..consumed] == events;
  }
}
