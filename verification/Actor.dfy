/** The agent's actor: one BLE link, any number of streaming clients, one-shot commands in
    between. What the radio does is a parameter of each method: whether subscribing, writing
    and reconnecting succeed, and which notifications arrive. `Abandoned` is the await point
    at which a shutdown overtook the handler. */
module Actor {

  import opened Options
  import opened Crc
  import opened Frames
  import opened Assembler
  import opened Greedy
  import opened Waiting
  import opened Protocol
  import opened Mailboxes
  import opened Stats
  import opened Feeds
  import opened Clients
  import Codec

  datatype Io = Done | Failed | Abandoned
  datatype WriteIo = Wrote(reconnected: bool) | WriteFails | WriteAbandoned
  datatype WaitEnd = StreamEnds | Timeout | WaitAbandoned

  datatype PollIo = PollIo(listen: Io, write: WriteIo, relisten: Io)
  datatype CommandIo = CommandIo(listen: Io, write: WriteIo, relisten: Io, events: seq<Event>, end: WaitEnd)

  /** Whether the actor goes on or a shutdown was consumed. */
  datatype Flow = Continue | Break

  datatype Answer = Reply(frame: Frame) | Refused(reason: Reason) | Interrupted

  /** One subscription to notifications: the bytes the actor took from it and the frames it
      made of them. */
  datatype Subscription = Subscription(delivered: seq<Byte>, yielded: seq<Frame>)

  // ---------- Ownership of frames ----------

  datatype Use = Answered | Recorded | Dropped

  /** A frame, the subscription it came from, and the one use that was made of it. */
  datatype Entry = Entry(sub: nat, frame: Frame, use: Use)

  function FramesOf(log: seq<Entry>, sub: nat): seq<Frame> {
    if log == [] then []
    else
      var last := log[|log| - 1];
      FramesOf(log[..|log| - 1], sub) + (if last.sub == sub then [last.frame] else [])
  }

  function MeasurementsOf(log: seq<Entry>, calendar: Calendar): seq<Measurement> {
    if log == [] then []
    else
      var last := log[|log| - 1];
      MeasurementsOf(log[..|log| - 1], calendar)
      + (if last.use == Recorded && ReadMeasure(last.frame, calendar).Some?
         then [ReadMeasure(last.frame, calendar).value] else [])
  }

  /** What is not a reply is recorded when it reads as a measurement, and dropped otherwise. */
  ghost predicate UsedRightly(e: Entry, calendar: Calendar) {
    match e.use
    case Answered => true
    case Recorded => ReadMeasure(e.frame, calendar).Some?
    case Dropped => ReadMeasure(e.frame, calendar).None?
  }

  function UseOf(frame: Frame, calendar: Calendar): Use {
    if ReadMeasure(frame, calendar).Some? then Recorded else Dropped
  }

  /** Every frame handled in between was recorded or dropped, by what it reads as. */
  ghost predicate AllForwarded(before: seq<Entry>, after: seq<Entry>, calendar: Calendar) {
    before <= after && forall k :: |before| <= k < |after| ==> after[k].use == UseOf(after[k].frame, calendar)
  }

  lemma {:induction false} LogAppend(log: seq<Entry>, e: Entry, calendar: Calendar)
    ensures forall sub :: FramesOf(log + [e], sub) == FramesOf(log, sub) + (if e.sub == sub then [e.frame] else [])
    ensures MeasurementsOf(log + [e], calendar)
         == MeasurementsOf(log, calendar)
            + (if e.use == Recorded && ReadMeasure(e.frame, calendar).Some?
               then [ReadMeasure(e.frame, calendar).value] else [])
  {
    assert (log + [e])[..|log|] == log;
  }

  /** And none of them was of the kind awaited. */
  ghost predicate PassedOver(before: seq<Entry>, after: seq<Entry>, kind: FrameKind, calendar: Calendar) {
    && AllForwarded(before, after, calendar)
    && forall k :: |before| <= k < |after| ==> !kind.Matches(after[k].frame)
  }

  /** The subscription was read up to the notification that completed the reply, or through all
      that arrived, and then every frame complete by then was taken. */
  ghost predicate Heard(start: seq<Byte>, last: Subscription, events: seq<Event>, answered: bool) {
    exists n: nat :: HeardUpTo(start, last, events, answered, n)
  }

  ghost predicate HeardUpTo(start: seq<Byte>, last: Subscription, events: seq<Event>, answered: bool, n: nat) {
    && n <= |events| && last.delivered == start + RxBytes(events[..n])
    && (answered ==> n > 0 && events[n - 1].rx)
    && (!answered ==>
          n == |events| && (AnyRx(events) ==> last.yielded == Parse(last.delivered).frames))
  }

  lemma HeardThat(start: seq<Byte>, last: Subscription, events: seq<Event>, answered: bool, n: nat)
    requires HeardUpTo(start, last, events, answered, n)
    ensures Heard(start, last, events, answered)
  {
  }

  /** How a wait comes out: with the first frame of its kind, or as it was ended, and then no
      frame of its kind was among those taken. */
  ghost predicate Waited(answer: Answer, kind: FrameKind, events: seq<Event>, end: WaitEnd,
                         before: seq<Entry>, after: seq<Entry>, start: seq<Byte>, subs: seq<Subscription>,
                         calendar: Calendar) {
    && subs != []
    && Heard(start, subs[|subs| - 1], events, answer.Reply?)
    && match answer
       case Reply(frame) =>
         && after != [] && after[|after| - 1] == Entry(|subs| - 1, frame, Answered)
         && PassedOver(before, after[..|after| - 1], kind, calendar)
         && WellFormed(frame) && kind.Matches(frame)
       case Refused(reason) =>
         && PassedOver(before, after, kind, calendar)
         && ((end == StreamEnds && reason == StreamClosed) || (end == Timeout && reason == TimedOut))
       case Interrupted => PassedOver(before, after, kind, calendar) && end == WaitAbandoned
  }

  /** What had been read before a command waits: nothing, on a subscription taken for it. */
  function StartsFrom(streaming: bool, write: WriteIo, subs: seq<Subscription>): seq<Byte> {
    if streaming && write != Wrote(true) && subs != [] then subs[|subs| - 1].delivered else []
  }

  /** How a command that was written comes out: refused or interrupted as the radio decided,
      or by waiting on the subscription then held. */
  ghost predicate Outcome(answer: Answer, kind: FrameKind, io: CommandIo, before: seq<Entry>, after: seq<Entry>,
                          start: seq<Byte>, subs: seq<Subscription>, calendar: Calendar) {
    match io.write
    case WriteFails => answer == Refused(WriteFailed) && after == before
    case WriteAbandoned => answer == Interrupted && after == before
    case Wrote(reconnected) =>
      if reconnected && io.relisten == Failed then answer == Refused(ListenFailed) && after == before
      else if reconnected && io.relisten == Abandoned then answer == Interrupted && after == before
      else Waited(answer, kind, io.events, io.end, before, after, start, subs, calendar)
  }

  /** The answer is in the mailbox, unless the requester has hung up. */
  ghost predicate Delivered(box: Mailbox, response: Response) {
    box.sent == [response] || (box.closed && box.sent == [])
  }

  /** One more frame has been handed over to be written, and this is its payload. */
  ghost predicate Asks(before: seq<Frame>, after: seq<Frame>, payload: seq<Byte>) {
    && |after| == |before| + 1 && after[..|before|] == before
    && WellFormed(after[|before|]) && PayloadOf(after[|before|]) == payload
  }

  // What the requests are about, for the contracts to say; how the actor sorts them comes after.

  predicate AboutCommand(request: Request) {
    request.GetRtc? || request.Power? || request.TestLed? || (request.SetRtc? && request.fields.Some?)
  }

  /** The bytes that a request has the device told. */
  function PayloadFor(request: Request): seq<Byte>
    requires AboutCommand(request)
  {
    match request
    case GetRtc => [0x08]
    case Power(true) => [0xA7, 0x01]
    case Power(false) => [0xA7, 0x00]
    case TestLed => [0x3E, 0x01, 0x02, 0x02, 0x0F]
    case SetRtc(Some(fields)) => [0x01] + fields
  }

  /** The kind of frame that answers it. */
  function ReplyKind(request: Request): FrameKind {
    if request.GetRtc? then MeasurementFrame else CommandFrame
  }

  /** What a request for a command is answered with: the refusal; the measurement in the reply; or
      the status in it. */
  ghost predicate AnsweredWith(request: Request, answer: Answer, box: Mailbox, calendar: Calendar) {
    match answer
    case Interrupted => false
    case Refused(reason) => Delivered(box, Error(reason))
    case Reply(frame) =>
      if request.GetRtc? then
        if |frame| >= 30 && calendar(frame[23..29])
        then Delivered(box, Sample(Measurement(frame[5..23], frame[23..29])))
        else Delivered(box, Error(GetRtcFailed))
      else Delivered(box, if |frame| > 4 then CommandResult(frame[4]) else Error(TooShort))
  }

  /** What the actor does with a request. */
  datatype Fate = NotMine | Stream | Command(kind: FrameKind) | Reject(reason: Reason)

  function Destiny(request: Request): Fate {
    match request
    case Ping => NotMine
    case Shutdown => NotMine
    case Subscribe => Stream
    case GetRtc => Command(MeasurementFrame)
    case Power(_) => Command(CommandFrame)
    case TestLed => Command(CommandFrame)
    case SetRtc(None) => Reject(InvalidTime)
    case SetRtc(Some(_)) => Command(CommandFrame)
  }

  /** The command that a request is about. */
  function CommandFor(request: Request): Codec.Command
    requires Destiny(request).Command?
  {
    match request
    case GetRtc => Codec.Monitoring
    case Power(on) => if on then Codec.TurnOn else Codec.TurnOff
    case TestLed => Codec.BlinkLed
    case SetRtc(Some(fields)) => Codec.SetClock(fields)
  }

  function ReplyTo(request: Request, answer: Answer, calendar: Calendar): Response
    requires answer != Interrupted
  {
    match answer
    case Refused(reason) => Error(reason)
    case Reply(frame) =>
      if request != GetRtc then ParseCommandResult(frame)
      else
        match ReadMeasure(frame, calendar)
        case Some(m) => Sample(m)
        case None => Error(GetRtcFailed)
  }

  /** Whether a command that has been written gets to wait. */
  predicate Waits(io: CommandIo) {
    io.write == Wrote(false) || (io.write == Wrote(true) && io.relisten == Done)
  }

  /** Whether a shutdown overtakes a command; `answered` is whether its reply came in time. */
  predicate CommandCutOff(streaming: bool, io: CommandIo, answered: bool) {
    if !streaming && io.listen != Done then io.listen == Abandoned
    else
      || io.write == WriteAbandoned
      || (io.write == Wrote(true) && io.relisten == Abandoned)
      || (Waits(io) && io.end == WaitAbandoned && !answered)
  }

  /** Whether a shutdown overtakes the handling of a request. */
  predicate CutOff(request: Request, streaming: bool, io: CommandIo, answered: bool) {
    if request == Subscribe then !streaming && io.listen == Abandoned
    else AboutCommand(request) && CommandCutOff(streaming, io, answered)
  }

  /** What the handling of a request does to the frames, overtaken or not: a command comes out as
      it does, everything else leaves them alone. */
  ghost predicate CameOut(request: Request, streaming: bool, io: CommandIo, answer: Answer,
                          before: seq<Entry>, after: seq<Entry>, start: seq<Byte>, subs: seq<Subscription>,
                          calendar: Calendar) {
    if !AboutCommand(request) then after == before
    else if streaming || io.listen == Done then
      Outcome(answer, ReplyKind(request), io, before, after, start, subs, calendar)
    else after == before && answer == (if io.listen == Failed then Refused(ListenFailed) else Interrupted)
  }

  lemma InterruptedExactlyWhen(answer: Answer, kind: FrameKind, io: CommandIo,
                               before: seq<Entry>, after: seq<Entry>, start: seq<Byte>, subs: seq<Subscription>,
                               calendar: Calendar)
    requires Outcome(answer, kind, io, before, after, start, subs, calendar)
    ensures answer == Interrupted <==> CommandCutOff(true, io, answer.Reply?)
  {
    hide PassedOver;
    hide Heard;
    hide WellFormed;
  }

  /** What a request handled to the end has come to: the one message in its mailbox, or its
      joining the list. */
  ghost predicate Served(request: Request, streaming: bool, io: CommandIo, answer: Answer, box: Mailbox, joins: bool,
                         calendar: Calendar) {
    match request
    case Ping => !joins && box.sent == []
    case Shutdown => !joins && box.sent == []
    case Subscribe => if streaming || io.listen == Done then joins else !joins && Delivered(box, Error(ListenFailed))
    case SetRtc(None) => !joins && Delivered(box, Error(InvalidTime))
    case _ => !joins && AnsweredWith(request, answer, box, calendar)
  }

  /** These bytes were read from the last subscription, and every frame complete by then was taken. */
  ghost predicate Fed(before: seq<Subscription>, after: seq<Subscription>, data: seq<Byte>) {
    && before != [] && |after| == |before| && after[..|after| - 1] == before[..|before| - 1]
    && var last := after[|after| - 1];
       last.delivered == before[|before| - 1].delivered + data && last.yielded == Parse(last.delivered).frames
  }

  /** The subscription held after a request, given the one before it. A command keeps what is held
      or renews it, and gives back what it took out for itself unless it is overtaken. Joining takes
      one out only when none is held: another would cost the listed clients a frame half received. */
  ghost predicate HeldAfter(request: Request, io: CommandIo, answer: Answer,
                            held: Option<nat>, subs: seq<Subscription>, held': Option<nat>, subs': seq<Subscription>) {
    var renewed := io.write == Wrote(true) && io.relisten == Done;
    if AboutCommand(request) then
      if held.Some? then
        && subs != [] && subs[..|subs| - 1] <= subs' && |subs'| == |subs| + (if renewed then 1 else 0)
        && held' == (if io.write == Wrote(true) && io.relisten == Failed then None
                     else if renewed then Some(|subs|) else held)
      else if io.listen == Done then
        && subs <= subs' && |subs'| == |subs| + (if renewed then 2 else 1)
        && held' == (if answer == Interrupted then Some(|subs'| - 1) else None)
      else held' == held && subs' == subs
    else if request == Subscribe && held.None? && io.listen == Done then
      held' == Some(|subs|) && subs' == subs + [Subscription([], [])]
    else held' == held && subs' == subs
  }

  /** The farewell that a poll ends streaming with, if it does. */
  function PollFarewells(streaming: bool, io: PollIo): set<Response> {
    if !streaming && io.listen != Done then if io.listen == Failed then {Error(ListenFailed)} else {}
    else if io.write == WriteFails then {Error(MeasurementWriteFailed)}
    else if io.write == Wrote(true) && io.relisten == Failed then {Error(ListenFailed)}
    else {}
  }

  function NotificationFarewells(event: Option<Event>, reconnect: Io): set<Response> {
    if event.None? && reconnect == Failed then {Error(ReconnectFailed)} else {}
  }

  /** Whether a shutdown overtakes a poll. */
  predicate PollCutOff(streaming: bool, io: PollIo) {
    if !streaming && io.listen != Done then io.listen == Abandoned
    else io.write == WriteAbandoned || (io.write == Wrote(true) && io.relisten == Abandoned)
  }

  /** The actor has the right bytes written, and waits for the right kind of frame. */
  lemma CommandsAgree(request: Request)
    ensures AboutCommand(request) <==> Destiny(request).Command?
    ensures AboutCommand(request) ==>
              && Codec.CommandPayload(CommandFor(request)) == PayloadFor(request)
              && Destiny(request) == Command(ReplyKind(request))
    ensures Destiny(request) == Stream <==> request == Subscribe
    ensures Destiny(request).Reject? <==> request == SetRtc(None)
    ensures request == SetRtc(None) ==> Destiny(request) == Reject(InvalidTime)
  {
  }

  lemma CarriedIsAsked(before: seq<Frame>, frame: Frame, request: Request)
    requires AboutCommand(request) && Codec.Carries(frame, CommandFor(request))
    ensures Asks(before, before + [frame], PayloadFor(request))
  {
    hide WellFormed;
    CommandsAgree(request);
  }

  /** And answers with what came of it. */
  lemma RepliesAgree(request: Request, answer: Answer, box: Mailbox, calendar: Calendar)
    requires AboutCommand(request) && answer != Interrupted && Delivered(box, ReplyTo(request, answer, calendar))
    ensures AnsweredWith(request, answer, box, calendar)
  {
    hide Delivered;
  }

  /** The connection handler answers exactly the requests the actor ignores. */
  lemma {:induction false} EveryRequestHasOneHome(request: Request, actorGone: bool)
    ensures ControlResponse(request, actorGone).Some? <==> Destiny(request) == NotMine
    ensures Destiny(request) == NotMine <==> request == Ping || request == Shutdown
  {
  }

  /** What wakes the loop. A shutdown may also be picked up before the handler of something
      that just arrived has begun: that too is `ShutdownSignal`. */
  datatype Wake =
    | ShutdownSignal
    | HandlesGone
    | Asked(request: Request, io: CommandIo)
    | Tick(poll: PollIo)
    | Notified(event: Option<Event>, reconnect: Io)

  /** Whether acting on `wake` may dismiss the clients with this message. */
  predicate Dismisses(wake: Wake, farewell: Response) {
    match wake
    case Tick(io) => farewell in PollFarewells(true, io) + PollFarewells(false, io)
    case Notified(event, reconnect) => farewell in NotificationFarewells(event, reconnect)
    case _ => false
  }

  /** One round of the loop: what woke it, whether the actor went on, and who was listed and which
      subscription held then. Without a flow, the select could not have produced the wake. */
  datatype Round = Round(wake: Wake, flow: Option<Flow>, listed: seq<nat>, held: Option<nat>)

  function WakesOf(rounds: seq<Round>): (r: seq<Wake>)
    ensures |r| == |rounds|
  {
    seq(|rounds|, i requires 0 <= i < |rounds| => rounds[i].wake)
  }

  lemma WakesSnoc(rounds: seq<Round>, last: Round)
    ensures WakesOf(rounds + [last]) == WakesOf(rounds) + [last.wake]
  {
  }

  class Actor {
    /** The subscription held, by its number; `taken` of them have been taken so far. */
    var notifications: Option<nat>
    var taken: nat
    const assembler: FrameAssembler
    const clients: ClientList
    const hub: Hub
    const stats: AgentStats
    const pollAlways: bool
    const calendar: Calendar
    const monitoring: Frame

    /** Every subscription taken so far; the last is the only one whose bytes are read. */
    ghost var subs: seq<Subscription>
    ghost var log: seq<Entry>
    /** Every frame handed over to be written. */
    ghost var written: seq<Frame>
    ghost var rounds: seq<Round>
    /** How many samples had been recorded when each subscriber joined. */
    ghost var joined: map<nat, nat>
    /** Set when a one-shot command fails to renew the subscription of listed clients, until they
        are served again or gone. */
    ghost var orphaned: bool
    /** The messages that clients were dismissed with. */
    ghost var farewells: set<Response>

    /** The bytes in the assembler, and the frames it made of them, are those of the last
        subscription, and a subscription that is held is the last one. */
    ghost predicate OneSubscription()
      reads this`notifications, this`taken, this`subs, assembler
    {
      && assembler.Valid()
      && taken == |subs|
      && (if subs == [] then assembler.fed == [] && assembler.yielded == []
          else subs[|subs| - 1] == Subscription(assembler.fed, assembler.yielded))
      && (notifications.Some? ==> subs != [] && notifications.value == |subs| - 1)
    }

    /** No splicing: the frames taken from each subscription are, in order, the first frames
        of the parse of the bytes of that subscription alone. */
    ghost predicate NoSplicing()
      reads this`subs
    {
      forall i :: 0 <= i < |subs| ==> subs[i].yielded <= Parse(subs[i].delivered).frames
    }

    /** Every frame has one owner: it is in the log once, under its subscription.
        `pending` are frames in hand that have not met their use yet. */
    ghost predicate OneOwner(pending: seq<Frame>)
      reads this`subs, this`log
    {
      && (forall i :: 0 <= i < |subs| - 1 ==> FramesOf(log, i) == subs[i].yielded)
      && (if subs == [] then pending == [] else FramesOf(log, |subs| - 1) + pending == subs[|subs| - 1].yielded)
      && (forall k :: 0 <= k < |log| ==> log[k].sub < |subs| && UsedRightly(log[k], calendar))
    }

    ghost predicate Shared()
      reads this`joined, this`farewells, clients, hub, stats
    {
      && clients.hub == hub && clients.stats == stats && clients.Valid() && stats.Valid()
      && AllFeedsOk(hub.boxes, stats.recorded, joined, clients.list, farewells)
    }

    /** Besides: the recorded samples are the measurements among the frames that answered no
        command, and clients are without a subscription only after a command lost it. */
    ghost predicate ValidWith(pending: seq<Frame>)
      reads this, assembler, clients, hub, stats
    {
      && Codec.Carries(monitoring, Codec.Monitoring)
      && OneSubscription()
      && NoSplicing()
      && OneOwner(pending)
      && MeasurementsOf(log, calendar) == stats.recorded
      && Shared()
      && (clients.list != [] && notifications.None? ==> orphaned)
    }

    ghost predicate Valid()
      reads this, assembler, clients, hub, stats
    {
      ValidWith([])
    }

    predicate WantsPoll()
      reads clients
    {
      pollAlways || clients.list != []
    }

    constructor (hub: Hub, stats: AgentStats, pollAlways: bool, calendar: Calendar)
      requires hub.Valid() && hub.boxes == map[] && stats.Valid() && stats.recorded == []
      modifies stats`clients
      ensures Valid() && fresh(assembler) && fresh(clients)
      ensures this.hub == hub && this.stats == stats && this.pollAlways == pollAlways && this.calendar == calendar
      ensures notifications.None? && subs == [] && log == [] && clients.list == [] && joined == map[] && farewells == {}
    {
      var list := new ClientList(hub, stats);
      var frames := new FrameAssembler();
      var command := Codec.BuildCommand(Codec.Monitoring);
      this.clients, this.assembler, this.hub, this.stats := list, frames, hub, stats;
      this.pollAlways, this.calendar, this.monitoring := pollAlways, calendar, command;
      notifications, taken, subs, log, joined := None, 0, [], [], map[];
      orphaned, farewells, written, rounds := false, {}, [], [];
    }

    // ---------- Subscribing ----------

    /** Streaming has been given up: no subscription, no clients, link reported down. */
    ghost predicate Aborted()
      reads this`notifications, clients, stats
    {
      notifications.None? && clients.list == [] && !stats.connected
    }

    /** Hold a new subscription; whatever the old one left in the assembler is forgotten. */
    method ApplySubscription()
      requires Valid()
      modifies this`notifications, this`taken, this`subs, assembler
      ensures Valid() && assembler.buf == []
      ensures subs == old(subs) + [Subscription([], [])] && notifications == Some(|old(subs)|)
    {
      hide Accounts;
      hide Parse;
      hide AllFeedsOk;
      hide MeasurementsOf;
      hide Codec.Carries;
      notifications, taken := Some(taken), taken + 1;
      assembler.Clear();
      NothingFrom(log, |subs|);
      subs := subs + [Subscription([], [])];
    }

    method Relisten(io: Io) returns (r: Io)
      requires Valid() && (io == Failed && clients.list != [] ==> orphaned)
      modifies this`notifications, this`taken, this`subs, assembler
      ensures Valid() && r == io
      ensures io == Done ==> notifications == Some(|old(subs)|) && subs == old(subs) + [Subscription([], [])]
      ensures io != Done ==> subs == old(subs)
      ensures io == Failed ==> notifications.None?
      ensures io == Abandoned ==> notifications == old(notifications)
    {
      match io {
        case Done => ApplySubscription();
        case Failed => notifications := None;
        case Abandoned =>
      }
      r := io;
    }

    /** Give streaming up, and tell everyone listed why. */
    method AbortStream(reason: Reason)
      requires Valid()
      modifies this`notifications, this`farewells, clients, hub`boxes, stats`clients, stats`connected
      ensures Valid() && farewells == old(farewells) + {Error(reason)}
      ensures Aborted()
      ensures forall id :: id in old(clients.list) ==> id in hub.boxes && Told(hub.boxes[id], Error(reason))
      ensures forall id :: id in old(clients.list) ==>
                                exists taken :: Offered(old(hub.boxes)[id], hub.boxes[id], Error(reason), taken)
      ensures OthersUntouched(old(hub.boxes), hub.boxes, joined)
    {
      hide Accounts;
      hide Parse;
      hide AllFeedsOk;
      hide Excused;
      hide Told;
      hide Offered;
      hide OthersUntouched;
      hide MeasurementsOf;
      hide Codec.Carries;
      hide FramesOf;
      notifications := None;
      stats.SetConnected(false);
      clients.Abort(reason);
      DismissingKeepsFeeds(old(hub.boxes), hub.boxes, stats.recorded, joined, old(clients.list), Error(reason),
                           farewells);
      farewells := farewells + {Error(reason)};
    }

    method ReapClients()
      requires Valid()
      modifies clients, hub`boxes, stats`clients
      ensures Valid()
      ensures forall id :: id in clients.list ==>
                             id in old(clients.list) && id in old(hub.boxes) && !old(hub.boxes)[id].closed
      ensures OthersUntouched(old(hub.boxes), hub.boxes, joined)
    {
      hide Accounts;
      hide Parse;
      hide AllFeedsOk;
      hide OthersUntouched;
      hide Progress;
      hide MeasurementsOf;
      hide Codec.Carries;
      hide FramesOf;
      clients.Reap();
      ReapingKeepsFeeds(old(hub.boxes), hub.boxes, stats.recorded, joined, old(clients.list), clients.list, farewells);
    }

    // ---------- Frames ----------

    ghost method Note(frame: Frame, use: Use, rest: seq<Frame>)
      requires subs != [] && OneOwner([frame] + rest) && UsedRightly(Entry(|subs| - 1, frame, use), calendar)
      modifies this`log
      ensures OneOwner(rest) && log == old(log) + [Entry(|subs| - 1, frame, use)]
    {
      hide FramesOf;
      hide ReadMeasure;
      LogAppend(log, Entry(|subs| - 1, frame, use), calendar);
      log := log + [Entry(|subs| - 1, frame, use)];
    }

    method Publish(m: Measurement)
      requires Shared()
      modifies clients, hub`boxes, stats
      ensures Shared() && stats.recorded == old(stats.recorded) + [m]
      ensures forall id :: id in clients.list ==> id in old(clients.list)
      ensures OthersUntouched(old(hub.boxes), hub.boxes, joined)
      ensures stats.reconnects == old(stats.reconnects) && stats.connected
    {
      hide FeedOk;
      var now: nat := *;
      stats.RecordSample(m, now);
      clients.Broadcast(Sample(m));
      BroadcastKeepsFeeds(old(hub.boxes), hub.boxes, old(stats.recorded), m, joined, old(clients.list), clients.list,
                          farewells);
    }

    /** What every frame that answers no command goes through: record and broadcast, or drop. */
    method Forward(frame: Frame, ghost rest: seq<Frame>)
      requires ValidWith([frame] + rest)
      modifies this`log, clients, hub`boxes, stats
      ensures ValidWith(rest)
      ensures log == old(log) + [Entry(|subs| - 1, frame, UseOf(frame, calendar))]
      ensures forall id :: id in clients.list ==> id in old(clients.list)
      ensures OthersUntouched(old(hub.boxes), hub.boxes, joined)
      ensures stats.reconnects == old(stats.reconnects)
      ensures stats.connected == (old(stats.connected) || UseOf(frame, calendar) == Recorded)
    {
      hide Accounts;
      hide Parse;
      hide FeedOk;
      hide AllFeedsOk;
      hide MeasurementsOf;
      hide Codec.Carries;
      hide FramesOf;
      hide ReadMeasure;
      match ReadMeasure(frame, calendar) {
        case None => assert stats.recorded + [] == stats.recorded;
        case Some(m) => Publish(m);
      }
      assert clients.list != [] ==> clients.list[0] in old(clients.list);
      LogAppend(log, Entry(|subs| - 1, frame, UseOf(frame, calendar)), calendar);
      Note(frame, UseOf(frame, calendar), rest);
    }

    /** Account for bytes read and frames pulled from the subscription held. */
    ghost method Follow(pending: seq<Frame>, pulled: seq<Frame>)
      requires assembler.Valid() && taken == |subs| && (notifications.Some? ==> notifications.value == |subs| - 1)
      requires NoSplicing() && OneOwner(pending)
      requires subs != [] && assembler.yielded == subs[|subs| - 1].yielded + pulled
      modifies this`subs
      ensures OneSubscription() && NoSplicing() && OneOwner(pending + pulled)
      ensures subs == old(subs)[|old(subs)| - 1 := Subscription(assembler.fed, assembler.yielded)]
    {
      hide FramesOf;
      subs := subs[|subs| - 1 := Subscription(assembler.fed, assembler.yielded)];
    }

    method CountReconnect()
      requires Valid()
      modifies stats`reconnects, stats`connected
      ensures Valid() && stats.reconnects == old(stats.reconnects) + 1 && stats.connected
    {
      hide Accounts;
      hide Parse;
      hide AllFeedsOk;
      hide MeasurementsOf;
      hide Codec.Carries;
      hide OneOwner;
      hide NoSplicing;
      stats.RecordReconnect();
    }

    /** What the end of the stream, or one notification from it, has done. */
    twostate predicate Heeded(event: Option<Event>, reconnect: Io, flow: Flow)
      reads this`notifications, this`subs, this`log, this`written, this`joined, this`orphaned, this`farewells
      reads clients, stats
    {
      && (flow == Break <==> event.None? && reconnect == Abandoned)
      && written == old(written) && joined == old(joined) && (orphaned ==> old(orphaned))
      && farewells == old(farewells) + NotificationFarewells(event, reconnect)
      && AllForwarded(old(log), log, calendar)
      && (forall id :: id in clients.list ==> id in old(clients.list))
      && match event
         case Some(e) =>
           && notifications == old(notifications) && stats.reconnects == old(stats.reconnects)
           && (if e.rx then Fed(old(subs), subs, e.value)
               else subs == old(subs) && log == old(log) && clients.list == old(clients.list))
         case None =>
           && log == old(log)
           && (reconnect == Done ==>
                 && notifications == Some(|old(subs)|) && subs == old(subs) + [Subscription([], [])]
                 && clients.list == old(clients.list) && stats.connected
                 && stats.reconnects == old(stats.reconnects) + 1)
           && (reconnect == Failed ==>
                 && notifications.None? && subs == old(subs)
                 && clients.list == [] && !stats.connected && stats.reconnects == old(stats.reconnects))
           && (reconnect == Abandoned ==>
                 && notifications == old(notifications) && subs == old(subs)
                 && clients.list == old(clients.list) && stats.reconnects == old(stats.reconnects))
    }

    /** The end of the stream, or one notification from it. */
    method HandleNotification(event: Option<Event>, reconnect: Io) returns (flow: Flow)
      requires Valid() && notifications.Some?
      modifies this`notifications, this`taken, this`subs, this`log, this`orphaned, this`farewells
      modifies assembler, clients, hub`boxes, stats
      ensures Valid() && OthersUntouched(old(hub.boxes), hub.boxes, joined)
      ensures Heeded(event, reconnect, flow)
    {
      hide ValidWith;
      hide Parse;
      hide UseOf;
      HeldIsLast();
      flow := Continue;
      match event {
        case None =>
          match reconnect {
            case Done =>
              CountReconnect();
              ApplySubscription();
              Settle();
            case Failed =>
              AbortStream(ReconnectFailed);
              Settle();
            case Abandoned => flow := Break;
          }
        case Some(e) =>
          if e.rx {
            HandleBytes(e.value);
          }
      }
    }

    method HandleBytes(data: seq<Byte>)
      requires Valid() && notifications.Some?
      modifies this`subs, this`log, assembler, clients, hub`boxes, stats
      ensures Valid() && OthersUntouched(old(hub.boxes), hub.boxes, joined)
      ensures forall id :: id in clients.list ==> id in old(clients.list)
      ensures AllForwarded(old(log), log, calendar)
      ensures stats.reconnects == old(stats.reconnects)
      ensures |subs| == |old(subs)| && subs[..|subs| - 1] == old(subs)[..|subs| - 1]
      ensures subs[|subs| - 1].delivered == old(subs)[|subs| - 1].delivered + data
      ensures subs[|subs| - 1].yielded == Parse(subs[|subs| - 1].delivered).frames
    {
      hide Accounts;
      hide Parse;
      hide AllFeedsOk;
      hide MeasurementsOf;
      hide Codec.Carries;
      hide FramesOf;
      hide UseOf;
      assembler.Extend(data);
      Follow([], []);
      ForwardAll();
    }

    method Pull() returns (next: Option<Frame>)
      requires Valid() && subs != []
      modifies this`subs, assembler
      ensures ValidWith(if next.Some? then [next.value] else [])
      ensures |subs| == |old(subs)| && subs[..|subs| - 1] == old(subs)[..|subs| - 1]
      ensures assembler.fed == old(assembler.fed)
      ensures if next.Some? then |assembler.buf| < |old(assembler.buf)|
              else |assembler.buf| <= |old(assembler.buf)| && assembler.yielded == Parse(assembler.fed).frames
    {
      hide Accounts;
      hide Parse;
      hide AllFeedsOk;
      hide MeasurementsOf;
      hide Codec.Carries;
      hide FramesOf;
      hide Next;
      hide WellFormed;
      next := assembler.NextFrame();
      Follow([], if next.Some? then [next.value] else []);
    }

    /** Pull every complete frame out of the assembler and forward it. */
    method ForwardAll()
      requires Valid() && notifications.Some?
      modifies this`subs, this`log, assembler, clients, hub`boxes, stats
      ensures Valid() && OthersUntouched(old(hub.boxes), hub.boxes, joined)
      ensures forall id :: id in clients.list ==> id in old(clients.list)
      ensures AllForwarded(old(log), log, calendar)
      ensures stats.reconnects == old(stats.reconnects)
      ensures |subs| == |old(subs)| && subs[..|subs| - 1] == old(subs)[..|subs| - 1]
      ensures subs[|subs| - 1].delivered == old(assembler.fed)
      ensures subs[|subs| - 1].yielded == Parse(subs[|subs| - 1].delivered).frames
    {
      hide Accounts;
      hide Parse;
      hide AllFeedsOk;
      hide MeasurementsOf;
      hide Codec.Carries;
      hide OneOwner;
      hide NoSplicing;
      hide UseOf;
      var next := Pull();
      while next.Some?
        invariant ValidWith(if next.Some? then [next.value] else [])
        invariant OthersUntouched(old(hub.boxes), hub.boxes, joined)
        invariant forall id :: id in clients.list ==> id in old(clients.list)
        invariant AllForwarded(old(log), log, calendar)
        invariant stats.reconnects == old(stats.reconnects)
        invariant |subs| == |old(subs)| && subs[..|subs| - 1] == old(subs)[..|subs| - 1]
        invariant assembler.fed == old(assembler.fed)
        invariant next.None? ==> assembler.yielded == Parse(assembler.fed).frames
        decreases |assembler.buf|, if next.Some? then 1 else 0
      {
        assert [next.value] + [] == [next.value];
        Forward(next.value, []);
        next := Pull();
      }
    }

    // ---------- One-shot commands ----------

    /** Forward frames already pulled, in order. */
    method ForwardEach(frames: seq<Frame>, ghost tail: seq<Frame>)
      requires ValidWith(frames + tail)
      modifies this`log, clients, hub`boxes, stats
      ensures ValidWith(tail) && OthersUntouched(old(hub.boxes), hub.boxes, joined)
      ensures forall id :: id in clients.list ==> id in old(clients.list)
      ensures AllForwarded(old(log), log, calendar) && |log| == |old(log)| + |frames|
      ensures forall k :: 0 <= k < |frames| ==> log[|old(log)| + k].frame == frames[k]
      ensures stats.reconnects == old(stats.reconnects)
    {
      hide Accounts;
      hide Parse;
      hide AllFeedsOk;
      hide MeasurementsOf;
      hide Codec.Carries;
      hide OneOwner;
      hide NoSplicing;
      hide UseOf;
      assert frames[0..] == frames;
      for i := 0 to |frames|
        invariant ValidWith(frames[i..] + tail)
        invariant OthersUntouched(old(hub.boxes), hub.boxes, joined)
        invariant forall id :: id in clients.list ==> id in old(clients.list)
        invariant AllForwarded(old(log), log, calendar) && |log| == |old(log)| + i
        invariant forall k :: 0 <= k < i ==> log[|old(log)| + k].frame == frames[k]
        invariant stats.reconnects == old(stats.reconnects)
      {
        assert frames[i..] + tail == [frames[i]] + (frames[i + 1..] + tail);
        Forward(frames[i], frames[i + 1..] + tail);
      }
      assert frames[|frames|..] + tail == tail;
    }

    /** Take frames from the subscription held until one is of the expected kind. */
    method TakeUntil(kind: FrameKind, events: seq<Event>) returns (found: Option<Frame>, others: seq<Frame>)
      requires Valid() && notifications.Some?
      modifies this`subs, assembler
      ensures ValidWith(others + (if found.Some? then [found.value] else []))
      ensures |subs| == |old(subs)| && subs[..|subs| - 1] == old(subs)[..|subs| - 1]
      ensures Heard(old(subs)[|old(subs)| - 1].delivered, subs[|subs| - 1], events, found.Some?)
      ensures forall f :: f in others ==> !kind.Matches(f)
      ensures found.Some? ==> WellFormed(found.value) && kind.Matches(found.value)
    {
      hide Accounts;
      hide Parse;
      hide AllFeedsOk;
      hide MeasurementsOf;
      hide Codec.Carries;
      hide FramesOf;
      hide WellFormed;
      hide Heard;
      ghost var start := subs[|subs| - 1].delivered;
      var consumed;
      found, consumed, others := NextMatchingFrame(assembler, events, kind);
      ghost var tail := if found.Some? then [found.value] else [];
      assert old(assembler.yielded) + others + tail == old(assembler.yielded) + (others + tail);
      Follow([], others + tail);
      assert [] + (others + tail) == others + tail;
      HeardThat(start, subs[|subs| - 1], events, found.Some?, consumed);
    }

    /** Wait for the reply to a command; what arrives before it goes the way of all frames. */
    method WaitForFrame(kind: FrameKind, events: seq<Event>, end: WaitEnd) returns (answer: Answer)
      requires Valid()
      modifies this`subs, this`log, assembler, clients, hub`boxes, stats
      ensures Valid() && OthersUntouched(old(hub.boxes), hub.boxes, joined)
      ensures forall id :: id in clients.list ==> id in old(clients.list)
      ensures stats.reconnects == old(stats.reconnects) && |subs| == |old(subs)|
      ensures subs != [] ==> subs[..|subs| - 1] == old(subs)[..|subs| - 1]
      ensures notifications.None? <==> answer == Refused(NoStream)
      ensures notifications.None? ==> subs == old(subs) && log == old(log)
      ensures notifications.Some? ==>
                Waited(answer, kind, events, end, old(log), log, old(subs)[|old(subs)| - 1].delivered, subs, calendar)
    {
      hide Accounts;
      hide Parse;
      hide AllFeedsOk;
      hide MeasurementsOf;
      hide Codec.Carries;
      hide OneOwner;
      hide NoSplicing;
      hide WellFormed;
      hide UseOf;
      hide Heard;
      if notifications.None? {
        return Refused(NoStream);
      }
      var found, others := TakeUntil(kind, events);
      ghost var tail := if found.Some? then [found.value] else [];
      ForwardEach(others, tail);
      ghost var passed := log;
      assert PassedOver(old(log), passed, kind, calendar) by {
        forall k | |old(log)| <= k < |log| ensures !kind.Matches(log[k].frame) {
          assert log[k].frame == others[k - |old(log)|];
        }
      }
      match found {
        case Some(frame) =>
          FinishReply(frame);
          assert log[..|log| - 1] == passed;
          return Reply(frame);
        case None =>
          match end {
            case StreamEnds => return Refused(StreamClosed);
            case Timeout => return Refused(TimedOut);
            case WaitAbandoned => return Interrupted;
          }
      }
    }

    /** The awaited frame answers its command and is neither recorded nor broadcast. */
    ghost method FinishReply(frame: Frame)
      requires ValidWith([frame]) && subs != []
      modifies this`log
      ensures Valid() && log == old(log) + [Entry(|subs| - 1, frame, Answered)]
    {
      hide Accounts;
      hide Parse;
      hide AllFeedsOk;
      hide MeasurementsOf;
      hide Codec.Carries;
      hide FramesOf;
      LogAppend(log, Entry(|subs| - 1, frame, Answered), calendar);
      assert [frame] + [] == [frame];
      assert MeasurementsOf(log, calendar) + [] == MeasurementsOf(log, calendar);
      Note(frame, Answered, []);
    }

    /** Listed clients are about to lose their subscription, if that failed. */
    ghost method Orphan(failed: bool)
      requires Valid()
      modifies this`orphaned
      ensures Valid() && orphaned == (old(orphaned) || (failed && clients.list != []))
    {
      hide Accounts;
      hide Parse;
      hide AllFeedsOk;
      hide MeasurementsOf;
      hide Codec.Carries;
      hide OneOwner;
      hide NoSplicing;
      orphaned := orphaned || (failed && clients.list != []);
    }

    /** Hand a frame over to be written; whether it gets there is for the radio to say. */
    ghost method Transmit(frame: Frame)
      requires Valid()
      modifies this`written
      ensures Valid() && written == old(written) + [frame]
    {
      hide Accounts;
      hide Parse;
      hide AllFeedsOk;
      hide MeasurementsOf;
      hide Codec.Carries;
      hide OneOwner;
      hide NoSplicing;
      written := written + [frame];
    }

    /** A reconnect during the write replaces the subscription; it is not counted. */
    method WriteAndWait(command: Frame, kind: FrameKind, io: CommandIo) returns (answer: Answer)
      requires Valid() && notifications.Some?
      modifies this`written, this`notifications, this`taken, this`subs, this`log, this`orphaned
      modifies assembler, clients, hub`boxes, stats
      ensures Valid() && OthersUntouched(old(hub.boxes), hub.boxes, joined)
      ensures forall id :: id in clients.list ==> id in old(clients.list)
      ensures stats.reconnects == old(stats.reconnects)
      ensures var renewed := io.write == Wrote(true) && io.relisten == Done;
              && |subs| == |old(subs)| + (if renewed then 1 else 0)
              && old(subs) != [] && old(subs)[..|old(subs)| - 1] <= subs
              && notifications == (if io.write == Wrote(true) && io.relisten == Failed then None
                                   else if renewed then Some(|old(subs)|) else old(notifications))
      ensures orphaned ==
              (old(orphaned) || (io.write == Wrote(true) && io.relisten == Failed && old(clients.list) != []))
      ensures written == old(written) + [command]
      ensures Outcome(answer, kind, io, old(log), log, StartsFrom(true, io.write, old(subs)), subs, calendar)
    {
      hide ValidWith;
      hide Waited;
      HeldIsLast();
      Transmit(command);
      match io.write {
        case WriteFails => return Refused(WriteFailed);
        case WriteAbandoned => return Interrupted;
        case Wrote(false) =>
        case Wrote(true) =>
          Orphan(io.relisten == Failed);
          var r := Relisten(io.relisten);
          if r == Failed { return Refused(ListenFailed); }
          if r == Abandoned { return Interrupted; }
      }
      answer := WaitForFrame(kind, io.events, io.end);
    }

    /** Give the subscription back that was taken out for a command alone. */
    method Relinquish()
      requires Valid() && (clients.list == [] || orphaned)
      modifies this`notifications
      ensures Valid() && notifications.None?
    {
      hide Accounts;
      hide Parse;
      hide AllFeedsOk;
      hide MeasurementsOf;
      hide Codec.Carries;
      hide OneOwner;
      hide NoSplicing;
      notifications := None;
    }

    /** Clients listed while none is held have lost it to a command. */
    lemma ListedAreOrphaned()
      requires Valid()
      ensures notifications.None? ==> clients.list == [] || orphaned
    {
    }

    /** Write a command and wait for its reply. When nothing is streaming, this is on a
        subscription of its own. */
    method Oneshot(command: Frame, kind: FrameKind, io: CommandIo) returns (answer: Answer)
      requires Valid()
      modifies this`written, this`notifications, this`taken, this`subs, this`log, this`orphaned
      modifies assembler, clients, hub`boxes, stats
      ensures Valid() && OthersUntouched(old(hub.boxes), hub.boxes, joined)
      ensures forall id :: id in clients.list ==> id in old(clients.list)
      ensures stats.reconnects == old(stats.reconnects)
      ensures old(notifications).None? && io.listen != Done ==>
                && answer == (if io.listen == Failed then Refused(ListenFailed) else Interrupted)
                && subs == old(subs) && log == old(log) && notifications.None?
      ensures written == old(written) + (if old(notifications).Some? || io.listen == Done then [command] else [])
      ensures answer == Interrupted <==> CommandCutOff(old(notifications).Some?, io, answer.Reply?)
      ensures forall request :: AboutCommand(request) ==>
                                  HeldAfter(request, io, answer, old(notifications), old(subs), notifications, subs)
      ensures old(notifications).Some? || io.listen == Done ==>
                Outcome(answer, kind, io, old(log), log, StartsFrom(old(notifications).Some?, io.write, old(subs)),
                        subs, calendar)
      ensures orphaned && !old(orphaned) ==> io.write == Wrote(true) && io.relisten == Failed && old(clients.list) != []
    {
      hide ValidWith;
      hide Outcome;
      ListedAreOrphaned();
      HeldIsLast();
      var wasStreaming := notifications.Some?;
      if !wasStreaming {
        var r := Relisten(io.listen);
        if r == Failed { return Refused(ListenFailed); }
        if r == Abandoned { return Interrupted; }
      }
      answer := WriteAndWait(command, kind, io);
      InterruptedExactlyWhen(answer, kind, io, old(log), log, StartsFrom(wasStreaming, io.write, old(subs)), subs,
                             calendar);
      if answer == Interrupted {
        return;
      }
      if !wasStreaming {
        assert clients.list != [] ==> clients.list[0] in old(clients.list);
        Relinquish();
      }
    }

    // ---------- Polling ----------

    /** Listed clients are served again, or there are none. */
    ghost method Settle()
      requires Valid() && (notifications.Some? || clients.list == [])
      modifies this`orphaned
      ensures Valid() && !orphaned
    {
      hide Accounts;
      hide Parse;
      hide AllFeedsOk;
      hide MeasurementsOf;
      hide Codec.Carries;
      hide OneOwner;
      hide NoSplicing;
      orphaned := false;
    }

    lemma MonitoringAsks(before: seq<Frame>)
      requires Valid()
      ensures Asks(before, before + [monitoring], [0x08])
    {
    }

    lemma HeldIsLast()
      requires Valid()
      ensures notifications.Some? ==> subs != [] && notifications.value == |subs| - 1
    {
    }

    /** Take out a subscription if none is held, or give streaming up. */
    method ListenOrAbort(listen: Io)
      requires Valid()
      modifies this`notifications, this`taken, this`subs, this`farewells
      modifies assembler, clients, hub`boxes, stats`clients, stats`connected
      ensures Valid() && OthersUntouched(old(hub.boxes), hub.boxes, joined)
      ensures old(notifications).Some? || listen == Abandoned ==>
                && notifications == old(notifications) && subs == old(subs) && clients.list == old(clients.list)
                && hub.boxes == old(hub.boxes) && stats.connected == old(stats.connected) && farewells == old(farewells)
      ensures old(notifications).None? && listen == Done ==>
                && notifications == Some(|old(subs)|) && subs == old(subs) + [Subscription([], [])]
                && clients.list == old(clients.list) && hub.boxes == old(hub.boxes) && farewells == old(farewells)
      ensures old(notifications).None? && listen == Failed ==>
                Aborted() && subs == old(subs) && farewells == old(farewells) + {Error(ListenFailed)}
    {
      hide Accounts;
      hide Parse;
      hide AllFeedsOk;
      hide MeasurementsOf;
      hide Codec.Carries;
      hide OneOwner;
      hide NoSplicing;
      if notifications.None? {
        match listen {
          case Done => ApplySubscription();
          case Failed => AbortStream(ListenFailed);
          case Abandoned =>
        }
      }
    }

    /** Write the request for a measurement; a reconnect on the way means a new subscription. */
    method PollWrite(write: WriteIo, relisten: Io) returns (flow: Flow)
      requires Valid() && notifications.Some?
      modifies this`written, this`notifications, this`taken, this`subs, this`farewells
      modifies assembler, clients, hub`boxes, stats
      ensures Valid() && OthersUntouched(old(hub.boxes), hub.boxes, joined)
      ensures written == old(written) + [monitoring]
      ensures farewells == old(farewells) + PollFarewells(true, PollIo(Done, write, relisten))
      ensures PollFarewells(true, PollIo(Done, write, relisten)) == {} ==> clients.list == old(clients.list)
      ensures forall id :: id in clients.list ==> id in old(clients.list)
      ensures stats.recorded == old(stats.recorded)
      ensures flow == Break <==> write == WriteAbandoned || (write == Wrote(true) && relisten == Abandoned)
      ensures stats.reconnects == old(stats.reconnects) + (if write == Wrote(true) then 1 else 0)
      ensures write == WriteFails || (write == Wrote(true) && relisten == Failed) ==> Aborted()
      ensures write == Wrote(false) || write == WriteAbandoned || (write == Wrote(true) && relisten == Abandoned) ==>
                notifications == old(notifications)
      ensures write == Wrote(true) && relisten == Done ==>
                && notifications == Some(|old(subs)|) && subs == old(subs) + [Subscription([], [])] && stats.connected
      ensures !(write == Wrote(true) && relisten == Done) ==> subs == old(subs)
    {
      hide ValidWith;
      HeldIsLast();
      Transmit(monitoring);
      flow := Continue;
      match write {
        case Wrote(false) =>
        case WriteFails => AbortStream(MeasurementWriteFailed);
        case WriteAbandoned => flow := Break;
        case Wrote(true) =>
          CountReconnect();
          match relisten {
            case Done => ApplySubscription();
            case Failed => AbortStream(ListenFailed);
            case Abandoned => flow := Break;
          }
      }
    }

    /** What a poll has done, when something wanted one. */
    twostate predicate Polled(io: PollIo, flow: Flow)
      reads this`notifications, this`subs, this`log, this`written, this`joined, this`orphaned, this`farewells
      reads clients, stats
    {
      var streaming := old(notifications).Some?;
      var listening := streaming || io.listen == Done;
      var first := |old(subs)| + (if !streaming && io.listen == Done then 1 else 0);
      && (flow == Break <==> PollCutOff(streaming, io))
      && (if listening then Asks(old(written), written, [0x08]) else written == old(written))
      && farewells == old(farewells) + PollFarewells(streaming, io)
      && stats.reconnects == old(stats.reconnects) + (if listening && io.write == Wrote(true) then 1 else 0)
      && old(subs) <= subs
      && (!listening ==> subs == old(subs) && (if io.listen == Failed then Aborted() else notifications.None?))
      && (listening && io.write == WriteFails ==> Aborted() && |subs| == first)
      && (listening && io.write == Wrote(true) && io.relisten == Failed ==> Aborted() && |subs| == first)
      && (listening && io.write == Wrote(false) ==> notifications == Some(first - 1) && |subs| == first)
      && (listening && io.write == Wrote(true) && io.relisten == Done ==>
            notifications == Some(first) && |subs| == first + 1 && stats.connected)
      && (listening && flow == Break ==> notifications == Some(first - 1) && |subs| == first)
    }

    /** A poll was due: for the metrics endpoint, or for a client that had not hung up. */
    twostate predicate Due(io: PollIo)
      reads this`notifications, clients, hub
    {
      || pollAlways
      || ((exists id :: id in old(clients.list) && id in old(hub.boxes) && !old(hub.boxes)[id].closed)
          && (PollFarewells(old(notifications).Some?, io) == {} ==> clients.list != []))
    }

    /** What it has done when nothing did: it has found that out. */
    twostate predicate LeftUnpolled(flow: Flow)
      reads this`notifications, this`subs, this`log, this`written, this`joined, this`orphaned, this`farewells
      reads clients, stats
    {
      && flow == Continue && !pollAlways && clients.list == []
      && notifications == old(notifications) && subs == old(subs)
      && written == old(written) && farewells == old(farewells)
      && stats.reconnects == old(stats.reconnects) && stats.connected == old(stats.connected)
    }

    /** A poll, wanted. */
    method PollNow(io: PollIo) returns (flow: Flow)
      requires Valid()
      modifies this`written, this`notifications, this`taken, this`subs, this`orphaned, this`farewells
      modifies assembler, clients, hub`boxes, stats
      ensures Valid() && OthersUntouched(old(hub.boxes), hub.boxes, joined)
      ensures Polled(io, flow)
      ensures stats.recorded == old(stats.recorded) && (orphaned ==> old(orphaned))
      ensures forall id :: id in clients.list ==> id in old(clients.list)
      ensures PollFarewells(old(notifications).Some?, io) == {} ==> clients.list == old(clients.list)
      ensures flow == Continue ==> !orphaned && (notifications.Some? || Aborted())
    {
      hide ValidWith;
      hide Asks;
      var listening := notifications.Some? || io.listen == Done;
      ListenOrAbort(io.listen);
      HeldIsLast();
      if !listening {
        if io.listen == Abandoned {
          return Break;
        }
        Settle();
        return Continue;
      }
      flow := PollWrite(io.write, io.relisten);
      MonitoringAsks(old(written));
      if flow == Continue {
        Settle();
      }
    }

    /** One poll, if anything still wants one once hung-up clients are gone. Afterwards a subscription
        is held, or nothing wants polling, or streaming has been given up. */
    method PollDevice(io: PollIo) returns (flow: Flow, ghost polled: bool)
      requires Valid()
      modifies this`written, this`notifications, this`taken, this`subs, this`orphaned, this`farewells
      modifies assembler, clients, hub`boxes, stats
      ensures Valid() && OthersUntouched(old(hub.boxes), hub.boxes, joined)
      ensures if polled then Polled(io, flow) else LeftUnpolled(flow)
      ensures polled ==> Due(io)
      ensures stats.recorded == old(stats.recorded) && (orphaned ==> old(orphaned))
      ensures forall id :: id in clients.list ==> id in old(clients.list) && !old(hub.boxes)[id].closed
      ensures flow == Continue ==>
          !orphaned && (notifications.Some? || (!pollAlways && clients.list == []) || Aborted())
    {
      hide ValidWith;
      hide Asks;
      ReapClients();
      polled := WantsPoll();
      if !WantsPoll() {
        Settle();
        return Continue, polled;
      }
      assert clients.list != [] ==> clients.list[0] in clients.list && clients.list[0] in old(clients.list);
      flow := PollNow(io);
    }

    // ---------- Requests ----------

    /** One message into the requester's own, empty mailbox: only a hang-up can stop it. */
    method SendTo(tx: nat, response: Response)
      requires Valid() && tx in hub.boxes && tx !in joined && hub.boxes[tx].sent == []
      modifies hub`boxes
      ensures Valid() && hub.boxes.Keys == old(hub.boxes).Keys
      ensures forall id :: id in hub.boxes && id != tx ==> hub.boxes[id] == old(hub.boxes)[id]
      ensures Delivered(hub.boxes[tx], response)
    {
      hide FeedOk;
      var outcome := hub.TrySend(tx, response);
      AnsweringKeepsFeeds(old(hub.boxes), hub.boxes, stats.recorded, joined, clients.list, tx, farewells);
    }

    /** Add a client, taking out a subscription when none is held. */
    method SubscribeClient(tx: nat, io: CommandIo) returns (flow: Flow)
      requires Valid() && tx in hub.boxes && tx !in joined && hub.boxes[tx].sent == []
      modifies this`notifications, this`taken, this`subs, this`joined, this`orphaned
      modifies assembler, clients, hub`boxes, stats`clients
      ensures Valid() && hub.boxes.Keys == old(hub.boxes).Keys
      ensures forall id :: id in hub.boxes && id != tx ==> hub.boxes[id] == old(hub.boxes)[id]
      ensures flow == Break <==> old(notifications).None? && io.listen == Abandoned
      ensures flow == Break ==> hub.boxes[tx].sent == []
      ensures tx in joined <==> old(notifications).Some? || io.listen == Done
      ensures joined == if tx in joined then old(joined)[tx := |stats.recorded|] else old(joined)
      ensures tx in joined ==> clients.list == old(clients.list) + [tx] && notifications.Some?
      ensures tx !in joined ==> clients.list == old(clients.list)
      ensures old(notifications).None? && io.listen == Failed ==> Delivered(hub.boxes[tx], Error(ListenFailed))
      ensures HeldAfter(Request.Subscribe, io, Interrupted, old(notifications), old(subs), notifications, subs)
      ensures orphaned ==> old(orphaned)
    {
      hide Accounts;
      hide Parse;
      hide AllFeedsOk;
      hide MeasurementsOf;
      hide Codec.Carries;
      hide OneOwner;
      hide NoSplicing;
      flow := Continue;
      if notifications.None? {
        var r := Relisten(io.listen);
        if r == Failed {
          SendTo(tx, Error(ListenFailed));
          return;
        }
        if r == Abandoned {
          return Break;
        }
      }
      Join(tx);
    }

    /** Send a command and answer its request with what came of it. */
    method Command(request: Request, kind: FrameKind, tx: nat, io: CommandIo) returns (answer: Answer)
      requires Valid() && tx in hub.boxes && tx !in joined && hub.boxes[tx].sent == []
      requires Destiny(request) == Fate.Command(kind)
      modifies this`written, this`notifications, this`taken, this`subs, this`log, this`orphaned
      modifies assembler, clients, hub`boxes, stats
      ensures Valid() && hub.boxes.Keys == old(hub.boxes).Keys
      ensures forall id :: id in hub.boxes && id != tx && id !in joined ==> hub.boxes[id] == old(hub.boxes)[id]
      ensures stats.reconnects == old(stats.reconnects)
      ensures if old(notifications).Some? || io.listen == Done then Asks(old(written), written, PayloadFor(request))
              else written == old(written)
      ensures CameOut(request, old(notifications).Some?, io, answer, old(log), log,
                      StartsFrom(old(notifications).Some?, io.write, old(subs)), subs, calendar)
      ensures HeldAfter(request, io, answer, old(notifications), old(subs), notifications, subs)
      ensures answer == Interrupted <==> CommandCutOff(old(notifications).Some?, io, answer.Reply?)
      ensures if answer == Interrupted then hub.boxes[tx].sent == []
              else AnsweredWith(request, answer, hub.boxes[tx], calendar)
      ensures forall id :: id in clients.list ==> id in old(clients.list)
      ensures orphaned && !old(orphaned) ==> io.write == Wrote(true) && io.relisten == Failed && old(clients.list) != []
    {
      hide Accounts;
      hide Parse;
      hide AllFeedsOk;
      hide MeasurementsOf;
      hide Codec.Carries;
      hide OneOwner;
      hide NoSplicing;
      hide Outcome;
      hide CommandCutOff;
      hide ReplyTo;
      hide Asks;
      hide AnsweredWith;
      hide PayloadFor;
      hide CommandFor;
      hide Delivered;
      CommandsAgree(request);
      var frame := Codec.BuildCommand(CommandFor(request));
      answer := Oneshot(frame, kind, io);
      CarriedIsAsked(old(written), frame, request);
      if answer != Interrupted {
        SendTo(tx, ReplyTo(request, answer, calendar));
        RepliesAgree(request, answer, hub.boxes[tx], calendar);
      }
    }

    /** What the handling of a request has done. A shutdown overtook it exactly when the radio was
        waited for at that moment; otherwise it was served to the end. `answer` is what a command
        came to. */
    twostate predicate Handled(request: Request, tx: nat, io: CommandIo, flow: Flow, answer: Answer)
      reads this, clients, hub, stats
    {
      var streaming := old(notifications).Some?;
      && tx in hub.boxes
      && (flow == Break <==> CutOff(request, streaming, io, answer.Reply?))
      && (flow == Break ==> tx !in joined && hub.boxes[tx].sent == [])
      && (flow == Continue ==> Served(request, streaming, io, answer, hub.boxes[tx], tx in joined, calendar))
      && joined == (if tx in joined then old(joined)[tx := |stats.recorded|] else old(joined))
      && (tx in joined ==> tx in clients.list && notifications.Some?)
      && (forall id :: id in clients.list ==> id in old(clients.list) || id == tx)
      && CameOut(request, streaming, io, answer, old(log), log, StartsFrom(streaming, io.write, old(subs)), subs,
                 calendar)
      && HeldAfter(request, io, answer, old(notifications), old(subs), notifications, subs)
      && (if AboutCommand(request) && (streaming || io.listen == Done)
          then Asks(old(written), written, PayloadFor(request)) else written == old(written))
      && stats.reconnects == old(stats.reconnects) && farewells == old(farewells)
      && (orphaned && !old(orphaned) ==>
            AboutCommand(request) && io.write == Wrote(true) && io.relisten == Failed && old(clients.list) != [])
    }

    /** The part of `Handle` that depends on the request. */
    method Dispatch(request: Request, tx: nat, io: CommandIo) returns (flow: Flow, ghost answer: Answer)
      requires Valid() && tx in hub.boxes && tx !in joined && hub.boxes[tx].sent == []
      modifies this`written, this`notifications, this`taken, this`subs, this`log, this`joined, this`orphaned
      modifies assembler, clients, hub`boxes, stats
      ensures Valid() && hub.boxes.Keys == old(hub.boxes).Keys
      ensures forall id :: id in hub.boxes && id != tx && id !in joined ==> hub.boxes[id] == old(hub.boxes)[id]
      ensures Handled(request, tx, io, flow, answer)
    {
      hide ValidWith;
      hide Asks;
      hide Outcome;
      hide CommandCutOff;
      hide ReplyTo;
      hide Delivered;
      hide StartsFrom;
      answer := Interrupted;
      flow := Continue;
      match Destiny(request) {
        case NotMine =>
        case Stream => flow := SubscribeClient(tx, io);
        case Reject(reason) => SendTo(tx, Error(reason));
        case Command(kind) =>
          var result := Command(request, kind, tx, io);
          flow := if result == Interrupted then Break else Continue;
          answer := result;
      }
    }

    /** Serve one request. */
    method Handle(request: Request, tx: nat, io: CommandIo) returns (flow: Flow, ghost answer: Answer)
      requires Valid() && tx in hub.boxes && tx !in joined && hub.boxes[tx].sent == []
      modifies this`written, this`notifications, this`taken, this`subs, this`log, this`joined, this`orphaned
      modifies assembler, clients, hub`boxes, stats
      ensures Valid() && hub.boxes.Keys == old(hub.boxes).Keys
      ensures forall id :: id in hub.boxes && id != tx && id !in joined ==> hub.boxes[id] == old(hub.boxes)[id]
      ensures Handled(request, tx, io, flow, answer)
    {
      hide ValidWith;
      hide Asks;
      hide CameOut;
      hide CutOff;
      hide Served;
      hide StartsFrom;
      ReapClients();
      assert clients.list != [] ==> clients.list[0] in old(clients.list);
      flow, answer := Dispatch(request, tx, io);
    }

    method Join(tx: nat)
      requires Valid() && notifications.Some? && tx in hub.boxes && tx !in joined && hub.boxes[tx].sent == []
      modifies this`joined, this`orphaned, clients, stats`clients
      ensures Valid() && joined == old(joined)[tx := |stats.recorded|] && clients.list == old(clients.list) + [tx]
      ensures !orphaned
    {
      hide FeedOk;
      JoiningKeepsFeeds(hub.boxes, stats.recorded, joined, clients.list, tx, farewells);
      joined, orphaned := joined[tx := |stats.recorded|], false;
      clients.Add(tx);
    }

    /** Whatever mix of polls, commands and reconnects came before: a frame that was used for
        anything is a contiguous, well-formed slice of the bytes of one subscription. */
    lemma {:induction false} EveryFrameIsASlice(k: nat) returns (start: nat)
      requires Valid() && k < |log|
      ensures log[k].sub < |subs|
      ensures var bytes := subs[log[k].sub].delivered;
              FrameAt(bytes, start) && log[k].frame == bytes[start..EndAt(bytes, start)]
    {
      hide Accounts;
      hide AllFeedsOk;
      hide MeasurementsOf;
      hide Codec.Carries;
      hide Parse;
      hide FrameAt;
      LoggedFrame(log, k);
      assert FramesOf(log, log[k].sub) + [] == FramesOf(log, log[k].sub);
      assert log[k].frame in subs[log[k].sub].yielded;
      start := FrameIsSlice(subs[log[k].sub].delivered, log[k].frame);
    }

    /** While nothing has been recorded and nobody was dismissed, only hanging up ends a feed. */
    lemma StillListed(id: nat)
      requires Valid() && log == [] && farewells == {} && id in joined
      ensures id in hub.boxes && (id in clients.list || hub.boxes[id].closed)
    {
      if id !in clients.list {
        var to: nat :| EndedAt(hub.boxes[id].sent, stats.recorded, joined[id], to);
        assert |hub.boxes[id].sent| <= 1;
      }
    }

    // ---------- The loop ----------

    /** No notification without a subscription, and no tick with nothing to poll for. */
    predicate Impossible(round: Round) {
      || (round.wake.Notified? && round.held.None?)
      || (round.wake.Tick? && !pollAlways && round.listed == [])
    }

    predicate Enabled(wake: Wake)
      reads this`notifications, clients
    {
      match wake
      case Tick(_) => WantsPoll()
      case Notified(_, _) => notifications.Some?
      case _ => true
    }

    /** One turn of the loop: what the select produced, acted on until done or abandoned. The
        next mailbox to be opened belongs to the request. */
    method Turn(wake: Wake) returns (flow: Flow, ghost answer: Answer)
      requires Valid() && Enabled(wake)
      modifies this, assembler, clients, hub, stats
      ensures Valid() && rounds == old(rounds) + [Round(wake, Some(flow), clients.list, notifications)]
      ensures forall r :: r in farewells ==> r in old(farewells) || Dismisses(wake, r)
      ensures match wake
              case ShutdownSignal => flow == Break && Untouched()
              case HandlesGone => flow == Break && Untouched()
              case Asked(request, io) => Handled(request, old(hub.next), io, flow, answer)
              case Notified(event, reconnect) => Heeded(event, reconnect, flow)
              case Tick(io) =>
                && ((Polled(io, flow) && Due(io)) || LeftUnpolled(flow))
                && log == old(log) && joined == old(joined) && (orphaned ==> old(orphaned))
                && (forall id :: id in clients.list ==> id in old(clients.list))
                && (flow == Continue ==>
                      !orphaned && (notifications.Some? || (!pollAlways && clients.list == []) || Aborted()))
    {
      hide ValidWith;
      hide Fed;
      hide AllForwarded;
      hide Asks;
      hide CameOut;
      hide Served;
      hide HeldAfter;
      hide CutOff;
      answer := Interrupted;
      match wake {
        case ShutdownSignal => flow := Break;
        case HandlesGone => flow := Break;
        case Asked(request, io) =>
          var tx := OpenMailbox();
          flow, answer := Handle(request, tx, io);
        case Tick(io) =>
          var next, polled := PollDevice(io);
          flow := next;
        case Notified(event, reconnect) =>
          flow := HandleNotification(event, reconnect);
      }
      NoteRound(Round(wake, Some(flow), clients.list, notifications));
    }

    twostate predicate Untouched()
      reads this, clients
    {
      && notifications == old(notifications) && subs == old(subs) && log == old(log) && written == old(written)
      && joined == old(joined) && farewells == old(farewells) && clients.list == old(clients.list)
    }

    ghost method NoteRound(round: Round)
      requires Valid()
      modifies this`rounds
      ensures Valid() && rounds == old(rounds) + [round]
    {
      hide Accounts;
      hide Parse;
      hide AllFeedsOk;
      hide MeasurementsOf;
      hide Codec.Carries;
      hide OneOwner;
      hide NoSplicing;
      rounds := rounds + [round];
    }

    /** A wake the select cannot produce now. */
    ghost method Skip(wake: Wake)
      requires Valid() && !Enabled(wake)
      modifies this`rounds
      ensures Valid() && rounds == old(rounds) + [Round(wake, None, clients.list, notifications)]
    {
      hide ValidWith;
      NoteRound(Round(wake, None, clients.list, notifications));
    }

    /** The connection handler's side of a request: a channel of its own. */
    method OpenMailbox() returns (tx: nat)
      requires Valid()
      modifies hub
      ensures Valid() && tx == old(hub.next) && tx in hub.boxes && tx !in joined && hub.boxes[tx].sent == []
    {
      hide FeedOk;
      tx := hub.Open();
      AnsweringKeepsFeeds(old(hub.boxes), hub.boxes, stats.recorded, joined, clients.list, tx, farewells);
    }

    /** Any finite run of the loop, one round for each wake. It is left exactly when a round breaks,
        and nothing is acted on after. Then the list is emptied, the count is zero, and whoever was
        listed in that round is told that the stream has ended. Everyone who ever subscribed had
        hung up, or let the queue fill, or got a farewell there was cause for as the last message. */
    method Loop(wakes: seq<Wake>) returns (exited: bool)
      requires Valid()
      modifies this, assembler, clients, hub, stats
      ensures Valid() && old(rounds) <= rounds && WakesOf(rounds[|old(rounds)|..]) <= wakes
      ensures forall k :: |old(rounds)| <= k < |rounds| - 1 ==> rounds[k].flow != Some(Break)
      ensures forall k :: |old(rounds)| <= k < |rounds| && rounds[k].flow.None? ==> Impossible(rounds[k])
      ensures exited <==> |rounds| > |old(rounds)| && rounds[|rounds| - 1].flow == Some(Break)
      ensures !exited ==> WakesOf(rounds[|old(rounds)|..]) == wakes
      ensures exited ==> clients.list == [] && stats.clients == 0
      ensures exited ==> forall id :: id in rounds[|rounds| - 1].listed ==>
                                        id in hub.boxes && Told(hub.boxes[id], StreamEnd)
      ensures exited ==> forall id :: id in joined ==> id in hub.boxes && Excused(hub.boxes[id], farewells)
      ensures forall r :: r in farewells ==>
                            || r in old(farewells)
                            || (exited && r == StreamEnd)
                            || exists w :: w in wakes && Dismisses(w, r)
    {
      hide ValidWith;
      hide Handled;
      hide Heeded;
      hide Polled;
      hide LeftUnpolled;
      hide Untouched;
      hide Dismisses;
      hide Excused;
      hide Told;
      exited := false;
      assert WakesOf(rounds[|rounds|..]) == wakes[..0];
      for i := 0 to |wakes|
        invariant Valid() && !exited
        invariant old(rounds) <= rounds && WakesOf(rounds[|old(rounds)|..]) == wakes[..i]
        invariant forall k :: |old(rounds)| <= k < |rounds| ==> rounds[k].flow != Some(Break)
        invariant forall k :: |old(rounds)| <= k < |rounds| && rounds[k].flow.None? ==> Impossible(rounds[k])
        invariant forall r :: r in farewells ==> r in old(farewells) || exists w :: w in wakes && Dismisses(w, r)
      {
        assert wakes[..i + 1] == wakes[..i] + [wakes[i]];
        ghost var earlier := rounds[|old(rounds)|..];
        if Enabled(wakes[i]) {
          var flow, answer := Turn(wakes[i]);
          assert rounds[|old(rounds)|..] == earlier + [rounds[|rounds| - 1]];
          WakesSnoc(earlier, rounds[|rounds| - 1]);
          if flow == Break {
            EndStreams();
            exited := true;
            return;
          }
        } else {
          Skip(wakes[i]);
          assert rounds[|old(rounds)|..] == earlier + [rounds[|rounds| - 1]];
          WakesSnoc(earlier, rounds[|rounds| - 1]);
        }
      }
      assert wakes[..|wakes|] == wakes;
    }

    method EndStreams()
      requires Valid()
      modifies this`farewells, clients, hub`boxes, stats`clients
      ensures Valid() && clients.list == [] && stats.clients == 0 && hub.boxes.Keys == old(hub.boxes).Keys
      ensures farewells == old(farewells) + {StreamEnd}
      ensures forall id :: id in old(clients.list) ==>
                                exists taken :: Offered(old(hub.boxes)[id], hub.boxes[id], StreamEnd, taken)
      ensures forall id :: id in old(clients.list) ==> id in hub.boxes && Told(hub.boxes[id], StreamEnd)
      ensures forall id :: id in joined ==> id in hub.boxes && Excused(hub.boxes[id], farewells)
    {
      hide Accounts;
      hide Parse;
      hide AllFeedsOk;
      hide Excused;
      hide Offered;
      hide MeasurementsOf;
      hide Codec.Carries;
      hide FramesOf;
      clients.End();
      DismissingKeepsFeeds(old(hub.boxes), hub.boxes, stats.recorded, joined, old(clients.list), StreamEnd, farewells);
      farewells := farewells + {StreamEnd};
    }
  }

  /** The first client subscribes, and taking out the subscription succeeds. */
  method FirstSubscriber(actor: Actor) returns (id: nat)
    requires actor.Valid() && actor.notifications.None? && actor.log == [] && actor.farewells == {}
    modifies actor, actor.assembler, actor.clients, actor.hub, actor.stats
    ensures actor.Valid() && actor.notifications.Some? && actor.log == [] && actor.farewells == {}
    ensures id == old(actor.hub.next) && id in actor.joined
  {
    hide Actor.ValidWith;
    hide Asks;
    hide StartsFrom;
    id := actor.hub.next;
    var flow, answer := actor.Turn(Asked(Subscribe, CommandIo(Done, Wrote(false), Done, [], Timeout)));
  }

  /** A command has to reconnect, which ends the subscription held, and renewing it fails. */
  method FailToRenew(actor: Actor)
    requires actor.Valid() && actor.notifications.Some? && actor.log == [] && actor.farewells == {}
    modifies actor, actor.assembler, actor.clients, actor.hub, actor.stats
    ensures actor.Valid() && actor.notifications.None? && actor.log == [] && actor.farewells == {}
    ensures actor.joined == old(actor.joined)
  {
    hide Actor.ValidWith;
    hide Asks;
    hide StartsFrom;
    hide ReplyTo;
    hide Delivered;
    var flow, answer := actor.Turn(Asked(TestLed, CommandIo(Done, Wrote(true), Failed, [], Timeout)));
  }

  /** How a listed client comes to be without a subscription. Unless it hangs up itself, it stays on
      the list, and until the next poll nothing is read for it. */
  method LoseSubscription(calendar: Calendar) returns (actor: Actor, id: nat)
    ensures actor.Valid() && actor.notifications.None?
    ensures id in actor.hub.boxes && (id in actor.clients.list || actor.hub.boxes[id].closed)
  {
    hide Actor.Valid;
    var hub := new Hub();
    var stats := new AgentStats(SECOND);
    actor := new Actor(hub, stats, false, calendar);
    id := FirstSubscriber(actor);
    FailToRenew(actor);
    actor.StillListed(id);
  }

  lemma {:induction false} LoggedFrame(log: seq<Entry>, k: nat)
    requires k < |log|
    ensures log[k].frame in FramesOf(log, log[k].sub)
    decreases |log|
  {
    if k < |log| - 1 {
      LoggedFrame(log[..|log| - 1], k);
    }
  }

  lemma {:induction false} NothingFrom(log: seq<Entry>, sub: nat)
    requires forall k :: 0 <= k < |log| ==> log[k].sub < sub
    ensures FramesOf(log, sub) == []
    decreases |log|
  {
    if log != [] {
      NothingFrom(log[..|log| - 1], sub);
    }
  }
}
