/** The messages between agent and client, and what the connection handler answers itself. */
module Protocol {

  import opened Options
  import opened Crc
  import opened Frames
  import opened Assembler

  /** A measurement is opaque: the bytes of its readings and of its timestamp. */
  datatype Measurement = Measurement(readings: seq<Byte>, timestamp: seq<Byte>)

  /** Which timestamps the calendar accepts; a parameter of the model. */
  type Calendar = seq<Byte> -> bool

  /** A frame reads as a measurement when it is long enough and its date exists. */
  function ReadMeasure(frame: Frame, calendar: Calendar): Option<Measurement> {
    if |frame| < MEASUREMENT_FRAME_MIN_LEN then None
    else if !calendar(frame[23..29]) then None
    else Some(Measurement(frame[5..23], frame[23..29]))
  }

  /** The status byte of a command reply. */
  function CommandStatus(frame: Frame): Option<Byte> {
    if |frame| > 4 then Some(frame[4]) else None
  }

  datatype Reason =
    | InvalidRequest | ActorGone | AgentShuttingDown
    | ListenFailed | WriteFailed | NoStream | StreamClosed | TimedOut
    | MeasurementWriteFailed | ReconnectFailed
    | GetRtcFailed | TooShort | InvalidTime

  datatype Response =
    | Ok
    | Pong
    | Error(reason: Reason)
    | Sample(measurement: Measurement)
    | CommandResult(code: Byte)
    | StreamEnd

  /** The date and time that set the clock, one byte each. */
  type ClockFields = f: seq<Byte> | |f| == 7 witness [0, 0, 0, 0, 0, 0, 0]

  /** `SetRtc` carries what the time converts to, or nothing when the time is unparsable or
      outside what the wire can carry. */
  datatype Request =
    | SetRtc(fields: Option<ClockFields>)
    | GetRtc
    | Power(on: bool)
    | TestLed
    | Subscribe
    | Ping
    | Shutdown

  function ControlResponse(request: Request, actorGone: bool): Option<Response> {
    match request
    case Ping => Some(if actorGone then Error(ActorGone) else Pong)
    case Shutdown => Some(Ok)
    case _ => None
  }

  function ParseCommandResult(frame: Frame): Response {
    match CommandStatus(frame)
    case Some(code) => CommandResult(code)
    case None => Error(TooShort)
  }

  /** What a measurement carries: the third to the twentieth payload byte are the readings, the six
      after them the date. */
  lemma MeasurementLayout(frame: Frame, calendar: Calendar)
    requires WellFormed(frame)
    ensures var payload := PayloadOf(frame);
            ReadMeasure(frame, calendar) ==
              if |payload| >= 26 && calendar(payload[20..26])
              then Some(Measurement(payload[2..20], payload[20..26])) else None
  {
    hide Crc8;
    hide FromBigEndian;
    if |frame| >= 30 {
      SliceOfSlice(frame, 3, |frame| - 1, 20, 26);
      SliceOfSlice(frame, 3, |frame| - 1, 2, 20);
    }
  }

  lemma SliceOfSlice(s: seq<Byte>, a: nat, b: nat, i: nat, j: nat)
    requires i <= j <= b - a && b <= |s|
    ensures s[a..b][i..j] == s[a + i..a + j]
  {
    var middle := s[a..b];
    assert forall k :: 0 <= k < |middle| ==> middle[k] == s[a + k];
    forall k | 0 <= k < j - i ensures middle[i..j][k] == s[a + i..a + j][k] {
      assert middle[i..j][k] == middle[i + k];
    }
  }

  /** What a reply carries: the second payload byte is the status. A reply of one payload byte has
      none, and its checksum is read for it; one without a payload is too short. */
  lemma StatusLayout(frame: Frame)
    requires WellFormed(frame)
    ensures var payload := PayloadOf(frame);
            ParseCommandResult(frame) ==
              if |payload| >= 2 then CommandResult(payload[1])
              else if |payload| == 1 then CommandResult(Crc8(payload))
              else Error(TooShort)
  {
    hide Crc8;
    hide FromBigEndian;
  }

  /** The connection handler pongs while there is an actor, and grants a shutdown. */
  lemma HandlerAnswers(request: Request, actorGone: bool)
    ensures ControlResponse(request, actorGone) ==
              if request == Shutdown then Some(Ok)
              else if request != Ping then None
              else if actorGone then Some(Error(ActorGone)) else Some(Pong)
  {
  }
}
