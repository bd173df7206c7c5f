/** The consumer end of a stream: the connection handler copies a client's channel to its
    socket, the client reads lines, and the renderer stops after `--count` samples. */
module Streaming {

  import opened Options
  import opened Crc
  import opened Frames
  import opened Assembler
  import opened Protocol
  import opened Mailboxes
  import opened Feeds
  import Agent = Actor

  // ---------- The connection handler ----------

  /** What the handler writes for the messages it receives, if no write fails. */
  function Relayed(messages: seq<Response>): (r: seq<Response>)
    ensures r <= messages
  {
    if messages == [] then []
    else if messages[0].Sample? then [messages[0]] + Relayed(messages[1..])
    else [messages[0]]
  }

  lemma RelayedStep(done: seq<Response>, rest: seq<Response>)
    requires rest != []
    ensures done + Relayed(rest) == done + [rest[0]] + (if rest[0].Sample? then Relayed(rest[1..]) else [])
  {
  }

  /** Copy messages until one is not a sample, or a write fails; `failing` is the number of
      writes that succeed before one fails. */
  method Relay(messages: seq<Response>, failing: nat) returns (written: seq<Response>)
    ensures written <= Relayed(messages)
    ensures |written| <= failing && (|written| < failing ==> written == Relayed(messages))
  {
    written := [];
    for i := 0 to |messages|
      invariant |written| == i <= failing
      invariant Relayed(messages) == written + Relayed(messages[i..])
    {
      hide Relayed;
      RelayedStep(written, messages[i..]);
      assert messages[i..][1..] == messages[i + 1..];
      if |written| == failing {
        return;
      }
      written := written + [messages[i]];
      if !messages[i].Sample? {
        return;
      }
    }
  }

  // ---------- The renderer ----------

  class StreamRenderer {
    var samples: nat
    const count: Option<nat>
    ghost var rendered: seq<Measurement>

    ghost predicate Valid()
      reads this
    {
      samples == |rendered|
    }

    constructor (count: Option<nat>)
      ensures Valid() && this.count == count && rendered == []
    {
      samples, this.count, rendered := 0, count, [];
    }

    /** Render one measurement; true once `count` have been seen. */
    method Record(m: Measurement) returns (stop: bool)
      requires Valid()
      modifies this
      ensures Valid() && rendered == old(rendered) + [m]
      ensures stop <==> count.Some? && |rendered| >= count.value
    {
      rendered := rendered + [m];
      samples := samples + 1;
      stop := count.Some? && samples >= count.value;
    }
  }

  // ---------- The client ----------

  /** A line read from the socket: a message, or bytes that do not parse as one. */
  datatype Line = Message(response: Response) | Garbled

  datatype Finish = Satisfied | StreamEnded | AgentError(reason: Reason) | AgentClosed | BadMessage | Deadline

  function SamplesIn(lines: seq<Line>): seq<Measurement> {
    if lines == [] then []
    else
      var last := lines[|lines| - 1];
      SamplesIn(lines[..|lines| - 1])
      + (if last.Message? && last.response.Sample? then [last.response.measurement] else [])
  }

  lemma NoSamples()
    ensures SamplesIn([]) == []
  {
  }

  lemma SamplesSnoc(lines: seq<Line>, last: Line)
    ensures SamplesIn(lines + [last])
         == SamplesIn(lines) + (if last.Message? && last.response.Sample? then [last.response.measurement] else [])
  {
    assert (lines + [last])[..|lines|] == lines;
  }

  /** Read lines until the renderer is satisfied or the stream is over. `deadline` is the
      number of lines that arrive before `--duration` or Ctrl-C ends the run, if it does;
      after the last line the socket reads as closed. */
  method Execute(lines: seq<Line>, deadline: Option<nat>, renderer: StreamRenderer)
    returns (finish: Finish, ghost read: nat)
    requires renderer.Valid()
    modifies renderer
    ensures renderer.Valid() && read <= |lines|
    ensures renderer.rendered == old(renderer.rendered) + SamplesIn(lines[..read])
    ensures match finish
            case Satisfied => read > 0 && lines[read - 1].Message? && lines[read - 1].response.Sample?
                              && renderer.count.Some? && |renderer.rendered| >= renderer.count.value
            case StreamEnded => read > 0 && lines[read - 1] == Message(StreamEnd)
            case AgentError(reason) => read > 0 && lines[read - 1] == Message(Error(reason))
            case AgentClosed => read == |lines| && deadline != Some(read)
            case BadMessage => read > 0 && lines[read - 1].Garbled?
            case Deadline => deadline == Some(read)
    ensures deadline.Some? ==> read <= deadline.value
    ensures forall k :: 0 <= k < read - 1 ==> lines[k].Message? && !Terminal(lines[k].response)
    ensures finish in {AgentClosed, Deadline} && read > 0 ==>
              lines[read - 1].Message? && !Terminal(lines[read - 1].response)
    ensures finish != Satisfied && renderer.count.Some? && |old(renderer.rendered)| < renderer.count.value ==>
              |renderer.rendered| < renderer.count.value
    ensures renderer.count.Some? && |old(renderer.rendered)| < renderer.count.value ==>
              |renderer.rendered| <= renderer.count.value
  {
    hide SamplesIn;
    read := 0;
    var i := 0;
    assert lines[..0] == [];
    NoSamples();
    while true
      invariant i == read <= |lines| && renderer.Valid()
      invariant deadline.Some? ==> read <= deadline.value
      invariant renderer.rendered == old(renderer.rendered) + SamplesIn(lines[..read])
      invariant forall k :: 0 <= k < read ==> lines[k].Message? && !Terminal(lines[k].response)
      invariant renderer.count.Some? && |old(renderer.rendered)| < renderer.count.value ==>
                  |renderer.rendered| < renderer.count.value
      decreases |lines| - i
    {
      if deadline == Some(i) {
        return Deadline, read;
      }
      if i == |lines| {
        return AgentClosed, read;
      }
      var line := lines[i];
      assert lines[..i + 1] == lines[..i] + [line];
      SamplesSnoc(lines[..i], line);
      i, read := i + 1, read + 1;
      match line {
        case Garbled => return BadMessage, read;
        case Message(Error(reason)) => return AgentError(reason), read;
        case Message(StreamEnd) => return StreamEnded, read;
        case Message(Sample(m)) =>
          var stop := renderer.Record(m);
          if stop {
            return Satisfied, read;
          }
        case Message(_) =>
      }
    }
  }

  // ---------- End to end ----------

  function Lines(messages: seq<Response>): (r: seq<Line>)
    ensures |r| == |messages|
  {
    seq(|messages|, i requires 0 <= i < |messages| => Message(messages[i]))
  }

  lemma {:induction false} SamplesOfRun(ms: seq<Measurement>)
    ensures SamplesIn(Lines(Samples(ms))) == ms
    decreases |ms|
  {
    if ms != [] {
      var front := ms[..|ms| - 1];
      SamplesOfRun(front);
      assert Lines(Samples(ms))[..|ms| - 1] == Lines(Samples(front));
      assert ms == front + [ms[|ms| - 1]];
    }
  }

  ghost predicate Shows(sent: seq<Response>, recorded: seq<Measurement>, from: nat, k: nat)
    requires k <= |sent|
  {
    var shown := SamplesIn(Lines(sent[..k]));
    && from + |shown| <= |recorded| && shown == recorded[from..from + |shown|]
    && ((forall i :: 0 <= i < k ==> sent[i].Sample?) ==> |shown| == k)
  }

  /** Any prefix of a subscriber's feed shows the samples recorded from its joining on. */
  lemma {:induction false} PrefixOfFeed(sent: seq<Response>, recorded: seq<Measurement>, from: nat, listed: bool,
                                       k: nat)
    requires FeedOk(sent, recorded, from, listed) && k <= |sent|
    ensures Shows(sent, recorded, from, k)
  {
    if listed {
      assert recorded[from..] == recorded[from..|recorded|];
      RunShows(sent, recorded, from, |recorded|, k);
    } else {
      var to: nat :| EndedAt(sent, recorded, from, to);
      EndedShows(sent, recorded, from, to, k);
    }
  }

  lemma EndedShows(sent: seq<Response>, recorded: seq<Measurement>, from: nat, to: nat, k: nat)
    requires from <= |recorded| && EndedAt(sent, recorded, from, to) && k <= |sent|
    ensures Shows(sent, recorded, from, k)
  {
    hide SamplesIn;
    hide Samples;
    var n := to - from;
    if k <= n {
      assert sent[..n] == Samples(recorded[from..to]) by {
        assert sent == Samples(recorded[from..to]) ==> sent[..n] == sent;
      }
      assert sent[..k] == sent[..n][..k];
      RunShows(sent, recorded, from, to, k);
    } else {
      RunShows(sent, recorded, from, to, n);
      assert sent[..k] == sent[..n] + [sent[n]];
      TerminalShowsNothing(sent[..n], sent[n]);
      assert !sent[n].Sample?;
    }
  }

  lemma {:induction false} RunShows(sent: seq<Response>, recorded: seq<Measurement>, from: nat, to: nat, k: nat)
    requires from + k <= to <= |recorded| && k <= |sent|
    requires sent[..k] == Samples(recorded[from..to])[..k]
    ensures SamplesIn(Lines(sent[..k])) == recorded[from..from + k]
  {
    assert sent[..k] == Samples(recorded[from..from + k]);
    SamplesOfRun(recorded[from..from + k]);
  }

  lemma {:induction false} TerminalShowsNothing(messages: seq<Response>, last: Response)
    requires !last.Sample?
    ensures SamplesIn(Lines(messages + [last])) == SamplesIn(Lines(messages))
  {
    assert Lines(messages + [last])[..|messages|] == Lines(messages);
  }

  /** What the client gets of a subscriber's messages: samples, and perhaps one farewell. */
  datatype Intake = Intake(samples: nat, farewell: Option<Response>)

  /** The first `n` messages of a feed. */
  function IntakeOf(sent: seq<Response>, n: nat): Intake
    requires n <= |sent|
  {
    if n > 0 && !sent[n - 1].Sample? then Intake(n - 1, Some(sent[n - 1])) else Intake(n, None)
  }

  /** How a run has to end, and how many samples it has to show. The count comes before a deadline
      at the same sample, a deadline before the farewell, and the farewell before the end of file. */
  function Ending(intake: Intake, deadline: Option<nat>, count: Option<nat>): (Finish, nat) {
    if count.Some? && count.value <= intake.samples && (deadline.Some? ==> count.value <= deadline.value)
    then (Satisfied, count.value)
    else if deadline.Some? && deadline.value <= intake.samples then (Deadline, deadline.value)
    else
      match intake.farewell
      case None => (AgentClosed, intake.samples)
      case Some(Error(reason)) => (AgentError(reason), intake.samples)
      case Some(_) => (StreamEnded, intake.samples)
  }

  /** A run of `--count n` through the agent renders exactly the first n samples recorded after
      the subscription, or as many as come before the one thing that ends it sooner. `received`
      of the messages in the channel reach the handler, and `failing` of them the socket. */
  method CountThroughAgent(sent: seq<Response>, ghost recorded: seq<Measurement>, ghost from: nat, ghost listed: bool,
                           received: nat, failing: nat, deadline: Option<nat>, count: Option<nat>)
    returns (finish: Finish, ghost rendered: seq<Measurement>)
    requires FeedOk(sent, recorded, from, listed) && received <= |sent|
    requires count.Some? ==> count.value > 0
    ensures from + |rendered| <= |recorded| && rendered == recorded[from..from + |rendered|]
    ensures (finish, |rendered|)
         == Ending(IntakeOf(sent, if failing < received then failing else received), deadline, count)
    ensures finish == Satisfied <==> count.Some? && |rendered| == count.value
    ensures finish == StreamEnded || finish.AgentError? ==> !listed && received == |sent| && |rendered| == |sent| - 1
  {
    hide FeedOk;
    hide SamplesIn;
    hide Relayed;
    OnlyTheLast(sent, recorded, from, listed);
    var written := Relay(sent[..received], failing);
    RelayedAll(sent[..received]);
    ghost var n := if failing < received then failing else received;
    assert written == sent[..n];
    var renderer := new StreamRenderer(count);
    ghost var read;
    finish, read := Execute(Lines(written), deadline, renderer);
    rendered := renderer.rendered;
    assert Lines(written)[..read] == Lines(sent[..read]);
    assert [] + SamplesIn(Lines(sent[..read])) == SamplesIn(Lines(sent[..read]));
    ShownBy(sent, recorded, from, listed, read);
  }

  /** The same for any subscriber of an agent, whatever the agent has been through. */
  method CountSubscriber(actor: Agent.Actor, id: nat, received: nat, failing: nat, deadline: Option<nat>,
                         count: Option<nat>)
    returns (finish: Finish, ghost rendered: seq<Measurement>)
    requires actor.Valid() && id in actor.joined
    requires received <= |actor.hub.boxes[id].sent| && (count.Some? ==> count.value > 0)
    ensures var from := actor.joined[id];
            && from + |rendered| <= |actor.stats.recorded|
            && rendered == actor.stats.recorded[from..from + |rendered|]
    ensures (finish, |rendered|)
         == Ending(IntakeOf(actor.hub.boxes[id].sent, if failing < received then failing else received),
                   deadline, count)
  {
    hide FeedOk;
    finish, rendered := CountThroughAgent(actor.hub.boxes[id].sent, actor.stats.recorded, actor.joined[id],
                                          id in actor.clients.list, received, failing, deadline, count);
  }

  /** The samples that the first k messages show: all of them but a farewell. */
  lemma ShownBy(sent: seq<Response>, recorded: seq<Measurement>, from: nat, listed: bool, k: nat)
    requires FeedOk(sent, recorded, from, listed) && k <= |sent|
    ensures var shown := SamplesIn(Lines(sent[..k]));
            && from + |shown| <= |recorded| && shown == recorded[from..from + |shown|]
            && |shown| == IntakeOf(sent, k).samples
  {
    hide FeedOk;
    hide SamplesIn;
    OnlyTheLast(sent, recorded, from, listed);
    PrefixOfFeed(sent, recorded, from, listed, k);
    if k > 0 && !sent[k - 1].Sample? {
      PrefixOfFeed(sent, recorded, from, listed, k - 1);
      assert sent[..k] == sent[..k - 1] + [sent[k - 1]];
      TerminalShowsNothing(sent[..k - 1], sent[k - 1]);
    }
  }

  /** Only the last message of a feed can be other than a sample, and then the client has left. */
  lemma {:induction false} OnlyTheLast(sent: seq<Response>, recorded: seq<Measurement>, from: nat, listed: bool)
    requires FeedOk(sent, recorded, from, listed)
    ensures forall i :: 0 <= i < |sent| && !sent[i].Sample? ==> !listed && i == |sent| - 1 && Terminal(sent[i])
  {
    if !listed {
      var to: nat :| EndedAt(sent, recorded, from, to);
      assert sent[..to - from] == Samples(recorded[from..to]);
      forall i | 0 <= i < to - from ensures sent[i].Sample? {
        assert sent[i] == sent[..to - from][i];
      }
    }
  }

  lemma {:induction false} RelayedAll(messages: seq<Response>)
    requires forall i :: 0 <= i < |messages| - 1 ==> messages[i].Sample?
    ensures Relayed(messages) == messages
    decreases |messages|
  {
    if messages != [] && messages[0].Sample? {
      RelayedAll(messages[1..]);
    }
  }
}
