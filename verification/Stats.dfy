/** The agent's counters, and the freshness verdict on its latest reading. */
module Stats {

  import opened Options
  import opened Protocol
  import opened Assembler

  datatype Stamped = Stamped(measurement: Measurement, at: nat)

  // Durations are in nanoseconds.
  const SECOND: nat := 1_000_000_000
  const MIN_INTERVAL: nat := 10_000_000
  const MAX_INTERVAL: nat := 24 * 60 * 60 * SECOND
  const MIN_FRESHNESS: nat := 5 * SECOND
  const STALE_AFTER_INTERVALS: nat := 3
  /** The longest duration there is: 64 bits of seconds, and the nanoseconds of one more. */
  const MAX_DURATION: nat := 0x1_0000_0000_0000_0000 * SECOND - 1

  predicate AcceptedInterval(interval: nat) {
    MIN_INTERVAL <= interval <= MAX_INTERVAL
  }

  /** Multiplying a duration panics when the product is too long for one. */
  function Times(d: nat, n: nat): Option<nat> {
    if d * n <= MAX_DURATION then Some(d * n) else None
  }

  /** The freshness window: a reading older than this no longer counts as current. */
  function StaleAfter(interval: nat): nat {
    if interval * STALE_AFTER_INTERVALS < MIN_FRESHNESS then MIN_FRESHNESS else interval * STALE_AFTER_INTERVALS
  }

  /** From ten milliseconds to a day, the bounds on the interval keep the window from panicking, and
      one poll in two may be lost before a reading goes stale. Without an upper bound the window
      would panic. */
  lemma WindowIsSafe(interval: nat)
    ensures AcceptedInterval(interval) <==> 10_000_000 <= interval <= 86_400_000_000_000
    ensures AcceptedInterval(interval) ==>
              && Times(interval, STALE_AFTER_INTERVALS) == Some(3 * interval)
              && 5_000_000_000 <= StaleAfter(interval) <= 259_200_000_000_000
              && 2 * interval < StaleAfter(interval)
    ensures Times(interval, STALE_AFTER_INTERVALS) == None <==> interval > MAX_DURATION / 3
  {
    assert interval > MAX_DURATION / 3 <==> interval * 3 > MAX_DURATION;
  }

  /** No older than three intervals, or than five seconds, whichever is the longer. */
  predicate InWindow(age: int, interval: nat) {
    age <= 3 * interval || age <= 5_000_000_000
  }

  lemma WindowInNumbers(age: int, interval: nat)
    ensures age <= StaleAfter(interval) <==> InWindow(age, interval)
  {
  }

  predicate Young(sample: Option<Stamped>, now: nat, interval: nat) {
    sample.Some? && InWindow(now - sample.value.at, interval)
  }

  class AgentStats {
    const interval: nat
    var connected: bool
    var samples: nat
    var reconnects: nat
    var clients: nat
    var latest: Option<Stamped>
    /** Every measurement recorded so far, in order. */
    ghost var recorded: seq<Measurement>

    ghost predicate Valid()
      reads this
    {
      && samples == |recorded|
      && (latest.None? <==> recorded == [])
      && (latest.Some? ==> latest.value.measurement == recorded[|recorded| - 1])
    }

    constructor (interval: nat)
      ensures Valid() && this.interval == interval
      ensures recorded == [] && !connected && reconnects == 0 && clients == 0
    {
      this.interval := interval;
      connected, samples, reconnects, clients := false, 0, 0, 0;
      latest, recorded := None, [];
    }

    method RecordSample(m: Measurement, now: nat)
      requires Valid()
      modifies this
      ensures Valid() && recorded == old(recorded) + [m] && connected
      ensures latest == Some(Stamped(m, now))
      ensures reconnects == old(reconnects) && clients == old(clients)
    {
      samples := samples + 1;
      connected := true;
      latest := Some(Stamped(m, now));
      recorded := recorded + [m];
    }

    method SetConnected(up: bool)
      modifies this`connected
      ensures connected == up
    {
      connected := up;
    }

    method RecordReconnect()
      modifies this`reconnects, this`connected
      ensures reconnects == old(reconnects) + 1 && connected
    {
      reconnects := reconnects + 1;
      connected := true;
    }

    /** A reading nobody interferes with: the last recorded measurement, fresh when the link is
        up and it arrived within the window. */
    method Reading(now: nat) returns (measurement: Option<Measurement>, isFresh: bool)
      requires Valid()
      ensures measurement == if recorded == [] then None else Some(recorded[|recorded| - 1])
      ensures isFresh <==>
              && connected && latest.Some?
              && (now - latest.value.at <= 3 * interval || now - latest.value.at <= 5_000_000_000)
    {
      if latest.Some? { WindowInNumbers(now - latest.value.at, interval); }
      var stamped := latest;
      match stamped
      case None => return None, false;
      case Some(s) => return Some(s.measurement), connected && now - s.at <= StaleAfter(interval);
    }

    method SetClients(n: nat)
      modifies this`clients
      ensures clients == n
    {
      clients := n;
    }
  }
}
