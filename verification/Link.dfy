/** The retry loops over the BLE link. The radio is an oracle: `radio(t)` is whether the t-th
    operation on it succeeds. Each call is specified by the journal of operations it leaves. */
module Link {

  const WRITE_RETRIES := 5
  const CONNECT_RETRIES := 5

  type Radio = nat -> bool

  /** One operation and its outcome. Waiting ends with the awaited frame, or with the end of the
      notification stream. */
  datatype IoEvent =
    | WriteIo(ok: bool)
    | ConnectIo(ok: bool)
    | DiscoverIo(ok: bool)
    | CharacteristicsIo(found: bool)
    | ListenIo(ok: bool)
    | WaitIo(found: bool)

  type Journal = seq<IoEvent>

  datatype WriteResult = Written(reconnected: bool) | WriteError
  datatype OneshotResult = Answered | Failed | TimedOut

  // ---------- What each call performs ----------

  /** One attempt: connect, then discover the services. A failed discovery leaves a connection
      that came about and is of no use. */
  function Dial(radio: Radio, log: Journal): (bool, Journal) {
    var log1 := log + [ConnectIo(radio(|log|))];
    if radio(|log|) then (radio(|log1|), log1 + [DiscoverIo(radio(|log1|))]) else (false, log1)
  }

  function Establish(radio: Radio, log: Journal, attempt: nat): (bool, Journal)
    decreases CONNECT_RETRIES - attempt
  {
    var (ok, log1) := Dial(radio, log);
    if ok then (radio(|log1|), log1 + [CharacteristicsIo(radio(|log1|))])
    else if attempt < CONNECT_RETRIES then Establish(radio, log1, attempt + 1)
    else (false, log1)
  }

  function Write(radio: Radio, log: Journal, attempt: nat, reconnected: bool): (WriteResult, Journal)
    decreases WRITE_RETRIES - attempt
  {
    var ok := radio(|log|);
    var log1 := log + [WriteIo(ok)];
    if ok then (Written(reconnected), log1)
    else if attempt < WRITE_RETRIES then
      var (up, log2) := Establish(radio, log1, 1);
      Write(radio, log2, attempt + 1, reconnected || up)
    else (WriteError, log1)
  }

  function Listen(radio: Radio, log: Journal): (bool, Journal) {
    (radio(|log|), log + [ListenIo(radio(|log|))])
  }

  /** A write, followed by a new subscription when it reconnected; whether one can wait now. */
  function WriteAndRenew(radio: Radio, log: Journal): (bool, Journal) {
    var (r, log1) := Write(radio, log, 1, false);
    match r
    case WriteError => (false, log1)
    case Written(false) => (true, log1)
    case Written(true) => Listen(radio, log1)
  }

  function ReconnectStream(radio: Radio, log: Journal): (bool, Journal) {
    var (up, log1) := Establish(radio, log, 1);
    if up then Listen(radio, log1) else (false, log1)
  }

  /** Wait for the reply; when the stream ends instead, reconnect and write again. `rounds`
      is how often that happens before the timeout. */
  function AwaitReply(radio: Radio, log: Journal, rounds: nat): (OneshotResult, Journal)
    decreases rounds
  {
    var found := radio(|log|);
    var log1 := log + [WaitIo(found)];
    if found then (Answered, log1)
    else if rounds == 0 then (TimedOut, log1)
    else
      var (up, log2) := ReconnectStream(radio, log1);
      if !up then (Failed, log2)
      else
        var (ready, log3) := WriteAndRenew(radio, log2);
        if !ready then (Failed, log3) else AwaitReply(radio, log3, rounds - 1)
  }

  function Oneshot(radio: Radio, log: Journal, rounds: nat): (OneshotResult, Journal) {
    var (listening, log1) := Listen(radio, log);
    if !listening then (Failed, log1)
    else
      var (ready, log2) := WriteAndRenew(radio, log1);
      if !ready then (Failed, log2) else AwaitReply(radio, log2, rounds)
  }

  // ---------- The loops ----------

  class Connection {
    const radio: Radio
    /** Operations performed so far, and their outcomes. */
    var t: nat
    ghost var log: Journal

    ghost predicate Valid()
      reads this
    {
      t == |log|
    }

    constructor (radio: Radio)
      ensures Valid() && this.radio == radio && log == []
    {
      this.radio, t, log := radio, 0, [];
    }

    /** Perform the next operation; `event` is how it is noted for each outcome. */
    method Try(ghost success: IoEvent, ghost failure: IoEvent) returns (ok: bool)
      requires Valid()
      modifies this
      ensures Valid() && ok == radio(|old(log)|) && log == old(log) + [if ok then success else failure]
    {
      ok := radio(t);
      t := t + 1;
      log := log + [if ok then success else failure];
    }

    method ConnectOnce() returns (ok: bool)
      requires Valid()
      modifies this
      ensures Valid() && (ok, log) == Dial(radio, old(log))
    {
      ok := Try(ConnectIo(true), ConnectIo(false));
      if ok {
        ok := Try(DiscoverIo(true), DiscoverIo(false));
      }
    }

    /** Establish the link: connect, with retries, then look the characteristics up. */
    method Connect() returns (up: bool)
      requires Valid()
      modifies this
      ensures Valid() && (up, log) == Establish(radio, old(log), 1)
    {
      var attempt := 1;
      while true
        invariant Valid() && 1 <= attempt <= CONNECT_RETRIES
        invariant Establish(radio, log, attempt) == Establish(radio, old(log), 1)
        decreases CONNECT_RETRIES - attempt
      {
        var ok := ConnectOnce();
        if ok {
          break;
        }
        if attempt == CONNECT_RETRIES {
          return false;
        }
        attempt := attempt + 1;
      }
      up := Try(CharacteristicsIo(true), CharacteristicsIo(false));
    }

    method Subscribe() returns (ok: bool)
      requires Valid()
      modifies this
      ensures Valid() && (ok, log) == Listen(radio, old(log))
    {
      ok := Try(ListenIo(true), ListenIo(false));
    }

    /** Write, reconnecting on failure; the result says whether a reconnect was completed. */
    method WritePayload() returns (r: WriteResult)
      requires Valid()
      modifies this
      ensures Valid() && (r, log) == Write(radio, old(log), 1, false)
    {
      hide Establish;
      var reconnected, attempt := false, 1;
      while true
        invariant Valid() && 1 <= attempt <= WRITE_RETRIES
        invariant Write(radio, log, attempt, reconnected) == Write(radio, old(log), 1, false)
        decreases WRITE_RETRIES - attempt
      {
        var ok := Try(WriteIo(true), WriteIo(false));
        if ok {
          return Written(reconnected);
        }
        if attempt == WRITE_RETRIES {
          return WriteError;
        }
        var up := Connect();
        if up {
          reconnected := true;
        }
        attempt := attempt + 1;
      }
    }

    method WriteRenewing() returns (ready: bool)
      requires Valid()
      modifies this
      ensures Valid() && (ready, log) == WriteAndRenew(radio, old(log))
    {
      var r := WritePayload();
      ready := r != WriteError;
      if r == Written(true) {
        ready := Subscribe();
      }
    }

    method Resubscribe() returns (ok: bool)
      requires Valid()
      modifies this
      ensures Valid() && (ok, log) == ReconnectStream(radio, old(log))
    {
      ok := Connect();
      if ok {
        ok := Subscribe();
      }
    }

    method Await(rounds: nat) returns (r: OneshotResult)
      requires Valid()
      modifies this
      ensures Valid() && (r, log) == AwaitReply(radio, old(log), rounds)
    {
      hide Establish;
      hide Write;
      hide WriteAndRenew;
      hide ReconnectStream;
      var left := rounds;
      while true
        invariant Valid()
        invariant AwaitReply(radio, log, left) == AwaitReply(radio, old(log), rounds)
        decreases left
      {
        var found := Try(WaitIo(true), WaitIo(false));
        if found {
          return Answered;
        }
        if left == 0 {
          return TimedOut;
        }
        var ready := Resubscribe();
        if !ready {
          return Failed;
        }
        ready := WriteRenewing();
        if !ready {
          return Failed;
        }
        left := left - 1;
      }
    }

    /** The one-shot command of the direct path. */
    method Command(rounds: nat) returns (r: OneshotResult)
      requires Valid()
      modifies this
      ensures Valid() && (r, log) == Oneshot(radio, old(log), rounds)
    {
      hide WriteAndRenew;
      hide AwaitReply;
      var ready := Subscribe();
      if !ready {
        return Failed;
      }
      ready := WriteRenewing();
      if !ready {
        return Failed;
      }
      r := Await(rounds);
    }
  }

  // ---------- Retry bounds ----------

  function Count(log: Journal, e: IoEvent): nat {
    if log == [] then 0
    else Count(log[..|log| - 1], e) + (if log[|log| - 1] == e then 1 else 0)
  }

  function Writes(log: Journal): nat {
    Count(log, WriteIo(true)) + Count(log, WriteIo(false))
  }

  function Connects(log: Journal): nat {
    Count(log, ConnectIo(true)) + Count(log, ConnectIo(false))
  }

  /** Links established completely. */
  function Completed(log: Journal): nat {
    Count(log, CharacteristicsIo(true))
  }

  lemma {:induction false} CountSnoc(log: Journal, e: IoEvent)
    ensures forall f :: Count(log + [e], f) == Count(log, f) + (if e == f then 1 else 0)
  {
    assert (log + [e])[..|log|] == log;
  }

  lemma DialCounts(radio: Radio, log: Journal)
    ensures var (ok, after) := Dial(radio, log);
            && Connects(after) == Connects(log) + 1
            && Completed(after) == Completed(log)
            && after != [] && (!ok ==> after[|after| - 1] in {ConnectIo(false), DiscoverIo(false)})
            && Count(after, WriteIo(true)) == Count(log, WriteIo(true))
            && Count(after, WriteIo(false)) == Count(log, WriteIo(false))
            && Count(after, WaitIo(false)) == Count(log, WaitIo(false))
  {
    hide Count;
    var log1 := log + [ConnectIo(radio(|log|))];
    CountSnoc(log, ConnectIo(radio(|log|)));
    CountSnoc(log1, DiscoverIo(radio(|log1|)));
  }

  /** At most five connection attempts, and up exactly when a link was completed. It fails only
      after the fifth, or when the characteristics are missing on a link that came about. */
  lemma {:induction false} EstablishIsTruthful(radio: Radio, log: Journal, attempt: nat)
    requires 1 <= attempt <= 5
    ensures var (up, after) := Establish(radio, log, attempt);
            && Connects(log) < Connects(after) <= Connects(log) + 6 - attempt
            && Completed(after) == Completed(log) + (if up then 1 else 0)
            && after != []
            && (up <==> after[|after| - 1] == CharacteristicsIo(true))
            && (!up ==> || after[|after| - 1] == CharacteristicsIo(false)
                        || (Connects(after) == Connects(log) + 6 - attempt
                            && after[|after| - 1] in {ConnectIo(false), DiscoverIo(false)}))
            && Count(after, WriteIo(true)) == Count(log, WriteIo(true))
            && Count(after, WriteIo(false)) == Count(log, WriteIo(false))
            && Count(after, WaitIo(false)) == Count(log, WaitIo(false))
    decreases CONNECT_RETRIES - attempt
  {
    hide Count;
    hide Dial;
    var (ok, log1) := Dial(radio, log);
    DialCounts(radio, log);
    if ok {
      CountSnoc(log1, CharacteristicsIo(radio(|log1|)));
    } else if attempt < CONNECT_RETRIES {
      EstablishIsTruthful(radio, log1, attempt + 1);
    }
  }

  /** At most five writes, with one to five connection attempts between any two. It succeeds with
      its last write, and reports a reconnect exactly when a link was completed on the way. */
  lemma {:induction false} WriteIsTruthful(radio: Radio, log: Journal, attempt: nat, reconnected: bool)
    requires 1 <= attempt <= 5
    ensures var (r, after) := Write(radio, log, attempt, reconnected);
            && Writes(log) < Writes(after) <= Writes(log) + 6 - attempt
            && Writes(after) - Writes(log) - 1
               <= Connects(after) - Connects(log)
               <= 5 * (Writes(after) - Writes(log) - 1)
            && Completed(log) <= Completed(after) <= Completed(log) + 5 - attempt
            && Count(after, WaitIo(false)) == Count(log, WaitIo(false))
            && (r.Written? <==> after != [] && after[|after| - 1] == WriteIo(true))
            && (r.Written? ==> && Count(after, WriteIo(true)) == Count(log, WriteIo(true)) + 1
                               && r.reconnected == (reconnected || Completed(after) > Completed(log)))
            && (r == WriteError ==> Count(after, WriteIo(true)) == Count(log, WriteIo(true))
                                    && Writes(after) == Writes(log) + 6 - attempt)
    decreases WRITE_RETRIES - attempt
  {
    hide Count;
    hide Establish;
    var ok := radio(|log|);
    var log1 := log + [WriteIo(ok)];
    CountSnoc(log, WriteIo(ok));
    if !ok && attempt < WRITE_RETRIES {
      var (up, log2) := Establish(radio, log1, 1);
      EstablishIsTruthful(radio, log1, 1);
      WriteIsTruthful(radio, log2, attempt + 1, reconnected || up);
    }
  }

  // ---------- What comes after what ----------

  /** What a one-shot may do next. Nothing follows a failed subscription or an answer. */
  predicate MayFollow(a: IoEvent, b: IoEvent) {
    match a
    case ListenIo(ok) => ok && (b.WriteIo? || b.WaitIo?)
    case WriteIo(true) => b.ListenIo? || b.WaitIo?
    case WriteIo(false) => b.ConnectIo?
    case ConnectIo(true) => b.DiscoverIo?
    case ConnectIo(false) => b.ConnectIo? || b.WriteIo?
    case DiscoverIo(true) => b.CharacteristicsIo?
    case DiscoverIo(false) => b.ConnectIo? || b.WriteIo?
    case CharacteristicsIo(true) => b.WriteIo? || b.ListenIo?
    case CharacteristicsIo(false) => b.WriteIo?
    case WaitIo(found) => !found && b.ConnectIo?
  }

  /** Since the last wait, the command has been written. */
  predicate CommandSent(log: Journal) {
    log != [] &&
    var last := log[|log| - 1];
    last == WriteIo(true) || (!last.WaitIo? && CommandSent(log[..|log| - 1]))
  }

  /** Since the last subscription, or from the start, a link was completed. */
  predicate NeedsListening(log: Journal) {
    log == [] ||
    var last := log[|log| - 1];
    last == CharacteristicsIo(true) || (!last.ListenIo? && NeedsListening(log[..|log| - 1]))
  }

  /** Every operation is one that may follow; every wait is for a command written since the last
      one; and nobody subscribes again to a link already subscribed to. */
  predicate Orderly(log: Journal) {
    log == [] ||
    var front, last := log[..|log| - 1], log[|log| - 1];
    && Orderly(front)
    && (front == [] ==> last.ListenIo?)
    && (front != [] ==> MayFollow(front[|front| - 1], last))
    && (last.WaitIo? ==> CommandSent(front))
    && (last.ListenIo? ==> NeedsListening(front))
  }

  lemma OrderlySnoc(log: Journal, e: IoEvent)
    ensures Orderly(log + [e]) <==>
            && Orderly(log)
            && (log == [] ==> e.ListenIo?)
            && (log != [] ==> MayFollow(log[|log| - 1], e))
            && (e.WaitIo? ==> CommandSent(log))
            && (e.ListenIo? ==> NeedsListening(log))
    ensures CommandSent(log + [e]) <==> e == WriteIo(true) || (!e.WaitIo? && CommandSent(log))
    ensures NeedsListening(log + [e]) <==> e == CharacteristicsIo(true) || (!e.ListenIo? && NeedsListening(log))
  {
    assert (log + [e])[..|log|] == log;
  }

  /** After these, connecting may begin. */
  predicate LinkLost(e: IoEvent) {
    e in {WriteIo(false), WaitIo(false), ConnectIo(false), DiscoverIo(false)}
  }

  lemma DialIsOrderly(radio: Radio, log: Journal)
    requires Orderly(log) && log != [] && LinkLost(log[|log| - 1])
    ensures var (ok, after) := Dial(radio, log);
            && Orderly(after) && after != [] && (NeedsListening(after) <==> NeedsListening(log))
            && (if ok then after[|after| - 1] == DiscoverIo(true)
                else after[|after| - 1] in {ConnectIo(false), DiscoverIo(false)})
  {
    hide Orderly;
    hide CommandSent;
    hide NeedsListening;
    var log1 := log + [ConnectIo(radio(|log|))];
    OrderlySnoc(log, ConnectIo(radio(|log|)));
    OrderlySnoc(log1, DiscoverIo(radio(|log1|)));
  }

  lemma {:induction false} EstablishIsOrderly(radio: Radio, log: Journal, attempt: nat)
    requires 1 <= attempt <= 5
    requires Orderly(log) && log != [] && LinkLost(log[|log| - 1])
    ensures var (up, after) := Establish(radio, log, attempt);
            && Orderly(after) && after != []
            && (up ==> after[|after| - 1] == CharacteristicsIo(true))
            && (!up ==> after[|after| - 1] in {ConnectIo(false), DiscoverIo(false), CharacteristicsIo(false)})
            && (NeedsListening(after) <==> up || NeedsListening(log))
    decreases 5 - attempt
  {
    hide Orderly;
    hide CommandSent;
    hide NeedsListening;
    hide Dial;
    var (ok, log1) := Dial(radio, log);
    DialIsOrderly(radio, log);
    if ok {
      OrderlySnoc(log1, CharacteristicsIo(radio(|log1|)));
    } else if attempt < 5 {
      EstablishIsOrderly(radio, log1, attempt + 1);
    }
  }

  lemma {:induction false} WriteIsOrderly(radio: Radio, log: Journal, attempt: nat, reconnected: bool)
    requires 1 <= attempt <= 5
    requires Orderly(log) && log != [] && MayFollow(log[|log| - 1], WriteIo(true)) && !log[|log| - 1].WriteIo?
    requires reconnected <==> NeedsListening(log)
    ensures var (r, after) := Write(radio, log, attempt, reconnected);
            && Orderly(after)
            && (r.Written? ==> && CommandSent(after) && after != [] && after[|after| - 1] == WriteIo(true)
                               && (r.reconnected <==> NeedsListening(after)))
    decreases 5 - attempt
  {
    hide Orderly;
    hide CommandSent;
    hide NeedsListening;
    hide Establish;
    var ok := radio(|log|);
    var log1 := log + [WriteIo(ok)];
    OrderlySnoc(log, WriteIo(ok));
    if !ok && attempt < 5 {
      var (up, log2) := Establish(radio, log1, 1);
      EstablishIsOrderly(radio, log1, 1);
      WriteIsOrderly(radio, log2, attempt + 1, reconnected || up);
    }
  }

  lemma {:induction false} RenewingIsOrderly(radio: Radio, log: Journal)
    requires Orderly(log) && log != [] && log[|log| - 1] == ListenIo(true)
    ensures var (ready, after) := WriteAndRenew(radio, log);
            && Orderly(after)
            && (ready ==> && CommandSent(after) && !NeedsListening(after)
                          && after != [] && after[|after| - 1] in {WriteIo(true), ListenIo(true)})
  {
    hide Orderly;
    hide CommandSent;
    hide Write;
    var (r, mid) := Write(radio, log, 1, false);
    WriteIsOrderly(radio, log, 1, false);
    OrderlySnoc(mid, ListenIo(radio(|mid|)));
  }

  lemma {:induction false} AwaitIsOrderly(radio: Radio, log: Journal, rounds: nat)
    requires Orderly(log) && CommandSent(log) && !NeedsListening(log)
    requires log != [] && log[|log| - 1] in {WriteIo(true), ListenIo(true)}
    ensures var (r, after) := AwaitReply(radio, log, rounds); Orderly(after) && EndsAs(r, after)
    decreases rounds
  {
    hide Orderly;
    hide CommandSent;
    hide NeedsListening;
    hide Establish;
    hide WriteAndRenew;
    var found := radio(|log|);
    var log1 := log + [WaitIo(found)];
    OrderlySnoc(log, WaitIo(found));
    if !found && rounds > 0 {
      EstablishIsOrderly(radio, log1, 1);
      var (up, log2) := Establish(radio, log1, 1);
      OrderlySnoc(log2, ListenIo(radio(|log2|)));
      var (ok, log3) := ReconnectStream(radio, log1);
      if ok {
        RenewingIsOrderly(radio, log3);
        RenewingEnds(radio, log3);
        var (ready, log4) := WriteAndRenew(radio, log3);
        if ready {
          AwaitIsOrderly(radio, log4, rounds - 1);
        }
      } else {
        EstablishIsTruthful(radio, log1, 1);
      }
    }
  }

  /** What a result means: the awaited frame has come, the last wait was in vain, or an operation
      other than waiting has failed for good. */
  predicate EndsAs(r: OneshotResult, log: Journal) {
    log != [] &&
    var last := log[|log| - 1];
    match r
    case Answered => last == WaitIo(true)
    case TimedOut => last == WaitIo(false)
    case Failed =>
      last in {ListenIo(false), WriteIo(false), ConnectIo(false), DiscoverIo(false), CharacteristicsIo(false)}
  }

  lemma RenewingEnds(radio: Radio, log: Journal)
    ensures var (ready, after) := WriteAndRenew(radio, log);
            !ready ==> after != [] && after[|after| - 1] in {WriteIo(false), ListenIo(false)}
  {
    hide Write;
    WriteEnds(radio, log, 1, false);
  }

  lemma {:induction false} WriteEnds(radio: Radio, log: Journal, attempt: nat, reconnected: bool)
    requires 1 <= attempt <= 5
    ensures var (r, after) := Write(radio, log, attempt, reconnected);
            r == WriteError ==> after != [] && after[|after| - 1] == WriteIo(false)
    decreases 5 - attempt
  {
    hide Establish;
    var log1 := log + [WriteIo(radio(|log|))];
    if !radio(|log|) && attempt < 5 {
      var (up, log2) := Establish(radio, log1, 1);
      WriteEnds(radio, log2, attempt + 1, reconnected || up);
    }
  }

  /** Until the timeout, a lost link is never the end of it. */
  lemma {:induction false} TimesOutAfterAllRounds(radio: Radio, log: Journal, rounds: nat)
    ensures var (r, after) := AwaitReply(radio, log, rounds);
            r == TimedOut ==> Count(after, WaitIo(false)) == Count(log, WaitIo(false)) + rounds + 1
    decreases rounds
  {
    hide Count;
    hide Establish;
    hide Write;
    var log1 := log + [WaitIo(radio(|log|))];
    CountSnoc(log, WaitIo(radio(|log|)));
    if !radio(|log|) && rounds > 0 {
      var (up, log2) := Establish(radio, log1, 1);
      EstablishIsTruthful(radio, log1, 1);
      CountSnoc(log2, ListenIo(radio(|log2|)));
      var (ok, log3) := ReconnectStream(radio, log1);
      if ok {
        var (r, mid) := Write(radio, log3, 1, false);
        WriteIsTruthful(radio, log3, 1, false);
        CountSnoc(mid, ListenIo(radio(|mid|)));
        var (ready, log4) := WriteAndRenew(radio, log3);
        if ready {
          TimesOutAfterAllRounds(radio, log4, rounds - 1);
        }
      }
    }
  }

  /** A one-shot command from beginning to end: it subscribes once for each link, writes the command
      before each wait, and so again after every link that was lost, and reports what came of it. */
  lemma {:induction false} OneshotIsOrderly(radio: Radio, rounds: nat)
    ensures var (r, after) := Oneshot(radio, [], rounds); Orderly(after) && EndsAs(r, after)
  {
    hide CommandSent;
    hide WriteAndRenew;
    hide AwaitReply;
    var listened: Journal := [ListenIo(radio(0))];
    assert [] + listened == listened;
    OrderlySnoc([], ListenIo(radio(0)));
    if radio(0) {
      RenewingIsOrderly(radio, listened);
      RenewingEnds(radio, listened);
      var (ready, sent) := WriteAndRenew(radio, listened);
      if ready {
        AwaitIsOrderly(radio, sent, rounds);
      }
    }
  }

  // ---------- Freshness of the subscription waited on ----------

  /** What makes a subscription out of date: a completed reconnect, or, more strictly, any
      connection that came about. */
  datatype Yardstick = ByCompletion | ByConnection

  predicate Outdates(e: IoEvent, y: Yardstick) {
    match y
    case ByCompletion => e == CharacteristicsIo(true)
    case ByConnection => e == ConnectIo(true)
  }

  /** The latest subscription was taken after everything that outdates one. */
  predicate Current(log: Journal, y: Yardstick) {
    log != [] &&
    var last := log[|log| - 1];
    last == ListenIo(true) || (!Outdates(last, y) && Current(log[..|log| - 1], y))
  }

  /** Every wait so far was on such a subscription. */
  predicate WaitsAreCurrent(log: Journal, y: Yardstick) {
    log == [] ||
    var last := log[|log| - 1];
    WaitsAreCurrent(log[..|log| - 1], y) && (last.WaitIo? ==> Current(log[..|log| - 1], y))
  }

  lemma {:induction false} Snoc(log: Journal, e: IoEvent, y: Yardstick)
    ensures Current(log + [e], y) <==> e == ListenIo(true) || (!Outdates(e, y) && Current(log, y))
    ensures WaitsAreCurrent(log + [e], y) <==> WaitsAreCurrent(log, y) && (e.WaitIo? ==> Current(log, y))
  {
    assert (log + [e])[..|log|] == log;
  }

  lemma DialOutdates(radio: Radio, log: Journal, y: Yardstick)
    ensures var (ok, after) := Dial(radio, log);
            && (WaitsAreCurrent(after, y) <==> WaitsAreCurrent(log, y))
            && (Current(after, y) <==> Current(log, y) && (y == ByConnection ==> !radio(|log|)))
  {
    hide Current;
    hide WaitsAreCurrent;
    var log1 := log + [ConnectIo(radio(|log|))];
    Snoc(log, ConnectIo(radio(|log|)), y);
    Snoc(log1, DiscoverIo(radio(|log1|)), y);
  }

  lemma {:induction false} EstablishOutdates(radio: Radio, log: Journal, attempt: nat)
    requires 1 <= attempt <= CONNECT_RETRIES
    ensures var (up, after) := Establish(radio, log, attempt);
            && (WaitsAreCurrent(after, ByCompletion) <==> WaitsAreCurrent(log, ByCompletion))
            && (Current(after, ByCompletion) <==> !up && Current(log, ByCompletion))
    decreases CONNECT_RETRIES - attempt
  {
    hide Current;
    hide WaitsAreCurrent;
    hide Dial;
    var (ok, log1) := Dial(radio, log);
    DialOutdates(radio, log, ByCompletion);
    if ok {
      Snoc(log1, CharacteristicsIo(radio(|log1|)), ByCompletion);
    } else if attempt < CONNECT_RETRIES {
      EstablishOutdates(radio, log1, attempt + 1);
    }
  }

  lemma {:induction false} WriteOutdates(radio: Radio, log: Journal, attempt: nat, reconnected: bool)
    requires 1 <= attempt <= WRITE_RETRIES
    requires Current(log, ByCompletion) || reconnected
    ensures var (r, after) := Write(radio, log, attempt, reconnected);
            && (WaitsAreCurrent(after, ByCompletion) <==> WaitsAreCurrent(log, ByCompletion))
            && (r == Written(false) ==> Current(after, ByCompletion))
    decreases WRITE_RETRIES - attempt
  {
    hide Current;
    hide WaitsAreCurrent;
    hide Establish;
    var ok := radio(|log|);
    var log1 := log + [WriteIo(ok)];
    Snoc(log, WriteIo(ok), ByCompletion);
    if !ok && attempt < WRITE_RETRIES {
      var (up, log2) := Establish(radio, log1, 1);
      EstablishOutdates(radio, log1, 1);
      WriteOutdates(radio, log2, attempt + 1, reconnected || up);
    }
  }

  lemma {:induction false} RenewedIsCurrent(radio: Radio, log: Journal)
    requires Current(log, ByCompletion)
    ensures var (ready, after) := WriteAndRenew(radio, log);
            && (WaitsAreCurrent(after, ByCompletion) <==> WaitsAreCurrent(log, ByCompletion))
            && (ready ==> Current(after, ByCompletion))
  {
    hide Current;
    hide WaitsAreCurrent;
    hide Write;
    var (r, log1) := Write(radio, log, 1, false);
    WriteOutdates(radio, log, 1, false);
    Snoc(log1, ListenIo(radio(|log1|)), ByCompletion);
  }

  lemma {:induction false} AwaitIsCurrent(radio: Radio, log: Journal, rounds: nat)
    requires Current(log, ByCompletion) && WaitsAreCurrent(log, ByCompletion)
    ensures WaitsAreCurrent(AwaitReply(radio, log, rounds).1, ByCompletion)
    decreases rounds
  {
    hide Current;
    hide WaitsAreCurrent;
    hide Establish;
    hide WriteAndRenew;
    var found := radio(|log|);
    var log1 := log + [WaitIo(found)];
    Snoc(log, WaitIo(found), ByCompletion);
    if !found && rounds > 0 {
      var (up, log2) := Establish(radio, log1, 1);
      EstablishOutdates(radio, log1, 1);
      Snoc(log2, ListenIo(radio(|log2|)), ByCompletion);
      var (ok, log3) := ReconnectStream(radio, log1);
      if ok {
        RenewedIsCurrent(radio, log3);
        var (ready, log4) := WriteAndRenew(radio, log3);
        if ready {
          AwaitIsCurrent(radio, log4, rounds - 1);
        }
      }
    }
  }

  /** A one-shot command only ever waits on a subscription taken after the latest completed
      reconnect, whatever the radio does. */
  lemma {:induction false} OneshotWaitsAreCurrent(radio: Radio, log: Journal, rounds: nat)
    requires WaitsAreCurrent(log, ByCompletion)
    ensures WaitsAreCurrent(Oneshot(radio, log, rounds).1, ByCompletion)
  {
    hide Current;
    hide WaitsAreCurrent;
    hide AwaitReply;
    hide WriteAndRenew;
    var (listening, log1) := Listen(radio, log);
    Snoc(log, ListenIo(listening), ByCompletion);
    if listening {
      RenewedIsCurrent(radio, log1);
      var (ready, log2) := WriteAndRenew(radio, log1);
      if ready {
        AwaitIsCurrent(radio, log2, rounds);
      }
    }
  }

  /** The timeout may cut a command short anywhere: what it has waited on by then was current too. */
  lemma {:induction false} CutShort(log: Journal, k: nat, y: Yardstick)
    requires k <= |log| && WaitsAreCurrent(log, y)
    ensures WaitsAreCurrent(log[..k], y)
  {
    if k < |log| {
      CutShort(log[..|log| - 1], k, y);
      assert log[..|log| - 1][..k] == log[..k];
    } else {
      assert log[..k] == log;
    }
  }

  /** A connection that came about but was not completed stopped half way: at discovering the
      services, or at finding the characteristics among them. */
  function HalfWay(log: Journal): nat {
    Count(log, DiscoverIo(false)) + Count(log, CharacteristicsIo(false))
  }

  /** Every connection that came about is found again, as one that was completed, or one that
      stopped half way, or, for now, one whose characteristics are still to be looked up. */
  lemma DialConnects(radio: Radio, log: Journal)
    ensures var (ok, after) := Dial(radio, log);
            && Completed(after) == Completed(log)
            && HalfWay(after) == HalfWay(log) + (if radio(|log|) && !ok then 1 else 0)
  {
    hide Count;
    var log1 := log + [ConnectIo(radio(|log|))];
    CountSnoc(log, ConnectIo(radio(|log|)));
    CountSnoc(log1, DiscoverIo(radio(|log1|)));
  }

  /** Neither connecting nor writing subscribes, so by the stricter reading a subscription stays
      current exactly while nothing connects, completely or half way. */
  lemma {:induction false} EstablishConnects(radio: Radio, log: Journal, attempt: nat)
    requires 1 <= attempt <= CONNECT_RETRIES
    ensures var (up, after) := Establish(radio, log, attempt);
            && Completed(after) >= Completed(log) && HalfWay(after) >= HalfWay(log)
            && (Current(after, ByConnection)
                <==> Current(log, ByConnection) && Completed(after) == Completed(log) && HalfWay(after) == HalfWay(log))
    decreases CONNECT_RETRIES - attempt
  {
    hide Count;
    hide Current;
    var (ok, log1) := Dial(radio, log);
    DialOutdates(radio, log, ByConnection);
    DialConnects(radio, log);
    if ok {
      Snoc(log1, CharacteristicsIo(radio(|log1|)), ByConnection);
      CountSnoc(log1, CharacteristicsIo(radio(|log1|)));
    } else if attempt < CONNECT_RETRIES {
      EstablishConnects(radio, log1, attempt + 1);
    }
  }

  lemma {:induction false} WriteConnects(radio: Radio, log: Journal, attempt: nat, reconnected: bool)
    requires 1 <= attempt <= WRITE_RETRIES
    ensures var (r, after) := Write(radio, log, attempt, reconnected);
            && Completed(after) >= Completed(log) && HalfWay(after) >= HalfWay(log)
            && (Current(after, ByConnection)
                <==> Current(log, ByConnection) && Completed(after) == Completed(log) && HalfWay(after) == HalfWay(log))
    decreases WRITE_RETRIES - attempt
  {
    hide Establish;
    hide Current;
    hide Count;
    var ok := radio(|log|);
    var log1 := log + [WriteIo(ok)];
    Snoc(log, WriteIo(ok), ByConnection);
    CountSnoc(log, WriteIo(ok));
    if !ok && attempt < WRITE_RETRIES {
      var (up, log2) := Establish(radio, log1, 1);
      EstablishConnects(radio, log1, 1);
      WriteConnects(radio, log2, attempt + 1, reconnected || up);
    }
  }

  /** When a one-shot goes on to wait, its subscription is older than a connection made during the
      write exactly when some of these stopped half way and none was completed. */
  lemma {:induction false} OutdatedExactlyWhenOnlyHalfWay(radio: Radio, log: Journal)
    requires Current(log, ByConnection) && WriteAndRenew(radio, log).0
    ensures var (r, mid) := Write(radio, log, 1, false);
            !Current(WriteAndRenew(radio, log).1, ByConnection)
            <==> Completed(mid) == Completed(log) && HalfWay(mid) > HalfWay(log)
  {
    hide Write;
    hide Current;
    hide Count;
    WriteConnects(radio, log, 1, false);
    WriteIsTruthful(radio, log, 1, false);
    var (r, mid) := Write(radio, log, 1, false);
    Snoc(mid, ListenIo(radio(|mid|)), ByConnection);
  }

  /** The second operation fails, and so does finding the characteristics after the reconnect. */
  function HalfReconnect(t: nat): bool {
    t != 1 && t != 4
  }

  /** The stricter reading fails: a reconnect whose characteristics are missing is not reported,
      so when the write then succeeds the wait is on the subscription from before it. */
  lemma {:induction false} HalfReconnectGoesUnnoticed()
    ensures var (r, after) := Oneshot(HalfReconnect, [], 0);
            && r == Answered
            && after == [ListenIo(true), WriteIo(false), ConnectIo(true), DiscoverIo(true), CharacteristicsIo(false),
                         WriteIo(true), WaitIo(true)]
            && !WaitsAreCurrent(after, ByConnection)
  {
    hide Oneshot;
    hide Write;
    hide WaitsAreCurrent;
    var listened: Journal := [ListenIo(true)];
    var failed := listened + [WriteIo(false)];
    var dialled := failed + [ConnectIo(true)] + [DiscoverIo(true)];
    var half := dialled + [CharacteristicsIo(false)];
    assert Dial(HalfReconnect, failed) == (true, dialled);
    assert Establish(HalfReconnect, failed, 1) == (false, half);
    DialOutdates(HalfReconnect, failed, ByConnection);
    Snoc(dialled, CharacteristicsIo(false), ByConnection);
    ThenWaitsOutdated(HalfReconnect, half);
  }

  /** The second operation fails, and so does discovering the services, five times over. */
  function FailedDiscoveries(t: nat): bool {
    t !in {1, 3, 5, 7, 9, 11}
  }

  /** So it does when every attempt connects and fails to discover the services. */
  lemma {:induction false} FailedDiscoveryGoesUnnoticed()
    ensures var (r, after) := Oneshot(FailedDiscoveries, [], 0);
            r == Answered && Connects(after) == 5 && !WaitsAreCurrent(after, ByConnection)
  {
    hide Establish;
    hide Connects;
    hide Current;
    hide WaitsAreCurrent;
    var failed: Journal := [ListenIo(true)] + [WriteIo(false)];
    FailsFrom(failed, 1);
    NoConnectsYet();
    ThenWaitsOutdated(FailedDiscoveries, Establish(FailedDiscoveries, failed, 1).1);
  }

  lemma {:induction false} FailsFrom(log: Journal, attempt: nat)
    requires |log| == 2 * attempt && 1 <= attempt <= 5
    ensures var (up, after) := Establish(FailedDiscoveries, log, attempt);
            !up && |after| == 12 && Connects(after) == Connects(log) + 6 - attempt && !Current(after, ByConnection)
    decreases 5 - attempt
  {
    hide Connects;
    hide Current;
    DialCounts(FailedDiscoveries, log);
    DialOutdates(FailedDiscoveries, log, ByConnection);
    if attempt < 5 {
      FailsFrom(Dial(FailedDiscoveries, log).1, attempt + 1);
    }
  }

  lemma NoConnectsYet()
    ensures Connects([ListenIo(true)] + [WriteIo(false)]) == 0
  {
    hide Count;
    CountSnoc([ListenIo(true)], WriteIo(false));
    assert [] + [ListenIo(true)] == [ListenIo(true)];
    CountSnoc([], ListenIo(true));
    CountOfNothing();
  }

  lemma CountOfNothing()
    ensures forall e :: Count([], e) == 0
  {
  }

  /** When connecting comes to nothing after a failed write, and all goes well from there on, the
      reply is awaited on the subscription of before. */
  lemma ThenWaitsOutdated(radio: Radio, half: Journal)
    requires radio(0) && !radio(1) && radio(|half|) && radio(|half| + 1)
    requires Establish(radio, [ListenIo(true)] + [WriteIo(false)], 1) == (false, half)
    requires !Current(half, ByConnection)
    ensures Oneshot(radio, [], 0) == (Answered, half + [WriteIo(true)] + [WaitIo(true)])
    ensures Connects(half + [WriteIo(true)] + [WaitIo(true)]) == Connects(half)
    ensures !WaitsAreCurrent(half + [WriteIo(true)] + [WaitIo(true)], ByConnection)
  {
    hide Establish;
    hide Count;
    hide Current;
    hide WaitsAreCurrent;
    var listened: Journal := [ListenIo(true)];
    var written := half + [WriteIo(true)];
    assert Write(radio, half, 2, false) == (Written(false), written);
    assert Write(radio, listened, 1, false) == (Written(false), written);
    assert AwaitReply(radio, written, 0) == (Answered, written + [WaitIo(true)]);
    assert [] + [ListenIo(true)] == listened;
    assert Listen(radio, []) == (true, listened);
    Snoc(half, WriteIo(true), ByConnection);
    Snoc(written, WaitIo(true), ByConnection);
    CountSnoc(half, WriteIo(true));
    CountSnoc(written, WaitIo(true));
  }
}
