/** The freshness verdict under interleaving: the actor writes the counters, any number of
    readers take readings, and each call is split into its atomic steps. */
module Freshness {

  import opened Options
  import opened Assembler
  import opened Protocol
  import opened Stats

  datatype Holder = Free | ByWriter | ByReader(id: nat)

  /** Where the one writer is. Recording a sample counts it, raises `connected`, takes the
      lock, stores the sample and releases the lock; a reconnect is counted before it raises. */
  datatype Writer =
    | Resting
    | Counted(m: Measurement)
    | Raised(m: Measurement)
    | Storing(m: Measurement)
    | Stored
    | Reconnecting

  datatype Op = Record(m: Measurement) | SetConnected(up: bool) | RecordReconnect

  /** A sample that was stored, and the how-manieth it is. The code has no use for the number, but
      it tells two samples apart that read the same and arrive at the same nanosecond. */
  datatype Kept = Kept(stamped: Stamped, number: nat)

  datatype Reading = Reading(sample: Option<Kept>, isFresh: bool)

  /** Where a reader is: `connected` is loaded before the lock is taken, the sample's age is
      taken while it is held. */
  datatype Reader =
    | Loaded(up: bool)
    | Locked(up: bool)
    | Cloned(up: bool, sample: Option<Kept>)
    | Judged(reading: Reading)
    | Done(reading: Reading)

  predicate IsYoung(sample: Option<Kept>, now: nat, interval: nat) {
    sample.Some? && Young(Some(sample.value.stamped), now, interval)
  }

  datatype Shared = Shared(
    now: nat,
    connected: bool,
    samples: nat,
    reconnects: nat,
    latest: Option<Kept>,
    lock: Holder,
    writer: Writer,
    readers: map<nat, Reader>)

  datatype Action = Tick(d: nat) | Begin(op: Op) | Continue | Read(id: nat)

  predicate Enabled(s: Shared, a: Action) {
    match a
    case Tick(_) => true
    case Begin(_) => s.writer == Resting
    case Continue => s.writer != Resting && (s.writer.Raised? ==> s.lock == Free)
    case Read(id) => id in s.readers ==> !s.readers[id].Done? && (s.readers[id].Loaded? ==> s.lock == Free)
  }

  function Write(s: Shared): Shared
    requires s.writer != Resting
  {
    match s.writer
    case Counted(m) => s.(connected := true, writer := Raised(m))
    case Raised(m) => s.(lock := ByWriter, writer := Storing(m))
    case Storing(m) => s.(latest := Some(Kept(Stamped(m, s.now), s.samples)), writer := Stored)
    case Stored => s.(lock := Free, writer := Resting)
    case Reconnecting => s.(connected := true, writer := Resting)
  }

  function Take(s: Shared, id: nat, interval: nat): Shared
    requires Enabled(s, Read(id))
  {
    if id !in s.readers then s.(readers := s.readers[id := Loaded(s.connected)])
    else
      match s.readers[id]
      case Loaded(up) => s.(lock := ByReader(id), readers := s.readers[id := Locked(up)])
      case Locked(up) => s.(readers := s.readers[id := Cloned(up, s.latest)])
      case Cloned(up, sample) =>
        s.(readers := s.readers[id := Judged(Reading(sample, up && IsYoung(sample, s.now, interval)))])
      case Judged(reading) => s.(lock := Free, readers := s.readers[id := Done(reading)])
  }

  function Apply(s: Shared, a: Action, interval: nat): Shared
    requires Enabled(s, a)
  {
    match a
    case Tick(d) => s.(now := s.now + d)
    case Begin(Record(m)) => s.(samples := s.samples + 1, writer := Counted(m))
    case Begin(SetConnected(up)) => s.(connected := up)
    case Begin(RecordReconnect) => s.(reconnects := s.reconnects + 1, writer := Reconnecting)
    case Continue => Write(s)
    case Read(id) => Take(s, id, interval)
  }

  predicate Init(s: Shared) {
    !s.connected && s.latest == None && s.lock == Free && s.writer == Resting && s.readers == map[]
  }

  /** Any interleaving of the writer with any number of readers and the clock. */
  ghost predicate IsRun(run: seq<Shared>, actions: seq<Action>, interval: nat) {
    && |run| == |actions| + 1
    && Init(run[0])
    && forall k :: 0 <= k < |actions| ==> StepTo(run[k], actions[k], run[k + 1], interval)
  }

  predicate StepTo(s: Shared, a: Action, s': Shared, interval: nat) {
    Enabled(s, a) && s' == Apply(s, a, interval)
  }

  // ---------- What every state keeps ----------

  predicate HoldsLock(r: Reader) {
    r.Locked? || r.Cloned? || r.Judged?
  }

  /** The lock has one holder, a sample is only stored once `connected` is raised, and none before
      it has been counted. */
  ghost predicate Inv(s: Shared) {
    && (s.writer.Raised? || s.writer.Storing? || s.writer.Stored? ==> s.connected)
    && (s.lock == ByWriter <==> s.writer.Storing? || s.writer.Stored?)
    && (forall id :: s.lock == ByReader(id) <==> id in s.readers && HoldsLock(s.readers[id]))
    && (s.latest.Some? ==> s.latest.value.stamped.at <= s.now && s.latest.value.number <= s.samples)
    && (s.writer.Counted? || s.writer.Raised? || s.writer.Storing? ==>
          s.latest.Some? ==> s.latest.value.number < s.samples)
  }

  lemma WriteKeepsInv(s: Shared)
    requires Inv(s) && Enabled(s, Continue)
    ensures Inv(Write(s))
  {
  }

  lemma TakeKeepsInv(s: Shared, id: nat, interval: nat)
    requires Inv(s) && Enabled(s, Read(id))
    ensures Inv(Take(s, id, interval))
  {
    hide IsYoung;
    var s' := Take(s, id, interval);
    forall other ensures s'.lock == ByReader(other) <==> other in s'.readers && HoldsLock(s'.readers[other]) {
      assert s.lock == ByReader(other) <==> other in s.readers && HoldsLock(s.readers[other]);
      assert s.lock == ByReader(id) <==> id in s.readers && HoldsLock(s.readers[id]);
    }
  }

  lemma StepKeepsInv(s: Shared, a: Action, interval: nat)
    requires Inv(s) && Enabled(s, a)
    ensures Inv(Apply(s, a, interval)) && s.now <= Apply(s, a, interval).now
  {
    hide Write;
    hide Take;
    if a == Continue {
      WriteKeepsInv(s);
      ClockStands(s, a, interval);
    } else if a.Read? {
      TakeKeepsInv(s, a.id, interval);
      ClockStands(s, a, interval);
    }
  }

  lemma ClockStands(s: Shared, a: Action, interval: nat)
    requires Enabled(s, a) && !a.Tick?
    ensures Apply(s, a, interval).now == s.now
  {
  }

  lemma {:induction false} RunKeepsInv(run: seq<Shared>, actions: seq<Action>, interval: nat, k: nat)
    requires IsRun(run, actions, interval) && k < |run|
    ensures Inv(run[k])
    ensures forall j :: 0 <= j <= k ==> run[j].now <= run[k].now
  {
    hide Inv;
    if k > 0 {
      RunKeepsInv(run, actions, interval, k - 1);
      assert StepTo(run[k - 1], actions[k - 1], run[k], interval);
      StepKeepsInv(run[k - 1], actions[k - 1], interval);
    } else {
      InitKeepsInv(run[0]);
    }
  }

  lemma InitKeepsInv(s: Shared)
    requires Init(s)
    ensures Inv(s)
  {
  }

  // ---------- Where a reading comes from ----------

  /** A reader moves by its own steps only. */
  lemma OthersStand(s: Shared, a: Action, id: nat, interval: nat)
    requires Enabled(s, a) && a != Read(id)
    ensures var s' := Apply(s, a, interval);
            (id in s.readers <==> id in s'.readers) && (id in s.readers ==> s'.readers[id] == s.readers[id])
  {
    hide IsYoung;
  }

  /** The step at which a reader got where it is. */
  lemma {:induction false} Arrival(run: seq<Shared>, actions: seq<Action>, interval: nat, id: nat, k: nat)
    returns (i: nat)
    requires IsRun(run, actions, interval) && k < |run|
    requires id in run[k].readers
    ensures i < k
    ensures Enabled(run[i], Read(id)) && run[i + 1] == Take(run[i], id, interval)
    ensures forall j :: i < j <= k ==> id in run[j].readers && run[j].readers[id] == run[k].readers[id]
  {
    hide Take;
    hide Write;
    assert StepTo(run[k - 1], actions[k - 1], run[k], interval);
    if actions[k - 1] == Read(id) {
      i := k - 1;
    } else {
      OthersStand(run[k - 1], actions[k - 1], id, interval);
      i := Arrival(run, actions, interval, id, k - 1);
    }
  }

  /** While a reader holds the lock nobody stores a sample. */
  lemma {:induction false} HeldSampleStays(run: seq<Shared>, actions: seq<Action>, interval: nat, id: nat,
                                          i: nat, k: nat)
    requires IsRun(run, actions, interval) && i <= k < |run|
    requires forall j :: i <= j <= k ==> id in run[j].readers && HoldsLock(run[j].readers[id])
    ensures run[i].latest == run[k].latest
  {
    if i < k {
      HeldSampleStays(run, actions, interval, id, i, k - 1);
      RunKeepsInv(run, actions, interval, k - 1);
      assert run[k - 1].lock == ByReader(id);
      assert StepTo(run[k - 1], actions[k - 1], run[k], interval);
    }
  }

  /** A reading is put together at three instants: `connected` is of the first, the sample is
      the one stored at the second, and still at the third, where its age is taken. */
  predicate TakenAt(run: seq<Shared>, reading: Reading, interval: nat, load: nat, lock: nat, judge: nat)
    requires load <= lock <= judge < |run|
  {
    && reading.sample == run[lock].latest == run[judge].latest
    && (reading.isFresh <==> run[load].connected && IsYoung(reading.sample, run[judge].now, interval))
  }

  lemma {:induction false} ReadingExplained(run: seq<Shared>, actions: seq<Action>, interval: nat, id: nat, k: nat)
    returns (load: nat, lock: nat, judge: nat)
    requires IsRun(run, actions, interval) && k < |run|
    requires id in run[k].readers && run[k].readers[id].Done?
    ensures load < lock < judge < k
    ensures TakenAt(run, run[k].readers[id].reading, interval, load, lock, judge)
    ensures id !in run[load].readers
    ensures forall j :: load < j <= k ==> id in run[j].readers
  {
    hide IsYoung;
    hide StepTo;
    var released := Arrival(run, actions, interval, id, k);
    judge := Arrival(run, actions, interval, id, released);
    var cloned := Arrival(run, actions, interval, id, judge);
    lock := Arrival(run, actions, interval, id, cloned);
    load := Arrival(run, actions, interval, id, lock);
    forall j | lock < j <= judge ensures id in run[j].readers && HoldsLock(run[j].readers[id]) {
    }
    HeldSampleStays(run, actions, interval, id, lock + 1, judge);
    assert run[lock + 1].latest == run[lock].latest;
    HeldSampleStays(run, actions, interval, id, lock + 1, cloned);
  }

  // ---------- One instant, or either side of a sample ----------

  /** The reading an instant would give if it could be taken whole. */
  function ReadingAt(s: Shared, interval: nat): Reading {
    Reading(s.latest, s.connected && IsYoung(s.latest, s.now, interval))
  }

  /** The action at k stores a sample. */
  predicate StoresAt(run: seq<Shared>, actions: seq<Action>, k: nat)
    requires k < |actions| < |run|
  {
    actions[k] == Continue && run[k].writer.Storing?
  }

  predicate GoesDownAt(actions: seq<Action>, k: nat)
    requires k < |actions|
  {
    actions[k] == Begin(SetConnected(false))
  }

  lemma ReadingStoresNothing(s: Shared, id: nat, interval: nat)
    requires Enabled(s, Read(id))
    ensures Take(s, id, interval).latest == s.latest && Take(s, id, interval).connected == s.connected
  {
    hide IsYoung;
  }

  /** One step: the sample changes only by storing one, with a higher number, and `connected`
      drops only by being set to false. */
  lemma StepStores(run: seq<Shared>, actions: seq<Action>, interval: nat, k: nat)
    requires IsRun(run, actions, interval) && k < |actions|
    ensures StoresAt(run, actions, k) ==>
              && run[k].connected && run[k + 1].connected
              && run[k + 1].latest == Some(Kept(Stamped(run[k].writer.m, run[k].now), run[k].samples))
              && (run[k].latest.Some? ==> run[k].latest.value.number < run[k].samples)
    ensures !StoresAt(run, actions, k) ==> run[k + 1].latest == run[k].latest
    ensures run[k].connected && !GoesDownAt(actions, k) ==> run[k + 1].connected
    ensures GoesDownAt(actions, k) ==> !run[k + 1].connected
  {
    hide Take;
    RunKeepsInv(run, actions, interval, k);
    assert StepTo(run[k], actions[k], run[k + 1], interval);
    if actions[k].Read? {
      ReadingStoresNothing(run[k], actions[k].id, interval);
    }
  }

  /** Numbers only grow, so a sample that has been replaced does not come back. */
  lemma {:induction false} NumbersGrow(run: seq<Shared>, actions: seq<Action>, interval: nat, i: nat, k: nat)
    requires IsRun(run, actions, interval) && i <= k < |run| && run[i].latest.Some?
    ensures run[k].latest.Some?
    ensures run[k].latest == run[i].latest || run[i].latest.value.number < run[k].latest.value.number
  {
    hide StepTo;
    hide StoresAt;
    hide GoesDownAt;
    if i < k {
      NumbersGrow(run, actions, interval, i, k - 1);
      StepStores(run, actions, interval, k - 1);
    }
  }

  /** Once up, `connected` stays so until it is set to false. */
  lemma {:induction false} StaysUp(run: seq<Shared>, actions: seq<Action>, interval: nat, i: nat, k: nat)
    requires IsRun(run, actions, interval) && i <= k < |run| && run[i].connected
    requires forall j :: i <= j < k ==> !GoesDownAt(actions, j)
    ensures run[k].connected
  {
    hide StepTo;
    hide StoresAt;
    hide GoesDownAt;
    if i < k {
      StaysUp(run, actions, interval, i, k - 1);
      StepStores(run, actions, interval, k - 1);
    }
  }

  /** The step that stored the sample found at `k`, if it was stored after `i`. */
  lemma {:induction false} StoredSince(run: seq<Shared>, actions: seq<Action>, interval: nat, i: nat, k: nat)
    returns (t: nat)
    requires IsRun(run, actions, interval) && i <= k < |run|
    requires run[i].latest != run[k].latest
    ensures i <= t < k && StoresAt(run, actions, t)
    ensures run[t + 1].latest == run[k].latest
  {
    hide StepTo;
    StepStores(run, actions, interval, k - 1);
    if StoresAt(run, actions, k - 1) {
      t := k - 1;
    } else {
      t := StoredSince(run, actions, interval, i, k - 1);
    }
  }

  lemma StaysYoung(sample: Option<Kept>, now: nat, later: nat, interval: nat)
    requires now <= later && IsYoung(sample, later, interval)
    ensures sample.Some? && IsYoung(sample, now, interval)
  {
  }

  /** A fresh verdict is that of a single instant within the call, whatever the writer did
      meanwhile: a sample is stored only after `connected` is raised. */
  lemma {:induction false} FreshIsOneInstant(run: seq<Shared>, actions: seq<Action>, interval: nat, reading: Reading,
                                            load: nat, lock: nat, judge: nat)
    requires IsRun(run, actions, interval) && load <= lock <= judge < |run|
    requires TakenAt(run, reading, interval, load, lock, judge) && reading.isFresh
    ensures exists t :: load <= t <= judge && ReadingAt(run[t], interval) == reading
  {
    hide StepTo;
    hide IsYoung;
    var t := load;
    if run[load].latest != run[judge].latest {
      t := StoredSince(run, actions, interval, load, judge);
      StepStores(run, actions, interval, t);
      t := t + 1;
    }
    RunKeepsInv(run, actions, interval, judge);
    StaysYoung(reading.sample, run[t].now, run[judge].now, interval);
    assert ReadingAt(run[t], interval) == reading;
  }

  /** The sample read was stored between loading `connected`, then still false, and taking the
      lock; it is young when judged, and nothing has set `connected` to false since. */
  ghost predicate OvertakenBySample(run: seq<Shared>, actions: seq<Action>, interval: nat, load: nat, lock: nat,
                                    judge: nat)
    requires load <= lock <= judge < |run| == |actions| + 1
  {
    && !run[load].connected
    && IsYoung(run[lock].latest, run[judge].now, interval)
    && exists k :: && load <= k < lock && LastStore(run, actions, k, lock)
                   && forall j :: k < j < judge ==> !GoesDownAt(actions, j)
  }

  /** The last action before `until` that stores a sample. */
  ghost predicate LastStore(run: seq<Shared>, actions: seq<Action>, k: nat, until: nat)
    requires k < until <= |actions| < |run|
  {
    StoresAt(run, actions, k) && forall j :: k < j < until ==> !StoresAt(run, actions, j)
  }

  lemma {:induction false} NothingStored(run: seq<Shared>, actions: seq<Action>, interval: nat, i: nat, k: nat)
    requires IsRun(run, actions, interval) && i <= k < |run|
    requires forall j :: i <= j < k ==> !StoresAt(run, actions, j)
    ensures run[k].latest == run[i].latest
  {
    hide StepTo;
    hide StoresAt;
    if i < k {
      NothingStored(run, actions, interval, i, k - 1);
      StepStores(run, actions, interval, k - 1);
    }
  }

  lemma {:induction false} FindLastStore(run: seq<Shared>, actions: seq<Action>, interval: nat, load: nat, lock: nat)
    returns (k: nat)
    requires IsRun(run, actions, interval) && load <= lock < |run| && run[load].latest != run[lock].latest
    ensures load <= k < lock && LastStore(run, actions, k, lock)
    ensures run[k + 1].latest == run[lock].latest
    decreases lock
  {
    hide StepTo;
    hide StoresAt;
    StepStores(run, actions, interval, lock - 1);
    if StoresAt(run, actions, lock - 1) {
      k := lock - 1;
    } else {
      k := FindLastStore(run, actions, interval, load, lock - 1);
    }
  }

  /** A reading, fresh or not, is that of a single instant within the call, unless a sample overtook
      it: exactly then the sample returned is newer than the verdict beside it. */
  lemma {:induction false} OneInstantExactlyUnlessOvertaken(run: seq<Shared>, actions: seq<Action>, interval: nat,
                                                           reading: Reading, load: nat, lock: nat, judge: nat)
    requires IsRun(run, actions, interval) && load <= lock <= judge < |run|
    requires TakenAt(run, reading, interval, load, lock, judge)
    ensures (exists t :: load <= t <= judge && ReadingAt(run[t], interval) == reading)
            <==> !OvertakenBySample(run, actions, interval, load, lock, judge)
  {
    hide StepTo;
    hide IsYoung;
    hide LastStore;
    hide StoresAt;
    hide GoesDownAt;
    if OvertakenBySample(run, actions, interval, load, lock, judge) {
      var k :| && load <= k < lock && LastStore(run, actions, k, lock)
               && forall j :: k < j < judge ==> !GoesDownAt(actions, j);
      forall t | load <= t <= judge ensures ReadingAt(run[t], interval) != reading {
        OvertakenMatchesNone(run, actions, interval, reading, load, lock, judge, k, t);
      }
    } else {
      MatchesOne(run, actions, interval, reading, load, lock, judge);
    }
  }

  lemma {:induction false} OvertakenMatchesNone(run: seq<Shared>, actions: seq<Action>, interval: nat, reading: Reading,
                                                load: nat, lock: nat, judge: nat, k: nat, t: nat)
    requires IsRun(run, actions, interval) && load <= k < lock <= judge < |run| && load <= t <= judge
    requires TakenAt(run, reading, interval, load, lock, judge)
    requires !run[load].connected && IsYoung(run[lock].latest, run[judge].now, interval)
    requires LastStore(run, actions, k, lock) && forall j :: k < j < judge ==> !GoesDownAt(actions, j)
    ensures ReadingAt(run[t], interval) != reading
  {
    hide StepTo;
    hide IsYoung;
    hide GoesDownAt;
    StepStores(run, actions, interval, k);
    NothingStored(run, actions, interval, k + 1, lock);
    RunKeepsInv(run, actions, interval, judge);
    if t <= k {
      if run[t].latest.Some? {
        NumbersGrow(run, actions, interval, t, k);
      }
    } else {
      StaysUp(run, actions, interval, k + 1, t);
      StaysYoung(reading.sample, run[t].now, run[judge].now, interval);
    }
  }

  lemma {:induction false} MatchesOne(run: seq<Shared>, actions: seq<Action>, interval: nat, reading: Reading,
                                            load: nat, lock: nat, judge: nat)
    requires IsRun(run, actions, interval) && load <= lock <= judge < |run|
    requires TakenAt(run, reading, interval, load, lock, judge)
    requires !OvertakenBySample(run, actions, interval, load, lock, judge)
    ensures exists t :: load <= t <= judge && ReadingAt(run[t], interval) == reading
  {
    hide StepTo;
    hide IsYoung;
    hide LastStore;
    hide StoresAt;
    hide GoesDownAt;
    if reading.isFresh {
      FreshIsOneInstant(run, actions, interval, reading, load, lock, judge);
    } else if !IsYoung(reading.sample, run[judge].now, interval) {
      assert ReadingAt(run[judge], interval) == reading;
    } else if run[load].latest == reading.sample {
      assert ReadingAt(run[load], interval) == reading;
    } else {
      StaysYoung(reading.sample, run[judge].now, run[judge].now, interval);
      var k := FindLastStore(run, actions, interval, load, lock);
      var j :| k < j < judge && GoesDownAt(actions, j);
      StepStores(run, actions, interval, k);
      StepStores(run, actions, interval, j);
      SameBetween(run, actions, interval, k + 1, j + 1, judge);
      assert ReadingAt(run[j + 1], interval) == reading;
    }
  }

  lemma SameBetween(run: seq<Shared>, actions: seq<Action>, interval: nat, i: nat, j: nat, k: nat)
    requires IsRun(run, actions, interval) && i <= j <= k < |run|
    requires run[i].latest.Some? && run[i].latest == run[k].latest
    ensures run[j].latest == run[i].latest
  {
    hide StepTo;
    NumbersGrow(run, actions, interval, i, j);
    NumbersGrow(run, actions, interval, j, k);
  }

  /** What a reader may conclude from a fresh verdict: at some instant of its call the link was
      up, and the sample it got was the latest and no older than the window. */
  lemma {:induction false} FreshMeans(run: seq<Shared>, actions: seq<Action>, interval: nat, id: nat, k: nat)
    returns (t: nat)
    requires IsRun(run, actions, interval) && k < |run|
    requires id in run[k].readers && run[k].readers[id].Done? && run[k].readers[id].reading.isFresh
    ensures t < k && run[t].connected && run[t].latest.Some?
    ensures run[k].readers[id].reading.sample == run[t].latest
    ensures var age := run[t].now - run[t].latest.value.stamped.at;
            age <= 3 * interval || age <= 5_000_000_000
    ensures id in run[t].readers || id in run[t + 1].readers
  {
    hide StepTo;
    var reading := run[k].readers[id].reading;
    var load, lock, judge := ReadingExplained(run, actions, interval, id, k);
    FreshIsOneInstant(run, actions, interval, reading, load, lock, judge);
    t :| load <= t <= judge && ReadingAt(run[t], interval) == reading;
  }

  // ---------- Alone, the calls do what they say ----------

  function Continues(s: Shared, n: nat): Shared
    decreases n
  {
    if n == 0 || s.writer == Resting || !Enabled(s, Continue) then s else Continues(Write(s), n - 1)
  }

  /** Undisturbed, recording a reconnect counts it and marks the link up, and setting `connected`
      does just that. */
  lemma OthersAlone(s: Shared, up: bool, interval: nat)
    requires s.writer == Resting
    ensures Apply(s, Begin(SetConnected(up)), interval) == s.(connected := up)
    ensures Continues(Apply(s, Begin(RecordReconnect), interval), 1)
            == s.(reconnects := s.reconnects + 1, connected := true)
  {
    var s1 := Apply(s, Begin(RecordReconnect), interval);
    assert Continues(s1, 1) == Continues(Write(s1), 0);
  }

  /** Undisturbed, recording a sample counts it, raises `connected` and stores the sample. */
  lemma RecordAlone(s: Shared, m: Measurement, interval: nat)
    requires Inv(s) && s.writer == Resting && s.lock == Free
    ensures Continues(Apply(s, Begin(Record(m)), interval), 4)
            == s.(samples := s.samples + 1, connected := true, latest := Some(Kept(Stamped(m, s.now), s.samples + 1)))
  {
    var s1 := Apply(s, Begin(Record(m)), interval);
    var s2 := Write(s1);
    var s3 := Write(s2);
    var s4 := Write(s3);
    assert Continues(s4, 1) == Continues(Write(s4), 0);
    assert Continues(s3, 2) == Continues(s4, 1);
    assert Continues(s2, 3) == Continues(s3, 2);
  }

  /** A link that was up is given up; the reader loads `connected`; a sample arrives after all; the
      reader then finds it. */
  function TornRun(m: Measurement, interval: nat): seq<Shared> {
    var s0 := Shared(0, false, 0, 0, None, Free, Resting, map[]);
    var up := s0.(connected := true);
    var s1 := s0.(readers := map[0 := Loaded(false)]);
    var s2 := s1.(samples := 1, writer := Counted(m));
    var s3 := s2.(connected := true, writer := Raised(m));
    var s4 := s3.(lock := ByWriter, writer := Storing(m));
    var s5 := s4.(latest := Some(Kept(Stamped(m, 0), 1)), writer := Stored);
    var s6 := s5.(lock := Free, writer := Resting);
    var s7 := s6.(lock := ByReader(0), readers := map[0 := Locked(false)]);
    var s8 := s7.(readers := map[0 := Cloned(false, s5.latest)]);
    var s9 := s8.(readers := map[0 := Judged(Reading(s5.latest, false))]);
    var s10 := s9.(lock := Free, readers := map[0 := Done(Reading(s5.latest, false))]);
    [s0, up, s0, s1, s2, s3, s4, s5, s6, s7, s8, s9, s10]
  }

  function TornActions(m: Measurement): seq<Action> {
    [Begin(SetConnected(true)), Begin(SetConnected(false)), Read(0), Begin(Record(m)),
     Continue, Continue, Continue, Continue, Read(0), Read(0), Read(0), Read(0)]
  }

  /** So a reading can be of no instant: a sample newer than the verdict beside it. */
  lemma {:induction false} VerdictFromBeforeItsSample(m: Measurement, interval: nat)
    ensures var run := TornRun(m, interval);
            && IsRun(run, TornActions(m), interval)
            && run[12].readers == map[0 := Done(Reading(Some(Kept(Stamped(m, 0), 1)), false))]
            && forall t :: 0 <= t <= 12 ==> ReadingAt(run[t], interval) != run[12].readers[0].reading
  {
    var run := TornRun(m, interval);
    var actions := TornActions(m);
    forall k | 0 <= k < |actions| ensures StepTo(run[k], actions[k], run[k + 1], interval) {
      assert Enabled(run[k], actions[k]);
      assert run[k + 1] == Apply(run[k], actions[k], interval);
    }
  }
}
