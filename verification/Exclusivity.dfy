/** Starting and stopping agents over one pid path and one socket path: any number of processes,
    interleaved step by step, that may crash anywhere. A claim is a lock on the file that was
    found at the pid path, which need not be the file found there later. */
module Exclusivity {

  import opened Options

  type Inode = nat
  type Process = nat

  datatype Cleanup = RemoveSocket | RemovePid | Unlock

  /** What is left to do when a process goes, in this order. */
  type Order = seq<Cleanup>

  /** The agent's order. Dropping the guard removes both files; the lock goes with the file
      handle, which is dropped after. */
  const ORDER: Order := [RemoveSocket, RemovePid, Unlock]

  /** Where a process is, and the file it opened at the pid path. */
  datatype Phase =
    | Opened(inode: Inode)
    | Claimed(inode: Inode)
    | Probed(inode: Inode)
    | Cleared(inode: Inode)
    | Bound(inode: Inode)
    | Serving(inode: Inode)
    | Tearing(inode: Inode, rest: Order)

  datatype World = World(
    inodes: nat,                      // created so far
    pidPath: Option<Inode>,
    written: map<Inode, Process>,     // the pid each file holds
    locks: map<Inode, Process>,
    socket: Option<Process>,          // who bound the socket at its path
    procs: map<Process, Phase>)

  datatype Action =
    | Open(p: Process)
    | Lock(p: Process)
    | Probe(p: Process, answered: bool)
    | ClearSocket(p: Process)
    | Bind(p: Process, ok: bool)
    | WritePid(p: Process)
    | Stop(p: Process)
    | TearDown(p: Process)
    | Crash(p: Process)

  predicate Init(w: World) {
    && w.procs == map[]
    && w.locks == map[]
    && (w.pidPath.Some? ==> w.pidPath.value < w.inodes)
  }

  /** Only an agent that serves answers a probe, and even that one may be too slow to. */
  predicate Answers(w: World) {
    w.socket.Some? && w.socket.value in w.procs && w.procs[w.socket.value].Serving?
  }

  predicate Enabled(w: World, a: Action) {
    if a.Open? then a.p !in w.procs
    else
      a.p in w.procs &&
      match a
      case Lock(p) => w.procs[p].Opened?
      case Probe(p, answered) => w.procs[p].Claimed? && (answered ==> Answers(w))
      case ClearSocket(p) => w.procs[p].Probed?
      case Bind(p, ok) => w.procs[p].Cleared? && (ok ==> w.socket == None)
      case WritePid(p) => w.procs[p].Bound?
      case Stop(p) => w.procs[p].Bound? || w.procs[p].Serving?
      case TearDown(p) => w.procs[p].Tearing? && w.procs[p].rest != []
      case Crash(p) => true
  }

  function Become(w: World, p: Process, phase: Phase): World {
    w.(procs := w.procs[p := phase])
  }

  /** A process ends, and with it whatever lock it holds. */
  function End(w: World, p: Process): World {
    w.(procs := w.procs - {p}, locks := map i | i in w.locks && w.locks[i] != p :: w.locks[i])
  }

  function TearDownStep(w: World, p: Process): World
    requires Enabled(w, TearDown(p))
  {
    var i, rest := w.procs[p].inode, w.procs[p].rest;
    var w1 :=
      match rest[0]
      case RemoveSocket => w.(socket := None)
      case RemovePid => w.(pidPath := None)
      case Unlock => w.(locks := w.locks - {i});
    if |rest| == 1 then End(w1, p) else Become(w1, p, Tearing(i, rest[1..]))
  }

  function Apply(w: World, a: Action, order: Order): World
    requires Enabled(w, a)
  {
    match a
    case Open(p) =>
      (match w.pidPath
       case Some(i) => Become(w, p, Opened(i))
       case None => Become(w, p, Opened(w.inodes)).(inodes := w.inodes + 1, pidPath := Some(w.inodes)))
    case Lock(p) =>
      var i := w.procs[p].inode;
      if i in w.locks then End(w, p) else Become(w, p, Claimed(i)).(locks := w.locks[i := p])
    case Probe(p, answered) =>
      // The guard does not exist yet: bailing out only closes the pid file.
      Become(w, p, if answered then Tearing(w.procs[p].inode, [Unlock]) else Probed(w.procs[p].inode))
    case ClearSocket(p) => Become(w, p, Cleared(w.procs[p].inode)).(socket := None)
    case Bind(p, ok) =>
      if ok then Become(w, p, Bound(w.procs[p].inode)).(socket := Some(p))
      else Become(w, p, Tearing(w.procs[p].inode, order))
    case WritePid(p) =>
      Become(w, p, Serving(w.procs[p].inode)).(written := w.written[w.procs[p].inode := p])
    case Stop(p) => Become(w, p, Tearing(w.procs[p].inode, order))
    case TearDown(p) => TearDownStep(w, p)
    case Crash(p) => End(w, p)
  }

  // ---------- What is promised ----------

  /** From a successful claim to the start of the teardown. */
  predicate Live(phase: Phase) {
    !phase.Opened? && !phase.Tearing?
  }

  /** At most one agent, and nobody has removed its socket. */
  ghost predicate Exclusive(w: World) {
    && (forall p, q :: p in w.procs && q in w.procs && Live(w.procs[p]) && Live(w.procs[q]) ==> p == q)
    && (forall p :: p in w.procs && (w.procs[p].Bound? || w.procs[p].Serving?) ==> w.socket == Some(p))
  }

  /** The pid file is unlinked between another process's open and its lock. */
  ghost predicate Races(w: World, a: Action) {
    && a.TearDown?
    && Enabled(w, a)
    && w.procs[a.p].rest[0] == RemovePid
    && exists q :: q in w.procs && w.procs[q].Opened?
  }

  ghost predicate Next(w: World, w': World, order: Order) {
    exists a :: Enabled(w, a) && !Races(w, a) && w' == Apply(w, a, order)
  }

  ghost predicate RaceFree(run: seq<World>, order: Order) {
    run != [] && forall k :: 1 <= k < |run| ==> Next(run[k - 1], run[k], order)
  }

  /** However the processes go on from here without racing, exclusivity holds throughout. */
  ghost predicate Safe(w: World, order: Order) {
    forall run :: RaceFree(run, order) && run[0] == w ==> Exclusive(run[|run| - 1])
  }

  // ---------- The invariant ----------

  predicate Holds(phase: Phase) {
    !phase.Opened?
  }

  /** Its file is the one at the pid path; everybody's is, but for a process with only the lock left. */
  predicate Anchored(phase: Phase) {
    phase.Tearing? ==> phase.rest != [Unlock]
  }

  ghost predicate Fits(w: World, p: Process)
    requires p in w.procs
  {
    var phase := w.procs[p];
    && phase.inode < w.inodes
    && (Anchored(phase) ==> w.pidPath == Some(phase.inode))
    && (Holds(phase) ==> phase.inode in w.locks && w.locks[phase.inode] == p)
    && (phase.Cleared? ==> w.socket == None)
    && (phase.Bound? || phase.Serving? ==> w.socket == Some(p))
    && (phase.Serving? ==> phase.inode in w.written && w.written[phase.inode] == p)
    && (phase.Tearing? ==> phase.rest == ORDER || phase.rest == ORDER[1..] || phase.rest == ORDER[2..])
    && (phase.Tearing? && phase.rest == ORDER ==> w.socket == None || w.socket == Some(p))
    && (phase.Tearing? && phase.rest == ORDER[1..] ==> w.socket == None)
    && (phase.Tearing? && phase.rest == ORDER[2..] ==> w.pidPath != Some(phase.inode) && w.socket != Some(p))
  }

  ghost predicate Inv(w: World) {
    && (w.pidPath.Some? ==> w.pidPath.value < w.inodes)
    && (forall i :: i in w.locks ==> i < w.inodes)
    && (forall p :: p in w.procs ==> Fits(w, p))
  }

  lemma InvExcludes(w: World)
    requires Inv(w)
    ensures Exclusive(w)
  {
  }

  lemma TearDownKeepsInv(w: World, p: Process)
    requires Inv(w) && Enabled(w, TearDown(p)) && !Races(w, TearDown(p))
    ensures Inv(TearDownStep(w, p))
  {
    var w' := TearDownStep(w, p);
    assert Fits(w, p);
    forall q | q in w'.procs ensures Fits(w', q) {
      assert Fits(w, q);
    }
  }

  lemma ClaimKeepsInv(w: World, a: Action)
    requires Inv(w) && Enabled(w, a) && (a.Open? || a.Lock?)
    ensures Inv(Apply(w, a, ORDER))
  {
    hide TearDownStep;
    hide Answers;
    var w' := Apply(w, a, ORDER);
    forall q | q in w'.procs ensures Fits(w', q) {
      if q != a.p { assert Fits(w, q); }
      if a.p in w.procs { assert Fits(w, a.p); }
    }
  }

  /** Among agents that all take the claim, the probe never finds one: the claim has ruled it out. */
  lemma NobodyAnswers(w: World, p: Process)
    requires Inv(w) && p in w.procs && w.procs[p].Claimed?
    ensures !Answers(w)
  {
    assert Fits(w, p);
  }

  lemma StepKeepsInv(w: World, a: Action)
    requires Inv(w) && Enabled(w, a) && !Races(w, a)
    ensures Inv(Apply(w, a, ORDER))
  {
    hide TearDownStep;
    hide Answers;
    var w' := Apply(w, a, ORDER);
    if a.Probe? {
      NobodyAnswers(w, a.p);
    }
    if a.TearDown? {
      TearDownKeepsInv(w, a.p);
    } else if a.Open? || a.Lock? {
      ClaimKeepsInv(w, a);
    } else {
      forall q | q in w'.procs ensures Fits(w', q) {
        assert Fits(w, q) && Fits(w, a.p);
      }
    }
  }

  /** Over every interleaving without that race, however many processes start, stop and crash. */
  lemma {:induction false} RunKeepsInv(run: seq<World>, k: nat)
    requires RaceFree(run, ORDER) && Inv(run[0]) && k < |run|
    ensures Inv(run[k])
  {
    if k > 0 {
      RunKeepsInv(run, k - 1);
      assert Next(run[k - 1], run[k], ORDER);
      var a :| Enabled(run[k - 1], a) && !Races(run[k - 1], a) && run[k] == Apply(run[k - 1], a, ORDER);
      StepKeepsInv(run[k - 1], a);
    }
  }

  /** Whatever earlier agents left behind, dead or alive, agents exclude each other. */
  lemma AgentsExcludeEachOther(w: World)
    requires Init(w) || Inv(w)
    ensures Safe(w, ORDER)
  {
    forall run | RaceFree(run, ORDER) && run[0] == w ensures Exclusive(run[|run| - 1]) {
      RunKeepsInv(run, |run| - 1);
      InvExcludes(run[|run| - 1]);
    }
  }

  /** Clearing a stale socket and tearing one's own down never unlink a live agent's. */
  lemma RemovalsSpareOthers(w: World, a: Action)
    requires Inv(w) && Enabled(w, a)
    requires a.ClearSocket? || (a.TearDown? && w.procs[a.p].rest[0] == RemoveSocket)
    ensures w.socket.Some? && w.socket.value != a.p ==>
              w.socket.value !in w.procs || !Live(w.procs[w.socket.value])
  {
    assert Fits(w, a.p);
    InvExcludes(w);
  }

  /** While an agent serves, a start is refused, and the pid it reports is that agent's. */
  lemma RefusalNamesTheAgent(w: World, p: Process, q: Process)
    requires Inv(w) && p in w.procs && w.procs[p].Serving? && Enabled(w, Lock(q))
    ensures q !in Apply(w, Lock(q), ORDER).procs
    ensures w.pidPath.Some? && w.pidPath.value in w.written && w.written[w.pidPath.value] == p
  {
    assert Fits(w, p) && Fits(w, q);
  }

  /** Short of a crash, a process that goes leaves nothing of its own behind: it was refused before it
      had anything, or its file and its socket are gone from their paths. */
  lemma GoneLeavesNothing(w: World, a: Action)
    requires Inv(w) && Enabled(w, a) && !a.Crash? && a.p in w.procs && a.p !in Apply(w, a, ORDER).procs
    ensures w.procs[a.p].Opened? ||
            (w.pidPath != Some(w.procs[a.p].inode) && w.socket != Some(a.p)
               && w.procs[a.p].inode !in Apply(w, a, ORDER).locks)
  {
    assert Fits(w, a.p);
  }

  /** Whatever crashed processes left behind, a single start leads to service. */
  lemma StaleFilesDoNotPreventAStart(w: World, p: Process)
    requires Init(w)
    ensures var w6 := AfterStart(w, p);
            && w6.procs == map[p := Serving(w6.procs[p].inode)]
            && w6.socket == Some(p) && w6.pidPath == Some(w6.procs[p].inode)
            && w6.locks == map[w6.procs[p].inode := p]
            && w6.written == w.written[w6.procs[p].inode := p]
  {
  }

  /** A start that nobody interferes with. */
  function AfterStart(w: World, p: Process): World
    requires Init(w)
  {
    var w1 := Apply(w, Open(p), ORDER);
    var w2 := Apply(w1, Lock(p), ORDER);
    var w3 := Apply(w2, Probe(p, false), ORDER);
    var w4 := Apply(w3, ClearSocket(p), ORDER);
    var w5 := Apply(w4, Bind(p, true), ORDER);
    Apply(w5, WritePid(p), ORDER)
  }

  // ---------- The race matters ----------

  lemma UnsafeNow(w: World, order: Order)
    requires !Exclusive(w)
    ensures !Safe(w, order)
  {
    assert RaceFree([w], order);
  }

  lemma UnsafeBefore(w: World, a: Action, order: Order)
    requires Enabled(w, a) && !Races(w, a) && !Safe(Apply(w, a, order), order)
    ensures !Safe(w, order)
  {
    var next := Apply(w, a, order);
    var run :| RaceFree(run, order) && run[0] == next && !Exclusive(run[|run| - 1]);
    var longer := [w] + run;
    forall k | 1 <= k < |longer| ensures Next(longer[k - 1], longer[k], order) {
      if k > 1 { assert Next(run[k - 2], run[k - 1], order); }
    }
    assert longer[|longer| - 1] == run[|run| - 1];
  }

  /** A process that opened the unlinked file can still lock it, and another the new file. */
  lemma OrphanBreaksExclusivity(w: World, q: Process, third: Process)
    requires w.pidPath == None && third !in w.procs
    requires forall i :: i in w.locks ==> i < w.inodes
    requires q in w.procs && w.procs[q].Opened? && w.procs[q].inode !in w.locks && w.procs[q].inode < w.inodes
    ensures !Safe(w, ORDER)
  {
    hide Safe;
    hide Answers;
    hide TearDownStep;
    var w1 := Apply(w, Lock(q), ORDER);
    var w2 := Apply(w1, Open(third), ORDER);
    assert w2.procs[third] == Opened(w.inodes) && w.inodes !in w2.locks;
    var w3 := Apply(w2, Lock(third), ORDER);
    assert w3.procs[q].Claimed? && w3.procs[third].Claimed?;
    UnsafeNow(w3, ORDER);
    UnsafeBefore(w2, Lock(third), ORDER);
    UnsafeBefore(w1, Open(third), ORDER);
    UnsafeBefore(w, Lock(q), ORDER);
  }

  lemma RaceBreaksExclusivity(w: World, a: Action, third: Process)
    requires Inv(w) && Races(w, a) && third !in w.procs
    ensures !Safe(Apply(w, a, ORDER), ORDER)
  {
    hide Safe;
    hide Answers;
    var p := a.p;
    var q :| q in w.procs && w.procs[q].Opened?;
    assert Fits(w, p) && Fits(w, q);
    var w1 := Apply(w, a, ORDER);
    var w2 := Apply(w1, TearDown(p), ORDER);
    OrphanBreaksExclusivity(w2, q, third);
    UnsafeBefore(w1, TearDown(p), ORDER);
  }

  lemma FreshProcess(procs: set<Process>) returns (p: Process)
    ensures forall q :: q in procs ==> q < p
  {
    if procs == {} {
      p := 0;
    } else {
      var r :| r in procs;
      var above := FreshProcess(procs - {r});
      p := if above > r then above else r + 1;
      forall q | q in procs ensures q < p {
        assert q == r || q in procs - {r};
      }
    }
  }

  /** So exclusivity survives a step exactly when the step does not race. */
  lemma SafeExactlyWithoutRace(w: World, a: Action)
    requires Inv(w) && Enabled(w, a)
    ensures Safe(Apply(w, a, ORDER), ORDER) <==> !Races(w, a)
  {
    if Races(w, a) {
      var third := FreshProcess(w.procs.Keys);
      RaceBreaksExclusivity(w, a, third);
    } else {
      StepKeepsInv(w, a);
      AgentsExcludeEachOther(Apply(w, a, ORDER));
    }
  }

  // ---------- The order matters ----------

  const NOBODY := World(0, None, map[], map[], None, map[])

  /** One agent started, served, and is about to be torn down. */
  function Stopping(order: Order): World {
    World(1, Some(0), map[0 := 0], map[0 := 0], Some(0), map[0 := Tearing(0, order)])
  }

  lemma StartThenStop(order: Order)
    requires !Safe(Stopping(order), order)
    ensures !Safe(NOBODY, order)
  {
    hide Safe;
    hide TearDownStep;
    hide Answers;
    var w1 := Apply(NOBODY, Open(0), order);
    var w2 := Apply(w1, Lock(0), order);
    var w3 := Apply(w2, Probe(0, false), order);
    var w4 := Apply(w3, ClearSocket(0), order);
    var w5 := Apply(w4, Bind(0, true), order);
    var w6 := Apply(w5, WritePid(0), order);
    assert Apply(w6, Stop(0), order) == Stopping(order);
    UnsafeBefore(w6, Stop(0), order);
    UnsafeBefore(w5, WritePid(0), order);
    UnsafeBefore(w4, Bind(0, true), order);
    UnsafeBefore(w3, ClearSocket(0), order);
    UnsafeBefore(w2, Probe(0, false), order);
    UnsafeBefore(w1, Lock(0), order);
    UnsafeBefore(NOBODY, Open(0), order);
  }

  lemma SocketRemovedUnderfoot(w: World, order: Order)
    requires w.procs.Keys == {0, 1} && w.procs[1].Bound?
    requires w.procs[0].Tearing? && w.procs[0].rest != [] && w.procs[0].rest[0] == RemoveSocket
    ensures !Safe(w, order)
  {
    hide Safe;
    hide Answers;
    var w1 := Apply(w, TearDown(0), order);
    assert w1.procs[1].Bound? && w1.socket == None;
    UnsafeNow(w1, order);
    UnsafeBefore(w, TearDown(0), order);
  }

  /** With the pid file gone and the socket still to be removed, a newcomer loses its socket. */
  lemma NewcomerLosesItsSocket(w: World, order: Order)
    requires w.inodes == 1 && w.pidPath == None && 1 !in w.locks
    requires w.procs.Keys == {0} && w.procs[0].Tearing? && w.procs[0].rest != [] && w.procs[0].rest[0] == RemoveSocket
    ensures !Safe(w, order)
  {
    hide Safe;
    hide Answers;
    hide TearDownStep;
    hide Exclusive;
    var w1 := Apply(w, Open(1), order);
    var w2 := Apply(w1, Lock(1), order);
    var w3 := Apply(w2, Probe(1, false), order);
    var w4 := Apply(w3, ClearSocket(1), order);
    var w5 := Apply(w4, Bind(1, true), order);
    assert w5.procs.Keys == {0, 1};
    SocketRemovedUnderfoot(w5, order);
    UnsafeBefore(w4, Bind(1, true), order);
    UnsafeBefore(w3, ClearSocket(1), order);
    UnsafeBefore(w2, Probe(1, false), order);
    UnsafeBefore(w1, Lock(1), order);
    UnsafeBefore(w, Open(1), order);
  }

  /** With the lock gone and the pid file still to be removed, a newcomer's claim comes undone. */
  lemma NewcomerLosesItsClaim(w: World, order: Order)
    requires w.inodes == 1 && w.pidPath == Some(0) && w.locks == map[] && w.procs == map[0 := Tearing(0, [RemovePid])]
    ensures !Safe(w, order)
  {
    hide Safe;
    hide Answers;
    var w1 := Apply(w, Open(1), order);
    var w2 := Apply(w1, Lock(1), order);
    var w3 := Apply(w2, TearDown(0), order);
    var w4 := Apply(w3, Open(2), order);
    var w5 := Apply(w4, Lock(2), order);
    assert w5.procs[1].Claimed? && w5.procs[2].Claimed?;
    UnsafeNow(w5, order);
    UnsafeBefore(w4, Lock(2), order);
    UnsafeBefore(w3, Open(2), order);
    UnsafeBefore(w2, TearDown(0), order);
    UnsafeBefore(w1, Lock(1), order);
    UnsafeBefore(w, Open(1), order);
  }

  lemma PidBeforeSocket(order: Order)
    requires order == [RemovePid, RemoveSocket, Unlock] || order == [RemovePid, Unlock, RemoveSocket]
             || order == [Unlock, RemovePid, RemoveSocket]
    ensures !Safe(NOBODY, order)
  {
    var w := Stopping(order);
    var w1 := Apply(w, TearDown(0), order);
    if order[1] == RemoveSocket {
      NewcomerLosesItsSocket(w1, order);
    } else {
      NewcomerLosesItsSocket(Apply(w1, TearDown(0), order), order);
      UnsafeBefore(w1, TearDown(0), order);
    }
    UnsafeBefore(w, TearDown(0), order);
    StartThenStop(order);
  }

  lemma UnlockBeforePid(order: Order)
    requires order == [RemoveSocket, Unlock, RemovePid] || order == [Unlock, RemoveSocket, RemovePid]
    ensures !Safe(NOBODY, order)
  {
    var w := Stopping(order);
    var w1 := Apply(w, TearDown(0), order);
    var w2 := Apply(w1, TearDown(0), order);
    assert w2.locks == map[];
    NewcomerLosesItsClaim(w2, order);
    UnsafeBefore(w1, TearDown(0), order);
    UnsafeBefore(w, TearDown(0), order);
    StartThenStop(order);
  }

  /** Of the six orders in which a process could go, this one alone is safe. */
  lemma OnlyThisOrderIsSafe(order: Order)
    requires multiset(order) == multiset(ORDER)
    ensures (forall w :: Init(w) ==> Safe(w, order)) <==> order == ORDER
  {
    if order == ORDER {
      forall w | Init(w) ensures Safe(w, order) {
        AgentsExcludeEachOther(w);
      }
    } else {
      SixOrders(order);
      if order[0] == RemovePid || order[2] == RemoveSocket {
        PidBeforeSocket(order);
      } else {
        UnlockBeforePid(order);
      }
      assert Init(NOBODY);
    }
  }

  lemma SixOrders(order: Order)
    requires multiset(order) == multiset(ORDER)
    ensures order in [[RemoveSocket, RemovePid, Unlock], [RemoveSocket, Unlock, RemovePid],
                      [RemovePid, RemoveSocket, Unlock], [RemovePid, Unlock, RemoveSocket],
                      [Unlock, RemoveSocket, RemovePid], [Unlock, RemovePid, RemoveSocket]]
  {
    assert |order| == |multiset(order)| == 3;
    assert order == [order[0], order[1], order[2]];
    assert multiset(order) == multiset{order[0], order[1], order[2]};
    assert multiset(ORDER)[RemoveSocket] == multiset(ORDER)[RemovePid] == multiset(ORDER)[Unlock] == 1;
  }
}
