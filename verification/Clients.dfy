/** The clients currently streaming, and the fan-out to them. */
module Clients {

  import opened Protocol
  import opened Mailboxes
  import opened Stats

  /** The members of `list` that are in `kept`, in order. */
  function Retain(list: seq<nat>, kept: set<nat>): (r: seq<nat>)
    ensures forall id :: id in r <==> id in list && id in kept
  {
    if list == [] then []
    else
      var rest := Retain(list[..|list| - 1], kept);
      if list[|list| - 1] in kept then rest + [list[|list| - 1]] else rest
  }

  lemma {:induction false} RetainDistinct(list: seq<nat>, kept: set<nat>)
    requires Distinct(list)
    ensures Distinct(Retain(list, kept))
    decreases |list|
  {
    if list != [] {
      RetainDistinct(list[..|list| - 1], kept);
    }
  }

  lemma {:induction false} RetainAll(list: seq<nat>, kept: set<nat>)
    requires forall id :: id in list ==> id in kept
    ensures Retain(list, kept) == list
    decreases |list|
  {
    if list != [] {
      RetainAll(list[..|list| - 1], kept);
    }
  }

  /** Order is kept: what is retained of a list is what is retained of its parts, in turn. */
  lemma {:induction false} RetainConcat(a: seq<nat>, b: seq<nat>, kept: set<nat>)
    ensures Retain(a + b, kept) == Retain(a, kept) + Retain(b, kept)
    decreases |b|
  {
    if b == [] {
      assert a + b == a;
    } else {
      assert (a + b)[..|a + b| - 1] == a + b[..|b| - 1];
      RetainConcat(a, b[..|b| - 1], kept);
    }
  }

  class ClientList {
    var list: seq<nat>
    const hub: Hub
    const stats: AgentStats

    /** The reported count is the length of the list, which names open mailboxes. */
    ghost predicate Valid()
      reads this, hub, stats
    {
      && hub.Valid()
      && Distinct(list)
      && (forall id :: id in list ==> id in hub.boxes)
      && stats.clients == |list|
    }

    constructor (hub: Hub, stats: AgentStats)
      requires hub.Valid()
      modifies stats`clients
      ensures Valid() && list == [] && this.hub == hub && this.stats == stats
    {
      this.list, this.hub, this.stats := [], hub, stats;
      new;
      PublishCount();
    }

    method PublishCount()
      modifies stats`clients
      ensures stats.clients == |list|
    {
      stats.SetClients(|list|);
    }

    method Add(id: nat)
      requires Valid() && id in hub.boxes && id !in list
      modifies this, stats`clients
      ensures Valid() && list == old(list) + [id]
    {
      list := list + [id];
      PublishCount();
    }

    /** Every client is offered the message, in order; exactly those that took it stay. One
        is dropped only because it hung up or because its queue was full. */
    method Broadcast(message: Response)
      requires Valid()
      modifies this, hub`boxes, stats`clients
      ensures Valid() && hub.boxes.Keys == old(hub.boxes).Keys
      ensures exists kept :: list == Retain(old(list), kept)
      ensures forall id :: id in old(list) ==> Offered(old(hub.boxes)[id], hub.boxes[id], message, id in list)
      ensures forall id :: id in hub.boxes && id !in old(list) ==> hub.boxes[id] == old(hub.boxes)[id]
    {
      var before := |list|;
      var kept := hub.SendAll(list, message);
      RetainDistinct(list, kept);
      list := Retain(list, kept);
      if |list| != before {
        PublishCount();
      }
    }

    /** Clients found to have gone leave the list; nobody is sent anything. */
    method Reap()
      requires Valid()
      modifies this, hub`boxes, stats`clients
      ensures Valid() && hub.boxes.Keys == old(hub.boxes).Keys
      ensures exists kept :: list == Retain(old(list), kept)
      ensures forall id :: id in hub.boxes ==> Progress(old(hub.boxes)[id], hub.boxes[id])
      ensures forall id :: id in list ==> !old(hub.boxes)[id].closed
      ensures forall id :: id in old(list) && id !in list ==> hub.boxes[id].closed
      ensures forall id :: id in hub.boxes && id !in old(list) ==> hub.boxes[id] == old(hub.boxes)[id]
    {
      var any, _ := hub.HungUp(list);
      if any {
        var _, gone := hub.HungUp(list);
        var kept := (set id | id in list) - gone;
        RetainDistinct(list, kept);
        list := Retain(list, kept);
        PublishCount();
      } else {
        RetainAll(list, set id | id in list);
      }
    }

    /** Forget everyone, leaving each a last message where there is room for it. */
    method Dismiss(last: Response)
      requires Valid()
      modifies this, hub`boxes, stats`clients
      ensures Valid() && hub.boxes.Keys == old(hub.boxes).Keys && list == []
      ensures forall id :: id in old(list) ==> exists taken :: Offered(old(hub.boxes)[id], hub.boxes[id], last, taken)
      ensures forall id :: id in hub.boxes && id !in old(list) ==> hub.boxes[id] == old(hub.boxes)[id]
    {
      var previous := list;
      list := [];
      PublishCount();
      var taken := hub.SendAll(previous, last);
    }

    method Abort(reason: Reason)
      requires Valid()
      modifies this, hub`boxes, stats`clients
      ensures Valid() && hub.boxes.Keys == old(hub.boxes).Keys && list == []
      ensures forall id :: id in old(list) ==>
                                exists taken :: Offered(old(hub.boxes)[id], hub.boxes[id], Error(reason), taken)
      ensures forall id :: id in hub.boxes && id !in old(list) ==> hub.boxes[id] == old(hub.boxes)[id]
    {
      Dismiss(Error(reason));
    }

    method End()
      requires Valid()
      modifies this, hub`boxes, stats`clients
      ensures Valid() && hub.boxes.Keys == old(hub.boxes).Keys && list == []
      ensures forall id :: id in old(list) ==>
                                exists taken :: Offered(old(hub.boxes)[id], hub.boxes[id], StreamEnd, taken)
      ensures forall id :: id in hub.boxes && id !in old(list) ==> hub.boxes[id] == old(hub.boxes)[id]
    {
      Dismiss(StreamEnd);
    }
  }
}
