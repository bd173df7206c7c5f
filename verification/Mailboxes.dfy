/** The bounded channels between the actor and the connection handlers.

    The receiving end runs concurrently: between two looks of the actor at a channel the
    receiver may have taken any number of messages and may have hung up. Each access
    therefore begins with an arbitrary amount of such progress on the channel accessed;
    progress on a channel commutes with everything done to the others. */
module Mailboxes {

  import opened Protocol

  /** How many messages may queue for one client. */
  const CLIENT_QUEUE_LEN := 64

  datatype Mailbox = Mailbox(sent: seq<Response>, received: nat, closed: bool)
  {
    predicate Valid() {
      received <= |sent| <= received + CLIENT_QUEUE_LEN
    }

    predicate Full() {
      |sent| >= received + CLIENT_QUEUE_LEN
    }
  }

  /** What the receiver may do in between. */
  ghost predicate Progress(a: Mailbox, b: Mailbox) {
    b.sent == a.sent && a.received <= b.received && (a.closed ==> b.closed)
  }

  /** The message went in, or it did not because the receiver is gone or the queue full. */
  ghost predicate Offered(a: Mailbox, b: Mailbox, message: Response, taken: bool) {
    && a.received <= b.received && (a.closed ==> b.closed)
    && b.sent == a.sent + (if taken then [message] else [])
    && (taken ==> !a.closed)
    && (!taken ==> b.closed || (a.Full() && b.Full()))
  }

  ghost predicate Distinct(list: seq<nat>) {
    forall i, j :: 0 <= i < j < |list| ==> list[i] != list[j]
  }

  datatype SendOutcome = Sent | IsFull | IsClosed

  class Hub {
    var boxes: map<nat, Mailbox>
    var next: nat

    ghost predicate Valid()
      reads this
    {
      forall id :: id in boxes ==> id < next && boxes[id].Valid()
    }

    constructor ()
      ensures Valid() && boxes == map[] && next == 0
    {
      boxes, next := map[], 0;
    }

    method Open() returns (id: nat)
      requires Valid()
      modifies this
      ensures Valid() && id == old(next) && id !in old(boxes)
      ensures boxes == old(boxes)[id := Mailbox([], 0, false)]
    {
      id := next;
      boxes, next := boxes[id := Mailbox([], 0, false)], next + 1;
    }

    method Observe(id: nat)
      requires Valid() && id in boxes
      modifies this`boxes
      ensures Valid() && boxes.Keys == old(boxes).Keys
      ensures Progress(old(boxes)[id], boxes[id])
      ensures forall other :: other in boxes && other != id ==> boxes[other] == old(boxes)[other]
    {
      var box := boxes[id];
      var received: nat, closed :| box.received <= received <= |box.sent| && (box.closed ==> closed);
      boxes := boxes[id := Mailbox(box.sent, received, closed)];
    }

    method TrySend(id: nat, message: Response) returns (outcome: SendOutcome)
      requires Valid() && id in boxes
      modifies this`boxes
      ensures Valid() && boxes.Keys == old(boxes).Keys
      ensures forall other :: other in boxes && other != id ==> boxes[other] == old(boxes)[other]
      ensures Offered(old(boxes)[id], boxes[id], message, outcome == Sent)
      ensures outcome == IsClosed <==> boxes[id].closed
      ensures outcome == IsFull ==> |boxes[id].sent| == boxes[id].received + 64
      ensures |boxes[id].sent| <= boxes[id].received + 64
    {
      Observe(id);
      var box := boxes[id];
      if box.closed {
        return IsClosed;
      }
      if box.Full() {
        return IsFull;
      }
      boxes := boxes[id := box.(sent := box.sent + [message])];
      return Sent;
    }

    /** Offer one message to each of `ids` in turn; `taken` are those it went in for. */
    method SendAll(ids: seq<nat>, message: Response) returns (taken: set<nat>)
      requires Valid() && Distinct(ids) && forall id :: id in ids ==> id in boxes
      modifies this`boxes
      ensures Valid() && boxes.Keys == old(boxes).Keys
      ensures forall id :: id in ids ==> Offered(old(boxes)[id], boxes[id], message, id in taken)
      ensures forall id :: id in boxes && id !in ids ==> boxes[id] == old(boxes)[id]
    {
      hide Offered;
      taken := {};
      for i := 0 to |ids|
        invariant Valid() && boxes.Keys == old(boxes).Keys
        invariant forall id :: id in taken ==> id in ids[..i]
        invariant forall id :: id in ids[..i] ==> Offered(old(boxes)[id], boxes[id], message, id in taken)
        invariant forall id :: id in boxes && id !in ids[..i] ==> boxes[id] == old(boxes)[id]
      {
        assert ids[i] !in ids[..i];
        assert ids[..i + 1] == ids[..i] + [ids[i]];
        var outcome := TrySend(ids[i], message);
        if outcome == Sent {
          taken := taken + {ids[i]};
        }
      }
      assert ids[..|ids|] == ids;
    }

    /** Look at each of `ids` in turn for receivers that are gone. */
    method HungUp(ids: seq<nat>) returns (any: bool, gone: set<nat>)
      requires Valid() && forall id :: id in ids ==> id in boxes
      modifies this`boxes
      ensures Valid() && boxes.Keys == old(boxes).Keys
      ensures any <==> gone != {}
      ensures forall id :: id in boxes ==> Progress(old(boxes)[id], boxes[id])
      ensures forall id :: id in gone ==> id in ids && boxes[id].closed
      ensures forall id :: id in ids && old(boxes)[id].closed ==> id in gone
      ensures forall id :: id in boxes && id !in ids ==> boxes[id] == old(boxes)[id]
    {
      gone := {};
      for i := 0 to |ids|
        invariant Valid() && boxes.Keys == old(boxes).Keys
        invariant forall id :: id in boxes ==> Progress(old(boxes)[id], boxes[id])
        invariant forall id :: id in gone ==> id in ids && boxes[id].closed
        invariant forall k :: 0 <= k < i && old(boxes)[ids[k]].closed ==> ids[k] in gone
        invariant forall id :: id in boxes && id !in ids ==> boxes[id] == old(boxes)[id]
      {
        Observe(ids[i]);
        if boxes[ids[i]].closed {
          gone := gone + {ids[i]};
        }
      }
      any := gone != {};
    }
  }
}
