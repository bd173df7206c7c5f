/** What a subscriber is promised: a gap-free run of the recorded samples. */
module Feeds {

  import opened Protocol
  import opened Mailboxes

  function Samples(ms: seq<Measurement>): (r: seq<Response>)
    ensures |r| == |ms|
  {
    seq(|ms|, i requires 0 <= i < |ms| => Sample(ms[i]))
  }

  predicate Terminal(r: Response) {
    r.Error? || r.StreamEnd?
  }

  /** `sent` is everything put in the queue of a client that joined when `from` samples had
      been recorded. While listed it has every sample since; afterwards a contiguous run of
      them and at most one terminal message. */
  ghost predicate FeedOk(sent: seq<Response>, recorded: seq<Measurement>, from: nat, listed: bool) {
    && from <= |recorded|
    && if listed then sent == Samples(recorded[from..]) else Ended(sent, recorded, from)
  }

  ghost predicate Ended(sent: seq<Response>, recorded: seq<Measurement>, from: nat)
    requires from <= |recorded|
  {
    exists to: nat :: EndedAt(sent, recorded, from, to)
  }

  ghost predicate EndedAt(sent: seq<Response>, recorded: seq<Measurement>, from: nat, to: nat)
    requires from <= |recorded|
  {
    && from <= to <= |recorded|
    && (sent == Samples(recorded[from..to])
        || (|sent| == to - from + 1 && Terminal(sent[to - from]) && sent[..to - from] == Samples(recorded[from..to])))
  }

  lemma {:induction false} SampleReceived(sent: seq<Response>, recorded: seq<Measurement>, from: nat, m: Measurement)
    requires FeedOk(sent, recorded, from, true)
    ensures FeedOk(sent + [Sample(m)], recorded + [m], from, true)
  {
    assert (recorded + [m])[from..] == recorded[from..] + [m];
  }

  lemma {:induction false} SampleMissed(sent: seq<Response>, recorded: seq<Measurement>, from: nat, m: Measurement,
                                       listed: bool)
    requires FeedOk(sent, recorded, from, listed)
    ensures FeedOk(sent, recorded + [m], from, false)
  {
    if listed {
      assert recorded[from..] == (recorded + [m])[from..|recorded|];
      assert EndedAt(sent, recorded + [m], from, |recorded|);
    } else {
      var to: nat :| EndedAt(sent, recorded, from, to);
      assert recorded[from..to] == (recorded + [m])[from..to];
      assert EndedAt(sent, recorded + [m], from, to);
    }
  }

  lemma {:induction false} FeedTerminated(sent: seq<Response>, recorded: seq<Measurement>, from: nat,
                                         last: seq<Response>)
    requires FeedOk(sent, recorded, from, true)
    requires last == [] || (|last| == 1 && Terminal(last[0]))
    ensures FeedOk(sent + last, recorded, from, false)
  {
    assert recorded[from..] == recorded[from..|recorded|];
    assert last == [] ==> sent + last == sent;
    assert EndedAt(sent + last, recorded, from, |recorded|);
  }

  /** The last thing in the queue is this message, unless the client had hung up or its queue was
      full when it was last looked at. */
  predicate Told(box: Mailbox, message: Response) {
    box.closed || box.Full() || (box.sent != [] && box.sent[|box.sent| - 1] == message)
  }

  /** Why a client may be off the list: it hung up, it had 64 messages waiting unread, or the last
      thing it got is one of the farewells there were. */
  predicate Excused(box: Mailbox, farewells: set<Response>) {
    box.closed || box.Full() || (box.sent != [] && box.sent[|box.sent| - 1] in farewells)
  }

  /** Every subscriber ever added. `joined` maps it to the number of samples recorded before.
      A mailbox no subscriber owns belongs to a one-shot request and holds one answer at most. */
  ghost predicate AllFeedsOk(boxes: map<nat, Mailbox>, recorded: seq<Measurement>, joined: map<nat, nat>,
                             list: seq<nat>, farewells: set<Response>) {
    && (forall id :: id in list ==> id in joined)
    && (forall id :: id in joined ==> id in boxes && FeedOk(boxes[id].sent, recorded, joined[id], id in list))
    && (forall id :: id in joined && id !in list ==> Excused(boxes[id], farewells))
    && (forall id :: id in boxes && id !in joined ==> |boxes[id].sent| <= 1)
  }

  /** One sample is recorded and offered to everyone listed; those that take it stay. */
  lemma {:induction false} BroadcastKeepsFeeds(boxes: map<nat, Mailbox>, boxes': map<nat, Mailbox>,
                                               recorded: seq<Measurement>, m: Measurement,
                                               joined: map<nat, nat>, list: seq<nat>, list': seq<nat>,
                                               farewells: set<Response>)
    requires AllFeedsOk(boxes, recorded, joined, list, farewells)
    requires boxes'.Keys == boxes.Keys && forall id :: id in list' ==> id in list
    requires forall id :: id in list ==> id in boxes && Offered(boxes[id], boxes'[id], Sample(m), id in list')
    requires forall id :: id in boxes && id !in list ==> boxes'[id] == boxes[id]
    ensures AllFeedsOk(boxes', recorded + [m], joined, list', farewells)
  {
    hide FeedOk;
    forall id | id in joined
      ensures FeedOk(boxes'[id].sent, recorded + [m], joined[id], id in list')
    {
      if id in list' {
        SampleReceived(boxes[id].sent, recorded, joined[id], m);
      } else {
        assert boxes'[id].sent == boxes[id].sent;
        SampleMissed(boxes[id].sent, recorded, joined[id], m, id in list);
      }
    }
  }

  /** Some leave the list, each with an excuse and at most one terminal message. */
  lemma {:induction false} LeavingKeepsFeeds(boxes: map<nat, Mailbox>, boxes': map<nat, Mailbox>,
                                             recorded: seq<Measurement>, joined: map<nat, nat>,
                                             list: seq<nat>, list': seq<nat>,
                                             last: Response, farewells: set<Response>, farewells': set<Response>)
    requires AllFeedsOk(boxes, recorded, joined, list, farewells) && farewells <= farewells'
    requires boxes'.Keys == boxes.Keys && forall id :: id in list' ==> id in list
    requires forall id :: id in boxes && id !in list ==> boxes'[id] == boxes[id]
    requires forall id :: id in list' ==> id in boxes && boxes'[id].sent == boxes[id].sent
    requires forall id :: id in list && id !in list' ==>
                            && id in boxes && Excused(boxes'[id], farewells')
                            && (boxes'[id].sent == boxes[id].sent
                                || (Terminal(last) && boxes'[id].sent == boxes[id].sent + [last]))
    ensures AllFeedsOk(boxes', recorded, joined, list', farewells')
  {
    hide FeedOk;
    hide Told;
    forall id | id in joined
      ensures FeedOk(boxes'[id].sent, recorded, joined[id], id in list')
    {
      if id in list && id !in list' {
        var tail := if boxes'[id].sent == boxes[id].sent then [] else [last];
        assert boxes[id].sent + [] == boxes[id].sent;
        FeedTerminated(boxes[id].sent, recorded, joined[id], tail);
      }
    }
  }

  lemma {:induction false} JoiningKeepsFeeds(boxes: map<nat, Mailbox>, recorded: seq<Measurement>,
                                             joined: map<nat, nat>, list: seq<nat>, id: nat, farewells: set<Response>)
    requires AllFeedsOk(boxes, recorded, joined, list, farewells)
    requires id in boxes && id !in joined && boxes[id].sent == []
    ensures AllFeedsOk(boxes, recorded, joined[id := |recorded|], list + [id], farewells)
  {
    assert recorded[|recorded|..] == [];
  }

  /** A one-shot request gets its answer. */
  lemma {:induction false} AnsweringKeepsFeeds(boxes: map<nat, Mailbox>, boxes': map<nat, Mailbox>,
                                               recorded: seq<Measurement>, joined: map<nat, nat>,
                                               list: seq<nat>, tx: nat, farewells: set<Response>)
    requires AllFeedsOk(boxes, recorded, joined, list, farewells)
    requires tx !in joined && tx in boxes' && |boxes'[tx].sent| <= 1
    requires forall id :: id in boxes ==> id in boxes' && (id != tx ==> boxes'[id] == boxes[id])
    requires forall id :: id in boxes' ==> id in boxes || id == tx
    ensures AllFeedsOk(boxes', recorded, joined, list, farewells)
  {
    hide FeedOk;
    assert tx !in list;
  }

  /** Mailboxes that no subscriber owns are left alone. */
  ghost predicate OthersUntouched(boxes: map<nat, Mailbox>, boxes': map<nat, Mailbox>, joined: map<nat, nat>) {
    && boxes'.Keys == boxes.Keys
    && forall id :: id in boxes && id !in joined ==> boxes'[id] == boxes[id]
  }

  /** Those who are found to have hung up leave without a message. */
  lemma ReapingKeepsFeeds(boxes: map<nat, Mailbox>, boxes': map<nat, Mailbox>, recorded: seq<Measurement>,
                          joined: map<nat, nat>, list: seq<nat>, list': seq<nat>, farewells: set<Response>)
    requires AllFeedsOk(boxes, recorded, joined, list, farewells)
    requires boxes'.Keys == boxes.Keys && forall id :: id in list' ==> id in list
    requires forall id :: id in boxes ==> Progress(boxes[id], boxes'[id])
    requires forall id :: id in list && id !in list' ==> id in boxes' && boxes'[id].closed
    requires forall id :: id in boxes && id !in list ==> boxes'[id] == boxes[id]
    ensures AllFeedsOk(boxes', recorded, joined, list', farewells)
    ensures OthersUntouched(boxes, boxes', joined)
  {
    hide FeedOk;
    LeavingKeepsFeeds(boxes, boxes', recorded, joined, list, list', StreamEnd, farewells, farewells);
  }

  lemma OfferedIsTold(a: Mailbox, b: Mailbox, message: Response, taken: bool)
    requires Offered(a, b, message, taken)
    ensures Told(b, message) && (b.sent == a.sent || b.sent == a.sent + [message])
  {
  }

  /** Everyone leaves, each offered the same last message. */
  lemma DismissingKeepsFeeds(boxes: map<nat, Mailbox>, boxes': map<nat, Mailbox>, recorded: seq<Measurement>,
                             joined: map<nat, nat>, list: seq<nat>, last: Response, farewells: set<Response>)
    requires AllFeedsOk(boxes, recorded, joined, list, farewells) && Terminal(last)
    requires boxes'.Keys == boxes.Keys
    requires forall id :: id in list ==> id in boxes && exists taken :: Offered(boxes[id], boxes'[id], last, taken)
    requires forall id :: id in boxes && id !in list ==> boxes'[id] == boxes[id]
    ensures AllFeedsOk(boxes', recorded, joined, [], farewells + {last})
    ensures OthersUntouched(boxes, boxes', joined)
    ensures forall id :: id in list ==> id in boxes' && Told(boxes'[id], last)
    ensures forall id :: id in joined ==> id in boxes' && Excused(boxes'[id], farewells + {last})
  {
    hide FeedOk;
    forall id | id in list
      ensures Excused(boxes'[id], farewells + {last}) && Told(boxes'[id], last)
      ensures boxes'[id].sent == boxes[id].sent || boxes'[id].sent == boxes[id].sent + [last]
    {
      var taken :| Offered(boxes[id], boxes'[id], last, taken);
      OfferedIsTold(boxes[id], boxes'[id], last, taken);
    }
    LeavingKeepsFeeds(boxes, boxes', recorded, joined, list, [], last, farewells, farewells + {last});
  }
}
