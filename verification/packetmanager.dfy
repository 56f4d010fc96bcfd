/**
The server's packet manager: requests are numbered as they are read, responses come back in
any order, and the controller sends a response only when it is the next one due.
*/
module PacketManagers {
  import opened Allocators

  /** A packet with the order id it was given; `id` is the client's request id. */
  datatype Ordered = Ordered(orderid: nat, id: nat)

  /** The controller's state: the two queues, and what the connection has been given. */
  datatype Queues = Queues(incoming: seq<Ordered>, outgoing: seq<Ordered>, sent: seq<Ordered>)

  ghost predicate SortedById(s: seq<Ordered>) {
    forall i, j :: 0 <= i < j < |s| ==> s[i].orderid <= s[j].orderid
  }

  function Insert(s: seq<Ordered>, x: Ordered): seq<Ordered> {
    if s == [] || s[|s| - 1].orderid <= x.orderid then s + [x]
    else Insert(s[..|s| - 1], x) + [s[|s| - 1]]
  }

  /** sort.Slice by order id. */
  function SortById(s: seq<Ordered>): seq<Ordered> {
    if s == [] then [] else Insert(SortById(s[..|s| - 1]), s[|s| - 1])
  }

  /** t is s with x put in at one place. */
  ghost predicate Placed(t: seq<Ordered>, s: seq<Ordered>, x: Ordered, at: nat) {
    && at < |t| == |s| + 1
    && t[at] == x
    && (forall i :: 0 <= i < at ==> t[i] == s[i])
    && (forall i :: at <= i < |s| ==> s[i] == t[i + 1])
    && (forall i :: at < i < |t| ==> t[i] == s[i - 1])
  }

  /** An insertion splits the sequence at one place. */
  lemma {:induction false} InsertSplits(s: seq<Ordered>, x: Ordered) returns (i: nat)
    ensures Placed(Insert(s, x), s, x, i)
    ensures forall j :: i <= j < |s| ==> s[j].orderid > x.orderid
    ensures i > 0 ==> s[i - 1].orderid <= x.orderid
  {
    if s == [] || s[|s| - 1].orderid <= x.orderid {
      i := |s|;
    } else {
      i := InsertSplits(s[..|s| - 1], x);
    }
  }

  lemma InsertSorted(s: seq<Ordered>, x: Ordered)
    requires SortedById(s)
    ensures SortedById(Insert(s, x))
  {
    var i := InsertSplits(s, x);
  }

  lemma {:induction false} InsertPermutes(s: seq<Ordered>, x: Ordered)
    ensures multiset(Insert(s, x)) == multiset(s) + multiset{x}
  {
    if s != [] && s[|s| - 1].orderid > x.orderid {
      InsertPermutes(s[..|s| - 1], x);
      assert s == s[..|s| - 1] + [s[|s| - 1]];
    }
  }

  lemma {:induction false} SortByIdPermutes(s: seq<Ordered>)
    ensures multiset(SortById(s)) == multiset(s)
  {
    if s != [] {
      var front, last := s[..|s| - 1], s[|s| - 1];
      SortByIdPermutes(front);
      InsertPermutes(SortById(front), last);
      assert s == front + [last];
    }
  }

  lemma {:induction false} SortByIdSorted(s: seq<Ordered>)
    ensures SortedById(SortById(s))
  {
    if s != [] {
      SortByIdSorted(s[..|s| - 1]);
      InsertSorted(SortById(s[..|s| - 1]), s[|s| - 1]);
    }
  }

  lemma {:induction false} SortedStays(s: seq<Ordered>)
    requires SortedById(s)
    ensures SortById(s) == s
  {
    if s != [] {
      var front, last := s[..|s| - 1], s[|s| - 1];
      SortedStays(front);
      assert Insert(front, last) == front + [last] by {
        if front != [] { assert front[|front| - 1] == s[|s| - 2]; }
      }
      assert s == front + [last];
    }
  }

  /** Appending to a sorted queue and sorting it puts the packet in its place. */
  lemma SortAppended(s: seq<Ordered>, x: Ordered) returns (i: nat)
    requires SortedById(s)
    ensures Placed(SortById(s + [x]), s, x, i)
    ensures forall j :: 0 <= j < i ==> s[j].orderid <= x.orderid
    ensures forall j :: i <= j < |s| ==> s[j].orderid > x.orderid
  {
    SortedStays(s);
    assert (s + [x])[..|s|] == s;
    i := InsertSplits(s, x);
  }

  /** maybeSendPackets: while the heads carry the same order id, send and drop both. */
  function Flush(q: Queues): Queues
    decreases |q.incoming|
  {
    if q.incoming != [] && q.outgoing != [] && q.incoming[0].orderid == q.outgoing[0].orderid then
      Flush(Queues(q.incoming[1..], q.outgoing[1..], q.sent + [q.outgoing[0]]))
    else q
  }

  /** The pages of each order id sent are released, in order. */
  function ReleaseAll(p: Pool, sent: seq<Ordered>): Pool {
    if sent == [] then p else ReleasePages(ReleaseAll(p, sent[..|sent| - 1]), sent[|sent| - 1].orderid)
  }

  function OnRequest(q: Queues, r: Ordered): Queues {
    Flush(q.(incoming := SortById(q.incoming + [r])))
  }

  function OnResponse(q: Queues, r: Ordered): Queues {
    Flush(q.(outgoing := SortById(q.outgoing + [r])))
  }

  // ---------------------------------------------------------------- the queue invariant

  /** `received` requests have come, numbered from 1. What was sent is 1..k in that order, the
      incoming queue is k+1..received, and responses wait only for an earlier one. */
  ghost predicate QueuesOk(q: Queues, received: nat) {
    var k := |q.sent|;
    && (forall i :: 0 <= i < k ==> q.sent[i].orderid == i + 1)
    && k + |q.incoming| == received
    && (forall i :: 0 <= i < |q.incoming| ==> q.incoming[i].orderid == k + 1 + i)
    && (forall i :: 0 <= i < |q.outgoing| ==> q.outgoing[i].orderid > k)
    && (forall i, j :: 0 <= i < j < |q.outgoing| ==> q.outgoing[i].orderid < q.outgoing[j].orderid)
  }

  /** Nothing is kept back that could be sent. */
  ghost predicate Eager(q: Queues) {
    q.incoming == [] || q.outgoing == [] || q.incoming[0].orderid != q.outgoing[0].orderid
  }

  /** Order ids whose response the controller has taken from its channel. */
  ghost predicate Answered(q: Queues, order: nat) {
    1 <= order <= |q.sent| || exists i :: 0 <= i < |q.outgoing| && q.outgoing[i].orderid == order
  }

  lemma {:induction false} FlushOk(q: Queues, received: nat)
    requires QueuesOk(q, received)
    ensures QueuesOk(Flush(q), received) && Eager(Flush(q))
    ensures forall o: nat :: Answered(Flush(q), o) <==> Answered(q, o)
    ensures q.sent <= Flush(q).sent
    decreases |q.incoming|
  {
    if !Eager(q) {
      var t := Queues(q.incoming[1..], q.outgoing[1..], q.sent + [q.outgoing[0]]);
      AnsweredPop(q, t);
      FlushOk(t, received);
    }
  }

  lemma AnsweredPop(q: Queues, t: Queues)
    requires q.outgoing != [] && q.outgoing[0].orderid == |q.sent| + 1
    requires t.outgoing == q.outgoing[1..] && t.sent == q.sent + [q.outgoing[0]]
    ensures forall o: nat :: Answered(t, o) <==> Answered(q, o)
  {
    forall o: nat ensures Answered(t, o) <==> Answered(q, o) {
      if i :| 0 <= i < |q.outgoing| && q.outgoing[i].orderid == o {
        if i > 0 { assert t.outgoing[i - 1].orderid == o; }
      }
      if i :| 0 <= i < |t.outgoing| && t.outgoing[i].orderid == o {
        assert q.outgoing[i + 1].orderid == o;
      }
    }
  }

  /** A request arriving in its turn is already the last of the queue. */
  lemma OnRequestOk(q: Queues, received: nat, r: Ordered)
    requires QueuesOk(q, received) && r.orderid == received + 1
    ensures QueuesOk(OnRequest(q, r), received + 1) && Eager(OnRequest(q, r))
    ensures forall o: nat :: Answered(OnRequest(q, r), o) <==> Answered(q, o)
    ensures q.sent <= OnRequest(q, r).sent
  {
    RequestAppended(q, received, r);
    SortedStays(q.incoming + [r]);
    FlushOk(q.(incoming := q.incoming + [r]), received + 1);
  }

  lemma RequestAppended(q: Queues, received: nat, r: Ordered)
    requires QueuesOk(q, received) && r.orderid == received + 1
    ensures var t := q.(incoming := q.incoming + [r]);
            && QueuesOk(t, received + 1) && SortedById(t.incoming)
            && forall o: nat :: Answered(t, o) <==> Answered(q, o)
  {}

  /** A response may come in any order, even before its request, but only once. */
  lemma OnResponseOk(q: Queues, received: nat, r: Ordered)
    requires QueuesOk(q, received) && r.orderid >= 1 && !Answered(q, r.orderid)
    ensures QueuesOk(OnResponse(q, r), received) && Eager(OnResponse(q, r))
    ensures forall o: nat :: Answered(OnResponse(q, r), o) <==> Answered(q, o) || o == r.orderid
    ensures q.sent <= OnResponse(q, r).sent
  {
    var t := q.(outgoing := SortById(q.outgoing + [r]));
    QueueResponse(q, received, r);
    FlushOk(t, received);
  }

  lemma PlacedOrdered(q: Queues, received: nat, r: Ordered, t: Queues, at: nat)
    requires QueuesOk(q, received) && r.orderid > |q.sent|
    requires t == q.(outgoing := t.outgoing) && Placed(t.outgoing, q.outgoing, r, at)
    requires forall j :: 0 <= j < at ==> q.outgoing[j].orderid < r.orderid
    requires forall j :: at <= j < |q.outgoing| ==> q.outgoing[j].orderid > r.orderid
    ensures QueuesOk(t, received)
  {}

  lemma PlacedAnswered(q: Queues, r: Ordered, t: Queues, at: nat, o: nat)
    requires t.sent == q.sent && Placed(t.outgoing, q.outgoing, r, at)
    ensures Answered(t, o) <==> Answered(q, o) || o == r.orderid
  {
    if i :| 0 <= i < |q.outgoing| && q.outgoing[i].orderid == o {
      assert t.outgoing[if i < at then i else i + 1].orderid == o;
    }
    assert t.outgoing[at] == r;
  }

  lemma QueueResponse(q: Queues, received: nat, r: Ordered)
    requires QueuesOk(q, received) && r.orderid >= 1 && !Answered(q, r.orderid)
    ensures var t := q.(outgoing := SortById(q.outgoing + [r]));
            QueuesOk(t, received) && forall o: nat :: Answered(t, o) <==> Answered(q, o) || o == r.orderid
  {
    var t := q.(outgoing := SortById(q.outgoing + [r]));
    var at := SortAppended(q.outgoing, r);
    assert forall i :: 0 <= i < |q.outgoing| ==> q.outgoing[i].orderid != r.orderid;
    PlacedOrdered(q, received, r, t, at);
    forall o: nat ensures Answered(t, o) <==> Answered(q, o) || o == r.orderid {
      PlacedAnswered(q, r, t, at, o);
    }
  }

  /** A response to the next request due is at the head of its queue. */
  lemma HeadIsDue(q: Queues, received: nat)
    requires QueuesOk(q, received) && Answered(q, |q.sent| + 1)
    ensures q.outgoing != [] && q.outgoing[0].orderid == |q.sent| + 1
  {}

  /** No response is stranded: once the controller has the response of every request it has
      received, both queues are empty and everything has been sent. */
  lemma NothingStranded(q: Queues, received: nat)
    requires QueuesOk(q, received) && Eager(q)
    requires forall o: nat :: 1 <= o <= received ==> Answered(q, o)
    requires forall i :: 0 <= i < |q.outgoing| ==> q.outgoing[i].orderid <= received
    ensures q.incoming == [] && q.outgoing == [] && |q.sent| == received
  {
    if |q.sent| < received { HeadIsDue(q, received); }
  }

  // ---------------------------------------------------------------- the manager

  class PacketManager {
    var incoming: seq<Ordered>
    var outgoing: seq<Ordered>
    var sent: seq<Ordered>
    var packetCount: nat
    const alloc: Allocator?

    ghost function State(): Queues
      reads this
    {
      Queues(incoming, outgoing, sent)
    }

    ghost predicate Valid()
      reads this, alloc
    {
      alloc != null ==> alloc.Valid()
    }

    constructor (alloc: Allocator?)
      requires alloc != null ==> alloc.Valid()
      ensures Valid() && this.alloc == alloc && State() == Queues([], [], []) && packetCount == 0
    {
      incoming, outgoing, sent, packetCount := [], [], [], 0;
      this.alloc := alloc;
    }

    method NewOrderID() returns (order: nat)
      modifies this`packetCount
      ensures order == packetCount == old(packetCount) + 1
    {
      packetCount := packetCount + 1;
      return packetCount;
    }

    /** The order id the next packet will get. */
    function GetNextOrderID(): (order: nat)
      reads this`packetCount
    {
      packetCount + 1
    }

    /** Send every response that is due and release its pages. */
    method MaybeSendPackets()
      requires Valid()
      modifies this`incoming, this`outgoing, this`sent, alloc
      ensures Valid() && State() == Flush(old(State())) && old(sent) <= sent
      ensures alloc != null ==> alloc.State() == ReleaseAll(old(alloc.State()), sent[|old(sent)|..])
    {
      ghost var done: seq<Ordered> := [];
      while true
        invariant Valid() && Flush(State()) == Flush(old(State()))
        invariant sent == old(sent) + done
        invariant alloc != null ==> alloc.State() == ReleaseAll(old(alloc.State()), done)
        decreases |incoming|
      {
        if |outgoing| == 0 || |incoming| == 0 { break; }
        var response, request := outgoing[0], incoming[0];
        if request.orderid == response.orderid {
          sent := sent + [response];
          if alloc != null { alloc.Release(request.orderid); }
          incoming, outgoing := incoming[1..], outgoing[1..];
          assert (done + [response])[..|done|] == done;
          done := done + [response];
        } else {
          break;
        }
      }
      assert sent[|old(sent)|..] == done;
    }

    /** The controller's step for a request from its channel. */
    method HandleRequest(pkt: Ordered)
      requires Valid()
      modifies this`incoming, this`outgoing, this`sent, alloc
      ensures Valid() && State() == OnRequest(old(State()), pkt) && old(sent) <= sent
      ensures alloc != null ==> alloc.State() == ReleaseAll(old(alloc.State()), sent[|old(sent)|..])
    {
      incoming := SortById(incoming + [pkt]);
      MaybeSendPackets();
    }

    /** The controller's step for a response from its channel. */
    method HandleResponse(pkt: Ordered)
      requires Valid()
      modifies this`incoming, this`outgoing, this`sent, alloc
      ensures Valid() && State() == OnResponse(old(State()), pkt) && old(sent) <= sent
      ensures alloc != null ==> alloc.State() == ReleaseAll(old(alloc.State()), sent[|old(sent)|..])
    {
      outgoing := SortById(outgoing + [pkt]);
      MaybeSendPackets();
    }
  }
}
