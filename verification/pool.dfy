/** The client's pools of byte buffers and of result channels: bounded queues used without waiting. */
module ClientPools {
  /** A byte slice seen from the pool: which array it is over, its length and its capacity. */
  datatype Slice = Slice(id: nat, len: nat, cap: nat)

  /** The pooled buffers, oldest first, and how many have ever been made. */
  datatype Buffers = Buffers(queue: seq<Slice>, made: nat)

  /** What is left once the undersized buffers at the front are thrown away. */
  function Usable(queue: seq<Slice>, blen: nat): seq<Slice> {
    if queue != [] && queue[0].cap < blen then Usable(queue[1..], blen) else queue
  }

  /** It drops the longest run of undersized buffers. */
  lemma {:induction false} UsableIsSuffix(queue: seq<Slice>, blen: nat)
    ensures var r := Usable(queue, blen);
            && |r| <= |queue| && r == queue[|queue| - |r|..]
            && (r != [] ==> r[0].cap >= blen)
            && forall i :: 0 <= i < |queue| - |r| ==> queue[i].cap < blen
  {
    if queue != [] && queue[0].cap < blen {
      UsableIsSuffix(queue[1..], blen);
    }
  }

  /** What Get hands out: the first large enough, at full length, or a new one. */
  function NextBuffer(p: Buffers, blen: nat): Slice {
    var usable := Usable(p.queue, blen);
    if usable == [] then Slice(p.made, blen, blen) else usable[0].(len := blen)
  }

  function AfterGet(p: Buffers, blen: nat): Buffers {
    var usable := Usable(p.queue, blen);
    if usable == [] then Buffers([], p.made + 1) else Buffers(usable[1..], p.made)
  }

  /** Put keeps a buffer if its capacity suits and there is room. */
  function AfterPut(p: Buffers, b: Slice, depth: nat, blen: int): Buffers {
    if blen <= b.cap <= 2 * blen && |p.queue| < depth then p.(queue := p.queue + [b]) else p
  }

  class BufPool {
    const depth: nat
    const blen: int
    var queue: seq<Slice>
    var made: nat

    /** Only buffers worth reusing are kept, each one once. */
    ghost predicate Valid()
      reads this
    {
      && |queue| <= depth
      && (forall i :: 0 <= i < |queue| ==> blen <= queue[i].cap <= 2 * blen && queue[i].id < made)
      && (forall i, j :: 0 <= i < j < |queue| ==> queue[i].id != queue[j].id)
    }

    constructor (depth: nat, blen: int)
      ensures this.depth == depth && this.blen == blen && queue == [] && Valid()
    {
      this.depth, this.blen := depth, blen;
      queue, made := [], 0;
    }

    /** A full-length buffer: the first pooled one that is large enough, or a new one. */
    method Get() returns (b: Slice)
      requires blen > 0
      modifies this
      ensures b.len == blen <= b.cap
      ensures var rest := Usable(old(queue), blen);
              if rest == [] then queue == [] && b.id == old(made) && made == old(made) + 1
              else b == rest[0].(len := blen) && queue == rest[1..] && made == old(made)
      ensures b == NextBuffer(Buffers(old(queue), old(made)), blen)
      ensures Buffers(queue, made) == AfterGet(Buffers(old(queue), old(made)), blen)
      ensures old(Valid()) ==> Valid() && forall i :: 0 <= i < |queue| ==> queue[i].id != b.id
      ensures old(Valid()) && old(queue) != [] ==> b.id == old(queue)[0].id && queue == old(queue)[1..]
    {
      if Valid() { NothingThrownAway(queue, blen); }
      while true
        invariant Usable(queue, blen) == Usable(old(queue), blen) && made == old(made)
        decreases |queue|
      {
        if queue == [] {
          b := Slice(made, blen, blen);
          made := made + 1;
          return;
        }
        b, queue := queue[0], queue[1..];
        if b.cap < blen { continue; }
        b := b.(len := blen);
        return;
      }
    }

    /** Keeps the buffer if its capacity suits and there is room; the caller gives it up. */
    method Put(b: Slice)
      modifies this`queue
      ensures queue == if blen <= b.cap <= 2 * blen && |old(queue)| < depth then old(queue) + [b] else old(queue)
      ensures Buffers(queue, made) == AfterPut(Buffers(old(queue), made), b, depth, blen)
      ensures old(Valid()) && b.id < made && (forall i :: 0 <= i < |old(queue)| ==> old(queue)[i].id != b.id) ==>
                Valid()
    {
      if b.cap < blen || b.cap > blen * 2 { return; }
      if |queue| < depth { queue := queue + [b]; }
    }
  }

  /** With only suitable buffers kept, Get takes the first and its retry never happens. */
  lemma NothingThrownAway(queue: seq<Slice>, blen: nat)
    requires forall i :: 0 <= i < |queue| ==> blen <= queue[i].cap
    ensures Usable(queue, blen) == queue
  {}

  class ResChanPool {
    const depth: nat
    var queue: seq<nat>
    var made: nat

    constructor (depth: nat)
      ensures this.depth == depth && queue == [] && made == 0
    {
      this.depth := depth;
      queue, made := [], 0;
    }

    /** The oldest pooled channel, or a new one. */
    method Get() returns (ch: nat)
      modifies this
      ensures if old(queue) == [] then ch == old(made) && made == old(made) + 1 && queue == []
              else ch == old(queue)[0] && queue == old(queue)[1..] && made == old(made)
    {
      if queue != [] {
        ch, queue := queue[0], queue[1..];
      } else {
        ch, made := made, made + 1;
      }
    }

    /** Dropped when the pool is full. */
    method Put(ch: nat)
      modifies this`queue
      ensures queue == if |old(queue)| < depth then old(queue) + [ch] else old(queue)
    {
      if |queue| < depth { queue := queue + [ch]; }
    }
  }
}
