/**
The buffers of the concurrent WriteTo. A worker takes one from the pool for the data of its
reply, the reducer writes from it and puts it back, so memory is used again and again while
other replies are still waiting. Here the pool, the memory behind the buffers and who holds
which run beside the channel chain.
*/
module WriteToBuffers {
  import opened Basics
  import opened ClientPools
  import opened WriteTo

  /** `held` has the buffer of each chunk that was received and is still to be written, `memory`
      what is in each buffer. */
  datatype BufState = BufState(s: State, pool: Buffers, held: map<nat, Slice>, memory: map<nat, seq<byte>>)

  function InitBuffers(c: Config): BufState {
    BufState(Init(c), Buffers([], 0), map[], map[])
  }

  /** The pool is as deep as there are workers, and its buffers as long as a chunk. A reply with
      data is copied into a buffer; a chunk written without any error gives its buffer back; one
      that failed, or is dropped after a cancel, leaves it to the garbage collector. */
  function BufStep(c: Config, x: BufState, e: Event): BufState
    requires Enabled(c, x.s, e)
  {
    var t := Apply(c, x.s, e);
    match e
    case Take(w) =>
      var k := x.s.workers[w].chunk;
      var data := x.s.cells[k].out.data;
      if data == [] then x.(s := t)
      else
        var b := NextBuffer(x.pool, c.size);
        BufState(t, AfterGet(x.pool, c.size), x.held[k := b], x.memory[b.id := data])
    case Deliver(_, _, _) =>
      var k := x.s.cur;
      x.(s := t, held := x.held - {k},
         pool := if k in x.held && t.reducer.Receiving? then AfterPut(x.pool, x.held[k], c.workers, c.size) else x.pool)
    case Skip(w) => x.(s := t, held := x.held - {x.s.workers[w].chunk})
    case _ => x.(s := t)
  }

  ghost predicate BufRun(c: Config, x: BufState, es: seq<Event>, y: BufState)
    decreases |es|
  {
    if es == [] then x == y
    else Enabled(c, x.s, es[0]) && BufRun(c, BufStep(c, x, es[0]), es[1..], y)
  }

  ghost predicate InPool(p: Buffers, id: nat) {
    exists i :: 0 <= i < |p.queue| && p.queue[i].id == id
  }

  ghost predicate PoolOk(p: Buffers, blen: nat) {
    && (forall i :: 0 <= i < |p.queue| ==> blen <= p.queue[i].cap <= 2 * blen && p.queue[i].id < p.made)
    && (forall i, j :: 0 <= i < j < |p.queue| ==> p.queue[i].id != p.queue[j].id)
  }

  /** The worker that took chunk k holds its buffer, with the reply's data in it. */
  ghost predicate HeldOk(c: Config, x: BufState, k: nat)
    requires k in x.held
  {
    && k < |x.s.takers| && x.s.takers[k] < |x.s.workers| && x.s.workers[x.s.takers[k]] == Delivering(k)
    && k < |x.s.cells| && x.s.cells[k].Taken?
    && c.size <= x.held[k].cap <= 2 * c.size && x.held[k].id < x.pool.made && !InPool(x.pool, x.held[k].id)
    && x.held[k].id in x.memory && x.memory[x.held[k].id] == x.s.cells[k].out.data
  }

  /** Buffers are with one chunk each or in the pool, and each chunk with data has one. */
  ghost predicate BuffersOk(c: Config, x: BufState) {
    && PoolOk(x.pool, c.size)
    && (forall k :: k in x.held ==> HeldOk(c, x, k))
    && (forall j, k :: j in x.held && k in x.held && j != k ==> x.held[j].id != x.held[k].id)
    && (forall w :: 0 <= w < |x.s.workers| && x.s.workers[w].Delivering? ==> HasBuffer(x, x.s.workers[w].chunk))
  }

  ghost predicate HasBuffer(x: BufState, k: nat) {
    k < |x.s.cells| && x.s.cells[k].Taken? && (x.s.cells[k].out.data != [] ==> k in x.held)
  }

  /** The buffer handed out is in nobody's hands, and no longer in the pool. */
  lemma GetIsFree(p: Buffers, blen: nat)
    requires PoolOk(p, blen)
    ensures var b, q := NextBuffer(p, blen), AfterGet(p, blen);
            && PoolOk(q, blen) && p.made <= q.made && b.id < q.made && blen <= b.cap <= 2 * blen && !InPool(q, b.id)
            && (InPool(p, b.id) || b.id == p.made)
            && forall id :: InPool(q, id) ==> InPool(p, id)
  {
    NothingThrownAway(p.queue, blen);
    if p.queue != [] {
      assert p.queue[0].id == NextBuffer(p, blen).id;
      assert InPool(p, p.queue[0].id);
      forall id | InPool(AfterGet(p, blen), id) ensures InPool(p, id) {
        var i :| 0 <= i < |p.queue| - 1 && p.queue[1..][i].id == id;
        assert p.queue[i + 1].id == id;
      }
    }
  }

  lemma PutIsPooled(p: Buffers, b: Slice, depth: nat, blen: nat)
    requires PoolOk(p, blen) && b.id < p.made && !InPool(p, b.id) && blen <= b.cap <= 2 * blen
    ensures var q := AfterPut(p, b, depth, blen);
            PoolOk(q, blen) && q.made == p.made && forall id :: InPool(q, id) ==> InPool(p, id) || id == b.id
  {
    forall i | 0 <= i < |p.queue| ensures p.queue[i].id != b.id { assert InPool(p, p.queue[i].id); }
    var q := AfterPut(p, b, depth, blen);
    forall id | InPool(q, id) ensures InPool(p, id) || id == b.id {
      var i :| 0 <= i < |q.queue| && q.queue[i].id == id;
      if i < |p.queue| { assert p.queue[i].id == id; }
    }
  }

  lemma TakeKeepsBuffers(c: Config, x: BufState, w: nat)
    requires Inv(c, x.s) && BuffersOk(c, x) && Enabled(c, x.s, Take(w))
    ensures BuffersOk(c, BufStep(c, x, Take(w)))
  {
    var y := BufStep(c, x, Take(w));
    GetIsFree(x.pool, c.size);
    forall j | j in y.held ensures HeldOk(c, y, j) { OneHeldAfterTake(c, x, w, j); }
    HeldStayApart(c, x, w);
    BuffersStayPresent(c, x, w);
  }

  /** The new buffer is no other chunk's. */
  lemma HeldStayApart(c: Config, x: BufState, w: nat)
    requires BuffersOk(c, x) && Enabled(c, x.s, Take(w))
    ensures var y := BufStep(c, x, Take(w));
            forall j, k :: j in y.held && k in y.held && j != k ==> y.held[j].id != y.held[k].id
  {
    GetIsFree(x.pool, c.size);
    forall j | j in x.held ensures x.held[j].id != NextBuffer(x.pool, c.size).id { assert HeldOk(c, x, j); }
  }

  lemma BuffersStayPresent(c: Config, x: BufState, w: nat)
    requires Inv(c, x.s) && BuffersOk(c, x) && Enabled(c, x.s, Take(w))
    ensures var y := BufStep(c, x, Take(w));
            forall v :: 0 <= v < |y.s.workers| && y.s.workers[v].Delivering? ==> HasBuffer(y, y.s.workers[v].chunk)
  {
    var y := BufStep(c, x, Take(w));
    forall v | 0 <= v < |y.s.workers| && y.s.workers[v].Delivering? ensures HasBuffer(y, y.s.workers[v].chunk) {
      if v != w { assert HasBuffer(x, x.s.workers[v].chunk); }
    }
  }

  lemma OneHeldAfterTake(c: Config, x: BufState, w: nat, j: nat)
    requires Inv(c, x.s) && BuffersOk(c, x) && Enabled(c, x.s, Take(w)) && j in BufStep(c, x, Take(w)).held
    ensures HeldOk(c, BufStep(c, x, Take(w)), j)
  {
    GetIsFree(x.pool, c.size);
    if j != x.s.workers[w].chunk { assert HeldOk(c, x, j); }
  }

  lemma DeliverKeepsBuffers(c: Config, x: BufState, e: Event)
    requires Inv(c, x.s) && BuffersOk(c, x) && Enabled(c, x.s, e) && e.Deliver?
    ensures BuffersOk(c, BufStep(c, x, e))
  {
    var y, k := BufStep(c, x, e), x.s.cur;
    if k in x.held {
      assert HeldOk(c, x, k);
      PutIsPooled(x.pool, x.held[k], c.workers, c.size);
    }
    forall j | j in y.held ensures HeldOk(c, y, j) { assert HeldOk(c, x, j); }
    forall v | 0 <= v < |y.s.workers| && y.s.workers[v].Delivering? ensures HasBuffer(y, y.s.workers[v].chunk) {
      assert HasBuffer(x, x.s.workers[v].chunk);
    }
  }

  /** A dropped packet and the steps that touch no buffer. */
  lemma OthersKeepBuffers(c: Config, x: BufState, e: Event)
    requires Inv(c, x.s) && BuffersOk(c, x) && Enabled(c, x.s, e) && !e.Take? && !e.Deliver?
    ensures BuffersOk(c, BufStep(c, x, e))
  {
    var y := BufStep(c, x, e);
    forall j | j in y.held ensures HeldOk(c, y, j) { assert HeldOk(c, x, j); }
    forall v | 0 <= v < |y.s.workers| && y.s.workers[v].Delivering? ensures HasBuffer(y, y.s.workers[v].chunk) {
      assert HasBuffer(x, x.s.workers[v].chunk);
    }
  }

  lemma StepKeepsBuffers(c: Config, x: BufState, e: Event)
    requires Inv(c, x.s) && BuffersOk(c, x) && Enabled(c, x.s, e)
    ensures BuffersOk(c, BufStep(c, x, e))
  {
    if e.Take? {
      TakeKeepsBuffers(c, x, e.w);
    } else if e.Deliver? {
      DeliverKeepsBuffers(c, x, e);
    } else {
      OthersKeepBuffers(c, x, e);
    }
  }

  lemma {:induction false} BufRunKeeps(c: Config, x: BufState, es: seq<Event>, y: BufState)
    requires Inv(c, x.s) && BuffersOk(c, x) && BufRun(c, x, es, y)
    ensures Inv(c, y.s) && BuffersOk(c, y) && Run(c, x.s, es, y.s)
    decreases |es|
  {
    if es != [] {
      var e := es[0];
      StepKeepsBuffers(c, x, e);
      StepKeepsCells(c, x.s, e);
      StepKeepsWorkers(c, x.s, e);
      BufRunKeeps(c, BufStep(c, x, e), es[1..], y);
    }
  }

  /** In every reachable state no buffer in the pool is held for a chunk, and no two chunks
      share one. */
  lemma NoBufferShared(c: Config, es: seq<Event>, y: BufState)
    requires BufRun(c, InitBuffers(c), es, y)
    ensures forall k :: k in y.held ==> !InPool(y.pool, y.held[k].id)
    ensures forall j, k :: j in y.held && k in y.held && j != k ==> y.held[j].id != y.held[k].id
  {
    BufRunKeeps(c, InitBuffers(c), es, y);
    forall k | k in y.held ensures !InPool(y.pool, y.held[k].id) { assert HeldOk(c, y, k); }
  }

  /** However often buffers are used again, what the reducer finds in the buffer of the chunk it
      writes is the data of that chunk's own reply. */
  lemma BufferHasReply(c: Config, es: seq<Event>, y: BufState, e: Event)
    requires BufRun(c, InitBuffers(c), es, y) && Enabled(c, y.s, e) && e.Deliver?
    requires y.s.cells[y.s.cur].out.data != []
    ensures y.s.cur in y.held && y.held[y.s.cur].id in y.memory
    ensures y.memory[y.held[y.s.cur].id] == y.s.cells[y.s.cur].out.data
  {
    BufRunKeeps(c, InitBuffers(c), es, y);
    assert HasBuffer(y, y.s.workers[e.w].chunk);
    assert HeldOk(c, y, y.s.cur);
  }
}
