/**
File.WriteTo of the client: copies the file from the client's offset to a writer. The
concurrent form keeps the writes serial by a chain of channels: the work item of each chunk
carries the channel it is delivered on (`cur`) and the one of the chunk after it (`next`),
and the reducer walks that chain. The channel of chunk k is numbered k here.
*/
module WriteTo {
  import opened Basics
  import Pipe = TransferPipeline
  import opened ReadAt

  /** Any writer: it takes as much as it likes, with an error of its own if that is not all.
      `failed` is the error of the last write. */
  class Sink {
    var got: seq<byte>
    var failed: Option<Error>

    constructor ()
      ensures got == [] && failed == None
    {
      got, failed := [], None;
    }

    method Write(b: seq<byte>) returns (n: nat, err: Option<Error>)
      modifies this
      ensures n <= |b| && got == old(got) + b[..n]
      ensures n < |b| ==> err.Some?
      ensures failed == err
    {
      n :| 0 <= n <= |b|;
      err := *;
      if n < |b| && err.None? { err := Some(Closed); }
      got, failed := got + b[..n], err;
    }
  }

  class File {
    const remote: Remote
    var offset: nat

    constructor (remote: Remote, offset: nat)
      ensures this.remote == remote && this.offset == offset
    {
      this.remote, this.offset := remote, offset;
    }

    /** writeToSequential: everything from the offset on goes to the writer, as far as it takes
        it. An error of the writer, end of file included, is returned as it is. */
    method WriteToSequential(w: Sink, maxPacket: nat) returns (written: nat, err: Option<Error>)
      requires maxPacket >= 1 && remote.maxTx >= 1
      modifies this`offset, w
      ensures remote.file.err.Some? ==>
                && written == 0 && offset == old(offset) && w.got == old(w.got)
                && err == if remote.file.err == Some(Eof) then None else remote.file.err
      ensures var rest := Rest(remote.file.content, old(offset));
              remote.file.err.None? ==>
                && written <= |rest| && w.got == old(w.got) + rest[..written]
                && old(offset) + written <= offset <= old(offset) + |rest|
                && if err.None? then written == |rest| && offset == old(offset) + written else err == w.failed
    {
      var b := new byte[maxPacket];
      ghost var content, start, got0 := remote.file.content, offset, w.got;
      ghost var rest := Rest(content, start);
      written := 0;
      while true
        invariant fresh(b) && b.Length == maxPacket
        invariant offset == start + written && written <= |rest|
        invariant w.got == got0 + rest[..written]
        invariant remote.file.err.Some? ==> written == 0
        decreases |rest| - written
      {
        var n, e := ReadChunkAt(remote, b, 0, maxPacket, offset);
        if n > 0 {
          offset := offset + n;
          PieceOfRest(content, start, written, b[..n]);
          var m, e2 := w.Write(b[..n]);
          RestGrows(rest, written, b[..n], m);
          written := written + m;
          assert w.got == got0 + rest[..written];
          if e2.Some? { return written, e2; }
        }
        if e.Some? {
          assert remote.file.err.None? ==> written == |rest|;
          return written, if e == Some(Eof) then None else e;
        }
      }
    }
  }

  /** What the file holds from `off` on. */
  function Rest(content: seq<byte>, off: nat): seq<byte> {
    if off >= |content| then [] else content[off..]
  }

  lemma PieceOfRest(content: seq<byte>, off: nat, done: nat, piece: seq<byte>)
    requires off + done + |piece| <= |content| && piece != []
    requires forall i :: 0 <= i < |piece| ==> piece[i] == content[off + done + i]
    ensures done + |piece| <= |Rest(content, off)| && piece == Rest(content, off)[done..done + |piece|]
  {}

  lemma RestGrows(rest: seq<byte>, done: nat, piece: seq<byte>, m: nat)
    requires m <= |piece| && done + |piece| <= |rest| && piece == rest[done..done + |piece|]
    ensures rest[..done] + piece[..m] == rest[..done + m]
  {}

  // ---------------------------------------------------------------- concurrently

  /** A request from its dispatch to the receive of its reply. */
  datatype Cell = Pending | Answered(out: Pipe.Outcome) | Taken(out: Pipe.Outcome)

  datatype Slicer = Slicing | Offering | Finished
  datatype Worker = Idle | Waiting(chunk: nat) | Delivering(chunk: nat) | Exited

  /** The reducer receives on channel `cur`; then it has closed cancel and waits; then it returns. */
  datatype Reducer = Receiving | Stopping(err: Option<Error>) | Returned(err: Option<Error>)

  datatype Config = Config(start: nat, size: nat, workers: nat)

  datatype State = State(
    slicer: Slicer,
    takers: seq<nat>,
    cells: seq<Cell>,
    workers: seq<Worker>,
    cur: nat,
    reducer: Reducer,
    sink: seq<byte>,
    offset: nat)

  datatype Event =
    | Cut
    | Hand(w: nat)
    | Drop
    | Answer(k: nat, out: Pipe.Outcome)
    | Take(w: nat)
    | Deliver(w: nat, m: nat, err: Option<Error>)
    | Skip(w: nat)
    | Exit(w: nat)
    | Return

  /** The file offset chunk k asks for. */
  function Off(c: Config, k: nat): nat {
    if k == 0 then c.start else Off(c, k - 1) + c.size
  }

  function Init(c: Config): State {
    State(Slicing, [], [], seq(c.workers, i => Idle), 0, Receiving, [], c.start)
  }

  predicate Enabled(c: Config, s: State, e: Event) {
    match e
    case Cut => s.slicer == Slicing
    case Hand(w) => s.slicer == Offering && w < |s.workers| && s.workers[w] == Idle
    case Drop => s.slicer == Offering && !s.reducer.Receiving?
    case Answer(k, out) => k < |s.cells| && s.cells[k] == Pending && |out.data| <= c.size
    case Take(w) =>
      && w < |s.workers| && s.workers[w].Waiting?
      && s.workers[w].chunk < |s.cells| && s.cells[s.workers[w].chunk].Answered?
    case Deliver(w, m, err) =>
      && w < |s.workers| && s.workers[w] == Delivering(s.cur) && s.reducer.Receiving?
      && s.cur < |s.cells| && s.cells[s.cur].Taken?
      && m <= |s.cells[s.cur].out.data| && (err.None? ==> m == |s.cells[s.cur].out.data|)
      && (s.cells[s.cur].out.data == [] ==> err.None?)
    case Skip(w) => w < |s.workers| && s.workers[w].Delivering? && !s.reducer.Receiving?
    case Exit(w) => w < |s.workers| && s.workers[w] == Idle && s.slicer == Finished
    case Return => s.reducer.Stopping? && forall w :: 0 <= w < |s.workers| ==> s.workers[w] == Exited
  }

  /** What the reducer does after handling a packet with these two errors. */
  function AfterPacket(writeErr: Option<Error>, packetErr: Option<Error>): Reducer {
    if writeErr.Some? then Stopping(writeErr)
    else if packetErr == Some(Eof) then Stopping(None)
    else if packetErr.Some? then Stopping(packetErr)
    else Receiving
  }

  function Apply(c: Config, s: State, e: Event): State
    requires Enabled(c, s, e)
  {
    match e
    case Cut => s.(slicer := Offering, cells := s.cells + [Pending])
    case Hand(w) =>
      s.(slicer := Slicing, takers := s.takers + [w], workers := s.workers[w := Waiting(|s.takers|)])
    case Drop => s.(slicer := Finished)
    case Answer(k, out) => s.(cells := s.cells[k := Answered(out)])
    case Take(w) =>
      var k := s.workers[w].chunk;
      s.(cells := s.cells[k := Taken(s.cells[k].out)], workers := s.workers[w := Delivering(k)])
    case Deliver(w, m, err) =>
      var out := s.cells[s.cur].out;
      s.(workers := s.workers[w := Idle],
         offset := Off(c, s.cur) + |out.data|,
         sink := s.sink + out.data[..m],
         reducer := AfterPacket(err, out.err),
         cur := s.cur + 1)
    case Skip(w) => s.(workers := s.workers[w := Idle])
    case Exit(w) => s.(workers := s.workers[w := Exited])
    case Return => s.(reducer := Returned(s.reducer.err))
  }

  ghost predicate Run(c: Config, s: State, es: seq<Event>, t: State)
    decreases |es|
  {
    if es == [] then s == t
    else Enabled(c, s, es[0]) && Run(c, Apply(c, s, es[0]), es[1..], t)
  }

  // ---------------------------------------------------------------- invariant

  ghost predicate CellsOk(s: State) {
    && |s.takers| <= |s.cells| <= |s.takers| + 1
    && (s.slicer == Slicing ==> |s.cells| == |s.takers|)
    && (s.slicer == Offering ==> |s.cells| == |s.takers| + 1)
    && (s.slicer == Finished ==> !s.reducer.Receiving?)
    && s.cur <= |s.takers|
    && (forall k :: 0 <= k < s.cur ==> s.cells[k].Taken?)
    && (forall k :: |s.takers| <= k < |s.cells| ==> !s.cells[k].Taken?)
  }

  /** Every chunk handed out and not yet delivered is with the worker that took it. */
  ghost predicate WorkersOk(c: Config, s: State)
    requires CellsOk(s)
  {
    && |s.workers| == c.workers
    && (forall k :: 0 <= k < |s.takers| ==> s.takers[k] < |s.workers|)
    && (s.reducer.Receiving? ==> forall k :: s.cur <= k < |s.takers| ==>
          s.workers[s.takers[k]] == if s.cells[k].Taken? then Delivering(k) else Waiting(k))
    && (forall w :: 0 <= w < |s.workers| && s.workers[w].Waiting? ==>
          var k := s.workers[w].chunk; s.cur <= k < |s.takers| && s.takers[k] == w && !s.cells[k].Taken?)
    && (forall w :: 0 <= w < |s.workers| && s.workers[w].Delivering? ==>
          var k := s.workers[w].chunk;
          k < |s.takers| && s.takers[k] == w && s.cells[k].Taken? && (s.reducer.Receiving? ==> s.cur <= k))
    && (forall w :: 0 <= w < |s.workers| && s.workers[w] == Exited ==> s.slicer == Finished)
  }

  ghost predicate Inv(c: Config, s: State) {
    CellsOk(s) && WorkersOk(c, s)
  }

  lemma StepKeepsCells(c: Config, s: State, e: Event)
    requires Inv(c, s) && Enabled(c, s, e)
    ensures CellsOk(Apply(c, s, e))
  {}

  lemma DeliverKeepsWorkers(c: Config, s: State, e: Event)
    requires Inv(c, s) && Enabled(c, s, e) && e.Deliver? && CellsOk(Apply(c, s, e))
    ensures WorkersOk(c, Apply(c, s, e))
  {}

  lemma TakeKeepsWorkers(c: Config, s: State, e: Event)
    requires Inv(c, s) && Enabled(c, s, e) && (e.Take? || e.Hand?) && CellsOk(Apply(c, s, e))
    ensures WorkersOk(c, Apply(c, s, e))
  {}

  lemma StepKeepsWorkers(c: Config, s: State, e: Event)
    requires Inv(c, s) && Enabled(c, s, e) && CellsOk(Apply(c, s, e))
    ensures WorkersOk(c, Apply(c, s, e))
  {
    match e {
      case Hand(w) => TakeKeepsWorkers(c, s, e);
      case Take(w) => TakeKeepsWorkers(c, s, e);
      case Deliver(w, m, err) => DeliverKeepsWorkers(c, s, e);
      case _ =>
    }
  }

  lemma {:induction false} RunKeepsInv(c: Config, s: State, es: seq<Event>, t: State)
    requires Inv(c, s) && Run(c, s, es, t)
    ensures Inv(c, t)
    decreases |es|
  {
    if es != [] {
      StepKeepsCells(c, s, es[0]);
      StepKeepsWorkers(c, s, es[0]);
      RunKeepsInv(c, Apply(c, s, es[0]), es[1..], t);
    }
  }

  /** In every reachable state before the reducer returns some goroutine can move, or the
      request it waits for is unanswered: the lowest undelivered chunk is with a worker, or a
      worker is free to take it. */
  lemma NeverStuck(c: Config, es: seq<Event>, s: State) returns (e: Event)
    requires c.workers >= 1 && Run(c, Init(c), es, s) && !s.reducer.Returned?
    ensures Enabled(c, s, e)
  {
    RunKeepsInv(c, Init(c), es, s);
    e := NextStep(c, s);
  }

  lemma NextStep(c: Config, s: State) returns (e: Event)
    requires c.workers >= 1 && Inv(c, s) && !s.reducer.Returned?
    ensures Enabled(c, s, e) && (e.Deliver? ==> e.err.None?)
  {
    if s.slicer == Slicing { return Cut; }
    if s.reducer.Receiving? {
      if s.cur == |s.takers| {
        assert s.workers[0] == Idle;
        return Hand(0);
      }
      var w := s.takers[s.cur];
      match s.cells[s.cur] {
        case Pending => return Answer(s.cur, Pipe.Outcome([], Some(ConnectionLost)));
        case Answered(_) => return Take(w);
        case Taken(out) => return Deliver(w, |out.data|, None);
      }
    }
    if s.slicer == Offering { return Drop; }
    if w: nat :| w < |s.workers| && s.workers[w].Waiting? {
      var k := s.workers[w].chunk;
      return if s.cells[k].Pending? then Answer(k, Pipe.Outcome([], Some(ConnectionLost))) else Take(w);
    }
    if w: nat :| w < |s.workers| && s.workers[w].Delivering? { return Skip(w); }
    if w: nat :| w < |s.workers| && s.workers[w] == Idle { return Exit(w); }
    return Return;
  }

  // ---------------------------------------------------------------- what the writer gets

  /** The data of the first n chunks, in order. */
  function Gathered(cells: seq<Cell>, n: nat): seq<byte>
    requires n <= |cells| && forall k :: 0 <= k < n ==> cells[k].Taken?
  {
    if n == 0 then [] else Gathered(cells, n - 1) + cells[n - 1].out.data
  }

  lemma {:induction false} GatheredFrame(cells: seq<Cell>, other: seq<Cell>, n: nat)
    requires n <= |cells| && n <= |other| && forall k :: 0 <= k < n ==> cells[k].Taken? && other[k] == cells[k]
    ensures Gathered(other, n) == Gathered(cells, n)
  {
    if n > 0 { GatheredFrame(cells, other, n - 1); }
  }

  /** Where the reducer stands: all delivered chunks were free of errors, save the last one
      once it has stopped, and the writer has got their data in order, cut short only by its
      own failure on the last. */
  ghost predicate SinkOk(c: Config, s: State)
    requires CellsOk(s)
  {
    && s.offset == (if s.cur == 0 then c.start else Off(c, s.cur - 1) + |s.cells[s.cur - 1].out.data|)
    && if s.reducer.Receiving? then
         && (forall k :: 0 <= k < s.cur ==> s.cells[k].out.err.None?)
         && s.sink == Gathered(s.cells, s.cur)
       else
         && s.cur >= 1
         && (forall k :: 0 <= k < s.cur - 1 ==> s.cells[k].out.err.None?)
         && Gathered(s.cells, s.cur - 1) <= s.sink <= Gathered(s.cells, s.cur)
         && (s.reducer.err.None? ==>
               s.sink == Gathered(s.cells, s.cur) && s.cells[s.cur - 1].out.err == Some(Eof))
  }

  /** The last delivery of a run that had made `before` before it. */
  function LastDelivery(es: seq<Event>, before: Option<Event>): Option<Event> {
    if es == [] then before else LastDelivery(es[1..], if es[0].Deliver? then Some(es[0]) else before)
  }

  /** What the last delivery did: the offset has passed that chunk, the writer has got what it
      took of it, and the reducer goes on just when neither writer nor chunk brought an error.
      The writer's error comes first, then the chunk's, with end of file as none. */
  ghost predicate AfterDelivery(c: Config, s: State, last: Option<Event>)
    requires CellsOk(s)
  {
    match last
    case None => s.cur == 0 && s.reducer.Receiving? && s.sink == [] && s.offset == c.start
    case Some(Deliver(_, m, err)) =>
      && s.cur >= 1
      && var out := s.cells[s.cur - 1].out;
         && m <= |out.data| && s.sink == Gathered(s.cells, s.cur - 1) + out.data[..m]
         && s.offset == c.start + (s.cur - 1) * c.size + |out.data|
         && (s.reducer.Receiving? <==> err.None? && out.err.None?)
         && (!s.reducer.Receiving? ==>
               s.reducer.err == if err.Some? then err else if out.err == Some(Eof) then None else out.err)
    case Some(_) => false
  }

  lemma DeliverIsLast(c: Config, s: State, e: Event)
    requires Inv(c, s) && SinkOk(c, s) && Enabled(c, s, e) && e.Deliver? && CellsOk(Apply(c, s, e))
    ensures AfterDelivery(c, Apply(c, s, e), Some(e))
  {
    OffIsMultiple(c, s.cur);
  }

  /** Other events keep what the last delivery did; the return keeps its error. */
  lemma OthersKeepLast(c: Config, s: State, e: Event, last: Option<Event>)
    requires Inv(c, s) && AfterDelivery(c, s, last) && Enabled(c, s, e) && !e.Deliver? && CellsOk(Apply(c, s, e))
    ensures AfterDelivery(c, Apply(c, s, e), last)
  {
    var t := Apply(c, s, e);
    assert forall k :: 0 <= k < s.cur ==> t.cells[k] == s.cells[k];
    if s.cur >= 1 { GatheredFrame(s.cells, t.cells, s.cur - 1); }
  }

  lemma {:induction false} RunKeepsLast(c: Config, s: State, es: seq<Event>, t: State, last: Option<Event>)
    requires Inv(c, s) && SinkOk(c, s) && AfterDelivery(c, s, last) && Run(c, s, es, t)
    ensures Inv(c, t) && AfterDelivery(c, t, LastDelivery(es, last))
    decreases |es|
  {
    if es != [] {
      StepKeepsCells(c, s, es[0]);
      StepKeepsWorkers(c, s, es[0]);
      StepKeepsSink(c, s, es[0]);
      if es[0].Deliver? { DeliverIsLast(c, s, es[0]); } else { OthersKeepLast(c, s, es[0], last); }
      RunKeepsLast(c, Apply(c, s, es[0]), es[1..], t, if es[0].Deliver? then Some(es[0]) else last);
    }
  }

  /** What WriteTo returns, for arbitrary replies and any writer. If the last delivery met an
      error of the writer, that error; otherwise the error of the chunk delivered last, which
      then has one, with end of file as none. The bytes written are those of the chunks before
      it and what the writer took of it, and the offset has passed it whole. */
  lemma ReturnedError(c: Config, es: seq<Event>, s: State, x: Option<Error>) returns (e: Event)
    requires Run(c, Init(c), es, s) && s.reducer == Returned(x)
    ensures LastDelivery(es, None) == Some(e) && e.Deliver? && 1 <= s.cur <= |s.cells|
    ensures forall k :: 0 <= k < s.cur ==> s.cells[k].Taken?
    ensures forall k :: 0 <= k < s.cur - 1 ==> s.cells[k].out.err.None?
    ensures var out := s.cells[s.cur - 1].out;
            && (e.err.Some? ==> x == e.err)
            && (e.err.None? ==> out.err.Some? && x == if out.err == Some(Eof) then None else out.err)
            && e.m <= |out.data| && s.sink == Gathered(s.cells, s.cur - 1) + out.data[..e.m]
            && s.offset == c.start + (s.cur - 1) * c.size + |out.data|
  {
    RunKeepsLast(c, Init(c), es, s, None);
    RunKeepsSink(c, Init(c), es, s);
    e := LastDelivery(es, None).value;
  }

  lemma DeliverKeepsSink(c: Config, s: State, e: Event)
    requires Inv(c, s) && SinkOk(c, s) && Enabled(c, s, e) && e.Deliver? && CellsOk(Apply(c, s, e))
    ensures SinkOk(c, Apply(c, s, e))
  {
    var data := s.cells[s.cur].out.data;
    assert Gathered(s.cells, s.cur + 1) == Gathered(s.cells, s.cur) + data;
    assert e.m == |data| ==> data[..e.m] == data;
  }

  lemma OthersKeepSink(c: Config, s: State, t: State)
    requires CellsOk(s) && SinkOk(c, s) && CellsOk(t)
    requires t.cur == s.cur && t.sink == s.sink && t.offset == s.offset
    requires t.reducer.Receiving? == s.reducer.Receiving? && (!t.reducer.Receiving? ==> t.reducer.err == s.reducer.err)
    requires forall k :: 0 <= k < s.cur ==> t.cells[k] == s.cells[k]
    ensures SinkOk(c, t)
  {
    GatheredFrame(s.cells, t.cells, s.cur);
    if s.cur > 0 { GatheredFrame(s.cells, t.cells, s.cur - 1); }
  }

  lemma StepKeepsSink(c: Config, s: State, e: Event)
    requires Inv(c, s) && SinkOk(c, s) && Enabled(c, s, e) && CellsOk(Apply(c, s, e))
    ensures SinkOk(c, Apply(c, s, e))
  {
    if e.Deliver? { DeliverKeepsSink(c, s, e); } else { OthersKeepSink(c, s, Apply(c, s, e)); }
  }

  lemma {:induction false} RunKeepsSink(c: Config, s: State, es: seq<Event>, t: State)
    requires Inv(c, s) && SinkOk(c, s) && Run(c, s, es, t)
    ensures Inv(c, t) && SinkOk(c, t)
    decreases |es|
  {
    if es != [] {
      StepKeepsCells(c, s, es[0]);
      StepKeepsWorkers(c, s, es[0]);
      StepKeepsSink(c, s, es[0]);
      RunKeepsSink(c, Apply(c, s, es[0]), es[1..], t);
    }
  }

  // ---------------------------------------------------------------- against a regular file

  /** A worker of WriteTo passes on whatever data came; a short reply is no error here. */
  function Deem(r: Reply): Pipe.Outcome {
    match r
    case StatusReply(err) => Pipe.Outcome([], err)
    case DataReply(data) => Pipe.Outcome(data, None)
  }

  function FileOutcome(content: seq<byte>, c: Config, maxTx: nat, k: nat): Pipe.Outcome {
    Deem(Serve(content, Off(c, k), c.size, maxTx))
  }

  ghost predicate FromFile(content: seq<byte>, c: Config, maxTx: nat, es: seq<Event>) {
    forall i :: 0 <= i < |es| && es[i].Answer? ==> es[i].out == FileOutcome(content, c, maxTx, es[i].k)
  }

  ghost predicate CellsFromFile(content: seq<byte>, c: Config, maxTx: nat, s: State) {
    forall k :: 0 <= k < |s.cells| && !s.cells[k].Pending? ==> s.cells[k].out == FileOutcome(content, c, maxTx, k)
  }

  lemma {:induction false} RunKeepsCellsFromFile(content: seq<byte>, c: Config, maxTx: nat,
                                                 s: State, es: seq<Event>, t: State)
    requires Run(c, s, es, t) && FromFile(content, c, maxTx, es) && CellsFromFile(content, c, maxTx, s)
    ensures CellsFromFile(content, c, maxTx, t)
    decreases |es|
  {
    if es != [] {
      assert FromFile(content, c, maxTx, es[1..]);
      RunKeepsCellsFromFile(content, c, maxTx, Apply(c, s, es[0]), es[1..], t);
    }
  }

  lemma {:induction false} OffMonotone(c: Config, j: nat, k: nat)
    requires j <= k
    ensures Off(c, j) + (if j < k then c.size else 0) <= Off(c, k)
    decreases k
  {
    if j < k { OffMonotone(c, j, k - 1); }
  }

  /** What chunk k brings: the file's bytes up to the packet size and the clamp, EOF past its end. */
  lemma OutcomeFacts(content: seq<byte>, c: Config, maxTx: nat, k: nat)
    requires c.size >= 1 && maxTx >= 1
    ensures var out := FileOutcome(content, c, maxTx, k);
            && |out.data| == Available(content, Off(c, k), Min(c.size, maxTx))
            && (Off(c, k) < |content| ==> out.data == content[Off(c, k)..Off(c, k) + |out.data|])
            && out.err == if Off(c, k) < |content| then None else Some(Eof)
  {
    ServeFacts(content, Off(c, k), c.size, maxTx);
  }

  /** With a harmless clamp chunk k brings all the file holds of it. */
  lemma HarmlessOutcome(content: seq<byte>, c: Config, maxTx: nat, k: nat)
    requires c.size >= 1 && maxTx >= 1 && ClampHarmless(content, c.start, c.size, maxTx)
    ensures |FileOutcome(content, c, maxTx, k).data| == Available(content, Off(c, k), c.size)
  {
    OutcomeFacts(content, c, maxTx, k);
    OffMonotone(c, 0, k);
  }

  /** How much of the rest of the file lies before chunk n. */
  function Covered(content: seq<byte>, c: Config, n: nat): nat {
    OffMonotone(c, 0, n);
    if c.start >= |content| then 0 else Min(Off(c, n), |content|) - c.start
  }

  ghost predicate TakenFromFile(content: seq<byte>, c: Config, maxTx: nat, cells: seq<Cell>, n: nat) {
    n <= |cells| && forall k :: 0 <= k < n ==> cells[k].Taken? && cells[k].out == FileOutcome(content, c, maxTx, k)
  }

  /** `data` is all the file holds of chunk n. */
  ghost predicate WholePiece(content: seq<byte>, c: Config, data: seq<byte>, n: nat) {
    && Covered(content, c, n) <= Covered(content, c, n + 1) <= |Rest(content, c.start)|
    && data == Rest(content, c.start)[Covered(content, c, n)..Covered(content, c, n + 1)]
  }

  lemma HarmlessPiece(content: seq<byte>, c: Config, maxTx: nat, n: nat)
    requires c.size >= 1 && maxTx >= 1 && ClampHarmless(content, c.start, c.size, maxTx)
    ensures WholePiece(content, c, FileOutcome(content, c, maxTx, n).data, n)
  {
    HarmlessOutcome(content, c, maxTx, n);
    OutcomeFacts(content, c, maxTx, n);
    OffMonotone(c, 0, n);
    if Off(c, n) < |content| {
      SliceOfRest(content, c.start, Covered(content, c, n), Covered(content, c, n + 1));
    }
  }

  lemma SliceOfRest(content: seq<byte>, off: nat, i: nat, j: nat)
    requires i <= j <= |Rest(content, off)| && off < |content|
    ensures Rest(content, off)[i..j] == content[off + i..off + j]
  {}

  lemma {:induction false} GatheredWhole(content: seq<byte>, c: Config, cells: seq<Cell>, n: nat)
    requires n <= |cells| && forall k :: 0 <= k < n ==> cells[k].Taken? && WholePiece(content, c, cells[k].out.data, k)
    ensures Covered(content, c, n) <= |Rest(content, c.start)|
    ensures Gathered(cells, n) == Rest(content, c.start)[..Covered(content, c, n)]
  {
    if n > 0 {
      GatheredWhole(content, c, cells, n - 1);
      assert WholePiece(content, c, cells[n - 1].out.data, n - 1);
    }
  }

  lemma HarmlessGathered(content: seq<byte>, c: Config, maxTx: nat, cells: seq<Cell>, n: nat)
    requires c.size >= 1 && maxTx >= 1 && ClampHarmless(content, c.start, c.size, maxTx)
    requires TakenFromFile(content, c, maxTx, cells, n)
    ensures Covered(content, c, n) <= |Rest(content, c.start)|
    ensures Gathered(cells, n) == Rest(content, c.start)[..Covered(content, c, n)]
  {
    forall k | 0 <= k < n ensures WholePiece(content, c, cells[k].out.data, k) {
      HarmlessPiece(content, c, maxTx, k);
    }
    GatheredWhole(content, c, cells, n);
  }

  /** With a harmful clamp the first chunk falls short, and no later one makes up for it. */
  lemma {:induction false} HarmfulGathered(content: seq<byte>, c: Config, maxTx: nat, cells: seq<Cell>, n: nat)
    requires c.size >= 1 && maxTx >= 1 && !ClampHarmless(content, c.start, c.size, maxTx) && n >= 1
    requires TakenFromFile(content, c, maxTx, cells, n)
    ensures |Gathered(cells, n)| < Covered(content, c, n)
  {
    OutcomeFacts(content, c, maxTx, n - 1);
    if n > 1 {
      HarmfulGathered(content, c, maxTx, cells, n - 1);
    } else {
      assert Gathered(cells, 1) == Gathered(cells, 0) + cells[0].out.data;
    }
  }

  /** A run of the pipeline against the file, up to any of its states. */
  ghost predicate FileRun(content: seq<byte>, c: Config, maxTx: nat, es: seq<Event>, s: State) {
    && c.size >= 1 && maxTx >= 1
    && Run(c, Init(c), es, s) && FromFile(content, c, maxTx, es)
  }

  lemma FileRunKeeps(content: seq<byte>, c: Config, maxTx: nat, es: seq<Event>, s: State)
    requires FileRun(content, c, maxTx, es, s)
    ensures Inv(c, s) && SinkOk(c, s) && TakenFromFile(content, c, maxTx, s.cells, s.cur)
  {
    RunKeepsSink(c, Init(c), es, s);
    RunKeepsCellsFromFile(content, c, maxTx, Init(c), es, s);
  }

  /** At every moment of every run, whatever order the replies come in, the writer has been
      given the file from the offset on, in order and without gap or repeat. */
  lemma WriterGetsPrefix(content: seq<byte>, c: Config, maxTx: nat, es: seq<Event>, s: State)
    requires FileRun(content, c, maxTx, es, s) && ClampHarmless(content, c.start, c.size, maxTx)
    ensures s.sink <= Rest(content, c.start)
  {
    FileRunKeeps(content, c, maxTx, es, s);
    HarmlessGathered(content, c, maxTx, s.cells, s.cur);
  }

  /** WriteTo has stopped without an error. */
  predicate Succeeded(s: State) {
    !s.reducer.Receiving? && s.reducer.err.None?
  }

  /** The chunk that reported EOF is the first one at or past the end of the file. */
  lemma LastChunk(content: seq<byte>, c: Config, maxTx: nat, es: seq<Event>, s: State)
    requires FileRun(content, c, maxTx, es, s) && Succeeded(s)
    ensures s.cur >= 1 && |content| <= Off(c, s.cur - 1) == s.offset
    ensures s.cur >= 2 ==> Off(c, s.cur - 2) < |content|
    ensures CellsOk(s) && s.sink == Gathered(s.cells, s.cur) && TakenFromFile(content, c, maxTx, s.cells, s.cur)
  {
    FileRunKeeps(content, c, maxTx, es, s);
    OutcomeFacts(content, c, maxTx, s.cur - 1);
    if s.cur >= 2 { OutcomeFacts(content, c, maxTx, s.cur - 2); }
  }

  /** On success the writer got exactly the rest of the file, as from the sequential form, if
      and only if the clamp is harmless; otherwise bytes are silently left out. */
  lemma WriterGetsTheFile(content: seq<byte>, c: Config, maxTx: nat, es: seq<Event>, s: State)
    requires FileRun(content, c, maxTx, es, s) && Succeeded(s)
    ensures s.sink == Rest(content, c.start) <==> ClampHarmless(content, c.start, c.size, maxTx)
  {
    LastChunk(content, c, maxTx, es, s);
    OffMonotone(c, s.cur - 1, s.cur);
    if ClampHarmless(content, c.start, c.size, maxTx) {
      HarmlessGathered(content, c, maxTx, s.cells, s.cur);
    } else {
      HarmfulGathered(content, c, maxTx, s.cells, s.cur);
    }
  }

  lemma {:induction false} OffIsMultiple(c: Config, k: nat)
    ensures Off(c, k) == c.start + k * c.size
  {
    if k > 0 { OffIsMultiple(c, k - 1); }
  }

  lemma RemainderIs(x: int, size: int, q: int, r: int)
    requires 0 <= r < size && x == q * size + r
    ensures x % size == r
  {
    var d := x / size - q;
    assert d * size == r - x % size;
    assert d >= 1 ==> d * size >= size;
    assert d <= -1 ==> d * size <= -size;
  }

  lemma MultipleBetween(x: nat, size: nat, k: nat)
    requires size >= 1 && k >= 1 && (k - 1) * size < x <= k * size
    ensures x % size == 0 <==> x == k * size
  {
    assert k * size == (k - 1) * size + size;
    if x == k * size {
      RemainderIs(x, size, k, 0);
    } else {
      RemainderIs(x, size, k - 1, x - (k - 1) * size);
    }
  }

  /** After a successful WriteTo the offset has passed the bytes written only when the rest of
      the file is a whole number of packets: otherwise it lies past the end of the file, at
      the start of the chunk that reported EOF. */
  lemma OffsetAfterSuccess(content: seq<byte>, c: Config, maxTx: nat, es: seq<Event>, s: State)
    requires FileRun(content, c, maxTx, es, s) && Succeeded(s)
    ensures var rest := |Rest(content, c.start)|;
            && c.start + rest <= s.offset < c.start + rest + c.size
            && (s.offset == c.start + rest <==> rest % c.size == 0)
  {
    LastChunk(content, c, maxTx, es, s);
    var k := s.cur - 1;
    OffIsMultiple(c, k);
    if k > 0 {
      OffIsMultiple(c, k - 1);
      OffMonotone(c, 0, k - 1);
      MultipleBetween(|content| - c.start, c.size, k);
    }
  }

  // ---------------------------------------------------------------- how long a run can be

  function CellDone(cell: Cell): nat {
    match cell case Pending => 0 case Answered(_) => 1 case Taken(_) => 2
  }

  /** What has been done so far; each event before the stop adds one. */
  function Done(s: State): nat {
    |s.cells| + |s.takers| + SumBy(CellDone, s.cells) + s.cur
  }

  /** How many packets the rest of the file takes, the last one perhaps short. */
  function Packets(content: seq<byte>, c: Config): nat
    requires c.size >= 1
  {
    (|Rest(content, c.start)| + c.size - 1) / c.size
  }

  /** The events of a run to the stop: those of its last one leave the reducer receiving or not,
      all before it leave it receiving. */
  ghost predicate RunToStop(c: Config, s: State, es: seq<Event>, t: State)
    decreases |es|
  {
    if es == [] then s == t
    else s.reducer.Receiving? && Enabled(c, s, es[0]) && RunToStop(c, Apply(c, s, es[0]), es[1..], t)
  }

  lemma {:induction false} AppendSum(cells: seq<Cell>, cell: Cell)
    ensures SumBy(CellDone, cells + [cell]) == SumBy(CellDone, cells) + CellDone(cell)
  {
    assert (cells + [cell])[..|cells|] == cells;
  }

  lemma StepAddsOne(c: Config, s: State, e: Event)
    requires Inv(c, s) && Enabled(c, s, e) && s.reducer.Receiving?
    ensures Done(Apply(c, s, e)) == Done(s) + 1
  {
    match e
    case Cut => AppendSum(s.cells, Pending);
    case Answer(k, out) => SumByUpdate(CellDone, s.cells, k, Answered(out));
    case Take(w) =>
      var k := s.workers[w].chunk;
      SumByUpdate(CellDone, s.cells, k, Taken(s.cells[k].out));
    case _ =>
  }

  lemma {:induction false} SumAtMost(cells: seq<Cell>)
    ensures SumBy(CellDone, cells) <= 2 * |cells|
  {
    if cells != [] { SumAtMost(cells[..|cells| - 1]); }
  }

  /** Distinct numbers below a bound are no more than the bound. */
  lemma {:induction false} Pigeonhole(s: seq<nat>, bound: nat)
    requires forall i :: 0 <= i < |s| ==> s[i] < bound
    requires forall i, j :: 0 <= i < j < |s| ==> s[i] != s[j]
    ensures |s| <= bound
    decreases bound
  {
    assert |s| > 0 ==> s[0] < bound;
    if bound > 0 && bound - 1 in s {
      var i :| 0 <= i < |s| && s[i] == bound - 1;
      Pigeonhole(s[..i] + s[i + 1..], bound - 1);
    } else if bound > 0 {
      Pigeonhole(s, bound - 1);
    }
  }

  /** Each chunk handed out and not delivered occupies a worker of its own. */
  lemma HandedOut(c: Config, s: State)
    requires Inv(c, s) && s.reducer.Receiving?
    ensures |s.takers| <= s.cur + c.workers
  {
    forall j, k | s.cur <= j < k < |s.takers| ensures s.takers[j] != s.takers[k] {
      assert s.workers[s.takers[j]] != s.workers[s.takers[k]];
    }
    Pigeonhole(s.takers[s.cur..], c.workers);
  }

  /** All delivered chunks but the last start before the end of the file. */
  lemma Delivered(content: seq<byte>, c: Config, maxTx: nat, s: State)
    requires c.size >= 1 && maxTx >= 1 && Inv(c, s) && SinkOk(c, s) && s.reducer.Receiving?
    requires CellsFromFile(content, c, maxTx, s)
    ensures s.cur <= Packets(content, c)
  {
    if s.cur > 0 {
      OutcomeFacts(content, c, maxTx, s.cur - 1);
      OffIsMultiple(c, s.cur - 1);
      assert (s.cur - 1) * c.size < |Rest(content, c.start)|;
      RoundedUp(|Rest(content, c.start)|, c.size, s.cur);
    }
  }

  lemma RoundedUp(x: nat, size: nat, k: nat)
    requires size >= 1 && k >= 1 && (k - 1) * size < x
    ensures k <= (x + size - 1) / size
  {
    var q := (x + size - 1) / size;
    assert q * size > x - 1;
    assert (k - 1 - q) * size < size;
  }

  /** The bound on what can be done before the stop. */
  function Most(content: seq<byte>, c: Config): nat
    requires c.size >= 1
  {
    5 * Packets(content, c) + 4 * c.workers + 3
  }

  lemma DoneAtMost(content: seq<byte>, c: Config, maxTx: nat, s: State)
    requires c.size >= 1 && maxTx >= 1 && Inv(c, s) && SinkOk(c, s) && s.reducer.Receiving?
    requires CellsFromFile(content, c, maxTx, s)
    ensures Done(s) <= Most(content, c)
  {
    HandedOut(c, s);
    Delivered(content, c, maxTx, s);
    SumAtMost(s.cells);
  }

  /** What a run against the file keeps. */
  ghost predicate FileOk(content: seq<byte>, c: Config, maxTx: nat, s: State) {
    c.size >= 1 && maxTx >= 1 && Inv(c, s) && SinkOk(c, s) && CellsFromFile(content, c, maxTx, s)
  }

  lemma FileStep(content: seq<byte>, c: Config, maxTx: nat, s: State, e: Event)
    requires FileOk(content, c, maxTx, s) && Enabled(c, s, e)
    requires e.Answer? ==> e.out == FileOutcome(content, c, maxTx, e.k)
    ensures FileOk(content, c, maxTx, Apply(c, s, e))
  {
    StepKeepsCells(c, s, e);
    StepKeepsWorkers(c, s, e);
    StepKeepsSink(c, s, e);
  }

  lemma {:induction false} StopIsNear(content: seq<byte>, c: Config, maxTx: nat, s: State, es: seq<Event>, t: State)
    requires FileOk(content, c, maxTx, s) && RunToStop(c, s, es, t) && FromFile(content, c, maxTx, es)
    ensures s.reducer.Receiving? ==> Done(s) + |es| <= Most(content, c) + 1
    decreases |es|
  {
    if s.reducer.Receiving? { DoneAtMost(content, c, maxTx, s); }
    if es != [] {
      var u := Apply(c, s, es[0]);
      FileStep(content, c, maxTx, s, es[0]);
      StepAddsOne(c, s, es[0]);
      assert FromFile(content, c, maxTx, es[1..]);
      StopIsNear(content, c, maxTx, u, es[1..], t);
      if !u.reducer.Receiving? { assert es[1..] == []; }
    }
  }

  /** Against a file every run stops: no run is longer than five events for each packet of the
      file, four for each worker and four more before the reducer stops. */
  lemma EveryRunStops(content: seq<byte>, c: Config, maxTx: nat, es: seq<Event>, t: State)
    requires c.size >= 1 && maxTx >= 1 && RunToStop(c, Init(c), es, t) && FromFile(content, c, maxTx, es)
    ensures |es| <= 5 * Packets(content, c) + 4 * c.workers + 4
  {
    StopIsNear(content, c, maxTx, Init(c), es, t);
  }

  /** And every run can go on to the stop, the file answering and the writer taking all. */
  lemma {:induction false} GoOn(content: seq<byte>, c: Config, maxTx: nat, s: State) returns (es: seq<Event>, t: State)
    requires c.workers >= 1 && FileOk(content, c, maxTx, s) && s.reducer.Receiving?
    ensures Run(c, s, es, t) && FromFile(content, c, maxTx, es) && Succeeded(t)
    decreases Most(content, c) - Done(s)
  {
    DoneAtMost(content, c, maxTx, s);
    var e := NextStep(c, s);
    if e.Answer? {
      OutcomeFacts(content, c, maxTx, e.k);
      e := Answer(e.k, FileOutcome(content, c, maxTx, e.k));
    }
    var u := Apply(c, s, e);
    FileStep(content, c, maxTx, s, e);
    StepAddsOne(c, s, e);
    if u.reducer.Receiving? {
      DoneAtMost(content, c, maxTx, u);
      es, t := GoOn(content, c, maxTx, u);
    } else {
      DeliveredFromFile(content, c, maxTx, s, e);
      es, t := [], u;
    }
    RunFirst(content, c, maxTx, s, e, es, t);
    es := [e] + es;
  }

  lemma RunFirst(content: seq<byte>, c: Config, maxTx: nat, s: State, e: Event, es: seq<Event>, t: State)
    requires Enabled(c, s, e) && Run(c, Apply(c, s, e), es, t) && FromFile(content, c, maxTx, es)
    requires e.Answer? ==> e.out == FileOutcome(content, c, maxTx, e.k)
    ensures Run(c, s, [e] + es, t) && FromFile(content, c, maxTx, [e] + es)
  {
    assert ([e] + es)[1..] == es;
  }

  /** With a writer that takes all, only the end of the file stops the reducer. */
  lemma DeliveredFromFile(content: seq<byte>, c: Config, maxTx: nat, s: State, e: Event)
    requires FileOk(content, c, maxTx, s) && Enabled(c, s, e) && s.reducer.Receiving?
    requires e.Deliver? ==> e.err.None?
    ensures var u := Apply(c, s, e); u.reducer.Receiving? || u.reducer == Stopping(None)
  {
    if e.Deliver? { OutcomeFacts(content, c, maxTx, s.cur); }
  }

  /** For every file, offset, packet size, clamp and number of workers some run succeeds. */
  lemma SuccessfulRun(content: seq<byte>, c: Config, maxTx: nat) returns (es: seq<Event>, s: State)
    requires c.size >= 1 && maxTx >= 1 && c.workers >= 1
    ensures FileRun(content, c, maxTx, es, s) && Succeeded(s)
  {
    es, s := GoOn(content, c, maxTx, Init(c));
  }

  /** Three bytes in packets of two: all are written, and the offset ends at four. */
  lemma OffsetPastEnd() returns (es: seq<Event>, s: State)
    ensures FileRun([1, 2, 3], Config(0, 2, 1), 2, es, s) && Succeeded(s)
    ensures s.sink == [1, 2, 3] && s.offset == 4
  {
    var content, c := [1, 2, 3], Config(0, 2, 1);
    es, s := SuccessfulRun(content, c, 2);
    WriterGetsTheFile(content, c, 2, es, s);
    OffsetAfterSuccess(content, c, 2, es, s);
    assert Rest(content, 0) == content;
  }

  /** The same file from a server that clamps to one byte: a run ends in success with bytes missing. */
  lemma BytesLeftOut() returns (es: seq<Event>, s: State)
    ensures FileRun([1, 2, 3], Config(0, 2, 1), 1, es, s) && Succeeded(s) && s.sink != [1, 2, 3]
  {
    var content, c := [1, 2, 3], Config(0, 2, 1);
    es, s := SuccessfulRun(content, c, 1);
    WriterGetsTheFile(content, c, 1, es, s);
    assert Rest(content, 0) == content;
  }

  lemma {:induction false} RunAfter(c: Config, s: State, e: Event, es: seq<Event>, t: State)
    requires Enabled(c, s, e) && Run(c, Apply(c, s, e), es, t)
    ensures Run(c, s, [e] + es, t)
  {
    assert ([e] + es)[1..] == es;
  }

  /** A writer can fail at any byte of the first chunk, with any error: that error is returned, and
      what the writer took is all that was written. */
  lemma WriterFails(start: nat, size: nat, data: seq<byte>, m: nat, x: Error) returns (es: seq<Event>, s: State)
    requires 0 < |data| <= size && m <= |data|
    ensures var c := Config(start, size, 1);
            Run(c, Init(c), es, s) && s.reducer == Returned(Some(x)) && s.sink == data[..m]
  {
    var c := Config(start, size, 1);
    var s0 := ChunkTaken(c, data);
    var e := Deliver(0, m, Some(x));
    var s1 := Apply(c, s0, e);
    assert s1.workers == [Idle] && s1.sink == data[..m] && s1.reducer == Stopping(Some(x)) && s1.slicer == Slicing;
    s := StopsAfter(c, s1);
    RunAfter(c, s0, e, [Cut] + ([Drop] + ([Exit(0)] + ([Return] + []))), s);
    es := [e] + ([Cut] + ([Drop] + ([Exit(0)] + ([Return] + []))));
    es := [Cut] + ([Hand(0)] + ([Answer(0, Pipe.Outcome(data, None))] + ([Take(0)] + es)));
  }

  /** Once the reducer has stopped, slicer and worker leave and it returns. */
  lemma StopsAfter(c: Config, s: State) returns (t: State)
    requires s.slicer == Slicing && s.workers == [Idle] && s.reducer.Stopping?
    ensures t.reducer == Returned(s.reducer.err) && t.sink == s.sink
    ensures Run(c, s, [Cut] + ([Drop] + ([Exit(0)] + ([Return] + []))), t)
  {
    var s2 := Apply(c, s, Cut);
    var s3 := Apply(c, s2, Drop);
    var s4 := Apply(c, s3, Exit(0));
    t := Apply(c, s4, Return);
    RunAfter(c, s4, Return, [], t);
    RunAfter(c, s3, Exit(0), [Return] + [], t);
    RunAfter(c, s2, Drop, [Exit(0)] + ([Return] + []), t);
    RunAfter(c, s, Cut, [Drop] + ([Exit(0)] + ([Return] + [])), t);
  }

  /** The first chunk has been received by the only worker. */
  lemma ChunkTaken(c: Config, data: seq<byte>) returns (s: State)
    requires c.workers == 1 && |data| <= c.size
    ensures forall es, t :: Run(c, s, es, t) ==>
              Run(c, Init(c), [Cut] + ([Hand(0)] + ([Answer(0, Pipe.Outcome(data, None))] + ([Take(0)] + es))), t)
    ensures s == State(Slicing, [0], [Taken(Pipe.Outcome(data, None))], [Delivering(0)], 0, Receiving, [], c.start)
  {
    var a := Answer(0, Pipe.Outcome(data, None));
    var s1 := Apply(c, Init(c), Cut);
    var s2 := Apply(c, s1, Hand(0));
    var s3 := Apply(c, s2, a);
    s := Apply(c, s3, Take(0));
    forall es, t | Run(c, s, es, t) ensures Run(c, Init(c), [Cut] + ([Hand(0)] + ([a] + ([Take(0)] + es))), t) {
      RunAfter(c, s3, Take(0), es, t);
      RunAfter(c, s2, a, [Take(0)] + es, t);
      RunAfter(c, s1, Hand(0), [a] + ([Take(0)] + es), t);
      RunAfter(c, Init(c), Cut, [Hand(0)] + ([a] + ([Take(0)] + es)), t);
    }
  }
}
