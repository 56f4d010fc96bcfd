/**
File.ReadAt of the client: the sequential reader, and the concurrent one as a run of the
transfer pipeline that also fills the caller's buffer. Against a fixed regular file both
give the same count, error and buffer.
*/
module ReadAt {
  import opened Basics
  import opened MemFiles
  import opened TransferPipeline

  /** The reply to one READ as the client sees it after normaliseError. */
  datatype Reply = StatusReply(err: Option<Error>) | DataReply(data: seq<byte>)

  /** The server's answer to READ(off, len): getDataSlice clamps the length to maxTx, and EOF
      is sent only when nothing was read. */
  function Serve(content: seq<byte>, off: nat, len: nat, maxTx: nat): Reply {
    var data := ReadBytes(content, off, Min(len, maxTx));
    if data == [] && (Min(len, maxTx) > 0 || off >= |content|) then StatusReply(Some(Eof)) else DataReply(data)
  }

  /** How a worker judges the reply for a chunk of `len` bytes: a short read means EOF. */
  function Judge(r: Reply, len: nat): Outcome {
    match r
    case StatusReply(err) => Outcome([], err)
    case DataReply(data) =>
      var kept := data[..Min(|data|, len)];
      Outcome(kept, if |kept| < len then Some(Eof) else None)
  }

  /** The server's side of an open file. */
  class Remote {
    const file: MemFile
    const maxTx: nat

    constructor (file: MemFile, maxTx: nat)
      ensures this.file == file && this.maxTx == maxTx
    {
      this.file, this.maxTx := file, maxTx;
    }

    /** fileget: read into a data slice and wrap what was read. */
    method Get(off: nat, len: nat) returns (r: Reply)
      ensures r == if file.err.Some? then StatusReply(file.err) else Serve(file.content, off, len, maxTx)
    {
      var data := new byte[Min(len, maxTx)];
      var n, err := file.ReadAt(data, off);
      if err.Some? && (err != Some(Eof) || n == 0) { return StatusReply(err); }
      return DataReply(data[..n]);
    }
  }

  /** How many of `len` bytes at `off` the file holds. */
  function Available(content: seq<byte>, off: nat, len: nat): nat {
    if off >= |content| then 0 else Min(len, |content| - off)
  }

  /** What io.ReaderAt promises: the count, the error, and the buffer afterwards. */
  datatype ReadResult = ReadResult(n: nat, err: Option<Error>, buf: seq<byte>)

  function IdealRead(content: seq<byte>, off: nat, buf: seq<byte>): (r: ReadResult)
    ensures r.n <= |buf| && |r.buf| == |buf|
  {
    var n := Available(content, off, |buf|);
    ReadResult(n, if n < |buf| then Some(Eof) else None, ReadBytes(content, off, n) + buf[n..])
  }

  /** What a non-empty request gets: data while the file lasts, EOF from its end on. */
  lemma ServeFacts(content: seq<byte>, off: nat, len: nat, maxTx: nat)
    requires len >= 1 && maxTx >= 1
    ensures off >= |content| ==> Serve(content, off, len, maxTx) == StatusReply(Some(Eof))
    ensures off < |content| ==>
              var r := Serve(content, off, len, maxTx);
              && r.DataReply?
              && |r.data| == Min(Min(len, maxTx), |content| - off)
              && forall i :: 0 <= i < |r.data| ==> r.data[i] == content[off + i]
  {}

  /** Go's copy(b[at:], data) for data that fits. */
  method CopyInto(b: array<byte>, at: nat, data: seq<byte>)
    requires at + |data| <= b.Length
    modifies b
    ensures forall i :: 0 <= i < b.Length ==>
              b[i] == if at <= i < at + |data| then data[i - at] else old(b[i])
  {
    forall i | 0 <= i < |data| { b[at + i] := data[i]; }
  }

  /** One request and what is copied of its reply: at least a byte, unless there is none. */
  method ReadPiece(remote: Remote, b: array<byte>, at: nat, len: nat, off: nat) returns (got: nat, err: Option<Error>)
    requires at + len <= b.Length && len >= 1 && remote.maxTx >= 1
    modifies b
    ensures got <= if remote.file.err.Some? then 0 else Available(remote.file.content, off, len)
    ensures if got > 0 then err == None
            else if remote.file.err.Some? then err == remote.file.err
            else off >= |remote.file.content| && err == Some(Eof)
    ensures forall i :: 0 <= i < b.Length ==>
              b[i] == if at <= i < at + got then remote.file.content[off + i - at] else old(b[i])
  {
    var r := remote.Get(off, len);
    ServeFacts(remote.file.content, off, len, remote.maxTx);
    match r {
      case StatusReply(e) => return 0, e;
      case DataReply(data) =>
        var kept := data[..Min(|data|, len)];
        CopyInto(b, at, kept);
        return |kept|, None;
    }
  }

  /** readChunkAt: keep asking for the rest until the slice is full or an error comes. */
  method ReadChunkAt(remote: Remote, b: array<byte>, lo: nat, hi: nat, off: nat) returns (n: nat, err: Option<Error>)
    requires lo <= hi <= b.Length && remote.maxTx >= 1
    modifies b
    ensures n == if remote.file.err.Some? then 0 else Available(remote.file.content, off, hi - lo)
    ensures err == if n == hi - lo then None else if remote.file.err.Some? then remote.file.err else Some(Eof)
    ensures forall i :: 0 <= i < b.Length ==>
              b[i] == if lo <= i < lo + n then remote.file.content[off + i - lo] else old(b[i])
  {
    n := 0;
    ghost var content := remote.file.content;
    while n < hi - lo
      invariant n <= if remote.file.err.Some? then 0 else Available(content, off, hi - lo)
      invariant forall i :: 0 <= i < b.Length ==>
                  b[i] == if lo <= i < lo + n then content[off + i - lo] else old(b[i])
    {
      var got, e := ReadPiece(remote, b, lo + n, hi - lo - n, off + n);
      if e.Some? { return n, e; }
      n := n + got;
    }
    err := None;
  }

  /** readAtSequential: one chunk of at most maxPacket bytes after the other. */
  method ReadAtSequential(remote: Remote, b: array<byte>, off: nat, maxPacket: nat)
    returns (read: nat, err: Option<Error>)
    requires maxPacket >= 1 && remote.maxTx >= 1
    modifies b
    ensures remote.file.err.None? ==> ReadResult(read, err, b[..]) == IdealRead(remote.file.content, off, old(b[..]))
    ensures remote.file.err.Some? ==>
              read == 0 && b[..] == old(b[..]) && err == if b.Length > 0 then remote.file.err else None
  {
    read := 0;
    ghost var content := remote.file.content;
    while read < b.Length
      invariant read <= if remote.file.err.Some? then 0 else Available(content, off, b.Length)
      invariant forall i :: 0 <= i < b.Length ==> b[i] == if i < read then content[off + i] else old(b[i])
    {
      var n, e := ReadChunkAt(remote, b, read, Min(read + maxPacket, b.Length), off + read);
      read := read + n;
      if e.Some? {
        assert remote.file.err.None? ==> b[..] == IdealRead(content, off, old(b[..])).buf;
        return read, e;
      }
    }
    assert remote.file.err.None? ==> b[..] == IdealRead(content, off, old(b[..])).buf;
    err := None;
  }

  // ---------------------------------------------------------------- the concurrent reader

  /** The pipeline, and the caller's buffer the workers copy into. */
  datatype ReadState = ReadState(pipe: State, buf: seq<byte>)

  /** copy(packet.b, data): chunk k's part of the buffer receives the data from its front. */
  function Fill(buf: seq<byte>, at: nat, data: seq<byte>): seq<byte> {
    if at + |data| <= |buf| then buf[..at] + data + buf[at + |data|..] else buf
  }

  function StepTo(p: Plan, s: ReadState, e: Event): ReadState
    requires Enabled(p, s.pipe, e) && |s.pipe.cells| == |p.lens|
  {
    ReadState(Apply(p, s.pipe, e),
          if e.Take? then
            var k := s.pipe.workers[e.w].chunk;
            Fill(s.buf, Sum(p.lens, k), s.pipe.cells[k].out.data)
          else s.buf)
  }

  ghost predicate ReadRun(p: Plan, s: ReadState, es: seq<Event>, t: ReadState)
    decreases |es|
  {
    if es == [] then s == t
    else
      && |s.pipe.cells| == |p.lens| && Enabled(p, s.pipe, es[0])
      && ReadRun(p, StepTo(p, s, es[0]), es[1..], t)
  }

  /** Chunk k's part of the buffer: the reply's data once received, the old bytes elsewhere. */
  ghost predicate ChunkFilled(p: Plan, s: ReadState, buf0: seq<byte>, k: nat)
    requires k < |p.lens| == |s.pipe.cells| && |s.buf| == |buf0|
  {
    var cell := s.pipe.cells[k];
    forall i :: 0 <= i < |s.buf| && Sum(p.lens, k) <= i < Sum(p.lens, k) + p.lens[k] ==>
      var j := i - Sum(p.lens, k);
      s.buf[i] == if cell.Taken? && j < |cell.out.data| then cell.out.data[j] else buf0[i]
  }

  ghost predicate Filled(p: Plan, s: ReadState, buf0: seq<byte>) {
    && |p.lens| == |s.pipe.cells| && |s.buf| == |buf0| == Sum(p.lens, |p.lens|)
    && forall k :: 0 <= k < |p.lens| ==> ChunkFilled(p, s, buf0, k)
  }

  /** Copying chunk m's reply into its place leaves the other chunks' places alone. */
  lemma TakeKeepsFilled(p: Plan, s: ReadState, buf0: seq<byte>, w: nat)
    requires Inv(p, s.pipe) && Enabled(p, s.pipe, Take(w)) && Filled(p, s, buf0)
    ensures Filled(p, StepTo(p, s, Take(w)), buf0)
  {
    var t, m := StepTo(p, s, Take(w)), s.pipe.workers[w].chunk;
    ChunkFits(p.lens, m);
    forall k | 0 <= k < |p.lens| ensures ChunkFilled(p, t, buf0, k) {
      assert ChunkFilled(p, s, buf0, k);
      if k != m { ChunksDisjoint(p.lens, k, m); }
    }
  }

  lemma StepKeepsFilled(p: Plan, s: ReadState, buf0: seq<byte>, e: Event)
    requires Inv(p, s.pipe) && Enabled(p, s.pipe, e) && Filled(p, s, buf0)
    ensures Filled(p, StepTo(p, s, e), buf0)
  {
    if e.Take? {
      TakeKeepsFilled(p, s, buf0, e.w);
    } else {
      forall k | 0 <= k < |p.lens| ensures ChunkFilled(p, StepTo(p, s, e), buf0, k) {
        assert ChunkFilled(p, s, buf0, k);
      }
    }
  }

  lemma {:induction false} RunKeepsFilled(p: Plan, s: ReadState, buf0: seq<byte>, es: seq<Event>, t: ReadState)
    requires ValidPlan(p) && Inv(p, s.pipe) && Filled(p, s, buf0) && ReadRun(p, s, es, t)
    ensures Filled(p, t, buf0) && Run(p, s.pipe, es, t.pipe)
    decreases |es|
  {
    if es != [] {
      StepKeepsFilled(p, s, buf0, es[0]);
      StepKeepsInv(p, s.pipe, es[0]);
      RunKeepsFilled(p, StepTo(p, s, es[0]), buf0, es[1..], t);
    }
  }

  /** What readAt returns once the reducer has its verdict, and the buffer at that moment. */
  function Returned(p: Plan, t: ReadState): ReadResult
    requires t.pipe.first.err.None? || t.pipe.first.off >= p.start
  {
    if t.pipe.first.err.None? then ReadResult(|t.buf|, None, t.buf)
    else ReadResult(t.pipe.first.off - p.start, t.pipe.first.err, t.buf)
  }

  lemma ReadRunSettles(p: Plan, buf0: seq<byte>, es: seq<Event>, t: ReadState)
    requires ValidPlan(p) && |buf0| == Sum(p.lens, |p.lens|)
    requires ReadRun(p, ReadState(Init(p), buf0), es, t) && t.pipe.reducer.Returned?
    ensures Run(p, Init(p), es, t.pipe) && Inv(p, t.pipe) && Settled(p, t.pipe) && Filled(p, t, buf0)
  {
    InitInv(p);
    RunKeepsFilled(p, ReadState(Init(p), buf0), buf0, es, t);
    EarliestFault(p, es, t.pipe);
  }

  /** Whatever the replies were: with m chunks answered in full before the first failing one, the
      count is theirs and what was kept of that one, and the error is its own. Every chunk wholly
      below the count was answered without error and its data is in the buffer, and no byte the
      replies did not bring has changed. */
  lemma ConcurrentReadReportsEarliest(p: Plan, buf0: seq<byte>, es: seq<Event>, t: ReadState) returns (m: nat)
    requires ValidPlan(p) && |buf0| == Sum(p.lens, |p.lens|)
    requires ReadRun(p, ReadState(Init(p), buf0), es, t) && t.pipe.reducer.Returned?
    ensures Run(p, Init(p), es, t.pipe) && Inv(p, t.pipe) && Settled(p, t.pipe) && Filled(p, t, buf0)
    ensures var r := Returned(p, t);
            forall k :: 0 <= k < |p.lens| && Sum(p.lens, k) + p.lens[k] <= r.n ==>
              Completed(t.pipe, k) && ChunkFilled(p, t, buf0, k)
    ensures StoppedAt(p, t.pipe, m) && Returned(p, t).buf == t.buf
    ensures var r := Returned(p, t);
            if t.pipe.first.err.None? then m == |p.lens| && r.n == |buf0| && r.err == None
            else if m == |p.lens| then r.n == Sum(p.lens, m) && r.err == p.tail
            else r.n == Sum(p.lens, m) + |t.pipe.cells[m].out.data| && r.err == t.pipe.cells[m].out.err
  {
    ReadRunSettles(p, buf0, es, t);
    m := SettledStops(p, t.pipe);
    var r := Returned(p, t);
    forall k | 0 <= k < |p.lens| && Sum(p.lens, k) + p.lens[k] <= r.n ensures Completed(t.pipe, k) {
      assert Sum(p.lens, k) + p.lens[k] == Sum(p.lens, k + 1);
    }
  }

  /** A chunk that is answered with a status ends the read there, with that status as the error,
      if all chunks before it are complete. */
  lemma StatusEndsRead(p: Plan, buf0: seq<byte>, es: seq<Event>, t: ReadState, m: nat, e: Error)
    requires ValidPlan(p) && |buf0| == Sum(p.lens, |p.lens|)
    requires ReadRun(p, ReadState(Init(p), buf0), es, t) && t.pipe.reducer.Returned?
    requires m < |p.lens| && m < |t.pipe.cells| && forall k :: 0 <= k < m ==> Completed(t.pipe, k)
    requires t.pipe.cells[m] == Taken(Judge(StatusReply(Some(e)), p.lens[m]))
    ensures t.pipe.first.err.Some? && t.pipe.first.off >= p.start
    ensures Returned(p, t).n == Sum(p.lens, m) && Returned(p, t).err == Some(e)
  {
    var stop := ConcurrentReadReportsEarliest(p, buf0, es, t);
    assert Failed(t.pipe, m);
    StopIsUnique(p, t.pipe, stop, m);
    assert stop < m ==> Completed(t.pipe, stop);
    assert stop == m || t.pipe.first.err.None?;
    assert t.pipe.first.err.None? ==> Completed(t.pipe, m);
  }

  /** Of data at most the bytes asked for are kept, and fewer mean the end of the file. */
  lemma JudgedData(data: seq<byte>, len: nat)
    ensures |data| >= len ==> Judge(DataReply(data), len) == Outcome(data[..len], None)
    ensures |data| < len ==> Judge(DataReply(data), len) == Outcome(data, Some(Eof))
  {
    if |data| < len { assert data[..|data|] == data; }
  }

  // ---------------------------------------------------------------- against a regular file

  /** The reply a regular file gives chunk k. The request asks for a full packet even when
      the chunk is shorter. */
  function FileOutcome(content: seq<byte>, p: Plan, maxPacket: nat, maxTx: nat, k: nat): Outcome
    requires k < |p.lens|
  {
    Judge(Serve(content, Begin(p, k), maxPacket, maxTx), p.lens[k])
  }

  ghost predicate FromFile(content: seq<byte>, p: Plan, maxPacket: nat, maxTx: nat, es: seq<Event>) {
    forall i :: 0 <= i < |es| && es[i].Answer? ==>
      es[i].k < |p.lens| && es[i].out == FileOutcome(content, p, maxPacket, maxTx, es[i].k)
  }

  ghost predicate CellsFromFile(content: seq<byte>, p: Plan, maxPacket: nat, maxTx: nat, s: State) {
    && |s.cells| == |p.lens|
    && forall k :: 0 <= k < |s.cells| && (s.cells[k].Answered? || s.cells[k].Taken?) ==>
         s.cells[k].out == FileOutcome(content, p, maxPacket, maxTx, k)
  }

  lemma {:induction false} RunKeepsCellsFromFile(content: seq<byte>, p: Plan, maxPacket: nat, maxTx: nat,
                                                 s: State, es: seq<Event>, t: State)
    requires Run(p, s, es, t) && FromFile(content, p, maxPacket, maxTx, es)
    requires CellsFromFile(content, p, maxPacket, maxTx, s)
    ensures CellsFromFile(content, p, maxPacket, maxTx, t)
    decreases |es|
  {
    if es != [] {
      assert FromFile(content, p, maxPacket, maxTx, es[1..]);
      RunKeepsCellsFromFile(content, p, maxPacket, maxTx, Apply(p, s, es[0]), es[1..], t);
    }
  }

  /** What one chunk gets: the file's bytes, as many as the file, the packet and the server's
      clamp leave; EOF exactly when that is short of the chunk. */
  lemma OutcomeFacts(content: seq<byte>, p: Plan, maxPacket: nat, maxTx: nat, k: nat)
    requires k < |p.lens| && maxPacket >= 1 && maxTx >= 1 && 1 <= p.lens[k] <= maxPacket
    ensures var out := FileOutcome(content, p, maxPacket, maxTx, k);
            && |out.data| == Min(p.lens[k], Available(content, Begin(p, k), Min(maxPacket, maxTx)))
            && (forall j :: 0 <= j < |out.data| ==> out.data[j] == content[Begin(p, k) + j])
            && out.err == if |out.data| < p.lens[k] then Some(Eof) else None
  {
    ServeFacts(content, Begin(p, k), maxPacket, maxTx);
  }

  /** The server's clamp never shortens a reply the client takes for the end of the file. */
  predicate ClampHarmless(content: seq<byte>, off: nat, maxPacket: nat, maxTx: nat) {
    maxPacket <= maxTx || |content| <= off + maxTx
  }

  /** When the clamp is harmless, each chunk gets exactly what the file holds of it. */
  lemma HarmlessOutcome(content: seq<byte>, p: Plan, maxPacket: nat, maxTx: nat, k: nat)
    requires k < |p.lens| && maxPacket >= 1 && maxTx >= 1 && 1 <= p.lens[k] <= maxPacket && p.lens[0] == maxPacket
    requires ClampHarmless(content, p.start, maxPacket, maxTx)
    ensures var out := FileOutcome(content, p, maxPacket, maxTx, k);
            && |out.data| == Available(content, Begin(p, k), p.lens[k])
            && (forall j :: 0 <= j < |out.data| ==> out.data[j] == content[Begin(p, k) + j])
            && out.err == if |out.data| < p.lens[k] then Some(Eof) else None
  {
    OutcomeFacts(content, p, maxPacket, maxTx, k);
    assert Sum(p.lens, 1) == maxPacket;
    if k > 0 { SumMonotone(p.lens, 1, k); }
  }

  /** The pipeline's final state when every reply came from the file. */
  ghost predicate FileRun(content: seq<byte>, p: Plan, maxPacket: nat, maxTx: nat, s: State) {
    && maxPacket >= 1 && maxTx >= 1 && ValidPlan(p)
    && |p.lens| >= 2 && p.lens[0] == maxPacket && (forall k :: 0 <= k < |p.lens| ==> p.lens[k] <= maxPacket)
    && CellsFromFile(content, p, maxPacket, maxTx, s)
    && Settled(p, s)
    && |s.takers| <= |p.lens|
    && (forall k :: 0 <= k < |s.cells| ==> (k < |s.takers| <==> s.cells[k].Taken?))
    && (|s.takers| < |p.lens| ==> s.first.err.Some? && s.first.chunk < |p.lens|)
    && p.tail.None?
  }

  lemma FileRunHolds(content: seq<byte>, p: Plan, maxPacket: nat, maxTx: nat, s: State)
    requires maxPacket >= 1 && maxTx >= 1 && ValidPlan(p) && p.tail.None? && |p.lens| >= 2 && p.lens[0] == maxPacket
    requires forall k :: 0 <= k < |p.lens| ==> p.lens[k] <= maxPacket
    requires Inv(p, s) && Settled(p, s) && s.reducer.Returned?
    requires CellsFromFile(content, p, maxPacket, maxTx, s)
    ensures FileRun(content, p, maxPacket, maxTx, s)
  {
    ReturnedDrained(p, s);
  }

  /** A chunk no reply was received for starts at or past the end of the file. */
  lemma UntakenPastEnd(content: seq<byte>, p: Plan, maxPacket: nat, maxTx: nat, s: State, k: nat)
    requires FileRun(content, p, maxPacket, maxTx, s) && ClampHarmless(content, p.start, maxPacket, maxTx)
    requires k < |p.lens| && !s.cells[k].Taken?
    ensures |content| <= Begin(p, k)
  {
    var m := s.first.chunk;
    assert Failed(s, m) && m < |s.takers| <= k;
    HarmlessOutcome(content, p, maxPacket, maxTx, m);
    SumMonotone(p.lens, m + 1, k);
  }

  /** The chunk with the least fault is the one in which the file ends, or the first. */
  lemma HarmlessFault(content: seq<byte>, p: Plan, maxPacket: nat, maxTx: nat, s: State)
    requires FileRun(content, p, maxPacket, maxTx, s) && ClampHarmless(content, p.start, maxPacket, maxTx)
    requires s.first.err.Some?
    ensures s.first.off == Max(p.start, |content|) < Begin(p, |p.lens|) && s.first.err == Some(Eof)
  {
    var m := s.first.chunk;
    assert Failed(s, m);
    HarmlessOutcome(content, p, maxPacket, maxTx, m);
    SumMonotone(p.lens, m + 1, |p.lens|);
    if m > 0 {
      assert Completed(s, m - 1);
      HarmlessOutcome(content, p, maxPacket, maxTx, m - 1);
    }
  }

  lemma HarmlessComplete(content: seq<byte>, p: Plan, maxPacket: nat, maxTx: nat, s: State)
    requires FileRun(content, p, maxPacket, maxTx, s) && ClampHarmless(content, p.start, maxPacket, maxTx)
    requires s.first.err.None?
    ensures Begin(p, |p.lens|) <= |content|
  {
    var last := |p.lens| - 1;
    assert Completed(s, last);
    HarmlessOutcome(content, p, maxPacket, maxTx, last);
  }

  /** Chunk k was received with all the file holds of it, or the file holds nothing of it. */
  ghost predicate ChunkOfFile(content: seq<byte>, p: Plan, s: State, k: nat)
    requires k < |p.lens| == |s.cells|
  {
    if s.cells[k].Taken? then
      var data := s.cells[k].out.data;
      && |data| == Available(content, Begin(p, k), p.lens[k])
      && forall j :: 0 <= j < |data| ==> data[j] == content[Begin(p, k) + j]
    else |content| <= Begin(p, k)
  }

  lemma HarmlessChunk(content: seq<byte>, p: Plan, maxPacket: nat, maxTx: nat, s: State, k: nat)
    requires FileRun(content, p, maxPacket, maxTx, s) && ClampHarmless(content, p.start, maxPacket, maxTx)
    requires k < |p.lens|
    ensures ChunkOfFile(content, p, s, k)
  {
    if s.cells[k].Taken? {
      HarmlessOutcome(content, p, maxPacket, maxTx, k);
    } else {
      UntakenPastEnd(content, p, maxPacket, maxTx, s, k);
    }
  }

  lemma ByteOfFile(content: seq<byte>, buf0: seq<byte>, p: Plan, t: ReadState, k: nat, i: nat)
    requires k < |p.lens| == |t.pipe.cells| && |buf0| == |t.buf|
    requires ChunkOfFile(content, p, t.pipe, k) && ChunkFilled(p, t, buf0, k)
    requires Sum(p.lens, k) <= i < Sum(p.lens, k) + p.lens[k] && i < |t.buf|
    ensures t.buf[i] == if p.start + i < |content| then content[p.start + i] else buf0[i]
  {}

  /** The buffer is the file as far as it goes and the old bytes after it. */
  lemma BufferOfFile(content: seq<byte>, buf0: seq<byte>, p: Plan, t: ReadState)
    requires Filled(p, t, buf0) && forall k :: 0 <= k < |p.lens| ==> ChunkOfFile(content, p, t.pipe, k)
    ensures t.buf == IdealRead(content, p.start, buf0).buf
  {
    forall i | 0 <= i < |t.buf|
      ensures t.buf[i] == if p.start + i < |content| then content[p.start + i] else buf0[i]
    {
      var k := Locate(p.lens, |p.lens|, i);
      ByteOfFile(content, buf0, p, t, k, i);
    }
  }

  lemma HarmlessResult(content: seq<byte>, buf0: seq<byte>, p: Plan, maxPacket: nat, maxTx: nat, t: ReadState)
    requires FileRun(content, p, maxPacket, maxTx, t.pipe) && ClampHarmless(content, p.start, maxPacket, maxTx)
    requires Filled(p, t, buf0)
    ensures Returned(p, t) == IdealRead(content, p.start, buf0)
  {
    forall k | 0 <= k < |p.lens| ensures ChunkOfFile(content, p, t.pipe, k) {
      HarmlessChunk(content, p, maxPacket, maxTx, t.pipe, k);
    }
    BufferOfFile(content, buf0, p, t);
    if t.pipe.first.err.Some? {
      HarmlessFault(content, p, maxPacket, maxTx, t.pipe);
    } else {
      HarmlessComplete(content, p, maxPacket, maxTx, t.pipe);
    }
  }

  /** With a harmful clamp the first chunk comes back short in mid-file and is taken for EOF. */
  lemma HarmfulFault(content: seq<byte>, p: Plan, maxPacket: nat, maxTx: nat, s: State)
    requires FileRun(content, p, maxPacket, maxTx, s) && !ClampHarmless(content, p.start, maxPacket, maxTx)
    ensures s.first == Verdict(p.start + maxTx, Some(Eof), 0)
  {
    OutcomeFacts(content, p, maxPacket, maxTx, 0);
    assert !Completed(s, 0);
  }

  lemma HarmfulResult(content: seq<byte>, buf0: seq<byte>, p: Plan, maxPacket: nat, maxTx: nat, t: ReadState)
    requires FileRun(content, p, maxPacket, maxTx, t.pipe) && !ClampHarmless(content, p.start, maxPacket, maxTx)
    requires |buf0| > maxPacket
    ensures Returned(p, t).n == maxTx < IdealRead(content, p.start, buf0).n
  {
    HarmfulFault(content, p, maxPacket, maxTx, t.pipe);
  }

  /** A completed run of the pipeline against the file. */
  ghost predicate FileReadRun(content: seq<byte>, off: nat, buf0: seq<byte>, maxPacket: nat, maxTx: nat,
                              workers: nat, es: seq<Event>, t: ReadState)
  {
    && maxPacket >= 1
    && var p := BufferPlan(off, |buf0|, maxPacket, workers);
    && ReadRun(p, ReadState(Init(p), buf0), es, t) && FromFile(content, p, maxPacket, maxTx, es)
    && t.pipe.reducer.Returned?
  }

  lemma FileReadRunEnds(content: seq<byte>, off: nat, buf0: seq<byte>, maxPacket: nat, maxTx: nat,
                        workers: nat, es: seq<Event>, t: ReadState)
    requires maxPacket >= 1 && maxTx >= 1 && workers >= 1 && |buf0| > maxPacket && off + |buf0| <= MAX_INT64
    requires FileReadRun(content, off, buf0, maxPacket, maxTx, workers, es, t)
    ensures var p := BufferPlan(off, |buf0|, maxPacket, workers);
            FileRun(content, p, maxPacket, maxTx, t.pipe) && Filled(p, t, buf0)
  {
    var p := BufferPlan(off, |buf0|, maxPacket, workers);
    ReadRunSettles(p, buf0, es, t);
    RunKeepsCellsFromFile(content, p, maxPacket, maxTx, Init(p), es, t.pipe);
    FileRunHolds(content, p, maxPacket, maxTx, t.pipe);
  }

  /** The concurrent reader gives what the sequential one gives, for every interleaving of
      slicer, workers, reducer and cancel, if and only if the clamp is harmless. */
  lemma ConcurrentReadRefinesSequential(content: seq<byte>, off: nat, buf0: seq<byte>, maxPacket: nat, maxTx: nat,
                                        workers: nat, es: seq<Event>, t: ReadState)
    requires maxPacket >= 1 && maxTx >= 1 && workers >= 1 && |buf0| > maxPacket && off + |buf0| <= MAX_INT64
    requires FileReadRun(content, off, buf0, maxPacket, maxTx, workers, es, t)
    ensures var p := BufferPlan(off, |buf0|, maxPacket, workers);
            && (t.pipe.first.err.None? || t.pipe.first.off >= off)
            && (Returned(p, t) == IdealRead(content, off, buf0) <==> ClampHarmless(content, off, maxPacket, maxTx))
  {
    var p := BufferPlan(off, |buf0|, maxPacket, workers);
    FileReadRunEnds(content, off, buf0, maxPacket, maxTx, workers, es, t);
    if ClampHarmless(content, off, maxPacket, maxTx) {
      HarmlessResult(content, buf0, p, maxPacket, maxTx, t);
    } else {
      HarmfulResult(content, buf0, p, maxPacket, maxTx, t);
    }
  }

  // ---------------------------------------------------------------- completed runs exist

  /** Every run against the file goes on to the reducer's return, with the file's own answers. */
  lemma {:induction false} FileRunGoesOn(content: seq<byte>, p: Plan, maxPacket: nat, maxTx: nat, s: ReadState)
    returns (es: seq<Event>, t: ReadState)
    requires maxPacket >= 1 && maxTx >= 1 && ValidPlan(p)
    requires forall k :: 0 <= k < |p.lens| ==> p.lens[k] <= maxPacket
    requires Inv(p, s.pipe) && |s.pipe.takers| <= |p.lens| == |s.pipe.cells|
    ensures ReadRun(p, s, es, t) && FromFile(content, p, maxPacket, maxTx, es) && t.pipe.reducer.Returned?
    decreases Remaining(p, s.pipe)
  {
    if s.pipe.reducer.Returned? { return [], s; }
    var e := FileStep(content, p, maxPacket, maxTx, s.pipe);
    StepKeepsInv(p, s.pipe, e);
    StepDecreases(p, s.pipe, e);
    es, t := FileRunGoesOn(content, p, maxPacket, maxTx, StepTo(p, s, e));
    RunFirst(content, p, maxPacket, maxTx, s, e, es, t);
    es := [e] + es;
  }

  /** Before the return some event can happen, and a reply among the file's own. */
  lemma FileStep(content: seq<byte>, p: Plan, maxPacket: nat, maxTx: nat, s: State) returns (e: Event)
    requires maxPacket >= 1 && maxTx >= 1 && ValidPlan(p) && forall k :: 0 <= k < |p.lens| ==> p.lens[k] <= maxPacket
    requires Inv(p, s) && !s.reducer.Returned?
    ensures Enabled(p, s, e)
    ensures e.Answer? ==> e.k < |p.lens| && e.out == FileOutcome(content, p, maxPacket, maxTx, e.k)
  {
    e := NeverStuck(p, s);
    if e.Answer? {
      OutcomeFacts(content, p, maxPacket, maxTx, e.k);
      e := Answer(e.k, FileOutcome(content, p, maxPacket, maxTx, e.k));
    }
  }

  lemma RunFirst(content: seq<byte>, p: Plan, maxPacket: nat, maxTx: nat,
                 s: ReadState, e: Event, es: seq<Event>, t: ReadState)
    requires |s.pipe.cells| == |p.lens| && Enabled(p, s.pipe, e) && ReadRun(p, StepTo(p, s, e), es, t)
    requires FromFile(content, p, maxPacket, maxTx, es)
    requires e.Answer? ==> e.k < |p.lens| && e.out == FileOutcome(content, p, maxPacket, maxTx, e.k)
    ensures ReadRun(p, s, [e] + es, t) && FromFile(content, p, maxPacket, maxTx, [e] + es)
  {
    assert ([e] + es)[1..] == es;
  }

  /** So every concurrent read of a file can complete; by EveryRunEnds no other outcome is possible. */
  lemma ConcurrentReadCompletes(content: seq<byte>, off: nat, buf0: seq<byte>, maxPacket: nat, maxTx: nat, workers: nat)
    returns (es: seq<Event>, t: ReadState)
    requires maxPacket >= 1 && maxTx >= 1 && workers >= 1 && |buf0| > maxPacket && off + |buf0| <= MAX_INT64
    ensures FileReadRun(content, off, buf0, maxPacket, maxTx, workers, es, t)
  {
    var p := BufferPlan(off, |buf0|, maxPacket, workers);
    InitInv(p);
    es, t := FileRunGoesOn(content, p, maxPacket, maxTx, ReadState(Init(p), buf0));
  }

  /** Three bytes, packets of two, a server that clamps to one: a completed run reports the end of
      the file after one byte, where the sequential reader finds all three. */
  lemma ShortReadTakenForEnd() returns (es: seq<Event>, t: ReadState)
    ensures FileReadRun([1, 2, 3], 0, [0, 0, 0], 2, 1, 1, es, t)
    ensures var p := BufferPlan(0, 3, 2, 1);
            && (t.pipe.first.err.None? || t.pipe.first.off >= p.start)
            && Returned(p, t).n == 1 && Returned(p, t).err == Some(Eof)
    ensures IdealRead([1, 2, 3], 0, [0, 0, 0]) == ReadResult(3, None, [1, 2, 3])
  {
    var content: seq<byte>, buf0: seq<byte> := [1, 2, 3], [0, 0, 0];
    es, t := ConcurrentReadCompletes(content, 0, buf0, 2, 1, 1);
    var p := BufferPlan(0, 3, 2, 1);
    FileReadRunEnds(content, 0, buf0, 2, 1, 1, es, t);
    HarmfulFault(content, p, 2, 1, t.pipe);
    assert ReadBytes(content, 0, 3) + buf0[3..] == content;
  }
}
