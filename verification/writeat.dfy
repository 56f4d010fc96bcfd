/**
File.WriteAt of the client: the sequential writer, and the concurrent one as a run of the
transfer pipeline beside a server file. The server applies each dispatched write at any
later moment, wholly or in part when it fails, and in any order.
*/
module WriteAt {
  import opened Basics
  import opened MemFiles
  import opened TransferPipeline

  /** The file after data reached it at `off`; no data leaves it as it was. */
  function Uploaded(content: seq<byte>, off: nat, data: seq<byte>): seq<byte> {
    if data == [] then content else WriteBytes(content, off, data)
  }

  lemma UploadedMore(content: seq<byte>, off: nat, done: seq<byte>, more: seq<byte>)
    ensures Uploaded(Uploaded(content, off, done), off + |done|, more) == Uploaded(content, off, done + more)
  {
    var all := done + more;
    if done == [] {
      assert all == more;
    } else if more == [] {
      assert all == done;
    } else {
      assert all[..|done|] == done && all[|done|..] == more;
      WriteBytesSplit(content, off, all, |done|);
    }
  }

  /** The server's file as a target of writes: it accepts so many, then refuses with an error,
      which can be any status the server sends, end of file included, or a failure to send. Of
      a write it refuses any part from the front may have reached the file. */
  class Target {
    var content: seq<byte>
    var accepts: nat
    const refusal: Error

    constructor (content: seq<byte>, accepts: nat, refusal: Error)
      ensures this.content == content && this.accepts == accepts && this.refusal == refusal
    {
      this.content, this.accepts, this.refusal := content, accepts, refusal;
    }

    /** writeChunkAt: all written, or an error and a count of zero. */
    method WriteChunkAt(data: seq<byte>, off: nat) returns (n: nat, err: Option<Error>, ghost landed: nat)
      modifies this
      ensures old(accepts) > 0 ==>
                && n == landed == |data| && err == None && accepts == old(accepts) - 1
                && content == WriteBytes(old(content), off, data)
      ensures old(accepts) == 0 ==> n == 0 && landed <= |data| && err == Some(refusal) && accepts == 0
      ensures landed <= |data|
      ensures old(accepts) == 0 || data != [] ==> content == Uploaded(old(content), off, data[..landed])
    {
      if accepts > 0 {
        assert data[..|data|] == data;
        content, accepts := WriteBytes(content, off, data), accepts - 1;
        return |data|, None, |data|;
      }
      var kept :| 0 <= kept <= |data|;
      content := Uploaded(content, off, data[..kept]);
      return 0, Some(refusal), kept;
    }
  }

  /** A write of some data. */
  method WriteSome(target: Target, data: seq<byte>, off: nat) returns (n: nat, err: Option<Error>, ghost landed: nat)
    requires data != []
    modifies target
    ensures landed <= |data| && target.content == Uploaded(old(target.content), off, data[..landed])
    ensures if old(target.accepts) > 0
            then n == landed == |data| && err == None && target.accepts == old(target.accepts) - 1
            else n == 0 && err == Some(target.refusal) && target.accepts == 0
  {
    n, err, landed := target.WriteChunkAt(data, off);
  }

  /** writeAt without concurrency: one write if it fits a packet, else one chunk after the
      other, stopping at the first error. Everything below the count returned has been written,
      and what reached the file is a piece of the buffer from its front. */
  method WriteAtSequential(target: Target, b: seq<byte>, off: nat, maxPacket: nat)
    returns (written: nat, err: Option<Error>, ghost landed: nat)
    requires maxPacket >= 1
    modifies target
    ensures err.None? ==> written == landed == |b| && target.content == WriteBytes(old(target.content), off, b)
    ensures err.Some? ==> written <= landed <= |b| && target.content == Uploaded(old(target.content), off, b[..landed])
    ensures err.None? <==> |Chunks(|b|, maxPacket)| <= old(target.accepts) && (b == [] ==> old(target.accepts) > 0)
    ensures err.Some? ==>
              && err == Some(target.refusal)
              && written == Sum(Chunks(|b|, maxPacket), Min(old(target.accepts), |Chunks(|b|, maxPacket)|))
  {
    if |b| <= maxPacket {
      OneChunk(|b|, maxPacket);
      written, err, landed := target.WriteChunkAt(b, off);
    } else {
      ghost var sent;
      written, err, landed, sent := WriteChunks(target, b, off, maxPacket);
      assert b[..|b|] == b;
    }
  }

  /** The loop over the chunks of a buffer larger than a packet. */
  method WriteChunks(target: Target, b: seq<byte>, off: nat, maxPacket: nat)
    returns (written: nat, err: Option<Error>, ghost landed: nat, ghost sent: nat)
    requires 1 <= maxPacket < |b|
    modifies target
    ensures Progress(Chunks(|b|, maxPacket), written, err, sent, old(target.accepts), target.accepts)
    ensures written <= landed <= |b| && target.content == Uploaded(old(target.content), off, b[..landed])
    ensures if err.None? then landed == written == |b| && sent == |Chunks(|b|, maxPacket)|
            else err == Some(target.refusal)
  {
    ghost var lens := Chunks(|b|, maxPacket);
    ChunksTile(|b|, maxPacket);
    written, err, landed, sent := 0, None, 0, 0;
    while written < |b| && err.None?
      invariant Progress(lens, written, err, sent, old(target.accepts), target.accepts)
      invariant written <= landed <= |b| && (if err.None? then landed == written else err == Some(target.refusal))
      invariant target.content == Uploaded(old(target.content), off, b[..landed])
      decreases |b| - written, err.None?
    {
      ChunkAt(|b|, maxPacket, sent);
      var n;
      assert Sum(lens, sent + 1) == written + lens[sent];
      n, err, landed := SendPiece(target, b, off, written, Min(written + maxPacket, |b|), old(target.content));
      written, sent := written + n, if err.None? then sent + 1 else sent;
    }
    if err.None? { AllSent(lens, sent); }
  }

  /** One turn of the loop: b[at..next] after b[..at] has gone through. */
  method SendPiece(target: Target, b: seq<byte>, off: nat, at: nat, next: nat, ghost c0: seq<byte>)
    returns (n: nat, err: Option<Error>, ghost landed: nat)
    requires at < next <= |b| && target.content == Uploaded(c0, off, b[..at])
    modifies target
    ensures at <= landed <= next && target.content == Uploaded(c0, off, b[..landed])
    ensures if old(target.accepts) > 0
            then n == next - at && landed == next && err == None && target.accepts == old(target.accepts) - 1
            else n == 0 && err == Some(target.refusal) && target.accepts == 0
  {
    n, err, landed := WritePiece(target, b[at..next], off + at, c0, off, b, at);
  }

  /** The next piece of a stream of which `done` bytes are in the file. */
  method WritePiece(target: Target, data: seq<byte>, off: nat, ghost c0: seq<byte>, ghost f0: nat,
                    ghost stream: seq<byte>, ghost done: nat)
    returns (m: nat, e: Option<Error>, ghost landed: nat)
    requires data != [] && done + |data| <= |stream| && data == stream[done..done + |data|]
    requires off == f0 + done && target.content == Uploaded(c0, f0, stream[..done])
    modifies target
    ensures done <= landed <= done + |data| && target.content == Uploaded(c0, f0, stream[..landed])
    ensures if old(target.accepts) > 0
            then m == |data| && landed == done + |data| && e == None && target.accepts == old(target.accepts) - 1
            else m == 0 && e == Some(target.refusal) && target.accepts == 0
  {
    ghost var before := target.content;
    m, e, landed := WriteSome(target, data, off);
    NextPiece(c0, f0, stream, done, before, off, data, landed);
    landed := done + landed;
  }

  lemma NextPiece(c0: seq<byte>, f0: nat, stream: seq<byte>, done: nat,
                  before: seq<byte>, off: nat, data: seq<byte>, n: nat)
    requires done + |data| <= |stream| && data == stream[done..done + |data|] && n <= |data|
    requires off == f0 + done && before == Uploaded(c0, f0, stream[..done])
    ensures Uploaded(before, off, data[..n]) == Uploaded(c0, f0, stream[..done + n])
  {
    TakeMore(stream, done, data, n);
    UploadedMore(c0, f0, stream[..done], data[..n]);
  }

  lemma TakeMore(stream: seq<byte>, done: nat, data: seq<byte>, n: nat)
    requires done + |data| <= |stream| && data == stream[done..done + |data|] && n <= |data|
    ensures stream[..done] + data[..n] == stream[..done + n]
  {}

  /** The writer has sent `sent` chunks; an error means that no more are accepted. */
  ghost predicate Progress(lens: seq<nat>, written: nat, err: Option<Error>, sent: nat, accepts0: nat, accepts: nat) {
    && sent <= |lens| && written == Sum(lens, sent) && accepts + sent == accepts0
    && (err.Some? ==> accepts == 0 && sent < |lens|)
  }

  lemma OneChunk(len: nat, size: nat)
    requires 1 <= size && len <= size
    ensures |Chunks(len, size)| == if len == 0 then 0 else 1
  {}

  /** The k-th chunk starts where those before it end, and is as long as the loop makes it. */
  lemma {:induction false} ChunkAt(len: nat, size: nat, k: nat)
    requires size >= 1 && k <= |Chunks(len, size)| && Sum(Chunks(len, size), k) < len
    ensures k < |Chunks(len, size)| && Chunks(len, size)[k] == Min(size, len - Sum(Chunks(len, size), k))
  {
    var lens := Chunks(len, size);
    if k > 0 && len > 0 {
      var first, rest := Min(len, size), len - Min(len, size);
      var more := Chunks(rest, size);
      assert lens == [first] + more;
      SumCons(first, more, k - 1);
      ChunkAt(rest, size, k - 1);
    }
  }

  lemma AllSent(lens: seq<nat>, k: nat)
    requires k <= |lens| && Sum(lens, k) >= Sum(lens, |lens|) && forall i :: 0 <= i < |lens| ==> lens[i] > 0
    ensures k == |lens|
  {
    if k < |lens| { SumMonotone(lens, k + 1, |lens|); }
  }

  /** The pipeline, the server's file, and how much of each chunk has reached it. */
  datatype WriteState = WriteState(pipe: State, file: seq<byte>, landed: seq<nat>)

  datatype WriteEvent = Client(e: Event) | Land(k: nat, kept: nat)

  function InitWrite(p: Plan, file0: seq<byte>): WriteState {
    WriteState(Init(p), file0, seq(|p.lens|, i => 0))
  }

  /** A write lands at most once, after its dispatch; a success is only reported for one that
      landed in full. A write reported as failed may still land, or land in part. */
  predicate WriteEnabled(p: Plan, s: WriteState, w: WriteEvent) {
    && |s.pipe.cells| == |p.lens| == |s.landed|
    && match w
       case Client(e) =>
         && Enabled(p, s.pipe, e)
         && (e.Answer? ==> e.out.data == [] && (e.out.err.None? ==> s.landed[e.k] == p.lens[e.k]))
       case Land(k, kept) =>
         k < |p.lens| && !s.pipe.cells[k].Uncut? && s.landed[k] == 0 && 0 < kept <= p.lens[k]
  }

  function WriteStep(p: Plan, b: seq<byte>, s: WriteState, w: WriteEvent): WriteState
    requires WriteEnabled(p, s, w) && |b| == Sum(p.lens, |p.lens|)
  {
    match w
    case Client(e) => s.(pipe := Apply(p, s.pipe, e))
    case Land(k, kept) =>
      ChunkFits(p.lens, k);
      var at := Sum(p.lens, k);
      s.(file := WriteBytes(s.file, p.start + at, b[at..at + kept]), landed := s.landed[k := kept])
  }

  ghost predicate WriteRun(p: Plan, b: seq<byte>, s: WriteState, ws: seq<WriteEvent>, t: WriteState)
    requires |b| == Sum(p.lens, |p.lens|)
    decreases |ws|
  {
    if ws == [] then s == t
    else WriteEnabled(p, s, ws[0]) && WriteRun(p, b, WriteStep(p, b, s, ws[0]), ws[1..], t)
  }

  /** Chunk k's part of the file: its bytes as far as they landed, the old file elsewhere. */
  ghost predicate ChunkLanded(p: Plan, b: seq<byte>, file0: seq<byte>, s: WriteState, k: nat)
    requires k < |p.lens| == |s.landed|
  {
    && (s.landed[k] > 0 ==> Begin(p, k) + s.landed[k] <= |s.file|)
    && forall i :: Begin(p, k) <= i < Begin(p, k) + p.lens[k] && i < |s.file| && i - p.start < |b| ==>
         s.file[i] == if i < Begin(p, k) + s.landed[k] then b[i - p.start] else ByteAt(file0, i)
  }

  ghost predicate OutsideKept(p: Plan, b: seq<byte>, file0: seq<byte>, file: seq<byte>) {
    && |file0| <= |file| <= Max(|file0|, p.start + |b|)
    && forall i :: 0 <= i < |file| && (i < p.start || p.start + |b| <= i) ==> file[i] == ByteAt(file0, i)
  }

  ghost predicate LandedOk(p: Plan, s: WriteState) {
    && |s.pipe.cells| == |p.lens| == |s.landed|
    && forall k :: 0 <= k < |p.lens| ==>
         && s.landed[k] <= p.lens[k]
         && var c := s.pipe.cells[k];
            c.Answered? || c.Taken? ==> c.out.data == [] && (c.out.err.None? ==> s.landed[k] == p.lens[k])
  }

  ghost predicate WriteInv(p: Plan, b: seq<byte>, file0: seq<byte>, s: WriteState) {
    && LandedOk(p, s)
    && OutsideKept(p, b, file0, s.file)
    && (s.file == file0 || exists k :: 0 <= k < |s.landed| && s.landed[k] > 0)
    && forall k :: 0 <= k < |p.lens| ==> ChunkLanded(p, b, file0, s, k)
  }

  /** `file` after the piece of b from position `at` on, `kept` bytes long, was written. */
  ghost predicate PieceWritten(p: Plan, b: seq<byte>, file: seq<byte>, at: nat, kept: nat, after: seq<byte>) {
    && at + kept <= |b|
    && |after| == Max(|file|, p.start + at + kept)
    && forall i :: 0 <= i < |after| ==>
         after[i] == if p.start + at <= i < p.start + at + kept then b[i - p.start] else ByteAt(file, i)
  }

  lemma {:induction false} LandWritesPiece(p: Plan, b: seq<byte>, s: WriteState, k: nat, kept: nat)
    requires |b| == Sum(p.lens, |p.lens|) && WriteEnabled(p, s, Land(k, kept))
    ensures PieceWritten(p, b, s.file, Sum(p.lens, k), kept, WriteStep(p, b, s, Land(k, kept)).file)
  {
    ChunkFits(p.lens, k);
    PieceBytes(p, b, s.file, Sum(p.lens, k), kept);
  }

  lemma {:induction false} PieceBytes(p: Plan, b: seq<byte>, file: seq<byte>, at: nat, kept: nat)
    requires at + kept <= |b|
    ensures PieceWritten(p, b, file, at, kept, WriteBytes(file, p.start + at, b[at..at + kept]))
  {
    var piece := b[at..at + kept];
    var after := WriteBytes(file, p.start + at, piece);
    WriteBytesAt(file, p.start + at, piece);
    forall i | p.start + at <= i < p.start + at + kept ensures after[i] == b[i - p.start] {
      assert after[i] == piece[i - (p.start + at)];
    }
  }

  /** What landing a piece of chunk k does to chunk m's part of the file. */
  lemma PieceKeepsChunk(p: Plan, b: seq<byte>, file0: seq<byte>, s: WriteState,
                        k: nat, kept: nat, m: nat, t: WriteState)
    requires k < |p.lens| == |s.landed| && m < |p.lens| && kept <= p.lens[k] && t.landed == s.landed[k := kept]
    requires s.landed[k] == 0 && PieceWritten(p, b, s.file, Sum(p.lens, k), kept, t.file)
    requires ChunkLanded(p, b, file0, s, m) && OutsideKept(p, b, file0, s.file) && s.landed[m] <= p.lens[m]
    ensures ChunkLanded(p, b, file0, t, m)
  {
    if m != k { ChunksDisjoint(p.lens, m, k); }
  }

  lemma LandKeepsInv(p: Plan, b: seq<byte>, file0: seq<byte>, s: WriteState, k: nat, kept: nat)
    requires |b| == Sum(p.lens, |p.lens|) && WriteInv(p, b, file0, s) && WriteEnabled(p, s, Land(k, kept))
    ensures WriteInv(p, b, file0, WriteStep(p, b, s, Land(k, kept)))
  {
    var t := WriteStep(p, b, s, Land(k, kept));
    LandWritesPiece(p, b, s, k, kept);
    assert t.landed[k] > 0;
    forall m | 0 <= m < |p.lens| ensures ChunkLanded(p, b, file0, t, m) {
      PieceKeepsChunk(p, b, file0, s, k, kept, m, t);
    }
  }

  lemma ClientKeepsInv(p: Plan, b: seq<byte>, file0: seq<byte>, s: WriteState, e: Event)
    requires |b| == Sum(p.lens, |p.lens|) && WriteInv(p, b, file0, s) && WriteEnabled(p, s, Client(e))
    ensures WriteInv(p, b, file0, WriteStep(p, b, s, Client(e)))
  {
    var t := WriteStep(p, b, s, Client(e));
    forall k | 0 <= k < |p.lens| ensures ChunkLanded(p, b, file0, t, k) {
      assert ChunkLanded(p, b, file0, s, k);
    }
  }

  lemma {:induction false} WriteRunKeepsInv(p: Plan, b: seq<byte>, file0: seq<byte>, s: WriteState,
                                            ws: seq<WriteEvent>, t: WriteState)
    requires ValidPlan(p) && |b| == Sum(p.lens, |p.lens|) && WriteRun(p, b, s, ws, t)
    requires Inv(p, s.pipe) && WriteInv(p, b, file0, s)
    ensures Inv(p, t.pipe) && WriteInv(p, b, file0, t)
    decreases |ws|
  {
    if ws != [] {
      match ws[0] {
        case Client(e) =>
          StepKeepsInv(p, s.pipe, e);
          ClientKeepsInv(p, b, file0, s, e);
        case Land(k, kept) => LandKeepsInv(p, b, file0, s, k, kept);
      }
      WriteRunKeepsInv(p, b, file0, WriteStep(p, b, s, ws[0]), ws[1..], t);
    }
  }

  lemma InitWriteInv(p: Plan, b: seq<byte>, file0: seq<byte>)
    requires |b| == Sum(p.lens, |p.lens|)
    ensures WriteInv(p, b, file0, InitWrite(p, file0))
  {}

  // ---------------------------------------------------------------- the result

  ghost predicate ByteWritten(p: Plan, b: seq<byte>, file: seq<byte>, i: nat) {
    i < |b| && p.start + i < |file| && file[p.start + i] == b[i]
  }

  /** The bytes of b below position n are in the file at their place. */
  ghost predicate WrittenBelow(p: Plan, b: seq<byte>, file: seq<byte>, n: int) {
    forall i :: 0 <= i < n ==> ByteWritten(p, b, file, i)
  }

  /** How many bytes of the transfer the verdict vouches for. */
  function Vouched(p: Plan, s: State): int
    requires |s.cells| == |p.lens|
  {
    if s.first.err.None? then Sum(p.lens, |p.lens|) else s.first.off - p.start
  }

  lemma CompletedLanded(p: Plan, b: seq<byte>, file0: seq<byte>, s: WriteState, k: nat, i: nat)
    requires |b| == Sum(p.lens, |p.lens|) && k < |p.lens| && LandedOk(p, s) && ChunkLanded(p, b, file0, s, k)
    requires Completed(s.pipe, k) && Sum(p.lens, k) <= i < Sum(p.lens, k) + p.lens[k] && i < |b|
    ensures ByteWritten(p, b, s.file, i)
  {
    assert p.start + i < Begin(p, k) + s.landed[k];
  }

  /** The chunk that holds a byte below the vouched count is complete: a write that fails
      keeps nothing, so the count is always the start of a chunk. */
  lemma BelowVouched(p: Plan, s: WriteState, k: nat, i: nat)
    requires ValidPlan(p) && LandedOk(p, s) && Settled(p, s.pipe) && k < |p.lens|
    requires Sum(p.lens, k) <= i < Sum(p.lens, k) + p.lens[k] && i < Vouched(p, s.pipe)
    ensures Completed(s.pipe, k)
  {
    if s.pipe.first.err.Some? {
      var m := s.pipe.first.chunk;
      assert s.pipe.first.off == Begin(p, m);
      if k >= m { SumMonotone(p.lens, m, k); }
    }
  }

  /** Whatever the server did with the failing writes: every byte below the reported offset
      has been written, and nothing outside the buffer's range has changed. */
  lemma ConcurrentWriteSettles(p: Plan, b: seq<byte>, file0: seq<byte>, ws: seq<WriteEvent>, t: WriteState)
    requires ValidPlan(p) && |b| == Sum(p.lens, |p.lens|)
    requires WriteRun(p, b, InitWrite(p, file0), ws, t) && t.pipe.reducer.Returned?
    ensures Inv(p, t.pipe) && Settled(p, t.pipe)
    ensures WrittenBelow(p, b, t.file, Vouched(p, t.pipe)) && WriteInv(p, b, file0, t)
  {
    InitInv(p);
    InitWriteInv(p, b, file0);
    WriteRunKeepsInv(p, b, file0, InitWrite(p, file0), ws, t);
    ReturnedSettles(p, t.pipe);
    forall i | 0 <= i < Vouched(p, t.pipe) ensures ByteWritten(p, b, t.file, i) {
      var k := Locate(p.lens, |p.lens|, i);
      BelowVouched(p, t, k, i);
      CompletedLanded(p, b, file0, t, k, i);
    }
  }

  lemma AllWritten(p: Plan, b: seq<byte>, file0: seq<byte>, file: seq<byte>)
    requires |b| > 0 && WrittenBelow(p, b, file, |b|) && OutsideKept(p, b, file0, file)
    ensures file == WriteBytes(file0, p.start, b)
  {
    WriteBytesAt(file0, p.start, b);
    assert ByteWritten(p, b, file, |b| - 1);
    forall i | 0 <= i < |file| ensures file[i] == WriteBytes(file0, p.start, b)[i] {
      if p.start <= i < p.start + |b| { assert ByteWritten(p, b, file, i - p.start); }
    }
  }

  /** What writeAtConcurrent returns. */
  function ReturnedCount(p: Plan, s: State, len: nat): int {
    if s.first.err.None? then len else s.first.off - p.start
  }

  /** When no write fails, every order in which the server applies the chunks leaves the file
      the sequential writer leaves, and the whole length is returned. When one fails, the count
      is that of the m chunks before the first failing one, which is the source of the error, and
      every byte before it has been written. */
  lemma ConcurrentWriteRefinesSequential(b: seq<byte>, off: nat, file0: seq<byte>, maxPacket: nat, workers: nat,
                                         ws: seq<WriteEvent>, t: WriteState)
    returns (m: nat)
    requires maxPacket >= 1 && workers >= 1 && |b| > maxPacket && off + |b| <= MAX_INT64
    requires var p := BufferPlan(off, |b|, maxPacket, workers);
             WriteRun(p, b, InitWrite(p, file0), ws, t) && t.pipe.reducer.Returned?
    ensures var p := BufferPlan(off, |b|, maxPacket, workers);
            var n := ReturnedCount(p, t.pipe, |b|);
            && m <= |p.lens| == |t.pipe.cells| && n == Sum(p.lens, m)
            && (forall k :: 0 <= k < m ==> Completed(t.pipe, k))
            && (t.pipe.first.err.None? ==> m == |p.lens| && n == |b| && t.file == WriteBytes(file0, off, b))
            && (t.pipe.first.err.Some? ==>
                  && m < |p.lens| && Failed(t.pipe, m) && t.pipe.first.err == t.pipe.cells[m].out.err
                  && (forall k :: Failed(t.pipe, k) ==> m <= k)
                  && 0 <= n < |b| && WrittenBelow(p, b, t.file, n))
            && OutsideKept(p, b, file0, t.file)
  {
    var p := BufferPlan(off, |b|, maxPacket, workers);
    ConcurrentWriteSettles(p, b, file0, ws, t);
    m := SettledStops(p, t.pipe);
    if t.pipe.first.err.None? {
      AllWritten(p, b, file0, t.file);
    } else {
      FaultBelowEnd(p, t.pipe);
      forall k: nat | Failed(t.pipe, k) ensures m <= k { StopIsUnique(p, t.pipe, m, k); }
    }
  }

  /** A chunk's own fault lies before the end of the transfer. */
  lemma FaultBelowEnd(p: Plan, s: State)
    requires ValidPlan(p) && CellsOk(p, s) && Settled(p, s) && s.first.err.Some? && p.tail.None?
    ensures p.start <= s.first.off < Begin(p, |p.lens|)
  {
    FaultInside(p, s, s.first.chunk);
    SumMonotone(p.lens, s.first.chunk + 1, |p.lens|);
  }

  // ---------------------------------------------------------------- runs without a failure exist

  /** No failure so far: every write has landed whole or not yet, and no error has been seen. */
  ghost predicate Unfailed(p: Plan, s: WriteState) {
    && LandedOk(p, s) && p.tail.None?
    && (forall k :: 0 <= k < |p.lens| ==> s.landed[k] == 0 || s.landed[k] == p.lens[k])
    && (forall k :: 0 <= k < |p.lens| ==> !HasError(s.pipe.cells[k]))
    && s.pipe.reported == {} && s.pipe.first.err.None? && s.pipe.reducer != Cancelling
  }

  predicate HasError(c: Cell) {
    (c.Answered? || c.Taken?) && c.out.err.Some?
  }

  /** An event of the client that is no error reply keeps it so. */
  lemma ClientKeepsUnfailed(p: Plan, b: seq<byte>, s: WriteState, e: Event)
    requires |b| == Sum(p.lens, |p.lens|) && Unfailed(p, s) && Inv(p, s.pipe) && WriteEnabled(p, s, Client(e))
    requires e.Answer? ==> e.out.err.None?
    ensures Unfailed(p, WriteStep(p, b, s, Client(e)))
  {}

  /** Landing a whole chunk does, too. */
  lemma LandKeepsUnfailed(p: Plan, b: seq<byte>, s: WriteState, k: nat)
    requires |b| == Sum(p.lens, |p.lens|) && Unfailed(p, s) && k < |p.lens| && WriteEnabled(p, s, Land(k, p.lens[k]))
    ensures Unfailed(p, WriteStep(p, b, s, Land(k, p.lens[k])))
  {}

  lemma {:induction false} WriteRunFirst(p: Plan, b: seq<byte>, s: WriteState, w: WriteEvent,
                                         ws: seq<WriteEvent>, t: WriteState)
    requires |b| == Sum(p.lens, |p.lens|) && WriteEnabled(p, s, w) && WriteRun(p, b, WriteStep(p, b, s, w), ws, t)
    ensures WriteRun(p, b, s, [w] + ws, t)
  {
    assert ([w] + ws)[1..] == ws;
  }

  /** What the client or the server does next: a chunk lands whole before its success is told. */
  lemma NextWrite(p: Plan, s: WriteState) returns (w: WriteEvent)
    requires ValidPlan(p) && Inv(p, s.pipe) && Unfailed(p, s) && !s.pipe.reducer.Returned?
    ensures WriteEnabled(p, s, w)
    ensures w.Land? ==> w.k < |p.lens| && w.kept == p.lens[w.k]
    ensures w.Client? && w.e.Answer? ==> w.e.out.err.None?
  {
    var e := NeverStuck(p, s.pipe);
    if !e.Answer? { return Client(e); }
    return if s.landed[e.k] == 0 then Land(e.k, p.lens[e.k]) else Client(Answer(e.k, Outcome([], None)));
  }

  /** How many chunks have not landed. */
  function ToLand(s: WriteState): nat {
    SumBy((n: nat) => if n == 0 then 1 else 0, s.landed)
  }

  lemma LandLowers(p: Plan, b: seq<byte>, s: WriteState, k: nat)
    requires |b| == Sum(p.lens, |p.lens|) && k < |p.lens| && WriteEnabled(p, s, Land(k, p.lens[k]))
    ensures ToLand(WriteStep(p, b, s, Land(k, p.lens[k]))) < ToLand(s)
  {
    SumByUpdate((n: nat) => if n == 0 then 1 else 0, s.landed, k, p.lens[k]);
  }

  /** From every state without a failure so far the transfer can go on to a return without one. */
  lemma {:induction false} WriteGoesOn(p: Plan, b: seq<byte>, s: WriteState)
    returns (ws: seq<WriteEvent>, t: WriteState)
    requires ValidPlan(p) && |b| == Sum(p.lens, |p.lens|) && |s.pipe.takers| <= |p.lens| == |s.pipe.cells|
    requires Inv(p, s.pipe) && Unfailed(p, s)
    ensures WriteRun(p, b, s, ws, t) && t.pipe.reducer.Returned? && t.pipe.first.err.None?
    decreases Remaining(p, s.pipe), ToLand(s)
  {
    if s.pipe.reducer.Returned? { return [], s; }
    var w := NextWrite(p, s);
    if w.Land? {
      LandKeepsUnfailed(p, b, s, w.k);
      LandLowers(p, b, s, w.k);
    } else {
      StepKeepsInv(p, s.pipe, w.e);
      StepDecreases(p, s.pipe, w.e);
      ClientKeepsUnfailed(p, b, s, w.e);
    }
    ws, t := WriteGoesOn(p, b, WriteStep(p, b, s, w));
    WriteRunFirst(p, b, s, w, ws, t);
    ws := [w] + ws;
  }

  lemma InitUnfailed(p: Plan, file0: seq<byte>)
    requires p.tail.None?
    ensures Unfailed(p, InitWrite(p, file0))
  {}

  /** So every concurrent write can succeed, and then leaves the file one write of the buffer leaves. */
  lemma ConcurrentWriteCompletes(b: seq<byte>, off: nat, file0: seq<byte>, maxPacket: nat, workers: nat)
    returns (ws: seq<WriteEvent>, t: WriteState)
    requires maxPacket >= 1 && workers >= 1 && |b| > maxPacket && off + |b| <= MAX_INT64
    ensures var p := BufferPlan(off, |b|, maxPacket, workers);
            WriteRun(p, b, InitWrite(p, file0), ws, t) && t.pipe.reducer.Returned? && t.pipe.first.err.None?
    ensures t.file == WriteBytes(file0, off, b)
  {
    var p := BufferPlan(off, |b|, maxPacket, workers);
    InitInv(p);
    InitUnfailed(p, file0);
    ws, t := WriteGoesOn(p, b, InitWrite(p, file0));
    var m := ConcurrentWriteRefinesSequential(b, off, file0, maxPacket, workers, ws, t);
  }

  // ---------------------------------------------------------------- and runs with one

  /** From every state the transfer can go on to its return, every chunk not answered yet failing. */
  lemma {:induction false} WriteReturns(p: Plan, b: seq<byte>, s: WriteState)
    returns (ws: seq<WriteEvent>, t: WriteState)
    requires ValidPlan(p) && |b| == Sum(p.lens, |p.lens|) && Inv(p, s.pipe) && |s.landed| == |p.lens|
    ensures WriteRun(p, b, s, ws, t) && t.pipe.reducer.Returned?
    ensures forall k: nat :: Failed(s.pipe, k) ==> k < |t.pipe.cells| && t.pipe.cells[k] == s.pipe.cells[k]
    decreases Remaining(p, s.pipe)
  {
    if s.pipe.reducer.Returned? { return [], s; }
    var e := NextClient(p, s);
    StepKeepsInv(p, s.pipe, e);
    StepDecreases(p, s.pipe, e);
    FailedStays(p, s.pipe, e);
    ws, t := WriteReturns(p, b, WriteStep(p, b, s, Client(e)));
    WriteRunFirst(p, b, s, Client(e), ws, t);
    ws := [Client(e)] + ws;
  }

  lemma NextClient(p: Plan, s: WriteState) returns (e: Event)
    requires ValidPlan(p) && Inv(p, s.pipe) && |s.landed| == |p.lens| && !s.pipe.reducer.Returned?
    ensures WriteEnabled(p, s, Client(e)) && Enabled(p, s.pipe, e)
  {
    e := NeverStuck(p, s.pipe);
    if e.Answer? { e := Answer(e.k, Outcome([], Some(ConnectionLost))); }
  }

  lemma FailedStays(p: Plan, s: State, e: Event)
    requires Inv(p, s) && Enabled(p, s, e)
    ensures forall k: nat :: Failed(s, k) ==> Failed(Apply(p, s, e), k) && Apply(p, s, e).cells[k] == s.cells[k]
  {}

  /** The first chunk has been dispatched and is with a worker, part of it in the file. */
  lemma FirstLanded(p: Plan, b: seq<byte>, file0: seq<byte>, kept: nat) returns (ws: seq<WriteEvent>, s: WriteState)
    requires ValidPlan(p) && |b| == Sum(p.lens, |p.lens|) && p.lens != [] && 0 < kept <= p.lens[0]
    ensures WriteRun(p, b, InitWrite(p, file0), ws, s) && Inv(p, s.pipe) && |s.landed| == |p.lens| == |s.pipe.cells|
    ensures s.pipe.cells[0] == Pending && |s.pipe.workers| > 0 && s.pipe.workers[0] == Waiting(0)
  {
    var s0 := InitWrite(p, file0);
    InitInv(p);
    var s1 := WriteStep(p, b, s0, Client(Cut));
    StepKeepsInv(p, s0.pipe, Cut);
    var s2 := WriteStep(p, b, s1, Land(0, kept));
    s := WriteStep(p, b, s2, Client(Hand(0)));
    StepKeepsInv(p, s2.pipe, Hand(0));
    WriteRunFirst(p, b, s2, Client(Hand(0)), [], s);
    WriteRunFirst(p, b, s1, Land(0, kept), [Client(Hand(0))] + [], s);
    WriteRunFirst(p, b, s0, Client(Cut), [Land(0, kept)] + ([Client(Hand(0))] + []), s);
    ws := [Client(Cut)] + ([Land(0, kept)] + ([Client(Hand(0))] + []));
  }

  /** It is answered with an error, and the worker receives that. */
  lemma FirstRefused(p: Plan, b: seq<byte>, s: WriteState, x: Error) returns (ws: seq<WriteEvent>, t: WriteState)
    requires ValidPlan(p) && |b| == Sum(p.lens, |p.lens|) && p.lens != [] && Inv(p, s.pipe)
    requires |s.landed| == |p.lens| == |s.pipe.cells|
    requires s.pipe.cells[0] == Pending && |s.pipe.workers| > 0 && s.pipe.workers[0] == Waiting(0)
    ensures WriteRun(p, b, s, ws, t) && Inv(p, t.pipe) && |t.landed| == |p.lens|
    ensures Failed(t.pipe, 0) && t.pipe.cells[0].out.err == Some(x)
  {
    var a := Answer(0, Outcome([], Some(x)));
    var s1 := WriteStep(p, b, s, Client(a));
    StepKeepsInv(p, s.pipe, a);
    t := WriteStep(p, b, s1, Client(Take(0)));
    StepKeepsInv(p, s1.pipe, Take(0));
    WriteRunFirst(p, b, s1, Client(Take(0)), [], t);
    WriteRunFirst(p, b, s, Client(a), [Client(Take(0))] + [], t);
    ws := [Client(a)] + ([Client(Take(0))] + []);
  }

  lemma {:induction false} WriteRunConcat(p: Plan, b: seq<byte>, s: WriteState, ws: seq<WriteEvent>, m: WriteState,
                                          vs: seq<WriteEvent>, t: WriteState)
    requires |b| == Sum(p.lens, |p.lens|) && WriteRun(p, b, s, ws, m) && WriteRun(p, b, m, vs, t)
    ensures WriteRun(p, b, s, ws + vs, t)
    decreases |ws|
  {
    if ws == [] {
      assert ws + vs == vs;
    } else {
      WriteRunConcat(p, b, WriteStep(p, b, s, ws[0]), ws[1..], m, vs, t);
      assert (ws + vs)[1..] == ws[1..] + vs;
    }
  }

  /** A server can refuse the first chunk with any error after any part of it has landed: nothing
      is then counted, and that error is returned. */
  lemma RefusedAtOnce(b: seq<byte>, off: nat, file0: seq<byte>, maxPacket: nat, workers: nat, kept: nat, x: Error)
    returns (ws: seq<WriteEvent>, t: WriteState)
    requires maxPacket >= 1 && workers >= 1 && |b| > maxPacket && off + |b| <= MAX_INT64 && 0 < kept <= maxPacket
    ensures var p := BufferPlan(off, |b|, maxPacket, workers);
            && WriteRun(p, b, InitWrite(p, file0), ws, t) && t.pipe.reducer.Returned?
            && ReturnedCount(p, t.pipe, |b|) == 0 && t.pipe.first.err == Some(x)
  {
    var p := BufferPlan(off, |b|, maxPacket, workers);
    var init := InitWrite(p, file0);
    var us, s := FirstLanded(p, b, file0, kept);
    var vs, r := FirstRefused(p, b, s, x);
    WriteRunConcat(p, b, init, us, s, vs, r);
    ws, t := WriteReturns(p, b, r);
    WriteRunConcat(p, b, init, us + vs, r, ws, t);
    ws := us + vs + ws;
    var m := ConcurrentWriteRefinesSequential(b, off, file0, maxPacket, workers, ws, t);
    assert Failed(t.pipe, 0);
    assert t.pipe.first.err.None? ==> Completed(t.pipe, 0);
  }
}
