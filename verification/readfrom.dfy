/**
File.ReadFrom of the client: copies a reader's stream into the file at the client's offset,
one write at a time or, concurrently, as a run of the transfer pipeline whose chunks are
whatever the reader returns.
*/
module ReadFrom {
  import opened Basics
  import opened TransferPipeline
  import opened WriteAt

  /** One call of the reader: how many bytes it gave and the error beside them. */
  datatype ReadCall = ReadCall(data: seq<byte>, err: Option<Error>)

  /** Everything the reader gives before its first error; a script that runs out ends in EOF. */
  function Stream(calls: seq<ReadCall>): seq<byte> {
    if calls == [] then [] else calls[0].data + if calls[0].err.Some? then [] else Stream(calls[1..])
  }

  /** Only calls that gave something are sent. */
  function Lens(calls: seq<ReadCall>): (lens: seq<nat>)
    ensures forall k :: 0 <= k < |lens| ==> lens[k] > 0
  {
    if calls == [] then []
    else
      (if calls[0].data == [] then [] else [|calls[0].data|])
      + (if calls[0].err.Some? then [] else Lens(calls[1..]))
  }

  /** The first error of the reader, EOF included. */
  function FirstError(calls: seq<ReadCall>): Option<Error> {
    if calls == [] then None else if calls[0].err.Some? then calls[0].err else FirstError(calls[1..])
  }

  lemma {:induction false} TailIsFirstError(calls: seq<ReadCall>)
    ensures Tail(calls) == if FirstError(calls) == Some(Eof) then None else FirstError(calls)
    ensures LastGift(calls) > 0 ==> FirstError(calls).Some?
  {
    if calls != [] && calls[0].err.None? { TailIsFirstError(calls[1..]); }
  }

  /** The reader's error, EOF not being one. */
  function Tail(calls: seq<ReadCall>): Option<Error> {
    if calls == [] then None
    else if calls[0].err.Some? then NilForEof(calls[0].err)
    else Tail(calls[1..])
  }

  lemma {:induction false} LensSum(calls: seq<ReadCall>)
    ensures Sum(Lens(calls), |Lens(calls)|) == |Stream(calls)|
  {
    if calls != [] {
      var rest := if calls[0].err.Some? then [] else Lens(calls[1..]);
      if calls[0].err.None? { LensSum(calls[1..]); }
      if calls[0].data == [] {
        assert Lens(calls) == rest;
      } else {
        SumCons(|calls[0].data|, rest, |rest|);
      }
    }
  }

  /** How much came with the error that ended the stream: the reader may give both at once. */
  function LastGift(calls: seq<ReadCall>): nat {
    if calls == [] then 0 else if calls[0].err.Some? then |calls[0].data| else LastGift(calls[1..])
  }

  /** io.EOF becomes nil. */
  function NilForEof(err: Option<Error>): Option<Error> {
    if err == Some(Eof) then None else err
  }

  // ---------------------------------------------------------------- the outcome by the inputs

  /** How many bytes were read, how many of them the offset passed, and the error returned. */
  datatype Copy = Copy(read: nat, moved: nat, err: Option<Error>)

  /** What comes of the calls when so many writes are accepted and the next is refused. */
  function CopyOf(calls: seq<ReadCall>, accepts: nat, refusal: Error): Copy {
    if calls == [] then Copy(0, 0, None)
    else
      var n, e := |calls[0].data|, calls[0].err;
      if n > 0 && accepts == 0 then Copy(n, 0, NilForEof(if e.None? then Some(refusal) else e))
      else if e.Some? then Copy(n, n, NilForEof(e))
      else Ahead(n, CopyOf(calls[1..], if n > 0 then accepts - 1 else accepts, refusal))
  }

  function Ahead(n: nat, c: Copy): Copy {
    Copy(n + c.read, n + c.moved, c.err)
  }

  lemma AheadTwice(read: nat, n: nat, left: Copy, later: Copy)
    ensures left == Ahead(n, later) ==> Ahead(read, left) == Ahead(read + n, later)
  {}

  /** The error returned. The last write's refusal gives way to the reader's error beside its data. */
  function FinalError(calls: seq<ReadCall>, accepts: nat, refusal: Error): Option<Error> {
    var e := if |Lens(calls)| <= accepts || (|Lens(calls)| == accepts + 1 && LastGift(calls) > 0)
             then FirstError(calls) else Some(refusal);
    if e == Some(Eof) then None else e
  }

  /** A write is refused and nobody is told: it was the last one and its data came with EOF, or
      the refusal is an EOF and the reader gave no error beside that data. */
  predicate LostInSilence(calls: seq<ReadCall>, accepts: nat, refusal: Error) {
    && |Lens(calls)| > accepts
    && if |Lens(calls)| == accepts + 1 && LastGift(calls) > 0 then FirstError(calls) == Some(Eof) else refusal == Eof
  }

  lemma {:induction false} NothingSentNoGift(calls: seq<ReadCall>)
    ensures Lens(calls) == [] ==> LastGift(calls) == 0
  {
    if calls != [] && calls[0].err.None? { NothingSentNoGift(calls[1..]); }
  }

  /** The bytes in the first k pieces, or in all if there are fewer. */
  function SumFirst(lens: seq<nat>, k: nat): nat {
    Sum(lens, Min(k, |lens|))
  }

  lemma {:induction false} SumFirstCons(n: nat, lens: seq<nat>, k: nat)
    ensures SumFirst([n] + lens, k + 1) == n + SumFirst(lens, k) && SumFirst(lens, 0) == 0
  {
    SumCons(n, lens, Min(k, |lens|));
  }

  /** As many pieces go through as are accepted, and one more is read. */
  lemma {:induction false} CopyLengths(calls: seq<ReadCall>, accepts: nat, refusal: Error)
    ensures CopyOf(calls, accepts, refusal).moved == SumFirst(Lens(calls), accepts)
    ensures CopyOf(calls, accepts, refusal).read == SumFirst(Lens(calls), accepts + 1)
  {
    if calls != [] {
      var n := |calls[0].data|;
      var rest := if calls[0].err.Some? then [] else Lens(calls[1..]);
      if n == 0 {
        assert Lens(calls) == rest;
        if calls[0].err.None? { CopyLengths(calls[1..], accepts, refusal); }
      } else {
        assert Lens(calls) == [n] + rest;
        SumFirstCons(n, rest, accepts);
        if accepts > 0 {
          SumFirstCons(n, rest, accepts - 1);
          if calls[0].err.None? { CopyLengths(calls[1..], accepts - 1, refusal); }
        }
      }
    }
  }

  lemma {:induction false} CopyError(calls: seq<ReadCall>, accepts: nat, refusal: Error)
    ensures CopyOf(calls, accepts, refusal).err == FinalError(calls, accepts, refusal)
  {
    if calls != [] {
      var n, e := |calls[0].data|, calls[0].err;
      assert |Lens(calls)| == (if n == 0 then 0 else 1) + if e.Some? then 0 else |Lens(calls[1..])|;
      if e.None? {
        NothingSentNoGift(calls[1..]);
        if n == 0 || accepts > 0 { CopyError(calls[1..], if n > 0 then accepts - 1 else accepts, refusal); }
      }
    }
  }

  /** The offset falls short of what was read if and only if a write was refused, and nil is then
      returned if and only if that is lost in silence. */
  lemma {:induction false} LossReported(calls: seq<ReadCall>, accepts: nat, refusal: Error)
    ensures var c := CopyOf(calls, accepts, refusal);
            && (if |Lens(calls)| <= accepts then c.moved == c.read == |Stream(calls)|
                else c.moved < c.read <= |Stream(calls)|)
            && (c.moved < c.read && c.err == None <==> LostInSilence(calls, accepts, refusal))
  {
    var lens := Lens(calls);
    CopyLengths(calls, accepts, refusal);
    CopyError(calls, accepts, refusal);
    TailIsFirstError(calls);
    LensSum(calls);
    if |lens| > accepts { FirstGrows(lens, accepts); }
  }

  lemma {:induction false} FirstGrows(lens: seq<nat>, k: nat)
    requires k < |lens| && lens[k] > 0
    ensures SumFirst(lens, k) < SumFirst(lens, k + 1) <= Sum(lens, |lens|)
  {
    SumMonotone(lens, k + 1, |lens|);
  }

  /** The client's open file. */
  class File {
    const target: Target
    var offset: nat

    constructor (target: Target, offset: nat)
      ensures this.target == target && this.offset == offset
    {
      this.target, this.offset := target, offset;
    }

    /** The offset has passed `moved` bytes of the stream, and `landed` of them are in the file. */
    ghost predicate Sent(c0: seq<byte>, f0: nat, stream: seq<byte>, moved: nat, landed: nat)
      reads this, target
    {
      moved <= landed <= |stream| && offset == f0 + moved && target.content == Uploaded(c0, f0, stream[..landed])
    }

    /** One writeChunkAt of what a call gave, if anything; the offset follows what was written. */
    method WriteGift(data: seq<byte>, ghost c0: seq<byte>, ghost f0: nat, ghost stream: seq<byte>, ghost done: nat)
      returns (e: Option<Error>, ghost landed: nat)
      requires Sent(c0, f0, stream, done, done) && done + |data| <= |stream| && data == stream[done..done + |data|]
      modifies this`offset, target
      ensures Sent(c0, f0, stream, if e.None? then done + |data| else done, landed) && landed <= done + |data|
      ensures e.None? ==> landed == done + |data|
      ensures e.None? <==> data == [] || old(target.accepts) > 0
      ensures target.accepts == if data != [] && e.None? then old(target.accepts) - 1 else old(target.accepts)
      ensures e.Some? ==> e == Some(target.refusal)
    {
      if |data| == 0 { return None, done; }
      var m;
      m, e, landed := WritePiece(target, data, offset, c0, f0, stream, done);
      offset := offset + m;
    }

    /** ReadFrom without concurrency. What is in the file is a piece of the stream from its
        front, and the offset has passed no byte that is not. A refused write ends the loop: its
        error is returned, but if the data came with an error of the reader that one is, and an
        end of file from either counts as none. */
    method ReadFromSequential(calls: seq<ReadCall>)
      returns (read: nat, err: Option<Error>, ghost moved: nat, ghost landed: nat)
      modifies this`offset, target
      ensures moved <= landed <= read <= |Stream(calls)|
      ensures Sent(old(target.content), old(offset), Stream(calls), moved, landed)
      ensures moved == SumFirst(Lens(calls), old(target.accepts))
      ensures read == SumFirst(Lens(calls), old(target.accepts) + 1)
      ensures |Lens(calls)| <= old(target.accepts) <==> moved == |Stream(calls)|
      ensures err == FinalError(calls, old(target.accepts), target.refusal)
      ensures moved < read && err == None <==> LostInSilence(calls, old(target.accepts), target.refusal)
    {
      CopyLengths(calls, target.accepts, target.refusal);
      CopyError(calls, target.accepts, target.refusal);
      LossReported(calls, target.accepts, target.refusal);
      read, err, moved, landed := CopyCalls(calls);
    }

    /** The loop of ReadFrom. */
    method CopyCalls(calls: seq<ReadCall>)
      returns (read: nat, err: Option<Error>, ghost moved: nat, ghost landed: nat)
      modifies this`offset, target
      ensures moved <= landed <= read <= |Stream(calls)|
      ensures Sent(old(target.content), old(offset), Stream(calls), moved, landed)
      ensures Copy(read, moved, err) == CopyOf(calls, old(target.accepts), target.refusal)
    {
      read, landed := 0, 0;
      ghost var c0, f0, stream := target.content, offset, Stream(calls);
      ghost var all := CopyOf(calls, target.accepts, target.refusal);
      var rest := calls;
      while rest != []
        invariant Consumed(stream, rest, read) && landed == read
        invariant Sent(c0, f0, stream, read, read)
        invariant all == Ahead(read, CopyOf(rest, target.accepts, target.refusal))
        decreases |rest|
      {
        var e;
        ghost var left := CopyOf(rest, target.accepts, target.refusal);
        e, moved, landed := CopyCall(rest[0], read, c0, f0, stream, rest);
        ghost var n := |rest[0].data|;
        AheadTwice(read, n, left, CopyOf(rest[1..], target.accepts, target.refusal));
        read := read + |rest[0].data|;
        if e.Some? {
          assert left == Copy(n, moved - (read - n), NilForEof(e));
          return read, NilForEof(e), moved, landed;
        }
        rest := rest[1..];
      }
      return read, None, read, landed;
    }

    /** One turn of it: what a call gave is written, and its error or the write's is kept. */
    method CopyCall(call: ReadCall, read: nat, ghost c0: seq<byte>, ghost f0: nat, ghost stream: seq<byte>,
                    ghost rest: seq<ReadCall>)
      returns (e: Option<Error>, ghost moved: nat, ghost landed: nat)
      requires rest != [] && call == rest[0] && Consumed(stream, rest, read) && Sent(c0, f0, stream, read, read)
      modifies this`offset, target
      ensures read <= moved <= landed <= read + |call.data| <= |stream| && Sent(c0, f0, stream, moved, landed)
      ensures e.Some? ==>
                CopyOf(rest, old(target.accepts), target.refusal) == Copy(|call.data|, moved - read, NilForEof(e))
      ensures e.None? ==>
                && moved == landed == read + |call.data| && Consumed(stream, rest[1..], moved)
                && CopyOf(rest, old(target.accepts), target.refusal) ==
                   Ahead(|call.data|, CopyOf(rest[1..], target.accepts, target.refusal))
    {
      ConsumeOne(stream, rest, read);
      var e2;
      e2, landed := WriteGift(call.data, c0, f0, stream, read);
      moved := if e2.None? then read + |call.data| else read;
      e := if call.err.None? then e2 else call.err;
    }
  }

  /** A loss that goes unreported: the one byte of the stream comes with EOF, or without an error
      but the server refuses the write with EOF. Nil is returned, and the offset stays. */
  method LostWrite(withEof: bool) returns (file: File, read: nat, err: Option<Error>)
    ensures read == 1 && err == None && file.offset == 0
  {
    var call := ReadCall([7], if withEof then Some(Eof) else None);
    var target := new Target([], 0, if withEof then ConnectionLost else Eof);
    file := new File(target, 0);
    assert Lens([call]) == [1] && LastGift([call]) == if withEof then 1 else 0;
    assert LostInSilence([call], 0, target.refusal) && Sum([1], 0) == 0;
    ghost var moved, landed;
    read, err, moved, landed := file.ReadFromSequential([call]);
  }

  /** The calls in `rest` give what is left of the stream once `done` bytes have been read. */
  ghost predicate Consumed(stream: seq<byte>, rest: seq<ReadCall>, done: nat) {
    done + |Stream(rest)| == |stream| && stream[done..] == Stream(rest)
  }

  lemma ConsumeOne(stream: seq<byte>, rest: seq<ReadCall>, done: nat)
    requires Consumed(stream, rest, done) && rest != []
    ensures var n := |rest[0].data|;
            && done + n <= |stream| && rest[0].data == stream[done..done + n]
            && (rest[0].err.None? ==> Consumed(stream, rest[1..], done + n))
  {
    var n := |rest[0].data|;
    assert Stream(rest)[..n] == rest[0].data;
    assert stream[done..][..n] == stream[done..done + n];
    assert stream[done..][n..] == stream[done + n..];
    if rest[0].err.None? { assert Stream(rest)[n..] == Stream(rest[1..]); }
  }

  // ---------------------------------------------------------------- concurrently

  /** The write pipeline, and the slicer's count of bytes read. */
  datatype UploadState = UploadState(w: WriteState, read: nat)

  function ReaderPlan(off: nat, calls: seq<ReadCall>, workers: nat): (p: Plan)
    ensures Sum(p.lens, |p.lens|) == |Stream(calls)|
  {
    LensSum(calls);
    Plan(off, Lens(calls), Tail(calls), workers)
  }

  /** The count grows when a chunk is cut, before its request is dispatched. */
  function UploadStep(p: Plan, b: seq<byte>, s: UploadState, e: WriteEvent): UploadState
    requires WriteEnabled(p, s.w, e) && |b| == Sum(p.lens, |p.lens|)
  {
    UploadState(WriteStep(p, b, s.w, e),
                s.read + if e == Client(Cut) then p.lens[|s.w.pipe.takers|] else 0)
  }

  ghost predicate UploadRun(p: Plan, b: seq<byte>, s: UploadState, ws: seq<WriteEvent>, t: UploadState)
    requires |b| == Sum(p.lens, |p.lens|)
    decreases |ws|
  {
    if ws == [] then s == t
    else WriteEnabled(p, s.w, ws[0]) && UploadRun(p, b, UploadStep(p, b, s, ws[0]), ws[1..], t)
  }

  /** How many chunks the slicer has cut: those handed out, and one it may still hold. */
  function CutCount(s: State): nat {
    if |s.takers| < |s.cells| && !s.cells[|s.takers|].Uncut? then |s.takers| + 1 else |s.takers|
  }

  ghost predicate ReadOk(p: Plan, s: UploadState) {
    && |s.w.pipe.cells| == |p.lens| && CutCount(s.w.pipe) <= |p.lens|
    && s.read == Sum(p.lens, CutCount(s.w.pipe))
  }

  /** Only a cut adds to the chunks cut. */
  lemma CutCountSteps(p: Plan, s: State, e: Event)
    requires CellsOk(p, s) && WorkersOk(p, s) && Enabled(p, s, e)
    ensures CutCount(Apply(p, s, e)) == if e.Cut? then |s.takers| + 1 else CutCount(s)
    ensures e.Cut? ==> CutCount(s) == |s.takers|
  {}

  lemma StepKeepsReadOk(p: Plan, b: seq<byte>, s: UploadState, e: WriteEvent)
    requires |b| == Sum(p.lens, |p.lens|) && WriteEnabled(p, s.w, e) && Inv(p, s.w.pipe) && ReadOk(p, s)
    ensures ReadOk(p, UploadStep(p, b, s, e))
  {
    if e.Client? { CutCountSteps(p, s.w.pipe, e.e); }
  }

  lemma {:induction false} UploadRunKeeps(p: Plan, b: seq<byte>, s: UploadState, ws: seq<WriteEvent>, t: UploadState)
    requires ValidPlan(p) && |b| == Sum(p.lens, |p.lens|) && UploadRun(p, b, s, ws, t)
    requires Inv(p, s.w.pipe) && ReadOk(p, s)
    ensures WriteRun(p, b, s.w, ws, t.w) && Inv(p, t.w.pipe) && ReadOk(p, t)
    decreases |ws|
  {
    if ws != [] {
      StepKeepsReadOk(p, b, s, ws[0]);
      if ws[0].Client? { StepKeepsInv(p, s.w.pipe, ws[0].e); }
      UploadRunKeeps(p, b, UploadStep(p, b, s, ws[0]), ws[1..], t);
    }
  }

  /** f.offset after readFromWithConcurrency. */
  function FinalOffset(p: Plan, t: UploadState): int {
    if t.w.pipe.first.err.Some? then t.w.pipe.first.off else p.start + t.read
  }

  /** For every reader and every interleaving. The offset has passed exactly the m pieces before
      the first failing one, or all of them, and everything before it has been written. The error
      is that piece's own, or the reader's once every piece has gone through; without one the file
      holds the whole stream at the old offset. */
  lemma ConcurrentUploadSettles(calls: seq<ReadCall>, off: nat, file0: seq<byte>, workers: nat,
                                ws: seq<WriteEvent>, t: UploadState)
    returns (m: nat)
    requires workers >= 1 && off + |Stream(calls)| <= MAX_INT64
    requires var p := ReaderPlan(off, calls, workers);
             UploadRun(p, Stream(calls), UploadState(InitWrite(p, file0), 0), ws, t) && t.w.pipe.reducer.Returned?
    ensures var p := ReaderPlan(off, calls, workers);
            && Inv(p, t.w.pipe) && Settled(p, t.w.pipe)
            && m <= |Lens(calls)| == |t.w.pipe.cells| && (forall k :: 0 <= k < m ==> Completed(t.w.pipe, k))
            && FinalOffset(p, t) == off + Sum(Lens(calls), m) <= off + t.read
            && WrittenBelow(p, Stream(calls), t.w.file, Sum(Lens(calls), m))
            && (t.w.pipe.first.err.None? ==>
                  && m == |Lens(calls)| && (FirstError(calls) == None || FirstError(calls) == Some(Eof))
                  && t.read == |Stream(calls)| && FinalOffset(p, t) == off + |Stream(calls)|
                  && t.w.file == Uploaded(file0, off, Stream(calls)))
            && (t.w.pipe.first.err.Some? ==>
                  && (m < |Lens(calls)| ==> Failed(t.w.pipe, m) && t.w.pipe.first.err == t.w.pipe.cells[m].out.err)
                  && (m == |Lens(calls)| ==> t.w.pipe.first.err == FirstError(calls) != Some(Eof))
                  && (forall k :: Failed(t.w.pipe, k) ==> m <= k))
  {
    var p := ReaderPlan(off, calls, workers);
    var b := Stream(calls);
    InitInv(p);
    UploadRunKeeps(p, b, UploadState(InitWrite(p, file0), 0), ws, t);
    ConcurrentWriteSettles(p, b, file0, ws, t.w);
    m := SettledStops(p, t.w.pipe);
    TailIsFirstError(calls);
    forall k: nat | Failed(t.w.pipe, k) ensures m <= k { StopIsUnique(p, t.w.pipe, m, k); }
    if t.w.pipe.first.err.None? {
      AllCut(p, t);
      if b != [] { AllWritten(p, b, file0, t.w.file); } else { NothingLanded(p, t.w); }
    } else {
      FaultWithinCut(p, t.w.pipe);
    }
  }

  lemma AllCut(p: Plan, t: UploadState)
    requires ValidPlan(p) && Inv(p, t.w.pipe) && Settled(p, t.w.pipe) && t.w.pipe.first.err.None? && ReadOk(p, t)
    ensures t.read == Sum(p.lens, |p.lens|)
  {
    assert !Completed(t.w.pipe, |t.w.pipe.takers|);
  }

  lemma NothingLanded(p: Plan, s: WriteState)
    requires LandedOk(p, s) && (forall k :: 0 <= k < |p.lens| ==> p.lens[k] > 0) && Sum(p.lens, |p.lens|) == 0
    ensures forall k :: 0 <= k < |s.landed| ==> s.landed[k] == 0
  {
    SumMonotone(p.lens, Min(1, |p.lens|), |p.lens|);
  }

  lemma FaultWithinCut(p: Plan, s: State)
    requires ValidPlan(p) && Inv(p, s) && Settled(p, s) && s.first.err.Some? && s.reducer.Returned?
    ensures CutCount(s) <= |p.lens| && s.first.off <= Begin(p, CutCount(s))
  {
    var m := s.first.chunk;
    FaultInside(p, s, m);
    if m < |p.lens| { SumMonotone(p.lens, m + 1, CutCount(s)); }
  }

  /** A run of the writes is one of the upload, with the count of bytes read beside it. */
  lemma {:induction false} UploadAlong(p: Plan, b: seq<byte>, s: UploadState, ws: seq<WriteEvent>, t: WriteState)
    returns (u: UploadState)
    requires |b| == Sum(p.lens, |p.lens|) && WriteRun(p, b, s.w, ws, t)
    ensures UploadRun(p, b, s, ws, u) && u.w == t
    decreases |ws|
  {
    if ws == [] {
      u := s;
    } else {
      u := UploadAlong(p, b, UploadStep(p, b, s, ws[0]), ws[1..], t);
    }
  }

  /** For every reader that ends without an error the concurrent upload can succeed, with the
      whole stream in the file and the offset past it. */
  lemma ConcurrentUploadCompletes(calls: seq<ReadCall>, off: nat, file0: seq<byte>, workers: nat)
    returns (ws: seq<WriteEvent>, t: UploadState)
    requires workers >= 1 && off + |Stream(calls)| <= MAX_INT64
    requires FirstError(calls) == None || FirstError(calls) == Some(Eof)
    ensures var p := ReaderPlan(off, calls, workers);
            && UploadRun(p, Stream(calls), UploadState(InitWrite(p, file0), 0), ws, t) && t.w.pipe.reducer.Returned?
            && t.w.pipe.first.err.None? && t.w.file == Uploaded(file0, off, Stream(calls))
            && FinalOffset(p, t) == off + |Stream(calls)|
  {
    var p := ReaderPlan(off, calls, workers);
    TailIsFirstError(calls);
    InitInv(p);
    InitUnfailed(p, file0);
    var w;
    ws, w := WriteGoesOn(p, Stream(calls), InitWrite(p, file0));
    t := UploadAlong(p, Stream(calls), UploadState(InitWrite(p, file0), 0), ws, w);
    var m := ConcurrentUploadSettles(calls, off, file0, workers, ws, t);
  }
}
