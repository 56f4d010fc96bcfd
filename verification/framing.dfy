/**
Packets on a byte stream: sendPacket writes a 32-bit length and the body, recvPacket reads them
back and refuses lengths of zero and above 256 KiB.
*/
module Framing {
  import opened Basics
  import opened Wire

  const MAX_MSG_LENGTH := 256 * 1024

  /** A body behind its length. */
  ghost function Framed(body: seq<byte>): seq<byte> {
    Str(body)
  }

  /** What recvPacket makes of the bytes before the end of the stream. `CleanEof` is an end between packets. */
  datatype Received =
    | Packet(typ: byte, data: seq<byte>, rest: seq<byte>)
    | CleanEof
    | UnexpectedEof
    | TooLong
    | TooShort

  function Receive(s: seq<byte>): Received {
    if s == [] then CleanEof
    else if |s| < 4 then UnexpectedEof
    else
      var length := Uint32At(s);
      if length > MAX_MSG_LENGTH then TooLong
      else if length == 0 then TooShort
      else if |s| - 4 < length then UnexpectedEof
      else Packet(s[4], s[5..4 + length], s[4 + length..])
  }

  /** An io.Writer, and the bytes it has accepted. It may stop anywhere, and it may report an error
      even when it has taken everything. */
  class Writer {
    var written: seq<byte>

    constructor ()
      ensures written == []
    {
      written := [];
    }

    method Write(b: seq<byte>) returns (ok: bool)
      modifies this
      ensures old(written) <= written <= old(written) + b
      ensures ok ==> written == old(written) + b
    {
      var n :| 0 <= n <= |b|;
      written := written + b[..n];
      ok := *;
      if n < |b| { ok := false; }
      assert n == |b| ==> b[..n] == b;
    }
  }

  /** Puts the length into the header's first four bytes, then writes header and payload: the
      whole frame is written or, on an error, some front of it. */
  method SendPacket(w: Writer, header: array<byte>, payload: seq<byte>) returns (ok: bool)
    requires header.Length >= 4
    modifies w, header
    ensures ok ==> w.written == old(w.written) + Framed(old(header[4..]) + payload)
    ensures old(w.written) <= w.written <= old(w.written) + Framed(old(header[4..]) + payload)
  {
    ghost var frame := Framed(header[4..] + payload);
    var length: uint32 := (header.Length + |payload| - 4) % TWO_32;
    Shifts32(length);
    header[0], header[1], header[2], header[3] :=
      length / 0x100_0000, length / 0x1_0000 % 0x100, length / 0x100 % 0x100, length % 0x100;
    assert header[..] == U32(length) + old(header[4..]);
    assert frame == header[..] + payload;
    ok := w.Write(header[..]);
    if ok && |payload| > 0 {
      ok := w.Write(payload);
    }
  }

  /** An io.Reader over the bytes still to come. */
  class Reader {
    var bytes: seq<byte>

    constructor (bytes: seq<byte>)
      ensures this.bytes == bytes
    {
      this.bytes := bytes;
    }

    /** io.ReadFull: n bytes, or all there are and an error. */
    method ReadFull(n: nat) returns (b: seq<byte>, ok: bool)
      modifies this
      ensures ok <==> n <= |old(bytes)|
      ensures |b| == (if ok then n else |old(bytes)|) && b == old(bytes)[..|b|] && bytes == old(bytes)[|b|..]
    {
      ok := n <= |bytes|;
      var k := if ok then n else |bytes|;
      b, bytes := bytes[..k], bytes[k..];
    }

    method RecvPacket() returns (r: Received)
      modifies this
      ensures r == Receive(old(bytes))
      ensures r.Packet? ==> bytes == r.rest
    {
      var head, ok := ReadFull(4);
      if !ok { return if |head| == 0 then CleanEof else UnexpectedEof; }
      assert head[..4] == old(bytes)[..4];
      var length := Uint32At(head);
      if length > MAX_MSG_LENGTH { return TooLong; }
      if length == 0 { return TooShort; }
      var body: seq<byte>;
      body, ok := ReadFull(length);
      if !ok { return UnexpectedEof; }
      return Packet(body[0], body[1..], bytes);
    }
  }

  // ---------------------------------------------------------------- streams

  /** What becomes of a frame, whatever its size: the receiver goes by the low 32 bits of the
      length. It is received as it was sent if and only if the body has 1 to 256 KiB bytes. */
  lemma FrameReceived(body: seq<byte>, rest: seq<byte>)
    ensures var n := |body| % TWO_32;
            Receive(Framed(body) + rest) ==
              if n == 0 then TooShort
              else if n > MAX_MSG_LENGTH then TooLong
              else Packet(body[0], body[1..n], body[n..] + rest)
    ensures body != [] ==>
              (Receive(Framed(body) + rest) == Packet(body[0], body[1..], rest) <==> |body| <= 262144)
  {
    var n := |body| % TWO_32;
    var s := U32(n) + (body + rest);
    assert Framed(body) + rest == s;
    Uint32Inverse(s, n, body + rest);
    if 1 <= n <= MAX_MSG_LENGTH {
      assert s[4..] == body + rest;
      FrameParts(s, body, rest, n);
    }
  }

  /** Where a body of at least n bytes behind its length is cut. */
  lemma FrameParts(s: seq<byte>, body: seq<byte>, rest: seq<byte>, n: nat)
    requires 1 <= n <= |body| && |s| >= 4 && s[4..] == body + rest
    ensures s[4] == body[0] && s[5..4 + n] == body[1..n] && s[4 + n..] == body[n..] + rest
    ensures n == |body| ==> body[1..n] == body[1..] && body[n..] + rest == rest
    ensures n < |body| ==> body[1..n] != body[1..]
  {
    var t := s[4..];
    forall i | 0 <= i < n - 1 ensures s[5..4 + n][i] == t[1..n][i] {}
    assert s[5..4 + n] == t[1..n];
    assert s[4 + n..] == t[n..];
    if n < |body| { assert |body[1..n]| != |body[1..]|; }
  }

  /** The packets received until the stream ends or is refused. */
  datatype Session = Session(packets: seq<seq<byte>>, end: Received)

  function ReceiveAll(s: seq<byte>): Session
    decreases |s|
  {
    match Receive(s)
    case Packet(t, d, rest) =>
      var later := ReceiveAll(rest);
      Session([[t] + d] + later.packets, later.end)
    case end => Session([], end)
  }

  ghost function Stream(bodies: seq<seq<byte>>): seq<byte> {
    if bodies == [] then [] else Framed(bodies[0]) + Stream(bodies[1..])
  }

  predicate Sendable(body: seq<byte>) {
    1 <= |body| <= MAX_MSG_LENGTH
  }

  lemma {:induction false} ReceiveFirst(body: seq<byte>, rest: seq<byte>)
    requires Sendable(body)
    ensures ReceiveAll(Framed(body) + rest) == Session([body] + ReceiveAll(rest).packets, ReceiveAll(rest).end)
  {
    FrameReceived(body, rest);
    assert [body[0]] + body[1..] == body;
  }

  /** Any packets of sendable size arrive, in order, with nothing left over. */
  lemma {:induction false} StreamReceived(bodies: seq<seq<byte>>)
    requires forall i :: 0 <= i < |bodies| ==> Sendable(bodies[i])
    ensures ReceiveAll(Stream(bodies)) == Session(bodies, CleanEof)
  {
    if bodies != [] {
      ReceiveFirst(bodies[0], Stream(bodies[1..]));
      StreamReceived(bodies[1..]);
      assert [bodies[0]] + bodies[1..] == bodies;
    }
  }

  /** How many packets lie whole in the first n bytes. */
  function Whole(bodies: seq<seq<byte>>, n: nat): (k: nat)
    ensures k <= |bodies|
  {
    if bodies == [] || n < 4 + |bodies[0]| then 0 else 1 + Whole(bodies[1..], n - 4 - |bodies[0]|)
  }

  lemma {:induction false} WholeIsMost(bodies: seq<seq<byte>>, n: nat)
    ensures var k := Whole(bodies, n);
            |Stream(bodies[..k])| <= n && (k < |bodies| ==> n < |Stream(bodies[..k + 1])|)
  {
    var k := Whole(bodies, n);
    if k == 0 {
      if bodies != [] { StreamPrefix(bodies, 1); }
    } else {
      WholeIsMost(bodies[1..], n - 4 - |bodies[0]|);
      StreamPrefix(bodies, k);
      if k < |bodies| { StreamPrefix(bodies, k + 1); }
    }
  }

  /** The packets whole in the first n bytes are received; the end is clean only between packets. */
  ghost predicate CutDelivers(bodies: seq<seq<byte>>, n: nat)
    requires n <= |Stream(bodies)|
  {
    var k := Whole(bodies, n);
    ReceiveAll(Stream(bodies)[..n]) ==
      Session(bodies[..k], if n == |Stream(bodies[..k])| then CleanEof else UnexpectedEof)
  }

  /** A stream cut off anywhere delivers the packets that lie whole before the cut and no others. */
  lemma {:induction false} CutStream(bodies: seq<seq<byte>>, n: nat)
    requires forall i :: 0 <= i < |bodies| ==> Sendable(bodies[i])
    requires n <= |Stream(bodies)|
    ensures CutDelivers(bodies, n)
  {
    if bodies == [] || n < 4 + |bodies[0]| {
      CutFirst(bodies, n);
    } else {
      CutLater(bodies, n);
      CutStream(bodies[1..], n - 4 - |bodies[0]|);
      CutNext(bodies, n);
    }
  }

  lemma {:induction false} CutNext(bodies: seq<seq<byte>>, n: nat)
    requires bodies != [] && Sendable(bodies[0]) && 4 + |bodies[0]| <= n <= |Stream(bodies)|
    requires n - 4 - |bodies[0]| <= |Stream(bodies[1..])| && CutDelivers(bodies[1..], n - 4 - |bodies[0]|)
    ensures CutDelivers(bodies, n)
  {
    var m, tail := n - 4 - |bodies[0]|, bodies[1..];
    var k := Whole(tail, m);
    var end := if m == |Stream(tail[..k])| then CleanEof else UnexpectedEof;
    CutLater(bodies, n);
    FirstAndRest(bodies, k, Stream(bodies)[..n], Stream(tail)[..m], end);
  }

  lemma {:induction false} FirstAndRest(bodies: seq<seq<byte>>, k: nat, s: seq<byte>, rest: seq<byte>, end: Received)
    requires k < |bodies| && Sendable(bodies[0])
    requires s == Framed(bodies[0]) + rest && ReceiveAll(rest) == Session(bodies[1..][..k], end)
    ensures ReceiveAll(s) == Session(bodies[..k + 1], end)
  {
    NextReceived(s, bodies[0], rest, Session(bodies[1..][..k], end));
    assert bodies[..k + 1] == [bodies[0]] + bodies[1..][..k];
  }

  lemma {:induction false} CutFirst(bodies: seq<seq<byte>>, n: nat)
    requires bodies == [] || (Sendable(bodies[0]) && n < 4 + |bodies[0]|)
    requires n <= |Stream(bodies)|
    ensures CutDelivers(bodies, n)
  {
    assert bodies[..0] == [] && Stream([]) == [];
    if bodies != [] {
      CutFrame(bodies[0], n);
      assert Stream(bodies)[..n] == Framed(bodies[0])[..n];
    }
  }

  lemma {:induction false} NextReceived(s: seq<byte>, body: seq<byte>, rest: seq<byte>, later: Session)
    requires Sendable(body) && s == Framed(body) + rest && ReceiveAll(rest) == later
    ensures ReceiveAll(s) == Session([body] + later.packets, later.end)
  {
    ReceiveFirst(body, rest);
  }

  /** A cut after the first packet is a cut of the rest. */
  lemma {:induction false} CutLater(bodies: seq<seq<byte>>, n: nat)
    requires bodies != [] && 4 + |bodies[0]| <= n <= |Stream(bodies)|
    ensures var m, tail := n - 4 - |bodies[0]|, bodies[1..];
            var k := Whole(tail, m);
            && m <= |Stream(tail)| && Whole(bodies, n) == k + 1
            && Stream(bodies)[..n] == Framed(bodies[0]) + Stream(tail)[..m]
            && (n == |Stream(bodies[..k + 1])| <==> m == |Stream(tail[..k])|)
  {
    StreamPrefix(bodies, Whole(bodies, n));
  }

  lemma {:induction false} CutFrame(body: seq<byte>, n: nat)
    requires Sendable(body) && n < 4 + |body|
    ensures Receive(Framed(body)[..n]) == if n == 0 then CleanEof else UnexpectedEof
  {
    var s := Framed(body)[..n];
    if n >= 4 {
      Uint32Inverse(s, |body|, body[..n - 4]);
      assert s == U32(|body|) + body[..n - 4];
    }
  }

  lemma {:induction false} StreamPrefix(bodies: seq<seq<byte>>, k: nat)
    requires 1 <= k <= |bodies|
    ensures |Stream(bodies[..k])| == 4 + |bodies[0]| + |Stream(bodies[1..][..k - 1])|
  {
    assert bodies[..k][0] == bodies[0] && bodies[..k][1..] == bodies[1..][..k - 1];
  }

  lemma {:induction false} StreamAppend(bodies: seq<seq<byte>>, body: seq<byte>)
    ensures Stream(bodies + [body]) == Stream(bodies) + Framed(body)
  {
    if bodies == [] {
      assert [body][1..] == [];
    } else {
      assert (bodies + [body])[1..] == bodies[1..] + [body];
      StreamAppend(bodies[1..], body);
    }
  }

  lemma {:induction false} StreamNext(bodies: seq<seq<byte>>, k: nat)
    requires k < |bodies|
    ensures Stream(bodies[..k + 1]) == Stream(bodies[..k]) + Framed(bodies[k])
  {
    assert bodies[..k + 1] == bodies[..k] + [bodies[k]];
    StreamAppend(bodies[..k], bodies[k]);
  }

  /** The stream of the first packets is the front of the whole stream, shorter the fewer they are. */
  lemma {:induction false} StreamGrows(bodies: seq<seq<byte>>, k: nat)
    requires k <= |bodies|
    ensures Stream(bodies[..k]) <= Stream(bodies)
    ensures k < |bodies| ==> |Stream(bodies[..k])| + 4 <= |Stream(bodies)|
    decreases |bodies|
  {
    var n := |bodies|;
    if k < n {
      assert bodies == bodies[..n - 1] + [bodies[n - 1]];
      StreamAppend(bodies[..n - 1], bodies[n - 1]);
      StreamGrows(bodies[..n - 1], k);
      assert bodies[..n - 1][..k] == bodies[..k];
    } else {
      assert bodies[..k] == bodies;
    }
  }

  /** With the first k packets written and at most one more in part, that many are whole. */
  lemma {:induction false} WholeWritten(bodies: seq<seq<byte>>, n: nat, k: nat)
    requires k <= |bodies| && |Stream(bodies[..k])| <= n
    requires if k < |bodies| then n <= |Stream(bodies[..k + 1])| else n == |Stream(bodies)|
    ensures k <= Whole(bodies, n) <= k + 1
  {
    var w := Whole(bodies, n);
    WholeIsMost(bodies, n);
    if w < k { StreamLonger(bodies, w + 1, k); }
    if k + 1 < w { StreamLonger(bodies, k + 1, w); }
  }

  lemma {:induction false} StreamLonger(bodies: seq<seq<byte>>, j: nat, k: nat)
    requires j <= k <= |bodies|
    ensures |Stream(bodies[..j])| + (if j < k then 4 else 0) <= |Stream(bodies[..k])|
  {
    StreamGrows(bodies[..k], j);
    assert bodies[..k][..j] == bodies[..j];
  }

  /** One frame in bytes: four for the length, then the body. */
  lemma FrameBytes(typ: byte, x: byte)
    ensures Framed([typ, x]) == [0, 0, 0, 2, typ, x]
  {
    SmallNumbers(2);
  }
}
