/**
Packet bodies of packet.go: what follows the length in a frame. Each packet type has its own
encoder and decoder; a body is its type octet and its fields.
*/
module Packets {
  import opened Basics
  import opened Wire
  import opened FileStats
  import opened Framing

  const FXP_INIT: byte := 1
  const FXP_READ: byte := 5
  const FXP_WRITE: byte := 6
  const FXP_SETSTAT: byte := 9
  const FXP_RENAME: byte := 18
  const FXP_DATA: byte := 103

  /** Setstat carries its attributes undecoded, as the server keeps them until they are used. */
  datatype Packet =
    | Init(version: uint32, extensions: seq<Extended>)
    | Read(id: uint32, handle: seq<byte>, offset: uint64, len: uint32)
    | Write(id: uint32, handle: seq<byte>, offset: uint64, length: uint32, data: seq<byte>)
    | Setstat(id: uint32, path: seq<byte>, flags: uint32, attrs: seq<byte>)
    | Rename(id: uint32, oldpath: seq<byte>, newpath: seq<byte>)
    | Data(id: uint32, length: uint32, data: seq<byte>)

  function TypeOf(p: Packet): byte {
    match p
    case Init(_, _) => FXP_INIT
    case Read(_, _, _, _) => FXP_READ
    case Write(_, _, _, _, _) => FXP_WRITE
    case Setstat(_, _, _, _) => FXP_SETSTAT
    case Rename(_, _, _) => FXP_RENAME
    case Data(_, _, _) => FXP_DATA
  }

  /** The fields on the wire, each followed by the rest. */
  ghost function Fields(p: Packet): seq<byte> {
    match p
    case Init(version, exts) => U32(version) + EncodePairs(exts)
    case Read(id, handle, offset, len) => U32(id) + (Str(handle) + (U64(offset) + U32(len)))
    case Write(id, handle, offset, length, data) => U32(id) + (Str(handle) + (U64(offset) + (U32(length) + data)))
    case Setstat(id, path, flags, attrs) => U32(id) + (Str(path) + (U32(flags) + attrs))
    case Rename(id, oldpath, newpath) => U32(id) + (Str(oldpath) + Str(newpath))
    case Data(id, length, data) => U32(id) + (U32(length) + data)
  }

  ghost function Body(p: Packet): seq<byte> {
    [TypeOf(p)] + Fields(p)
  }

  /** One packet of each type in bytes. */
  lemma InitBytes()
    ensures Body(Init(3, [])) == [1, 0, 0, 0, 3]
  {
    SmallNumbers(3);
  }

  lemma ReadBytes(id: byte, h: byte, o: byte, n: byte)
    ensures Body(Read(id, [h], o, n)) ==
            [5, 0, 0, 0, id, 0, 0, 0, 1, h, 0, 0, 0, 0, 0, 0, 0, o, 0, 0, 0, n]
  {
    HandleAndOffset(id, h, o, U32(n));
    SmallNumbers(n);
  }

  lemma HandleAndOffset(id: byte, h: byte, o: byte, rest: seq<byte>)
    ensures U32(id) + (Str([h]) + (U64(o) + rest)) ==
            [0, 0, 0, id, 0, 0, 0, 1, h, 0, 0, 0, 0, 0, 0, 0, o] + rest
  {
    SmallNumbers(1);
    SmallNumbers(id);
    SmallNumbers(o);
    assert U32(id) + (Str([h]) + (U64(o) + rest)) == U32(id) + Str([h]) + U64(o) + rest;
  }

  lemma RenameBytes(id: byte, x: byte, y: byte)
    ensures Body(Rename(id, [x], [y])) == [18, 0, 0, 0, id, 0, 0, 0, 1, x, 0, 0, 0, 1, y]
  {
    SmallNumbers(1);
    SmallNumbers(id);
  }

  lemma DataBytes(id: byte, n: byte, d: byte)
    ensures Body(Data(id, n, [d])) == [103, 0, 0, 0, id, 0, 0, 0, n, d]
  {
    SmallNumbers(id);
    SmallNumbers(n);
  }

  lemma SetstatBytes(id: byte, h: byte, n: byte, d: byte)
    ensures Body(Setstat(id, [h], n, [d])) == [9, 0, 0, 0, id, 0, 0, 0, 1, h, 0, 0, 0, n, d]
  {
    SmallNumbers(1);
    SmallNumbers(id);
    SmallNumbers(n);
  }

  lemma WriteBytes(id: byte, h: byte, o: byte, n: byte, d: byte)
    ensures Body(Write(id, [h], o, n, [d])) ==
            [6, 0, 0, 0, id, 0, 0, 0, 1, h, 0, 0, 0, 0, 0, 0, 0, o, 0, 0, 0, n, d]
  {
    HandleAndOffset(id, h, o, U32(n) + [d]);
    SmallNumbers(n);
  }

  // ---------------------------------------------------------------- encoding

  /** What marshalPacket returns: four bytes of room and the header, and the payload apart. */
  ghost predicate IsBody(header: seq<byte>, payload: seq<byte>, p: Packet) {
    |header| >= 4 && header[4..] + payload == Body(p)
  }

  method MarshalInit(version: uint32, exts: seq<Extended>) returns (header: seq<byte>, payload: seq<byte>)
    ensures IsBody(header, payload, Init(version, exts))
  {
    header := Zeros(4) + [FXP_INIT];
    header := MarshalUint32(header, version);
    header := MarshalExtensions(header, exts);
    payload := [];
    assert header[4..] + payload == [FXP_INIT] + Fields(Init(version, exts));
  }

  lemma InTurnAfter(room: seq<byte>, t: seq<byte>, a: seq<byte>, b: seq<byte>, c: seq<byte>, d: seq<byte>)
    requires |room| == 4
    ensures (room + t + a + b + c + d)[4..] == t + (a + (b + (c + d)))
  {
    assert room + t + a + b + c + d == room + (t + (a + (b + (c + d))));
  }

  lemma DataLast(t: seq<byte>, a: seq<byte>, b: seq<byte>, c: seq<byte>, d: seq<byte>, data: seq<byte>)
    ensures t + (a + (b + (c + d))) + data == t + (a + (b + (c + (d + data))))
  {}

  method MarshalRead(id: uint32, handle: seq<byte>, offset: uint64, len: uint32)
    returns (header: seq<byte>, payload: seq<byte>)
    ensures IsBody(header, payload, Read(id, handle, offset, len))
  {
    header := Zeros(4) + [FXP_READ];
    header := MarshalUint32(header, id);
    header := MarshalString(header, handle);
    header := MarshalUint64(header, offset);
    header := MarshalUint32(header, len);
    payload := [];
    InTurnAfter(Zeros(4), [FXP_READ], U32(id), Str(handle), U64(offset), U32(len));
    assert header[4..] + [] == header[4..];
  }

  method MarshalWrite(id: uint32, handle: seq<byte>, offset: uint64, length: uint32, data: seq<byte>)
    returns (header: seq<byte>, payload: seq<byte>)
    ensures IsBody(header, payload, Write(id, handle, offset, length, data)) && payload == data
  {
    header := Zeros(4) + [FXP_WRITE];
    header := MarshalUint32(header, id);
    header := MarshalString(header, handle);
    header := MarshalUint64(header, offset);
    header := MarshalUint32(header, length);
    payload := data;
    InTurnAfter(Zeros(4), [FXP_WRITE], U32(id), Str(handle), U64(offset), U32(length));
    DataLast([FXP_WRITE], U32(id), Str(handle), U64(offset), U32(length), data);
  }

  method MarshalSetstat(id: uint32, path: seq<byte>, flags: uint32, attrs: seq<byte>)
    returns (header: seq<byte>, payload: seq<byte>)
    ensures IsBody(header, payload, Setstat(id, path, flags, attrs)) && payload == attrs
  {
    header := Zeros(4) + [FXP_SETSTAT];
    header := MarshalUint32(header, id);
    header := MarshalString(header, path);
    header := MarshalUint32(header, flags);
    payload := attrs;
    assert header[4..] + payload == [FXP_SETSTAT] + Fields(Setstat(id, path, flags, attrs));
  }

  /** With a FileStat, the payload is its encoding. */
  method MarshalSetstatOf(id: uint32, path: seq<byte>, flags: uint32, fs: FileStat)
    returns (header: seq<byte>, payload: seq<byte>)
    ensures IsBody(header, payload, Setstat(id, path, flags, EncodeStat(flags, fs)))
  {
    var attrs := MarshalFileStat([], flags, fs);
    assert attrs == EncodeStat(flags, fs);
    header, payload := MarshalSetstat(id, path, flags, attrs);
  }

  method MarshalRename(id: uint32, oldpath: seq<byte>, newpath: seq<byte>)
    returns (header: seq<byte>, payload: seq<byte>)
    ensures IsBody(header, payload, Rename(id, oldpath, newpath))
  {
    header := Zeros(4) + [FXP_RENAME];
    header := MarshalUint32(header, id);
    header := MarshalString(header, oldpath);
    header := MarshalString(header, newpath);
    payload := [];
    assert header[4..] + payload == [FXP_RENAME] + Fields(Rename(id, oldpath, newpath));
  }

  method MarshalDataPacket(id: uint32, length: uint32, data: seq<byte>) returns (header: seq<byte>, payload: seq<byte>)
    ensures IsBody(header, payload, Data(id, length, data)) && payload == data
  {
    header := Zeros(4) + [FXP_DATA];
    header := MarshalUint32(header, id);
    header := MarshalUint32(header, length);
    payload := data;
    assert header[4..] + payload == [FXP_DATA] + Fields(Data(id, length, data));
  }

  /** marshalPacket, by type. */
  method Marshal(p: Packet) returns (header: seq<byte>, payload: seq<byte>)
    ensures IsBody(header, payload, p)
  {
    match p {
      case Init(version, exts) => header, payload := MarshalInit(version, exts);
      case Read(id, handle, offset, len) => header, payload := MarshalRead(id, handle, offset, len);
      case Write(id, handle, offset, length, data) =>
        header, payload := MarshalWrite(id, handle, offset, length, data);
      case Setstat(id, path, flags, attrs) => header, payload := MarshalSetstat(id, path, flags, attrs);
      case Rename(id, oldpath, newpath) => header, payload := MarshalRename(id, oldpath, newpath);
      case Data(id, length, data) => header, payload := MarshalDataPacket(id, length, data);
    }
  }

  method MarshalExtensions(b0: seq<byte>, exts: seq<Extended>) returns (b: seq<byte>)
    ensures b == b0 + EncodePairs(exts)
  {
    b := b0;
    for i := 0 to |exts|
      invariant b == b0 + EncodePairs(exts[..i])
    {
      b := MarshalString(b, exts[i].typ);
      b := MarshalString(b, exts[i].data);
      EncodePairsAppend(exts[..i], exts[i]);
      assert exts[..i + 1] == exts[..i] + [exts[i]];
    }
    assert exts[..|exts|] == exts;
  }

  // ---------------------------------------------------------------- decoding

  /** The extension pairs that fill the rest of the packet. */
  function DecodeAllPairs(b: seq<byte>): Option<seq<Extended>>
    decreases |b|
  {
    if b == [] then Some([])
    else match DecodePair(b)
      case Short => None
      case Parsed(e, r) =>
        PairShortens(b);
        match DecodeAllPairs(r)
        case None => None
        case Some(es) => Some([e] + es)
  }

  lemma PairShortens(b: seq<byte>)
    ensures DecodePair(b).Parsed? ==> |DecodePair(b).rest| + 8 <= |b|
  {}

  function DecodeInit(b: seq<byte>): Option<Packet> {
    match UnmarshalUint32Safe(b)
    case Short => None
    case Parsed(version, r) =>
      match DecodeAllPairs(r)
      case None => None
      case Some(exts) => Some(Init(version, exts))
  }

  /** The id and the first string, with which most requests start. */
  function DecodeIdString(b: seq<byte>): Parsed<(uint32, seq<byte>)> {
    match UnmarshalUint32Safe(b)
    case Short => Short
    case Parsed(id, r) =>
      match UnmarshalStringSafe(r)
      case Short => Short
      case Parsed(s, r') => Parsed((id, s), r')
  }

  /** Read: bytes after the last field are ignored. */
  function DecodeRead(b: seq<byte>): Option<Packet> {
    match DecodeIdString(b)
    case Short => None
    case Parsed(x, r) =>
      match UnmarshalUint64Safe(r)
      case Short => None
      case Parsed(offset, r') =>
        match UnmarshalUint32Safe(r')
        case Short => None
        case Parsed(len, _) => Some(Read(x.0, x.1, offset, len))
  }

  /** A length, and as many bytes of what follows; the test compares the low 32 bits of what is there. */
  function DecodeData32(b: seq<byte>): Option<(uint32, seq<byte>)> {
    match UnmarshalUint32Safe(b)
    case Short => None
    case Parsed(length, r) => if |r| % TWO_32 < length then None else Some((length, r[..length]))
  }

  function DecodeWrite(b: seq<byte>): Option<Packet> {
    match DecodeIdString(b)
    case Short => None
    case Parsed(x, r) =>
      match UnmarshalUint64Safe(r)
      case Short => None
      case Parsed(offset, r') =>
        match DecodeData32(r')
        case None => None
        case Some(d) => Some(Write(x.0, x.1, offset, d.0, d.1))
  }

  function DecodeSetstat(b: seq<byte>): Option<Packet> {
    match DecodeIdString(b)
    case Short => None
    case Parsed(x, r) =>
      match UnmarshalUint32Safe(r)
      case Short => None
      case Parsed(flags, r') => Some(Setstat(x.0, x.1, flags, r'))
  }

  function DecodeRename(b: seq<byte>): Option<Packet> {
    match DecodeIdString(b)
    case Short => None
    case Parsed(x, r) =>
      match UnmarshalStringSafe(r)
      case Short => None
      case Parsed(newpath, _) => Some(Rename(x.0, x.1, newpath))
  }

  function DecodeData(b: seq<byte>): Option<Packet> {
    match UnmarshalUint32Safe(b)
    case Short => None
    case Parsed(id, r) =>
      match DecodeData32(r)
      case None => None
      case Some(d) => Some(Data(id, d.0, d.1))
  }

  /** UnmarshalBinary by packet type. */
  function Decode(typ: byte, b: seq<byte>): Option<Packet> {
    if typ == FXP_INIT then DecodeInit(b)
    else if typ == FXP_READ then DecodeRead(b)
    else if typ == FXP_WRITE then DecodeWrite(b)
    else if typ == FXP_SETSTAT then DecodeSetstat(b)
    else if typ == FXP_RENAME then DecodeRename(b)
    else if typ == FXP_DATA then DecodeData(b)
    else None
  }

  // ---------------------------------------------------------------- the round trip

  /** Strings fit their 32-bit lengths, and data is as long as the packet says. */
  ghost predicate WellFormed(p: Packet) {
    match p
    case Init(_, exts) => PairsFit(exts)
    case Read(_, handle, _, _) => |handle| < TWO_32
    case Write(_, handle, _, length, data) => |handle| < TWO_32 && |data| == length
    case Setstat(_, path, _, _) => |path| < TWO_32
    case Rename(_, oldpath, newpath) => |oldpath| < TWO_32 && |newpath| < TWO_32
    case Data(_, length, data) => |data| == length
  }

  /** A packet is decoded from its own fields if and only if it is well-formed. */
  lemma PacketRoundTrip(p: Packet)
    ensures Decode(TypeOf(p), Fields(p)) == Some(p) <==> WellFormed(p)
  {
    if WellFormed(p) { WellFormedDecodes(p); }
    DecodedIsWellFormed(TypeOf(p), Fields(p));
  }

  lemma DecodedIsWellFormed(typ: byte, b: seq<byte>)
    ensures Decode(typ, b).Some? ==> WellFormed(Decode(typ, b).value)
  {
    if typ == FXP_INIT && DecodeInit(b).Some? { AllPairsFit(b[4..]); }
  }

  lemma {:induction false} AllPairsFit(b: seq<byte>)
    ensures DecodeAllPairs(b).Some? ==> PairsFit(DecodeAllPairs(b).value)
    decreases |b|
  {
    if b != [] && DecodePair(b).Parsed? {
      var e, r := DecodePair(b).value, DecodePair(b).rest;
      PairShortens(b);
      AllPairsFit(r);
      PairInverse(b, e, r);
      if DecodeAllPairs(r).Some? { PairsFitPrepend(e, DecodeAllPairs(r).value); }
    }
  }

  lemma {:induction false} AllPairsDecode(es: seq<Extended>)
    requires PairsFit(es)
    ensures DecodeAllPairs(EncodePairs(es)) == Some(es)
  {
    if es != [] {
      var e, more := es[0], es[1..];
      assert es == [e] + more;
      PairsFitPrepend(e, more);
      AllPairsDecode(more);
      PairInverse(EncodePairs(es), e, EncodePairs(more));
    }
  }

  lemma IdString(id: uint32, s: seq<byte>, rest: seq<byte>)
    requires |s| < TWO_32
    ensures DecodeIdString(U32(id) + (Str(s) + rest)) == Parsed((id, s), rest)
  {
    Uint32Inverse(U32(id) + (Str(s) + rest), id, Str(s) + rest);
    StringInverse(Str(s) + rest, s, rest);
  }

  lemma Data32(length: uint32, data: seq<byte>)
    requires |data| == length
    ensures DecodeData32(U32(length) + data) == Some((length, data))
  {
    Uint32Inverse(U32(length) + data, length, data);
    assert data[..length] == data;
  }

  lemma ReadDecodes(id: uint32, handle: seq<byte>, offset: uint64, len: uint32)
    requires |handle| < TWO_32
    ensures DecodeRead(Fields(Read(id, handle, offset, len))) == Some(Read(id, handle, offset, len))
  {
    IdString(id, handle, U64(offset) + U32(len));
    Uint64Inverse(U64(offset) + U32(len), offset, U32(len));
    assert U32(len) + [] == U32(len);
    Uint32Inverse(U32(len), len, []);
  }

  lemma WriteDecodes(id: uint32, handle: seq<byte>, offset: uint64, length: uint32, data: seq<byte>)
    requires |handle| < TWO_32 && |data| == length
    ensures DecodeWrite(Fields(Write(id, handle, offset, length, data))) ==
            Some(Write(id, handle, offset, length, data))
  {
    var tail := U32(length) + data;
    IdString(id, handle, U64(offset) + tail);
    Uint64Inverse(U64(offset) + tail, offset, tail);
    Data32(length, data);
  }

  lemma RenameDecodes(id: uint32, oldpath: seq<byte>, newpath: seq<byte>)
    requires |oldpath| < TWO_32 && |newpath| < TWO_32
    ensures DecodeRename(Fields(Rename(id, oldpath, newpath))) == Some(Rename(id, oldpath, newpath))
  {
    IdString(id, oldpath, Str(newpath));
    assert Str(newpath) + [] == Str(newpath);
    StringInverse(Str(newpath), newpath, []);
  }

  lemma InitDecodes(version: uint32, exts: seq<Extended>)
    requires PairsFit(exts)
    ensures DecodeInit(Fields(Init(version, exts))) == Some(Init(version, exts))
  {
    Uint32Inverse(Fields(Init(version, exts)), version, EncodePairs(exts));
    AllPairsDecode(exts);
  }

  lemma SetstatDecodes(id: uint32, path: seq<byte>, flags: uint32, attrs: seq<byte>)
    requires |path| < TWO_32
    ensures DecodeSetstat(Fields(Setstat(id, path, flags, attrs))) == Some(Setstat(id, path, flags, attrs))
  {
    IdString(id, path, U32(flags) + attrs);
    Uint32Inverse(U32(flags) + attrs, flags, attrs);
  }

  lemma DataDecodes(id: uint32, length: uint32, data: seq<byte>)
    requires |data| == length
    ensures DecodeData(Fields(Data(id, length, data))) == Some(Data(id, length, data))
  {
    Uint32Inverse(Fields(Data(id, length, data)), id, U32(length) + data);
    Data32(length, data);
  }

  lemma WellFormedDecodes(p: Packet)
    requires WellFormed(p)
    ensures Decode(TypeOf(p), Fields(p)) == Some(p)
  {
    match p
    case Init(version, exts) => InitDecodes(version, exts);
    case Read(id, handle, offset, len) => ReadDecodes(id, handle, offset, len);
    case Write(id, handle, offset, length, data) => WriteDecodes(id, handle, offset, length, data);
    case Setstat(id, path, flags, attrs) => SetstatDecodes(id, path, flags, attrs);
    case Rename(id, oldpath, newpath) => RenameDecodes(id, oldpath, newpath);
    case Data(id, length, data) => DataDecodes(id, length, data);
  }

  /** The attributes of a Setstat, encoded by the client and decoded by the server. */
  lemma SetstatRoundTrip(id: uint32, path: seq<byte>, flags: uint32, fs: FileStat)
    ensures var p := Setstat(id, path, flags, EncodeStat(flags, fs));
            (Decode(FXP_SETSTAT, Fields(p)) == Some(p) && DecodeStat(flags, p.attrs) == Parsed(fs, []))
            <==> |path| < TWO_32 && Plain(flags, fs)
  {
    PacketRoundTrip(Setstat(id, path, flags, EncodeStat(flags, fs)));
    assert EncodeStat(flags, fs) + [] == EncodeStat(flags, fs);
    StatInverse(flags, EncodeStat(flags, fs), fs, []);
  }

  // ---------------------------------------------------------------- whole sessions

  ghost function Bodies(ps: seq<Packet>): seq<seq<byte>> {
    seq(|ps|, i requires 0 <= i < |ps| => Body(ps[i]))
  }

  function DecodeBodies(bodies: seq<seq<byte>>): seq<Option<Packet>> {
    seq(|bodies|, i requires 0 <= i < |bodies| =>
      if bodies[i] == [] then None else Decode(bodies[i][0], bodies[i][1..]))
  }

  /** Well-formed packets of sendable size, sent one after the other, are received and decoded
      as they were, in order, and then the stream ends. */
  lemma SessionRoundTrip(ps: seq<Packet>)
    requires forall i :: 0 <= i < |ps| ==> WellFormed(ps[i]) && |Body(ps[i])| <= MAX_MSG_LENGTH
    ensures var got := ReceiveAll(Stream(Bodies(ps)));
            && got.end == CleanEof
            && DecodeBodies(got.packets) == seq(|ps|, i requires 0 <= i < |ps| => Some(ps[i]))
  {
    var bodies := Bodies(ps);
    StreamReceived(bodies);
    forall i | 0 <= i < |ps| ensures Decode(bodies[i][0], bodies[i][1..]) == Some(ps[i]) {
      PacketRoundTrip(ps[i]);
      assert Body(ps[i])[1..] == Fields(ps[i]);
    }
  }

  /** Marshals and sends one packet after the other, until the writer reports an error. */
  method SendAll(w: Writer, ps: seq<Packet>) returns (sent: nat)
    modifies w
    ensures sent <= |ps|
    ensures Sent(old(w.written), w.written, Bodies(ps), sent)
  {
    sent := 0;
    ghost var start, bodies := w.written, Bodies(ps);
    assert start == start + Stream(bodies[..0]);
    while sent < |ps|
      invariant sent <= |ps| && w.written == start + Stream(bodies[..sent])
    {
      ghost var before := w.written;
      var ok := SendOne(w, ps[sent]);
      SentNext(start, before, w.written, bodies, sent);
      if !ok { return; }
      sent := sent + 1;
    }
    assert bodies[..sent] == bodies;
  }

  /** The first k bodies have been written and at most a front of one more. */
  ghost predicate Sent(start: seq<byte>, now: seq<byte>, bodies: seq<seq<byte>>, k: nat)
    requires k <= |bodies|
  {
    && start + Stream(bodies[..k]) <= now
    && if k == |bodies| then now == start + Stream(bodies) else now <= start + Stream(bodies[..k + 1])
  }

  lemma {:induction false} SentNext(start: seq<byte>, before: seq<byte>, now: seq<byte>, bodies: seq<seq<byte>>, k: nat)
    requires k < |bodies| && before == start + Stream(bodies[..k]) && before <= now <= before + Framed(bodies[k])
    ensures Sent(start, now, bodies, k)
    ensures now == before + Framed(bodies[k]) ==> now == start + Stream(bodies[..k + 1])
  {
    StreamNext(bodies, k);
    assert before + Framed(bodies[k]) == start + Stream(bodies[..k + 1]);
  }

  method SendOne(w: Writer, p: Packet) returns (ok: bool)
    modifies w
    ensures ok ==> w.written == old(w.written) + Framed(Body(p))
    ensures old(w.written) <= w.written <= old(w.written) + Framed(Body(p))
  {
    var header, payload := Marshal(p);
    var a := new byte[|header|](i requires 0 <= i < |header| => header[i]);
    assert a[4..] == header[4..];
    ok := SendPacket(w, a, payload);
  }

  /** Receives and decodes until the stream ends or is refused. */
  method ReceiveLoop(from: Reader) returns (packets: seq<Option<Packet>>, end: Received)
    modifies from
    ensures packets == DecodeBodies(ReceiveAll(old(from.bytes)).packets)
    ensures end == ReceiveAll(old(from.bytes)).end && !end.Packet?
  {
    packets := [];
    ghost var all := ReceiveAll(from.bytes);
    ghost var bodies: seq<seq<byte>> := [];
    ReceivedFirst(from.bytes);
    end := from.RecvPacket();
    while end.Packet?
      invariant packets == DecodeBodies(bodies) && Received(all, bodies, end)
      invariant end.Packet? ==> from.bytes == end.rest
      decreases if end.Packet? then 1 + |end.rest| else 0
    {
      ReceivedNext(all, bodies, end.typ, end.data, end.rest);
      DecodeAppend(bodies, end.typ, end.data);
      packets := packets + [Decode(end.typ, end.data)];
      bodies := bodies + [[end.typ] + end.data];
      end := from.RecvPacket();
    }
  }

  /** Of the session `all` the bodies have come and been decoded, and `last` has just come. */
  ghost predicate Received(all: Session, bodies: seq<seq<byte>>, last: Framing.Received) {
    match last
    case Packet(t, d, rest) =>
      all == Session(bodies + [[t] + d] + ReceiveAll(rest).packets, ReceiveAll(rest).end)
    case _ => all == Session(bodies, last)
  }

  lemma {:induction false} ReceivedFirst(s: seq<byte>)
    ensures Received(ReceiveAll(s), [], Receive(s))
  {}

  lemma {:induction false} ReceivedNext(all: Session, bodies: seq<seq<byte>>, t: byte, d: seq<byte>, rest: seq<byte>)
    requires Received(all, bodies, Framing.Packet(t, d, rest))
    ensures Received(all, bodies + [[t] + d], Receive(rest))
  {
    var b := bodies + [[t] + d];
    match Receive(rest)
    case Packet(u, c, more) =>
      assert b + ([[u] + c] + ReceiveAll(more).packets) == b + [[u] + c] + ReceiveAll(more).packets;
    case _ => assert b + [] == b;
  }

  lemma {:induction false} DecodeAppend(bodies: seq<seq<byte>>, t: byte, d: seq<byte>)
    ensures DecodeBodies(bodies + [[t] + d]) == DecodeBodies(bodies) + [Decode(t, d)]
  {
    assert ([t] + d)[1..] == d;
  }

  /** What is received of packets written up to one that the writer failed in. */
  lemma {:induction false} WrittenReceived(ps: seq<Packet>, sent: nat, s: seq<byte>)
    requires forall i :: 0 <= i < |ps| ==> WellFormed(ps[i]) && |Body(ps[i])| <= MAX_MSG_LENGTH
    requires sent <= |ps| && Sent([], s, Bodies(ps), sent)
    ensures var all := ReceiveAll(s);
            && sent <= |all.packets| <= |ps| && |all.packets| <= sent + 1
            && (forall i :: 0 <= i < |all.packets| ==> DecodeBodies(all.packets)[i] == Some(ps[i]))
            && (all.end == CleanEof || (all.end == UnexpectedEof && sent < |ps|))
  {
    var bodies := Bodies(ps);
    WrittenPrefix(bodies, sent, s);
    CutStream(bodies, |s|);
    WholeWritten(bodies, |s|, sent);
    var k := Whole(bodies, |s|);
    if sent == |ps| { assert bodies[..k] == bodies; }
    forall i | 0 <= i < k ensures DecodeBodies(bodies[..k])[i] == Some(ps[i]) {
      PacketRoundTrip(ps[i]);
      assert Body(ps[i])[1..] == Fields(ps[i]);
    }
  }

  lemma {:induction false} WrittenPrefix(bodies: seq<seq<byte>>, sent: nat, s: seq<byte>)
    requires sent <= |bodies| && Sent([], s, bodies, sent)
    ensures s <= Stream(bodies) && s == Stream(bodies)[..|s|]
    ensures |Stream(bodies[..sent])| <= |s|
    ensures if sent < |bodies| then |s| <= |Stream(bodies[..sent + 1])| else |s| == |Stream(bodies)|
  {
    assert forall t: seq<byte> :: [] + t == t;
    if sent < |bodies| { StreamGrows(bodies, sent + 1); }
  }

  /** What is sent is received: all of it, in order and as it was, if every send succeeded; up to
      the packet the writer failed in otherwise, and then the stream may end inside that packet. */
  method Exchange(ps: seq<Packet>) returns (sent: nat, got: seq<Option<Packet>>, end: Received)
    requires forall i :: 0 <= i < |ps| ==> WellFormed(ps[i]) && |Body(ps[i])| <= MAX_MSG_LENGTH
    ensures sent <= |got| <= |ps| && |got| <= sent + 1
    ensures forall i :: 0 <= i < |got| ==> got[i] == Some(ps[i])
    ensures end == CleanEof || (end == UnexpectedEof && sent < |ps|)
  {
    var w := new Writer();
    sent := SendAll(w, ps);
    var from := new Reader(w.written);
    WrittenReceived(ps, sent, w.written);
    got, end := ReceiveLoop(from);
  }

  // ---------------------------------------------------------------- DATA in one piece

  const DATA_HEADER_LEN := 4 + 1 + 4 + 4

  /** What the in-place form has after its header: the first `length` bytes of the data moved up,
      and over what is left of the old bytes beyond them. */
  function Shifted(data: seq<byte>, length: nat): seq<byte> {
    var m := Min(length, |data|);
    data[..m] + (data + Zeros(DATA_HEADER_LEN))[DATA_HEADER_LEN + m..]
  }

  /** Copies the front of `a` up by DATA_HEADER_LEN within the array: the regions overlap, so it
      goes from the last byte down. */
  method CopyUp(a: array<byte>, m: nat)
    requires m + DATA_HEADER_LEN <= a.Length
    modifies a
    ensures forall i :: 0 <= i < a.Length ==>
              a[i] == if DATA_HEADER_LEN <= i < DATA_HEADER_LEN + m then old(a[i - DATA_HEADER_LEN]) else old(a[i])
  {
    for k := m downto 0
      invariant forall i :: 0 <= i < a.Length ==>
                  a[i] == if DATA_HEADER_LEN + k <= i < DATA_HEADER_LEN + m then old(a[i - DATA_HEADER_LEN])
                          else old(a[i])
    {
      a[DATA_HEADER_LEN + k] := a[k];
    }
  }

  /** MarshalBinary of a DATA packet whose data is the first n bytes of `a`. With room for the
      header it works in that array; otherwise it starts a new one and leaves `a` alone. */
  method MarshalData(a: array<byte>, n: nat, id: uint32, length: uint32) returns (b: array<byte>)
    requires n <= a.Length && length <= a.Length
    modifies a
    ensures n + DATA_HEADER_LEN <= b.Length
    ensures if n + DATA_HEADER_LEN <= a.Length then b == a else fresh(b) && a[..] == old(a[..])
    ensures b[4..n + DATA_HEADER_LEN] == [FXP_DATA] + U32(id) + U32(length) + Shifted(old(a[..n]), length)
  {
    ghost var data := a[..n];
    if n + DATA_HEADER_LEN <= a.Length {
      b := a;
    } else {
      b := new byte[n + DATA_HEADER_LEN](i => 0);
      forall i | 0 <= i < n { b[i] := a[i]; }
    }
    forall i | n <= i < n + DATA_HEADER_LEN { b[i] := 0; }
    ghost var before := b[..n + DATA_HEADER_LEN];
    assert before == data + Zeros(DATA_HEADER_LEN);
    CopyUp(b, Min(length, n));
    ghost var after := b[..n + DATA_HEADER_LEN];
    forall i | 0 <= i < n
      ensures after[i + DATA_HEADER_LEN] == if i < length then data[i] else before[i + DATA_HEADER_LEN]
    {
      var j := i + DATA_HEADER_LEN;
      assert after[j] == b[j];
    }
    CopiedUp(data, length, after);
    assert b[DATA_HEADER_LEN..n + DATA_HEADER_LEN] == after[DATA_HEADER_LEN..];
    PutHeader(b, n + DATA_HEADER_LEN, id, length);
  }

  method PutHeader(b: array<byte>, n: nat, id: uint32, length: uint32)
    requires DATA_HEADER_LEN <= n <= b.Length
    modifies b
    ensures b[4..n] == [FXP_DATA] + U32(id) + U32(length) + old(b[DATA_HEADER_LEN..n])
  {
    Shifts32(id);
    Shifts32(length);
    b[4] := FXP_DATA;
    b[5], b[6], b[7], b[8] := id / 0x100_0000, id / 0x1_0000 % 0x100, id / 0x100 % 0x100, id % 0x100;
    b[9], b[10], b[11], b[12] := length / 0x100_0000, length / 0x1_0000 % 0x100, length / 0x100 % 0x100, length % 0x100;
    assert b[4..13] == [FXP_DATA] + U32(id) + U32(length);
    assert b[13..n] == old(b[13..n]);
    ghost var all := b[..n];
    assert all[4..] == all[4..13] + all[13..];
    assert b[4..n] == all[4..] && b[4..13] == all[4..13] && b[13..n] == all[13..];
  }

  lemma CopiedUp(data: seq<byte>, length: nat, after: seq<byte>)
    requires |after| == |data| + DATA_HEADER_LEN
    requires forall i :: 0 <= i < |data| ==>
               after[i + DATA_HEADER_LEN]
               == if i < length then data[i] else (data + Zeros(DATA_HEADER_LEN))[i + DATA_HEADER_LEN]
    ensures after[DATA_HEADER_LEN..] == Shifted(data, length)
  {
    ShiftedAt(data, length);
  }

  lemma ShiftedAt(data: seq<byte>, length: nat)
    ensures |Shifted(data, length)| == |data|
    ensures forall i :: 0 <= i < |data| ==>
              Shifted(data, length)[i] ==
                if i < length then data[i] else (data + Zeros(DATA_HEADER_LEN))[i + DATA_HEADER_LEN]
  {}

  /** The two forms put the same bytes on the wire if and only if every byte from `length` on
      equals the one a header's length further on, and so whenever the length covers the data. */
  lemma OnePieceIsTwoPieces(id: uint32, length: uint32, data: seq<byte>)
    ensures [FXP_DATA] + U32(id) + U32(length) + Shifted(data, length) == Body(Data(id, length, data))
       <==> forall i :: length <= i < |data| ==> data[i] == (data + Zeros(DATA_HEADER_LEN))[i + DATA_HEADER_LEN]
    ensures length >= |data| ==> Shifted(data, length) == data
  {
    var head := [FXP_DATA] + U32(id) + U32(length);
    assert Body(Data(id, length, data)) == head + data;
    var s := Shifted(data, length);
    ShiftedAt(data, length);
    if head + s == head + data {
      assert (head + s)[9..] == s && (head + data)[9..] == data;
    }
  }

  /** A length short of the data can change the bytes: one data byte, and length zero. */
  lemma OnePieceDiffers()
    ensures Shifted([7], 0) != [7]
  {
    assert Shifted([7], 0)[0] == 0;
  }

  /** Both forms mean the same packet to the receiver: the first `length` bytes. */
  lemma OnePieceDecodes(id: uint32, length: uint32, data: seq<byte>)
    requires length <= |data| < TWO_32
    ensures Decode(FXP_DATA, U32(id) + (U32(length) + Shifted(data, length))) == Some(Data(id, length, data[..length]))
    ensures Decode(FXP_DATA, U32(id) + (U32(length) + data)) == Some(Data(id, length, data[..length]))
  {
    var s := Shifted(data, length);
    assert |s| == |data| && s[..length] == data[..length];
    Uint32Inverse(U32(id) + (U32(length) + s), id, U32(length) + s);
    Uint32Inverse(U32(length) + s, length, s);
    Uint32Inverse(U32(id) + (U32(length) + data), id, U32(length) + data);
    Uint32Inverse(U32(length) + data, length, data);
  }
}
