/**
The file attributes of packet.go, section 5 of draft-ietf-secsh-filexfer-02: which fields are
on the wire is told by flags, which the decoder is given.
*/
module FileStats {
  import opened Basics
  import opened Wire

  const ATTR_SIZE := 1
  const ATTR_UIDGID := 2
  const ATTR_PERMISSIONS := 4
  const ATTR_ACMODTIME := 8
  const ATTR_EXTENDED := 0x8000_0000

  datatype Extended = Extended(typ: seq<byte>, data: seq<byte>)

  datatype FileStat = FileStat(size: uint64, uid: uint32, gid: uint32, mode: uint32,
                               atime: uint32, mtime: uint32, extended: seq<Extended>)

  const ZERO_STAT := FileStat(0, 0, 0, 0, 0, 0, [])

  /** flags & bit != 0, for a power of two. */
  predicate Has(flags: uint32, bit: nat)
    requires bit > 0
  {
    flags / bit % 2 == 1
  }

  // ---------------------------------------------------------------- encoding

  ghost function EncodePairs(es: seq<Extended>): seq<byte> {
    if es == [] then [] else Str(es[0].typ) + Str(es[0].data) + EncodePairs(es[1..])
  }

  ghost function EncodeSize(flags: uint32, fs: FileStat): seq<byte> {
    if Has(flags, ATTR_SIZE) then U64(fs.size) else []
  }

  ghost function EncodeOwner(flags: uint32, fs: FileStat): seq<byte> {
    if Has(flags, ATTR_UIDGID) then U32(fs.uid) + U32(fs.gid) else []
  }

  ghost function EncodeMode(flags: uint32, fs: FileStat): seq<byte> {
    if Has(flags, ATTR_PERMISSIONS) then U32(fs.mode) else []
  }

  ghost function EncodeTimes(flags: uint32, fs: FileStat): seq<byte> {
    if Has(flags, ATTR_ACMODTIME) then U32(fs.atime) + U32(fs.mtime) else []
  }

  ghost function EncodeExtended(flags: uint32, fs: FileStat): seq<byte> {
    if Has(flags, ATTR_EXTENDED) then U32(|fs.extended| % TWO_32) + EncodePairs(fs.extended) else []
  }

  /** The fields in the order of the draft. */
  ghost function EncodeStat(flags: uint32, fs: FileStat): seq<byte> {
    EncodeSize(flags, fs) + EncodeOwner(flags, fs) + EncodeMode(flags, fs) + EncodeTimes(flags, fs)
    + EncodeExtended(flags, fs)
  }

  lemma {:induction false} EncodePairsAppend(es: seq<Extended>, e: Extended)
    ensures EncodePairs(es + [e]) == EncodePairs(es) + Str(e.typ) + Str(e.data)
  {
    if es == [] {
      assert es + [e] == [e] && [e][1..] == [];
    } else {
      EncodePairsAppend(es[1..], e);
      assert (es + [e])[1..] == es[1..] + [e] && (es + [e])[0] == es[0];
      assert Str(es[0].typ) + Str(es[0].data) + (EncodePairs(es[1..]) + Str(e.typ) + Str(e.data))
          == Str(es[0].typ) + Str(es[0].data) + EncodePairs(es[1..]) + Str(e.typ) + Str(e.data);
    }
  }

  lemma Reassociate(a: seq<byte>, b: seq<byte>, c: seq<byte>)
    ensures a + b + c == a + (b + c)
  {}

  /** The fields in turn, the variable-length one last. */
  method MarshalFileStat(b0: seq<byte>, flags: uint32, fs: FileStat) returns (b: seq<byte>)
    ensures b == b0 + EncodeStat(flags, fs)
  {
    b := MarshalOwned(b0, flags, fs);
    if Has(flags, ATTR_PERMISSIONS) {
      b := MarshalUint32(b, fs.mode);
    }
    ghost var front := EncodeSize(flags, fs) + EncodeOwner(flags, fs) + EncodeMode(flags, fs);
    assert b == b0 + front;
    ghost var b3 := b;
    if Has(flags, ATTR_ACMODTIME) {
      b := MarshalUint32(b, fs.atime);
      b := MarshalUint32(b, fs.mtime);
    }
    assert b == b3 + EncodeTimes(flags, fs);
    if Has(flags, ATTR_EXTENDED) {
      b := MarshalPairs(b, fs.extended);
    }
    FrontFirst(b0, front, EncodeTimes(flags, fs), EncodeExtended(flags, fs));
  }

  lemma FrontFirst(a: seq<byte>, b: seq<byte>, c: seq<byte>, d: seq<byte>)
    ensures a + b + c + d == a + (b + c + d)
    ensures a + b + c + [] == a + b + c
  {}

  method MarshalOwned(b0: seq<byte>, flags: uint32, fs: FileStat) returns (b: seq<byte>)
    ensures b == b0 + (EncodeSize(flags, fs) + EncodeOwner(flags, fs))
  {
    b := b0;
    if Has(flags, ATTR_SIZE) {
      b := MarshalUint64(b, fs.size);
    }
    if Has(flags, ATTR_UIDGID) {
      b := MarshalUint32(b, fs.uid);
      b := MarshalUint32(b, fs.gid);
    }
  }

  method MarshalPairs(b0: seq<byte>, es: seq<Extended>) returns (b: seq<byte>)
    ensures b == b0 + (U32(|es| % TWO_32) + EncodePairs(es))
  {
    b := MarshalUint32(b0, |es| % TWO_32);
    ghost var b1 := b;
    for i := 0 to |es|
      invariant b == b1 + EncodePairs(es[..i])
    {
      b := MarshalString(b, es[i].typ);
      b := MarshalString(b, es[i].data);
      EncodePairsAppend(es[..i], es[i]);
      assert es[..i + 1] == es[..i] + [es[i]];
    }
    assert es[..|es|] == es;
  }

  // ---------------------------------------------------------------- decoding

  function DecodePair(b: seq<byte>): Parsed<Extended> {
    match UnmarshalStringSafe(b)
    case Short => Short
    case Parsed(typ, r) =>
      match UnmarshalStringSafe(r)
      case Short => Short
      case Parsed(data, r') => Parsed(Extended(typ, data), r')
  }

  function DecodePairs(n: nat, b: seq<byte>): Parsed<seq<Extended>> {
    if n == 0 then Parsed([], b)
    else match DecodePair(b)
      case Short => Short
      case Parsed(e, r) => Prepend([e], DecodePairs(n - 1, r))
  }

  function Prepend(es: seq<Extended>, p: Parsed<seq<Extended>>): Parsed<seq<Extended>> {
    match p
    case Short => Short
    case Parsed(more, r) => Parsed(es + more, r)
  }

  lemma PrependNone(p: Parsed<seq<Extended>>)
    ensures Prepend([], p) == p
  {
    if p.Parsed? { assert [] + p.value == p.value; }
  }

  lemma PrependTwice(es: seq<Extended>, e: Extended, p: Parsed<seq<Extended>>)
    ensures Prepend(es, Prepend([e], p)) == Prepend(es + [e], p)
  {
    if p.Parsed? { assert es + ([e] + p.value) == es + [e] + p.value; }
  }

  function DecodeSize(flags: uint32, fs: FileStat, b: seq<byte>): Parsed<FileStat> {
    if !Has(flags, ATTR_SIZE) then Parsed(fs, b)
    else match UnmarshalUint64Safe(b)
      case Short => Short
      case Parsed(v, r) => Parsed(fs.(size := v), r)
  }

  function DecodeTwo(b: seq<byte>): Parsed<(uint32, uint32)> {
    match UnmarshalUint32Safe(b)
    case Short => Short
    case Parsed(v, r) =>
      match UnmarshalUint32Safe(r)
      case Short => Short
      case Parsed(w, r') => Parsed((v, w), r')
  }

  function DecodeOwner(flags: uint32, fs: FileStat, b: seq<byte>): Parsed<FileStat> {
    if !Has(flags, ATTR_UIDGID) then Parsed(fs, b)
    else match DecodeTwo(b)
      case Short => Short
      case Parsed(v, r) => Parsed(fs.(uid := v.0, gid := v.1), r)
  }

  function DecodeMode(flags: uint32, fs: FileStat, b: seq<byte>): Parsed<FileStat> {
    if !Has(flags, ATTR_PERMISSIONS) then Parsed(fs, b)
    else match UnmarshalUint32Safe(b)
      case Short => Short
      case Parsed(v, r) => Parsed(fs.(mode := v), r)
  }

  function DecodeTimes(flags: uint32, fs: FileStat, b: seq<byte>): Parsed<FileStat> {
    if !Has(flags, ATTR_ACMODTIME) then Parsed(fs, b)
    else match DecodeTwo(b)
      case Short => Short
      case Parsed(v, r) => Parsed(fs.(atime := v.0, mtime := v.1), r)
  }

  /** A count, and that many pairs. */
  function DecodeCounted(b: seq<byte>): Parsed<seq<Extended>> {
    match UnmarshalUint32Safe(b)
    case Short => Short
    case Parsed(n, r) => DecodePairs(n, r)
  }

  function DecodeExtended(flags: uint32, fs: FileStat, b: seq<byte>): Parsed<FileStat> {
    if !Has(flags, ATTR_EXTENDED) then Parsed(fs, b)
    else match DecodeCounted(b)
      case Short => Short
      case Parsed(es, r) => Parsed(fs.(extended := es), r)
  }

  /** The fixed-size fields. */
  function DecodeFixed(flags: uint32, b: seq<byte>): Parsed<FileStat> {
    match DecodeSize(flags, ZERO_STAT, b)
    case Short => Short
    case Parsed(s1, b1) =>
      match DecodeOwner(flags, s1, b1)
      case Short => Short
      case Parsed(s2, b2) =>
        match DecodeMode(flags, s2, b2)
        case Short => Short
        case Parsed(s3, b3) => DecodeTimes(flags, s3, b3)
  }

  function DecodeStat(flags: uint32, b: seq<byte>): Parsed<FileStat> {
    match DecodeFixed(flags, b)
    case Short => Short
    case Parsed(s, r) => DecodeExtended(flags, s, r)
  }

  /** The loop over the extended attributes, from `count` strings pairs on. */
  method UnmarshalPairs(count: uint32, b0: seq<byte>) returns (p: Parsed<seq<Extended>>)
    ensures p == DecodePairs(count, b0)
  {
    var b := b0;
    var ext := [];
    PrependNone(DecodePairs(count, b));
    for i := 0 to count
      invariant DecodePairs(count, b0) == Prepend(ext, DecodePairs(count - i, b))
    {
      var typ := UnmarshalStringSafe(b);
      if typ.Short? { return Short; }
      var data := UnmarshalStringSafe(typ.rest);
      if data.Short? { return Short; }
      var e := Extended(typ.value, data.value);
      PrependTwice(ext, e, DecodePairs(count - i - 1, data.rest));
      b, ext := data.rest, ext + [e];
    }
    assert ext + [] == ext;
    return Parsed(ext, b);
  }

  method UnmarshalFileStat(flags: uint32, b0: seq<byte>) returns (p: Parsed<FileStat>)
    ensures p == DecodeStat(flags, b0)
  {
    var b, fs := b0, ZERO_STAT;
    if Has(flags, ATTR_SIZE) {
      var v := UnmarshalUint64Safe(b);
      if v.Short? { return Short; }
      fs, b := fs.(size := v.value), v.rest;
    }
    if Has(flags, ATTR_UIDGID) {
      var v := UnmarshalUint32Safe(b);
      if v.Short? { return Short; }
      var w := UnmarshalUint32Safe(v.rest);
      if w.Short? { return Short; }
      fs, b := fs.(uid := v.value, gid := w.value), w.rest;
    }
    if Has(flags, ATTR_PERMISSIONS) {
      var v := UnmarshalUint32Safe(b);
      if v.Short? { return Short; }
      fs, b := fs.(mode := v.value), v.rest;
    }
    if Has(flags, ATTR_ACMODTIME) {
      var v := UnmarshalUint32Safe(b);
      if v.Short? { return Short; }
      var w := UnmarshalUint32Safe(v.rest);
      if w.Short? { return Short; }
      fs, b := fs.(atime := v.value, mtime := w.value), w.rest;
    }
    if Has(flags, ATTR_EXTENDED) {
      var count := UnmarshalUint32Safe(b);
      if count.Short? { return Short; }
      var ext := UnmarshalPairs(count.value, count.rest);
      if ext.Short? { return Short; }
      fs, b := fs.(extended := ext.value), ext.rest;
    }
    return Parsed(fs, b);
  }

  // ---------------------------------------------------------------- the round trip

  ghost predicate PairsFit(es: seq<Extended>) {
    forall i :: 0 <= i < |es| ==> |es[i].typ| < TWO_32 && |es[i].data| < TWO_32
  }

  /** Fields without their flag are zero, and counts and lengths fit 32 bits. */
  ghost predicate Plain(flags: uint32, fs: FileStat) {
    && (!Has(flags, ATTR_SIZE) ==> fs.size == 0)
    && (!Has(flags, ATTR_UIDGID) ==> fs.uid == 0 && fs.gid == 0)
    && (!Has(flags, ATTR_PERMISSIONS) ==> fs.mode == 0)
    && (!Has(flags, ATTR_ACMODTIME) ==> fs.atime == 0 && fs.mtime == 0)
    && (!Has(flags, ATTR_EXTENDED) ==> fs.extended == [])
    && |fs.extended| < TWO_32 && PairsFit(fs.extended)
  }

  lemma PairInverse(b: seq<byte>, e: Extended, rest: seq<byte>)
    ensures DecodePair(b) == Parsed(e, rest)
       <==> |e.typ| < TWO_32 && |e.data| < TWO_32 && b == Str(e.typ) + Str(e.data) + rest
  {
    assert Str(e.typ) + Str(e.data) + rest == Str(e.typ) + (Str(e.data) + rest);
    StringInverse(b, e.typ, Str(e.data) + rest);
    match UnmarshalStringSafe(b)
    case Short =>
    case Parsed(typ, r) =>
      StringInverse(b, typ, r);
      StringInverse(r, e.data, rest);
  }

  /** What was decoded fits, and encodes to the bytes taken. */
  ghost predicate Reencodes(p: Parsed<seq<Extended>>, n: nat, b: seq<byte>) {
    p.Parsed? ==> |p.value| == n && PairsFit(p.value) && b == EncodePairs(p.value) + p.rest
  }

  lemma {:induction false} DecodedPairs(n: nat, b: seq<byte>)
    ensures Reencodes(DecodePairs(n, b), n, b)
    decreases n
  {
    if n == 0 {
      assert EncodePairs([]) + b == b;
    } else if DecodePair(b).Parsed? {
      DecodedPairs(n - 1, DecodePair(b).rest);
      DecodedNext(DecodePairs(n - 1, DecodePair(b).rest), n, b, DecodePair(b).value, DecodePair(b).rest);
    }
  }

  lemma {:induction false} DecodedNext(more: Parsed<seq<Extended>>, n: nat, b: seq<byte>, e: Extended, r: seq<byte>)
    requires n > 0 && DecodePair(b) == Parsed(e, r) && Reencodes(more, n - 1, r)
    ensures Reencodes(Prepend([e], more), n, b)
  {
    if more.Parsed? { PairInFront(b, e, r, more.value, more.rest); }
  }

  /** A pair decoded in front of decoded pairs. */
  lemma {:induction false} PairInFront(b: seq<byte>, e: Extended, r: seq<byte>, es: seq<Extended>, rest: seq<byte>)
    requires DecodePair(b) == Parsed(e, r) && r == EncodePairs(es) + rest && PairsFit(es)
    ensures PairsFit([e] + es) && b == EncodePairs([e] + es) + rest
  {
    PairInverse(b, e, r);
    EncodePairsPrepend(e, es, rest);
    PairsFitPrepend(e, es);
  }

  lemma {:induction false} EncodedPairs(es: seq<Extended>, rest: seq<byte>)
    requires PairsFit(es)
    ensures DecodePairs(|es|, EncodePairs(es) + rest) == Parsed(es, rest)
    decreases |es|
  {
    if es == [] {
      assert EncodePairs([]) + rest == rest;
    } else {
      var e, more := es[0], es[1..];
      assert es == [e] + more;
      FrontPair(e, more, rest);
      EncodedPairs(more, rest);
      DecodeFront(|more|, EncodePairs([e] + more) + rest, e, EncodePairs(more) + rest, more, rest);
    }
  }

  lemma {:induction false} DecodeFront(n: nat, b: seq<byte>, e: Extended, r: seq<byte>,
                                       es: seq<Extended>, rest: seq<byte>)
    requires DecodePair(b) == Parsed(e, r) && DecodePairs(n, r) == Parsed(es, rest)
    ensures DecodePairs(n + 1, b) == Parsed([e] + es, rest)
  {}

  /** The front pair is decoded first. */
  lemma {:induction false} FrontPair(e: Extended, more: seq<Extended>, rest: seq<byte>)
    requires PairsFit([e] + more)
    ensures PairsFit(more) && DecodePair(EncodePairs([e] + more) + rest) == Parsed(e, EncodePairs(more) + rest)
  {
    PairsFitPrepend(e, more);
    EncodePairsPrepend(e, more, rest);
    PairInverse(EncodePairs([e] + more) + rest, e, EncodePairs(more) + rest);
  }

  lemma PairsFitPrepend(e: Extended, more: seq<Extended>)
    ensures PairsFit([e] + more) <==> |e.typ| < TWO_32 && |e.data| < TWO_32 && PairsFit(more)
  {
    assert ([e] + more)[0] == e;
    forall i | 0 <= i < |more| ensures ([e] + more)[i + 1] == more[i] {}
  }

  lemma EncodePairsPrepend(e: Extended, more: seq<Extended>, rest: seq<byte>)
    ensures EncodePairs([e] + more) + rest == Str(e.typ) + Str(e.data) + (EncodePairs(more) + rest)
  {
    assert ([e] + more)[1..] == more && ([e] + more)[0] == e;
  }

  lemma PairsInverse(n: nat, b: seq<byte>, es: seq<Extended>, rest: seq<byte>)
    ensures DecodePairs(n, b) == Parsed(es, rest) <==> |es| == n && PairsFit(es) && b == EncodePairs(es) + rest
  {
    DecodedPairs(n, b);
    if PairsFit(es) { EncodedPairs(es, rest); }
  }

  lemma TwoInverse(b: seq<byte>, v: uint32, w: uint32, rest: seq<byte>)
    ensures DecodeTwo(b) == Parsed((v, w), rest) <==> b == U32(v) + U32(w) + rest
  {
    assert U32(v) + U32(w) + rest == U32(v) + (U32(w) + rest);
    Uint32Inverse(b, v, U32(w) + rest);
    match UnmarshalUint32Safe(b)
    case Short =>
    case Parsed(x, r) =>
      Uint32Inverse(b, x, r);
      Uint32Inverse(r, w, rest);
  }

  /** One after the other, with the field values the decoder has by then. */
  lemma SizeInverse(flags: uint32, s: FileStat, b: seq<byte>, fs: FileStat, rest: seq<byte>)
    ensures DecodeSize(flags, s, b) == Parsed(fs, rest)
       <==> fs == (if Has(flags, ATTR_SIZE) then s.(size := fs.size) else s) && b == EncodeSize(flags, fs) + rest
  {
    Uint64Inverse(b, fs.size, rest);
    assert [] + rest == rest;
  }

  lemma OwnerInverse(flags: uint32, s: FileStat, b: seq<byte>, fs: FileStat, rest: seq<byte>)
    ensures DecodeOwner(flags, s, b) == Parsed(fs, rest)
       <==> fs == (if Has(flags, ATTR_UIDGID) then s.(uid := fs.uid, gid := fs.gid) else s)
            && b == EncodeOwner(flags, fs) + rest
  {
    TwoInverse(b, fs.uid, fs.gid, rest);
    assert [] + rest == rest;
  }

  lemma ModeInverse(flags: uint32, s: FileStat, b: seq<byte>, fs: FileStat, rest: seq<byte>)
    ensures DecodeMode(flags, s, b) == Parsed(fs, rest)
       <==> fs == (if Has(flags, ATTR_PERMISSIONS) then s.(mode := fs.mode) else s)
            && b == EncodeMode(flags, fs) + rest
  {
    Uint32Inverse(b, fs.mode, rest);
    assert [] + rest == rest;
  }

  lemma TimesInverse(flags: uint32, s: FileStat, b: seq<byte>, fs: FileStat, rest: seq<byte>)
    ensures DecodeTimes(flags, s, b) == Parsed(fs, rest)
       <==> fs == (if Has(flags, ATTR_ACMODTIME) then s.(atime := fs.atime, mtime := fs.mtime) else s)
            && b == EncodeTimes(flags, fs) + rest
  {
    TwoInverse(b, fs.atime, fs.mtime, rest);
    assert [] + rest == rest;
  }

  lemma ExtendedInverse(flags: uint32, s: FileStat, b: seq<byte>, fs: FileStat, rest: seq<byte>)
    ensures DecodeExtended(flags, s, b) == Parsed(fs, rest)
       <==> fs == (if Has(flags, ATTR_EXTENDED) then s.(extended := fs.extended) else s)
            && (Has(flags, ATTR_EXTENDED) ==> |fs.extended| < TWO_32 && PairsFit(fs.extended))
            && b == EncodeExtended(flags, fs) + rest
  {
    assert [] + rest == rest;
    CountedInverse(b, fs.extended, rest);
  }

  lemma CountedInverse(b: seq<byte>, es: seq<Extended>, rest: seq<byte>)
    ensures DecodeCounted(b) == Parsed(es, rest)
       <==> |es| < TWO_32 && PairsFit(es) && b == U32(|es| % TWO_32) + EncodePairs(es) + rest
  {
    if DecodeCounted(b).Parsed? {
      DecodedCount(b);
    }
    if |es| < TWO_32 {
      var n: uint32 := |es|;
      assert n % TWO_32 == n;
      if PairsFit(es) && b == U32(n) + EncodePairs(es) + rest { EncodedCount(es, rest); }
    }
  }

  lemma DecodedCount(b: seq<byte>)
    requires DecodeCounted(b).Parsed?
    ensures var p := DecodeCounted(b);
            |p.value| < TWO_32 && PairsFit(p.value) && b == U32(|p.value|) + EncodePairs(p.value) + p.rest
  {
    var n, r := Uint32At(b), b[4..];
    var p := DecodePairs(n, r);
    Uint32Inverse(b, n, r);
    DecodedPairs(n, r);
    Reassociate(U32(n), EncodePairs(p.value), p.rest);
  }

  lemma EncodedCount(es: seq<Extended>, rest: seq<byte>)
    requires |es| < TWO_32 && PairsFit(es)
    ensures DecodeCounted(U32(|es|) + EncodePairs(es) + rest) == Parsed(es, rest)
  {
    var tail := EncodePairs(es) + rest;
    Reassociate(U32(|es|), EncodePairs(es), rest);
    Uint32Inverse(U32(|es|) + tail, |es|, tail);
    EncodedPairs(es, rest);
  }

  // ---------------------------------------------------------------- theorems

  /** What the fields are once the fixed-size ones are read: the flagged ones. */
  function FixedPart(flags: uint32, fs: FileStat): FileStat {
    FileStat(if Has(flags, ATTR_SIZE) then fs.size else 0,
             if Has(flags, ATTR_UIDGID) then fs.uid else 0, if Has(flags, ATTR_UIDGID) then fs.gid else 0,
             if Has(flags, ATTR_PERMISSIONS) then fs.mode else 0,
             if Has(flags, ATTR_ACMODTIME) then fs.atime else 0, if Has(flags, ATTR_ACMODTIME) then fs.mtime else 0,
             [])
  }

  ghost function EncodeFixed(flags: uint32, fs: FileStat): seq<byte> {
    EncodeSize(flags, fs) + (EncodeOwner(flags, fs) + (EncodeMode(flags, fs) + EncodeTimes(flags, fs)))
  }

  lemma DecodedFixed(flags: uint32, b: seq<byte>)
    requires DecodeFixed(flags, b).Parsed?
    ensures var p := DecodeFixed(flags, b);
            p.value == FixedPart(flags, p.value) && b == EncodeFixed(flags, p.value) + p.rest
  {
    var s1 := DecodeSize(flags, ZERO_STAT, b);
    var s2 := DecodeOwner(flags, s1.value, s1.rest);
    var s3 := DecodeMode(flags, s2.value, s2.rest);
    var s4 := DecodeTimes(flags, s3.value, s3.rest);
    SizeInverse(flags, ZERO_STAT, b, s1.value, s1.rest);
    OwnerInverse(flags, s1.value, s1.rest, s2.value, s2.rest);
    ModeInverse(flags, s2.value, s2.rest, s3.value, s3.rest);
    TimesInverse(flags, s3.value, s3.rest, s4.value, s4.rest);
    InTurn(EncodeSize(flags, s4.value), EncodeOwner(flags, s4.value), EncodeMode(flags, s4.value),
           EncodeTimes(flags, s4.value), s4.rest);
  }

  lemma EncodedFixed(flags: uint32, fs: FileStat, rest: seq<byte>)
    ensures DecodeFixed(flags, EncodeFixed(flags, fs) + rest) == Parsed(FixedPart(flags, fs), rest)
  {
    var s1 := ZERO_STAT.(size := if Has(flags, ATTR_SIZE) then fs.size else 0);
    var s2 := s1.(uid := if Has(flags, ATTR_UIDGID) then fs.uid else 0,
                  gid := if Has(flags, ATTR_UIDGID) then fs.gid else 0);
    var s3 := s2.(mode := if Has(flags, ATTR_PERMISSIONS) then fs.mode else 0);
    var s4 := FixedPart(flags, fs);
    var r3 := EncodeTimes(flags, fs) + rest;
    var r2 := EncodeMode(flags, fs) + r3;
    var r1 := EncodeOwner(flags, fs) + r2;
    InTurn(EncodeSize(flags, fs), EncodeOwner(flags, fs), EncodeMode(flags, fs), EncodeTimes(flags, fs), rest);
    SizeInverse(flags, ZERO_STAT, EncodeSize(flags, fs) + r1, s1, r1);
    OwnerInverse(flags, s1, r1, s2, r2);
    ModeInverse(flags, s2, r2, s3, r3);
    TimesInverse(flags, s3, r3, s4, rest);
  }

  lemma InTurn(a: seq<byte>, b: seq<byte>, c: seq<byte>, d: seq<byte>, rest: seq<byte>)
    ensures a + (b + (c + d)) + rest == a + (b + (c + (d + rest)))
  {}

  /** The decoder inverts the encoder, and the encoder the decoder: what is decoded are exactly
      the plain attributes whose encoding the bytes start with. */
  lemma StatInverse(flags: uint32, b: seq<byte>, fs: FileStat, rest: seq<byte>)
    ensures DecodeStat(flags, b) == Parsed(fs, rest) <==> Plain(flags, fs) && b == EncodeStat(flags, fs) + rest
  {
    var tail := EncodeExtended(flags, fs) + rest;
    StatParts(flags, fs, rest);
    if DecodeFixed(flags, b).Parsed? {
      var p := DecodeFixed(flags, b);
      DecodedFixed(flags, b);
      ExtendedInverse(flags, p.value, p.rest, fs, rest);
    }
    if b == EncodeStat(flags, fs) + rest {
      EncodedFixed(flags, fs, tail);
      ExtendedInverse(flags, FixedPart(flags, fs), tail, fs, rest);
    }
  }

  lemma StatParts(flags: uint32, fs: FileStat, rest: seq<byte>)
    ensures EncodeStat(flags, fs) + rest == EncodeFixed(flags, fs) + (EncodeExtended(flags, fs) + rest)
  {
    var a, b, c, d := EncodeSize(flags, fs), EncodeOwner(flags, fs), EncodeMode(flags, fs), EncodeTimes(flags, fs);
    assert a + b + c + d == a + (b + (c + d));
    Reassociate(EncodeFixed(flags, fs), EncodeExtended(flags, fs), rest);
  }

  // ---------------------------------------------------------------- on the wire

  /** Each flag's field alone: flag 1 the size, flag 2 owner and group, flag 4 the mode, flag 8
      access and modification time, and the top flag the counted pairs. */
  lemma SizeAlone(fs: FileStat)
    ensures EncodeStat(0, fs) == [] && EncodeStat(1, fs) == U64(fs.size)
  {}

  lemma OwnerAlone(fs: FileStat)
    ensures EncodeStat(2, fs) == U32(fs.uid) + U32(fs.gid)
  {}

  lemma ModeAlone(fs: FileStat)
    ensures EncodeStat(4, fs) == U32(fs.mode)
  {}

  lemma TimesAlone(fs: FileStat)
    ensures EncodeStat(8, fs) == U32(fs.atime) + U32(fs.mtime)
  {}

  lemma PairsAlone(fs: FileStat)
    ensures EncodeStat(0x8000_0000, fs) == U32(|fs.extended| % TWO_32) + EncodePairs(fs.extended)
  {}

  /** All the fields at once come in the order of their flags. */
  lemma FieldOrder(fs: FileStat)
    ensures EncodeStat(0x8000_000F, fs) ==
            U64(fs.size) + (U32(fs.uid) + U32(fs.gid)) + U32(fs.mode) + (U32(fs.atime) + U32(fs.mtime))
            + (U32(|fs.extended| % TWO_32) + EncodePairs(fs.extended))
  {
    assert Has(0x8000_000F, 1) && Has(0x8000_000F, 2) && Has(0x8000_000F, 4) && Has(0x8000_000F, 8);
    assert Has(0x8000_000F, 0x8000_0000);
  }

  /** The pairs in bytes: each is two strings behind their lengths. */
  lemma {:induction false} PairBytes(x: byte, y: byte)
    ensures EncodePairs([Extended([x], [y])]) == [0, 0, 0, 1, x, 0, 0, 0, 1, y]
  {
    SmallNumbers(1);
    var one := [Extended([x], [y])];
    assert one[1..] == [] && EncodePairs(one[1..]) == [];
    assert EncodePairs(one) == Str([x]) + Str([y]) + EncodePairs(one[1..]);
  }
}
