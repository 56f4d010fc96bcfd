/**
The attributes of internal/encoding/ssh/filexfer/attrs.go: the same wire format as packet.go,
written into and read from a marshalling buffer. Both decoders accept the same bytes and find
the same attributes, and both encoders write the same bytes.
*/
module AttributeCodec {
  import opened Basics
  import opened Wire
  import opened FileStats
  import opened Buffers

  /** unmarshalAttrs: the flags, then the fields they name. */
  function DecodeAttrs(b: seq<byte>): Parsed<(uint32, FileStat)> {
    match UnmarshalUint32Safe(b)
    case Short => Short
    case Parsed(flags, r) =>
      match DecodeStat(flags, r)
      case Short => Short
      case Parsed(fs, r') => Parsed((flags, fs), r')
  }

  lemma AttrsInverse(b: seq<byte>, flags: uint32, fs: FileStat, rest: seq<byte>)
    ensures DecodeAttrs(b) == Parsed((flags, fs), rest)
       <==> Plain(flags, fs) && b == U32(flags) + EncodeStat(flags, fs) + rest
  {
    Reassociate(U32(flags), EncodeStat(flags, fs), rest);
    Uint32Inverse(b, flags, EncodeStat(flags, fs) + rest);
    if |b| >= 4 {
      Uint32Inverse(b, Uint32At(b), b[4..]);
      StatInverse(flags, b[4..], fs, rest);
    }
  }

  /** The fields named by the flags are equal. */
  predicate Agree(flags: uint32, x: FileStat, y: FileStat) {
    && (Has(flags, ATTR_SIZE) ==> x.size == y.size)
    && (Has(flags, ATTR_UIDGID) ==> x.uid == y.uid && x.gid == y.gid)
    && (Has(flags, ATTR_PERMISSIONS) ==> x.mode == y.mode)
    && (Has(flags, ATTR_ACMODTIME) ==> x.atime == y.atime && x.mtime == y.mtime)
    && (Has(flags, ATTR_EXTENDED) ==> x.extended == y.extended)
  }

  method MarshalExtended(e: Extended, buf: Buffer)
    modifies buf`b
    ensures buf.b == old(buf.b) + Str(e.typ) + Str(e.data)
  {
    buf.AppendByteSlice(e.typ);
    buf.AppendByteSlice(e.data);
  }

  method UnmarshalExtended(buf: Buffer) returns (e: Extended)
    requires buf.Valid()
    modifies buf`off, buf`err
    ensures var p := DecodePair(old(buf.Bytes()));
            buf.Consumed(p) && (old(buf.err).None? && p.Parsed? ==> e == p.value)
  {
    var typ := buf.ConsumeByteSlice();
    var data := buf.ConsumeByteSlice();
    return Extended(typ, data);
  }

  class Attributes {
    var flags: uint32
    var size: uint64
    var uid: uint32
    var gid: uint32
    var permissions: uint32
    var atime: uint32
    var mtime: uint32
    var extended: seq<Extended>

    function Stat(): FileStat
      reads this
    {
      FileStat(size, uid, gid, permissions, atime, mtime, extended)
    }

    constructor (flags: uint32, fs: FileStat)
      ensures this.flags == flags && Stat() == fs
    {
      this.flags := flags;
      size, uid, gid, permissions := fs.size, fs.uid, fs.gid, fs.mode;
      atime, mtime, extended := fs.atime, fs.mtime, fs.extended;
    }

    /** The number of bytes MarshalInto writes. */
    method Len() returns (length: nat)
      ensures length == |U32(flags) + EncodeStat(flags, Stat())|
    {
      length := 4;
      if Has(flags, ATTR_SIZE) { length := length + 8; }
      if Has(flags, ATTR_UIDGID) { length := length + 4 + 4; }
      if Has(flags, ATTR_PERMISSIONS) { length := length + 4; }
      if Has(flags, ATTR_ACMODTIME) { length := length + 4 + 4; }
      if Has(flags, ATTR_EXTENDED) {
        length := length + 4;
        ghost var before := length;
        for i := 0 to |extended|
          invariant length == before + |EncodePairs(extended[..i])|
        {
          EncodePairsAppend(extended[..i], extended[i]);
          assert extended[..i + 1] == extended[..i] + [extended[i]];
          length := length + 4 + |extended[i].typ| + 4 + |extended[i].data|;
        }
        assert extended[..|extended|] == extended;
      }
    }

    method MarshalInto(buf: Buffer)
      modifies buf`b
      ensures buf.b == old(buf.b) + (U32(flags) + EncodeStat(flags, Stat()))
    {
      buf.AppendUint32(flags);
      MarshalOwned(buf);
      MarshalPlain(buf);
      if Has(flags, ATTR_EXTENDED) {
        MarshalList(buf);
      }
      ghost var fs := Stat();
      Assemble(old(buf.b), U32(flags), EncodeSize(flags, fs) + EncodeOwner(flags, fs), EncodeMode(flags, fs),
               EncodeTimes(flags, fs), EncodeExtended(flags, fs));
    }

    method MarshalOwned(buf: Buffer)
      modifies buf`b
      ensures buf.b == old(buf.b) + (EncodeSize(flags, Stat()) + EncodeOwner(flags, Stat()))
    {
      if Has(flags, ATTR_SIZE) { buf.AppendUint64(size); }
      if Has(flags, ATTR_UIDGID) {
        buf.AppendUint32(uid);
        buf.AppendUint32(gid);
      }
    }

    method MarshalPlain(buf: Buffer)
      modifies buf`b
      ensures buf.b == old(buf.b) + EncodeMode(flags, Stat()) + EncodeTimes(flags, Stat())
    {
      if Has(flags, ATTR_PERMISSIONS) { buf.AppendUint32(permissions); }
      if Has(flags, ATTR_ACMODTIME) {
        buf.AppendUint32(atime);
        buf.AppendUint32(mtime);
      }
    }

    method MarshalList(buf: Buffer)
      modifies buf`b
      ensures buf.b == old(buf.b) + (U32(|extended| % TWO_32) + EncodePairs(extended))
    {
      buf.AppendUint32(|extended| % TWO_32);
      ghost var before := buf.b;
      for i := 0 to |extended|
        invariant buf.b == before + EncodePairs(extended[..i])
      {
        MarshalExtended(extended[i], buf);
        EncodePairsAppend(extended[..i], extended[i]);
        assert extended[..i + 1] == extended[..i] + [extended[i]];
      }
      assert extended[..|extended|] == extended;
    }

    /** Reads the fields the flags name; the others keep their values. It succeeds on the bytes
        on which packet.go's decoder does, with what that one finds and leaves. */
    method UnmarshalByFlags(flags: uint32, buf: Buffer) returns (e: Option<BufferError>)
      requires buf.Valid()
      modifies this, buf`off, buf`err
      ensures this.flags == flags && e == buf.err
      ensures buf.Consumed(DecodeStat(flags, old(buf.Bytes())))
      ensures old(buf.err).None? && DecodeStat(flags, old(buf.Bytes())).Parsed? ==>
                && Agree(flags, Stat(), DecodeStat(flags, old(buf.Bytes())).value)
                && OthersKept(flags, old(Stat()), Stat())
    {
      this.flags := flags;
      OntoIsDecoding(flags, Stat(), buf.Bytes());
      if flags == 0 { return buf.err; }
      UnmarshalOwned(buf);
      UnmarshalPlain(buf);
      if Has(flags, ATTR_EXTENDED) {
        UnmarshalList(buf);
      }
      return buf.err;
    }

    /** Reads the flags first. */
    method UnmarshalFrom(buf: Buffer) returns (e: Option<BufferError>)
      requires buf.Valid()
      modifies this, buf`off, buf`err
      ensures e == buf.err && buf.Consumed(DecodeAttrs(old(buf.Bytes())))
      ensures var p := DecodeAttrs(old(buf.Bytes()));
              old(buf.err).None? && p.Parsed? ==> flags == p.value.0 && Agree(flags, Stat(), p.value.1)
    {
      ghost var b := buf.Bytes();
      var f := buf.ConsumeUint32();
      if buf.err.Some? { OntoIsDecoding(f, ZERO_STAT, buf.Bytes()); }
      e := UnmarshalByFlags(f, buf);
    }

    method UnmarshalOwned(buf: Buffer)
      requires buf.Valid()
      modifies this`size, this`uid, this`gid, buf`off, buf`err
      ensures buf.Consumed(OwnedOnto(flags, old(Stat()), old(buf.Bytes())))
      ensures var p := OwnedOnto(flags, old(Stat()), old(buf.Bytes()));
              old(buf.err).None? && p.Parsed? ==> Stat() == p.value
    {
      if Has(flags, ATTR_SIZE) { size := buf.ConsumeUint64(); }
      if Has(flags, ATTR_UIDGID) {
        uid := buf.ConsumeUint32();
        gid := buf.ConsumeUint32();
      }
    }

    method UnmarshalPlain(buf: Buffer)
      requires buf.Valid()
      modifies this`permissions, this`atime, this`mtime, buf`off, buf`err
      ensures buf.Consumed(PlainOnto(flags, old(Stat()), old(buf.Bytes())))
      ensures var p := PlainOnto(flags, old(Stat()), old(buf.Bytes()));
              old(buf.err).None? && p.Parsed? ==> Stat() == p.value
    {
      if Has(flags, ATTR_PERMISSIONS) { permissions := buf.ConsumeUint32(); }
      if Has(flags, ATTR_ACMODTIME) {
        atime := buf.ConsumeUint32();
        mtime := buf.ConsumeUint32();
      }
    }

    /** The count and the pairs; after an error the rest of the list is filled with blanks. */
    method UnmarshalList(buf: Buffer)
      requires buf.Valid()
      modifies this`extended, buf`off, buf`err
      ensures var p := DecodeCounted(old(buf.Bytes()));
              buf.Consumed(p) && (old(buf.err).None? && p.Parsed? ==> extended == p.value)
    {
      var count := buf.ConsumeUint32();
      var blank := Extended([], []);
      extended := seq(count, i => blank);
      ghost var goal := DecodePairs(count, buf.Bytes());
      PrependNone(goal);
      UnmarshalEach(buf, count, goal);
    }

    /** The loop over the list. */
    method UnmarshalEach(buf: Buffer, count: nat, ghost goal: Parsed<seq<Extended>>)
      requires buf.Valid() && |extended| == count
      requires buf.err.Some? ==> count == 0
      requires buf.err.None? ==> PairsLeft(buf, goal, [], count)
      modifies this`extended, buf`off, buf`err
      ensures buf.Valid() && buf.b == old(buf.b)
      ensures old(buf.err).Some? ==> buf.off == old(buf.off) && buf.err == old(buf.err)
      ensures old(buf.err).None? ==> PairsLeft(buf, goal, extended, 0)
    {
      ghost var ok, done := buf.err.None?, [];
      for i := 0 to count
        invariant |extended| == count && done == extended[..i]
        invariant buf.Valid() && buf.b == old(buf.b)
        invariant !ok ==> buf.off == old(buf.off) && buf.err == old(buf.err)
        invariant ok ==> PairsLeft(buf, goal, done, count - i)
      {
        var e := UnmarshalNext(buf, goal, done, count - i);
        TakeUpdated(extended, i, e);
        extended, done := extended[i := e], done + [e];
      }
      assert extended[..count] == extended;
    }

    method UnmarshalNext(buf: Buffer, ghost goal: Parsed<seq<Extended>>, ghost done: seq<Extended>, ghost left: nat)
      returns (e: Extended)
      requires buf.Valid() && left > 0 && PairsLeft(buf, goal, done, left)
      modifies buf`off, buf`err
      ensures buf.Valid() && buf.b == old(buf.b) && PairsLeft(buf, goal, done + [e], left - 1)
    {
      PairsStep(buf.Bytes(), done, left);
      e := UnmarshalExtended(buf);
    }

    /** With `done` read and `left` pairs to go, the buffer is on its way to `goal`. */
    ghost predicate PairsLeft(buf: Buffer, goal: Parsed<seq<Extended>>, done: seq<Extended>, left: nat)
      requires buf.Valid()
      reads buf
    {
      if buf.err.None? then goal == Prepend(done, DecodePairs(left, buf.Bytes()))
      else goal == Short && buf.err == Some(ShortPacket) && buf.Bytes() == []
    }
  }

  lemma TakeUpdated(s: seq<Extended>, i: nat, e: Extended)
    requires i < |s|
    ensures s[i := e][..i + 1] == s[..i] + [e]
  {}

  lemma PairsStep(b: seq<byte>, done: seq<Extended>, left: nat)
    requires left > 0
    ensures match DecodePair(b)
            case Short => DecodePairs(left, b) == Short
            case Parsed(e, r) =>
              Prepend(done, DecodePairs(left, b)) == Prepend(done + [e], DecodePairs(left - 1, r))
  {
    if DecodePair(b).Parsed? {
      PrependTwice(done, DecodePair(b).value, DecodePairs(left - 1, DecodePair(b).rest));
    }
  }

  /** The fields the flags do not name are unchanged. */
  predicate OthersKept(flags: uint32, x: FileStat, y: FileStat) {
    && (!Has(flags, ATTR_SIZE) ==> x.size == y.size)
    && (!Has(flags, ATTR_UIDGID) ==> x.uid == y.uid && x.gid == y.gid)
    && (!Has(flags, ATTR_PERMISSIONS) ==> x.mode == y.mode)
    && (!Has(flags, ATTR_ACMODTIME) ==> x.atime == y.atime && x.mtime == y.mtime)
    && (!Has(flags, ATTR_EXTENDED) ==> x.extended == y.extended)
  }

  /** The two decoders, run on the same flags and bytes: the one succeeds exactly when the other
      ends without an error, with the same named fields and the same bytes left. */
  method DecodersAgree(flags: uint32, b: seq<byte>)
    returns (p: Parsed<FileStat>, e: Option<BufferError>, fs: FileStat, rest: seq<byte>)
    ensures p.Parsed? <==> e == None
    ensures p.Parsed? ==> Agree(flags, fs, p.value) && rest == p.rest
    ensures p.Short? ==> e == Some(ShortPacket) && rest == []
  {
    p := UnmarshalFileStat(flags, b);
    var buf := new Buffer(b);
    var a := new Attributes(0, ZERO_STAT);
    e := a.UnmarshalByFlags(flags, buf);
    fs, rest := a.Stat(), buf.Bytes();
  }

  /** The two encoders, run on the same attributes: the same bytes, as many as Len says. */
  method EncodersAgree(flags: uint32, fs: FileStat) returns (x: seq<byte>, y: seq<byte>, n: nat)
    ensures x == y == U32(flags) + EncodeStat(flags, fs) && |y| == n
  {
    x := MarshalUint32([], flags);
    x := MarshalFileStat(x, flags, fs);
    y, n := MarshalAttrs(flags, fs);
    assert [] + U32(flags) == U32(flags);
  }

  method MarshalAttrs(flags: uint32, fs: FileStat) returns (y: seq<byte>, n: nat)
    ensures y == U32(flags) + EncodeStat(flags, fs) && |y| == n
  {
    var a := new Attributes(flags, fs);
    n := a.Len();
    var buf := new Buffer([]);
    a.MarshalInto(buf);
    NothingBefore(buf.b, U32(flags) + EncodeStat(flags, fs));
    return buf.Bytes(), n;
  }

  lemma NothingBefore(b: seq<byte>, x: seq<byte>)
    requires b == [] + x
    ensures b[0..] == x
  {}

  // ---------------------------------------------------------------- directory entries

  datatype Entry = Entry(filename: seq<byte>, longname: seq<byte>, flags: uint32, stat: FileStat)

  ghost function EncodeEntry(e: Entry): seq<byte> {
    Str(e.filename) + Str(e.longname) + (U32(e.flags) + EncodeStat(e.flags, e.stat))
  }

  function DecodeEntry(b: seq<byte>): Parsed<Entry> {
    match DecodePair(b)
    case Short => Short
    case Parsed(names, r) =>
      match DecodeAttrs(r)
      case Short => Short
      case Parsed(a, r') => Parsed(Entry(names.typ, names.data, a.0, a.1), r')
  }

  /** An entry is decoded exactly from its encoding. */
  lemma EntryInverse(b: seq<byte>, e: Entry, rest: seq<byte>)
    ensures DecodeEntry(b) == Parsed(e, rest)
       <==> |e.filename| < TWO_32 && |e.longname| < TWO_32 && Plain(e.flags, e.stat) && b == EncodeEntry(e) + rest
  {
    var names := Extended(e.filename, e.longname);
    var attrs := U32(e.flags) + EncodeStat(e.flags, e.stat);
    Reassociate(Str(e.filename) + Str(e.longname), attrs, rest);
    PairInverse(b, names, attrs + rest);
    match DecodePair(b)
    case Short =>
    case Parsed(found, r) =>
      PairInverse(b, found, r);
      AttrsInverse(r, e.flags, e.stat, rest);
  }

  class NameEntry {
    var filename: seq<byte>
    var longname: seq<byte>
    var attrs: Attributes

    function Value(): Entry
      reads this, attrs
    {
      Entry(filename, longname, attrs.flags, attrs.Stat())
    }

    constructor (e: Entry)
      ensures Value() == e && fresh(attrs)
    {
      filename, longname := e.filename, e.longname;
      attrs := new Attributes(e.flags, e.stat);
    }

    method Len() returns (length: nat)
      ensures length == |EncodeEntry(Value())|
    {
      var a := attrs.Len();
      length := 4 + |filename| + 4 + |longname| + a;
    }

    method MarshalInto(buf: Buffer)
      modifies buf`b
      ensures buf.b == old(buf.b) + EncodeEntry(Value())
    {
      buf.AppendByteSlice(filename);
      buf.AppendByteSlice(longname);
      attrs.MarshalInto(buf);
    }

    /** Replaces the whole entry, attributes included. */
    method UnmarshalFrom(buf: Buffer) returns (e: Option<BufferError>)
      requires buf.Valid()
      modifies this, buf`off, buf`err
      ensures e == buf.err && buf.Consumed(DecodeEntry(old(buf.Bytes())))
      ensures e == None ==>
                var names := DecodePair(old(buf.Bytes()));
                && names.Parsed? && filename == names.value.typ && longname == names.value.data
                && DecodeAttrs(names.rest).Parsed? && Holds(DecodeAttrs(names.rest).value)
    {
      UnmarshalNames(buf);
      e := UnmarshalAttrs(buf);
    }

    predicate Holds(a: (uint32, FileStat))
      reads this, attrs
    {
      attrs.flags == a.0 && Agree(a.0, attrs.Stat(), a.1)
    }

    method UnmarshalAttrs(buf: Buffer) returns (e: Option<BufferError>)
      requires buf.Valid()
      modifies this`attrs, buf`off, buf`err
      ensures e == buf.err && buf.Consumed(DecodeAttrs(old(buf.Bytes())))
      ensures var p := DecodeAttrs(old(buf.Bytes()));
              old(buf.err).None? && p.Parsed? ==> Holds(p.value)
    {
      attrs := new Attributes(0, ZERO_STAT);
      e := attrs.UnmarshalFrom(buf);
    }

    method UnmarshalNames(buf: Buffer)
      requires buf.Valid()
      modifies this`filename, this`longname, buf`off, buf`err
      ensures var p := DecodePair(old(buf.Bytes()));
              && buf.Consumed(p)
              && (old(buf.err).None? && p.Parsed? ==> filename == p.value.typ && longname == p.value.data)
    {
      filename := buf.ConsumeByteSlice();
      longname := buf.ConsumeByteSlice();
    }
  }

  /** The decoder's first two and next two steps, starting from given attributes. */
  function OwnedOnto(flags: uint32, s: FileStat, b: seq<byte>): Parsed<FileStat> {
    match DecodeSize(flags, s, b)
    case Short => Short
    case Parsed(t, r) => DecodeOwner(flags, t, r)
  }

  function PlainOnto(flags: uint32, s: FileStat, b: seq<byte>): Parsed<FileStat> {
    match DecodeMode(flags, s, b)
    case Short => Short
    case Parsed(t, r) => DecodeTimes(flags, t, r)
  }

  function Onto(flags: uint32, s: FileStat, b: seq<byte>): Parsed<FileStat> {
    match OwnedOnto(flags, s, b)
    case Short => Short
    case Parsed(t, r) =>
      match PlainOnto(flags, t, r)
      case Short => Short
      case Parsed(u, r') => DecodeExtended(flags, u, r')
  }

  /** Decoding onto given attributes takes the same bytes as decoding from nothing, sets the
      fields the flags name to the same values and keeps the others. */
  lemma OntoIsDecoding(flags: uint32, s: FileStat, b: seq<byte>)
    ensures var p, q := Onto(flags, s, b), DecodeStat(flags, b);
            && (p.Parsed? <==> q.Parsed?)
            && (p.Parsed? ==> p.rest == q.rest && Agree(flags, p.value, q.value) && OthersKept(flags, s, p.value))
    ensures flags == 0 ==> Onto(flags, s, b) == Parsed(s, b)
  {
    StatIsOnto(flags, b);
    if flags == 0 { assert forall bit: nat :: bit > 0 ==> !Has(flags, bit); }
    var p1, q1 := OwnedOnto(flags, s, b), OwnedOnto(flags, ZERO_STAT, b);
    OwnedSame(flags, s, b);
    if p1.Parsed? {
      PlainSame(flags, p1.value, q1.value, p1.rest);
    }
  }

  lemma StatIsOnto(flags: uint32, b: seq<byte>)
    ensures DecodeStat(flags, b) == Onto(flags, ZERO_STAT, b)
  {}

  lemma OwnedSame(flags: uint32, s: FileStat, b: seq<byte>)
    ensures var p, q := OwnedOnto(flags, s, b), OwnedOnto(flags, ZERO_STAT, b);
            && (p.Parsed? <==> q.Parsed?)
            && (p.Parsed? ==>
                  && p.rest == q.rest
                  && p.value == s.(size := if Has(flags, ATTR_SIZE) then q.value.size else s.size,
                                   uid := if Has(flags, ATTR_UIDGID) then q.value.uid else s.uid,
                                   gid := if Has(flags, ATTR_UIDGID) then q.value.gid else s.gid))
  {}

  lemma PlainSame(flags: uint32, s: FileStat, t: FileStat, b: seq<byte>)
    ensures var p, q := PlainOnto(flags, s, b), PlainOnto(flags, t, b);
            && (p.Parsed? <==> q.Parsed?)
            && (p.Parsed? ==>
                  && p.rest == q.rest
                  && p.value == s.(mode := if Has(flags, ATTR_PERMISSIONS) then q.value.mode else s.mode,
                                   atime := if Has(flags, ATTR_ACMODTIME) then q.value.atime else s.atime,
                                   mtime := if Has(flags, ATTR_ACMODTIME) then q.value.mtime else s.mtime)
                  && q.value == t.(mode := q.value.mode, atime := q.value.atime, mtime := q.value.mtime))
  {}

  lemma Assemble(b: seq<byte>, u: seq<byte>, so: seq<byte>, m: seq<byte>, t: seq<byte>, x: seq<byte>)
    ensures b + u + so + m + t + x == b + (u + (so + m + t + x))
    ensures b + u + so + m + t + [] == b + u + so + m + t
  {
    assert b + u + so + m + t + x == b + (u + so + m + t + x);
  }
}
