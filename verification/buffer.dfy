/**
The marshalling buffer of internal/encoding/ssh/filexfer/buffer.go: values are appended at the
end and consumed from the front, and the first error sticks.
*/
module Buffers {
  import opened Basics
  import opened Wire

  datatype BufferError = ShortPacket | LongPacket

  /** The first n bytes as a number. */
  function TakeNumber(b: seq<byte>, n: nat): Parsed<nat> {
    if |b| < n then Short else Parsed(Value(b[..n]), b[n..])
  }

  /** Eight bytes at once are the two halves of packet.go. */
  lemma TakeUint64(b: seq<byte>)
    ensures UnmarshalUint64Safe(b).Short? <==> |b| < 8
    ensures |b| >= 8 ==> UnmarshalUint64Safe(b) == Parsed(Value(b[..8]), b[8..])
  {
    if |b| >= 8 {
      Powers();
      assert b[..8] == b[..4] + b[4..][..4];
      ValueOfConcat(b[..4], b[4..][..4]);
    }
  }

  /** int64(v) and uint64(v): two's complement. */
  function ToInt64(v: uint64): int {
    if v < TWO_64 / 2 then v else v - TWO_64
  }

  function FromInt64(v: int): uint64
    requires -(TWO_64 / 2) <= v < TWO_64 / 2
  {
    if v < 0 then v + TWO_64 else v
  }

  /** Reading n bytes undoes writing a number in n bytes. */
  lemma NumberRoundTrip(v: nat, n: nat, rest: seq<byte>)
    requires v < Pow256(n)
    ensures TakeNumber(BigEndian(v, n) + rest, n) == Parsed(v, rest)
  {
    ValueOfBigEndian(v, n);
    var b := BigEndian(v, n) + rest;
    assert b[..n] == BigEndian(v, n) && b[n..] == rest;
  }

  lemma Int64RoundTrip(v: int, rest: seq<byte>)
    requires -(TWO_64 / 2) <= v < TWO_64 / 2
    ensures UnmarshalUint64Safe(U64(FromInt64(v)) + rest) == Parsed(FromInt64(v), rest)
    ensures ToInt64(FromInt64(v)) == v
  {
    Uint64Inverse(U64(FromInt64(v)) + rest, FromInt64(v), rest);
  }

  class Buffer {
    var b: seq<byte>
    var off: nat
    var err: Option<BufferError>

    predicate Valid()
      reads this
    {
      off <= |b|
    }

    /** The bytes not consumed yet. */
    function Bytes(): seq<byte>
      requires Valid()
      reads this
    {
      b[off..]
    }

    constructor (b: seq<byte>)
      ensures Valid() && this.b == b && off == 0 && err == None && Bytes() == b
    {
      this.b, off, err := b, 0, None;
    }

    /** What a consuming call does to the buffer, p being what is there to read: with an error
        set, nothing; without enough data, it sets the error and gives up the rest. */
    twostate predicate Consumed<T>(p: Parsed<T>)
      requires old(Valid())
      reads this
    {
      && Valid() && b == old(b)
      && if old(err).Some? then off == old(off) && err == old(err)
         else match p
           case Parsed(_, rest) => err == None && Bytes() == rest
           case Short => err == Some(ShortPacket) && Bytes() == []
    }

    method Reset()
      modifies this
      ensures Valid() && b == [] && off == 0 && err == None
    {
      b, off, err := [], 0, None;
    }

    method ConsumeUint8() returns (v: byte)
      requires Valid()
      modifies this`off, this`err
      ensures var p := TakeNumber(old(Bytes()), 1);
              Consumed(p) && v == if old(err).None? && p.Parsed? then p.value else 0
    {
      if err.Some? { return 0; }
      if |b| - off < 1 {
        off, err := |b|, Some(ShortPacket);
        return 0;
      }
      v, off := b[off], off + 1;
      assert old(Bytes())[..1] == [v] && Value([v]) == v by { assert [v][..0] == []; }
    }

    method ConsumeBool() returns (v: bool)
      requires Valid()
      modifies this`off, this`err
      ensures var p := TakeNumber(old(Bytes()), 1);
              Consumed(p) && (v <==> old(err).None? && p.Parsed? && p.value != 0)
    {
      var x := ConsumeUint8();
      return x != 0;
    }

    method ConsumeUint16() returns (v: nat)
      requires Valid()
      modifies this`off, this`err
      ensures var p := TakeNumber(old(Bytes()), 2);
              Consumed(p) && v == if old(err).None? && p.Parsed? then p.value else 0
    {
      if err.Some? { return 0; }
      if |b| - off < 2 {
        off, err := |b|, Some(ShortPacket);
        return 0;
      }
      v := Value(b[off..][..2]);
      off := off + 2;
    }

    method ConsumeUint32() returns (v: uint32)
      requires Valid()
      modifies this`off, this`err
      ensures var p := UnmarshalUint32Safe(old(Bytes()));
              Consumed(p) && v == if old(err).None? && p.Parsed? then p.value else 0
    {
      if err.Some? { return 0; }
      if |b| - off < 4 {
        off, err := |b|, Some(ShortPacket);
        return 0;
      }
      v := Uint32At(b[off..]);
      off := off + 4;
    }

    method ConsumeUint64() returns (v: uint64)
      requires Valid()
      modifies this`off, this`err
      ensures var p := UnmarshalUint64Safe(old(Bytes()));
              Consumed(p) && v == if old(err).None? && p.Parsed? then p.value else 0
    {
      if err.Some? { return 0; }
      TakeUint64(Bytes());
      if |b| - off < 8 {
        off, err := |b|, Some(ShortPacket);
        return 0;
      }
      v := Value(b[off..][..8]);
      off := off + 8;
    }

    method ConsumeInt64() returns (v: int)
      requires Valid()
      modifies this`off, this`err
      ensures var p := UnmarshalUint64Safe(old(Bytes()));
              Consumed(p) && v == if old(err).None? && p.Parsed? then ToInt64(p.value) else 0
    {
      var x := ConsumeUint64();
      return ToInt64(x);
    }

    /** A length and that many bytes. */
    method ConsumeByteSlice() returns (v: seq<byte>)
      requires Valid()
      modifies this`off, this`err
      ensures var p := UnmarshalStringSafe(old(Bytes()));
              Consumed(p) && v == if old(err).None? && p.Parsed? then p.value else []
    {
      var length := ConsumeUint32();
      if err.Some? { return []; }
      if |b| - off < length {
        off, err := |b|, Some(ShortPacket);
        return [];
      }
      v := b[off..off + length];
      off := off + length;
    }

    method AppendUint8(v: byte)
      modifies this`b
      ensures b == old(b) + [v]
    {
      b := b + [v];
    }

    method AppendBool(v: bool)
      modifies this`b
      ensures b == old(b) + [if v then 1 else 0]
    {
      if v { AppendUint8(1); } else { AppendUint8(0); }
    }

    method AppendUint16(v: nat)
      requires v < 0x1_0000
      modifies this`b
      ensures b == old(b) + BigEndian(v, 2)
    {
      b := b + [v / 0x100, v % 0x100];
      assert BigEndian(v / 0x100, 1) == [v / 0x100] by { assert BigEndian(v / 0x100 / 0x100, 0) == []; }
    }

    method AppendUint32(v: uint32)
      modifies this`b
      ensures b == old(b) + U32(v)
    {
      Shifts32(v);
      b := b + [v / 0x100_0000, v / 0x1_0000 % 0x100, v / 0x100 % 0x100, v % 0x100];
    }

    method AppendUint64(v: uint64)
      modifies this`b
      ensures b == old(b) + U64(v)
    {
      var hi, lo := v / TWO_32, v % TWO_32;
      Shifts32(hi);
      Shifts32(lo);
      SplitUint64(v);
      b := b + [hi / 0x100_0000, hi / 0x1_0000 % 0x100, hi / 0x100 % 0x100, hi % 0x100,
                lo / 0x100_0000, lo / 0x1_0000 % 0x100, lo / 0x100 % 0x100, lo % 0x100];
    }

    method AppendInt64(v: int)
      requires -(TWO_64 / 2) <= v < TWO_64 / 2
      modifies this`b
      ensures b == old(b) + U64(FromInt64(v))
    {
      AppendUint64(FromInt64(v));
    }

    method AppendByteSlice(v: seq<byte>)
      modifies this`b
      ensures b == old(b) + Str(v)
    {
      AppendUint32(|v| % TWO_32);
      b := b + v;
    }

    /** Room for the length, then type and request id. */
    method StartPacket(packetType: byte, requestID: uint32)
      modifies this
      ensures Valid() && off == 0 && err == None && b == Zeros(4) + [packetType] + U32(requestID)
    {
      b, off, err := Zeros(4), 0, None;
      AppendUint8(packetType);
      AppendUint32(requestID);
    }

    method PutLength(size: nat)
      modifies this`b
      ensures b == U32(size % TWO_32) + if |old(b)| < 4 then [] else old(b)[4..]
    {
      if |b| < 4 { b := b + Zeros(4 - |b|); }
      var v: uint32 := size % TWO_32;
      Shifts32(v);
      b := [v / 0x100_0000, v / 0x1_0000 % 0x100, v / 0x100 % 0x100, v % 0x100] + b[4..];
    }

    /** The length in front is that of all that follows it. */
    method Packet(payload: seq<byte>) returns (header: seq<byte>, through: seq<byte>)
      requires |b| >= 4
      modifies this`b
      ensures through == payload && header == b
      ensures header + through == Str(old(b)[4..] + payload)
    {
      PutLength(|b| - 4 + |payload|);
      ghost var body := old(b)[4..] + payload;
      assert b + payload == U32(|body| % TWO_32) + body;
      return b, payload;
    }
  }
}
