/**
The primitives of packet.go: big-endian integers and length-prefixed strings appended to a
byte slice, and read back from the front of one with a length check.
*/
module Wire {
  import opened Basics

  // ---------------------------------------------------------------- big-endian numbers

  function Pow256(n: nat): nat {
    if n == 0 then 1 else 0x100 * Pow256(n - 1)
  }

  /** The last n base-256 digits of v, most significant first. */
  function BigEndian(v: nat, n: nat): (b: seq<byte>)
    ensures |b| == n
  {
    if n == 0 then [] else BigEndian(v / 0x100, n - 1) + [v % 0x100]
  }

  function Value(b: seq<byte>): nat {
    if b == [] then 0 else Value(b[..|b| - 1]) * 0x100 + b[|b| - 1]
  }

  lemma {:induction false} ValueOfBigEndian(v: nat, n: nat)
    requires v < Pow256(n)
    ensures Value(BigEndian(v, n)) == v
  {
    if n > 0 {
      ValueOfBigEndian(v / 0x100, n - 1);
      assert BigEndian(v, n)[..n - 1] == BigEndian(v / 0x100, n - 1);
    }
  }

  lemma {:induction false} BigEndianOfValue(b: seq<byte>)
    ensures Value(b) < Pow256(|b|) && BigEndian(Value(b), |b|) == b
  {
    if b != [] {
      var front := b[..|b| - 1];
      BigEndianOfValue(front);
      assert Value(b) / 0x100 == Value(front);
      assert b == front + [b[|b| - 1]];
    }
  }

  lemma {:induction false} ValueOfConcat(a: seq<byte>, b: seq<byte>)
    ensures Value(a + b) == Value(a) * Pow256(|b|) + Value(b)
  {
    if b == [] {
      assert a + b == a;
    } else {
      var front := b[..|b| - 1];
      ValueOfConcat(a, front);
      assert (a + b)[..|a + b| - 1] == a + front;
      assert Value(a) * Pow256(|b|) == Value(a) * Pow256(|front|) * 0x100;
    }
  }

  const TWO_32 := 0x1_0000_0000
  const TWO_64 := 0x1_0000_0000_0000_0000

  lemma Powers()
    ensures Pow256(1) == 0x100 && Pow256(4) == TWO_32 && Pow256(8) == TWO_64
  {
    assert Pow256(2) == 0x1_0000 && Pow256(3) == 0x100_0000;
    assert Pow256(5) == 0x100 * Pow256(4) && Pow256(6) == 0x100 * Pow256(5) && Pow256(7) == 0x100 * Pow256(6);
  }

  // ---------------------------------------------------------------- encoding

  /** The four bytes that stand for v. */
  ghost function U32(v: uint32): (b: seq<byte>)
    ensures |b| == 4 && Value(b) == v
  {
    Powers();
    ValueOfBigEndian(v, 4);
    var b: seq<byte> :| |b| == 4 && Value(b) == v;
    b
  }

  ghost function U64(v: uint64): (b: seq<byte>)
    ensures |b| == 8 && Value(b) == v
  {
    Powers();
    ValueOfBigEndian(v, 8);
    var b: seq<byte> :| |b| == 8 && Value(b) == v;
    b
  }

  /** A string's length is cut to 32 bits; its bytes are not. */
  ghost function Str(s: seq<byte>): seq<byte> {
    U32(|s| % TWO_32) + s
  }

  lemma {:induction false} FourDigits(v: nat)
    ensures v == v / 0x100_0000 * 0x100_0000 + v / 0x1_0000 % 0x100 * 0x1_0000 + v / 0x100 % 0x100 * 0x100 + v % 0x100
  {
    assert v / 0x1_0000 == v / 0x100 / 0x100 && v / 0x100_0000 == v / 0x1_0000 / 0x100;
  }

  /** The number shifted right by 24, 16, 8 and 0 bits, each cut to a byte, gives the bytes that stand for it. */
  lemma {:induction false} Shifts32(v: uint32)
    ensures U32(v) == [v / 0x100_0000, v / 0x1_0000 % 0x100, v / 0x100 % 0x100, v % 0x100]
  {
    var b: seq<byte> := [v / 0x100_0000, v / 0x1_0000 % 0x100, v / 0x100 % 0x100, v % 0x100];
    FourBytes(b);
    assert b[..4] == b;
    FourDigits(v);
    SameValue(b, U32(v));
  }

  lemma SmallNumbers(v: nat)
    requires v < 0x100
    ensures U32(v) == [0, 0, 0, v] && U64(v) == [0, 0, 0, 0, 0, 0, 0, v]
  {
    Shifts32(v);
    Shifts32(0);
    SplitUint64(v);
    assert v / TWO_32 == 0 && v % TWO_32 == v;
  }

  /** A number has one big-endian form of a given length. */
  lemma SameValue(a: seq<byte>, b: seq<byte>)
    requires |a| == |b| && Value(a) == Value(b)
    ensures a == b
  {
    BigEndianOfValue(a);
    BigEndianOfValue(b);
  }

  method MarshalUint32(b: seq<byte>, v: uint32) returns (r: seq<byte>)
    ensures r == b + U32(v)
  {
    Shifts32(v);
    return b + [v / 0x100_0000, v / 0x1_0000 % 0x100, v / 0x100 % 0x100, v % 0x100];
  }

  /** The two halves, one after the other, are the eight bytes. */
  method MarshalUint64(b: seq<byte>, v: uint64) returns (r: seq<byte>)
    ensures r == b + U64(v)
  {
    SplitUint64(v);
    r := MarshalUint32(b, v / TWO_32);
    r := MarshalUint32(r, v % TWO_32);
  }

  method MarshalString(b: seq<byte>, s: seq<byte>) returns (r: seq<byte>)
    ensures r == b + Str(s)
  {
    r := MarshalUint32(b, |s| % TWO_32);
    r := r + s;
  }

  lemma SplitUint64(v: uint64)
    ensures U64(v) == U32(v / TWO_32) + U32(v % TWO_32)
  {
    var hi, lo := U32(v / TWO_32), U32(v % TWO_32);
    Powers();
    ValueOfConcat(hi, lo);
    SameValue(U64(v), hi + lo);
  }

  // ---------------------------------------------------------------- decoding

  /** What a checked read yields: a value and the bytes after it, or errShortPacket. */
  datatype Parsed<+T> = Parsed(value: T, rest: seq<byte>) | Short

  function Uint32At(b: seq<byte>): uint32
    requires |b| >= 4
  {
    FourBytes(b);
    Value(b[..4])
  }

  /** The sum of four bytes, each at its place. */
  lemma FourBytes(b: seq<byte>)
    requires |b| >= 4
    ensures Value(b[..4]) == b[0] as int * 0x100_0000 + b[1] as int * 0x1_0000 + b[2] as int * 0x100 + b[3] as int
    ensures 0 <= Value(b[..4]) < TWO_32
  {
    assert b[..4][..3] == b[..3] && b[..3][..2] == b[..2] && b[..2][..1] == b[..1] && b[..1][..0] == [];
    assert Value(b[..1]) == b[0];
    assert Value(b[..2]) == Value(b[..1]) * 0x100 + b[1];
    assert Value(b[..3]) == Value(b[..2]) * 0x100 + b[2];
  }

  /** Two numbers joined bit by bit. */
  function Or(x: nat, y: nat): nat
    decreases x
  {
    if x == 0 then y else if y == 0 then x
    else 2 * Or(x / 2, y / 2) + if x % 2 == 1 || y % 2 == 1 then 1 else 0
  }

  function ShiftLeft(x: nat, k: nat): nat {
    if k == 0 then x else 2 * ShiftLeft(x, k - 1)
  }

  /** Joining bits that do not overlap is adding. */
  lemma {:induction false} OrIsSum(x: nat, y: nat, k: nat)
    requires x < ShiftLeft(1, k)
    ensures Or(x, ShiftLeft(y, k)) == x + ShiftLeft(y, k)
    decreases k
  {
    if k > 0 && x > 0 && ShiftLeft(y, k) > 0 {
      OrIsSum(x / 2, y, k - 1);
    }
  }

  lemma {:induction false} ShiftEight(x: nat, k: nat)
    requires k >= 8
    ensures ShiftLeft(x, k) == 0x100 * ShiftLeft(x, k - 8)
  {
    assert ShiftLeft(x, k) == 4 * ShiftLeft(x, k - 2) == 0x10 * ShiftLeft(x, k - 4);
    assert ShiftLeft(x, k - 4) == 4 * ShiftLeft(x, k - 6) == 0x10 * ShiftLeft(x, k - 8);
  }

  lemma {:induction false} ShiftedByte(x: nat)
    ensures ShiftLeft(x, 8) == 0x100 * x && ShiftLeft(x, 16) == 0x1_0000 * x && ShiftLeft(x, 24) == 0x100_0000 * x
  {
    ShiftEight(x, 8);
    ShiftEight(x, 16);
    ShiftEight(x, 24);
  }

  /** One more byte, at place 2^k. */
  lemma {:induction false} OrByte(low: nat, x: nat, k: nat, place: nat)
    requires low < place && ShiftLeft(1, k) == place && ShiftLeft(x, k) == place * x
    ensures Or(low, ShiftLeft(x, k)) == low + place * x
  {
    OrIsSum(low, x, k);
  }

  lemma {:induction false} OrOfBytes(w: nat, x: nat, y: nat, z: nat, two: nat, three: nat)
    requires w < 0x100 && x < 0x100 && y < 0x100 && z < 0x100
    requires two == Or(z, ShiftLeft(y, 8)) && three == Or(two, ShiftLeft(x, 16))
    ensures Or(three, ShiftLeft(w, 24)) == w * 0x100_0000 + x * 0x1_0000 + y * 0x100 + z
  {
    ShiftedByte(1);
    ShiftedByte(w);
    ShiftedByte(x);
    ShiftedByte(y);
    OrByte(z, y, 8, 0x100);
    OrByte(two, x, 16, 0x1_0000);
    OrByte(three, w, 24, 0x100_0000);
  }

  /** The number read is the four bytes shifted to their places and joined bit by bit. */
  lemma {:induction false} OrOfShifted(b: seq<byte>, w: nat, x: nat, y: nat, z: nat)
    requires |b| >= 4 && b[..4] == [w, x, y, z]
    ensures Uint32At(b) == Or(Or(Or(z, ShiftLeft(y, 8)), ShiftLeft(x, 16)), ShiftLeft(w, 24))
  {
    assert b[0] == b[..4][0] && b[1] == b[..4][1] && b[2] == b[..4][2] && b[3] == b[..4][3];
    FourBytes(b);
    var two := Or(z, ShiftLeft(y, 8));
    OrOfBytes(w, x, y, z, two, Or(two, ShiftLeft(x, 16)));
  }

  function UnmarshalUint32Safe(b: seq<byte>): Parsed<uint32> {
    if |b| < 4 then Short else Parsed(Uint32At(b), b[4..])
  }

  /** The high half, then the low half. */
  function UnmarshalUint64Safe(b: seq<byte>): Parsed<uint64> {
    if |b| < 8 then Short else Parsed(Uint32At(b) * TWO_32 + Uint32At(b[4..]), b[8..])
  }

  function UnmarshalStringSafe(b: seq<byte>): Parsed<seq<byte>> {
    match UnmarshalUint32Safe(b)
    case Short => Short
    case Parsed(n, r) => if n > |r| then Short else Parsed(r[..n], r[n..])
  }

  /** Reading an integer takes exactly its encoding off the front. */
  lemma Uint32Inverse(b: seq<byte>, v: uint32, rest: seq<byte>)
    ensures UnmarshalUint32Safe(b) == Parsed(v, rest) <==> b == U32(v) + rest
  {
    if |b| >= 4 {
      if Value(b[..4]) == v { SameValue(b[..4], U32(v)); }
      assert b == b[..4] + b[4..];
    }
    if b == U32(v) + rest {
      assert b[..4] == U32(v) && b[4..] == rest;
    }
  }

  lemma Uint64Inverse(b: seq<byte>, v: uint64, rest: seq<byte>)
    ensures UnmarshalUint64Safe(b) == Parsed(v, rest) <==> b == U64(v) + rest
  {
    var hi, lo := v / TWO_32, v % TWO_32;
    SplitUint64(v);
    SplitRest(b, U32(hi), U32(lo), rest);
    if |b| >= 8 {
      Halves(Uint32At(b), Uint32At(b[4..]), v);
      Uint32Inverse(b, hi, b[4..]);
      Uint32Inverse(b[4..], lo, b[8..]);
      assert b[4..][4..] == b[8..];
    }
  }

  lemma Halves(hi: uint32, lo: uint32, v: uint64)
    ensures hi * TWO_32 + lo == v <==> hi == v / TWO_32 && lo == v % TWO_32
  {}

  lemma SplitRest(b: seq<byte>, x: seq<byte>, y: seq<byte>, rest: seq<byte>)
    requires |x| == 4 && |y| == 4
    ensures b == x + y + rest <==> |b| >= 8 && b == x + b[4..] && b[4..] == y + b[8..] && b[8..] == rest
  {
    if b == x + y + rest {
      assert b[4..] == y + rest && b[8..] == rest;
    }
    if |b| >= 8 && b == x + b[4..] && b[4..] == y + b[8..] && b[8..] == rest {
      assert x + (y + rest) == x + y + rest;
    }
  }

  /** Reading a string yields exactly the strings that fit a 32-bit length. */
  lemma StringInverse(b: seq<byte>, s: seq<byte>, rest: seq<byte>)
    ensures UnmarshalStringSafe(b) == Parsed(s, rest) <==> |s| < TWO_32 && b == Str(s) + rest
  {
    assert Str(s) + rest == U32(|s| % TWO_32) + (s + rest);
    Uint32Inverse(b, |s| % TWO_32, s + rest);
    match UnmarshalUint32Safe(b)
    case Short =>
    case Parsed(n, r) =>
      Uint32Inverse(b, n, r);
      if n <= |r| { assert r == r[..n] + r[n..]; }
      if r == s + rest && n == |s| { assert r[..n] == s && r[n..] == rest; }
  }
}
