/** Small value types shared by the other modules. */
module Basics {
  datatype Option<+T> = None | Some(value: T)

  /** One octet of a Go `[]byte`. */
  type byte = b: int | 0 <= b < 0x100

  /** The unsigned machine integers of the wire format. */
  type uint32 = n: int | 0 <= n < 0x1_0000_0000
  type uint64 = n: int | 0 <= n < 0x1_0000_0000_0000_0000

  const MAX_INT64: int := 0x7fff_ffff_ffff_ffff

  /** The error values the client tells apart. `Eof` is io.EOF after normaliseError. */
  datatype Error =
    | Eof
    | NotExist
    | Permission
    | Status(code: nat)
    | UnexpectedId
    | Unimplemented
    | ConnectionLost
    | Closed
    | Io(code: nat)

  function Min(a: int, b: int): int {
    if a <= b then a else b
  }

  function Max(a: int, b: int): int {
    if a <= b then b else a
  }

  /** A run of zero bytes, as Go's make([]byte, n) yields it. */
  function Zeros(n: nat): (z: seq<byte>)
    ensures |z| == n
    ensures forall i :: 0 <= i < n ==> z[i] == 0
  {
    seq(n, i => 0)
  }

  /** The sum of f over a sequence; the termination measures count ranks with it. */
  function SumBy<T>(f: T -> nat, s: seq<T>): nat {
    if s == [] then 0 else SumBy(f, s[..|s| - 1]) + f(s[|s| - 1])
  }

  lemma {:induction false} SumByUpdate<T>(f: T -> nat, s: seq<T>, i: nat, x: T)
    requires i < |s|
    ensures SumBy(f, s[i := x]) + f(s[i]) == SumBy(f, s) + f(x)
  {
    var n := |s| - 1;
    if i < n {
      SumByUpdate(f, s[..n], i, x);
      assert s[i := x][..n] == s[..n][i := x];
    } else {
      assert s[i := x][..n] == s[..n];
    }
  }

  lemma {:induction false} SumByConstant<T>(f: T -> nat, s: seq<T>, c: nat)
    requires forall i :: 0 <= i < |s| ==> f(s[i]) == c
    ensures SumBy(f, s) == c * |s|
  {
    if s != [] { SumByConstant(f, s[..|s| - 1], c); }
  }

  /** A sum is at least each of its terms. */
  lemma {:induction false} SumByTerm<T>(f: T -> nat, s: seq<T>, i: nat)
    requires i < |s|
    ensures f(s[i]) <= SumBy(f, s)
  {
    if i < |s| - 1 { SumByTerm(f, s[..|s| - 1], i); }
  }

  lemma {:induction false} SumByAtMost<T>(f: T -> nat, s: seq<T>, c: nat)
    requires forall i :: 0 <= i < |s| ==> f(s[i]) <= c
    ensures SumBy(f, s) <= c * |s|
  {
    if s != [] { SumByAtMost(f, s[..|s| - 1], c); }
  }
}
