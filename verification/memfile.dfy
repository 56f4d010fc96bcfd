/** The in-memory file of request-example.go: contents read, written and truncated in place. */
module MemFiles {
  import opened Basics
  import opened Paths

  /** The bytes a read of `len` at `off` finds. */
  function ReadBytes(content: seq<byte>, off: nat, len: nat): seq<byte> {
    if off >= |content| then [] else content[off..Min(off + len, |content|)]
  }

  /** The content after writing `data` at `off`: a gap before `off` is filled with zeros. */
  function WriteBytes(content: seq<byte>, off: nat, data: seq<byte>): seq<byte> {
    var grown := if off + |data| > |content| then content + Zeros(off + |data| - |content|) else content;
    grown[..off] + data + grown[off + |data|..]
  }

  /** A byte of the content, zero past its end. */
  function ByteAt(content: seq<byte>, i: nat): byte {
    if i < |content| then content[i] else 0
  }

  lemma WriteBytesAt(content: seq<byte>, off: nat, data: seq<byte>)
    ensures |WriteBytes(content, off, data)| == Max(|content|, off + |data|)
    ensures forall i :: 0 <= i < |WriteBytes(content, off, data)| ==>
              WriteBytes(content, off, data)[i] ==
                if off <= i < off + |data| then data[i - off] else ByteAt(content, i)
  {}

  /** Writing the two halves of a buffer one after the other is writing the buffer. */
  lemma WriteBytesSplit(content: seq<byte>, off: nat, data: seq<byte>, m: nat)
    requires m <= |data|
    ensures WriteBytes(WriteBytes(content, off, data[..m]), off + m, data[m..]) == WriteBytes(content, off, data)
  {
    WriteBytesAt(content, off, data[..m]);
    WriteBytesAt(WriteBytes(content, off, data[..m]), off + m, data[m..]);
    WriteBytesAt(content, off, data);
  }

  class MemFile {
    var name: Path
    const symlink: Path
    const isdir: bool
    var content: seq<byte>
    var err: Option<Error>

    constructor (name: Path, symlink: Path, isdir: bool)
      ensures this.name == name && this.symlink == symlink && this.isdir == isdir
      ensures content == [] && err == None
    {
      this.name, this.symlink, this.isdir := name, symlink, isdir;
      content, err := [], None;
    }

    /** Fills the front of b from the content at off; short only at the end of the file. */
    method ReadAt(b: array<byte>, off: int) returns (n: nat, e: Option<Error>)
      modifies b
      ensures err.Some? ==> n == 0 && e == err
      ensures err.None? && off < 0 ==> n == 0 && e.Some? && e != Some(Eof)
      ensures err.None? && off >= 0 ==>
                && n == |ReadBytes(content, off, b.Length)|
                && b[..n] == ReadBytes(content, off, b.Length)
                && e == if n < b.Length || off >= |content| then Some(Eof) else None
      ensures n <= b.Length && forall i :: n <= i < b.Length ==> b[i] == old(b[i])
    {
      if err.Some? { return 0, err; }
      if off < 0 { return 0, Some(Io(0)); }
      if off >= |content| { return 0, Some(Eof); }
      n := Min(b.Length, |content| - off);
      forall i | 0 <= i < n { b[i] := content[off + i]; }
      e := if n < b.Length then Some(Eof) else None;
    }

    method WriteAt(b: seq<byte>, off: nat) returns (n: nat, e: Option<Error>)
      modifies this`content
      ensures old(err).Some? ==> n == 0 && e == err && content == old(content)
      ensures old(err).None? ==> n == |b| && e == None && content == WriteBytes(old(content), off, b)
    {
      if err.Some? { return 0, err; }
      var grow := |b| + off - |content|;
      if grow > 0 { content := content + Zeros(grow); }
      content := content[..off] + b + content[off + |b|..];
      return |b|, None;
    }

    /** Cuts the content to `size` bytes or extends it with zeros. */
    method Truncate(size: nat) returns (e: Option<Error>)
      modifies this`content
      ensures e == err
      ensures err.Some? ==> content == old(content)
      ensures err.None? ==> |content| == size && forall i :: 0 <= i < size ==> content[i] == ByteAt(old(content), i)
    {
      if err.Some? { return err; }
      var grow := size - |content|;
      if grow <= 0 {
        content := content[..size];
      } else {
        content := content + Zeros(grow);
      }
      return None;
    }

    method TransferError(e: Option<Error>)
      modifies this`err
      ensures err == e
    {
      err := e;
    }
  }
}
