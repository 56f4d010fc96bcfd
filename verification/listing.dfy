/**
Listing a directory: the server hands out a listing fixed at opendir in batches, one for each
READDIR, and the client asks until it is told of the end. Entries cross the wire as NAME packets.
*/
module Listing {
  import opened Basics
  import opened Wire
  import opened FileStats
  import opened AttributeCodec

  /** What the server answers to READDIR; a NAME carries its count and entries encoded. */
  datatype Reply = Names(id: uint32, body: seq<byte>) | StatusReply(id: uint32, err: Error)

  /** An entry as the client returns it. */
  datatype Info = Info(name: seq<byte>, flags: uint32, stat: FileStat)

  const SLASH: byte := 0x2f
  const DOT: byte := 0x2e

  /** path.Base on bytes. */
  function BaseName(name: seq<byte>): seq<byte> {
    if name == [] then [DOT]
    else if name[|name| - 1] == SLASH then (if |name| == 1 then [SLASH] else BaseName(name[..|name| - 1]))
    else AfterSlash(name)
  }

  function AfterSlash(name: seq<byte>): seq<byte> {
    if name == [] || name[|name| - 1] == SLASH then [] else AfterSlash(name[..|name| - 1]) + [name[|name| - 1]]
  }

  lemma {:induction false} PlainBaseName(name: seq<byte>)
    requires SLASH !in name
    ensures AfterSlash(name) == name && (name != [] ==> BaseName(name) == name)
  {
    if name != [] {
      PlainBaseName(name[..|name| - 1]);
      assert name == name[..|name| - 1] + [name[|name| - 1]];
    }
  }

  /** The base of a path is what follows its last slash, slashes at the end not counting; of "" it
      is "." and of nothing but slashes "/". */
  lemma {:induction false} BaseNameIs(dir: seq<byte>, name: seq<byte>)
    requires name != [] && 0x2f !in name
    ensures BaseName(dir + [0x2f] + name) == name && BaseName(dir + [0x2f] + name + [0x2f]) == name
    ensures BaseName([]) == [0x2e] && BaseName([0x2f]) == [0x2f] && BaseName([0x2f, 0x2f]) == [0x2f]
  {
    AfterLastSlash(dir, name);
    var path := dir + [0x2f] + name;
    assert path[|path| - 1] == name[|name| - 1] && name[|name| - 1] in name;
    assert (path + [0x2f])[..|path|] == path;
    assert [0x2f, 0x2f][..1] == [0x2f];
  }

  lemma {:induction false} AfterLastSlash(dir: seq<byte>, name: seq<byte>)
    requires 0x2f !in name
    ensures AfterSlash(dir + [0x2f] + name) == name
  {
    var path := dir + [0x2f] + name;
    if name == [] {
      assert path[|path| - 1] == 0x2f;
    } else {
      assert path[|path| - 1] == name[|name| - 1] && name[|name| - 1] in name;
      assert path[..|path| - 1] == dir + [0x2f] + name[..|name| - 1];
      AfterLastSlash(dir, name[..|name| - 1]);
      assert name == name[..|name| - 1] + [name[|name| - 1]];
    }
  }

  predicate IsDots(name: seq<byte>) {
    name == [DOT] || name == [DOT, DOT]
  }

  function Show(e: Entry): Info {
    Info(BaseName(e.filename), e.flags, e.stat)
  }

  /** The entries other than "." and "..", each once and in order. */
  function Visible(es: seq<Entry>): seq<Info> {
    if es == [] then []
    else Visible(es[..|es| - 1]) + if IsDots(es[|es| - 1].filename) then [] else [Show(es[|es| - 1])]
  }

  lemma {:induction false} VisibleConcat(a: seq<Entry>, b: seq<Entry>)
    ensures Visible(a + b) == Visible(a) + Visible(b)
  {
    if b == [] {
      assert a + b == a;
    } else {
      VisibleConcat(a, b[..|b| - 1]);
      assert (a + b)[..|a + b| - 1] == a + b[..|b| - 1];
    }
  }

  /** A proper file name: not empty, without a slash, and not a dot entry. */
  predicate IsProper(name: seq<byte>) {
    name != [] && SLASH !in name && !IsDots(name)
  }

  function ShowAsIs(e: Entry): Info {
    Info(e.filename, e.flags, e.stat)
  }

  /** With proper names the listing is shown as it is. */
  lemma {:induction false} VisibleIsAll(es: seq<Entry>)
    requires forall i :: 0 <= i < |es| ==> IsProper(es[i].filename)
    ensures |Visible(es)| == |es|
    ensures forall i :: 0 <= i < |es| ==> Visible(es)[i] == ShowAsIs(es[i])
  {
    if es != [] {
      var front, last := es[..|es| - 1], es[|es| - 1];
      VisibleIsAll(front);
      ShowProper(last);
      AppendShown(Visible(front), front, last);
      assert es == front + [last];
    }
  }

  lemma ShowProper(e: Entry)
    requires IsProper(e.filename)
    ensures Show(e) == ShowAsIs(e)
  {
    PlainBaseName(e.filename);
  }

  lemma AppendShown(shown: seq<Info>, front: seq<Entry>, last: Entry)
    requires |shown| == |front| && forall i :: 0 <= i < |front| ==> shown[i] == ShowAsIs(front[i])
    ensures forall i :: 0 <= i < |front + [last]| ==> (shown + [ShowAsIs(last)])[i] == ShowAsIs((front + [last])[i])
  {}

  /** A name without a slash, seen as bytes. */
  predicate IsPlain(name: seq<byte>) {
    name != [] && 0x2f !in name
  }

  /** Of plain names exactly "." and ".." are left out. */
  lemma {:induction false} DotsLeftOut(es: seq<Entry>)
    requires forall i :: 0 <= i < |es| ==> IsPlain(es[i].filename)
    ensures forall x :: x in Visible(es) ==> x.name != [0x2e] && x.name != [0x2e, 0x2e]
    ensures forall i :: 0 <= i < |es| && es[i].filename != [0x2e] && es[i].filename != [0x2e, 0x2e] ==>
              ShowAsIs(es[i]) in Visible(es)
  {
    if es != [] {
      var front, last := es[..|es| - 1], es[|es| - 1];
      DotsLeftOut(front);
      PlainBaseName(last.filename);
      forall i | 0 <= i < |es| && es[i].filename != [0x2e] && es[i].filename != [0x2e, 0x2e]
        ensures ShowAsIs(es[i]) in Visible(es)
      {
        if i < |es| - 1 { assert front[i] == es[i]; }
      }
    }
  }

  // ---------------------------------------------------------------- NAME packets

  ghost function EncodeEntries(es: seq<Entry>): seq<byte> {
    if es == [] then [] else EncodeEntry(es[0]) + EncodeEntries(es[1..])
  }

  ghost predicate Encodable(e: Entry) {
    |e.filename| < TWO_32 && |e.longname| < TWO_32 && Plain(e.flags, e.stat)
  }

  lemma {:induction false} EncodeEntriesAppend(es: seq<Entry>, e: Entry)
    ensures EncodeEntries(es + [e]) == EncodeEntries(es) + EncodeEntry(e)
  {
    if es == [] {
      assert es + [e] == [e] && [e][1..] == [];
    } else {
      EncodeEntriesAppend(es[1..], e);
      assert (es + [e])[1..] == es[1..] + [e] && (es + [e])[0] == es[0];
      Reassociate(EncodeEntry(es[0]), EncodeEntries(es[1..]), EncodeEntry(e));
    }
  }

  /** A byte string is the encoding of the first j entries. */
  ghost predicate IsFront(b: seq<byte>, es: seq<Entry>, j: nat) {
    j <= |es| && b == EncodeEntries(es[..j])
  }

  lemma FrontStep(front: seq<byte>, es: seq<Entry>, j: nat, e: seq<byte>)
    requires j < |es| && IsFront(front, es, j) && e == EncodeEntry(es[j])
    ensures IsFront(front + e, es, j + 1)
  {
    var longer := es[..j + 1];
    assert longer == es[..j] + [es[j]];
    EncodeEntriesAppend(es[..j], es[j]);
    assert EncodeEntries(longer) == EncodeEntries(es[..j]) + e;
  }

  /** The payload of a NAME packet. */
  method MarshalEntries(es: seq<Entry>) returns (b: seq<byte>)
    ensures b == U32(|es| % TWO_32) + EncodeEntries(es)
  {
    var head := MarshalUint32([], |es| % TWO_32);
    var entries := MarshalAll(es);
    assert es[..|es|] == es && [] + U32(|es| % TWO_32) == U32(|es| % TWO_32);
    return head + entries;
  }

  method MarshalAll(es: seq<Entry>) returns (b: seq<byte>)
    ensures IsFront(b, es, |es|)
  {
    b := [];
    for i := 0 to |es|
      invariant IsFront(b, es, i)
    {
      b := MarshalNext(b, es, i);
    }
  }

  method MarshalNext(b: seq<byte>, es: seq<Entry>, i: nat) returns (r: seq<byte>)
    requires i < |es| && IsFront(b, es, i)
    ensures IsFront(r, es, i + 1)
  {
    var e := MarshalEntry(es[i]);
    FrontStep(b, es, i, e);
    return b + e;
  }

  method MarshalEntry(e: Entry) returns (b: seq<byte>)
    ensures b == EncodeEntry(e)
  {
    b := MarshalString([], e.filename);
    b := MarshalString(b, e.longname);
    var a := MarshalUint32([], e.flags);
    a := MarshalFileStat(a, e.flags, e.stat);
    b := b + a;
  }

  // ---------------------------------------------------------------- the server

  /** The lister of the in-memory file system. */
  class Lister {
    const files: seq<Entry>

    constructor (files: seq<Entry>)
      ensures this.files == files
    {
      this.files := files;
    }

    /** Copies entries from the offset on into room for `want`; the end is told by falling short. */
    method ListAt(want: nat, offset: nat) returns (batch: seq<Entry>, eof: bool)
      ensures batch == if offset >= |files| then [] else files[offset..Min(offset + want, |files|)]
      ensures eof <==> offset >= |files| || offset + want > |files|
    {
      if offset >= |files| { return [], true; }
      var n := Min(want, |files| - offset);
      batch := files[offset..offset + n];
      eof := n < want;
    }
  }

  /** The answer to a READDIR at an offset: status EOF only once nothing is left. */
  ghost predicate Answers(files: seq<Entry>, offset: nat, max: nat, id: uint32, r: Reply, next: nat) {
    if offset >= |files| then r == StatusReply(id, Eof) && next == offset
    else
      && next == Min(offset + max, |files|)
      && r == Names(id, U32((next - offset) % TWO_32) + EncodeEntries(files[offset..next]))
  }

  class ListRequest {
    const lister: Lister
    var lsoffset: nat

    constructor (lister: Lister)
      ensures this.lister == lister && lsoffset == 0
    {
      this.lister, lsoffset := lister, 0;
    }

    /** Answers READDIR and advances the offset by what it hands out. With max at zero, a listing
        that is not exhausted is answered with no entries, again and again. */
    method FileList(id: uint32, max: nat) returns (r: Reply)
      modifies this`lsoffset
      ensures Answers(lister.files, old(lsoffset), max, id, r, lsoffset)
    {
      var offset := lsoffset;
      var batch, eof := lister.ListAt(max, offset);
      lsoffset := lsoffset + |batch|;
      if eof && |batch| == 0 { return StatusReply(id, Eof); }
      var body := MarshalEntries(batch);
      return Names(id, body);
    }
  }

  // ---------------------------------------------------------------- the client

  /** `BadAttrs` is a returned error; `Panics` is reading a name past the end of the packet, which
      the client does not check. */
  datatype ListError = Said(err: Error) | WrongId | BadAttrs | Panics

  datatype Read<+T> = Got(value: T, rest: seq<byte>) | Fails(err: ListError)

  /** One entry of a NAME packet as the client reads it. */
  function ReadEntry(b: seq<byte>): Read<Entry> {
    match UnmarshalStringSafe(b)
    case Short => Fails(Panics)
    case Parsed(_, r) =>
      match UnmarshalStringSafe(r)
      case Short => Fails(Panics)
      case Parsed(_, _) => match DecodeEntry(b) case Short => Fails(BadAttrs) case Parsed(e, r') => Got(e, r')
  }

  /** n entries, each taken off the front by `read`; the first that cannot be read decides. */
  function ReadBy(read: seq<byte> -> Read<Entry>, n: nat, b: seq<byte>): Read<seq<Entry>> {
    if n == 0 then Got([], b)
    else match read(b)
      case Fails(x) => Fails(x)
      case Got(e, r) => InFront([e], ReadBy(read, n - 1, r))
  }

  function ReadEntries(n: nat, b: seq<byte>): Read<seq<Entry>> {
    ReadBy(ReadEntry, n, b)
  }

  function InFront(es: seq<Entry>, more: Read<seq<Entry>>): Read<seq<Entry>> {
    match more
    case Fails(x) => Fails(x)
    case Got(later, r) => Got(es + later, r)
  }

  lemma InFrontTwice(es: seq<Entry>, e: Entry, more: Read<seq<Entry>>)
    ensures InFront(es + [e], more) == InFront(es, InFront([e], more))
  {
    if more.Got? { assert es + [e] + more.value == es + ([e] + more.value); }
  }

  /** The reading `all` has come to the entries es, and n more are to come from b. */
  ghost predicate ReadSoFar(all: Read<seq<Entry>>, es: seq<Entry>, n: nat, b: seq<byte>) {
    all == InFront(es, ReadEntries(n, b))
  }

  lemma ReadStart(n: nat, b: seq<byte>)
    ensures ReadSoFar(ReadEntries(n, b), [], n, b)
  {
    var all := ReadEntries(n, b);
    if all.Got? { assert [] + all.value == all.value; }
  }

  lemma ReadEnd(all: Read<seq<Entry>>, es: seq<Entry>, b: seq<byte>)
    requires ReadSoFar(all, es, 0, b)
    ensures all == Got(es, b)
  {
    assert es + [] == es;
  }

  /** One turn of the reading. */
  method ReadOne(b: seq<byte>, ghost all: Read<seq<Entry>>, ghost es: seq<Entry>, ghost n: nat) returns (x: Read<Entry>)
    requires n > 0 && ReadSoFar(all, es, n, b)
    ensures x.Fails? ==> all == Fails(x.err)
    ensures x.Got? ==> ReadSoFar(all, es + [x.value], n - 1, x.rest)
  {
    x := ReadEntry(b);
    if x.Got? { InFrontTwice(es, x.value, ReadEntries(n - 1, x.rest)); }
  }

  /** The client's loop over the entries of one NAME packet, whatever its bytes: the dot entries are
      left out, and a failure drops the entries before it. */
  method UnmarshalEntries(count: nat, b0: seq<byte>) returns (infos: seq<Info>, err: Option<ListError>)
    ensures match ReadEntries(count, b0)
            case Got(es, _) => err == None && infos == Visible(es)
            case Fails(x) => err == Some(x) && infos == []
  {
    var b := b0;
    infos := [];
    ghost var all, es: seq<Entry> := ReadEntries(count, b0), [];
    ReadStart(count, b0);
    for i := 0 to count
      invariant ReadSoFar(all, es, count - i, b) && infos == Visible(es)
    {
      var x := ReadOne(b, all, es, count - i);
      if x.Fails? { return [], Some(x.err); }
      ShowOne(es, x.value);
      b, es := x.rest, es + [x.value];
      if IsDots(x.value.filename) { continue; }
      infos := infos + [Show(x.value)];
    }
    ReadEnd(all, es, b);
    return infos, None;
  }

  lemma ShowOne(es: seq<Entry>, e: Entry)
    ensures Visible(es + [e]) == Visible(es) + if IsDots(e.filename) then [] else [Show(e)]
  {
    assert (es + [e])[..|es|] == es;
  }

  ghost predicate AllEncodable(es: seq<Entry>) {
    forall i :: 0 <= i < |es| ==> Encodable(es[i])
  }

  /** Entries are read, with nothing lost or added, from exactly the bytes that encode them. */
  lemma EntriesInverse(n: nat, b: seq<byte>, es: seq<Entry>, rest: seq<byte>)
    ensures ReadEntries(n, b) == Got(es, rest) <==> |es| == n && AllEncodable(es) && b == EncodeEntries(es) + rest
  {
    ReadEntryInverts();
    ReadReencodes(ReadEntry, n, b);
    if AllEncodable(es) { EncodedIsRead(es, rest); }
  }

  lemma {:induction false} EncodedIsRead(es: seq<Entry>, rest: seq<byte>)
    requires AllEncodable(es)
    ensures ReadEntries(|es|, EncodeEntries(es) + rest) == Got(es, rest)
  {
    if es == [] {
      assert EncodeEntries([]) + rest == rest;
    } else {
      var e, more := es[0], es[1..];
      assert es == [e] + more;
      EncodedIsRead(more, rest);
      FrontEntry(e, more, rest);
      ReadFront(|more|, EncodeEntries([e] + more) + rest, e, EncodeEntries(more) + rest);
    }
  }

  /** What was read encodes to the bytes taken. */
  ghost predicate Reencodable(x: Read<seq<Entry>>, n: nat, b: seq<byte>) {
    x.Got? ==> |x.value| == n && AllEncodable(x.value) && b == EncodeEntries(x.value) + x.rest
  }

  /** What is read off the front encodes to the bytes taken. */
  ghost predicate Inverts(read: seq<byte> -> Read<Entry>) {
    forall b :: read(b).Got? ==> Encodable(read(b).value) && b == EncodeEntry(read(b).value) + read(b).rest
  }

  lemma {:induction false} ReadReencodes(read: seq<byte> -> Read<Entry>, n: nat, b: seq<byte>)
    requires Inverts(read)
    ensures Reencodable(ReadBy(read, n, b), n, b)
    decreases n
  {
    if n == 0 {
      assert EncodeEntries([]) + b == b;
    } else if read(b).Got? {
      var e, r := read(b).value, read(b).rest;
      ReadReencodes(read, n - 1, r);
      EntryInFront(b, e, r, n - 1, ReadBy(read, n - 1, r));
    }
  }

  lemma ReadEntryInverts()
    ensures Inverts(ReadEntry)
  {
    forall b | ReadEntry(b).Got?
      ensures Encodable(ReadEntry(b).value) && b == EncodeEntry(ReadEntry(b).value) + ReadEntry(b).rest
    {
      ReadsEntry(b, ReadEntry(b).value, ReadEntry(b).rest);
    }
  }

  lemma {:induction false} ReadFront(n: nat, b: seq<byte>, e: Entry, r: seq<byte>)
    requires ReadEntry(b) == Got(e, r)
    ensures ReadEntries(n + 1, b) == InFront([e], ReadEntries(n, r))
  {}

  lemma {:induction false} EncodeFront(e: Entry, more: seq<Entry>, rest: seq<byte>)
    ensures EncodeEntries([e] + more) + rest == EncodeEntry(e) + (EncodeEntries(more) + rest)
  {
    assert ([e] + more)[0] == e && ([e] + more)[1..] == more;
    Reassociate(EncodeEntry(e), EncodeEntries(more), rest);
  }

  lemma {:induction false} FrontEntry(e: Entry, more: seq<Entry>, rest: seq<byte>)
    requires Encodable(e)
    ensures ReadEntry(EncodeEntries([e] + more) + rest) == Got(e, EncodeEntries(more) + rest)
  {
    EncodeFront(e, more, rest);
    ReadsEntry(EncodeEntries([e] + more) + rest, e, EncodeEntries(more) + rest);
  }

  lemma {:induction false} EntryInFront(b: seq<byte>, e: Entry, r: seq<byte>, n: nat, more: Read<seq<Entry>>)
    requires Encodable(e) && b == EncodeEntry(e) + r && Reencodable(more, n, r)
    ensures Reencodable(InFront([e], more), n + 1, b)
  {
    if more.Got? {
      EncodeFront(e, more.value, more.rest);
      FrontEncodable(e, more.value);
    }
  }

  lemma {:induction false} FrontEncodable(e: Entry, more: seq<Entry>)
    requires Encodable(e) && AllEncodable(more)
    ensures AllEncodable([e] + more)
  {
    forall i | 0 <= i < |more| + 1 ensures Encodable(([e] + more)[i]) {
      assert i > 0 ==> ([e] + more)[i] == more[i - 1];
    }
  }

  lemma ReadsEntry(b: seq<byte>, e: Entry, rest: seq<byte>)
    ensures ReadEntry(b) == Got(e, rest) <==> Encodable(e) && b == EncodeEntry(e) + rest
  {
    EntryInverse(b, e, rest);
  }

  /** How many batches a listing takes. */
  function Batches(rest: nat, max: nat): nat
    requires max >= 1
  {
    if rest == 0 then 0 else 1 + Batches(if rest <= max then 0 else rest - max, max)
  }

  /** That is the quotient, rounded up. */
  lemma {:induction false} BatchesRoundUp(rest: nat, max: nat)
    requires max >= 1
    ensures (Batches(rest, max) - 1) * max < rest || rest == 0
    ensures rest <= Batches(rest, max) * max
  {
    if rest > max {
      var k := Batches(rest - max, max);
      BatchesRoundUp(rest - max, max);
      assert (k + 1) * max == k * max + max;
      assert (k - 1) * max == k * max - max;
    } else if rest > 0 {
      assert Batches(rest, max) == 1;
    }
  }

  lemma BatchTaken(files: seq<Entry>, off: nat, next: nat, entries: seq<Info>)
    requires off <= next <= |files|
    ensures entries + Visible(files[off..]) == entries + Visible(files[off..next]) + Visible(files[next..])
  {
    assert files[off..] == files[off..next] + files[next..];
    VisibleConcat(files[off..next], files[next..]);
  }

  lemma SliceEncodable(es: seq<Entry>, i: nat, j: nat)
    requires AllEncodable(es) && i <= j <= |es|
    ensures AllEncodable(es[i..j])
  {
    forall k | 0 <= k < j - i ensures Encodable(es[i..j][k]) { assert es[i..j][k] == es[i + k]; }
  }

  /** The body of a NAME packet that a server made. */
  method ReadNames(body: seq<byte>, ghost batch: seq<Entry>) returns (infos: seq<Info>, err: Option<ListError>)
    requires AllEncodable(batch) && |batch| < TWO_32 && body == U32(|batch|) + EncodeEntries(batch)
    ensures err == None && infos == Visible(batch)
  {
    Uint32Inverse(body, |batch|, EncodeEntries(batch));
    var count := UnmarshalUint32Safe(body);
    EncodedIsRead(batch, []);
    assert EncodeEntries(batch) + [] == EncodeEntries(batch);
    infos, err := UnmarshalEntries(count.value, count.rest);
  }

  /** One READDIR and its answer. */
  method ReadBatch(server: ListRequest, max: nat, id: uint32) returns (infos: seq<Info>, err: Option<ListError>)
    requires max < TWO_32
    requires AllEncodable(server.lister.files)
    modifies server`lsoffset
    ensures var files := server.lister.files;
            if old(server.lsoffset) >= |files| then
              err == Some(Said(Eof)) && infos == [] && server.lsoffset == old(server.lsoffset)
            else
              && err == None && server.lsoffset == Min(old(server.lsoffset) + max, |files|)
              && infos == Visible(files[old(server.lsoffset)..server.lsoffset])
  {
    ghost var files, off := server.lister.files, server.lsoffset;
    var r := server.FileList(id, max);
    match r {
      case Names(sid, body) =>
        if sid != id { return [], Some(WrongId); }
        ghost var next := server.lsoffset;
        ghost var batch := files[off..next];
        SliceEncodable(files, off, next);
        assert (next - off) % TWO_32 == |batch|;
        assert body == U32(|batch|) + EncodeEntries(batch);
        infos, err := ReadNames(body, batch);
      case StatusReply(sid, e) =>
        return [], if sid != id then Some(WrongId) else Some(Said(e));
    }
  }

  /** The client's loop against that server: it ends, without an error, after one round for each
      batch and one for the end, and returns every entry from the offset on but the dot entries. */
  method ReadDir(server: ListRequest, max: nat, firstId: uint32)
    returns (entries: seq<Info>, err: Option<ListError>, rounds: nat)
    requires 1 <= max < TWO_32
    requires server.lsoffset <= |server.lister.files|
    requires AllEncodable(server.lister.files)
    modifies server`lsoffset
    ensures err == None && entries == Visible(server.lister.files[old(server.lsoffset)..])
    ensures rounds == Batches(|server.lister.files| - old(server.lsoffset), max) + 1
    ensures server.lsoffset == |server.lister.files|
  {
    ghost var files, start := server.lister.files, server.lsoffset;
    entries, err, rounds := [], None, 0;
    var id: uint32 := firstId;
    while err == None
      invariant start <= server.lsoffset <= |files|
      invariant Visible(files[start..]) == entries + Visible(files[server.lsoffset..])
      invariant err == None || (err == Some(Said(Eof)) && server.lsoffset == |files|)
      invariant rounds + Batches(|files| - server.lsoffset, max)
             == Batches(|files| - start, max) + if err == None then 0 else 1
      decreases if err == None then 1 + |files| - server.lsoffset else 0
    {
      ghost var off := server.lsoffset;
      var infos: seq<Info>;
      infos, err := ReadBatch(server, max, id);
      rounds := rounds + 1;
      if err == None {
        BatchTaken(files, off, server.lsoffset, entries);
        entries := entries + infos;
      }
      id := (id + 1) % TWO_32;
    }
    assert files[|files|..] == [] && entries + [] == entries;
    if err == Some(Said(Eof)) { err := None; }
  }

  /** Without room for a single entry the server makes no progress, so no client could end. */
  lemma NoRoomNoProgress(files: seq<Entry>, offset: nat, id: uint32, r: Reply, next: nat)
    requires Answers(files, offset, 0, id, r, next)
    ensures next == offset
    ensures offset < |files| ==> r == Names(id, U32(0))
  {
    assert offset < |files| ==> files[offset..offset] == [];
    assert U32(0) + [] == U32(0);
  }
}
