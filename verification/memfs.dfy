/**
The operations of request-example.go's in-memory file system. The files are kept so that they
are a tree.
*/
module MemFileSystem {
  import opened Basics
  import opened Paths
  import opened MemFiles
  import opened MemListing
  import opened MemTrees
  import opened MemMoves

  const MAX_SYMLINK_FOLLOWS := 5

  datatype FsError =
    | NoEntry | Exist | Invalid | NotDir | IsDir | NotEmpty | TooManySymlinks | Unsupported
    | Transfer(err: Error)

  datatype Result<+T> = Ok(value: T) | Err(error: FsError)

  function ErrorOf<T>(r: Result<T>): Option<FsError> {
    if r.Err? then Some(r.error) else None
  }

  /** What rename decides before it changes anything. */
  datatype RenamePlan = Refused(error: FsError) | SameFile | Moves(file: MemFile, to: Path)

  datatype OpenFlags = OpenFlags(creat: bool, excl: bool, trunc: bool)

  /** The requests that change the file system. As in the protocol's request record, `Symlink`
      carries the link's text first and the place of the link second. */
  datatype Command =
    | Setstat(path: Path, size: Option<nat>)
    | RenameTo(path: Path, target: Path)
    | PosixRename(path: Path, target: Path)
    | RemoveDir(path: Path)
    | Remove(path: Path)
    | MakeDir(path: Path)
    | HardLink(path: Path, target: Path)
    | SymLink(text: Path, target: Path)
    | Open(path: Path, flags: OpenFlags)
    | Other

  class Root {
    const rootFile: MemFile
    var files: Files

    /** The files form a tree, and each directory's name is its key, so it has only that one. */
    ghost predicate Valid()
      reads this, rootFile`name, files.Values`name
    {
      && IsTree(files)
      && rootFile.isdir && rootFile.name == ROOT && rootFile !in files.Values
      && forall k :: k in files && files[k].isdir ==> files[k].name == k
    }

    constructor ()
      ensures Valid() && files == map[] && fresh(rootFile) && rootFile.symlink == EMPTY
    {
      rootFile := new MemFile(ROOT, EMPTY, true);
      files := map[];
    }

    function Lfetch(p: Path): Option<MemFile>
      reads this
    {
      if p == ROOT then Some(rootFile) else if p in files then Some(files[p]) else None
    }

    ghost function Nodes(): set<MemFile>
      reads this
    {
      files.Values + {rootFile}
    }

    /** No entry, name or content has changed. */
    twostate predicate Untouched()
      reads this, rootFile, files.Values
    {
      && files == old(files)
      && forall f :: f in Nodes() ==> f.name == old(f.name) && f.content == old(f.content)
    }

    ghost function NamesOf(fs: set<MemFile>): Names
      reads fs`name
    {
      map f | f in fs :: f.name
    }

    /** Where a symlink leads: a relative target starts at the link's own directory. */
    function LinkTarget(f: MemFile): Path
      reads f
    {
      if f.symlink.abs then f.symlink else Join(Dir(f.name), f.symlink.parts)
    }

    /** A relative link leads on from the directory its own name is in: by names deeper. */
    lemma {:induction false} RelativeLink(f: MemFile, dir: Path, l: Component, t: seq<Component>)
      requires IsCleanAbs(dir) && l.Name? && f.name == Path(true, dir.parts + [l])
      requires !f.symlink.abs && f.symlink.parts == t && forall i :: 0 <= i < |t| ==> t[i].Name?
      ensures LinkTarget(f) == Path(true, dir.parts + t)
    {
      DirIsParent(f.name);
      assert Parent(f.name) == dir;
      ResolveClean(dir.parts + t);
    }

    /** And by ".." up one level first. */
    lemma {:induction false} LinkUpward(f: MemFile, dir: Path, l: Component, x: Component)
      requires IsCleanAbs(dir) && dir.parts != [] && l.Name? && f.name == Path(true, dir.parts + [l])
      requires !f.symlink.abs && f.symlink.parts == [DotDot, x] && x.Name?
      ensures LinkTarget(f) == Path(true, dir.parts[..|dir.parts| - 1] + [x])
    {
      DirIsParent(f.name);
      assert Parent(f.name) == dir;
      UpAndDown(dir.parts, x);
    }

    /** fs is a chain of symlinks, each leading to the next, that ends at no symlink. */
    ghost predicate LinkChain(fs: seq<MemFile>)
      reads this, set f | f in fs
    {
      && fs != [] && fs[|fs| - 1].symlink == EMPTY
      && forall i :: 0 <= i < |fs| - 1 ==> fs[i].symlink != EMPTY && Lfetch(LinkTarget(fs[i])) == Some(fs[i + 1])
    }

    /** Chains of up to five symlinks are followed, and longer ones refused. */
    lemma {:induction false} ChainFollowed(fs: seq<MemFile>, hops: nat)
      requires LinkChain(fs) && Known(fs[0])
      ensures Follow(fs[0], hops) == if |fs| - 1 <= hops then Ok(fs[|fs| - 1]) else Err(TooManySymlinks)
      decreases hops
    {
      if |fs| > 1 && hops > 0 {
        assert LinkChain(fs[1..]);
        ChainFollowed(fs[1..], hops - 1);
      }
    }

    lemma FiveFollows(p: Path, fs: seq<MemFile>)
      requires LinkChain(fs) && Lfetch(p) == Some(fs[0])
      ensures Fetched(p) == if |fs| <= 6 then Ok(fs[|fs| - 1]) else Err(TooManySymlinks)
    {
      ChainFollowed(fs, 5);
    }

    /** The file objects reachable through a path. */
    ghost predicate Known(f: MemFile)
      reads this
    {
      f == rootFile || f in files.Values
    }

    /** Symlinks followed from f, at most `hops` of them. */
    ghost function Follow(f: MemFile, hops: nat): (r: Result<MemFile>)
      requires Known(f)
      reads this, rootFile, files.Values
      ensures r.Ok? ==> Known(r.value)
      decreases hops
    {
      if f.symlink == EMPTY then Ok(f)
      else if hops == 0 then Err(TooManySymlinks)
      else match Lfetch(LinkTarget(f))
        case None => Err(NoEntry)
        case Some(g) => Follow(g, hops - 1)
    }

    ghost function Fetched(p: Path): (r: Result<MemFile>)
      reads this, rootFile, files.Values
      ensures r.Ok? ==> Known(r.value)
    {
      match Lfetch(p)
      case None => Err(NoEntry)
      case Some(f) => Follow(f, MAX_SYMLINK_FOLLOWS)
    }

    /** The path a name stands for: its directory's own name, then its last component. */
    ghost function Canonical(p: Path): Result<Path>
      reads this, rootFile, files.Values
    {
      match Fetched(Dir(p))
      case Err(e) => Err(e)
      case Ok(dir) =>
        if !dir.isdir then Err(NotDir)
        else Ok(Join(dir.name, LastPart(p)))
    }

    method Fetch(p: Path) returns (r: Result<MemFile>)
      ensures r == Fetched(p)
      ensures Lfetch(p).None? ==> r == Err(NoEntry)
    {
      var found := Lfetch(p);
      if found.None? { return Err(NoEntry); }
      var file := found.value;
      var count := 0;
      while file.symlink != EMPTY
        invariant count <= MAX_SYMLINK_FOLLOWS
        invariant Known(file)
        invariant Follow(file, MAX_SYMLINK_FOLLOWS - count) == Fetched(p)
        decreases MAX_SYMLINK_FOLLOWS - count
      {
        count := count + 1;
        if count > MAX_SYMLINK_FOLLOWS { return Err(TooManySymlinks); }
        found := Lfetch(LinkTarget(file));
        if found.None? { return Err(NoEntry); }
        file := found.value;
      }
      return Ok(file);
    }

    method CanonName(p: Path) returns (r: Result<Path>)
      ensures r == Canonical(p)
      ensures Fetched(Dir(p)).Err? ==> r == Err(Fetched(Dir(p)).error)
      ensures Fetched(Dir(p)).Ok? ==>
                var dir := Fetched(Dir(p)).value;
                r == if dir.isdir then Ok(Join(dir.name, LastPart(p))) else Err(NotDir)
    {
      var dir := Fetch(Dir(p));
      if dir.Err? { return Err(dir.error); }
      if !dir.value.isdir { return Err(NotDir); }
      return Ok(Join(dir.value.name, LastPart(p)));
    }

    /** A canonical name is "/", or an existing directory, or lies in one. */
    lemma CanonicalOk(p: Path)
      requires Valid() && Canonical(p).Ok?
      ensures var c := Canonical(p).value;
              IsCleanAbs(c) && (IsDirectory(files, c) || (c != ROOT && IsDirectory(files, Parent(c))))
    {
      var dir := Fetched(Dir(p)).value;
      var name := dir.name;
      assert IsCleanAbs(name) && IsDirectory(files, name) by {
        if dir != rootFile {
          var k :| k in files && files[k] == dir;
          assert Placed(files, k);
        }
      }
      JoinedName(name, p);
      if name != ROOT { assert Placed(files, name); }
    }

    /** What putfile answers for a name. */
    ghost function PutError(p: Path): Option<FsError>
      reads this, rootFile, files.Values
    {
      match Canonical(p)
      case Err(x) => Some(x)
      case Ok(c) => if !c.abs then Some(Invalid) else if Lfetch(c).Some? then Some(Exist) else None
    }

    /** Creates a directory entry for the file, unless the name is taken. */
    method PutFile(p: Path, file: MemFile) returns (e: Option<FsError>)
      requires Valid() && file != rootFile && (file.isdir ==> file !in files.Values)
      modifies this`files, file`name
      ensures Valid()
      ensures e == old(PutError(p))
      ensures old(Canonical(p)).Err? ==> e == Some(old(Canonical(p)).error)
      ensures old(Canonical(p)).Ok? ==>
                e == if !old(Canonical(p)).value.abs then Some(Invalid)
                     else if old(Lfetch(Canonical(p).value)).Some? then Some(Exist) else None
      ensures e.Some? ==> files == old(files) && file.name == old(file.name)
      ensures e.None? ==> files == old(files)[old(Canonical(p)).value := file] && file.name == old(Canonical(p)).value
    {
      var canon := CanonName(p);
      if canon.Err? { return Some(canon.error); }
      var c := canon.value;
      if !c.abs { return Some(Invalid); }
      if Lfetch(c).Some? { return Some(Exist); }
      CanonicalOk(p);
      AddedIsTree(files, c, file);
      file.name := c;
      files := files[c := file];
      return None;
    }

    /** Creation follows dangling symlinks by their text alone, relative ones included. */
    ghost function Dangling(p: Path, excl: bool, hops: nat): Result<Path>
      reads this, rootFile, files.Values
      decreases hops
    {
      match Lfetch(p)
      case None => Ok(p)
      case Some(f) =>
        if f.symlink == EMPTY then Ok(p)
        else if excl then Err(Invalid)
        else if hops == 0 then Err(TooManySymlinks)
        else Dangling(f.symlink, excl, hops - 1)
    }

    method FollowDangling(p: Path, excl: bool) returns (r: Result<Path>)
      ensures r == Dangling(p, excl, MAX_SYMLINK_FOLLOWS)
      ensures excl && Lfetch(p).Some? && Lfetch(p).value.symlink != EMPTY ==> r == Err(Invalid)
    {
      var q := p;
      var link := Lfetch(q);
      var count := 0;
      while link.Some? && link.value.symlink != EMPTY
        invariant count <= MAX_SYMLINK_FOLLOWS && link == Lfetch(q)
        invariant Dangling(q, excl, MAX_SYMLINK_FOLLOWS - count) == Dangling(p, excl, MAX_SYMLINK_FOLLOWS)
        decreases MAX_SYMLINK_FOLLOWS - count
      {
        if excl { return Err(Invalid); }
        count := count + 1;
        if count > MAX_SYMLINK_FOLLOWS { return Err(TooManySymlinks); }
        q := link.value.symlink;
        link := Lfetch(q);
      }
      return Ok(q);
    }

    /** Links whose texts, as they stand, lead from one to the next and then to `end`, which is no link. */
    ghost predicate TextChain(p: Path, links: seq<MemFile>, end: Path)
      reads this
      decreases |links|
    {
      if links == [] then p == end && (Lfetch(p).Some? ==> Lfetch(p).value.symlink == EMPTY)
      else Lfetch(p) == Some(links[0]) && links[0].symlink != EMPTY && TextChain(links[0].symlink, links[1..], end)
    }

    /** Creation goes through up to five links. */
    lemma {:induction false} DanglingChain(p: Path, links: seq<MemFile>, end: Path, hops: nat)
      requires TextChain(p, links, end)
      ensures Dangling(p, false, hops) == if |links| <= hops then Ok(end) else Err(TooManySymlinks)
      decreases hops
    {
      if links != [] && hops > 0 { DanglingChain(links[0].symlink, links[1..], end, hops - 1); }
    }

    lemma FiveLinks(p: Path, links: seq<MemFile>, end: Path)
      requires TextChain(p, links, end)
      ensures Dangling(p, false, MAX_SYMLINK_FOLLOWS) == if |links| <= 5 then Ok(end) else Err(TooManySymlinks)
    {
      DanglingChain(p, links, end, 5);
    }

    /** The name under which opening p creates a file, or why it does not. */
    ghost function Creation(p: Path, excl: bool): Result<Path>
      reads this, rootFile, files.Values
    {
      match Dangling(p, excl, MAX_SYMLINK_FOLLOWS)
      case Err(x) => Err(x)
      case Ok(q) => if PutError(q).Some? then Err(PutError(q).value) else Canonical(q)
    }

    method PutNew(p: Path) returns (r: Result<MemFile>)
      requires Valid()
      modifies this`files
      ensures Valid()
      ensures match old(PutError(p))
              case Some(x) => r == Err(x) && files == old(files)
              case None => r.Ok? && fresh(r.value) && EntersEmpty(old(files), old(Canonical(p)).value, r.value)
    {
      var file := new MemFile(EMPTY, EMPTY, false);
      var e := PutFile(p, file);
      return if e.Some? then Err(e.value) else Ok(file);
    }

    /** The files are m with one more, f, which is empty. */
    ghost predicate EntersEmpty(m: Files, c: Path, f: MemFile)
      reads this`files, f
    {
      && c != ROOT && c !in m && files == m[c := f]
      && f.name == c && !f.isdir && f.symlink == EMPTY && f.content == []
    }

    /** Creation through a relative name fails: such a name is no key, and its directory is not either. */
    lemma RelativeRefused(q: Path)
      requires Valid() && !q.abs
      ensures PutError(q) == Some(NoEntry) && Lfetch(q) == None
    {
      TreeKeysAreClean(files);
    }

    /** So a symlink with a relative text never leads to a new file. */
    lemma RelativeLinkRefused(p: Path)
      requires Valid() && Lfetch(p).Some? && Lfetch(p).value.symlink != EMPTY && !Lfetch(p).value.symlink.abs
      ensures Creation(p, false) == Err(NoEntry)
    {
      var text := Lfetch(p).value.symlink;
      RelativeRefused(text);
      assert Dangling(text, false, MAX_SYMLINK_FOLLOWS - 1) == Ok(text);
    }

    /** A name is its own canonical name if and only if it is clean and its parent is a directory
        and no symlink. */
    lemma CanonicalItself(q: Path)
      requires Valid() && PutError(q).None?
      ensures Canonical(q) == Ok(q) <==> IsCleanAbs(q) && IsRealDirectory(Parent(q))
    {
      CanonicalOk(q);
      NewLiesIn(q);
      if IsCleanAbs(q) {
        LastJoins(q);
        if IsRealDirectory(Parent(q)) { RealIsItself(Parent(q)); }
      }
    }

    /** A directory that is no symlink is found under its own name. */
    lemma RealIsItself(p: Path)
      requires Valid() && IsRealDirectory(p)
      ensures Fetched(p) == Ok(Lfetch(p).value) && Lfetch(p).value.name == p
    {}

    ghost predicate IsRealDirectory(p: Path)
      reads this, rootFile, files.Values
    {
      Lfetch(p).Some? && Lfetch(p).value.isdir && Lfetch(p).value.symlink == EMPTY
    }

    /** What a file found through a chain is: no symlink itself. */
    lemma FollowEnds(f: MemFile, hops: nat)
      requires Known(f) && Follow(f, hops).Ok?
      ensures Follow(f, hops).value.symlink == EMPTY
      decreases hops
    {
      if f.symlink != EMPTY { FollowEnds(Lfetch(LinkTarget(f)).value, hops - 1); }
    }

    /** A free canonical name lies in the directory its name leads to, which is real. */
    lemma NewLiesIn(q: Path)
      requires Valid() && PutError(q).None?
      ensures var c, dir := Canonical(q).value, Fetched(Dir(q)).value;
              c != ROOT && Parent(c) == dir.name && Lfetch(dir.name) == Some(dir) && dir.symlink == EMPTY
    {
      var dir := Fetched(Dir(q)).value;
      var name := dir.name;
      FollowEnds(Lfetch(Dir(q)).value, MAX_SYMLINK_FOLLOWS);
      if dir != rootFile {
        var k :| k in files && files[k] == dir;
        assert Placed(files, k);
      }
      JoinedName(name, q);
    }

    /** In the files m the link f leads, by absolute texts, to `end`, which is no key. */
    ghost predicate LeadsNowhere(m: Files, f: MemFile, hops: nat, end: Path)
      decreases hops
    {
      && f.symlink.abs && hops > 0
      && var q := f.symlink;
         if q == ROOT then LeadsNowhere(m, rootFile, hops - 1, end)
         else if q in m then LeadsNowhere(m, m[q], hops - 1, end)
         else q == end
    }

    lemma {:induction false} DanglingLeadsNowhere(f: MemFile, hops: nat)
      requires Valid() && Known(f) && f.symlink != EMPTY && hops > 0 && Follow(f, hops) == Err(NoEntry)
      requires Dangling(f.symlink, false, hops - 1).Ok? && Dangling(f.symlink, false, hops - 1).value.abs
      ensures LeadsNowhere(files, f, hops, Dangling(f.symlink, false, hops - 1).value)
      decreases hops
    {
      TreeKeysAreClean(files);
      var next := Lfetch(f.symlink);
      if next.Some? { DanglingLeadsNowhere(next.value, hops - 1); }
    }

    /** Once r is created at c, a link that led nowhere leads to r if and only if its chain ends in c. */
    lemma {:induction false} ChainEnds(m: Files, f: MemFile, hops: nat, end: Path, c: Path, r: MemFile)
      requires LeadsNowhere(m, f, hops, end) && EntersEmpty(m, c, r) && Known(f)
      ensures Follow(f, hops) == if end == c then Ok(r) else Err(NoEntry)
      decreases hops
    {
      var next := Lfetch(f.symlink);
      if next.Some? && next != Some(r) { ChainEnds(m, next.value, hops - 1, end, c, r); }
    }

    /** Before r is created: where the link at p ends. */
    lemma CreationEnds(p: Path, excl: bool)
      requires Valid() && Fetched(p) == Err(NoEntry) && Creation(p, excl).Ok?
      ensures var q := Dangling(p, excl, MAX_SYMLINK_FOLLOWS).value;
              match Lfetch(p) case None => q == p case Some(f) => LeadsNowhere(files, f, MAX_SYMLINK_FOLLOWS, q)
    {
      var q := Dangling(p, excl, MAX_SYMLINK_FOLLOWS).value;
      if !q.abs { RelativeRefused(q); }
      if Lfetch(p).Some? { DanglingLeadsNowhere(Lfetch(p).value, MAX_SYMLINK_FOLLOWS); }
    }

    /** Creates what p leads nowhere to. p then leads to it if and only if its chain ends in the
        canonical name. */
    method Create(p: Path, excl: bool) returns (r: Result<MemFile>)
      requires Valid() && Fetched(p) == Err(NoEntry)
      modifies this`files
      ensures Valid()
      ensures match old(Creation(p, excl))
              case Err(x) => r == Err(x) && files == old(files)
              case Ok(c) => r.Ok? && fresh(r.value) && EntersEmpty(old(files), c, r.value)
                            && Fetched(p) == FoundIf(old(Dangling(p, excl, MAX_SYMLINK_FOLLOWS)) == Ok(c), r)
    {
      var end := FollowDangling(p, excl);
      if end.Err? { return Err(end.error); }
      ghost var m, link := files, Lfetch(p);
      if Creation(p, excl).Ok? { CreationEnds(p, excl); }
      r := PutNew(end.value);
      assert r.Ok? && p in m ==> files[p] == m[p];
      if r.Ok? && link.Some? { ChainEnds(m, link.value, MAX_SYMLINK_FOLLOWS, end.value, r.value.name, r.value); }
    }

    function FoundIf(found: bool, r: Result<MemFile>): Result<MemFile> {
      if found then r else Err(NoEntry)
    }

    /** What opening an existing file answers. */
    ghost function Opened(f: MemFile, flags: OpenFlags): Result<MemFile>
      reads f
    {
      if flags.creat && flags.excl then Err(Exist)
      else if f.isdir then Err(Invalid)
      else if flags.trunc && f.err.Some? then Err(Transfer(f.err.value))
      else Ok(f)
    }

    /** The files whose key lies in the directory, each key once, in the order of their names;
        `keys` tells which is whose. */
    method Readdir(p: Path) returns (r: Result<seq<MemFile>>, keys: seq<Path>)
      ensures Fetched(p).Err? ==> r == Err(Fetched(p).error)
      ensures Fetched(p).Ok? ==> (r == Err(NotDir) <==> !Fetched(p).value.isdir) && (r.Ok? <==> Fetched(p).value.isdir)
      ensures r.Ok? ==> |r.value| == |keys| && Entries(keys, Fetched(p).value.name)
      ensures r.Ok? ==> forall i :: 0 <= i < |keys| ==> keys[i] in files && r.value[i] == files[keys[i]]
    {
      var dir := Fetch(p);
      if dir.Err? { return Err(dir.error), []; }
      if !dir.value.isdir { return Err(NotDir), []; }
      keys := SortedKeys(dir.value.name);
      var m := files;
      return Ok(seq(|keys|, i requires 0 <= i < |keys| && keys[i] in m => m[keys[i]])), keys;
    }

    /** The keys are those in the directory `name`, each once, in the order of their files' names. */
    ghost predicate Entries(keys: seq<Path>, name: Path)
      reads this, files.Values`name
    {
      KeysOnce(keys, KeysIn(files, name)) && NamesInOrder(keys)
    }

    ghost predicate NamesInOrder(keys: seq<Path>)
      reads this, files.Values`name
    {
      && (forall k :: k in keys ==> k in files)
      && (forall i, j :: 0 <= i < j < |keys| ==> !Before(files[keys[j]].name, files[keys[i]].name))
    }

    method SortedKeys(name: Path) returns (keys: seq<Path>)
      ensures Entries(keys, name)
    {
      var found := Collect(name);
      var all := SortByName(found);
      SortedListing(found, KeysIn(files, name));
      keys := seq(|all|, i requires 0 <= i < |all| => all[i].key);
      ListedOnce(all, KeysIn(files, name), keys);
      LabelledInOrder(all, keys);
    }

    lemma LabelledInOrder(all: seq<Listed>, keys: seq<Path>)
      requires Labelled(all) && InOrder(all) && |keys| == |all| && forall i :: 0 <= i < |all| ==> keys[i] == all[i].key
      ensures NamesInOrder(keys)
    {
      forall i | 0 <= i < |all| ensures keys[i] in files && all[i].name == files[keys[i]].name { assert all[i] in all; }
    }

    method Collect(name: Path) returns (found: seq<Listed>)
      ensures IsListing(found, KeysIn(files, name)) && Labelled(found)
    {
      found := [];
      var todo := files.Keys;
      ghost var mine: set<Path> := {};
      while todo != {}
        invariant todo <= files.Keys && mine <= files.Keys && IsListing(found, mine) && Labelled(found)
        invariant forall k :: k in mine <==> k in files && k !in todo && Dir(k) == name
        decreases |todo|
      {
        var k :| k in todo;
        if Dir(k) == name {
          ListOne(found, mine, Listed(k, files[k].name));
          found := found + [Listed(k, files[k].name)];
          mine := mine + {k};
        }
        todo := todo - {k};
      }
      assert mine == KeysIn(files, name);
    }

    ghost predicate Labelled(s: seq<Listed>)
      reads this, files.Values`name
    {
      forall e :: e in s ==> e.key in files && e.name == files[e.key].name
    }

    ghost function OpenError(p: Path, flags: OpenFlags): Option<FsError>
      reads this, rootFile, files.Values
    {
      match Fetched(p)
      case Ok(f) => ErrorOf(Opened(f, flags))
      case Err(e) => if e != NoEntry || !flags.creat then Some(e) else ErrorOf(Creation(p, flags.excl))
    }

    /** The name under which opening p creates a file, if it does. */
    ghost function NewName(p: Path, flags: OpenFlags): Option<Path>
      reads this, rootFile, files.Values
    {
      if Fetched(p) == Err(NoEntry) && flags.creat && Creation(p, flags.excl).Ok? then
        Some(Creation(p, flags.excl).value)
      else None
    }

    /** What opening p did. An existing file was truncated on request, and no other content
        changed. A created one is at the canonical name of the end of the symlink chain, and p
        leads to it if and only if that end is canonical. */
    twostate predicate OpenDone(p: Path, flags: OpenFlags, new e: Option<FsError>)
      reads this, rootFile, files.Values
    {
      && e == old(OpenError(p, flags))
      && (match old(NewName(p, flags))
          case None => files == old(files)
          case Some(c) => c in files && fresh(files[c]) && EntersEmpty(old(files), c, files[c])
                          && Fetched(p) ==
                             FoundIf(old(Dangling(p, flags.excl, MAX_SYMLINK_FOLLOWS)) == Ok(c), Ok(files[c])))
      && forall f :: f in Nodes() && !fresh(f) ==>
           && f.name == old(f.name)
           && f.content == if e.None? && flags.trunc && old(Fetched(p)) == Ok(f) then [] else old(f.content)
    }

    method OpenFile(p: Path, flags: OpenFlags) returns (r: Result<MemFile>)
      requires Valid()
      modifies this`files, files.Values`content
      ensures Valid() && OpenDone(p, flags, ErrorOf(r))
      ensures r.Ok? ==> r.value == match old(NewName(p, flags)) case None => old(Fetched(p)).value
                                                                case Some(c) => files[c]
      ensures old(Fetched(p)).Ok? ==>
                var f := old(Fetched(p)).value;
                r == if flags.creat && flags.excl then Err(Exist) else if f.isdir then Err(Invalid)
                     else if flags.trunc && f.err.Some? then Err(Transfer(f.err.value)) else Ok(f)
      ensures old(Fetched(p)).Err? && (old(Fetched(p)).error != NoEntry || !flags.creat) ==>
                r == Err(old(Fetched(p)).error)
    {
      var found := Fetch(p);
      if found == Err(NoEntry) {
        if !flags.creat { return Err(NoEntry); }
        r := Create(p, flags.excl);
        return;
      }
      if found.Err? { return Err(found.error); }
      var file := found.value;
      if flags.creat && flags.excl { return Err(Exist); }
      if file.isdir { return Err(Invalid); }
      if flags.trunc {
        var e := file.Truncate(0);
        if e.Some? { return Err(Transfer(e.value)); }
      }
      return Ok(file);
    }

    method Mkdir(p: Path) returns (e: Option<FsError>)
      requires Valid()
      modifies this`files
      ensures Valid()
      ensures e == old(PutError(p))
      ensures e.Some? ==> files == old(files)
      ensures e.None? ==>
                var c := old(Canonical(p)).value;
                && c in files && files == old(files)[c := files[c]]
                && fresh(files[c]) && files[c].isdir && files[c].symlink == EMPTY
    {
      var dir := new MemFile(EMPTY, EMPTY, true);
      e := PutFile(p, dir);
    }

    /** Walks the keys for one whose directory is `name`. */
    method HasEntry(name: Path) returns (yes: bool)
      ensures yes <==> HasChild(files, name)
    {
      var todo := files.Keys;
      while todo != {}
        invariant todo <= files.Keys
        invariant forall k :: k in files && k !in todo ==> Dir(k) != name
        decreases |todo|
      {
        var k :| k in todo;
        if Dir(k) == name { return true; }
        todo := todo - {k};
      }
      return false;
    }

    /** Removes a directory nothing is in. */
    method Rmdir(p: Path) returns (e: Option<FsError>)
      requires Valid()
      modifies this`files
      ensures Valid()
      ensures e == old(RmdirError(p))
      ensures e == (if old(Lfetch(p)).None? then Some(NoEntry) else if !old(Lfetch(p)).value.isdir then Some(NotDir)
                    else if old(HasChild(files, p)) then Some(NotEmpty) else None)
      ensures files == if e.None? then old(files) - {p} else old(files)
    {
      var dir := Lfetch(p);
      if dir.None? { return Some(NoEntry); }
      if !dir.value.isdir { return Some(NotDir); }
      var name := dir.value.name;
      var occupied := HasEntry(name);
      if occupied { return Some(NotEmpty); }
      RemovedIsTree(files, name);
      files := files - {name};
      return None;
    }

    ghost function RmdirError(p: Path): Option<FsError>
      reads this, rootFile`name, files.Values`name
    {
      match Lfetch(p)
      case None => Some(NoEntry)
      case Some(f) =>
        if !f.isdir then Some(NotDir) else if HasChild(files, f.name) then Some(NotEmpty) else None
    }

    /** Another key for a file that is not a directory. */
    method Link(oldpath: Path, newpath: Path) returns (e: Option<FsError>)
      requires Valid()
      modifies this`files, (if oldpath in files then {files[oldpath]} else {})`name
      ensures Valid()
      ensures old(Lfetch(oldpath)) == None ==> e == Some(NoEntry)
      ensures old(Lfetch(oldpath)).Some? && old(Lfetch(oldpath)).value.isdir ==> e == Some(IsDir)
      ensures old(Lfetch(oldpath)).Some? && !old(Lfetch(oldpath)).value.isdir ==> e == old(PutError(newpath))
      ensures e.Some? ==> Untouched()
      ensures e.None? ==>
                var c := old(Canonical(newpath)).value;
                files == old(files)[c := old(files)[oldpath]] && files[c].name == c
    {
      var file := Lfetch(oldpath);
      if file.None? { return Some(NoEntry); }
      if file.value.isdir { return Some(IsDir); }
      e := PutFile(newpath, file.value);
    }

    method Symlink(target: Path, linkpath: Path) returns (e: Option<FsError>)
      requires Valid()
      modifies this`files
      ensures Valid()
      ensures e == old(PutError(linkpath))
      ensures e.Some? ==> files == old(files)
      ensures e.None? ==>
                var c := old(Canonical(linkpath)).value;
                && c in files && files == old(files)[c := files[c]]
                && fresh(files[c]) && !files[c].isdir && files[c].symlink == target && files[c].name == c
    {
      var link := new MemFile(EMPTY, target, false);
      e := PutFile(linkpath, link);
    }

    /** Removes one key of a file; its other hard links stay. */
    method Unlink(p: Path) returns (e: Option<FsError>)
      requires Valid()
      modifies this`files
      ensures Valid()
      ensures e == match old(Lfetch(p)) case None => Some(NoEntry)
                                        case Some(f) => if f.isdir then Some(Invalid) else None
      ensures files == if e.None? then old(files) - {p} else old(files)
    {
      var file := Lfetch(p);
      if file.None? { return Some(NoEntry); }
      if file.value.isdir { return Some(Invalid); }
      RemovedIsTree(files, p);
      files := files - {p};
      return None;
    }

    method Exists(p: Path) returns (yes: bool)
      ensures yes <==> Canonical(p).Ok? && Lfetch(Canonical(p).value).Some?
    {
      var c := CanonName(p);
      if c.Err? { return false; }
      return Lfetch(c.value).Some?;
    }

    method Readlink(p: Path) returns (r: Result<Path>)
      ensures r == match Lfetch(p) case None => Err(NoEntry)
                   case Some(f) => if f.symlink == EMPTY then Err(Invalid) else Ok(f.symlink)
    {
      var file := Lfetch(p);
      if file.None? { return Err(NoEntry); }
      if file.value.symlink == EMPTY { return Err(Invalid); }
      return Ok(file.value.symlink);
    }

    /** rename's walk over the keys. Go may or may not visit a key inserted on the way, so one
        may join those still to come, a bounded number of times; keys come in any order. */
    method MoveChildren(from: Path, to: Path, ghost known: set<MemFile>)
      requires CleanKeys(files) && IsCleanAbs(to) && (from == ROOT || IsBelow(to, from) || CanMove(files, from, to))
      requires CanMove(files, from, to) ==> DirsNamed(files - {to}, NamesOf(known))
      requires files.Values <= known
      modifies this`files, files.Values`name
      ensures Walking(old(files), files, old(NamesOf(known)), NamesOf(known), from, to, {})
    {
      ghost var before, was := files, NamesOf(known);
      WalkingStart(files, was, from, to);
      var todo := files.Keys;
      var more: nat := *;
      while todo != {}
        invariant Walking(before, files, was, NamesOf(known), from, to, todo)
        decreases more, |todo|
      {
        var name :| name in todo;
        if IsBelow(name, from) {
          WalkingStep(before, files, was, NamesOf(known), from, to, todo, name);
          var newname := MoveOne(name, from, to, known);
          todo := todo - {name};
          var again: bool := *;
          if more > 0 && again {
            WalkingOn(before, files, was, NamesOf(known), from, to, todo, todo + {newname});
            todo, more := todo + {newname}, more - 1;
          }
        } else {
          WalkingOn(before, files, was, NamesOf(known), from, to, todo, todo - {name});
          todo := todo - {name};
        }
      }
    }

    /** One key below `from` replaced by the key at the same place under `to`. */
    method MoveOne(name: Path, from: Path, to: Path, ghost known: set<MemFile>) returns (newname: Path)
      requires name in files && IsBelow(name, from) && IsCleanAbs(name) && IsCleanAbs(to)
      requires files[name] in known
      modifies this`files, {files[name]}`name
      ensures newname == Rebase(name, from, to)
      ensures files == AfterMove(old(files), name, newname)
      ensures NamesOf(known) == old(NamesOf(known))[old(files)[name] := newname]
    {
      newname := Join(to, name.parts[|from.parts|..]);
      JoinSuffix(name, from, to);
      var file := files[name];
      files := files[newname := file];
      file.name := newname;
      files := files - {name};
    }

    /** Which file rename is to put where, before it looks at what it would replace. */
    ghost function Asked(oldpath: Path, newpath: Path): RenamePlan
      reads this, rootFile, files.Values
    {
      match Lfetch(oldpath)
      case None => Refused(NoEntry)
      case Some(file) =>
        match Canonical(newpath)
        case Err(e) => Refused(e)
        case Ok(to) =>
          if !to.abs then Refused(Invalid) else if Lfetch(to) == Some(file) then SameFile else Moves(file, to)
    }

    /** What rename decides: which file goes where, or why nothing is done. */
    ghost function Plan(oldpath: Path, newpath: Path): RenamePlan
      reads this, rootFile, files.Values
    {
      match Asked(oldpath, newpath)
      case Moves(file, to) => Decided(file, to)
      case plan => plan
    }

    /** The plan once what stands at `to` has been looked at. */
    ghost function Decided(file: MemFile, to: Path): RenamePlan
      reads this, rootFile`name, files.Values`name
    {
      match ReplaceError(file, to) case Some(e) => Refused(e) case None => Moves(file, to)
    }

    /** What stands at the place of a planned move. */
    lemma PlanTarget(oldpath: Path, newpath: Path)
      requires Valid() && Plan(oldpath, newpath).Moves?
      ensures var p := Plan(oldpath, newpath);
              && Lfetch(oldpath) == Some(p.file) && Canonical(newpath) == Ok(p.to) && p.to != oldpath
              && (p.to == ROOT ==> oldpath in files && !HasChild(files, ROOT))
              && (p.to in files ==> if p.file.isdir then files[p.to].isdir && RmdirError(p.to) == None
                                    else !files[p.to].isdir)
              && (p.to in files && files[p.to].isdir ==> !HasChild(files, p.to))
    {}

    /** A planned move has a place to go: a name in some directory, with nothing below it. */
    lemma PlanFindsPlace(oldpath: Path, newpath: Path)
      requires Valid() && Plan(oldpath, newpath).Moves?
      ensures HasPlace(files, oldpath, Plan(oldpath, newpath).to)
    {
      var to := Plan(oldpath, newpath).to;
      PlanTarget(oldpath, newpath);
      CanonicalOk(newpath);
      FindsPlace(files, oldpath, to);
    }

    lemma ValidByNames(known: set<MemFile>)
      requires IsTree(files) && rootFile.isdir && rootFile in known && rootFile.name == ROOT
      requires files.Values <= known && rootFile !in files.Values && DirsNamed(files, NamesOf(known))
      ensures Valid()
    {}

    /** Names the moved file and drops its old entry. */
    method LeaveOld(file: MemFile, oldpath: Path, to: Path, ghost known: set<MemFile>)
      requires file in known
      modifies this`files, file`name
      ensures NamesOf(known) == old(NamesOf(known))[file := to]
      ensures files == old(files) - {oldpath} && file.name == to
    {
      file.name := to;
      files := files - {oldpath};
    }

    /** Enters the file at its new place, and moves what is below it. */
    method EnterAt(file: MemFile, oldpath: Path, to: Path, ghost known: set<MemFile>)
      requires Valid() && Lfetch(oldpath) == Some(file) && HasPlace(files, oldpath, to)
      requires to in files ==> !file.isdir && !files[to].isdir
      requires Nodes() <= known
      modifies this`files, rootFile`name, files.Values`name
      ensures IsBelow(to, oldpath) && oldpath != ROOT ==> HasBelow(files, oldpath)
      ensures Safe(oldpath, to) ==> Entered(old(files), files, old(NamesOf(known)), NamesOf(known), oldpath, to)
    {
      ghost var m, was := files, NamesOf(known);
      EntryReady(files, oldpath, to, file);
      files := files[to := file];
      if file.isdir {
        MoveChildren(file.name, to, known);
        if Safe(oldpath, to) { WalkedIsEntered(m, files, was, NamesOf(known), oldpath, to); }
      }
    }

    /** The files and names after a move, m and `was` being those before it: a tree if and only
        if the move is safe. */
    ghost predicate Moved(m: Files, was: Names, now: Names, from: Path, to: Path)
      reads this, rootFile`name, files.Values`name
    {
      && (Valid() <==> Safe(from, to))
      && (Safe(from, to) ==> MovedTo(m, files, was, now, from, to))
    }

    /** The changes of rename once it is decided. They keep the tree unless "/" itself is moved
        or a directory is moved below itself. */
    method MoveEntry(file: MemFile, oldpath: Path, to: Path, ghost known: set<MemFile>)
      requires Valid() && Lfetch(oldpath) == Some(file) && HasPlace(files, oldpath, to)
      requires to in files ==> !file.isdir && !files[to].isdir
      requires Nodes() <= known
      modifies this`files, rootFile`name, files.Values`name
      ensures Moved(old(files), old(NamesOf(known)), NamesOf(known), oldpath, to)
    {
      ghost var m, was := files, NamesOf(known);
      TreeKeysAreClean(m);
      EnterAt(file, oldpath, to, known);
      ghost var t, now := files, NamesOf(known);
      LeaveOld(file, oldpath, to, known);
      if Safe(oldpath, to) {
        EnteredDone(m, t, was, now, oldpath, to);
        RootNameKept(m, files, was, NamesOf(known), oldpath, to, rootFile);
        ValidByNames(known);
      } else if oldpath != ROOT {
        NotTree(files, oldpath);
      }
    }

    /** Whether what stands at `to` may be replaced by the file. */
    ghost function ReplaceError(file: MemFile, to: Path): Option<FsError>
      reads this, rootFile`name, files.Values`name
    {
      match Lfetch(to)
      case None => None
      case Some(target) =>
        if file.isdir then RmdirError(to) else if target.isdir then Some(IsDir) else None
    }

    /** From what is asked to what is planned. */
    lemma AskedToPlanned(oldpath: Path, newpath: Path)
      requires Valid()
      ensures match Asked(oldpath, newpath)
              case Moves(file, to) =>
                && Lfetch(oldpath) == Some(file) && Plan(oldpath, newpath) == Decided(file, to)
                && (Decided(file, to).Moves? ==> HasPlace(files, oldpath, to))
              case plan => Plan(oldpath, newpath) == plan
    {
      if Plan(oldpath, newpath).Moves? { PlanFindsPlace(oldpath, newpath); }
    }

    /** Removes the empty directory at `to` if the file is a directory too. */
    method MakeRoom(file: MemFile, to: Path) returns (e: Option<FsError>)
      requires Valid()
      modifies this`files
      ensures Valid() && e == old(ReplaceError(file, to))
      ensures files == if e.None? && file.isdir then old(files) - {to} else old(files)
    {
      var target := Lfetch(to);
      if target.Some? {
        if file.isdir {
          e := Rmdir(to);
          return;
        } else if target.value.isdir {
          return Some(IsDir);
        }
      }
      return None;
    }

    /** MakeRoom and MoveEntry, one after the other. */
    method Replace(file: MemFile, oldpath: Path, to: Path) returns (e: Option<FsError>)
      requires Valid() && Lfetch(oldpath) == Some(file)
      requires Decided(file, to).Moves? ==> HasPlace(files, oldpath, to)
      modifies this`files, rootFile`name, files.Values`name
      ensures AsPlanned(oldpath, old(Decided(file, to)), old(files), old(NamesOf(Nodes())), NamesOf(old(Nodes())), e)
      ensures e.Some? ==> Valid()
    {
      ghost var m, known := files, Nodes();
      TreeKeysAreClean(m);
      e := MakeRoom(file, to);
      assert NamesOf(known) == old(NamesOf(Nodes()));
      ghost var decided := old(Decided(file, to));
      assert decided == if e.Some? then Refused(e.value) else Moves(file, to);
      if e.Some? { return; }
      PlaceKept(m, oldpath, to);
      MoveEntry(file, oldpath, to, known);
      if Safe(oldpath, to) && file.isdir { MovedOver(m, files, old(NamesOf(Nodes())), NamesOf(known), oldpath, to); }
    }

    /** A rename from the files m, with the names `was`, did what was planned. */
    ghost predicate AsPlanned(path: Path, plan: RenamePlan, m: Files, was: Names, now: Names, e: Option<FsError>)
      reads this, rootFile`name, files.Values`name
    {
      match plan
      case Refused(x) => e == Some(x) && files == m && now == was
      case SameFile => e == None && files == m && now == was
      case Moves(file, to) => e == None && Moved(m, was, now, path, to)
    }

    ghost predicate MoveAllowed(oldpath: Path, newpath: Path)
      reads this, rootFile, files.Values
    {
      Plan(oldpath, newpath).Moves? ==> Safe(oldpath, Plan(oldpath, newpath).to)
    }

    /** Moves an entry, with all below it if it is a directory. What it refuses changes nothing.
        A move is exact, and keeps the tree if and only if it is safe. What is done and what is
        refused goes by what stands at the two paths. */
    method Rename(oldpath: Path, newpath: Path) returns (e: Option<FsError>)
      requires Valid()
      modifies this`files, rootFile`name, files.Values`name
      ensures AsPlanned(oldpath, old(Plan(oldpath, newpath)), old(files),
                        old(NamesOf(Nodes())), NamesOf(old(Nodes())), e)
      ensures Valid() <==> old(MoveAllowed(oldpath, newpath))
      ensures Valid() ==> files.Values <= old(files).Values
      ensures RenameRule(oldpath, old(Lfetch(oldpath)), old(Canonical(newpath)), old(Standing(newpath)),
                         old(files), files, old(NamesOf(Nodes())), NamesOf(old(Nodes())), e)
    {
      PlanFollowsRule(oldpath, newpath);
      ghost var plan, m, was, known := Plan(oldpath, newpath), files, NamesOf(Nodes()), Nodes();
      ghost var found, place, target := Lfetch(oldpath), Canonical(newpath), Standing(newpath);
      assert DirsNamed(m, was) && was[rootFile] == ROOT && m.Values <= known;
      e := RenameAsPlanned(oldpath, newpath);
      if plan.Moves? && files == m && NamesOf(known) == was { ValidByNames(known); }
      RuleKept(oldpath, found, place, target, plan, m, files, was, NamesOf(known), e);
    }

    /** What stands at the canonical place of a path. */
    ghost function Standing(p: Path): Option<MemFile>
      reads this, rootFile, files.Values
    {
      match Canonical(p) case Ok(c) => Lfetch(c) case Err(_) => None
    }

    lemma PlanFollowsRule(oldpath: Path, newpath: Path)
      requires Valid()
      ensures PlanRule(files, Lfetch(oldpath), Canonical(newpath), Standing(newpath), Plan(oldpath, newpath))
      ensures Plan(oldpath, newpath).Moves? && oldpath != ROOT ==> oldpath in files && IsCleanAbs(oldpath)
      ensures Plan(oldpath, newpath).Moves? ==>
                IsCleanAbs(Plan(oldpath, newpath).to) && Plan(oldpath, newpath).to != ROOT
    {
      if Canonical(newpath).Ok? { CanonicalOk(newpath); }
      if Plan(oldpath, newpath).Moves? { PlanFindsPlace(oldpath, newpath); }
      TreeKeysAreClean(files);
    }

    /** The changes of rename, by the plan. */
    method RenameAsPlanned(oldpath: Path, newpath: Path) returns (e: Option<FsError>)
      requires Valid()
      modifies this`files, rootFile`name, files.Values`name
      ensures AsPlanned(oldpath, old(Plan(oldpath, newpath)), old(files),
                        old(NamesOf(Nodes())), NamesOf(old(Nodes())), e)
      ensures Valid() <==> old(MoveAllowed(oldpath, newpath))
      ensures Valid() ==> files.Values <= old(files).Values
    {
      AskedToPlanned(oldpath, newpath);
      var asked := Ask(oldpath, newpath);
      ghost var plan, was := old(Plan(oldpath, newpath)), old(NamesOf(Nodes()));
      assert Plan(oldpath, newpath) == plan;
      assert Nodes() == old(Nodes()) && NamesOf(Nodes()) == old(NamesOf(Nodes()));
      match asked {
        case Refused(x) => return Some(x);
        case SameFile => return None;
        case Moves(file, to) =>
          assert plan == Decided(file, to);
          e := Replace(file, oldpath, to);
          assert AsPlanned(oldpath, plan, old(files), was, NamesOf(old(Nodes())), e);
      }
    }

    method Ask(oldpath: Path, newpath: Path) returns (plan: RenamePlan)
      ensures plan == Asked(oldpath, newpath)
    {
      var file := Lfetch(oldpath);
      if file.None? { return Refused(NoEntry); }
      var canon := CanonName(newpath);
      if canon.Err? { return Refused(canon.error); }
      var to := canon.value;
      if !to.abs { return Refused(Invalid); }
      return if Lfetch(to) == Some(file.value) then SameFile else Moves(file.value, to);
    }

    ghost predicate Taken(p: Path)
      reads this, rootFile, files.Values
    {
      Canonical(p).Ok? && Lfetch(Canonical(p).value).Some?
    }

    /** The precondition of renames, as a caller can check it. */
    ghost predicate Allowed(c: Command)
      reads this, rootFile, files.Values
    {
      && (c.RenameTo? && !Taken(c.target) ==> MoveAllowed(c.path, c.target))
      && (c.PosixRename? ==> MoveAllowed(c.path, c.target))
    }

    ghost function SetstatError(path: Path, size: Option<nat>): Option<FsError>
      reads this, rootFile, files.Values
    {
      match Fetched(path)
      case Err(x) => Some(x)
      case Ok(f) =>
        if f.isdir then Some(Invalid) else if size.Some? && f.err.Some? then Some(Transfer(f.err.value)) else None
    }

    /** What a Setstat did: the size is the one given, and no other file's content has changed. */
    twostate predicate SetstatDone(path: Path, size: Option<nat>, new e: Option<FsError>)
      reads this, rootFile, files.Values
    {
      && e == old(SetstatError(path, size)) && files == old(files)
      && forall f :: f in Nodes() ==>
           && f.name == old(f.name)
           && if e.None? && size.Some? && old(Fetched(path)) == Ok(f)
              then Resized(old(f.content), f.content, size.value)
              else f.content == old(f.content)
    }

    method SetSize(path: Path, size: Option<nat>) returns (e: Option<FsError>)
      requires Valid()
      modifies this`files, files.Values`content
      ensures Valid() && SetstatDone(path, size, e)
    {
      var file := OpenFile(path, OpenFlags(false, false, false));
      if file.Err? { return Some(file.error); }
      if size.Some? {
        var x := file.value.Truncate(size.value);
        return if x.Some? then Some(Transfer(x.value)) else None;
      }
      return None;
    }

    /** The plain rename, which does not replace. */
    method RenameNew(path: Path, target: Path) returns (e: Option<FsError>)
      requires Valid()
      modifies this`files, rootFile`name, files.Values`name
      ensures old(Taken(target)) ==> e == Some(Exist) && Untouched() && Valid()
      ensures !old(Taken(target)) ==>
                AsPlanned(path, old(Plan(path, target)), old(files),
                          old(NamesOf(Nodes())), NamesOf(old(Nodes())), e)
      ensures !old(Taken(target)) ==>
                RenameRule(path, old(Lfetch(path)), old(Canonical(target)), old(Standing(target)), old(files), files,
                           old(NamesOf(Nodes())), NamesOf(old(Nodes())), e)
      ensures Valid() <==> old(Taken(target)) || old(MoveAllowed(path, target))
      ensures Valid() ==> files.Values <= old(files).Values
    {
      var taken := Exists(target);
      if taken { return Some(Exist); }
      ghost var plan, was := old(Plan(path, target)), old(NamesOf(Nodes()));
      assert Plan(path, target) == plan;
      assert Nodes() == old(Nodes()) && NamesOf(Nodes()) == was;
      assert MoveAllowed(path, target) == old(MoveAllowed(path, target));
      assert Lfetch(path) == old(Lfetch(path)) && Canonical(target) == old(Canonical(target));
      assert Standing(target) == old(Standing(target));
      e := Rename(path, target);
      assert AsPlanned(path, plan, old(files), was, NamesOf(old(Nodes())), e);
    }

    /** What the requests that change a single key answer. */
    ghost function ChangeError(c: Command): Option<FsError>
      requires c.RemoveDir? || c.Remove? || c.MakeDir? || c.HardLink? || c.SymLink?
      reads this, rootFile, files.Values
    {
      match c
      case RemoveDir(path) => RmdirError(path)
      case Remove(path) =>
        (match Lfetch(path) case None => Some(NoEntry) case Some(f) => if f.isdir then Some(Invalid) else None)
      case MakeDir(path) => PutError(path)
      case SymLink(_, target) => PutError(target)
      case HardLink(path, target) =>
        match Lfetch(path)
        case None => Some(NoEntry)
        case Some(f) => if f.isdir then Some(IsDir) else PutError(target)
    }

    /** The file a request put at its place k. */
    ghost predicate Made(c: Command, m: Files, k: Path, f: MemFile)
      reads f
    {
      f.name == k && match c
      case MakeDir(_) => f.isdir
      case SymLink(text, _) => !f.isdir && f.symlink == text
      case HardLink(path, _) => path in m && f == m[path]
      case _ => true
    }

    /** What a request that changes a single key did: it is the one named, removed, or entered at
        its canonical place with what was asked for. Only a linked file has a new name. */
    twostate predicate ChangeDone(c: Command, new e: Option<FsError>)
      requires c.RemoveDir? || c.Remove? || c.MakeDir? || c.HardLink? || c.SymLink?
      reads this, rootFile, files.Values
    {
      && e == old(ChangeError(c))
      && (e.Some? ==> files == old(files))
      && (e.None? && (c.RemoveDir? || c.Remove?) ==> files == old(files) - {c.path})
      && (e.None? && !c.RemoveDir? && !c.Remove? ==>
            var k := old(Canonical(if c.MakeDir? then c.path else c.target)).value;
            k !in old(files) && k in files && files == old(files)[k := files[k]] && Made(c, old(files), k, files[k]))
      && forall f :: f in Nodes() && !fresh(f) && (e.None? && c.HardLink? ==> old(Lfetch(c.path)) != Some(f)) ==>
           f.name == old(f.name)
    }

    method ChangeEntry(c: Command) returns (e: Option<FsError>)
      requires Valid()
      requires c.RemoveDir? || c.Remove? || c.MakeDir? || c.HardLink? || c.SymLink?
      modifies this`files, files.Values`name
      ensures Valid() && ChangeDone(c, e) && NoStranger()
    {
      match c {
        case RemoveDir(path) => e := Rmdir(path);
        case Remove(path) => e := Unlink(path);
        case MakeDir(path) => e := Mkdir(path);
        case HardLink(path, target) => e := Link(path, target);
        case SymLink(text, target) => e := Symlink(text, target);
      }
    }

    /** Every file is one of before or new. */
    twostate predicate NoStranger()
      reads this
    {
      forall f :: f in files.Values ==> f in old(files.Values) || fresh(f)
    }

    /** What a request other than a rename did. */
    twostate predicate Done(c: Command, new e: Option<FsError>)
      requires !c.RenameTo? && !c.PosixRename?
      reads this, rootFile, files.Values
    {
      if c.Setstat? then SetstatDone(c.path, c.size, e)
      else if c.Open? then OpenDone(c.path, c.flags, e)
      else if c.Other? then e == Some(Unsupported) && Untouched()
      else ChangeDone(c, e)
    }

    /** Any one request keeps the tree, unless it is a rename that is not allowed: then it does not.
        Each does what its own method promises, and nothing but an open or a Setstat changes contents. */
    method Filecmd(c: Command) returns (e: Option<FsError>)
      requires Valid()
      modifies this`files, rootFile`name, files.Values`name, files.Values`content
      ensures Valid() <==> old(Allowed(c))
      ensures Valid() ==> NoStranger()
      ensures c.RenameTo? && old(Taken(c.target)) ==> e == Some(Exist) && Untouched()
      ensures (c.RenameTo? && !old(Taken(c.target))) || c.PosixRename? ==>
                && AsPlanned(c.path, old(Plan(c.path, c.target)), old(files),
                             old(NamesOf(Nodes())), NamesOf(old(Nodes())), e)
                && RenameRule(c.path, old(Lfetch(c.path)), old(Canonical(c.target)), old(Standing(c.target)),
                              old(files), files, old(NamesOf(Nodes())), NamesOf(old(Nodes())), e)
      ensures !c.RenameTo? && !c.PosixRename? ==> Done(c, e)
      ensures !c.Setstat? && !c.Open? ==> forall f :: f in old(Nodes()) ==> f.content == old(f.content)
    {
      if c.RenameTo? || c.PosixRename? {
        e := Move(c);
      } else {
        e := Act(c);
      }
    }

    /** The requests other than renames. */
    method Act(c: Command) returns (e: Option<FsError>)
      requires Valid() && !c.RenameTo? && !c.PosixRename?
      modifies this`files, files.Values`name, files.Values`content
      ensures Valid() && NoStranger() && Done(c, e)
      ensures !c.Setstat? && !c.Open? ==> forall f :: f in old(Nodes()) ==> f.content == old(f.content)
    {
      if c.Setstat? || c.Open? {
        e := Write(c);
      } else if c.Other? {
        e := Some(Unsupported);
      } else {
        e := ChangeEntry(c);
      }
    }

    method Move(c: Command) returns (e: Option<FsError>)
      requires Valid() && (c.RenameTo? || c.PosixRename?)
      modifies this`files, rootFile`name, files.Values`name
      ensures Valid() <==> old(Allowed(c))
      ensures Valid() ==> files.Values <= old(files).Values
      ensures c.RenameTo? && old(Taken(c.target)) ==> e == Some(Exist) && Untouched()
      ensures (c.RenameTo? && !old(Taken(c.target))) || c.PosixRename? ==>
                && AsPlanned(c.path, old(Plan(c.path, c.target)), old(files),
                             old(NamesOf(Nodes())), NamesOf(old(Nodes())), e)
                && RenameRule(c.path, old(Lfetch(c.path)), old(Canonical(c.target)), old(Standing(c.target)),
                              old(files), files, old(NamesOf(Nodes())), NamesOf(old(Nodes())), e)
    {
      if c.RenameTo? {
        e := RenameNew(c.path, c.target);
      } else {
        e := Rename(c.path, c.target);
      }
      assert Valid() <==> old(Allowed(c));
    }

    /** The requests that may change contents. */
    method Write(c: Command) returns (e: Option<FsError>)
      requires Valid() && (c.Setstat? || c.Open?)
      modifies this`files, files.Values`content
      ensures Valid() && NoStranger() && Done(c, e)
    {
      if c.Setstat? {
        e := SetSize(c.path, c.size);
      } else {
        var file := OpenFile(c.path, c.flags);
        e := ErrorOf(file);
      }
    }

    method WouldReplace(file: MemFile, to: Path) returns (e: Option<FsError>)
      ensures e == ReplaceError(file, to)
    {
      var target := Lfetch(to);
      if target.None? { return None; }
      if !file.isdir { return if target.value.isdir then Some(IsDir) else None; }
      if !target.value.isdir { return Some(NotDir); }
      var occupied := HasEntry(target.value.name);
      return if occupied then Some(NotEmpty) else None;
    }

    /** The precondition can be checked before the call. */
    method Check(c: Command) returns (ok: bool)
      ensures ok <==> Allowed(c)
    {
      if !c.RenameTo? && !c.PosixRename? { return true; }
      if c.RenameTo? {
        var taken := Exists(c.target);
        if taken { return true; }
      }
      ok := CheckMove(c.path, c.target);
    }

    method CheckMove(oldpath: Path, newpath: Path) returns (ok: bool)
      ensures ok <==> MoveAllowed(oldpath, newpath)
    {
      var plan := Ask(oldpath, newpath);
      if !plan.Moves? || Safe(oldpath, plan.to) { return true; }
      var e := WouldReplace(plan.file, plan.to);
      return e.Some?;
    }

    /** Renaming "/a" to "/a/b" is granted, and the tree is lost. */
    static method LostTree(a: Word, b: Word) returns (fs: Root, e: Option<FsError>)
      ensures e == None && !fs.Valid()
    {
      fs := new Root();
      var top, sub := Path(true, [Name(a)]), Path(true, [Name(a), Name(b)]);
      DirIsParent(top);
      DirIsParent(sub);
      ResolveClean(top.parts);
      ResolveClean(sub.parts);
      assert [] + LastPart(top) == top.parts;
      assert fs.Canonical(top) == Ok(top);
      e := fs.Mkdir(top);
      assert top.parts + LastPart(sub) == sub.parts;
      assert fs.Canonical(sub) == Ok(sub);
      assert !fs.MoveAllowed(top, sub);
      e := fs.Rename(top, sub);
    }

    /** Renaming "/" is granted too, and leaves the root as an entry of itself. */
    static method RootMoved(a: Word) returns (fs: Root, e: Option<FsError>)
      ensures e == None && !fs.Valid()
    {
      fs := new Root();
      var top := Path(true, [Name(a)]);
      LastJoins(top);
      assert fs.Canonical(top) == Ok(top);
      assert !fs.MoveAllowed(ROOT, top);
      e := fs.Rename(ROOT, top);
    }

    /** Opening the symlink "/l" to "/a/../b" creates "/b", which the symlink does not lead to. */
    static method StillDangling(a: Word, b: Word, l: Word) returns (fs: Root, r: Result<MemFile>)
      requires l != b
      ensures fs.Valid() && r.Ok? && fs.Lfetch(Path(true, [Name(b)])) == Some(r.value)
      ensures fs.Fetched(Path(true, [Name(l)])) == Err(NoEntry)
    {
      fs := new Root();
      var link, text := Path(true, [Name(l)]), Path(true, [Name(a), DotDot, Name(b)]);
      ghost var made := Path(true, [Name(b)]);
      DirIsParent(link);
      ResolveClean(link.parts);
      ResolveClean(made.parts);
      assert [] + LastPart(link) == link.parts;
      assert [] + LastPart(text) == made.parts;
      assert text.parts[..2] == [Name(a), DotDot];
      assert [Name(a), DotDot][..1] == [Name(a)];
      assert Resolve(true, [Name(a)]) == [Name(a)] by { ResolveClean([Name(a)]); }
      assert Dir(text) == ROOT;
      assert fs.Canonical(link) == Ok(link);
      var e := fs.Symlink(text, link);
      assert fs.Canonical(text) == Ok(made);
      assert fs.Dangling(text, false, MAX_SYMLINK_FOLLOWS - 1) == Ok(text);
      assert fs.Fetched(link) == Err(NoEntry) && fs.Creation(link, false) == Ok(made);
      assert fs.NewName(link, OpenFlags(true, false, false)) == Some(made);
      r := fs.OpenFile(link, OpenFlags(true, false, false));
    }

    /** A whole run of requests, up to a rename that is not allowed, keeps the tree. */
    method Run(cs: seq<Command>) returns (done: nat)
      requires Valid()
      modifies this`files, rootFile`name, files.Values`name, files.Values`content
      ensures Valid() && done <= |cs| && (done < |cs| ==> !Allowed(cs[done]))
    {
      done := 0;
      while done < |cs|
        invariant done <= |cs| && Valid() && NoStranger()
      {
        var ok := Check(cs[done]);
        if !ok { return; }
        var e := Filecmd(cs[done]);
        done := done + 1;
      }
    }
  }

  /** When a file may take the place of what stands there: nothing, a file for a file, or an empty
      directory for a directory. */
  ghost predicate MayReplace(m: Files, f: MemFile, c: Path, target: Option<MemFile>) {
    target.None? || (target.value != f && target.value.isdir == f.isdir && (f.isdir ==> !HasChild(m, c)))
  }

  /** What a rename plans, by the file found at the old path, the canonical place of the new one and
      what stands there. */
  ghost predicate PlanRule(m: Files, found: Option<MemFile>, place: Result<Path>, target: Option<MemFile>,
                           plan: RenamePlan)
  {
    match found
    case None => plan == Refused(NoEntry)
    case Some(f) =>
      match place
      case Err(x) => plan == Refused(x)
      case Ok(c) =>
        && (target == Some(f) ==> plan == SameFile)
        && (MayReplace(m, f, c, target) ==> plan == Moves(f, c))
        && (target.Some? && target.value != f && f.isdir && !target.value.isdir ==> plan == Refused(NotDir))
        && (target.Some? && target.value != f && f.isdir && target.value.isdir && HasChild(m, c) ==>
              plan == Refused(NotEmpty))
        && (target.Some? && !f.isdir && target.value.isdir ==> plan == Refused(IsDir))
  }

  /** What a rename from the files m and names `was` to t and `now` did. Without an error nothing is
      done if and only if the file itself stands at the new place; it is put there, and gone from
      the old one, if what stands there may be replaced; everything else is refused. */
  ghost predicate RenameRule(from: Path, found: Option<MemFile>, place: Result<Path>, target: Option<MemFile>,
                             m: Files, t: Files, was: Names, now: Names, e: Option<FsError>)
  {
    match found
    case None => e == Some(NoEntry) && t == m && now == was
    case Some(f) =>
      match place
      case Err(x) => e == Some(x) && t == m && now == was
      case Ok(c) =>
        && (target == Some(f) <==> e == None && t == m && now == was)
        && (e.Some? ==> t == m && now == was)
        && (MayReplace(m, f, c, target) ==>
              && e == None
              && (from != ROOT && !IsBelow(c, from) ==>
                    c in t && t[c] == f && from !in t && f in now && now[f] == c))
        && (target.Some? && target.value != f && f.isdir && !target.value.isdir ==> e == Some(NotDir))
        && (target.Some? && target.value != f && f.isdir && target.value.isdir && HasChild(m, c) ==>
              e == Some(NotEmpty))
        && (target.Some? && !f.isdir && target.value.isdir ==> e == Some(IsDir))
  }

  lemma RuleKept(from: Path, found: Option<MemFile>, place: Result<Path>, target: Option<MemFile>,
                 plan: RenamePlan, m: Files, t: Files, was: Names, now: Names, e: Option<FsError>)
    requires PlanRule(m, found, place, target, plan)
    requires plan.Refused? ==> e == Some(plan.error) && t == m && now == was
    requires plan.SameFile? ==> e == None && t == m && now == was
    requires plan.Moves? ==> e == None && !(t == m && now == was)
    requires plan.Moves? && Safe(from, plan.to) ==>
               && MovedTo(m, t, was, now, from, plan.to) && found == Some(m[from])
               && IsCleanAbs(from) && IsCleanAbs(plan.to) && plan.to != ROOT
    ensures RenameRule(from, found, place, target, m, t, was, now, e)
  {
    if plan.Moves? && Safe(from, plan.to) { RelocatedSuffix(m, t, from, plan.to, []); }
  }

  /** The content cut to a size, or extended with zeros. */
  ghost predicate Resized(was: seq<byte>, now: seq<byte>, size: nat) {
    |now| == size && forall i :: 0 <= i < size ==> now[i] == ByteAt(was, i)
  }
}
