/**
The files of request-example.go's in-memory file system as one flat map from paths to files:
when it is a tree, what adding, removing and moving entries makes of it. Hard links are several
keys with the same file object.
*/
module MemTrees {
  import opened Basics
  import opened Paths
  import opened MemFiles

  type Files = map<Path, MemFile>

  // ---------------------------------------------------------------- trees

  /** What path.Dir makes of a clean absolute path. */
  function Parent(p: Path): Path {
    Path(p.abs, if p.parts == [] then [] else p.parts[..|p.parts| - 1])
  }

  lemma DirIsParent(p: Path)
    requires IsCleanAbs(p)
    ensures Dir(p) == Parent(p)
  {
    ResolveClean(Parent(p).parts);
  }

  ghost predicate IsDirectory(m: Files, p: Path) {
    p == ROOT || (p in m && m[p].isdir)
  }

  /** A clean absolute path below "/" whose parent is a directory. */
  ghost predicate Placed(m: Files, k: Path) {
    IsCleanAbs(k) && k != ROOT && IsDirectory(m, Parent(k))
  }

  ghost predicate IsTree(m: Files) {
    forall k {:trigger Placed(m, k)} :: k in m ==> Placed(m, k)
  }

  ghost function KeysIn(m: Files, dir: Path): set<Path> {
    set k | k in m && Dir(k) == dir
  }

  ghost predicate HasChild(m: Files, dir: Path) {
    exists k :: k in m && Dir(k) == dir
  }

  ghost predicate InSubtree(p: Path, top: Path) {
    p == top || IsBelow(p, top)
  }

  /** p with its leading `from` replaced by `to`. */
  function Rebase(p: Path, from: Path, to: Path): Path
    requires |from.parts| <= |p.parts|
  {
    Path(true, to.parts + p.parts[|from.parts|..])
  }

  /** j is at or below `from`, and k at the same place under `to`. */
  ghost predicate SamePlace(j: Path, from: Path, k: Path, to: Path) {
    j.abs && k.abs && InSubtree(j, from) && InSubtree(k, to) && j.parts[|from.parts|..] == k.parts[|to.parts|..]
  }

  lemma RebaseSamePlace(p: Path, from: Path, to: Path)
    requires IsCleanAbs(p) && InSubtree(p, from) && IsCleanAbs(from) && from != ROOT && IsCleanAbs(to) && to != ROOT
    ensures SamePlace(p, from, Rebase(p, from, to), to)
    ensures IsCleanAbs(Rebase(p, from, to))
  {
    var q := Rebase(p, from, to);
    assert q.parts[..|to.parts|] == to.parts;
    assert q.parts[|to.parts|..] == p.parts[|from.parts|..];
    if p == from { assert q.parts == to.parts; }
  }

  /** Two paths at the same place under `from` and `to` fix each other. */
  lemma SamePlaceUnique(j: Path, i: Path, from: Path, k: Path, to: Path)
    requires from.abs && SamePlace(j, from, k, to) && SamePlace(i, from, k, to)
    ensures i == j
  {
    assert i.parts == i.parts[..|from.parts|] + i.parts[|from.parts|..];
    assert j.parts == j.parts[..|from.parts|] + j.parts[|from.parts|..];
  }

  lemma SamePlaceParent(j: Path, from: Path, k: Path, to: Path)
    requires SamePlace(j, from, k, to) && k != to && from.abs && to.abs
    ensures SamePlace(Parent(j), from, Parent(k), to) && j != from
  {
    assert |k.parts| > |to.parts|;
    assert |j.parts[|from.parts|..]| == |k.parts[|to.parts|..]| > 0;
    ParentInSubtree(j, from);
    ParentInSubtree(k, to);
    var n := |k.parts| - |to.parts|;
    assert Parent(j).parts[|from.parts|..] == j.parts[|from.parts|..][..n - 1];
    assert Parent(k).parts[|to.parts|..] == k.parts[|to.parts|..][..n - 1];
  }

  lemma ParentInSubtree(k: Path, to: Path)
    requires k.abs && to.abs && IsBelow(k, to)
    ensures InSubtree(Parent(k), to)
  {
    assert Parent(k).parts[..|to.parts|] == k.parts[..|to.parts|];
    if |Parent(k).parts| == |to.parts| { assert Parent(k).parts == to.parts; }
  }

  /** In a tree every ancestor of a key is a directory. */
  lemma {:induction false} AncestorIsDirectory(m: Files, k: Path, n: nat)
    requires IsTree(m) && k in m && n < |k.parts|
    ensures IsDirectory(m, Path(true, k.parts[..n]))
    decreases |k.parts|
  {
    assert Placed(m, k);
    if n < |k.parts| - 1 {
      AncestorIsDirectory(m, Parent(k), n);
      assert Parent(k).parts[..n] == k.parts[..n];
    }
  }

  lemma TreeKeysAreClean(m: Files)
    requires IsTree(m)
    ensures CleanKeys(m)
  {
    forall k | k in m ensures IsCleanAbs(k) { assert Placed(m, k); }
  }

  /** Nothing lies below what is not a directory, or is one without children. */
  lemma NothingBelow(m: Files, p: Path, k: Path)
    requires IsTree(m) && IsCleanAbs(p) && p != ROOT && k in m && IsBelow(k, p)
    ensures IsDirectory(m, p) && HasChild(m, p)
  {
    var n := |p.parts|;
    assert Placed(m, k);
    AncestorIsDirectory(m, k, n);
    assert p == Path(true, k.parts[..n]);
    var c := Path(true, k.parts[..n + 1]);
    assert c in m by {
      if n + 1 < |k.parts| {
        AncestorIsDirectory(m, k, n + 1);
      } else {
        assert k.parts[..n + 1] == k.parts;
      }
    }
    assert Parent(c) == p by { assert c.parts[..n] == p.parts; }
    DirIsParent(c);
  }

  /** A tree with any file in it has one at the top. */
  lemma TopHasChild(m: Files, k: Path)
    requires IsTree(m) && k in m
    ensures HasChild(m, ROOT)
  {
    assert Placed(m, k);
    var c := Path(true, k.parts[..1]);
    assert c in m by {
      if 1 < |k.parts| { AncestorIsDirectory(m, k, 1); } else { assert k.parts[..1] == k.parts; }
    }
    assert Parent(c) == ROOT;
    DirIsParent(c);
  }

  lemma AddedIsTree(m: Files, p: Path, f: MemFile)
    requires IsTree(m) && IsCleanAbs(p) && p != ROOT && p !in m && IsDirectory(m, Parent(p))
    ensures IsTree(m[p := f])
  {
    forall k | k in m ensures Placed(m[p := f], k) { assert Placed(m, k); }
    assert Placed(m[p := f], p);
  }

  lemma RemovedIsTree(m: Files, p: Path)
    requires IsTree(m) && (p in m && m[p].isdir ==> !HasChild(m, p))
    ensures IsTree(m - {p})
  {
    var t := m - {p};
    forall k | k in t ensures Placed(t, k) {
      assert Placed(m, k);
      DirIsParent(k);
      if Parent(k) == p { assert k in m && Dir(k) == p; }
    }
  }

  // ---------------------------------------------------------------- moving a subtree

  /** t is m with the file at `from`, and all below it, moved to `to`; every key outside both
      keeps its file and no key at or below `from` is left. */
  ghost predicate Relocated(m: Files, t: Files, from: Path, to: Path) {
    && (forall j, k :: SamePlace(j, from, k, to) ==> (j in m <==> k in t) && (j in m ==> t[k] == m[j]))
    && (forall k :: !InSubtree(k, from) && !InSubtree(k, to) ==> (k in m <==> k in t) && (k in m ==> t[k] == m[k]))
    && (forall k :: InSubtree(k, from) ==> k !in t)
    && (forall k :: k in t && InSubtree(k, to) ==> IsCleanAbs(k))
  }

  /** Moving a subtree elsewhere keeps the tree. */
  lemma RelocatedIsTree(m: Files, t: Files, from: Path, to: Path)
    requires IsTree(m) && Relocated(m, t, from, to) && from in m
    requires IsCleanAbs(to) && to != ROOT && IsDirectory(m, Parent(to)) && !InSubtree(to, from)
    ensures IsTree(t)
  {
    forall k | k in t ensures Placed(t, k) {
      if InSubtree(k, to) && k != to {
        BelowFollows(m, t, from, to, k);
      } else {
        OutsideStays(m, t, from, to, k);
      }
    }
  }

  /** The parent of `to`, or of a key outside both subtrees, is where it was. */
  lemma OutsideStays(m: Files, t: Files, from: Path, to: Path, k: Path)
    requires IsTree(m) && Relocated(m, t, from, to) && from in m && k in t
    requires IsCleanAbs(to) && to != ROOT && IsDirectory(m, Parent(to)) && !InSubtree(to, from)
    requires k == to || !InSubtree(k, to)
    ensures Placed(t, k)
  {
    assert Placed(m, from);
    assert k != to ==> k in m && Placed(m, k);
    var p := Parent(k);
    assert IsDirectory(m, p);
    if p != ROOT {
      assert !InSubtree(p, to) by { NotBelowParent(k, to); }
      assert !InSubtree(p, from) by { NotBelowParent(k, from); }
    }
  }

  lemma NotBelowParent(k: Path, top: Path)
    requires k.abs && k.parts != [] && top.abs && top != ROOT && (k == top || !InSubtree(k, top))
    ensures !InSubtree(Parent(k), top)
  {
    var p := Parent(k);
    if |top.parts| <= |p.parts| {
      assert p.parts[..|top.parts|] == k.parts[..|top.parts|];
      assert p.parts[..|p.parts|] == p.parts;
    }
  }

  lemma BelowFollows(m: Files, t: Files, from: Path, to: Path, k: Path)
    requires IsTree(m) && Relocated(m, t, from, to) && from in m
    requires IsCleanAbs(to) && to != ROOT && k in t && IsBelow(k, to)
    ensures Placed(t, k)
  {
    var j := Rebase(k, to, from);
    assert Placed(m, from);
    RebaseSamePlace(k, to, from);
    assert SamePlace(j, from, k, to);
    SamePlaceParent(j, from, k, to);
    assert j in m && Placed(m, j);
  }

  /** The walk of rename over the keys, halfway: what lay below `from` has moved except for `todo`. */
  ghost predicate Moving(m: Files, t: Files, from: Path, to: Path, todo: set<Path>) {
    && Arrived(m, t, from, to, todo)
    && (forall k :: IsBelow(k, from) ==> (k in t <==> k in m && k in todo) && (k in t ==> t[k] == m[k]))
    && (forall k :: !IsBelow(k, from) && !IsBelow(k, to) ==> (k in t <==> k in m) && (k in m ==> t[k] == m[k]))
  }

  ghost predicate Arrived(m: Files, t: Files, from: Path, to: Path, todo: set<Path>) {
    forall j, k :: SamePlace(j, from, k, to) && k != to ==>
      (k in t <==> j in m && j !in todo) && (k in t ==> t[k] == m[j])
  }

  /** Two subtrees without a common path. */
  ghost predicate Apart(p: Path, q: Path) {
    IsCleanAbs(p) && IsCleanAbs(q) && p != ROOT && q != ROOT && !InSubtree(p, q) && !InSubtree(q, p)
  }

  lemma ApartSubtrees(p: Path, q: Path, k: Path)
    requires Apart(p, q) && k.abs
    ensures !(InSubtree(k, p) && InSubtree(k, q))
  {}

  ghost predicate CleanKeys(m: Files) {
    forall k :: k in m ==> IsCleanAbs(k)
  }

  lemma MovingStart(m: Files, from: Path, to: Path)
    requires CleanKeys(m) && Apart(from, to) && forall k :: k in m ==> !IsBelow(k, to)
    ensures Moving(m, m, from, to, m.Keys)
  {
    forall j, k | SamePlace(j, from, k, to) && k != to ensures k !in m {}
  }

  lemma MovingStep(m: Files, t: Files, from: Path, to: Path, todo: set<Path>, name: Path)
    requires Moving(m, t, from, to, todo) && CleanKeys(t) && Apart(from, to)
    requires name in t && name in todo && IsBelow(name, from)
    ensures var k := Rebase(name, from, to);
            && IsCleanAbs(k) && k !in t && IsBelow(k, to) && !IsBelow(k, from)
            && Moving(m, t[k := t[name]] - {name}, from, to, todo - {name})
  {
    PlaceIsFree(m, t, from, to, todo, name);
    ApartSubtrees(from, to, name);
    var k := Rebase(name, from, to);
    forall i, l | SamePlace(i, from, l, to) && l != to
      ensures l == k <==> i == name
      ensures l != name
    {
      ApartSubtrees(from, to, l);
      if i == name { SamePlaceUnique(l, k, to, name, from); }
      if l == k { SamePlaceUnique(i, name, from, k, to); }
    }
  }

  /** The place a key goes to is free, and below `to` only. */
  lemma PlaceIsFree(m: Files, t: Files, from: Path, to: Path, todo: set<Path>, name: Path)
    requires Arrived(m, t, from, to, todo) && Apart(from, to)
    requires IsCleanAbs(name) && name in todo && IsBelow(name, from)
    ensures var k := Rebase(name, from, to);
            IsCleanAbs(k) && k !in t && IsBelow(k, to) && !IsBelow(k, from) && k != to && SamePlace(name, from, k, to)
  {
    var k := Rebase(name, from, to);
    RebaseSamePlace(name, from, to);
    assert |k.parts| > |to.parts|;
    ApartSubtrees(from, to, k);
  }

  /** The rest of `todo` does not matter once none of it lies below `from`. */
  lemma MovingSkip(m: Files, t: Files, from: Path, to: Path, todo: set<Path>, later: set<Path>)
    requires Moving(m, t, from, to, todo)
    requires forall k :: IsBelow(k, from) ==> (k in later <==> k in todo)
    ensures Moving(m, t, from, to, later)
  {
    forall j, k | SamePlace(j, from, k, to) && k != to ensures IsBelow(j, from) {
      assert |j.parts[|from.parts|..]| == |k.parts[|to.parts|..]|;
    }
  }

  lemma MovingDone(m: Files, t: Files, from: Path, to: Path)
    requires from in m && Moving(m[to := m[from]], t, from, to, {}) && CleanKeys(m) && CleanKeys(t) && Apart(from, to)
    requires forall k :: k in m ==> !IsBelow(k, to)
    ensures from in t && Relocated(m, t - {from}, from, to)
  {
    var u := t - {from};
    forall j, k | SamePlace(j, from, k, to) ensures (j in m <==> k in u) && (j in m ==> u[k] == m[j]) {
      ApartSubtrees(from, to, j);
      if k == to {
        assert j == from by { SamePlaceUnique(j, from, from, to, to); }
      }
    }
    forall k | InSubtree(k, from) ensures k !in u {}
  }

  ghost predicate HasBelow(m: Files, p: Path) {
    exists k :: k in m && IsBelow(k, p)
  }

  function AfterMove(m: Files, name: Path, newname: Path): Files
    requires name in m
  {
    m[newname := m[name]] - {name}
  }

  /** The subtree at `from`, already entered at `to` as well, can go there. */
  ghost predicate CanMove(m: Files, from: Path, to: Path) {
    Apart(from, to) && CleanKeys(m) && from in m && to in m && forall k :: k in m ==> !IsBelow(k, to)
  }

  ghost predicate Walked(m: Files, t: Files, from: Path, to: Path, todo: set<Path>) {
    Apart(from, to) && CleanKeys(t) && Moving(m, t, from, to, todo) && |t| == |m|
  }

  lemma WalkedStep(m: Files, t: Files, from: Path, to: Path, todo: set<Path>, name: Path)
    requires Walked(m, t, from, to, todo) && name in t && name in todo && IsBelow(name, from)
    ensures var k := Rebase(name, from, to);
            && k !in t && !IsBelow(k, from) && InSubtree(k, to)
            && Walked(m, AfterMove(t, name, k), from, to, todo - {name})
    ensures name in m && m[name] == t[name] && !InSubtree(name, to)
  {
    MovingStep(m, t, from, to, todo, name);
    ApartSubtrees(from, to, name);
    var k := Rebase(name, from, to);
    assert AfterMove(t, name, k).Keys == t.Keys + {k} - {name};
  }

  /** The keys after one move. */
  lemma KeysAfterMove(m: Files, name: Path, from: Path, to: Path, todo: set<Path>)
    requires name in m && IsBelow(name, from) && CleanKeys(m) && IsCleanAbs(to) && todo <= m.Keys
    ensures var k := Rebase(name, from, to); var t := AfterMove(m, name, k);
            && CleanKeys(t) && t.Values <= m.Values
            && (k != name ==> k in t && todo - {name} <= t.Keys)
            && (IsBelow(to, from) ==> k != name && HasBelow(t, from))
  {
    BelowFollowsBelow(name, from, to);
    var k := Rebase(name, from, to);
    if IsBelow(to, from) { assert k in AfterMove(m, name, k) && IsBelow(k, from); }
  }

  /** Joining what follows `from` in p to `to`. */
  lemma JoinSuffix(p: Path, from: Path, to: Path)
    requires IsCleanAbs(p) && IsCleanAbs(to) && |from.parts| <= |p.parts|
    ensures Join(to, p.parts[|from.parts|..]) == Rebase(p, from, to)
  {
    ResolveClean(Rebase(p, from, to).parts);
  }

  /** What is moved below `to`, itself below `from`, is still below `from`, and elsewhere. */
  lemma BelowFollowsBelow(p: Path, from: Path, to: Path)
    requires IsBelow(p, from) && IsCleanAbs(p) && IsCleanAbs(to)
    ensures IsCleanAbs(Rebase(p, from, to)) && Rebase(p, from, to) != ROOT
    ensures IsBelow(to, from) ==> IsBelow(Rebase(p, from, to), from) && Rebase(p, from, to) != p
  {
    var q := Rebase(p, from, to);
    assert IsBelow(to, from) ==> q.parts[..|from.parts|] == to.parts[..|from.parts|];
  }

  /** path.Base as components to join: "/" adds none. */
  function LastPart(p: Path): seq<Component> {
    match Base(p)
    case None => []
    case Some(c) => [c]
  }

  // ---------------------------------------------------------------- places to move to

  /** A clean path is its last part joined to its parent. */
  lemma LastJoins(p: Path)
    requires IsCleanAbs(p)
    ensures Dir(p) == Parent(p) && Join(Parent(p), LastPart(p)) == p
  {
    DirIsParent(p);
    ResolveClean(p.parts);
    assert LastPart(p) == if p == ROOT then [] else [p.parts[|p.parts| - 1]];
    assert Parent(p).parts + LastPart(p) == p.parts;
  }

  /** Joining a last part to a clean absolute name: the name itself, its parent, or a child of it. */
  lemma JoinedName(name: Path, p: Path)
    requires IsCleanAbs(name)
    ensures IsCleanAbs(Join(name, LastPart(p)))
    ensures var c := Join(name, LastPart(p)); c == name || c == Parent(name) || (c != ROOT && Parent(c) == name)
  {
    CleanIsClean(Path(true, name.parts + LastPart(p)));
    ResolveClean(name.parts);
    match Base(p)
    case None => assert name.parts + [] == name.parts;
    case Some(c) => ResolveAppend(name.parts, c);
  }

  lemma ResolveAppend(parts: seq<Component>, c: Component)
    ensures Resolve(true, parts + [c]) == Push(true, Resolve(true, parts), c)
  {
    var all := parts + [c];
    assert all[..|all| - 1] == parts;
  }

  /** `to` is a free or replaceable name in a directory, other than `from`. */
  ghost predicate HasPlace(m: Files, from: Path, to: Path) {
    && IsCleanAbs(to) && to != ROOT && to != from && IsDirectory(m, Parent(to))
    && forall k :: k in m ==> !IsBelow(k, to)
  }

  lemma FindsPlace(m: Files, from: Path, to: Path)
    requires IsTree(m) && IsCleanAbs(to) && to != from
    requires IsDirectory(m, to) || (to != ROOT && IsDirectory(m, Parent(to)))
    requires to == ROOT ==> from in m && !HasChild(m, ROOT)
    requires to in m && m[to].isdir ==> !HasChild(m, to)
    ensures HasPlace(m, from, to)
  {
    if to == ROOT { TopHasChild(m, from); }
    if to != ROOT && IsDirectory(m, to) { assert Placed(m, to); }
    forall k | k in m ensures !IsBelow(k, to) {
      if IsBelow(k, to) { NothingBelow(m, to, k); }
    }
  }

  /** Only a directory has a place below it. */
  lemma DirectoryAbove(m: Files, from: Path, to: Path)
    requires IsTree(m) && from in m && HasPlace(m, from, to) && IsBelow(to, from)
    ensures m[from].isdir
  {
    assert Placed(m, from);
    ParentInSubtree(to, from);
    var p := Parent(to);
    if p != from {
      AncestorIsDirectory(m, p, |from.parts|);
      assert Path(true, p.parts[..|from.parts|]) == from;
    }
  }

  lemma EntryReady(m: Files, from: Path, to: Path, file: MemFile)
    requires IsTree(m) && HasPlace(m, from, to) && (from == ROOT || (from in m && m[from] == file))
    ensures CleanKeys(m[to := file])
    ensures CanMove(m[to := file], from, to) <==> Safe(from, to)
    ensures from != ROOT && IsBelow(to, from) ==> HasBelow(m[to := file], from) && file.isdir
  {
    var t := m[to := file];
    TreeKeysAreClean(m);
    if from != ROOT && IsBelow(to, from) {
      DirectoryAbove(m, from, to);
      assert to in t;
    }
  }

  /** A rename keeps the tree just when it moves neither "/" nor a directory below itself. */
  predicate Safe(from: Path, to: Path) {
    from != ROOT && !IsBelow(to, from)
  }

  ghost predicate EnteredAt(m: Files, t: Files, from: Path, to: Path) {
    from in m && if m[from].isdir then Walked(m[to := m[from]], t, from, to, {}) else t == m[to := m[from]]
  }

  /** The files after the walk, if there was one, and without the old entry. */
  lemma SafeMove(m: Files, t: Files, from: Path, to: Path)
    requires IsTree(m) && from in m && HasPlace(m, from, to) && !IsBelow(to, from)
    requires EnteredAt(m, t, from, to)
    ensures from in t && IsTree(t - {from}) && Relocated(m, t - {from}, from, to)
    ensures |t - {from}| == |m| - if to in m then 1 else 0
  {
    TreeKeysAreClean(m);
    assert from != ROOT by { assert Placed(m, from); }
    if m[from].isdir {
      MovingDone(m, t, from, to);
    } else {
      OneRelocated(m, from, to);
    }
    RelocatedIsTree(m, t - {from}, from, to);
    assert m[to := m[from]].Keys == m.Keys + {to};
    assert (t - {from}).Keys == t.Keys - {from};
  }

  /** Files left below a path that is gone are no tree. */
  lemma NotTree(m: Files, p: Path)
    requires IsCleanAbs(p) && p != ROOT && p !in m && HasBelow(m, p)
    ensures !IsTree(m)
  {
    var k :| k in m && IsBelow(k, p);
    if IsTree(m) { NothingBelow(m, p, k); }
  }

  /** Moving what has nothing below it is changing one key. */
  lemma OneRelocated(m: Files, from: Path, to: Path)
    requires IsTree(m) && from in m && !m[from].isdir && Apart(from, to) && HasPlace(m, from, to)
    ensures Relocated(m, m[to := m[from]] - {from}, from, to)
  {
    forall k | k in m ensures !IsBelow(k, from) {
      if IsBelow(k, from) { NothingBelow(m, from, k); }
    }
    var t := m[to := m[from]] - {from};
    forall j, k | SamePlace(j, from, k, to) ensures (j in m <==> k in t) && (j in m ==> t[k] == m[j]) {
      SamePlaceTop(j, from, k, to);
    }
  }

  lemma SamePlaceTop(j: Path, from: Path, k: Path, to: Path)
    requires SamePlace(j, from, k, to) && from.abs && to.abs
    ensures j == from <==> k == to
    ensures j != from ==> IsBelow(j, from) && IsBelow(k, to)
  {
    assert |j.parts[|from.parts|..]| == |k.parts[|to.parts|..]|;
  }

  /** Emptying the place does not take it away. */
  lemma PlaceKept(m: Files, from: Path, to: Path)
    requires IsTree(m) && HasPlace(m, from, to)
    ensures HasPlace(m - {to}, from, to) && to !in m - {to}
    ensures |m - {to}| == |m| - if to in m then 1 else 0
  {
    assert Parent(to) != to;
    assert (m - {to}).Keys == m.Keys - {to};
  }

  /** What stood at `to` before has no part in the move. */
  lemma RelocatedOver(m: Files, t: Files, from: Path, to: Path)
    requires Relocated(m - {to}, t, from, to) && IsCleanAbs(from) && IsCleanAbs(to) && to != from && !IsBelow(to, from)
    ensures Relocated(m, t, from, to)
  {
    forall j, k | SamePlace(j, from, k, to) ensures (j in m <==> k in t) && (j in m ==> t[k] == m[j]) {
      assert j != to;
    }
  }

  /** Suffix by suffix: what was at from/s is at to/s, and nothing else is. */
  lemma RelocatedSuffix(m: Files, t: Files, from: Path, to: Path, s: seq<Component>)
    requires Relocated(m, t, from, to) && IsCleanAbs(from) && from != ROOT && IsCleanAbs(to) && to != ROOT
    ensures var j, k := Path(true, from.parts + s), Path(true, to.parts + s);
            (j in m <==> k in t) && (j in m ==> t[k] == m[j]) && j !in t
  {
    var j, k := Path(true, from.parts + s), Path(true, to.parts + s);
    assert j.parts[..|from.parts|] == from.parts && k.parts[..|to.parts|] == to.parts;
    assert j.parts[|from.parts|..] == s == k.parts[|to.parts|..];
    if s == [] { assert from.parts + s == from.parts && to.parts + s == to.parts; }
    assert SamePlace(j, from, k, to);
  }
}
