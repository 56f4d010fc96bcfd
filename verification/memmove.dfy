/** The walk by which request-example.go's rename moves a subtree, and the names it gives the files. */
module MemMoves {
  import opened Paths
  import opened MemFiles
  import opened MemTrees

  type Names = map<MemFile, Path>

  /** f goes by a key it has, at or below `to`. */
  ghost predicate GoesBy(t: Files, now: Names, f: MemFile, to: Path) {
    f in now && now[f] in t && t[now[f]] == f && InSubtree(now[f], to)
  }

  /** f has a key below `from` outside `todo`. */
  ghost predicate HasKey(m: Files, from: Path, todo: set<Path>, f: MemFile) {
    exists k :: k in m && IsBelow(k, from) && k !in todo && m[k] == f
  }

  /** The walk halfway: what has moved goes by a key below `to`, and the rest by its old name. */
  ghost predicate NamesWalked(m: Files, t: Files, was: Names, now: Names, from: Path, to: Path, todo: set<Path>) {
    && (forall k :: k in m && IsBelow(k, from) && k !in todo ==> GoesBy(t, now, m[k], to))
    && (forall f :: f in was && !HasKey(m, from, todo, f) ==> f in now && now[f] == was[f])
  }

  /** After the move each file with a key at or below `from` goes by one at or below `to`, and
      every other file by its old name. */
  ghost predicate Renaming(m: Files, t: Files, was: Names, now: Names, from: Path, to: Path) {
    && (forall k :: k in m && InSubtree(k, from) ==> GoesBy(t, now, m[k], to))
    && (forall f :: f in was && !HasKey(m, from, {}, f) && (from in m ==> m[from] != f) ==>
          f in now && now[f] == was[f])
  }

  /** A moved file with a single key goes by that key. */
  lemma SingleKeyName(m: Files, t: Files, was: Names, now: Names, from: Path, to: Path, j: Path)
    requires Relocated(m, t, from, to) && Renaming(m, t, was, now, from, to) && CleanKeys(m)
    requires IsCleanAbs(from) && from != ROOT && IsCleanAbs(to) && to != ROOT
    requires j in m && InSubtree(j, from) && forall i :: i in m && m[i] == m[j] ==> i == j
    ensures m[j] in now && now[m[j]] == Rebase(j, from, to)
  {
    assert GoesBy(t, now, m[j], to);
    var n := now[m[j]];
    RebaseSamePlace(n, to, from);
    var i := Rebase(n, to, from);
    assert SamePlace(i, from, n, to);
    assert Rebase(j, from, to).parts == n.parts;
  }

  /** One turn of the walk: the file at `name` is now at k and goes by that. */
  lemma NamesStep(m: Files, t: Files, was: Names, now: Names,
                  from: Path, to: Path, todo: set<Path>, name: Path, k: Path)
    requires NamesWalked(m, t, was, now, from, to, todo) && IsBelow(name, from) && name in todo
    requires name in t && name in m && m[name] == t[name] && !InSubtree(name, to) && k !in t && InSubtree(k, to)
    ensures NamesWalked(m, AfterMove(t, name, k), was, now[t[name] := k], from, to, todo - {name})
  {
    var u, after := AfterMove(t, name, k), now[t[name] := k];
    forall i | i in m && IsBelow(i, from) && i !in todo - {name} ensures GoesBy(u, after, m[i], to) {
      assert m[i] != t[name] ==> GoesBy(t, now, m[i], to);
    }
    forall f | f in was && !HasKey(m, from, todo - {name}, f) ensures f in after && after[f] == was[f] {
      assert HasKey(m, from, todo, f) ==> HasKey(m, from, todo - {name}, f);
      assert f == m[name] ==> HasKey(m, from, todo - {name}, f);
    }
  }

  /** The rest of `todo` does not matter once none of it lies below `from`. */
  lemma NamesSkip(m: Files, t: Files, was: Names, now: Names, from: Path, to: Path, todo: set<Path>, later: set<Path>)
    requires NamesWalked(m, t, was, now, from, to, todo)
    requires forall k :: k in m && IsBelow(k, from) ==> (k in later <==> k in todo)
    ensures NamesWalked(m, t, was, now, from, to, later)
  {
    forall f | HasKey(m, from, todo, f) ensures HasKey(m, from, later, f) {}
  }

  /** Each directory goes by its key. */
  ghost predicate DirsNamed(t: Files, now: Names) {
    forall k :: k in t && t[k].isdir ==> t[k] in now && now[t[k]] == k
  }

  /** The names once the moved file has its own and its old entry is gone. */
  lemma NamesDone(m: Files, t: Files, was: Names, now: Names, from: Path, to: Path)
    requires IsTree(m) && from in m && HasPlace(m, from, to) && Safe(from, to)
    requires Entered(m, t, was, now, from, to)
    ensures Renaming(m, t - {from}, was, now[m[from] := to], from, to)
  {
    var n, u, after := m[to := m[from]], t - {from}, now[m[from] := to];
    assert Placed(m, from);
    forall k | k in m && InSubtree(k, from) ensures GoesBy(u, after, m[k], to) {
      if m[k] != m[from] {
        if !m[from].isdir { NothingBelow(m, from, k); }
        MovedGoesBy(m, t, was, now, from, to, k);
      }
    }
    forall f | f in was && !HasKey(m, from, {}, f) && m[from] != f ensures f in after && after[f] == was[f] {
      assert !HasKey(n, from, {}, f);
    }
  }

  lemma MovedGoesBy(m: Files, t: Files, was: Names, now: Names, from: Path, to: Path, k: Path)
    requires from in m && k in m && IsBelow(k, from) && k != to && m[k] != m[from] && !InSubtree(from, to)
    requires NamesWalked(m[to := m[from]], t, was, now, from, to, {})
    ensures GoesBy(t - {from}, now[m[from] := to], m[k], to)
  {
    var n := m[to := m[from]];
    assert n[k] == m[k] && GoesBy(t, now, n[k], to);
  }

  /** What rename's walk keeps: the keys are clean, and if the subtree can go to `to`, what is
      not in `todo` has gone there and goes by a key there. */
  ghost predicate Walking(m: Files, t: Files, was: Names, now: Names, from: Path, to: Path, todo: set<Path>) {
    && todo <= t.Keys && CleanKeys(t) && t.Values <= m.Values
    && (IsBelow(to, from) && HasBelow(m, from) ==> HasBelow(t, from))
    && (CanMove(m, from, to) ==>
          Walked(m, t, from, to, todo) && NamesWalked(m, t, was, now, from, to, todo) && DirsNamed(t - {to}, now))
  }

  lemma WalkingStart(m: Files, now: Names, from: Path, to: Path)
    requires CleanKeys(m) && (CanMove(m, from, to) ==> DirsNamed(m - {to}, now))
    ensures Walking(m, m, now, now, from, to, m.Keys)
  {
    if CanMove(m, from, to) { MovingStart(m, from, to); }
  }

  lemma WalkingStep(m: Files, t: Files, was: Names, now: Names, from: Path, to: Path, todo: set<Path>, name: Path)
    requires Walking(m, t, was, now, from, to, todo) && IsCleanAbs(to) && (IsBelow(to, from) || CanMove(m, from, to))
    requires name in todo && IsBelow(name, from)
    ensures var k := Rebase(name, from, to); var u := AfterMove(t, name, k);
            && k in u && (CanMove(m, from, to) ==> !IsBelow(k, from))
            && Walking(m, u, was, now[t[name] := k], from, to, todo - {name})
  {
    KeysAfterMove(t, name, from, to, todo);
    if CanMove(m, from, to) {
      WalkedStep(m, t, from, to, todo, name);
      NamesStep(m, t, was, now, from, to, todo, name, Rebase(name, from, to));
      DirsNamedStep(t, now, name, Rebase(name, from, to), to);
    }
  }

  lemma DirsNamedStep(t: Files, now: Names, name: Path, k: Path, to: Path)
    requires DirsNamed(t - {to}, now) && name in t && name != to && k !in t
    ensures DirsNamed(AfterMove(t, name, k) - {to}, now[t[name] := k])
  {
    var u := AfterMove(t, name, k) - {to};
    assert name in t - {to};
    forall i | i in u && u[i].isdir ensures u[i] in now[t[name] := k] && now[t[name] := k][u[i]] == i {
      assert i != k ==> i in t - {to};
    }
  }

  /** The rest of `todo` does not matter once none of it lies below `from`. */
  lemma WalkingOn(m: Files, t: Files, was: Names, now: Names, from: Path, to: Path, todo: set<Path>, later: set<Path>)
    requires Walking(m, t, was, now, from, to, todo) && later <= t.Keys
    requires CanMove(m, from, to) ==> forall k :: IsBelow(k, from) ==> (k in later <==> k in todo)
    ensures Walking(m, t, was, now, from, to, later)
  {
    if CanMove(m, from, to) {
      MovingSkip(m, t, from, to, todo, later);
      NamesSkip(m, t, was, now, from, to, todo, later);
    }
  }

  /** The file at `from` entered at `to` too, and what was below it moved. */
  ghost predicate Entered(m: Files, t: Files, was: Names, now: Names, from: Path, to: Path) {
    && EnteredAt(m, t, from, to) && from in t && to in t && t[to] == m[from] && t[from] == m[from]
    && t.Values <= m.Values && DirsNamed(t - {to}, now)
    && if m[from].isdir then NamesWalked(m[to := m[from]], t, was, now, from, to, {}) else now == was
  }

  lemma WalkedIsEntered(m: Files, t: Files, was: Names, now: Names, from: Path, to: Path)
    requires from in m && m[from].isdir && CanMove(m[to := m[from]], from, to)
    requires Walking(m[to := m[from]], t, was, now, from, to, {})
    ensures Entered(m, t, was, now, from, to)
  {
    assert from in m[to := m[from]] && !IsBelow(from, from) && !IsBelow(from, to);
    assert !IsBelow(to, from) && !IsBelow(to, to);
  }

  lemma EnteredNamed(m: Files, t: Files, was: Names, now: Names, from: Path, to: Path)
    requires Entered(m, t, was, now, from, to) && from in m && from != to
    ensures DirsNamed(t - {from}, now[m[from] := to])
  {
    var u, after := t - {from}, now[m[from] := to];
    assert from in t - {to};
    forall i | i in u && u[i].isdir ensures u[i] in after && after[u[i]] == i {
      assert i != to ==> i in t - {to};
    }
  }

  /** t and `now` are the files and names after a move from m and `was`: the subtree is relocated,
      no entry but a replaced one is lost, and each file moved goes by a new key of its own. */
  ghost predicate MovedTo(m: Files, t: Files, was: Names, now: Names, from: Path, to: Path) {
    && IsTree(t) && Relocated(m, t, from, to) && Renaming(m, t, was, now, from, to)
    && from in m && m[from] in now && now[m[from]] == to && t.Values <= m.Values && DirsNamed(t, now)
    && |t| == |m| - if to in m then 1 else 0
  }

  /** The files and names once the move is over. */
  lemma EnteredDone(m: Files, t: Files, was: Names, now: Names, from: Path, to: Path)
    requires IsTree(m) && from in m && HasPlace(m, from, to) && Safe(from, to)
    requires Entered(m, t, was, now, from, to)
    ensures MovedTo(m, t - {from}, was, now[m[from] := to], from, to)
  {
    SafeMove(m, t, from, to);
    NamesDone(m, t, was, now, from, to);
    EnteredNamed(m, t, was, now, from, to);
  }

  lemma MovedOver(m: Files, t: Files, was: Names, now: Names, from: Path, to: Path)
    requires IsTree(m) && MovedTo(m - {to}, t, was, now, from, to) && HasPlace(m, from, to) && Safe(from, to)
    ensures MovedTo(m, t, was, now, from, to)
  {
    assert Placed(m, from);
    PlaceKept(m, from, to);
    RelocatedOver(m, t, from, to);
    RenamingOver(m, t, was, now, from, to);
  }

  /** Who is not moved keeps the name. */
  lemma RootNameKept(m: Files, t: Files, was: Names, now: Names, from: Path, to: Path, f: MemFile)
    requires MovedTo(m, t, was, now, from, to) && f in was && f !in m.Values
    ensures f in now && now[f] == was[f] && f !in t.Values
  {}

  /** What stood at `to` before has no part in the names. */
  lemma RenamingOver(m: Files, t: Files, was: Names, now: Names, from: Path, to: Path)
    requires Renaming(m - {to}, t, was, now, from, to) && to != from && !IsBelow(to, from)
    ensures Renaming(m, t, was, now, from, to)
  {
    var n := m - {to};
    forall k | k in m && InSubtree(k, from) ensures GoesBy(t, now, m[k], to) { assert k in n; }
    forall f | HasKey(n, from, {}, f) ensures HasKey(m, from, {}, f) {
      var k :| k in n && IsBelow(k, from) && k !in {} && n[k] == f;
      assert k in m;
    }
  }
}
