/** The order in which request-example.go lists a directory. */
module MemListing {
  import opened Basics
  import opened Paths

  /** The key of a file in a directory, and the file's own name. */
  datatype Listed = Listed(key: Path, name: Path)

  /** The text of path.Base. */
  function BaseText(p: Path): string {
    match Base(p)
    case Some(Name(w)) => w
    case Some(Dot) => "."
    case Some(DotDot) => ".."
    case Some(Blank) => ""
    case None => "/"
  }

  predicate TextBefore(s: string, t: string) {
    t != "" && (s == "" || s[0] < t[0] || (s[0] == t[0] && TextBefore(s[1..], t[1..])))
  }

  /** It is the order of the texts: a front comes first, and otherwise the first difference decides. */
  lemma {:induction false} TextOrder(front: string, s: string, t: string)
    ensures TextBefore(front, front + t) <==> t != ""
    ensures !TextBefore(front + t, front)
    ensures s != "" && t != "" && s[0] != t[0] ==> (TextBefore(front + s, front + t) <==> s[0] < t[0])
  {
    if front == "" {
      assert front + t == t && front + s == s;
    } else {
      TextOrder(front[1..], s, t);
      assert (front + t)[1..] == front[1..] + t && (front + s)[1..] == front[1..] + s;
    }
  }

  /** The order of a listing: by the last component of the names. */
  predicate Before(p: Path, q: Path) {
    TextBefore(BaseText(p), BaseText(q))
  }

  /** No later than is transitive. */
  lemma {:induction false} NoLaterTransitive(s: string, t: string, u: string)
    requires !TextBefore(t, s) && !TextBefore(u, t)
    ensures !TextBefore(u, s)
  {
    if s != "" && t != "" && u != "" && s[0] == t[0] == u[0] { NoLaterTransitive(s[1..], t[1..], u[1..]); }
  }

  lemma {:induction false} BeforeIsNoLater(s: string, t: string)
    requires TextBefore(s, t)
    ensures !TextBefore(t, s)
  {
    if s != "" && s[0] == t[0] { BeforeIsNoLater(s[1..], t[1..]); }
  }

  ghost predicate InOrder(s: seq<Listed>) {
    forall i, j :: 0 <= i < j < |s| ==> !Before(s[j].name, s[i].name)
  }

  function InsertByName(s: seq<Listed>, e: Listed): seq<Listed> {
    if s == [] || Before(e.name, s[0].name) then [e] + s else [s[0]] + InsertByName(s[1..], e)
  }

  function SortByName(s: seq<Listed>): seq<Listed> {
    if s == [] then [] else InsertByName(SortByName(s[..|s| - 1]), s[|s| - 1])
  }

  ghost predicate KeysDiffer(s: seq<Listed>) {
    forall i, j :: 0 <= i < j < |s| ==> s[i].key != s[j].key
  }

  lemma {:induction false} InsertKeeps(s: seq<Listed>, e: Listed)
    requires KeysDiffer(s) && forall x :: x in s ==> x.key != e.key
    ensures KeysDiffer(InsertByName(s, e))
    ensures forall x :: x in InsertByName(s, e) <==> x == e || x in s
  {
    if s != [] && !Before(e.name, s[0].name) {
      var tail, r := s[1..], InsertByName(s[1..], e);
      assert s == [s[0]] + tail;
      forall x | x in tail ensures x.key != s[0].key { var i :| 0 <= i < |tail| && tail[i] == x; assert s[i + 1] == x; }
      InsertKeeps(tail, e);
      assert s[0].key != e.key by { assert s[0] in s; }
      forall j | 0 <= j < |r| ensures r[j].key != s[0].key { assert r[j] in r; }
    }
  }

  /** Sorting keeps the entries, each once. */
  lemma {:induction false} SortByNameKeeps(s: seq<Listed>)
    requires KeysDiffer(s)
    ensures KeysDiffer(SortByName(s))
    ensures forall x :: x in SortByName(s) <==> x in s
  {
    if s != [] {
      var front, e := s[..|s| - 1], s[|s| - 1];
      SortByNameKeeps(front);
      assert s == front + [e];
      forall x | x in front ensures x.key != e.key {
        var i :| 0 <= i < |front| && front[i] == x;
        assert s[i] == x && s[|s| - 1] == e;
      }
      InsertKeeps(SortByName(front), e);
    }
  }

  lemma {:induction false} InsertInOrder(s: seq<Listed>, e: Listed)
    requires InOrder(s)
    ensures InOrder(InsertByName(s, e))
    ensures forall x :: x in InsertByName(s, e) ==> x == e || x in s
  {
    if s == [] { return; }
    if Before(e.name, s[0].name) {
      BeforeIsNoLater(BaseText(e.name), BaseText(s[0].name));
      forall i | 0 < i < |s| ensures !Before(s[i].name, e.name) {
        NoLaterTransitive(BaseText(e.name), BaseText(s[0].name), BaseText(s[i].name));
      }
    } else {
      InsertInOrder(s[1..], e);
      var r := InsertByName(s[1..], e);
      forall j | 0 <= j < |r| ensures !Before(r[j].name, s[0].name) { assert r[j] in r; }
    }
  }

  lemma {:induction false} SortByNameSorts(s: seq<Listed>)
    ensures InOrder(SortByName(s))
  {
    if s != [] {
      SortByNameSorts(s[..|s| - 1]);
      InsertInOrder(SortByName(s[..|s| - 1]), s[|s| - 1]);
    }
  }

  ghost predicate Mentions(s: seq<Listed>, k: Path) {
    exists e :: e in s && e.key == k
  }

  /** s lists each of the keys once. */
  ghost predicate IsListing(s: seq<Listed>, mine: set<Path>) {
    && (forall e :: e in s ==> e.key in mine)
    && (forall k :: k in mine ==> Mentions(s, k))
    && KeysDiffer(s)
  }

  lemma ListOne(s: seq<Listed>, mine: set<Path>, x: Listed)
    requires IsListing(s, mine) && x.key !in mine
    ensures IsListing(s + [x], mine + {x.key})
  {
    var t := s + [x];
    assert x in t;
    forall k | k in mine ensures Mentions(t, k) {
      assert Mentions(s, k);
      var e :| e in s && e.key == k;
      assert e in t;
    }
    forall i | 0 <= i < |s| ensures s[i].key != x.key { assert s[i] in s; }
  }

  /** The sorted listing is a listing in the order of the names. */
  lemma SortedListing(s: seq<Listed>, mine: set<Path>)
    requires IsListing(s, mine)
    ensures IsListing(SortByName(s), mine) && InOrder(SortByName(s))
    ensures forall x :: x in SortByName(s) <==> x in s
  {
    SortByNameSorts(s);
    SortByNameKeeps(s);
    forall k | k in mine ensures Mentions(SortByName(s), k) {
      assert Mentions(s, k);
      var e :| e in s && e.key == k;
      assert e in SortByName(s);
    }
  }

  /** keys are those of a directory, each once. */
  ghost predicate KeysOnce(keys: seq<Path>, mine: set<Path>) {
    && (forall i :: 0 <= i < |keys| ==> keys[i] in mine)
    && (forall k :: k in mine ==> k in keys)
    && (forall i, j :: 0 <= i < j < |keys| ==> keys[i] != keys[j])
  }

  lemma ListedOnce(s: seq<Listed>, mine: set<Path>, keys: seq<Path>)
    requires IsListing(s, mine) && |keys| == |s| && forall i :: 0 <= i < |s| ==> keys[i] == s[i].key
    ensures KeysOnce(keys, mine)
  {
    forall i | 0 <= i < |keys| ensures keys[i] in mine { assert s[i] in s; }
    forall k | k in mine ensures k in keys {
      assert Mentions(s, k);
      var e :| e in s && e.key == k;
      var i :| 0 <= i < |s| && s[i] == e;
      assert keys[i] == k;
    }
  }
}
