/**
The server's page allocator. A page is known by a number; `created` counts the pages made so
far. Each page is either available or recorded under the order id it was handed out for.
*/
module Allocators {
  datatype Pool = Pool(available: seq<nat>, used: map<nat, seq<nat>>, created: nat)

  const EMPTY_POOL := Pool([], map[], 0)

  function PagesOf(p: Pool, order: nat): seq<nat> {
    if order in p.used then p.used[order] else []
  }

  /** The page GetPage hands out: the last available one, or a new one. */
  function NextPage(p: Pool): nat {
    if p.available == [] then p.created else p.available[|p.available| - 1]
  }

  function GetPage(p: Pool, order: nat): Pool {
    Pool(if p.available == [] then [] else p.available[..|p.available| - 1],
         p.used[order := PagesOf(p, order) + [NextPage(p)]],
         if p.available == [] then p.created + 1 else p.created)
  }

  function ReleasePages(p: Pool, order: nat): Pool {
    p.(available := p.available + PagesOf(p, order), used := p.used - {order})
  }

  /** Pages under any order id, counted. */
  ghost function UsedCount(used: map<nat, seq<nat>>): nat {
    if used == map[] then 0
    else
      var k :| k in used;
      |used[k]| + UsedCount(used - {k})
  }

  /** The count does not depend on the order in which the map is walked. */
  lemma {:induction false} UsedCountRemove(used: map<nat, seq<nat>>, k: nat)
    requires k in used
    ensures UsedCount(used) == |used[k]| + UsedCount(used - {k})
    decreases |used|
  {
    var j :| j in used && UsedCount(used) == |used[j]| + UsedCount(used - {j});
    if j != k {
      UsedCountRemove(used - {j}, k);
      UsedCountRemove(used - {k}, j);
      assert used - {j} - {k} == used - {k} - {j};
    }
  }

  lemma UsedCountUpdate(used: map<nat, seq<nat>>, k: nat, pages: seq<nat>)
    ensures UsedCount(used[k := pages]) == UsedCount(used - {k}) + |pages|
  {
    UsedCountRemove(used[k := pages], k);
    assert used[k := pages] - {k} == used - {k};
  }

  /** Page x is under order id k. */
  ghost predicate UsedFor(p: Pool, k: nat, x: nat) {
    k in p.used && x in p.used[k]
  }

  ghost predicate Distinct(s: seq<nat>) {
    forall i, j :: 0 <= i < j < |s| ==> s[i] != s[j]
  }

  /** Every page made is in exactly one place, once; used and available add up to created. */
  ghost predicate PoolOk(p: Pool) {
    && Distinct(p.available)
    && (forall k :: k in p.used ==> Distinct(p.used[k]))
    && (forall k: nat, x: nat :: UsedFor(p, k, x) ==> x !in p.available)
    && (forall k: nat, x: nat :: UsedFor(p, k, x) ==> x < p.created)
    && (forall j: nat, k: nat, x: nat :: UsedFor(p, j, x) && UsedFor(p, k, x) ==> j == k)
    && (forall x :: x in p.available ==> x < p.created)
    && |p.available| + UsedCount(p.used) == p.created
  }

  lemma EmptyPoolOk(p: Pool)
    requires p == EMPTY_POOL
    ensures PoolOk(p)
  {}

  /** The next page is under no order id. */
  lemma NextPageFree(p: Pool)
    requires PoolOk(p)
    ensures forall k: nat, x: nat :: UsedFor(p, k, x) ==> x != NextPage(p)
    ensures NextPage(p) !in GetPage(p, 0).available
    ensures NextPage(p) < GetPage(p, 0).created
  {
    var n := |p.available|;
    assert n > 0 ==> p.available[n - 1] in p.available;
  }

  lemma GetPageUsedFor(p: Pool, order: nat, k: nat, x: nat)
    ensures UsedFor(GetPage(p, order), k, x) <==> UsedFor(p, k, x) || (k == order && x == NextPage(p))
  {}

  /** A page handed out is under its order id only, and the others stay where they are. */
  lemma GetPageOk(p: Pool, order: nat)
    requires PoolOk(p)
    ensures PoolOk(GetPage(p, order))
    ensures forall k: nat, x: nat :: UsedFor(p, k, x) ==> x != NextPage(p)
    ensures forall k: nat, x: nat :: UsedFor(GetPage(p, order), k, x) <==>
              UsedFor(p, k, x) || (k == order && x == NextPage(p))
    ensures NextPage(p) !in GetPage(p, order).available
  {
    var t := GetPage(p, order);
    GetPageCount(p, order);
    NextPageFree(p);
    forall k: nat, x: nat
      ensures UsedFor(t, k, x) <==> UsedFor(p, k, x) || (k == order && x == NextPage(p))
    {
      GetPageUsedFor(p, order, k, x);
    }
    assert t.available == GetPage(p, 0).available && t.created == GetPage(p, 0).created;
    forall k: nat, x: nat | UsedFor(t, k, x) ensures x < t.created {}
    assert forall x :: x in t.available ==> x in p.available;
    assert Distinct(t.used[order]) by {
      var before := PagesOf(p, order);
      forall i | 0 <= i < |before| ensures before[i] != NextPage(p) { assert UsedFor(p, order, before[i]); }
    }
  }

  lemma GetPageCount(p: Pool, order: nat)
    requires |p.available| + UsedCount(p.used) == p.created
    ensures |GetPage(p, order).available| + UsedCount(GetPage(p, order).used) == GetPage(p, order).created
  {
    UsedCountUpdate(p.used, order, PagesOf(p, order) + [NextPage(p)]);
    if order in p.used {
      UsedCountRemove(p.used, order);
    } else {
      assert p.used - {order} == p.used;
    }
  }

  /** Release moves exactly the pages of that order id back. */
  lemma ReleasePagesOk(p: Pool, order: nat)
    requires PoolOk(p)
    ensures PoolOk(ReleasePages(p, order))
    ensures forall k: nat, x: nat :: UsedFor(ReleasePages(p, order), k, x) <==> UsedFor(p, k, x) && k != order
    ensures forall x :: x in ReleasePages(p, order).available <==> x in p.available || UsedFor(p, order, x)
  {
    var t := ReleasePages(p, order);
    if order in p.used {
      UsedCountRemove(p.used, order);
      ReleasedDistinct(p, order);
      var u := p.used[order];
      assert forall x :: x in u <==> UsedFor(p, order, x);
      assert forall x :: x in t.available <==> x in p.available || x in u;
      assert forall k: nat, x: nat :: UsedFor(t, k, x) <==> UsedFor(p, k, x) && k != order;
    } else {
      assert t == p by { assert p.used - {order} == p.used; }
    }
  }

  lemma ReleasedDistinct(p: Pool, order: nat)
    requires PoolOk(p) && order in p.used
    ensures Distinct(p.available + p.used[order])
  {
    var u := p.used[order];
    assert forall i :: 0 <= i < |u| ==> UsedFor(p, order, u[i]);
  }

  class Allocator {
    var available: seq<nat>
    var used: map<nat, seq<nat>>
    var created: nat

    ghost function State(): Pool
      reads this
    {
      Pool(available, used, created)
    }

    ghost predicate Valid()
      reads this
    {
      PoolOk(State())
    }

    constructor ()
      ensures Valid() && State() == EMPTY_POOL
    {
      available, used, created := [], map[], 0;
    }

    /** An unused page, handed out for the given order id. */
    method Get(order: nat) returns (page: nat)
      requires Valid()
      modifies this
      ensures Valid() && State() == GetPage(old(State()), order)
      ensures page == NextPage(old(State()))
      ensures forall k: nat :: !old(UsedFor(State(), k, page)) && (UsedFor(State(), k, page) <==> k == order)
    {
      GetPageOk(State(), order);
      if |available| > 0 {
        var trunc := |available| - 1;
        page := available[trunc];
        available := available[..trunc];
      } else {
        page := created;
        created := created + 1;
      }
      used := used[order := (if order in used then used[order] else []) + [page]];
    }

    method Release(order: nat)
      requires Valid()
      modifies this
      ensures Valid() && State() == ReleasePages(old(State()), order)
    {
      ghost var before := State();
      ReleasePagesOk(before, order);
      if order in used && |used[order]| > 0 {
        available := available + used[order];
      }
      used := used - {order};
      assert State() == ReleasePages(before, order);
    }

    /** Forget every page; only for an allocator no longer needed. */
    method Free()
      modifies this
      ensures Valid() && State() == EMPTY_POOL
    {
      available, used, created := [], map[], 0;
      EmptyPoolOk(State());
    }

    method CountUsedPages() returns (num: nat)
      requires Valid()
      ensures num == UsedCount(used) == created - |available|
    {
      num := 0;
      var rest := used;
      while rest != map[]
        invariant num + UsedCount(rest) == UsedCount(used)
        decreases |rest|
      {
        var k :| k in rest;
        UsedCountRemove(rest, k);
        num := num + |rest[k]|;
        rest := rest - {k};
      }
    }
  }
}
