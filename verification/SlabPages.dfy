/** The page allocator under the slab heap (src/slab.c): an address-sorted list of runs of
    free pages, kept inside the free pages themselves. Pages are numbered. */
module SlabPages {

  /** A run of free pages: struct rt_page_head. */
  datatype Run = Run(start: int, len: int)

  const NULL := -1

  predicate Between(lo: int, x: int, hi: int) {
    lo <= x < hi
  }

  ghost function Range(lo: int, hi: int): set<int> {
    set x | lo <= x < hi && Between(lo, x, hi)
  }

  /** The pages on the list. */
  ghost function Pages(l: seq<Run>): set<int> {
    if l == [] then {} else Range(l[0].start, l[0].start + l[0].len) + Pages(l[1..])
  }

  /** Sorted, non-empty runs with at least one used page between any two. */
  ghost predicate Canonical(l: seq<Run>) {
    l == [] ||
    (l[0].len > 0 && (|l| > 1 ==> l[0].start + l[0].len < l[1].start) && Canonical(l[1..]))
  }

  // ---- specification of the two operations ---------------------------------------------

  /** The list after taking `n` pages from the front of run `i`. */
  function TakeAt(l: seq<Run>, i: int, n: int): seq<Run>
    requires 0 <= i < |l|
  {
    if l[i].len > n then l[..i] + [Run(l[i].start + n, l[i].len - n)] + l[i + 1..] else l[..i] + l[i + 1..]
  }

  /** The list after giving back the pages [a, a + n). */
  function FreePages(l: seq<Run>, a: int, n: int): seq<Run> {
    if l == [] then [Run(a, n)]
    else if l[0].start + l[0].len == a then
      if |l| > 1 && a + n == l[1].start then [Run(l[0].start, l[0].len + n + l[1].len)] + l[2..]
      else [Run(l[0].start, l[0].len + n)] + l[1..]
    else if l[0].start == a + n then [Run(a, l[0].len + n)] + l[1..]
    else if l[0].start > a + n then [Run(a, n)] + l
    else [l[0]] + FreePages(l[1..], a, n)
  }

  // ---- what they keep ----------------------------------------------------------------------

  lemma {:induction false} PagesAbove(l: seq<Run>, lo: int)
    requires Canonical(l) && (l != [] ==> lo <= l[0].start)
    ensures forall p :: p in Pages(l) ==> lo <= p
  {
    if l != [] { PagesAbove(l[1..], lo); }
  }

  lemma TakeFirst(l: seq<Run>, n: int)
    requires Canonical(l) && l != [] && 0 < n <= l[0].len
    ensures Pages(TakeAt(l, 0, n)) == Pages(l) - Range(l[0].start, l[0].start + n)
  {
    var t, s := TakeAt(l, 0, n), l[0].start;
    PagesAbove(l[1..], s + l[0].len);
    if l[0].len > n {
      assert t[0] == Run(s + n, l[0].len - n) && t[1..] == l[1..];
      assert Range(s, s + l[0].len) == Range(s, s + n) + Range(s + n, s + l[0].len);
    } else {
      assert t == l[1..];
    }
  }

  lemma TakeLater(l: seq<Run>, i: int, n: int)
    requires 0 < i < |l|
    ensures TakeAt(l, i, n) == [l[0]] + TakeAt(l[1..], i - 1, n)
  {
    var k := l[1..];
    assert l[..i] == [l[0]] + k[..i - 1];
    assert l[i + 1..] == k[i..];
    assert l[i] == k[i - 1];
  }

  lemma MinusLater(a: set<int>, p: set<int>, r: set<int>)
    requires a !! r
    ensures a + (p - r) == a + p - r
  {}

  lemma FirstApart(l: seq<Run>, r: set<int>)
    requires Canonical(l) && l != [] && r <= Pages(l[1..])
    ensures Range(l[0].start, l[0].start + l[0].len) !! r
  {
    if |l| > 1 { PagesAbove(l[1..], l[0].start + l[0].len + 1); }
  }

  lemma {:induction false} TakeCanonical(l: seq<Run>, i: int, n: int)
    requires Canonical(l) && 0 <= i < |l| && 0 < n <= l[i].len
    ensures Canonical(TakeAt(l, i, n))
    ensures TakeAt(l, i, n) != [] ==> l[0].start <= TakeAt(l, i, n)[0].start
  {
    var t := TakeAt(l, i, n);
    if i == 0 {
      if l[0].len > n { assert t[1..] == l[1..]; } else { assert t == l[1..]; }
    } else {
      TakeCanonical(l[1..], i - 1, n);
      TakeLater(l, i, n);
      hide TakeAt;
      assert t[0] == l[0] && t[1..] == TakeAt(l[1..], i - 1, n);
    }
  }

  lemma {:induction false} RunIn(l: seq<Run>, i: int, n: int)
    requires 0 <= i < |l| && 0 < n <= l[i].len
    ensures Range(l[i].start, l[i].start + n) <= Pages(l)
  {
    if i > 0 { RunIn(l[1..], i - 1, n); }
  }

  lemma {:induction false} TakePages(l: seq<Run>, i: int, n: int)
    requires Canonical(l) && 0 <= i < |l| && 0 < n <= l[i].len
    ensures Pages(TakeAt(l, i, n)) == Pages(l) - Range(l[i].start, l[i].start + n)
  {
    if i == 0 {
      TakeFirst(l, n);
    } else {
      hide TakeAt; hide Range; hide Canonical;
      CanonicalRest(l);
      TakePages(l[1..], i - 1, n);
      TakeLater(l, i, n);
      RunIn(l[1..], i - 1, n);
      var rest, r := TakeAt(l[1..], i - 1, n), Range(l[i].start, l[i].start + n);
      FirstApart(l, r);
      assert ([l[0]] + rest)[1..] == rest;
      MinusLater(Range(l[0].start, l[0].start + l[0].len), Pages(l[1..]), r);
    }
  }

  lemma CanonicalRest(l: seq<Run>)
    requires Canonical(l) && l != []
    ensures Canonical(l[1..])
  {}

  lemma TakeKeeps(l: seq<Run>, i: int, n: int)
    requires Canonical(l) && 0 <= i < |l| && 0 < n <= l[i].len
    ensures Canonical(TakeAt(l, i, n))
    ensures Range(l[i].start, l[i].start + n) <= Pages(l)
    ensures Pages(TakeAt(l, i, n)) == Pages(l) - Range(l[i].start, l[i].start + n)
    ensures TakeAt(l, i, n) != [] ==> l[0].start <= TakeAt(l, i, n)[0].start
  {
    hide *;
    TakeCanonical(l, i, n);
    RunIn(l, i, n);
    TakePages(l, i, n);
  }

  lemma {:induction false} FreeKeeps(l: seq<Run>, a: int, n: int)
    requires Canonical(l) && 0 < n && Pages(l) !! Range(a, a + n)
    ensures Canonical(FreePages(l, a, n))
    ensures Pages(FreePages(l, a, n)) == Pages(l) + Range(a, a + n)
    ensures FreePages(l, a, n)[0].start == if l != [] && l[0].start < a then l[0].start else a
  {
    var r := FreePages(l, a, n);
    if l == [] {
      assert r[1..] == [];
    } else {
      var b := l[0];
      assert Range(b.start, b.start + b.len) !! Range(a, a + n);
      assert b.start in Range(b.start, b.start + b.len) && a in Range(a, a + n);
      assert b.start + b.len <= a || a + n <= b.start by { assert b.start in Pages(l); assert if a < b.start then b.start !in Range(a, a + n) else a !in Range(b.start, b.start + b.len); }
      if b.start + b.len == a {
        FreeAppends(l, a, n);
      } else if b.start == a + n {
        assert r[1..] == l[1..];
      } else if b.start > a + n {
        assert r[1..] == l;
      } else {
        FreeKeeps(l[1..], a, n);
        assert r[1..] == FreePages(l[1..], a, n);
      }
    }
  }

  /** The pages directly follow the first run, and may also touch the second. */
  lemma FreeAppends(l: seq<Run>, a: int, n: int)
    requires Canonical(l) && 0 < n && Pages(l) !! Range(a, a + n) && l != [] && l[0].start + l[0].len == a
    ensures Canonical(FreePages(l, a, n)) && Pages(FreePages(l, a, n)) == Pages(l) + Range(a, a + n)
  {
    var r := FreePages(l, a, n);
    if |l| > 1 {
      assert l[1].start in Pages(l[1..]);
      if a + n == l[1].start {
        assert r[1..] == l[2..] && l[1..][1..] == l[2..];
      } else {
        assert a + n < l[1].start by { assert l[1].start in Pages(l); assert l[1].start !in Range(a, a + n); }
        assert r[1..] == l[1..];
      }
    } else {
      assert r[1..] == [] && l[1..] == [];
    }
  }

  // ---- the list is a function of the set of free pages ------------------------------------

  /** Two canonical lists of the same pages are the same list. */
  lemma {:induction false} CanonicalUnique(l: seq<Run>, m: seq<Run>)
    requires Canonical(l) && Canonical(m) && Pages(l) == Pages(m)
    ensures l == m
  {
    if l == [] || m == [] {
      EmptyPages(l);
      EmptyPages(m);
    } else {
      FirstRun(l);
      FirstRun(m);
      var a, b := l[0].start + l[0].len, m[0].start + m[0].len;
      FirstMembers(l, b);
      FirstMembers(m, a);
      assert l[0] == m[0];
      PagesAbove(l[1..], a + 1);
      PagesAbove(m[1..], a + 1);
      assert Pages(l[1..]) == Pages(l) - Range(l[0].start, a);
      assert Pages(m[1..]) == Pages(m) - Range(l[0].start, a);
      CanonicalUnique(l[1..], m[1..]);
      assert l == [l[0]] + l[1..] && m == [m[0]] + m[1..];
    }
  }

  lemma EmptyPages(l: seq<Run>)
    requires Canonical(l)
    ensures Pages(l) == {} <==> l == []
  {
    if l != [] { FirstMembers(l, l[0].start); }
  }

  lemma FirstMembers(l: seq<Run>, x: int)
    requires Canonical(l) && l != []
    ensures l[0].start <= x < l[0].start + l[0].len ==> x in Pages(l)
  {
    assert x in Range(l[0].start, l[0].start + l[0].len) <==> l[0].start <= x < l[0].start + l[0].len;
  }

  /** The first run starts at the lowest page and ends before the next free one. */
  lemma FirstRun(l: seq<Run>)
    requires Canonical(l) && l != []
    ensures l[0].start in Pages(l) && l[0].start + l[0].len !in Pages(l)
    ensures forall p :: p in Pages(l) ==> l[0].start <= p
  {
    assert l[0].start in Range(l[0].start, l[0].start + l[0].len);
    PagesAbove(l[1..], l[0].start + l[0].len + 1);
  }

  /** Taking pages and giving them back restores the identical list. */
  lemma TakeThenFree(l: seq<Run>, i: int, n: int)
    requires Canonical(l) && 0 <= i < |l| && 0 < n <= l[i].len
    ensures FreePages(TakeAt(l, i, n), l[i].start, n) == l
  {
    TakeKeeps(l, i, n);
    FreeKeeps(TakeAt(l, i, n), l[i].start, n);
    CanonicalUnique(FreePages(TakeAt(l, i, n), l[i].start, n), l);
  }

  /** The order in which two allocations are given back does not matter. */
  lemma FreeCommutes(l: seq<Run>, a: int, n: int, b: int, m: int)
    requires Canonical(l) && 0 < n && 0 < m
    requires Pages(l) !! Range(a, a + n) && Pages(l) !! Range(b, b + m) && Range(a, a + n) !! Range(b, b + m)
    ensures FreePages(FreePages(l, a, n), b, m) == FreePages(FreePages(l, b, m), a, n)
  {
    FreeKeeps(l, a, n);
    FreeKeeps(l, b, m);
    FreeKeeps(FreePages(l, a, n), b, m);
    FreeKeeps(FreePages(l, b, m), a, n);
    CanonicalUnique(FreePages(FreePages(l, a, n), b, m), FreePages(FreePages(l, b, m), a, n));
  }

  /** Once every page is back, the list is one run. */
  lemma AllFreeIsOneRun(l: seq<Run>, lo: int, n: int)
    requires Canonical(l) && 0 < n && Pages(l) == Range(lo, lo + n)
    ensures l == [Run(lo, n)]
  {
    var m := [Run(lo, n)];
    assert m[1..] == [];
    CanonicalUnique(l, m);
  }

  /** A request can be served by some run exactly when enough consecutive pages are free. */
  lemma {:induction false} RoomIffRun(l: seq<Run>, n: int)
    requires Canonical(l) && 0 < n
    ensures (exists i :: 0 <= i < |l| && n <= l[i].len) <==> exists x :: Room(l, x, n)
  {
    if i :| 0 <= i < |l| && n <= l[i].len {
      TakeKeeps(l, i, n);
      assert Room(l, l[i].start, n);
    }
    if x :| Room(l, x, n) {
      RoomInRun(l, x, n);
    }
  }

  ghost predicate Room(l: seq<Run>, x: int, n: int) {
    Range(x, x + n) <= Pages(l)
  }

  lemma {:induction false} RoomInRun(l: seq<Run>, x: int, n: int)
    requires Canonical(l) && 0 < n && Range(x, x + n) <= Pages(l)
    ensures exists i :: 0 <= i < |l| && n <= l[i].len
  {
    assert x in Range(x, x + n);
    var a := l[0].start + l[0].len;
    FirstRun(l);
    if x < a {
      assert a < x + n ==> a in Range(x, x + n);
      assert n <= l[0].len;
    } else {
      assert Range(x, x + n) <= Pages(l[1..]);
      RoomInRun(l[1..], x, n);
      var i :| 0 <= i < |l[1..]| && n <= l[1..][i].len;
      assert l[i + 1] == l[1..][i];
    }
  }

  lemma StartIsPage(l: seq<Run>, i: int)
    requires Canonical(l) && 0 <= i < |l| && l[i].len > 0
    ensures l[i].start in Pages(l)
  {
    TakeKeeps(l, i, 1);
    assert l[i].start in Range(l[i].start, l[i].start + 1);
  }

  lemma RangeFrom(lo: int, hi: int)
    ensures forall p :: p in Range(lo, hi) ==> p >= lo
  {}

  /** One step of the walk of rt_page_free, at run `k`. */
  lemma FreeStep(list: seq<Run>, k: int, n: int, np: int)
    requires 0 <= k < |list|
    ensures var b, r := list[k], list[..k] + FreePages(list[k..], n, np);
      if b.start + b.len == n then
        if k + 1 < |list| && n + np == list[k + 1].start then
          r == list[..k] + [Run(b.start, b.len + np + list[k + 1].len)] + list[k + 2..]
        else
          r == list[..k] + [Run(b.start, b.len + np)] + list[k + 1..]
      else if b.start == n + np then r == list[..k] + [Run(n, b.len + np)] + list[k + 1..]
      else if b.start > n + np then r == list[..k] + [Run(n, np)] + list[k..]
      else r == list[..k + 1] + FreePages(list[k + 1..], n, np)
  {
    var l, b := list[k..], list[k];
    assert l[0] == b && l[1..] == list[k + 1..];
    if k + 1 < |list| { assert l[1] == list[k + 1] && l[2..] == list[k + 2..]; }
    assert list[..k + 1] == list[..k] + [b];
  }

  lemma FreeAtEnd(list: seq<Run>, n: int, np: int)
    ensures list[..|list|] + FreePages(list[|list|..], n, np) == list[..|list|] + [Run(n, np)] + list[|list|..]
  {}

  // ---- the operations on the list in memory --------------------------------------------------

  class PageList {
    var list: seq<Run>

    ghost predicate Valid()
      reads this
    {
      Canonical(list) && forall p :: p in Pages(list) ==> p >= 0
    }

    /** rt_page_init: one run of all pages. */
    constructor (addr: int, npages: int)
      requires npages > 0 && addr >= 0
      ensures Valid() && list == [Run(addr, npages)] && Pages(list) == Range(addr, addr + npages)
    {
      list := FreePages([], addr, npages);
      new;
      FreeKeeps([], addr, npages);
      RangeFrom(addr, addr + npages);
    }

    /** rt_page_alloc: the front of the first run that is long enough. */
    method Alloc(npages: int) returns (b: int, ghost i: int)
      requires Valid() && npages >= 0
      modifies this
      ensures Valid()
      ensures b == NULL <==> npages == 0 || forall j :: 0 <= j < |old(list)| ==> old(list)[j].len < npages
      ensures b == NULL ==> list == old(list)
      ensures b != NULL ==>
        && 0 <= i < |old(list)| && old(list)[i].start == b && npages <= old(list)[i].len
        && (forall j :: 0 <= j < i ==> old(list)[j].len < npages)
        && list == TakeAt(old(list), i, npages)
        && Range(b, b + npages) <= Pages(old(list)) && Pages(list) == Pages(old(list)) - Range(b, b + npages)
    {
      hide Canonical; hide Pages; hide Range;
      i := 0;
      if npages == 0 { return NULL, i; }
      var k := 0;
      while k < |list|
        invariant 0 <= k <= |list| && list == old(list)
        invariant forall j :: 0 <= j < k ==> list[j].len < npages
      {
        if list[k].len > npages {
          TakeKeeps(list, k, npages);
          StartIsPage(list, k);
          b, i := list[k].start, k;
          list := list[..k] + [Run(b + npages, list[k].len - npages)] + list[k + 1..];
          return;
        }
        if list[k].len == npages {
          TakeKeeps(list, k, npages);
          StartIsPage(list, k);
          b, i := list[k].start, k;
          list := list[..k] + list[k + 1..];
          return;
        }
        k := k + 1;
      }
      b := NULL;
    }

    /** rt_page_free: the pages join the runs they touch. */
    method Free(n: int, npages: int)
      requires Valid() && npages > 0 && n >= 0 && Pages(list) !! Range(n, n + npages)
      modifies this
      ensures Valid() && list == FreePages(old(list), n, npages)
      ensures Pages(list) == Pages(old(list)) + Range(n, n + npages)
    {
      hide Canonical; hide Pages; hide Range; hide FreePages;
      FreeKeeps(list, n, npages);
      RangeFrom(n, n + npages);
      ghost var target := FreePages(list, n, npages);
      var k := 0;
      assert list[..0] + FreePages(list[0..], n, npages) == target;
      while k < |list|
        invariant 0 <= k <= |list| && list == old(list)
        invariant list[..k] + FreePages(list[k..], n, npages) == target
      {
        var b := list[k];
        FreeStep(list, k, n, npages);
        if b.start + b.len == n {
          if k + 1 < |list| && n + npages == list[k + 1].start {
            list := list[..k] + [Run(b.start, b.len + npages + list[k + 1].len)] + list[k + 2..];
          } else {
            list := list[..k] + [Run(b.start, b.len + npages)] + list[k + 1..];
          }
          return;
        }
        if b.start == n + npages {
          list := list[..k] + [Run(n, b.len + npages)] + list[k + 1..];
          return;
        }
        if b.start > n + npages { break; }
        k := k + 1;
      }
      if k == |list| { FreeAtEnd(list, n, npages); }
      list := list[..k] + [Run(n, npages)] + list[k..];
    }
  }
}
