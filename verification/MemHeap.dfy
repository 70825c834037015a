/** The memory heap object of src/memheap.c: one pool, a ring through all of its blocks,
    and a second ring through the free ones.

    Addresses are offsets into the pool; the free-list header lives outside it. Sizes are
    32-bit, as on the targets the allocator is built for. */
module MemHeap {
  import opened Blocks
  import R = LinkedRing

  const HEADER := 24          // RT_MEMHEAP_SIZE: six words, aligned
  const MIN_ALLOC := 12       // RT_MEMHEAP_MINIALLOC
  const FREE_HEADER := -1     // address of heap->free_header
  const NULL := -2

  /** The payload size a request is turned into. */
  function Request(size: int): int {
    if AlignUp(size) < MIN_ALLOC then MIN_ALLOC else AlignUp(size)
  }

  /** Rounding a request up never shrinks it, except that the top three sizes wrap to the minimum. */
  lemma RequestCovers(size: int)
    requires 0 <= size < WORD
    ensures size <= Request(size) <==> size <= WORD - 4
    ensures Request(size) % 4 == 0 && MIN_ALLOC <= Request(size) < WORD
    ensures size <= WORD - 4 ==> Request(size) < size + 4 || Request(size) == MIN_ALLOC
  {}

  // ---- the two rings and the blocks -------------------------------------------------

  ghost predicate Flags(used: map<int, bool>, bs: seq<Block>, end: int) {
    && (forall i :: 0 <= i < |bs| ==> bs[i].addr in used && used[bs[i].addr] == bs[i].used)
    && end in used && used[end]
  }

  /** The free list, in its order, holds exactly the free blocks. */
  ghost predicate Lists(bs: seq<Block>, fs: seq<int>) {
    forall a :: a in fs <==> a in FreeAddrs(bs)
  }

  lemma BlockIndex(bs: seq<Block>, fs: seq<int>, a: int) returns (k: int)
    requires Lists(bs, fs) && a in fs
    ensures 0 <= k < |bs| && bs[k].addr == a && !bs[k].used
  {
    assert a in FreeAddrs(bs);
    k :| 0 <= k < |bs| && bs[k].addr == a && !bs[k].used;
  }

  /** MEMITEM_SIZE reads the payload size off the block ring. */
  lemma ItemSize(blk: R.Links, bs: seq<Block>, end: int, k: int)
    requires Tiled(HEADER, bs, end) && R.IsRing(blk, Addrs(bs, end)) && 0 <= k < |bs|
    ensures bs[k].addr in blk.next && blk.next[bs[k].addr] == End(HEADER, bs[k])
  {
    var s := Addrs(bs, end);
    assert blk.next[s[k]] == s[k + 1];
    if k + 1 < |bs| { assert Joined(HEADER, bs, k + 1); }
  }

  /** The flag word of every block after blocks `k..m` became `xs`. */
  lemma FlagsSplice(used: map<int, bool>, used': map<int, bool>, bs: seq<Block>, end: int, k: int, m: int, xs: seq<Block>)
    requires 0 <= k <= m <= |bs|
    requires Flags(used, bs, end) && Flags(used', xs, end)
    requires forall i :: (0 <= i < k || m <= i < |bs|) ==> bs[i].addr in used' && used'[bs[i].addr] == bs[i].used
    ensures Flags(used', Splice(bs, k, m, xs), end)
  {
    SpliceAt(bs, k, m, xs);
  }

  // ---- allocation ----------------------------------------------------------------

  lemma AllocLists(bs: seq<Block>, end: int, fre: R.Links, fs: seq<int>, k: int, j: int, req: int)
    requires Tiled(HEADER, bs, end) && Lists(bs, fs) && R.IsRing(fre, [FREE_HEADER] + fs)
    requires 0 <= k < |bs| && !bs[k].used && 0 <= j < |fs| && fs[j] == bs[k].addr
    ensures Lists(AllocAt(HEADER, MIN_ALLOC, bs, k, req),
                  (if Splits(HEADER, MIN_ALLOC, bs[k].size, req) then [bs[k].addr + HEADER + req] else []) + R.Removed(fs, j))
  {
    R.RingDistinct(fre, [FREE_HEADER] + fs);
    hide Tiled; hide R.IsRing; hide FreeAddrs; hide AllocAt; hide R.Removed; hide R.Distinct;
    AllocFreeAddrs(bs, end, k, req);
    R.RemovedBehindHead(FREE_HEADER, fs, j);
  }

  lemma AllocFreeAddrs(bs: seq<Block>, end: int, k: int, req: int)
    requires Tiled(HEADER, bs, end) && 0 <= k < |bs| && !bs[k].used
    ensures FreeAddrs(AllocAt(HEADER, MIN_ALLOC, bs, k, req)) ==
            FreeAddrs(bs) - {bs[k].addr} + (if Splits(HEADER, MIN_ALLOC, bs[k].size, req) then {bs[k].addr + HEADER + req} else {})
  {
    TiledContiguous(HEADER, bs, end);
    hide Tiled; hide Contiguous;
    var xs := Granted(HEADER, MIN_ALLOC, bs[k], req);
    SpliceFreeAddrs(HEADER, bs, k, k + 1, xs);
    assert FreeAddrs(bs[k..k + 1]) == {bs[k].addr} by { assert bs[k..k + 1] == [bs[k]]; assert bs[k] in [bs[k]]; }
    if Splits(HEADER, MIN_ALLOC, bs[k].size, req) { assert xs[1] in xs; }
  }

  /** The address of the remainder when `req` bytes of block `k` are handed out. */
  function Cut(bs: seq<Block>, k: int, req: int): int
    requires 0 <= k < |bs|
  {
    bs[k].addr + HEADER + req
  }

  lemma AllocAddrs(bs: seq<Block>, end: int, k: int, req: int)
    requires 0 <= k < |bs|
    ensures Addrs(AllocAt(HEADER, MIN_ALLOC, bs, k, req), end) ==
            if Splits(HEADER, MIN_ALLOC, bs[k].size, req) then R.Inserted(Addrs(bs, end), k + 1, Cut(bs, k, req))
            else Addrs(bs, end)
  {
    hide Addrs;
    var s, xs := Addrs(bs, end), Granted(HEADER, MIN_ALLOC, bs[k], req);
    AddrsSplice(bs, end, k, k + 1, xs);
    AddrsLength(bs, end);
    GrantedAddrs(bs, k, req);
    if |xs| == 1 { assert s[..k + 1] + [] + s[k + 1..] == s; }
  }

  lemma GrantedAddrs(bs: seq<Block>, k: int, req: int)
    requires 0 <= k < |bs|
    ensures var xs := Granted(HEADER, MIN_ALLOC, bs[k], req);
      |Addrs(xs, 0)| == |xs| + 1 &&
      Addrs(xs, 0)[1..|xs|] == if Splits(HEADER, MIN_ALLOC, bs[k].size, req) then [Cut(bs, k, req)] else []
  {}

  lemma AllocRing(blk: R.Links, bs: seq<Block>, end: int, k: int, req: int)
    requires Tiled(HEADER, bs, end) && R.IsRing(blk, Addrs(bs, end))
    requires 0 <= k < |bs| && 0 < req <= bs[k].size && Splits(HEADER, MIN_ALLOC, bs[k].size, req)
    ensures Cut(bs, k, req) !in Addrs(bs, end) && bs[k].addr in blk.next
    ensures R.IsRing(R.InsertAfter(blk, bs[k].addr, Cut(bs, k, req)), Addrs(AllocAt(HEADER, MIN_ALLOC, bs, k, req), end))
  {
    hide AllocAt;
    InsideStretch(HEADER, bs, end, k, k + 1, Cut(bs, k, req));
    AllocAddrs(bs, end, k, req);
    assert Addrs(bs, end)[k] == bs[k].addr;
    R.InsertAfterRing(blk, Addrs(bs, end), k, Cut(bs, k, req));
  }

  /** An address where no block starts is not on the free list. */
  lemma NotListed(bs: seq<Block>, end: int, fs: seq<int>, x: int)
    requires Lists(bs, fs) && x !in Addrs(bs, end)
    ensures x !in fs
  {
    forall y | y in fs ensures y != x {
      var i := BlockIndex(bs, fs, y);
      assert Addrs(bs, end)[i] == y;
    }
  }

  lemma AllocFlags(used: map<int, bool>, bs: seq<Block>, end: int, k: int, req: int)
    requires Tiled(HEADER, bs, end) && Flags(used, bs, end)
    requires 0 <= k < |bs| && !bs[k].used && 0 < req <= bs[k].size
    ensures var n := bs[k].addr + HEADER + req;
      var used' := if Splits(HEADER, MIN_ALLOC, bs[k].size, req) then used[n := false] else used;
      Flags(used'[bs[k].addr := true], AllocAt(HEADER, MIN_ALLOC, bs, k, req), end)
  {
    var n, split := bs[k].addr + HEADER + req, Splits(HEADER, MIN_ALLOC, bs[k].size, req);
    var used' := (if split then used[n := false] else used)[bs[k].addr := true];
    if split { InsideStretch(HEADER, bs, end, k, k + 1, n); }
    Inside(HEADER, bs, end, k);
    forall i | (0 <= i < k || k + 1 <= i < |bs|) ensures bs[i].addr in used' && used'[bs[i].addr] == bs[i].used {
      if bs[i].addr == bs[k].addr { SameAddr(HEADER, bs, i, k); }
      assert Addrs(bs, end)[i] == bs[i].addr;
    }
    assert Addrs(bs, end)[|bs|] == end;
    FlagsSplice(used, used', bs, end, k, k + 1, Granted(HEADER, MIN_ALLOC, bs[k], req));
  }

  // ---- release ---------------------------------------------------------------------

  /** The block ring after a release: unlink the block if it joins its left neighbour, then
      the right neighbour if that one is free too. */
  ghost function RingAfterFree(bs: seq<Block>, end: int, k: int): seq<int>
    requires 0 <= k < |bs|
  {
    var lo := MergeLo(bs, k);
    var s := if lo < k then R.Removed(Addrs(bs, end), k) else Addrs(bs, end);
    if MergeHi(bs, k) == k + 2 then R.Removed(s, lo + 1) else s
  }

  lemma FreeAddrsRing(bs: seq<Block>, end: int, k: int)
    requires 0 <= k < |bs|
    ensures Addrs(FreeAt(HEADER, bs, k), end) == RingAfterFree(bs, end, k)
  {
    hide Addrs;
    var lo, hi := MergeLo(bs, k), MergeHi(bs, k);
    var s, m := Addrs(bs, end), [Merged(HEADER, bs, lo, hi)];
    AddrsSplice(bs, end, lo, hi, m);
    AddrsLength(bs, end);
    AddrsLength(m, 0);
    assert Addrs(m, 0)[1..1] == [];
    if lo < k && hi == k + 2 {
      assert R.Removed(R.Removed(s, k), lo + 1) == s[..lo + 1] + [] + s[hi..];
    } else if lo < k || hi == k + 2 {
      assert R.Removed(s, lo + 1) == s[..lo + 1] + [] + s[hi..];
    } else {
      assert s == s[..lo + 1] + [] + s[hi..];
    }
  }

  lemma FreeFlags(used: map<int, bool>, bs: seq<Block>, end: int, k: int)
    requires Tiled(HEADER, bs, end) && Flags(used, bs, end) && 0 <= k < |bs| && bs[k].used
    ensures Flags(used[bs[k].addr := false], FreeAt(HEADER, bs, k), end)
  {
    var lo, hi, used' := MergeLo(bs, k), MergeHi(bs, k), used[bs[k].addr := false];
    Inside(HEADER, bs, end, k);
    forall i | 0 <= i < lo || hi <= i < |bs| ensures bs[i].addr in used' && used'[bs[i].addr] == bs[i].used {
      if bs[i].addr == bs[k].addr { SameAddr(HEADER, bs, i, k); }
    }
    FlagsSplice(used, used', bs, end, lo, hi, [Merged(HEADER, bs, lo, hi)]);
  }

  lemma FreeAtAddrs(bs: seq<Block>, end: int, k: int)
    requires Tiled(HEADER, bs, end) && 0 <= k < |bs| && bs[k].used
    ensures MergeHi(bs, k) == k + 2 ==> bs[k + 1].addr in FreeAddrs(bs) && bs[k + 1].addr != bs[MergeLo(bs, k)].addr
    ensures bs[MergeLo(bs, k)].addr in FreeAddrs(bs) <==> MergeLo(bs, k) < k
    ensures FreeAddrs(FreeAt(HEADER, bs, k)) ==
            FreeAddrs(bs) - (if MergeHi(bs, k) == k + 2 then {bs[k + 1].addr} else {}) + {bs[MergeLo(bs, k)].addr}
  {
    var lo, hi := MergeLo(bs, k), MergeHi(bs, k);
    var m := [Merged(HEADER, bs, lo, hi)];
    SpliceFreeAddrs(HEADER, bs, lo, hi, m);
    assert FreeAddrs(m) == {bs[lo].addr} by { assert m[0] in m; }
    StretchFreeAddrs(bs, k);
    SameAddrAside(bs, end, lo, k + 1);
    if bs[k].addr in FreeAddrs(bs) {
      var i :| 0 <= i < |bs| && bs[i].addr == bs[k].addr && !bs[i].used;
      SameAddr(HEADER, bs, i, k);
    }
  }

  lemma SameAddrAside(bs: seq<Block>, end: int, i: int, j: int)
    requires Tiled(HEADER, bs, end) && 0 <= i < j <= |bs|
    ensures j < |bs| ==> bs[i].addr != bs[j].addr
  {
    if j < |bs| { Ordered(HEADER, bs, i, j); }
  }

  lemma StretchFreeAddrs(bs: seq<Block>, k: int)
    requires 0 <= k < |bs| && bs[k].used
    ensures var lo, hi := MergeLo(bs, k), MergeHi(bs, k);
      FreeAddrs(bs[lo..hi]) == (if lo < k then {bs[lo].addr} else {}) + (if hi == k + 2 then {bs[k + 1].addr} else {})
  {
    var lo, hi := MergeLo(bs, k), MergeHi(bs, k);
    var s := bs[lo..hi];
    assert forall b :: b in s <==> (lo < k && b == bs[lo]) || b == bs[k] || (hi == k + 2 && b == bs[k + 1]) by {
      if lo < k { assert s[0] == bs[lo]; }
      assert s[k - lo] == bs[k];
      if hi == k + 2 { assert s[k + 1 - lo] == bs[k + 1]; }
    }
  }

  /** The two neighbours as the release code sees them: through prev/next and the used bit. */
  lemma Neighbours(blk: R.Links, used: map<int, bool>, bs: seq<Block>, end: int, k: int)
    requires Tiled(HEADER, bs, end) && R.IsRing(blk, Addrs(bs, end)) && Flags(used, bs, end) && 0 <= k < |bs|
    ensures bs[k].addr in blk.prev && blk.prev[bs[k].addr] in used
    ensures blk.prev[bs[k].addr] != bs[k].addr && bs[k].addr + HEADER <= End(HEADER, bs[k])
    ensures !used[blk.prev[bs[k].addr]] <==> MergeLo(bs, k) < k
    ensures MergeLo(bs, k) < k ==> blk.prev[bs[k].addr] == bs[k - 1].addr
    ensures bs[k].addr in blk.next && blk.next[bs[k].addr] == End(HEADER, bs[k])
    ensures End(HEADER, bs[k]) in used
    ensures !used[End(HEADER, bs[k])] <==> MergeHi(bs, k) == k + 2
    ensures k + 1 < |bs| ==> bs[k + 1].addr == End(HEADER, bs[k])
  {
    var s := Addrs(bs, end);
    ItemSize(blk, bs, end, k);
    assert blk.prev[s[k]] == if k == 0 then s[|s| - 1] else s[k - 1];
    if k + 1 < |bs| { assert Joined(HEADER, bs, k + 1); }
    if k > 0 { Ordered(HEADER, bs, k - 1, k); } else { Inside(HEADER, bs, end, k); }
  }

  /** The first half of a release, joining the block to a free left neighbour. */
  lemma JoinLeft(blk: R.Links, bs: seq<Block>, end: int, k: int)
    requires Tiled(HEADER, bs, end) && R.IsRing(blk, Addrs(bs, end)) && 0 < k < |bs|
    ensures bs[k].addr in blk.next && bs[k].addr in blk.prev
    ensures var blk' := R.Unlink(blk, bs[k].addr);
      && R.IsRing(blk', R.Removed(Addrs(bs, end), k))
      && bs[k - 1].addr in blk'.next && blk'.next[bs[k - 1].addr] == End(HEADER, bs[k])
  {
    var s := Addrs(bs, end);
    ItemSize(blk, bs, end, k);
    assert s[k] == bs[k].addr && s[k - 1] == bs[k - 1].addr;
    assert blk.prev[s[k]] == s[k - 1];
    R.UnlinkRing(blk, s, k);
  }

  lemma JoinRight(blk: R.Links, bs: seq<Block>, end: int, k: int, s: seq<int>)
    requires Tiled(HEADER, bs, end) && 0 <= k < |bs| && MergeHi(bs, k) == k + 2 && R.IsRing(blk, s)
    requires s == if MergeLo(bs, k) < k then R.Removed(Addrs(bs, end), k) else Addrs(bs, end)
    ensures bs[k + 1].addr in blk.next && bs[k + 1].addr in blk.prev
    ensures R.IsRing(R.Unlink(blk, bs[k + 1].addr), RingAfterFree(bs, end, k))
  {
    var lo := MergeLo(bs, k);
    assert s[lo + 1] == Addrs(bs, end)[k + 1] == bs[k + 1].addr;
    R.UnlinkRing(blk, s, lo + 1);
  }

  // ---- resizing in place -------------------------------------------------------------

  /** The block ring after a resize: the free right neighbour, if any, replaced by the cut. */
  lemma ResizeAddrs(bs: seq<Block>, end: int, k: int, size: int)
    requires 0 <= k < |bs|
    ensures Addrs(ResizeAt(HEADER, bs, k, size), end) ==
            R.Inserted(if MergeHi(bs, k) == k + 2 then R.Removed(Addrs(bs, end), k + 1) else Addrs(bs, end), k + 1, Cut(bs, k, size))
  {
    hide Addrs;
    var s, hi, xs := Addrs(bs, end), MergeHi(bs, k), Resized(HEADER, bs, k, size);
    AddrsSplice(bs, end, k, hi, xs);
    AddrsLength(bs, end);
    CutAddrs(bs, k, size);
    if hi == k + 2 {
      assert R.Inserted(R.Removed(s, k + 1), k + 1, Cut(bs, k, size)) == s[..k + 1] + [Cut(bs, k, size)] + s[hi..];
    }
  }

  lemma CutAddrs(bs: seq<Block>, k: int, size: int)
    requires 0 <= k < |bs|
    ensures var xs := Resized(HEADER, bs, k, size); |Addrs(xs, 0)| == 3 && Addrs(xs, 0)[1..|xs|] == [Cut(bs, k, size)]
  {}

  /** Growing into the right neighbour: unlink it, then link the new remainder. */
  lemma GrowRing(blk: R.Links, bs: seq<Block>, end: int, k: int, size: int)
    requires Tiled(HEADER, bs, end) && R.IsRing(blk, Addrs(bs, end)) && 0 <= k < |bs|
    requires MergeHi(bs, k) == k + 2 && bs[k].addr < Cut(bs, k, size) < End(HEADER, bs[k + 1])
    ensures bs[k + 1].addr in blk.next && bs[k + 1].addr in blk.prev
    ensures bs[k].addr in R.Unlink(blk, bs[k + 1].addr).next
    ensures R.IsRing(R.InsertAfter(R.Unlink(blk, bs[k + 1].addr), bs[k].addr, Cut(bs, k, size)),
                     Addrs(ResizeAt(HEADER, bs, k, size), end))
  {
    hide R.IsRing; hide R.Unlink; hide R.InsertAfter; hide ResizeAt;
    var s, c := Addrs(bs, end), Cut(bs, k, size);
    InsideStretch(HEADER, bs, end, k, k + 2, c);
    assert c !in R.Removed(s, k + 1) by { R.RemovedAt(s, k + 1); }
    R.UnlinkInsertRing(blk, s, k, c);
    ResizeAddrs(bs, end, k, size);
  }

  /** Shrinking: link the remainder, then unlink a free right neighbour. */
  lemma ShrinkRing(blk: R.Links, bs: seq<Block>, end: int, k: int, size: int)
    requires Tiled(HEADER, bs, end) && R.IsRing(blk, Addrs(bs, end)) && 0 <= k < |bs|
    requires bs[k].addr < Cut(bs, k, size) < End(HEADER, bs[k])
    ensures bs[k].addr in blk.next
    ensures var blk' := R.InsertAfter(blk, bs[k].addr, Cut(bs, k, size));
      && (MergeHi(bs, k) == k + 1 ==> R.IsRing(blk', Addrs(ResizeAt(HEADER, bs, k, size), end)))
      && (MergeHi(bs, k) == k + 2 ==>
          && bs[k + 1].addr in blk'.next && bs[k + 1].addr in blk'.prev
          && R.IsRing(R.Unlink(blk', bs[k + 1].addr), Addrs(ResizeAt(HEADER, bs, k, size), end)))
  {
    hide R.IsRing; hide R.Unlink; hide R.InsertAfter; hide ResizeAt; hide R.Removed; hide R.Inserted;
    var s, c := Addrs(bs, end), Cut(bs, k, size);
    InsideStretch(HEADER, bs, end, k, k + 1, c);
    assert s[k] == bs[k].addr;
    ItemSize(blk, bs, end, k);
    R.InsertAfterRing(blk, s, k, c);
    if MergeHi(bs, k) == k + 2 { R.InsertUnlinkRing(blk, s, k, c); }
    ResizeAddrs(bs, end, k, size);
  }

  /** What the freshly linked remainder and its right neighbour point at. */
  lemma ShrinkNeighbours(blk: R.Links, bs: seq<Block>, end: int, k: int, size: int)
    requires Tiled(HEADER, bs, end) && R.IsRing(blk, Addrs(bs, end)) && 0 <= k < |bs|
    requires bs[k].addr < Cut(bs, k, size) < End(HEADER, bs[k])
    ensures bs[k].addr in blk.next
    ensures var blk' := R.InsertAfter(blk, bs[k].addr, Cut(bs, k, size));
      && Cut(bs, k, size) in blk'.next && blk'.next[Cut(bs, k, size)] == End(HEADER, bs[k])
      && (k + 1 < |bs| ==>
          && bs[k + 1].addr == End(HEADER, bs[k])
          && bs[k + 1].addr in blk'.next && blk'.next[bs[k + 1].addr] == End(HEADER, bs[k + 1]))
  {
    ItemSize(blk, bs, end, k);
    if k + 1 < |bs| {
      ItemSize(blk, bs, end, k + 1);
      assert Joined(HEADER, bs, k + 1);
    }
  }

  lemma ResizeFlags(used: map<int, bool>, bs: seq<Block>, end: int, k: int, size: int)
    requires Tiled(HEADER, bs, end) && Flags(used, bs, end) && 0 <= k < |bs| && bs[k].used
    requires bs[k].addr < Cut(bs, k, size) < End(HEADER, bs[MergeHi(bs, k) - 1])
    ensures Flags(used[Cut(bs, k, size) := false], ResizeAt(HEADER, bs, k, size), end)
  {
    var hi, c := MergeHi(bs, k), Cut(bs, k, size);
    InsideStretch(HEADER, bs, end, k, hi, c);
    assert Addrs(bs, end)[|bs|] == end;
    forall i | 0 <= i < k || hi <= i < |bs| ensures bs[i].addr != c {
      assert Addrs(bs, end)[i] == bs[i].addr;
    }
    FlagsSplice(used, used[c := false], bs, end, k, hi, Resized(HEADER, bs, k, size));
  }

  lemma ResizeAtAddrs(bs: seq<Block>, end: int, k: int, size: int)
    requires Tiled(HEADER, bs, end) && 0 <= k < |bs| && bs[k].used
    ensures MergeHi(bs, k) == k + 2 ==> bs[k + 1].addr in FreeAddrs(bs)
    ensures FreeAddrs(ResizeAt(HEADER, bs, k, size)) ==
            FreeAddrs(bs) - (if MergeHi(bs, k) == k + 2 then {bs[k + 1].addr} else {}) + {Cut(bs, k, size)}
  {
    var hi, xs := MergeHi(bs, k), Resized(HEADER, bs, k, size);
    SpliceFreeAddrs(HEADER, bs, k, hi, xs);
    assert FreeAddrs(xs) == {Cut(bs, k, size)} by { assert xs[1] in xs; }
    if hi == k + 2 {
      assert bs[k..hi] == [bs[k], bs[k + 1]];
      assert FreeAddrs(bs[k..hi]) == {bs[k + 1].addr} by { assert bs[k + 1] in bs[k..hi]; }
    } else {
      assert bs[k..hi] == [bs[k]];
    }
  }

  /** The free list after a resize: the remainder in front, the right neighbour gone. */
  lemma ResizeLists(bs: seq<Block>, end: int, fs: seq<int>, rest: seq<int>, k: int, size: int)
    requires Tiled(HEADER, bs, end) && Lists(bs, fs) && 0 <= k < |bs| && bs[k].used
    requires forall x :: x in rest <==> x in fs && !(MergeHi(bs, k) == k + 2 && x == bs[k + 1].addr)
    ensures Lists(ResizeAt(HEADER, bs, k, size), [Cut(bs, k, size)] + rest)
  {
    hide Tiled; hide FreeAddrs; hide ResizeAt;
    ResizeAtAddrs(bs, end, k, size);
  }

  /** The size of the remainder a resize leaves, and where it starts. */
  lemma Remainder(bs: seq<Block>, end: int, k: int, size: int)
    requires Tiled(HEADER, bs, end) && 0 <= k < |bs| && 0 <= size
    requires size + HEADER <= bs[k].size || (MergeHi(bs, k) == k + 2 && size <= bs[k].size + bs[k + 1].size)
    ensures Resized(HEADER, bs, k, size)[1].size >= 0
    ensures bs[k].addr < Cut(bs, k, size) < End(HEADER, bs[MergeHi(bs, k) - 1])
    ensures Resized(HEADER, bs, k, size)[1].size == if MergeHi(bs, k) == k + 2 then bs[k].size + bs[k + 1].size - size else bs[k].size - HEADER - size
  {
    if k + 1 < |bs| { assert Joined(HEADER, bs, k + 1); }
  }

  /** MEMITEM_SIZE of the remainder, once it is linked. */
  lemma RemainderItem(blk: R.Links, bs: seq<Block>, end: int, k: int, size: int)
    requires 0 <= k < |bs| && Tiled(HEADER, ResizeAt(HEADER, bs, k, size), end)
    requires R.IsRing(blk, Addrs(ResizeAt(HEADER, bs, k, size), end))
    ensures Cut(bs, k, size) in blk.next
    ensures blk.next[Cut(bs, k, size)] == Cut(bs, k, size) + HEADER + Resized(HEADER, bs, k, size)[1].size
  {
    hide Tiled; hide R.IsRing; hide Addrs; hide ResizeAt; hide Resized;
    ResizedNext(bs, k, size);
    ItemSize(blk, ResizeAt(HEADER, bs, k, size), end, k + 1);
  }

  lemma ResizedNext(bs: seq<Block>, k: int, size: int)
    requires 0 <= k < |bs|
    ensures |Resized(HEADER, bs, k, size)| == 2 && |ResizeAt(HEADER, bs, k, size)| > k + 1
    ensures ResizeAt(HEADER, bs, k, size)[k + 1] == Resized(HEADER, bs, k, size)[1]
    ensures Resized(HEADER, bs, k, size)[1].addr == Cut(bs, k, size)
  {
    SpliceAt(bs, k, MergeHi(bs, k), Resized(HEADER, bs, k, size));
  }

  lemma CutFresh(bs: seq<Block>, end: int, k: int, size: int)
    requires Tiled(HEADER, bs, end) && 0 <= k < |bs|
    requires bs[k].addr < Cut(bs, k, size) < End(HEADER, bs[MergeHi(bs, k) - 1]) && size != bs[k].size
    ensures Cut(bs, k, size) !in Addrs(bs, end)
  {
    InsideStretch(HEADER, bs, end, k, MergeHi(bs, k), Cut(bs, k, size));
    if k + 1 < |bs| { assert Joined(HEADER, bs, k + 1); }
  }

  /** The 32-bit test whether a grown block still leaves a minimal remainder agrees with the
      true one, unless the sum on its right wraps around. */
  lemma GrowGuard(room: int, req: int)
    requires 0 <= room < WORD && 0 <= req < WORD
    ensures ((room > (req + MIN_ALLOC) % WORD) <==> room > req + MIN_ALLOC)
       <==> (req + MIN_ALLOC < WORD || room <= req + MIN_ALLOC - WORD)
  {}

  /** Replacing a block of the free list by one at its front. */
  lemma ReplaceFree(fre: R.Links, fs: seq<int>, j: int, a: int)
    requires R.IsRing(fre, [FREE_HEADER] + fs) && 0 <= j < |fs| && a !in fs && a != FREE_HEADER
    ensures fs[j] in fre.next && fs[j] in fre.prev && FREE_HEADER in R.Unlink(fre, fs[j]).next
    ensures R.IsRing(R.InsertAfter(R.Unlink(fre, fs[j]), FREE_HEADER, a), [FREE_HEADER] + ([a] + R.Removed(fs, j)))
    ensures forall x :: x in R.Removed(fs, j) <==> x in fs && x != fs[j]
  {
    var ring := [FREE_HEADER] + fs;
    R.RingLinked(fre, ring, j + 1);
    R.RingDistinct(fre, ring);
    hide R.IsRing; hide R.InsertAfter; hide R.Unlink; hide R.Removed; hide R.Distinct;
    R.UnlinkRing(fre, ring, j + 1);
    R.RemovedBehindHead(FREE_HEADER, fs, j);
    PushRing(R.Unlink(fre, fs[j]), R.Removed(fs, j), a);
  }

  lemma ReplaceFreeDefined(fre: R.Links, fs: seq<int>, j: int)
    requires R.IsRing(fre, [FREE_HEADER] + fs) && 0 <= j < |fs|
    ensures fs[j] in fre.next && fs[j] in fre.prev && FREE_HEADER in R.Unlink(fre, fs[j]).next
  {
    R.RingLinked(fre, [FREE_HEADER] + fs, j + 1);
    R.RingLinked(fre, [FREE_HEADER] + fs, 0);
  }

  lemma FreeIndex(bs: seq<Block>, fs: seq<int>, k: int) returns (j: int)
    requires Lists(bs, fs) && 0 <= k < |bs| && !bs[k].used
    ensures 0 <= j < |fs| && fs[j] == bs[k].addr
  {
    assert bs[k] in bs;
    assert bs[k].addr in FreeAddrs(bs);
    j :| 0 <= j < |fs| && fs[j] == bs[k].addr;
  }

  lemma FreeFits(bs: seq<Block>, end: int)
    requires Tiled(HEADER, bs, end)
    ensures 0 <= FreeBytes(bs) <= end
  {
    FreeBytesBound(HEADER, bs);
    FreeBytesRoom(HEADER, bs);
  }

  // ---- a request whose sum wraps -----------------------------------------------------

  /** Linking the header at `n`, inside the header of block `k`, in place of the right neighbour. */
  lemma OverrunLinks(blk: R.Links, bs: seq<Block>, end: int, k: int, n: int)
    requires Tiled(HEADER, bs, end) && R.IsRing(blk, Addrs(bs, end)) && 0 <= k < |bs| - 1
    requires bs[k].addr < n < bs[k].addr + HEADER
    ensures bs[k].addr in blk.next && bs[k + 1].addr in blk.next && bs[k + 1].addr in blk.prev
    ensures bs[k].addr in R.Unlink(blk, bs[k + 1].addr).next
    ensures var blk' := R.InsertAfter(R.Unlink(blk, bs[k + 1].addr), bs[k].addr, n);
      && bs[k].addr in blk'.next && blk'.next[bs[k].addr] == n
      && SameBefore(blk, blk', bs, k)
  {
    var s := Addrs(bs, end);
    R.RingLinked(blk, s, k);
    R.RingLinked(blk, s, k + 1);
    assert blk.prev[s[k + 1]] == s[k];
    forall i | 0 <= i < k ensures bs[i].addr in blk.next && bs[i].addr < bs[k].addr {
      R.RingLinked(blk, s, i);
      Ordered(HEADER, bs, i, k);
    }
  }

  /** The blocks before `k` point where they did. */
  ghost predicate SameBefore(blk: R.Links, blk': R.Links, bs: seq<Block>, k: int)
    requires 0 <= k <= |bs|
  {
    forall i :: 0 <= i < k ==> bs[i].addr in blk.next && bs[i].addr in blk'.next && blk'.next[bs[i].addr] == blk.next[bs[i].addr]
  }

  /** Blocks laid out along unchanged pointers start at the same addresses. */
  lemma {:induction false} SamePrefix(blk: R.Links, blk': R.Links, bs: seq<Block>, b: seq<Block>, end: int, k: int, i: int)
    requires Tiled(HEADER, bs, end) && R.IsRing(blk, Addrs(bs, end)) && 0 <= i <= k < |bs| && SameBefore(blk, blk', bs, k)
    requires Tiled(HEADER, b, end) && R.IsRing(blk', Addrs(b, end))
    ensures i < |b| && b[i].addr == bs[i].addr
    decreases i
  {
    hide *;
    PrefixFacts(blk, bs, end, i);
    NotEmpty(b, end);
    PrefixFacts(blk', b, end, 0);
    if i > 0 {
      SamePrefix(blk, blk', bs, b, end, k, i - 1);
      PrefixFacts(blk, bs, end, i - 1);
      PrefixFacts(blk', b, end, i - 1);
      SameBeforeAt(blk, blk', bs, k, i - 1);
    }
  }

  lemma SameBeforeAt(blk: R.Links, blk': R.Links, bs: seq<Block>, k: int, i: int)
    requires 0 <= i < k <= |bs| && SameBefore(blk, blk', bs, k)
    ensures bs[i].addr in blk.next && bs[i].addr in blk'.next && blk'.next[bs[i].addr] == blk.next[bs[i].addr]
  {}

  lemma NotEmpty(bs: seq<Block>, end: int)
    requires Tiled(HEADER, bs, end)
    ensures |bs| > 0
  {}

  /** Where block `i` starts and where it points. */
  lemma PrefixFacts(blk: R.Links, bs: seq<Block>, end: int, i: int)
    requires Tiled(HEADER, bs, end) && R.IsRing(blk, Addrs(bs, end)) && 0 <= i < |bs|
    ensures bs[i].addr < end && bs[0].addr == 0 && |bs| > 0
    ensures bs[i].addr in blk.next && blk.next[bs[i].addr] == if i + 1 < |bs| then bs[i + 1].addr else end
  {
    ItemSize(blk, bs, end, i);
    Bounds(HEADER, bs, end, i);
    hide R.IsRing; hide Addrs;
    if i + 1 < |bs| { assert Abuts(HEADER, bs, i + 1); }
  }

  /** No blocks can be laid out along pointers that lead from block `k` into its own header. */
  lemma OverrunBreaks(blk: R.Links, blk': R.Links, bs: seq<Block>, b: seq<Block>, end: int, k: int, n: int)
    requires Tiled(HEADER, bs, end) && R.IsRing(blk, Addrs(bs, end)) && 0 <= k < |bs| && SameBefore(blk, blk', bs, k)
    requires bs[k].addr in blk'.next && blk'.next[bs[k].addr] == n < bs[k].addr + HEADER
    ensures !(Tiled(HEADER, b, end) && R.IsRing(blk', Addrs(b, end)))
  {
    if Tiled(HEADER, b, end) && R.IsRing(blk', Addrs(b, end)) {
      SamePrefix(blk, blk', bs, b, end, k, k);
      ItemSize(blk', b, end, k);
      Bounds(HEADER, b, end, k);
    }
  }

  /** The block at `p` would be resized by the branch whose test wraps: the request is above 2^32 - 16,
      the right neighbour is free, and the two together exceed what is left of the sum. */
  ghost predicate Wraps(bs: seq<Block>, p: int, newSize: int) {
    exists k :: 0 <= k < |bs| && WrapsAt(bs, k, p, newSize)
  }

  ghost predicate WrapsAt(bs: seq<Block>, k: int, p: int, newSize: int)
    requires 0 <= k < |bs|
  {
    && bs[k].used && bs[k].addr + HEADER == p && MergeHi(bs, k) == k + 2
    && Request(newSize) > WORD - 16
    && bs[k].size + bs[k + 1].size > (Request(newSize) + MIN_ALLOC) % WORD
  }

  lemma WrapsAtIs(bs: seq<Block>, k: int, p: int, newSize: int)
    requires 0 <= k < |bs| && bs[k].used && bs[k].addr + HEADER == p
    ensures WrapsAt(bs, k, p, newSize) <==>
      MergeHi(bs, k) == k + 2 && Request(newSize) > WORD - 16 && bs[k].size + bs[k + 1].size > (Request(newSize) + MIN_ALLOC) % WORD
  {}

  lemma PeakIs(a: int, b: int)
    ensures Peak(a, b) == if a >= b then a else b
  {}

  lemma GrantedIs(b: Block, req: int)
    requires 0 < req <= b.size
    ensures |Granted(HEADER, MIN_ALLOC, b, req)| > 0
    ensures var g := Granted(HEADER, MIN_ALLOC, b, req)[0]; g.used && g.addr == b.addr && req <= g.size
  {}

  lemma SelfReplaced(live: set<Block>, b: Block)
    requires b in live
    ensures live - {b} + {b} == live
  {}

  lemma NeverWraps(bs: seq<Block>, end: int, p: int, newSize: int)
    requires Tiled(HEADER, bs, end)
    ensures p == NULL || newSize == 0 ==> !Wraps(bs, p, newSize)
  {
    if p == NULL { NullFits(bs, end, newSize); }
  }

  lemma NullFits(bs: seq<Block>, end: int, newSize: int)
    requires Tiled(HEADER, bs, end)
    ensures !Wraps(bs, NULL, newSize)
  {
    forall k | 0 <= k < |bs| ensures !WrapsAt(bs, k, NULL, newSize) { Inside(HEADER, bs, end, k); }
  }

  lemma WrapsOnlyAt(bs: seq<Block>, end: int, k: int, p: int, newSize: int)
    requires Tiled(HEADER, bs, end) && 0 <= k < |bs| && bs[k].addr + HEADER == p
    ensures Wraps(bs, p, newSize) <==> WrapsAt(bs, k, p, newSize)
  {
    if Wraps(bs, p, newSize) {
      var i :| 0 <= i < |bs| && WrapsAt(bs, i, p, newSize);
      SameAddr(HEADER, bs, i, k);
    }
  }

  lemma PushRing(fre: R.Links, fs: seq<int>, a: int)
    requires R.IsRing(fre, [FREE_HEADER] + fs) && a !in fs && a != FREE_HEADER
    ensures FREE_HEADER in fre.next && R.IsRing(R.InsertAfter(fre, FREE_HEADER, a), [FREE_HEADER] + ([a] + fs))
  {
    hide R.IsRing; hide R.InsertAfter; hide R.Inserted;
    var ring := [FREE_HEADER] + fs;
    R.RingLinked(fre, ring, 0);
    R.InsertAfterRing(fre, ring, 0, a);
    PushedRing(fs, a);
  }

  lemma PushedRing(fs: seq<int>, a: int)
    ensures R.Inserted([FREE_HEADER] + fs, 1, a) == [FREE_HEADER] + ([a] + fs)
  {}

  ghost function Peak(a: int, b: int): int {
    if a >= b then a else b
  }

  /** `top` is the usage after one more allocation from the blocks `bs`. */
  ghost predicate Between(top: int, poolSize: int, bs: seq<Block>, req: int) {
    exists m :: 0 <= m < |bs| && top == poolSize - FreeBytes(AllocAt(HEADER, MIN_ALLOC, bs, m, req))
  }

  lemma RequestTwice(size: int)
    requires 0 <= size < WORD
    ensures Request(Request(size)) == Request(size)
  {}

  /** No free block can hold a request of `req` bytes, or they would be all that is left. */
  ghost predicate NoRoom(bs: seq<Block>, available: int, req: int) {
    req >= available || forall b :: b in bs && !b.used ==> b.size < req
  }

  /** Block `m` is the first of the free list that holds the request. */
  ghost predicate FirstInRing(bs: seq<Block>, fs: seq<int>, req: int, m: int) {
    && 0 <= m < |bs| && !bs[m].used && req <= bs[m].size
    && exists j :: 0 <= j < |fs| && fs[j] == bs[m].addr && forall b :: b in bs && b.addr in fs[..j] ==> b.size < req
  }

  /** `g` is what that block becomes when the request is met from it. */
  ghost predicate TakenFrom(bs: seq<Block>, fs: seq<int>, req: int, g: Block) {
    exists m :: FirstInRing(bs, fs, req, m) && g == Granted(HEADER, MIN_ALLOC, bs[m], req)[0]
  }

  /** The block behind `b` is free, and what both have exceeds the request by more than a minimal block. */
  ghost predicate RoomBehind(bs: seq<Block>, b: Block, req: int) {
    exists c :: c in bs && !c.used && c.addr == b.addr + HEADER + b.size && b.size + c.size > req + MIN_ALLOC
  }

  lemma RoomBehindIs(bs: seq<Block>, end: int, k: int, req: int)
    requires Tiled(HEADER, bs, end) && 0 <= k < |bs|
    ensures RoomBehind(bs, bs[k], req) <==> MergeHi(bs, k) == k + 2 && bs[k].size + bs[k + 1].size > req + MIN_ALLOC
  {
    if k + 1 < |bs| { assert Abuts(HEADER, bs, k + 1); }
    if RoomBehind(bs, bs[k], req) {
      var c :| c in bs && !c.used && c.addr == bs[k].addr + HEADER + bs[k].size && bs[k].size + c.size > req + MIN_ALLOC;
      var i :| 0 <= i < |bs| && bs[i] == c;
      if i < k { Ordered(HEADER, bs, i, k); } else if i > k + 1 { Ordered(HEADER, bs, k + 1, i); }
      if i > k { Ordered(HEADER, bs, k, k + 1); }
    }
  }

  class Heap {
    var poolSize: int
    var available: int
    var maxUsed: int
    var blk: R.Links               // next, prev of every block header
    var fre: R.Links               // next_free, prev_free
    var used: map<int, bool>       // the used bit in the magic word
    ghost var bs: seq<Block>       // the blocks before the tail, in address order
    ghost var fs: seq<int>         // the free list, from its front

    ghost function End(): int
      reads this
    {
      poolSize - HEADER
    }

    ghost predicate Rings(b: seq<Block>, f: seq<int>)
      reads this
    {
      && R.IsRing(blk, Addrs(b, End()))
      && R.IsRing(fre, [FREE_HEADER] + f)
      && Lists(b, f)
    }

    /** The fields represent the blocks `b` and the free list `f`. */
    ghost predicate Intact(b: seq<Block>, f: seq<int>)
      reads this
    {
      && Tiled(HEADER, b, End())
      && Rings(b, f)
      && Flags(used, b, End())
      && available == FreeBytes(b)
      && poolSize - available <= maxUsed
      && poolSize < WORD
    }

    ghost predicate Valid()
      reads this
    {
      Intact(bs, fs)
    }

    /** The fields represent no heap. */
    ghost predicate Broken()
      reads this
    {
      forall b, f :: !Intact(b, f)
    }

    lemma ValidFacts()
      requires Valid()
      ensures !Broken() && poolSize - available <= maxUsed && poolSize < WORD && Tiled(HEADER, bs, End())
    {}

    /** rt_memheap_init: one free block and the used tail. */
    constructor (size: int)
      requires 2 * HEADER <= size < WORD
      ensures Valid() && poolSize == size / 4 * 4
      ensures bs == [Block(0, poolSize - 2 * HEADER, false)] && fs == [0]
      ensures maxUsed == poolSize - available
    {
      var pool := size / 4 * 4;
      poolSize := pool;
      available := pool - 2 * HEADER;
      maxUsed := 2 * HEADER;
      var tail := pool - HEADER;
      blk := R.Links(map[0 := tail, tail := 0], map[0 := tail, tail := 0]);
      fre := R.InsertAfter(R.Links(map[FREE_HEADER := FREE_HEADER], map[FREE_HEADER := FREE_HEADER]), FREE_HEADER, 0);
      used := map[0 := false, tail := true];
      bs := [Block(0, pool - 2 * HEADER, false)];
      fs := [0];
      new;
      Sums1(HEADER, bs[0]);
      assert [FREE_HEADER] + fs == [FREE_HEADER, 0];
      assert Addrs(bs, tail) == [0, tail];
      assert FreeAddrs(bs) == {0} by { assert bs[0] in bs; }
    }

    /** Take a block out of the free ring. */
    method UnlinkFree(a: int, ghost j: int)
      requires R.IsRing(fre, [FREE_HEADER] + fs) && 0 <= j < |fs| && fs[j] == a
      modifies this`fre, this`fs
      ensures R.IsRing(fre, [FREE_HEADER] + fs)
      ensures fs == R.Removed(old(fs), j)
      ensures forall x :: x in fs <==> x in old(fs) && x != a
    {
      R.UnlinkRing(fre, [FREE_HEADER] + fs, j + 1);
      R.RemovedBehindHead(FREE_HEADER, fs, j);
      fre := R.Unlink(fre, a);
      fs := R.Removed(fs, j);
    }

    /** Put a block at the front of the free ring. */
    method PushFree(a: int)
      requires R.IsRing(fre, [FREE_HEADER] + fs) && a !in fs && a != FREE_HEADER
      modifies this`fre, this`fs
      ensures R.IsRing(fre, [FREE_HEADER] + fs) && fs == [a] + old(fs)
    {
      hide R.IsRing; hide R.InsertAfter;
      PushRing(fre, fs, a);
      fre := R.InsertAfter(fre, FREE_HEADER, a);
      fs := [a] + fs;
    }

    method RaisePeak()
      modifies this`maxUsed
      ensures maxUsed == if poolSize - available > old(maxUsed) then poolSize - available else old(maxUsed)
    {
      if poolSize - available > maxUsed { maxUsed := poolSize - available; }
    }

    /** The search loop of rt_memheap_alloc: the first block of the free ring that is large enough. */
    method FirstFit(req: int) returns (hp: int, size: int, ghost j: int, ghost k: int)
      requires Valid() && req > 0
      ensures size >= req ==> 0 <= j < |fs| && fs[j] == hp
      ensures size >= req ==> 0 <= k < |bs| && bs[k].addr == hp && bs[k].size == size && !bs[k].used
      ensures size >= req ==> forall b :: b in bs && b.addr in fs[..j] ==> b.size < req
      ensures size < req ==> forall b :: b in bs && !b.used ==> b.size < req
    {
      hide R.IsRing; hide FreeAddrs; hide Addrs; hide Flags; hide FreeBytes;
      j, k, size := 0, 0, 0;
      FreeRingNext(fre, fs, -1);
      hp := fre.next[FREE_HEADER];
      while hp != FREE_HEADER && size < req
        invariant 0 <= j <= |fs| && hp == (if j < |fs| then fs[j] else FREE_HEADER)
        invariant forall b :: b in bs && b.addr in fs[..j] ==> b.size < req
        invariant size >= req ==> j < |fs| && 0 <= k < |bs| && bs[k].addr == hp && bs[k].size == size && !bs[k].used
        decreases |fs| - j, if size < req then 1 else 0
      {
        k := BlockIndex(bs, fs, hp);
        ItemSize(blk, bs, End(), k);
        size := blk.next[hp] - hp - HEADER;
        if size < req {
          NotThisBlock(bs, fs, End(), j, k, req);
          FreeRingNext(fre, fs, j);
          hp := fre.next[hp];
          j := j + 1;
        }
      }
      if size < req {
        assert fs[..j] == fs;
        forall b | b in bs && !b.used ensures b.size < req { FreeListed(bs, b); }
      }
    }

    /** Hand out `req` bytes of a free block: split it, or take it whole. */
    method Take(hp: int, freeSize: int, req: int, ghost k: int, ghost j: int)
      requires Valid() && 0 <= k < |bs| && 0 <= j < |fs| && fs[j] == hp
      requires bs[k].addr == hp && bs[k].size == freeSize && !bs[k].used && 0 < req <= freeSize
      modifies this
      ensures Valid() && poolSize == old(poolSize)
      ensures bs == AllocAt(HEADER, MIN_ALLOC, old(bs), k, req)
      ensures fs == (if Splits(HEADER, MIN_ALLOC, freeSize, req) then [hp + HEADER + req] else []) + R.Removed(old(fs), j)
      ensures maxUsed == if poolSize - available > old(maxUsed) then poolSize - available else old(maxUsed)
    {
      hide R.IsRing; hide Tiled; hide Flags; hide Addrs; hide AllocAt; hide R.InsertAfter;
      hide FreeAddrs; hide FreeBytes; hide UsedBytes; hide Live; hide Lists; hide R.Removed;
      AllocTiled(HEADER, MIN_ALLOC, bs, End(), k, req);
      AllocEffect(HEADER, MIN_ALLOC, bs, End(), k, req);
      AllocAddrs(bs, End(), k, req);
      AllocFlags(used, bs, End(), k, req);
      AllocLists(bs, End(), fre, fs, k, j, req);
      Bounds(HEADER, bs, End(), k);
      if freeSize >= req + HEADER + MIN_ALLOC {
        var n := hp + req + HEADER;
        AllocRing(blk, bs, End(), k, req);
        NotListed(bs, End(), fs, n);
        used := used[n := false];
        blk := R.InsertAfter(blk, hp, n);
        UnlinkFree(hp, j);
        PushFree(n);
        available := available - req - HEADER;
      } else {
        available := available - freeSize;
        UnlinkFree(hp, j);
        assert fs == [] + fs;
      }
      RaisePeak();
      used := used[hp := true];
      bs := AllocAt(HEADER, MIN_ALLOC, bs, k, req);
    }

    /** rt_memheap_alloc. The request is served from the first block of the free list that can
        hold it, split when enough is left over; it fails exactly when the request is not
        smaller than the free total or no free block can hold it. */
    method Alloc(size: int) returns (p: int, ghost k: int, ghost j: int)
      requires Valid() && 0 <= size < WORD
      modifies this
      ensures Valid() && poolSize == old(poolSize)
      ensures p == NULL <==> NoRoom(old(bs), old(available), Request(size))
      ensures p == NULL ==> unchanged(this)
      ensures p != NULL ==>
        && FirstInRing(old(bs), old(fs), Request(size), k) && p == old(bs)[k].addr + HEADER
        && Tight(HEADER, MIN_ALLOC, old(bs)[k], Granted(HEADER, MIN_ALLOC, old(bs)[k], Request(size))[0], Request(size))
        && bs == AllocAt(HEADER, MIN_ALLOC, old(bs), k, Request(size))
        && Live(bs) == Live(old(bs)) + {Granted(HEADER, MIN_ALLOC, old(bs)[k], Request(size))[0]}
      ensures p != NULL ==>
        && 0 <= j < |old(fs)| && old(fs)[j] == p - HEADER
        && (forall b :: b in old(bs) && b.addr in old(fs)[..j] ==> b.size < Request(size))
        && fs == (if Splits(HEADER, MIN_ALLOC, old(bs)[k].size, Request(size)) then [p + Request(size)] else [])
                 + R.Removed(old(fs), j)
      ensures maxUsed == if poolSize - available > old(maxUsed) then poolSize - available else old(maxUsed)
    {
      hide Tiled; hide AllocAt; hide Live; hide FreeBytes; hide UsedBytes; hide Rings; hide Flags; hide R.Removed;
      k, j := 0, 0;
      RequestCovers(size);
      var req := Request(size);
      if req >= available { return NULL, k, j; }
      var hp, freeSize;
      hp, freeSize, j, k := FirstFit(req);
      if freeSize < req { return NULL, k, j; }
      AllocEffect(HEADER, MIN_ALLOC, bs, End(), k, req);
      Bounds(HEADER, bs, End(), k);
      Take(hp, freeSize, req, k, j);
      p := hp + HEADER;
    }

    /** Some block in use has its payload at `p`. */
    ghost predicate IsLive(p: int)
      reads this
    {
      exists b :: b in Live(bs) && b.addr + HEADER == p
    }

    /** rt_memheap_free: the block leaves the blocks in use and is merged with its free
        neighbours; one joined to the left reuses its neighbour's place in the free list. */
    method Free(p: int) returns (ghost k: int, ghost j: int)
      requires Valid() && (p == NULL || IsLive(p))
      modifies this
      ensures Valid() && poolSize == old(poolSize) && maxUsed == old(maxUsed)
      ensures p == NULL ==> unchanged(this)
      ensures p != NULL ==>
        && 0 <= k < |old(bs)| && old(bs)[k].used && old(bs)[k].addr + HEADER == p
        && bs == FreeAt(HEADER, old(bs), k)
        && Live(bs) == Live(old(bs)) - {old(bs)[k]}
      ensures p != NULL && MergeHi(old(bs), k) == k + 2 ==> 0 <= j < |old(fs)| && old(fs)[j] == old(bs)[k + 1].addr
      ensures p != NULL ==> fs == (if MergeLo(old(bs), k) < k then [] else [p - HEADER])
                                + (if MergeHi(old(bs), k) == k + 2 then R.Removed(old(fs), j) else old(fs))
    {
      k, j := 0, 0;
      if p == NULL { return; }
      ghost var b;
      b, k := Find(p);
      j := Release(p - HEADER, k);
    }

    method Release(addr: int, ghost k: int) returns (ghost j: int)
      requires Valid() && 0 <= k < |bs| && bs[k].addr == addr && bs[k].used
      modifies this
      ensures Valid() && poolSize == old(poolSize) && maxUsed == old(maxUsed)
      ensures bs == FreeAt(HEADER, old(bs), k) && Live(bs) == Live(old(bs)) - {old(bs)[k]}
      ensures MergeHi(old(bs), k) == k + 2 ==> 0 <= j < |old(fs)| && old(fs)[j] == old(bs)[k + 1].addr
      ensures fs == (if MergeLo(old(bs), k) < k then [] else [addr])
                  + (if MergeHi(old(bs), k) == k + 2 then R.Removed(old(fs), j) else old(fs))
    {
      hide R.IsRing; hide Tiled; hide Flags; hide Addrs; hide FreeAt; hide R.Unlink;
      hide FreeAddrs; hide FreeBytes; hide UsedBytes; hide Live; hide R.Removed;
      FreeTiled(HEADER, bs, End(), k);
      FreeEffect(HEADER, bs, End(), k);
      FreeFlags(used, bs, End(), k);
      FreeAtAddrs(bs, End(), k);
      FreeAddrsRing(bs, End(), k);
      Neighbours(blk, used, bs, End(), k);
      Bounds(HEADER, bs, End(), k);
      AddrsLength(bs, End());
      j := 0;
      var hp, insert := addr, true;
      used := used[hp := false];
      available := available + (blk.next[hp] - hp - HEADER);
      ghost var ring := Addrs(bs, End());
      if !used[blk.prev[hp]] {
        available := available + HEADER;
        JoinLeft(blk, bs, End(), k);
        var left := blk.prev[hp];
        blk := R.Unlink(blk, hp);
        ring := R.Removed(ring, k);
        hp := left;
        insert := false;
      }
      if !used[blk.next[hp]] {
        available := available + HEADER;
        var n := blk.next[hp];
        JoinRight(blk, bs, End(), k, ring);
        blk := R.Unlink(blk, n);
        j :| 0 <= j < |fs| && fs[j] == n;
        UnlinkFree(n, j);
      }
      if insert { PushFree(hp); }
      bs := FreeAt(HEADER, bs, k);
    }

    /** The assignments that move the header of the right neighbour, in 32-bit arithmetic. */
    method MoveHeader(addr: int, next: int, newSize: int)
      requires addr in blk.next && next in blk.next && next in blk.prev && addr in R.Unlink(blk, next).next
      requires next in fre.next && next in fre.prev && FREE_HEADER in R.Unlink(fre, next).next
      modifies this`available, this`maxUsed, this`blk, this`fre, this`used
      ensures var n := (addr + HEADER + newSize) % WORD;
        && available == (old(available) - (newSize - (old(blk).next[addr] - addr - HEADER))) % WORD
        && maxUsed == Peak(old(maxUsed), (poolSize - available) % WORD)
        && blk == R.InsertAfter(R.Unlink(old(blk), next), addr, n)
        && fre == R.InsertAfter(R.Unlink(old(fre), next), FREE_HEADER, n)
        && used == old(used)[n := false]
    {
      available := (available - (newSize - (blk.next[addr] - addr - HEADER))) % WORD;
      if (poolSize - available) % WORD > maxUsed { maxUsed := (poolSize - available) % WORD; }
      fre := R.Unlink(fre, next);
      blk := R.Unlink(blk, next);
      var n := (addr + HEADER + newSize) % WORD;
      used := used[n := false];
      blk := R.InsertAfter(blk, addr, n);
      fre := R.InsertAfter(fre, FREE_HEADER, n);
    }

    /** Growing in place into the free right neighbour. */
    method Grow(addr: int, next: int, newSize: int, ghost k: int) returns (ghost j: int)
      requires Valid() && 0 <= k < |bs| && bs[k].addr == addr && bs[k].used && MergeHi(bs, k) == k + 2
      requires next == bs[k + 1].addr && bs[k].size < newSize && newSize + MIN_ALLOC < bs[k].size + bs[k + 1].size
      modifies this
      ensures Valid() && poolSize == old(poolSize)
      ensures bs == ResizeAt(HEADER, old(bs), k, newSize)
      ensures Live(bs) == Live(old(bs)) - {old(bs)[k]} + {Block(addr, newSize, true)}
      ensures 0 <= j < |old(fs)| && old(fs)[j] == next && fs == [addr + HEADER + newSize] + R.Removed(old(fs), j)
      ensures maxUsed == Peak(old(maxUsed), poolSize - available)
    {
      hide R.IsRing; hide Tiled; hide Flags; hide Addrs; hide ResizeAt; hide R.Unlink; hide R.InsertAfter;
      hide FreeAddrs; hide FreeBytes; hide UsedBytes; hide Live; hide R.Removed; hide Resized;
      Neighbours(blk, used, bs, End(), k);
      Remainder(bs, End(), k, newSize);
      ResizeTiled(HEADER, bs, End(), k, newSize);
      ResizeEffect(HEADER, bs, End(), k, newSize);
      CutFresh(bs, End(), k, newSize);
      NotListed(bs, End(), fs, Cut(bs, k, newSize));
      ResizeFlags(used, bs, End(), k, newSize);
      ResizeAtAddrs(bs, End(), k, newSize);
      GrowRing(blk, bs, End(), k, newSize);
      Bounds(HEADER, bs, End(), k);
      Bounds(HEADER, bs, End(), k + 1);
      FreeFits(ResizeAt(HEADER, bs, k, newSize), End());
      j :| 0 <= j < |fs| && fs[j] == next;
      ReplaceFree(fre, fs, j, Cut(bs, k, newSize));
      MoveHeader(addr, next, newSize);
      fs := [addr + HEADER + newSize] + R.Removed(fs, j);
      bs := ResizeAt(HEADER, bs, k, newSize);
    }

    /** The same assignments when the new size is so large that the sum in the test wraps: the header
        lands inside the block's own, and the fields represent no heap at all any more. */
    method Overrun(addr: int, next: int, newSize: int, ghost k: int)
      requires Valid() && 0 <= k < |bs| && bs[k].addr == addr && bs[k].used && MergeHi(bs, k) == k + 2
      requires next == bs[k + 1].addr && WORD - 16 < newSize < WORD && newSize % 4 == 0
      modifies this
      ensures poolSize == old(poolSize) && Broken()
      ensures addr in blk.next && addr < blk.next[addr] < addr + HEADER
    {
      hide R.IsRing; hide Tiled; hide Flags; hide Addrs; hide R.Unlink; hide R.InsertAfter; hide FreeAddrs; hide FreeBytes; hide R.Removed;
      ghost var n := addr + HEADER + newSize - WORD;
      Neighbours(blk, used, bs, End(), k);
      Bounds(HEADER, bs, End(), k);
      ghost var j := FreeIndex(bs, fs, k + 1);
      OverrunLinks(blk, bs, End(), k, n);
      ReplaceFreeDefined(fre, fs, j);
      MoveHeader(addr, next, newSize);
      forall b, f ensures !Intact(b, f) { OverrunBreaks(old(blk), blk, bs, b, End(), k, n); }
    }

    /** Shrinking in place; the remainder joins a free right neighbour. */
    method Shrink(addr: int, newSize: int, ghost k: int) returns (ghost j: int)
      requires Valid() && 0 <= k < |bs| && bs[k].addr == addr && bs[k].used
      requires 0 <= newSize && newSize + HEADER + MIN_ALLOC < bs[k].size
      modifies this
      ensures Valid() && poolSize == old(poolSize) && maxUsed == old(maxUsed)
      ensures bs == ResizeAt(HEADER, old(bs), k, newSize)
      ensures Live(bs) == Live(old(bs)) - {old(bs)[k]} + {Block(addr, newSize, true)}
      ensures MergeHi(old(bs), k) == k + 2 ==> 0 <= j < |old(fs)| && old(fs)[j] == old(bs)[k + 1].addr
      ensures fs == [addr + HEADER + newSize] + (if MergeHi(old(bs), k) == k + 2 then R.Removed(old(fs), j) else old(fs))
    {
      hide R.IsRing; hide Tiled; hide Flags; hide Addrs; hide ResizeAt; hide R.Unlink; hide R.InsertAfter;
      hide FreeAddrs; hide FreeBytes; hide UsedBytes; hide Live; hide R.Removed; hide Resized; hide Lists;
      Neighbours(blk, used, bs, End(), k);
      ShrinkNeighbours(blk, bs, End(), k, newSize);
      Remainder(bs, End(), k, newSize);
      ResizeTiled(HEADER, bs, End(), k, newSize);
      ResizeEffect(HEADER, bs, End(), k, newSize);
      CutFresh(bs, End(), k, newSize);
      NotListed(bs, End(), fs, Cut(bs, k, newSize));
      ResizeFlags(used, bs, End(), k, newSize);
      ShrinkRing(blk, bs, End(), k, newSize);
      Bounds(HEADER, bs, End(), k);
      j := 0;
      var n := addr + newSize + HEADER;
      used := used[n := false];
      blk := R.InsertAfter(blk, addr, n);
      var m := blk.next[n];
      if !used[m] {
        available := available - (blk.next[m] - m - HEADER);
        blk := R.Unlink(blk, m);
        j := FreeIndex(bs, fs, k + 1);
        UnlinkFree(m, j);
      }
      ResizeLists(bs, End(), old(fs), fs, k, newSize);
      PushFree(n);
      RemainderItem(blk, bs, End(), k, newSize);
      available := available + (blk.next[n] - n - HEADER);
      bs := ResizeAt(HEADER, bs, k, newSize);
    }

    /** rt_memheap_realloc: zero frees, a null pointer allocates; otherwise the block is resized
        in place when the code can, kept when the surplus is too small to split off, or replaced
        by a new block. In every case the other blocks in use are untouched, and when no memory
        is found nothing changes. All this fails exactly if the request wraps. */
    method Realloc(p: int, newSize: int) returns (q: int, ghost b: Block, ghost g: Block, ghost top: int)
      requires Valid() && 0 <= newSize < WORD && (p == NULL || IsLive(p))
      modifies this
      ensures poolSize == old(poolSize)
      ensures Broken() <==> Wraps(old(bs), p, newSize)
      ensures Wraps(old(bs), p, newSize) ==> q == p && p - HEADER in blk.next && p - HEADER < blk.next[p - HEADER] < p
      ensures !Wraps(old(bs), p, newSize) ==>
        && Valid() && maxUsed >= old(maxUsed)
        && (p != NULL ==> b in Live(old(bs)) && b.addr + HEADER == p)
        && (newSize == 0 ==> q == NULL && Live(bs) == Live(old(bs)) - (if p == NULL then {} else {b}))
        && (newSize > 0 && q == NULL ==> unchanged(this))
        && (q != NULL ==>
            && newSize > 0 && g.used && g.addr + HEADER == q && Request(newSize) <= g.size
            && Live(bs) == Live(old(bs)) - (if p == NULL then {} else {b}) + {g})
        && (newSize > 0 && p == NULL ==>
            && (q == NULL <==> NoRoom(old(bs), old(available), Request(newSize)))
            && (q != NULL ==> TakenFrom(old(bs), old(fs), Request(newSize), g)))
        && (newSize > 0 && p != NULL && Request(newSize) > b.size ==>
            && (q == p <==> RoomBehind(old(bs), b, Request(newSize)))
            && (q == NULL <==> !RoomBehind(old(bs), b, Request(newSize)) && NoRoom(old(bs), old(available), Request(newSize)))
            && (q == p ==> g == Block(b.addr, Request(newSize), true))
            && (q != NULL && q != p ==> TakenFrom(old(bs), old(fs), Request(newSize), g)))
        && (newSize > 0 && p != NULL && Request(newSize) <= b.size ==>
            q == p && g == if Request(newSize) + HEADER + MIN_ALLOC >= b.size then b else Block(b.addr, Request(newSize), true))
        && maxUsed == Peak(old(maxUsed), top)
        && (top == poolSize - available || (q != NULL && p != NULL && Between(top, poolSize, old(bs), Request(newSize))))
    {
      hide Valid; hide Broken; hide Intact; hide Wraps; hide WrapsAt; hide Request; hide Live; hide Between; hide Granted; hide Peak;
      hide MergeHi; hide IsLive; hide AllocAt; hide FreeAt; hide ResizeAt; hide R.Removed; hide NoRoom; hide RoomBehind; hide Tight;
      ghost var k, j := 0, 0;
      b, g, q, top := Block(0, 0, false), Block(0, 0, false), NULL, poolSize - available;
      ValidFacts();
      PeakIs(maxUsed, top);
      NeverWraps(bs, End(), p, newSize);
      if p != NULL {
        b, k := Find(p);
        WrapsOnlyAt(bs, End(), k, p, newSize);
        Facts(k);
      }
      if newSize == 0 {
        if p != NULL { j := Release(p - HEADER, k); ValidFacts(); top := poolSize - available; PeakIs(maxUsed, top); }
        return;
      }
      RequestCovers(newSize);
      RequestTwice(newSize);
      var req := Request(newSize);
      if p == NULL {
        q, k, j := Alloc(req);
        ValidFacts();
        if q != NULL {
          GrantedIs(old(bs)[k], req);
          g, top := Granted(HEADER, MIN_ALLOC, old(bs)[k], req)[0], poolSize - available;
          PeakIs(old(maxUsed), top);
        }
        return;
      }
      var addr := p - HEADER;
      var oldSize := blk.next[addr] - addr - HEADER;
      if req > oldSize {
        WrapsAtIs(bs, k, p, newSize);
        WrapsAtIs(bs, k, p, req);
        q, g, top := Enlarge(addr, req, k);
        PeakIs(old(maxUsed), top);
        return;
      }
      WrapsAtIs(bs, k, p, newSize);
      if req + HEADER + MIN_ALLOC >= oldSize { q, g := p, b; SelfReplaced(Live(bs), b); return; }
      j := Shrink(addr, req, k);
      ValidFacts();
      q, g, top := p, Block(addr, req, true), poolSize - available;
      PeakIs(maxUsed, top);
    }

    /** A resize to a larger size: into the right neighbour, or by moving the block. */
    method Enlarge(addr: int, req: int, ghost k: int) returns (q: int, ghost g: Block, ghost top: int)
      requires Valid() && 0 <= k < |bs| && bs[k].used && bs[k].addr == addr
      requires bs[k].size < req < WORD && req % 4 == 0 && Request(req) == req
      modifies this
      ensures poolSize == old(poolSize)
      ensures Broken() <==> WrapsAt(old(bs), k, addr + HEADER, req)
      ensures Broken() ==> q == addr + HEADER && addr in blk.next && addr < blk.next[addr] < addr + HEADER
      ensures !Broken() ==>
        && Valid() && maxUsed == Peak(old(maxUsed), top)
        && (q == addr + HEADER <==> RoomBehind(old(bs), old(bs)[k], req))
        && (q == NULL <==> !RoomBehind(old(bs), old(bs)[k], req) && NoRoom(old(bs), old(available), req))
        && (q == NULL ==> unchanged(this))
        && (q != NULL ==> g.used && g.addr + HEADER == q && req <= g.size && Live(bs) == Live(old(bs)) - {old(bs)[k]} + {g})
        && (q == addr + HEADER ==> g == Block(addr, req, true))
        && (q != NULL && q != addr + HEADER ==> TakenFrom(old(bs), old(fs), req, g))
        && (top == poolSize - available || (q != NULL && Between(top, poolSize, old(bs), req)))
    {
      hide Valid; hide Broken; hide Intact; hide Wraps; hide WrapsAt; hide Request; hide Live; hide Between; hide Granted; hide Peak;
      hide MergeHi; hide IsLive; hide AllocAt; hide FreeAt; hide ResizeAt; hide R.Removed; hide NoRoom; hide RoomBehind; hide FirstInRing;
      ValidFacts();
      RoomBehindHere(k, req);
      Facts(k);
      WrapsAtIs(bs, k, addr + HEADER, req);
      PeakIs(maxUsed, poolSize - available);
      var next := blk.next[addr];
      if !used[next] {
        var oldSize, nextSize := next - addr - HEADER, blk.next[next] - next - HEADER;
        if (nextSize + oldSize) % WORD > (req + MIN_ALLOC) % WORD {
          q, g := addr + HEADER, Block(addr, req, true);
          if req + MIN_ALLOC < WORD {
            ghost var j := Grow(addr, next, req, k);
            ValidFacts();
          } else {
            Overrun(addr, next, req, k);
          }
          top := poolSize - available;
          return;
        }
      }
      ghost var mid, m;
      q, g, mid, m := Move(addr, req, k);
      ValidFacts();
      top := if q != NULL then mid else poolSize - available;
    }

    lemma Find(p: int) returns (b: Block, k: int)
      requires IsLive(p)
      ensures b in Live(bs) && b.addr + HEADER == p && 0 <= k < |bs| && bs[k] == b && b.used
    {
      b :| b in Live(bs) && b.addr + HEADER == p;
      k :| 0 <= k < |bs| && bs[k] == b;
    }

    /** Replace a block by a new one of `req` bytes, or change nothing. */
    method Move(addr: int, req: int, ghost k: int) returns (q: int, ghost g: Block, ghost top: int, ghost m: int)
      requires Valid() && 0 <= k < |bs| && bs[k].used && bs[k].addr == addr && 0 <= req < WORD
      modifies this
      ensures Valid() && poolSize == old(poolSize) && maxUsed >= old(maxUsed)
      ensures q == NULL <==> NoRoom(old(bs), old(available), Request(req))
      ensures q == NULL ==> unchanged(this)
      ensures q != NULL ==> g.addr != addr && FirstInRing(old(bs), old(fs), Request(req), m) && g == Granted(HEADER, MIN_ALLOC, old(bs)[m], Request(req))[0]
      ensures q != NULL ==> g.used && g.addr + HEADER == q && Request(req) <= g.size
      ensures q != NULL ==> Live(bs) == Live(old(bs)) - {old(bs)[k]} + {g}
      ensures q != NULL ==> Between(top, poolSize, old(bs), Request(req)) && maxUsed == Peak(old(maxUsed), top)
    {
      hide Rings; hide Flags; hide FreeBytes; hide AllocAt; hide FreeAt; hide R.Removed;
      ghost var b, j := bs[k], 0;
      g, top, m := b, 0, 0;
      q, m, j := Alloc(req);
      if q == NULL { return; }
      top := poolSize - available;
      g := Granted(HEADER, MIN_ALLOC, old(bs)[m], Request(req))[0];
      if g.addr == b.addr { SameAddr(HEADER, old(bs), m, k); }
      assert b in Live(bs);
      ghost var i :| 0 <= i < |bs| && bs[i] == b;
      j := Release(addr, i);
    }

    lemma RoomBehindHere(k: int, req: int)
      requires Valid() && 0 <= k < |bs|
      ensures RoomBehind(bs, bs[k], req) <==> MergeHi(bs, k) == k + 2 && bs[k].size + bs[k + 1].size > req + MIN_ALLOC
    {
      hide Rings; hide Flags; hide FreeBytes;
      RoomBehindIs(bs, End(), k, req);
    }

    /** What the code reads off the headers of a block and of its right neighbour. */
    lemma Facts(k: int)
      requires Valid() && 0 <= k < |bs|
      ensures bs[k].addr in blk.next && blk.next[bs[k].addr] == bs[k].addr + HEADER + bs[k].size
      ensures bs[k].addr >= 0 && bs[k].addr + HEADER + bs[k].size <= poolSize - HEADER
      ensures bs[k].addr + HEADER + bs[k].size in used
      ensures !used[bs[k].addr + HEADER + bs[k].size] <==> MergeHi(bs, k) == k + 2
      ensures MergeHi(bs, k) == k + 2 ==>
        && bs[k + 1].addr == bs[k].addr + HEADER + bs[k].size
        && bs[k + 1].addr in blk.next && blk.next[bs[k + 1].addr] == bs[k + 1].addr + HEADER + bs[k + 1].size
        && 0 <= bs[k].size + bs[k + 1].size < WORD
    {
      Neighbours(blk, used, bs, End(), k);
      Bounds(HEADER, bs, End(), k);
      if k + 1 < |bs| { ItemSize(blk, bs, End(), k + 1); Bounds(HEADER, bs, End(), k); Bounds(HEADER, bs, End(), k + 1); }
    }
  }

  lemma FreeListed(bs: seq<Block>, b: Block)
    requires b in bs && !b.used
    ensures b.addr in FreeAddrs(bs)
  {}

  /** One step along the free ring; -1 stands for its header. */
  lemma FreeRingNext(fre: R.Links, fs: seq<int>, j: int)
    requires R.IsRing(fre, [FREE_HEADER] + fs) && -1 <= j < |fs|
    ensures FREE_HEADER !in fs
    ensures var a := if j < 0 then FREE_HEADER else fs[j];
      a in fre.next && fre.next[a] == if j + 1 < |fs| then fs[j + 1] else FREE_HEADER
  {
    var ring := [FREE_HEADER] + fs;
    assert forall i :: 0 <= i < |fs| ==> ring[i + 1] == fs[i];
    assert fre.next[ring[j + 1]] == if j + 1 < |fs| then ring[j + 2] else ring[0];
  }

  lemma NotThisBlock(bs: seq<Block>, fs: seq<int>, end: int, j: int, k: int, req: int)
    requires Tiled(HEADER, bs, end) && 0 <= j < |fs| && 0 <= k < |bs| && bs[k].addr == fs[j] && bs[k].size < req
    requires forall b :: b in bs && b.addr in fs[..j] ==> b.size < req
    ensures forall b :: b in bs && b.addr in fs[..j + 1] ==> b.size < req
  {
    forall b | b in bs && b.addr in fs[..j + 1] ensures b.size < req {
      if b.addr == fs[j] {
        var i :| 0 <= i < |bs| && bs[i] == b;
        SameAddr(HEADER, bs, i, k);
      } else {
        assert b.addr in fs[..j];
      }
    }
  }

  /** A heap of 124 bytes with one block of twelve in use, and a size for which its resize wraps. */
  lemma WrapInput()
    ensures var bs := [Block(0, 12, true), Block(36, 40, false)];
      Tiled(HEADER, bs, 100) && Wraps(bs, 24, WORD - 12) && !Wraps(bs, 24, WORD - 16) && !Wraps(bs, 24, WORD - 3)
  {
    var bs := [Block(0, 12, true), Block(36, 40, false)];
    assert Request(WORD - 12) == WORD - 12 && Request(WORD - 16) == WORD - 16 && Request(WORD - 3) == MIN_ALLOC;
    assert WrapsAt(bs, 0, 24, WORD - 12);
    assert Abuts(HEADER, bs, 1) && Parted(bs, 1);
  }

  /** The calls that lead there: the heap accepts the resize and is broken afterwards. */
  method WrapRun() returns (h: Heap)
    ensures fresh(h) && h.Broken()
  {
    hide Wraps; hide AllocAt; hide Tiled;
    h := new Heap(124);
    ghost var bs := h.bs;
    var p, k, j := h.Alloc(12);
    FirstOfTwelve();
    assert bs[0] in bs;
    assert !bs[0].used && bs[0].size == 76;
    Sums1(HEADER, bs[0]);
    assert h.IsLive(p) by { assert h.bs[0] in h.bs && h.bs[0] in Live(h.bs); }
    WrapInput();
    var q, b, g, top := h.Realloc(p, WORD - 12);
  }

  lemma FirstOfTwelve()
    ensures Request(12) == 12
    ensures AllocAt(HEADER, MIN_ALLOC, [Block(0, 76, false)], 0, 12) == [Block(0, 12, true), Block(36, 40, false)]
  {}
}
