/** A heap as the sequence of its blocks.

    Both boundary-tag allocators (src/mem.c and src/memheap.c) lay their blocks end to
    end: a header of `h` bytes, then the payload, then the next header. This module
    describes such a layout as a value; the allocators are proved against it. */
module Blocks {

  const WORD := 0x1_0000_0000

  /** RT_ALIGN on a 32-bit size, with RT_ALIGN_SIZE 4. */
  function AlignUp(size: int): int {
    (size + 3) % WORD / 4 * 4
  }

  /** A block: offset of its header, payload bytes, and whether it is handed out. */
  datatype Block = Block(addr: int, size: int, used: bool)

  function End(h: int, b: Block): int {
    b.addr + h + b.size
  }

  /** Block `i` starts where block `i - 1` ends. */
  ghost predicate Abuts(h: int, bs: seq<Block>, i: int)
    requires 0 < i < |bs|
  {
    bs[i].addr == End(h, bs[i - 1])
  }

  /** Blocks `i - 1` and `i` are not both free. */
  ghost predicate Parted(bs: seq<Block>, i: int)
    requires 0 < i < |bs|
  {
    bs[i - 1].used || bs[i].used
  }

  ghost predicate Joined(h: int, bs: seq<Block>, i: int)
    requires 0 < i < |bs|
  {
    Abuts(h, bs, i) && Parted(bs, i)
  }

  ghost predicate Contiguous(h: int, bs: seq<Block>) {
    && |bs| > 0
    && (forall i :: 0 <= i < |bs| ==> bs[i].size >= 0)
    && (forall i {:trigger Abuts(h, bs, i)} :: 0 < i < |bs| ==> Abuts(h, bs, i))
  }

  ghost predicate Chain(h: int, bs: seq<Block>) {
    Contiguous(h, bs) && forall i {:trigger Parted(bs, i)} :: 0 < i < |bs| ==> Parted(bs, i)
  }

  /** The blocks cover [0, end) exactly, in address order. */
  ghost predicate Laid(h: int, bs: seq<Block>, end: int) {
    Contiguous(h, bs) && bs[0].addr == 0 && End(h, bs[|bs| - 1]) == end
  }

  /** ... and no two free blocks are neighbours. */
  ghost predicate Tiled(h: int, bs: seq<Block>, end: int) {
    Laid(h, bs, end) && Chain(h, bs)
  }

  /** The blocks in use. */
  ghost function Live(bs: seq<Block>): set<Block> {
    set b | b in bs && b.used
  }

  /** The addresses of the blocks not in use. */
  ghost function FreeAddrs(bs: seq<Block>): set<int> {
    set b | b in bs && !b.used :: b.addr
  }

  /** The payload bytes that are not in use. */
  ghost function FreeBytes(bs: seq<Block>): int {
    if bs == [] then 0 else (if bs[0].used then 0 else bs[0].size) + FreeBytes(bs[1..])
  }

  /** The bytes taken by blocks in use, headers included. */
  ghost function UsedBytes(h: int, bs: seq<Block>): int {
    if bs == [] then 0 else (if bs[0].used then h + bs[0].size else 0) + UsedBytes(h, bs[1..])
  }

  /** `bs` with blocks `k..m` replaced by `xs`. */
  function Splice(bs: seq<Block>, k: int, m: int, xs: seq<Block>): seq<Block>
    requires 0 <= k <= m <= |bs|
  {
    bs[..k] + xs + bs[m..]
  }

  // ---- order of blocks -----------------------------------------------------------

  /** Blocks never overlap: an earlier block ends at or before a later one starts. */
  lemma {:induction false} Ordered(h: int, bs: seq<Block>, i: int, j: int)
    requires Contiguous(h, bs) && h >= 0 && 0 <= i < j < |bs|
    ensures End(h, bs[i]) <= bs[j].addr
  {
    assert Abuts(h, bs, j);
    if i + 1 < j { Ordered(h, bs, i, j - 1); }
  }

  /** A block is identified by its address. */
  lemma SameAddr(h: int, bs: seq<Block>, i: int, j: int)
    requires Contiguous(h, bs) && h > 0 && 0 <= i < |bs| && 0 <= j < |bs| && bs[i].addr == bs[j].addr
    ensures i == j
  {
    if i < j { Ordered(h, bs, i, j); } else if j < i { Ordered(h, bs, j, i); }
  }

  /** The bytes of two different blocks do not overlap, headers included. */
  lemma Disjoint(h: int, bs: seq<Block>, b: Block, c: Block)
    requires Contiguous(h, bs) && h > 0 && b in bs && c in bs && b != c
    ensures End(h, b) <= c.addr || End(h, c) <= b.addr
  {
    var i :| 0 <= i < |bs| && bs[i] == b;
    var j :| 0 <= j < |bs| && bs[j] == c;
    if i < j { Ordered(h, bs, i, j); } else { Ordered(h, bs, j, i); }
  }

  lemma Inside(h: int, bs: seq<Block>, end: int, i: int)
    requires Laid(h, bs, end) && h >= 0 && 0 <= i < |bs|
    ensures 0 <= bs[i].addr && End(h, bs[i]) <= end
  {
    if i > 0 { Ordered(h, bs, 0, i); }
    if i < |bs| - 1 { Ordered(h, bs, i, |bs| - 1); }
  }

  lemma TiledContiguous(h: int, bs: seq<Block>, end: int)
    requires Tiled(h, bs, end)
    ensures Contiguous(h, bs)
  {}

  lemma TiledLaid(h: int, bs: seq<Block>, end: int)
    requires Tiled(h, bs, end)
    ensures Laid(h, bs, end)
  {}

  lemma Bounds(h: int, bs: seq<Block>, end: int, i: int)
    requires Tiled(h, bs, end) && h >= 0 && 0 <= i < |bs|
    ensures 0 <= bs[i].addr && End(h, bs[i]) <= end && bs[i].size >= 0
  {
    Inside(h, bs, end, i);
  }

  // ---- replacing a stretch of blocks ---------------------------------------------

  /** A stretch may be replaced by any contiguous blocks over the same bytes. */
  lemma SpliceLaid(h: int, bs: seq<Block>, end: int, k: int, m: int, xs: seq<Block>)
    requires Laid(h, bs, end) && 0 <= k < m <= |bs| && Contiguous(h, xs)
    requires xs[0].addr == bs[k].addr && End(h, xs[|xs| - 1]) == End(h, bs[m - 1])
    ensures Laid(h, Splice(bs, k, m, xs), end)
  {
    var t := Splice(bs, k, m, xs);
    SpliceAt(bs, k, m, xs);
    forall i | 0 < i < |t| ensures Abuts(h, t, i) {
      if i <= k {
        assert Abuts(h, bs, i);
      } else if i < k + |xs| {
        assert Abuts(h, xs, i - k);
      } else {
        assert Abuts(h, bs, i - k - |xs| + m);
      }
    }
  }

  /** ... and keeps free blocks apart if it does not put two of them side by side at the seams. */
  lemma SpliceTiled(h: int, bs: seq<Block>, end: int, k: int, m: int, xs: seq<Block>)
    requires Tiled(h, bs, end) && 0 <= k < m <= |bs| && Chain(h, xs)
    requires xs[0].addr == bs[k].addr && End(h, xs[|xs| - 1]) == End(h, bs[m - 1])
    requires k > 0 ==> bs[k - 1].used || xs[0].used
    requires m < |bs| ==> xs[|xs| - 1].used || bs[m].used
    ensures Tiled(h, Splice(bs, k, m, xs), end)
  {
    var t := Splice(bs, k, m, xs);
    SpliceLaid(h, bs, end, k, m, xs);
    SpliceAt(bs, k, m, xs);
    forall i | 0 < i < |t| ensures Parted(t, i) {
      if i <= k {
        assert Parted(bs, i);
      } else if i < k + |xs| {
        assert Parted(xs, i - k);
      } else {
        assert Parted(bs, i - k - |xs| + m);
      }
    }
  }

  lemma SpliceAt(bs: seq<Block>, k: int, m: int, xs: seq<Block>)
    requires 0 <= k <= m <= |bs|
    ensures |Splice(bs, k, m, xs)| == |bs| - (m - k) + |xs|
    ensures forall i :: 0 <= i < k ==> Splice(bs, k, m, xs)[i] == bs[i]
    ensures forall i :: k <= i < k + |xs| ==> Splice(bs, k, m, xs)[i] == xs[i - k]
    ensures forall i :: k + |xs| <= i < |bs| - (m - k) + |xs| ==> Splice(bs, k, m, xs)[i] == bs[i - k - |xs| + m]
  {}

  lemma {:induction false} SumsAppend(h: int, a: seq<Block>, b: seq<Block>)
    ensures FreeBytes(a + b) == FreeBytes(a) + FreeBytes(b)
    ensures UsedBytes(h, a + b) == UsedBytes(h, a) + UsedBytes(h, b)
  {
    if a == [] {
      assert a + b == b;
    } else {
      assert (a + b)[1..] == a[1..] + b;
      SumsAppend(h, a[1..], b);
    }
  }

  lemma SpliceSums(h: int, bs: seq<Block>, k: int, m: int, xs: seq<Block>)
    requires 0 <= k <= m <= |bs|
    ensures FreeBytes(Splice(bs, k, m, xs)) == FreeBytes(bs) - FreeBytes(bs[k..m]) + FreeBytes(xs)
    ensures UsedBytes(h, Splice(bs, k, m, xs)) == UsedBytes(h, bs) - UsedBytes(h, bs[k..m]) + UsedBytes(h, xs)
  {
    SumsAppend(h, bs[..k] + xs, bs[m..]);
    SumsAppend(h, bs[..k], xs);
    SumsAppend(h, bs[..k], bs[k..m]);
    SumsAppend(h, bs[..k] + bs[k..m], bs[m..]);
    assert bs[..k] + bs[k..m] == bs[..m];
    assert bs[..m] + bs[m..] == bs;
  }

  lemma SpliceLive(h: int, bs: seq<Block>, k: int, m: int, xs: seq<Block>)
    requires Contiguous(h, bs) && h > 0 && 0 <= k <= m <= |bs|
    ensures Live(Splice(bs, k, m, xs)) == Live(bs) - Live(bs[k..m]) + Live(xs)
  {
    var t := Splice(bs, k, m, xs);
    forall b | b in bs[..k] + bs[m..] ensures b !in bs[k..m] {
      if b in bs[k..m] {
        var i :| k <= i < m && bs[i] == b;
        var j :| 0 <= j < |bs| && !(k <= j < m) && bs[j] == b;
        SameAddr(h, bs, i, j);
      }
    }
    forall b ensures b in bs <==> b in bs[..k] + bs[m..] || b in bs[k..m] {
      assert bs == bs[..k] + bs[k..m] + bs[m..];
    }
  }

  lemma FreeAddrsDisjoint(h: int, bs: seq<Block>, k: int)
    requires Contiguous(h, bs) && h > 0 && 0 <= k <= |bs|
    ensures FreeAddrs(bs[..k]) !! FreeAddrs(bs[k..])
  {
    forall a | a in FreeAddrs(bs[..k]) ensures a !in FreeAddrs(bs[k..]) {
      if a in FreeAddrs(bs[k..]) {
        var i :| 0 <= i < k && bs[i].addr == a;
        var j :| k <= j < |bs| && bs[j].addr == a;
        SameAddr(h, bs, i, j);
      }
    }
  }

  lemma SpliceFreeAddrs(h: int, bs: seq<Block>, k: int, m: int, xs: seq<Block>)
    requires Contiguous(h, bs) && h > 0 && 0 <= k <= m <= |bs|
    ensures FreeAddrs(Splice(bs, k, m, xs)) == FreeAddrs(bs) - FreeAddrs(bs[k..m]) + FreeAddrs(xs)
  {
    var a, b, c := FreeAddrs(bs[..k]), FreeAddrs(bs[k..m]), FreeAddrs(bs[m..]);
    assert a !! b && FreeAddrs(bs) == a + (b + c) by {
      FreeAddrsDisjoint(h, bs, k);
      FreeAddrsAppend(bs[k..m], bs[m..]);
      assert bs[k..m] + bs[m..] == bs[k..];
      FreeAddrsAppend(bs[..k], bs[k..]);
      assert bs[..k] + bs[k..] == bs;
    }
    assert b !! c by {
      FreeAddrsDisjoint(h, bs, m);
      FreeAddrsAppend(bs[..k], bs[k..m]);
      assert bs[..k] + bs[k..m] == bs[..m];
    }
    FreeAddrsAppend(bs[..k] + xs, bs[m..]);
    FreeAddrsAppend(bs[..k], xs);
    SetSplice(a, b, c, FreeAddrs(xs));
  }

  lemma SetSplice(a: set<int>, b: set<int>, c: set<int>, x: set<int>)
    requires a !! b && b !! c
    ensures a + x + c == a + (b + c) - b + x
  {}

  lemma FreeAddrsAppend(a: seq<Block>, b: seq<Block>)
    ensures FreeAddrs(a + b) == FreeAddrs(a) + FreeAddrs(b)
  {}

  /** The free payload bytes fit between the first block and the end of the last. */
  lemma {:induction false} FreeBytesRoom(h: int, bs: seq<Block>)
    requires Contiguous(h, bs) && h >= 0
    ensures FreeBytes(bs) <= End(h, bs[|bs| - 1]) - bs[0].addr
  {
    if |bs| > 1 {
      assert Abuts(h, bs, 1);
      forall i | 0 < i < |bs[1..]| ensures Abuts(h, bs[1..], i) { assert Abuts(h, bs, i + 1); }
      FreeBytesRoom(h, bs[1..]);
    } else {
      Sums1(h, bs[0]);
      assert bs == [bs[0]];
    }
  }

  lemma {:induction false} FreeBytesBound(h: int, bs: seq<Block>)
    requires forall i :: 0 <= i < |bs| ==> bs[i].size >= 0
    ensures FreeBytes(bs) >= 0
    ensures forall b :: b in bs && !b.used ==> b.size <= FreeBytes(bs)
  {
    if bs != [] { FreeBytesBound(h, bs[1..]); }
  }

  lemma Sums1(h: int, b: Block)
    ensures FreeBytes([b]) == if b.used then 0 else b.size
    ensures UsedBytes(h, [b]) == if b.used then h + b.size else 0
    ensures Live([b]) == if b.used then {b} else {}
  {}

  lemma Sums2(h: int, b: Block, c: Block)
    ensures FreeBytes([b, c]) == FreeBytes([b]) + FreeBytes([c])
    ensures UsedBytes(h, [b, c]) == UsedBytes(h, [b]) + UsedBytes(h, [c])
    ensures Live([b, c]) == Live([b]) + Live([c])
  {
    assert [b, c] == [b] + [c];
    SumsAppend(h, [b], [c]);
  }

  // ---- addresses -------------------------------------------------------------------

  /** All block addresses followed by the used tail block at `end`. */
  ghost function Addrs(bs: seq<Block>, end: int): seq<int> {
    seq(|bs| + 1, i requires 0 <= i <= |bs| => if i < |bs| then bs[i].addr else end)
  }

  lemma AddrsLength(bs: seq<Block>, end: int)
    ensures |Addrs(bs, end)| == |bs| + 1
  {}

  /** Replacing blocks `k..m` by `xs` replaces the addresses behind the first one. */
  lemma AddrsSplice(bs: seq<Block>, end: int, k: int, m: int, xs: seq<Block>)
    requires 0 <= k < m <= |bs| && |xs| > 0 && xs[0].addr == bs[k].addr
    ensures Addrs(Splice(bs, k, m, xs), end) ==
            Addrs(bs, end)[..k + 1] + Addrs(xs, 0)[1..|xs|] + Addrs(bs, end)[m..]
  {
    SpliceAt(bs, k, m, xs);
  }

  /** No block outside a stretch starts strictly inside it. */
  lemma InsideStretch(h: int, bs: seq<Block>, end: int, k: int, hi: int, x: int)
    requires Tiled(h, bs, end) && h >= 0 && 0 <= k < hi <= |bs| && bs[k].addr < x < End(h, bs[hi - 1])
    ensures forall i :: 0 <= i <= k || hi <= i <= |bs| ==> Addrs(bs, end)[i] != x
  {
    forall i | 0 <= i <= k || hi <= i <= |bs| ensures Addrs(bs, end)[i] != x {
      if i < k {
        Ordered(h, bs, i, k);
      } else if hi <= i < |bs| {
        Ordered(h, bs, hi - 1, i);
      } else if i == |bs| {
        Inside(h, bs, end, hi - 1);
      }
    }
  }

  // ---- allocation ----------------------------------------------------------------

  /** Whether cutting `req` bytes off a free block leaves room for another header and `min` bytes. */
  predicate Splits(h: int, min: int, size: int, req: int) {
    size >= req + h + min
  }

  /** What an allocation makes of the free block it takes. */
  function Granted(h: int, min: int, b: Block, req: int): (r: seq<Block>)
    ensures |r| > 0
  {
    if Splits(h, min, b.size, req) then
      [Block(b.addr, req, true), Block(b.addr + h + req, b.size - req - h, false)]
    else
      [b.(used := true)]
  }

  /** `g`, taken from the free block `b`, holds the request and wastes less than a minimal block with
      its header; what it leaves of `b` is at least a minimal block. */
  predicate Tight(h: int, min: int, b: Block, g: Block, req: int) {
    g.used && g.addr == b.addr && req <= g.size < req + h + min && (g.size == b.size || (g.size == req && b.size >= req + h + min))
  }

  lemma GrantedTight(h: int, min: int, b: Block, req: int)
    requires req <= b.size && h + min > 0
    ensures Tight(h, min, b, Granted(h, min, b, req)[0], req)
  {}

  function AllocAt(h: int, min: int, bs: seq<Block>, k: int, req: int): seq<Block>
    requires 0 <= k < |bs|
  {
    Splice(bs, k, k + 1, Granted(h, min, bs[k], req))
  }

  lemma AllocTiled(h: int, min: int, bs: seq<Block>, end: int, k: int, req: int)
    requires Tiled(h, bs, end) && 0 <= k < |bs| && !bs[k].used && 0 <= req <= bs[k].size && min >= 0
    ensures Tiled(h, AllocAt(h, min, bs, k, req), end)
  {
    var xs := Granted(h, min, bs[k], req);
    if k + 1 < |bs| { assert Joined(h, bs, k + 1); }
    SpliceTiled(h, bs, end, k, k + 1, xs);
  }

  /** An allocation adds one block to those in use and takes nothing from the others. */
  lemma AllocEffect(h: int, min: int, bs: seq<Block>, end: int, k: int, req: int)
    requires Tiled(h, bs, end) && h > 0 && 0 <= k < |bs| && !bs[k].used
    ensures var g := Granted(h, min, bs[k], req)[0];
      && Live(AllocAt(h, min, bs, k, req)) == Live(bs) + {g}
      && UsedBytes(h, AllocAt(h, min, bs, k, req)) == UsedBytes(h, bs) + h + g.size
      && FreeBytes(AllocAt(h, min, bs, k, req)) ==
         FreeBytes(bs) - (if Splits(h, min, bs[k].size, req) then req + h else bs[k].size)
  {
    var xs := Granted(h, min, bs[k], req);
    assert bs[k..k + 1] == [bs[k]];
    SpliceSums(h, bs, k, k + 1, xs);
    SpliceLive(h, bs, k, k + 1, xs);
    Sums1(h, bs[k]);
    Sums1(h, xs[0]);
    if |xs| == 2 { Sums1(h, xs[1]); Sums2(h, xs[0], xs[1]); } else { assert xs == [xs[0]]; }
  }

  // ---- release, with merging on both sides -----------------------------------------

  /** First block of the stretch that becomes one free block when block `k` is released. */
  function MergeLo(bs: seq<Block>, k: int): int
    requires 0 <= k < |bs|
  {
    if k > 0 && !bs[k - 1].used then k - 1 else k
  }

  /** One past the last block of that stretch. */
  function MergeHi(bs: seq<Block>, k: int): int
    requires 0 <= k < |bs|
  {
    if k + 1 < |bs| && !bs[k + 1].used then k + 2 else k + 1
  }

  /** The free block that covers blocks `lo..hi`. */
  function Merged(h: int, bs: seq<Block>, lo: int, hi: int): Block
    requires 0 <= lo < hi <= |bs|
  {
    Block(bs[lo].addr, End(h, bs[hi - 1]) - bs[lo].addr - h, false)
  }

  function FreeAt(h: int, bs: seq<Block>, k: int): seq<Block>
    requires 0 <= k < |bs|
  {
    var lo, hi := MergeLo(bs, k), MergeHi(bs, k);
    Splice(bs, lo, hi, [Merged(h, bs, lo, hi)])
  }

  lemma FreeTiled(h: int, bs: seq<Block>, end: int, k: int)
    requires Tiled(h, bs, end) && h >= 0 && 0 <= k < |bs| && bs[k].used
    ensures Tiled(h, FreeAt(h, bs, k), end)
  {
    var lo, hi := MergeLo(bs, k), MergeHi(bs, k);
    if lo > 0 { assert Joined(h, bs, lo); }
    if hi < |bs| { assert Joined(h, bs, hi); }
    if lo < hi - 1 { Ordered(h, bs, lo, hi - 1); }
    SpliceTiled(h, bs, end, lo, hi, [Merged(h, bs, lo, hi)]);
  }

  /** A release takes exactly the given block out of use; each merge also frees a header. */
  lemma FreeEffect(h: int, bs: seq<Block>, end: int, k: int)
    requires Tiled(h, bs, end) && h > 0 && 0 <= k < |bs| && bs[k].used
    ensures Live(FreeAt(h, bs, k)) == Live(bs) - {bs[k]}
    ensures UsedBytes(h, FreeAt(h, bs, k)) == UsedBytes(h, bs) - h - bs[k].size
    ensures FreeBytes(FreeAt(h, bs, k)) ==
            FreeBytes(bs) + bs[k].size + (if MergeLo(bs, k) < k then h else 0) + (if MergeHi(bs, k) == k + 2 then h else 0)
  {
    var lo, hi := MergeLo(bs, k), MergeHi(bs, k);
    SpliceSums(h, bs, lo, hi, [Merged(h, bs, lo, hi)]);
    SpliceLive(h, bs, lo, hi, [Merged(h, bs, lo, hi)]);
    Sums1(h, Merged(h, bs, lo, hi));
    StretchSums(h, bs, k);
    if lo < k { assert Joined(h, bs, k); }
    if k + 1 < hi { assert Joined(h, bs, k + 1); }
  }

  /** The stretch around a used block holds it and at most one free block on each side. */
  lemma StretchSums(h: int, bs: seq<Block>, k: int)
    requires 0 <= k < |bs| && bs[k].used
    ensures var lo, hi := MergeLo(bs, k), MergeHi(bs, k);
      && Live(bs[lo..hi]) == {bs[k]}
      && UsedBytes(h, bs[lo..hi]) == h + bs[k].size
      && FreeBytes(bs[lo..hi]) == (if lo < k then bs[lo].size else 0) + (if k + 1 < hi then bs[k + 1].size else 0)
  {
    var lo, hi := MergeLo(bs, k), MergeHi(bs, k);
    Sums1(h, bs[k]);
    if k + 1 < hi {
      Sums1(h, bs[k + 1]);
      Sums2(h, bs[k], bs[k + 1]);
      assert bs[k..hi] == [bs[k], bs[k + 1]];
    } else {
      assert bs[k..hi] == [bs[k]];
    }
    if lo < k {
      Sums1(h, bs[lo]);
      assert bs[lo..hi] == [bs[lo]] + bs[k..hi];
      SumsAppend(h, [bs[lo]], bs[k..hi]);
    }
  }

  // ---- resizing in place ------------------------------------------------------------

  /** Block `k` resized to `size` bytes, the rest of its stretch to the right one free block. */
  function Resized(h: int, bs: seq<Block>, k: int, size: int): seq<Block>
    requires 0 <= k < |bs|
  {
    var b := Block(bs[k].addr, size, true);
    [b, Block(End(h, b), End(h, bs[MergeHi(bs, k) - 1]) - End(h, b) - h, false)]
  }

  function ResizeAt(h: int, bs: seq<Block>, k: int, size: int): seq<Block>
    requires 0 <= k < |bs|
  {
    Splice(bs, k, MergeHi(bs, k), Resized(h, bs, k, size))
  }

  lemma ResizeTiled(h: int, bs: seq<Block>, end: int, k: int, size: int)
    requires Tiled(h, bs, end) && 0 <= k < |bs| && bs[k].used
    requires 0 <= size && Resized(h, bs, k, size)[1].size >= 0
    ensures Tiled(h, ResizeAt(h, bs, k, size), end)
  {
    var hi := MergeHi(bs, k);
    if hi < |bs| { assert Joined(h, bs, hi); }
    var xs := Resized(h, bs, k, size);
    assert Joined(h, xs, 1);
    SpliceTiled(h, bs, end, k, hi, xs);
  }

  /** A resize replaces one block in use by one at the same address. */
  lemma ResizeEffect(h: int, bs: seq<Block>, end: int, k: int, size: int)
    requires Tiled(h, bs, end) && h > 0 && 0 <= k < |bs| && bs[k].used
    ensures Live(ResizeAt(h, bs, k, size)) == Live(bs) - {bs[k]} + {Block(bs[k].addr, size, true)}
    ensures UsedBytes(h, ResizeAt(h, bs, k, size)) == UsedBytes(h, bs) - bs[k].size + size
    ensures FreeBytes(ResizeAt(h, bs, k, size)) == FreeBytes(bs)
              - (if MergeHi(bs, k) == k + 2 then bs[k + 1].size else 0) + Resized(h, bs, k, size)[1].size
  {
    var hi, xs := MergeHi(bs, k), Resized(h, bs, k, size);
    SpliceSums(h, bs, k, hi, xs);
    SpliceLive(h, bs, k, hi, xs);
    Sums1(h, bs[k]);
    Sums1(h, xs[0]);
    Sums1(h, xs[1]);
    Sums2(h, xs[0], xs[1]);
    if hi == k + 2 {
      Sums1(h, bs[k + 1]);
      Sums2(h, bs[k], bs[k + 1]);
      assert bs[k..hi] == [bs[k], bs[k + 1]];
    } else {
      assert bs[k..hi] == [bs[k]];
    }
  }
}
