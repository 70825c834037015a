/** The small-memory allocator of src/mem.c: first fit over blocks whose headers live in the
    heap buffer itself, with a cached position of the lowest free block. */
module SmallHeap {
  import opened Blocks
  import B = HeapBytes
  import W = Words

  const H := 12       // SIZEOF_STRUCT_MEM
  const MIN := 12     // MIN_SIZE_ALIGNED
  const NULL := -1

  // ---- blocks and the headers that store them ----------------------------------------

  /** The offset of header `i`; the last one is heap_end. */
  ghost function AddrAt(bs: seq<Block>, end: int, i: int): int {
    if 0 <= i < |bs| then bs[i].addr else end
  }

  ghost function HeaderFor(b: Block, prev: int): B.Header {
    B.Header(B.MAGIC, if b.used then 1 else 0, End(H, b), prev)
  }

  ghost function PrevOf(bs: seq<Block>, i: int): int
    requires 0 <= i < |bs|
  {
    if i == 0 then 0 else bs[i - 1].addr
  }

  /** heap_end is marked used and points at itself; its prev is not maintained. */
  ghost predicate EndHeader(h: B.Header, end: int) {
    h.magic == B.MAGIC && h.used == 1 && h.next == end
  }

  /** The buffer stores exactly the headers of `bs`. */
  ghost predicate Stored(m: seq<W.Byte>, bs: seq<Block>, end: int) {
    && |m| == end + H
    && (forall i :: 0 <= i < |bs| ==> B.At(m, bs[i].addr) == HeaderFor(bs[i], PrevOf(bs, i)))
    && EndHeader(B.At(m, end), end)
  }

  lemma AddrGap(bs: seq<Block>, end: int, i: int, j: int)
    requires Laid(H, bs, end) && 0 <= i < j <= |bs|
    ensures AddrAt(bs, end, i) + H <= End(H, bs[i]) <= AddrAt(bs, end, j)
  {
    if j < |bs| { Ordered(H, bs, i, j); } else { Inside(H, bs, end, i); }
  }

  /** The written headers leave all headers outside blocks `k..hi` alone, bar the prev of the next one. */
  lemma StoredSplice(m: seq<W.Byte>, m': seq<W.Byte>, bs: seq<Block>, end: int, k: int, hi: int, xs: seq<Block>, ps: set<int>)
    requires Stored(m, bs, end) && 0 <= k < hi <= |bs| && |xs| > 0 && B.Touched(m, m', ps)
    requires forall i, p :: (0 <= i < k || hi < i < |bs|) && p in ps ==> B.Apart(p, bs[i].addr)
    requires hi < |bs| ==> B.At(m', bs[hi].addr) == HeaderFor(bs[hi], xs[|xs| - 1].addr)
    requires B.At(m', xs[0].addr) == HeaderFor(xs[0], PrevOf(bs, k))
    requires forall j :: 0 < j < |xs| ==> B.At(m', xs[j].addr) == HeaderFor(xs[j], xs[j - 1].addr)
    requires EndHeader(B.At(m', end), end)
    ensures Stored(m', Splice(bs, k, hi, xs), end)
  {
    hide B.At; hide B.Touched; hide HeaderFor; hide Splice; hide EndHeader;
    var t, d := Splice(bs, k, hi, xs), hi - k - |xs|;
    SpliceAt(bs, k, hi, xs);
    assert |m'| == |m| by { B.TouchedLength(m, m', ps); }
    forall i | 0 <= i < |t| ensures B.At(m', t[i].addr) == HeaderFor(t[i], PrevOf(t, i)) {
      if i < k {
        B.TouchedAt(m, m', ps, bs[i].addr);
        assert PrevOf(t, i) == PrevOf(bs, i);
      } else if i < k + |xs| {
        assert PrevOf(t, i) == if i == k then PrevOf(bs, k) else xs[i - k - 1].addr;
      } else if i > k + |xs| {
        B.TouchedAt(m, m', ps, bs[i + d].addr);
        assert t[i - 1] == bs[i + d - 1];
      }
    }
  }

  ghost predicate PayloadKept(m: seq<W.Byte>, m': seq<W.Byte>, b: Block) {
    |m'| == |m| && forall i :: b.addr + H <= i < End(H, b) && 0 <= i < |m| ==> m'[i] == m[i]
  }

  /** No written header reaches into the payload of `b`. */
  lemma TouchedPayload(m: seq<W.Byte>, m': seq<W.Byte>, ps: set<int>, b: Block)
    requires B.Touched(m, m', ps) && forall p :: p in ps ==> p <= b.addr || End(H, b) <= p
    ensures PayloadKept(m, m', b)
  {}

  /** Header writes at existing header offsets never reach a payload. */
  lemma AddrOutsidePayload(bs: seq<Block>, end: int, i: int, j: int)
    requires Laid(H, bs, end) && 0 <= i < |bs| && 0 <= j <= |bs|
    ensures AddrAt(bs, end, j) <= bs[i].addr || End(H, bs[i]) <= AddrAt(bs, end, j)
  {
    if j < i { AddrGap(bs, end, j, i); } else if i < j { AddrGap(bs, end, i, j); }
  }

  lemma HeaderWritesKeepPayloads(m: seq<W.Byte>, m': seq<W.Byte>, bs: seq<Block>, end: int, i: int, j: int)
    requires Laid(H, bs, end) && 0 <= i <= |bs| && 0 <= j <= |bs|
    requires B.Touched(m, m', {AddrAt(bs, end, i), AddrAt(bs, end, j)})
    ensures forall b :: b in bs ==> PayloadKept(m, m', b)
  {
    forall b | b in bs ensures PayloadKept(m, m', b) {
      var n :| 0 <= n < |bs| && bs[n] == b;
      AddrOutsidePayload(bs, end, n, i);
      AddrOutsidePayload(bs, end, n, j);
      TouchedPayload(m, m', {AddrAt(bs, end, i), AddrAt(bs, end, j)}, b);
    }
  }

  // ---- header writes of the operations ----------------------------------------------

  /** Block `k` cut in two; the first part keeps its flag, the second is free. */
  ghost function Halves(b: Block, size: int): seq<Block> {
    [Block(b.addr, size, b.used), Block(b.addr + H + size, b.size - size - H, false)]
  }

  ghost function CutAt(bs: seq<Block>, k: int, size: int): seq<Block>
    requires 0 <= k < |bs|
  {
    Splice(bs, k, k + 1, Halves(bs[k], size))
  }

  lemma CutLaid(bs: seq<Block>, end: int, k: int, size: int)
    requires Laid(H, bs, end) && 0 <= k < |bs| && 0 <= size <= bs[k].size - H
    ensures Laid(H, CutAt(bs, k, size), end) && |CutAt(bs, k, size)| == |bs| + 1
    ensures CutAt(bs, k, size)[k] == Halves(bs[k], size)[0] && CutAt(bs, k, size)[k + 1] == Halves(bs[k], size)[1]
  {
    assert Abuts(H, Halves(bs[k], size), 1);
    SpliceLaid(H, bs, end, k, k + 1, Halves(bs[k], size));
  }

  lemma CutStored(m: seq<W.Byte>, m': seq<W.Byte>, bs: seq<Block>, end: int, k: int, size: int, ps: set<int>)
    requires Laid(H, bs, end) && Stored(m, bs, end) && 0 <= k < |bs| && 0 <= size <= bs[k].size - H
    requires B.Touched(m, m', ps) && ps <= {bs[k].addr, bs[k].addr + H + size, AddrAt(bs, end, k + 1)}
    requires B.At(m', bs[k].addr) == HeaderFor(Halves(bs[k], size)[0], PrevOf(bs, k))
    requires B.At(m', bs[k].addr + H + size) == HeaderFor(Halves(bs[k], size)[1], bs[k].addr)
    requires k + 1 < |bs| ==> B.At(m', bs[k + 1].addr) == HeaderFor(bs[k + 1], bs[k].addr + H + size)
    requires EndHeader(B.At(m', end), end)
    ensures Stored(m', CutAt(bs, k, size), end)
  {
    hide B.At; hide B.Touched; hide Stored; hide EndHeader; hide Laid;
    AddrGap(bs, end, k, k + 1);
    forall i, p | (0 <= i < k || k + 1 < i < |bs|) && p in ps ensures B.Apart(p, bs[i].addr) {
      if i < k { AddrGap(bs, end, i, k); } else { AddrGap(bs, end, k + 1, i); }
    }
    StoredSplice(m, m', bs, end, k, k + 1, Halves(bs[k], size), ps);
  }

  lemma CutPayloads(m: seq<W.Byte>, m': seq<W.Byte>, bs: seq<Block>, end: int, k: int, size: int, ps: set<int>)
    requires Laid(H, bs, end) && 0 <= k < |bs| && 0 <= size <= bs[k].size - H
    requires B.Touched(m, m', ps) && ps <= {bs[k].addr, bs[k].addr + H + size, AddrAt(bs, end, k + 1)}
    ensures forall b :: b in bs && b != bs[k] ==> PayloadKept(m, m', b)
    ensures PayloadKept(m, m', Halves(bs[k], size)[0])
  {
    hide B.Touched; hide PayloadKept; hide Laid;
    AddrGap(bs, end, k, k + 1);
    forall b | b in bs && b != bs[k] ensures PayloadKept(m, m', b) {
      var i :| 0 <= i < |bs| && bs[i] == b;
      AddrOutsidePayload(bs, end, i, k);
      AddrOutsidePayload(bs, end, i, k + 1);
      if i < k { AddrGap(bs, end, i, k); } else { AddrGap(bs, end, k, i); }
      assert forall p :: p in ps ==> p <= b.addr || End(H, b) <= p;
      TouchedPayload(m, m', ps, b);
    }
    TouchedPayload(m, m', ps, Halves(bs[k], size)[0]);
  }

  /** Setting or clearing the used flag of block `k`. */
  lemma MarkStored(m: seq<W.Byte>, m': seq<W.Byte>, bs: seq<Block>, end: int, k: int, used: bool)
    requires Laid(H, bs, end) && Stored(m, bs, end) && 0 <= k < |bs|
    requires B.Touched(m, m', {bs[k].addr})
    requires B.At(m', bs[k].addr) == HeaderFor(bs[k].(used := used), PrevOf(bs, k))
    ensures Stored(m', bs[k := bs[k].(used := used)], end)
    ensures forall b :: b in bs ==> PayloadKept(m, m', b)
  {
    hide B.At; hide B.Touched; hide EndHeader; hide PayloadKept; hide Laid;
    var a, x := bs[k].addr, bs[k].(used := used);
    AddrGap(bs, end, k, |bs|);
    B.TouchedAt(m, m', {a}, end);
    forall i | 0 <= i < |bs| && i != k ensures B.Apart(a, bs[i].addr) {
      if i < k { AddrGap(bs, end, i, k); } else { AddrGap(bs, end, k, i); }
    }
    if k + 1 < |bs| { B.TouchedAt(m, m', {a}, bs[k + 1].addr); }
    StoredSplice(m, m', bs, end, k, k + 1, [x], {a});
    assert Splice(bs, k, k + 1, [x]) == bs[k := x];
    assert {a} == {AddrAt(bs, end, k), AddrAt(bs, end, k)};
    HeaderWritesKeepPayloads(m, m', bs, end, k, k);
  }

  /** Blocks `i` and `i + 1` joined into one free block. */
  ghost function Join(bs: seq<Block>, i: int): seq<Block>
    requires 0 <= i < |bs| - 1
  {
    Splice(bs, i, i + 2, [Merged(H, bs, i, i + 2)])
  }

  lemma JoinStored(m: seq<W.Byte>, m': seq<W.Byte>, bs: seq<Block>, end: int, i: int)
    requires Laid(H, bs, end) && Stored(m, bs, end) && 0 <= i < |bs| - 1 && !bs[i].used && !bs[i + 1].used
    requires B.Touched(m, m', {bs[i].addr, AddrAt(bs, end, i + 2)})
    requires B.At(m', bs[i].addr) == B.At(m, bs[i].addr).(next := AddrAt(bs, end, i + 2))
    requires B.At(m', AddrAt(bs, end, i + 2)) == B.At(m, AddrAt(bs, end, i + 2)).(prev := bs[i].addr)
    ensures Stored(m', Join(bs, i), end)
    ensures forall b :: b in Live(bs) ==> PayloadKept(m, m', b)
  {
    hide B.At; hide B.Touched; hide PayloadKept; hide Laid; hide EndHeader; hide Splice;
    var ps := {bs[i].addr, AddrAt(bs, end, i + 2)};
    AddrAfter(bs, end, i + 1);
    JoinApart(bs, end, i);
    JoinEnd(m, m', bs, end, i);
    StoredSplice(m, m', bs, end, i, i + 2, [Merged(H, bs, i, i + 2)], ps);
    HeaderWritesKeepPayloads(m, m', bs, end, i, i + 2);
  }

  lemma JoinApart(bs: seq<Block>, end: int, i: int)
    requires Laid(H, bs, end) && 0 <= i < |bs| - 1
    ensures forall j, p :: (0 <= j < i || i + 2 < j < |bs|) && p in {bs[i].addr, AddrAt(bs, end, i + 2)} ==> B.Apart(p, bs[j].addr)
  {
    forall j | 0 <= j < i || i + 2 < j < |bs|
      ensures B.Apart(bs[i].addr, bs[j].addr) && B.Apart(AddrAt(bs, end, i + 2), bs[j].addr)
    {
      if j < i { AddrGap(bs, end, j, i); AddrGap(bs, end, j, i + 2); } else { AddrGap(bs, end, i, j); AddrGap(bs, end, i + 2, j); }
    }
  }

  lemma JoinEnd(m: seq<W.Byte>, m': seq<W.Byte>, bs: seq<Block>, end: int, i: int)
    requires Laid(H, bs, end) && Stored(m, bs, end) && 0 <= i < |bs| - 1
    requires B.Touched(m, m', {bs[i].addr, AddrAt(bs, end, i + 2)})
    requires B.At(m', AddrAt(bs, end, i + 2)) == B.At(m, AddrAt(bs, end, i + 2)).(prev := bs[i].addr)
    ensures EndHeader(B.At(m', end), end)
  {
    hide B.At; hide B.Touched; hide Laid;
    if i + 2 < |bs| {
      AddrGap(bs, end, i, |bs|);
      AddrGap(bs, end, i + 2, |bs|);
      B.TouchedAt(m, m', {bs[i].addr, AddrAt(bs, end, i + 2)}, end);
    }
  }

  lemma AddrAfter(bs: seq<Block>, end: int, i: int)
    requires Laid(H, bs, end) && 0 <= i < |bs|
    ensures AddrAt(bs, end, i + 1) == End(H, bs[i])
  {
    if i + 1 < |bs| { assert Abuts(H, bs, i + 1); }
  }

  lemma JoinLaid(bs: seq<Block>, end: int, i: int)
    requires Laid(H, bs, end) && 0 <= i < |bs| - 1
    ensures Laid(H, Join(bs, i), end) && |Join(bs, i)| == |bs| - 1
    ensures Join(bs, i)[i] == Merged(H, bs, i, i + 2)
    ensures i > 0 ==> Join(bs, i)[i - 1] == bs[i - 1]
  {
    Ordered(H, bs, i, i + 1);
    SpliceLaid(H, bs, end, i, i + 2, [Merged(H, bs, i, i + 2)]);
  }

  /** Joining to the right, then to the left, is the release of the block list. */
  lemma PlugIsFree(bs: seq<Block>, k: int)
    requires 0 <= k < |bs| && !bs[k].used
    ensures FreeAt(H, bs, k) ==
            var c := if MergeHi(bs, k) == k + 2 then Join(bs, k) else bs;
            if MergeLo(bs, k) < k then Join(c, k - 1) else c
  {
    var lo, hi := MergeLo(bs, k), MergeHi(bs, k);
    var c := if hi == k + 2 then Join(bs, k) else bs;
    if hi == k + 2 {
      SpliceAt(bs, k, k + 2, [Merged(H, bs, k, k + 2)]);
    } else {
      assert Merged(H, bs, k, k + 1) == bs[k];
    }
    if lo < k {
      assert Merged(H, c, k - 1, k + 1) == Merged(H, bs, lo, hi);
    }
  }

  // ---- requests --------------------------------------------------------------------------

  /** The payload size rt_malloc looks for. */
  function Need(size: int): int {
    if AlignUp(size) < MIN then MIN else AlignUp(size)
  }

  /** rt_malloc finds room for every requested byte, except that the top three sizes wrap to zero. */
  lemma NeedCovers(size: int)
    requires 0 <= size < WORD
    ensures size <= Need(size) <==> size <= WORD - 4
    ensures Need(size) % 4 == 0 && MIN <= Need(size) < WORD
  {}

  lemma NeedIs(size: int)
    ensures Need(size) == if AlignUp(size) < MIN then MIN else AlignUp(size)
  {}

  ghost predicate Aligned(bs: seq<Block>) {
    forall i :: 0 <= i < |bs| ==> bs[i].addr % 4 == 0 && bs[i].size % 4 == 0 && bs[i].size > 0
  }

  lemma AlignedSplice(bs: seq<Block>, k: int, m: int, xs: seq<Block>)
    requires Aligned(bs) && Aligned(xs) && 0 <= k <= m <= |bs|
    ensures Aligned(Splice(bs, k, m, xs))
  {
    SpliceAt(bs, k, m, xs);
  }

  /** The test of the search loop: block `i` is free, large enough, and below the loop bound. */
  ghost predicate Fits(bs: seq<Block>, memSize: int, i: int, need: int)
    requires 0 <= i < |bs|
  {
    !bs[i].used && need <= bs[i].size && bs[i].addr < memSize - need
  }

  /** The loop bound passes over exactly one kind of free block that is large enough: an exact
      fit at the end of the heap. */
  lemma BoundSkipsOnlyExactLast(bs: seq<Block>, memSize: int, i: int, need: int)
    requires Tiled(H, bs, memSize + H) && 0 <= i < |bs| && 0 < need && !bs[i].used && need <= bs[i].size
    ensures Fits(bs, memSize, i, need) <==> !(i == |bs| - 1 && bs[i].size == need)
  {
    AddrAfter(bs, memSize + H, i);
    if i < |bs| - 1 { AddrGap(bs, memSize + H, i + 1, |bs|); }
  }

  /** Block `i` is the first from `lf` on that the search accepts. */
  ghost predicate FirstFit(bs: seq<Block>, memSize: int, lf: int, need: int, i: int)
    requires 0 <= lf
  {
    lf <= i < |bs| && Fits(bs, memSize, i, need) && forall j :: lf <= j < i ==> !Fits(bs, memSize, j, need)
  }

  /** The search accepts no block from `lf` on. */
  ghost predicate NoFit(bs: seq<Block>, memSize: int, lf: int, need: int)
    requires 0 <= lf
  {
    forall i :: lf <= i < |bs| ==> !Fits(bs, memSize, i, need)
  }

  /** No free block holds the request, but for an exact fit at the end of the heap. */
  ghost predicate OnlyExactLast(bs: seq<Block>, need: int) {
    forall i :: 0 <= i < |bs| && !bs[i].used && need <= bs[i].size ==> i == |bs| - 1 && bs[i].size == need
  }

  ghost function Peak(a: int, b: int): int {
    if a < b then b else a
  }

  /** A block in use is resized where it is: its size is the one asked for, or there is room for another
      block behind it. */
  predicate Stays(b: Block, s: int) {
    s == b.size || s + H + MIN < b.size
  }

  /** With `lf` the lowest free block, a search from it that finds nothing means that no free
      block anywhere can hold the request, but for that exact fit; and it is exhaustive. */
  lemma NothingFits(bs: seq<Block>, memSize: int, lf: int, need: int)
    requires Tiled(H, bs, memSize + H) && 0 <= lf <= |bs| && 0 < need
    requires forall i :: 0 <= i < lf ==> bs[i].used
    ensures NoFit(bs, memSize, lf, need) <==> OnlyExactLast(bs, need)
  {
    forall i | 0 <= i < |bs| && !bs[i].used && need <= bs[i].size
      ensures Fits(bs, memSize, i, need) <==> !(i == |bs| - 1 && bs[i].size == need)
    {
      BoundSkipsOnlyExactLast(bs, memSize, i, need);
    }
  }

  /** The aligned bytes between the two end headers of a region. */
  function RegionSize(begin: int, end: int): int {
    end / 4 * 4 - (begin + 3) / 4 * 4 - 2 * H
  }

  lemma RegionAligned(begin: int, end: int)
    ensures RegionSize(begin, end) % 4 == 0
  {}

  lemma FirstLayout(m: seq<W.Byte>, size: int)
    requires 0 < size && size % 4 == 0 && |m| == size + 2 * H
    requires B.At(m, 0) == B.Header(B.MAGIC, 0, size + H, 0)
    requires B.At(m, size + H) == B.Header(B.MAGIC, 1, size + H, size + H)
    ensures var bs := [Block(0, size, false)];
      Tiled(H, bs, size + H) && Aligned(bs) && Stored(m, bs, size + H) && UsedBytes(H, bs) == 0
  {
    hide B.At;
    Sums1(H, Block(0, size, false));
  }

  /** What the code reads from the header of block `i`. */
  lemma StoredAt(m: seq<W.Byte>, bs: seq<Block>, end: int, i: int)
    requires Laid(H, bs, end) && Stored(m, bs, end) && 0 <= i <= |bs|
    ensures 0 <= AddrAt(bs, end, i) <= |m| - H && |m| == end + H
    ensures i < |bs| ==> B.At(m, bs[i].addr) == HeaderFor(bs[i], PrevOf(bs, i)) && AddrAt(bs, end, i + 1) == End(H, bs[i])
    ensures i == |bs| ==> EndHeader(B.At(m, end), end)
  {
    if i < |bs| { Inside(H, bs, end, i); AddrAfter(bs, end, i); } else { Inside(H, bs, end, 0); }
  }

  lemma CutIsAlloc(bs: seq<Block>, k: int, need: int)
    requires 0 <= k < |bs|
    ensures |CutAt(bs, k, need)| == |bs| + 1
    ensures Splits(H, MIN, bs[k].size, need) ==>
      AllocAt(H, MIN, bs, k, need) == CutAt(bs, k, need)[k := CutAt(bs, k, need)[k].(used := true)]
    ensures !Splits(H, MIN, bs[k].size, need) ==> AllocAt(H, MIN, bs, k, need) == bs[k := bs[k].(used := true)]
  {
    SpliceAt(bs, k, k + 1, Halves(bs[k], need));
    SpliceAt(bs, k, k + 1, Granted(H, MIN, bs[k], need));
  }

  lemma AllocPrefix(bs: seq<Block>, end: int, k: int, need: int)
    requires 0 <= k < |bs|
    ensures var t := AllocAt(H, MIN, bs, k, need);
      && k < |t| && t[k].used && t[k].addr == bs[k].addr
      && forall i :: 0 <= i < k ==> t[i] == bs[i]
  {
    SpliceAt(bs, k, k + 1, Granted(H, MIN, bs[k], need));
  }

  lemma AllocAligned(bs: seq<Block>, k: int, need: int)
    requires Aligned(bs) && 0 <= k < |bs| && need % 4 == 0 && need > 0
    ensures Aligned(AllocAt(H, MIN, bs, k, need))
  {
    assert Aligned(Granted(H, MIN, bs[k], need));
    AlignedSplice(bs, k, k + 1, Granted(H, MIN, bs[k], need));
  }

  /** The blocks in use survive the two steps of an allocation. */
  lemma KeptThen(m: seq<W.Byte>, m': seq<W.Byte>, m'': seq<W.Byte>, b: Block)
    requires PayloadKept(m, m', b) && PayloadKept(m', m'', b)
    ensures PayloadKept(m, m'', b)
  {}

  lemma OthersLive(bs: seq<Block>, k: int, b: Block)
    requires 0 <= k < |bs| && b in Live(bs) && b != bs[k]
    ensures b in bs && b in Live(bs[k := bs[k].(used := false)])
  {
    var i :| 0 <= i < |bs| && bs[i] == b;
    assert bs[k := bs[k].(used := false)][i] == b;
  }

  lemma CutKeepsOthers(bs: seq<Block>, k: int, size: int, b: Block)
    requires 0 <= k < |bs| && b in bs && b != bs[k]
    ensures b in CutAt(bs, k, size)
  {
    var i :| 0 <= i < |bs| && bs[i] == b;
    SpliceAt(bs, k, k + 1, Halves(bs[k], size));
    assert CutAt(bs, k, size)[if i < k then i else i + 1] == b;
  }

  lemma JoinKeepsLive(bs: seq<Block>, i: int, b: Block)
    requires 0 <= i < |bs| - 1 && !bs[i].used && !bs[i + 1].used && b in Live(bs)
    ensures b in Live(Join(bs, i))
  {
    var j :| 0 <= j < |bs| && bs[j] == b;
    SpliceAt(bs, i, i + 2, [Merged(H, bs, i, i + 2)]);
    assert Join(bs, i)[if j < i then j else j - 1] == b;
  }

  lemma MarkLaid(bs: seq<Block>, end: int, k: int, used: bool)
    requires Laid(H, bs, end) && 0 <= k < |bs|
    ensures Laid(H, bs[k := bs[k].(used := used)], end)
  {
    var t := bs[k := bs[k].(used := used)];
    forall i | 0 < i < |t| ensures Abuts(H, t, i) { assert Abuts(H, bs, i); }
  }

  /** A release sees only the neighbours' flags, so it may clear the block's own flag first. */
  lemma FreeOfMarked(bs: seq<Block>, k: int)
    requires 0 <= k < |bs|
    ensures FreeAt(H, bs[k := bs[k].(used := false)], k) == FreeAt(H, bs, k)
  {
    var t := bs[k := bs[k].(used := false)];
    var lo, hi := MergeLo(bs, k), MergeHi(bs, k);
    assert t[..lo] == bs[..lo] && t[hi..] == bs[hi..];
  }

  lemma FreePrefix(bs: seq<Block>, k: int)
    requires 0 <= k < |bs|
    ensures var t, lo := FreeAt(H, bs, k), MergeLo(bs, k);
      lo < |t| && !t[lo].used && t[lo].addr == bs[lo].addr && forall i :: 0 <= i < lo ==> t[i] == bs[i]
  {
    var lo, hi := MergeLo(bs, k), MergeHi(bs, k);
    SpliceAt(bs, lo, hi, [Merged(H, bs, lo, hi)]);
  }

  lemma FreeAligned(bs: seq<Block>, end: int, k: int)
    requires Tiled(H, bs, end) && Aligned(bs) && 0 <= k < |bs|
    ensures Aligned(FreeAt(H, bs, k))
  {
    var lo, hi := MergeLo(bs, k), MergeHi(bs, k);
    if lo < hi - 1 { Ordered(H, bs, lo, hi - 1); }
    AlignedSplice(bs, lo, hi, [Merged(H, bs, lo, hi)]);
  }

  /** Where plug_holes leaves lfree: it moves it off headers that vanish. */
  ghost function PlugLfree(cs: seq<Block>, k: int, lfree: int): int
    requires 0 <= k < |cs|
  {
    var mem := cs[k].addr;
    var f := if MergeHi(cs, k) == k + 2 && lfree == cs[k + 1].addr then mem else lfree;
    if MergeLo(cs, k) < k && f == mem then cs[k - 1].addr else f
  }

  ghost predicate UsedBelow(bs: seq<Block>, n: int) {
    forall i :: 0 <= i < n && i < |bs| ==> bs[i].used
  }

  /** The index of lfree after the release of block `k`. */
  ghost function LfAfterFree(bs: seq<Block>, k: int, lf: int): int
    requires 0 <= k < |bs|
  {
    if lf < k then lf else MergeLo(bs, k)
  }

  /** lfree after a release is the header of a free block, and the lowest one if it was that before. */
  lemma ReleaseLfree(bs: seq<Block>, end: int, k: int, lf: int)
    requires Tiled(H, bs, end) && 0 <= k < |bs| && bs[k].used && 0 <= lf <= |bs| && (lf < |bs| ==> !bs[lf].used)
    ensures var t, n, a := FreeAt(H, bs, k), LfAfterFree(bs, k, lf), AddrAt(bs, end, lf);
      && 0 <= n < |t| && !t[n].used && (UsedBelow(bs, lf) ==> UsedBelow(t, n))
      && t[n].addr == PlugLfree(bs[k := bs[k].(used := false)], k, if bs[k].addr < a then bs[k].addr else a)
  {
    hide Laid; hide Chain; hide FreeAt;
    FreePrefix(bs, k);
    if lf < k { AddrMonotone(bs, end, lf, k); } else { AddrMonotone(bs, end, k, lf); }
    AddrMonotone(bs, end, k, k + 1);
    if k > 0 { AddrMonotone(bs, end, k - 1, k); }
    if k + 1 < |bs| { AddrMonotone(bs, end, k, |bs|); }
  }

  /** The index of lfree after block `k` was shrunk. */
  ghost function LfAfterShrink(bs: seq<Block>, k: int, lf: int): int
    requires 0 <= k < |bs|
  {
    var hi := MergeHi(bs, k);
    if lf < k then lf else if lf < hi then k + 1 else lf - hi + k + 2
  }

  /** lfree after a shrink is still the header of a free block, or heap_end; it stays the lowest one
      exactly if it lay below the shrunk block or was its right neighbour. */
  lemma ShrinkLfree(bs: seq<Block>, end: int, k: int, size: int, lf: int)
    requires Tiled(H, bs, end) && 0 <= k < |bs| && bs[k].used && 0 <= lf <= |bs| && (lf < |bs| ==> !bs[lf].used)
    requires 0 <= size < bs[k].size - H
    ensures |CutAt(bs, k, size)| == |bs| + 1
    ensures var t, n := ResizeAt(H, bs, k, size), LfAfterShrink(bs, k, lf);
      && 0 <= n <= |t| && (n < |t| ==> !t[n].used)
      && AddrAt(t, end, n) == PlugLfree(CutAt(bs, k, size), k + 1, AddrAt(bs, end, lf))
      && (UsedBelow(bs, lf) ==> (UsedBelow(t, n) <==> lf < k || lf == k + 1 < |bs|))
  {
    CutMerges(bs, k, size);
    CutNext(bs, k, size);
    ResizeSuffix(bs, k, size);
    LfreeAside(bs, end, k, lf);
    hide Laid; hide Chain; hide ResizeAt; hide CutAt; hide FreeAt;
    if lf < k { AddrMonotone(bs, end, lf, k); } else { AddrMonotone(bs, end, k + 1, lf); }
    AddrAfter(bs, end, k);
    assert !(lf < k || lf == k + 1 < |bs|) ==> LfAfterShrink(bs, k, lf) > k + 1;
  }

  lemma CutHalf(bs: seq<Block>, k: int, size: int)
    requires 0 <= k < |bs|
    ensures |CutAt(bs, k, size)| == |bs| + 1 && !CutAt(bs, k, size)[k + 1].used
    ensures Block(bs[k].addr, size, bs[k].used) in CutAt(bs, k, size) && Halves(bs[k], size)[0] == Block(bs[k].addr, size, bs[k].used)
    ensures bs[k].used ==> Block(bs[k].addr, size, true) in Live(CutAt(bs, k, size))
  {
    SpliceAt(bs, k, k + 1, Halves(bs[k], size));
    assert CutAt(bs, k, size)[k] == Block(bs[k].addr, size, bs[k].used);
  }

  lemma CutNext(bs: seq<Block>, k: int, size: int)
    requires 0 <= k < |bs|
    ensures |CutAt(bs, k, size)| == |bs| + 1 && CutAt(bs, k, size)[k + 1].addr == bs[k].addr + H + size
  {
    SpliceAt(bs, k, k + 1, Halves(bs[k], size));
  }

  /** Cutting a used block and plugging the hole behind it is a resize. */
  lemma CutThenPlug(bs: seq<Block>, k: int, size: int)
    requires 0 <= k < |bs| && bs[k].used
    ensures |CutAt(bs, k, size)| == |bs| + 1
    ensures FreeAt(H, CutAt(bs, k, size), k + 1) == ResizeAt(H, bs, k, size)
  {
    CutMerges(bs, k, size);
    CutRest(bs, k, size);
    hide CutAt; hide MergeHi; hide MergeLo;
    var t, hi := CutAt(bs, k, size), MergeHi(bs, k);
    assert t[..k + 1] + [Merged(H, t, k + 1, hi + 1)] + t[hi + 1..] == bs[..k] + Resized(H, bs, k, size) + bs[hi..];
  }

  lemma CutMerges(bs: seq<Block>, k: int, size: int)
    requires 0 <= k < |bs| && bs[k].used
    ensures |CutAt(bs, k, size)| == |bs| + 1
    ensures MergeLo(CutAt(bs, k, size), k + 1) == k + 1
    ensures MergeHi(CutAt(bs, k, size), k + 1) == MergeHi(bs, k) + 1
    ensures MergeHi(bs, k) == k + 2 ==> CutAt(bs, k, size)[k + 2] == bs[k + 1]
  {
    SpliceAt(bs, k, k + 1, Halves(bs[k], size));
  }

  lemma CutRest(bs: seq<Block>, k: int, size: int)
    requires 0 <= k < |bs| && bs[k].used
    ensures var t, hi := CutAt(bs, k, size), MergeHi(bs, k);
      && |t| == |bs| + 1 && hi <= |bs|
      && t[..k + 1] == bs[..k] + [Resized(H, bs, k, size)[0]] && t[hi + 1..] == bs[hi..]
      && Merged(H, t, k + 1, hi + 1) == Resized(H, bs, k, size)[1]
  {
    SpliceAt(bs, k, k + 1, Halves(bs[k], size));
  }

  lemma ResizeSuffix(bs: seq<Block>, k: int, size: int)
    requires 0 <= k < |bs|
    ensures var t, hi := ResizeAt(H, bs, k, size), MergeHi(bs, k);
      && |t| == |bs| - hi + k + 2 && t[k].used && t[k].addr == bs[k].addr
      && !t[k + 1].used && t[k + 1].addr == bs[k].addr + H + size
      && (forall i :: 0 <= i < k ==> t[i] == bs[i])
      && (forall i :: hi <= i < |bs| ==> t[i - hi + k + 2] == bs[i])
  {
    SpliceAt(bs, k, MergeHi(bs, k), Resized(H, bs, k, size));
  }

  lemma ShrinkTiled(bs: seq<Block>, end: int, k: int, size: int)
    requires Tiled(H, bs, end) && Aligned(bs) && 0 <= k < |bs| && bs[k].used
    requires 0 < size && size % 4 == 0 && size + H + MIN < bs[k].size
    ensures Tiled(H, ResizeAt(H, bs, k, size), end) && Aligned(ResizeAt(H, bs, k, size))
  {
    if k + 1 < |bs| { assert Abuts(H, bs, k + 1); }
    ResizeTiled(H, bs, end, k, size);
    ResizeAligned(bs, k, size);
  }

  /** A free block other than the right neighbour of `k` has another address. */
  lemma LfreeAside(bs: seq<Block>, end: int, k: int, lf: int)
    requires Tiled(H, bs, end) && 0 <= k < |bs| && bs[k].used && 0 <= lf <= |bs| && (lf < |bs| ==> !bs[lf].used)
    ensures lf < k || MergeHi(bs, k) <= lf || lf == k + 1 < |bs|
    ensures lf != k + 1 && k + 1 < |bs| ==> AddrAt(bs, end, lf) != bs[k + 1].addr
  {
    if k + 1 < lf { AddrGap(bs, end, k + 1, lf); } else if lf < k + 1 { AddrGap(bs, end, lf, k + 1); }
  }

  /** lfree is not below the block at `ptr` and is not its right neighbour, so that it stays where it is
      when the surplus of the block becomes free. */
  predicate LeftBehind(lfree: int, memSize: int, ptr: int, size: int) {
    lfree >= ptr && (lfree != ptr + H + size || lfree == memSize + H)
  }

  lemma LeftBehindIs(bs: seq<Block>, memSize: int, k: int, lf: int)
    requires Tiled(H, bs, memSize + H) && 0 <= k < |bs| && 0 <= lf <= |bs|
    ensures LeftBehind(AddrAt(bs, memSize + H, lf), memSize, bs[k].addr, bs[k].size) <==> !(lf < k || lf == k + 1 < |bs|)
  {
    var end := memSize + H;
    AddrAfter(bs, end, k);
    if lf < k { AddrMonotone(bs, end, lf, k); } else { AddrMonotone(bs, end, k, lf); }
    if lf < k + 1 { AddrMonotone(bs, end, lf, k + 1); } else { AddrMonotone(bs, end, k + 1, lf); }
    AddrMonotone(bs, end, lf, |bs|);
  }

  lemma SumAligned(a: int, b: int)
    requires a % 4 == 0 && b % 4 == 0
    ensures (a + b) % 4 == 0
  {}

  lemma ResizeAligned(bs: seq<Block>, k: int, size: int)
    requires Aligned(bs) && 0 <= k < |bs| && size % 4 == 0 && size > 0 && Resized(H, bs, k, size)[1].size > 0
    ensures Aligned(ResizeAt(H, bs, k, size))
  {
    var xs, last := Resized(H, bs, k, size), bs[MergeHi(bs, k) - 1];
    assert xs[1].addr % 4 == 0 by { SumAligned(bs[k].addr, H + size); }
    assert xs[1].size % 4 == 0 by {
      SumAligned(last.addr, H + last.size);
      SumAligned(End(H, last), -(xs[1].addr + H));
    }
    AlignedSplice(bs, k, MergeHi(bs, k), xs);
  }

  /** Bytes written inside the payload of block `k` disturb no header and no other payload. */
  lemma PayloadWrite(m: seq<W.Byte>, m': seq<W.Byte>, bs: seq<Block>, end: int, k: int)
    requires Laid(H, bs, end) && Stored(m, bs, end) && 0 <= k < |bs| && |m'| == |m|
    requires forall i :: 0 <= i < |m| && !(bs[k].addr + H <= i < End(H, bs[k])) ==> m'[i] == m[i]
    ensures Stored(m', bs, end)
    ensures forall b :: b in bs && b != bs[k] ==> PayloadKept(m, m', b)
  {
    forall i | 0 <= i <= |bs| ensures B.At(m', AddrAt(bs, end, i)) == B.At(m, AddrAt(bs, end, i)) {
      SameHeader(m, m', bs, end, k, i);
    }
    forall i | 0 <= i < |bs| ensures B.At(m', bs[i].addr) == HeaderFor(bs[i], PrevOf(bs, i)) {
      assert AddrAt(bs, end, i) == bs[i].addr;
    }
    assert AddrAt(bs, end, |bs|) == end;
    hide Stored; hide B.At;
    forall b | b in bs && b != bs[k] ensures PayloadKept(m, m', b) {
      OtherPayload(m, m', bs, end, k, b);
    }
  }

  lemma OtherPayload(m: seq<W.Byte>, m': seq<W.Byte>, bs: seq<Block>, end: int, k: int, b: Block)
    requires Laid(H, bs, end) && |m| == end + H == |m'| && 0 <= k < |bs| && b in bs && b != bs[k]
    requires forall i :: 0 <= i < |m| && !(bs[k].addr + H <= i < End(H, bs[k])) ==> m'[i] == m[i]
    ensures PayloadKept(m, m', b)
  {
    var i :| 0 <= i < |bs| && bs[i] == b;
    if i < k { AddrGap(bs, end, i, k); } else { AddrGap(bs, end, k, i); }
  }

  lemma SameHeader(m: seq<W.Byte>, m': seq<W.Byte>, bs: seq<Block>, end: int, k: int, i: int)
    requires Laid(H, bs, end) && |m| == end + H == |m'| && 0 <= k < |bs| && 0 <= i <= |bs|
    requires forall j :: 0 <= j < |m| && !(bs[k].addr + H <= j < End(H, bs[k])) ==> m'[j] == m[j]
    ensures B.At(m', AddrAt(bs, end, i)) == B.At(m, AddrAt(bs, end, i))
  {
    var q := AddrAt(bs, end, i);
    if i <= k { if i < k { AddrGap(bs, end, i, k); } } else { AddrGap(bs, end, k, i); }
    if 0 <= q <= |m| - H {
      assert m[q..q + H] == m'[q..q + H];
      B.GetSame(m, m', q);
    }
  }

  /** The `n` bytes at `p` in `m` are the `n` bytes at `q` in `m'`. */
  ghost predicate SameStart(m: seq<W.Byte>, p: int, m': seq<W.Byte>, q: int, n: int) {
    0 <= n && 0 <= p <= |m| - n && 0 <= q <= |m'| - n && m[p..p + n] == m'[q..q + n]
  }

  lemma SameStartThen(m0: seq<W.Byte>, m1: seq<W.Byte>, m2: seq<W.Byte>, m3: seq<W.Byte>, p: int, q: int, n: int)
    requires SameStart(m0, p, m1, p, n) && SameStart(m1, p, m2, q, n) && SameStart(m2, q, m3, q, n)
    ensures SameStart(m0, p, m3, q, n)
  {}

  lemma AlignUpRange(size: int)
    requires 0 <= size < WORD
    ensures 0 <= AlignUp(size) < WORD && AlignUp(size) % 4 == 0
  {}

  lemma AlignedIs(size: int)
    requires 0 <= size < WORD && size % 4 == 0
    ensures AlignUp(size) == size
  {}

  lemma AlignUpTwice(size: int)
    requires 0 <= size < WORD
    ensures AlignUp(AlignUp(size)) == AlignUp(size)
  {}

  lemma KeptStart(m: seq<W.Byte>, m': seq<W.Byte>, b: Block, n: int)
    requires PayloadKept(m, m', b) && 0 <= n <= b.size && 0 <= b.addr && End(H, b) <= |m|
    ensures SameStart(m, b.addr + H, m', b.addr + H, n)
  {}

  /** The block handed out for a request is none of the blocks in use. */
  lemma GrantedNew(bs: seq<Block>, end: int, memSize: int, j: int, k: int, size: int)
    requires Tiled(H, bs, end) && 0 <= j < |bs| && Fits(bs, memSize, j, Need(size)) && 0 <= k < |bs| && bs[k].used
    requires 0 <= size < WORD && size % 4 == 0
    ensures var g := Granted(H, MIN, bs[j], Need(size))[0];
      g.used && g.addr == bs[j].addr && size <= g.size && g.addr != bs[k].addr && g !in Live(bs)
  {
    NeedCovers(size);
    forall i | 0 <= i < |bs| && bs[i].used ensures bs[i].addr != bs[j].addr {
      if bs[i].addr == bs[j].addr { SameAddr(H, bs, i, j); }
    }
  }

  lemma InUse(bs: seq<Block>, k: int)
    requires 0 <= k < |bs| && bs[k].used
    ensures bs[k] in Live(bs)
  {}

  lemma Untouched(m: seq<W.Byte>, b: Block)
    ensures PayloadKept(m, m, b)
  {}

  lemma StartsAtZero(bs: seq<Block>, end: int)
    requires Laid(H, bs, end)
    ensures |bs| > 0 && bs[0].addr == 0
  {}

  lemma AddrMonotone(bs: seq<Block>, end: int, i: int, j: int)
    requires Tiled(H, bs, end) && 0 <= i <= j <= |bs|
    ensures AddrAt(bs, end, i) <= AddrAt(bs, end, j)
    ensures i < j ==> AddrAt(bs, end, i) < AddrAt(bs, end, j)
  {
    if i < j { AddrGap(bs, end, i, j); }
  }

  class Heap {
    const ram: B.Ram
    var memSize: int           // mem_size_aligned
    var lfree: int             // offset of the lowest free header known
    var usedMem: int
    var maxMem: int
    ghost var bs: seq<Block>   // the blocks before heap_end
    ghost var lf: int          // the index of lfree

    ghost function End(): int
      reads this
    {
      memSize + H
    }

    ghost predicate Sized()
      reads this
    {
      MIN <= memSize && memSize + 2 * H <= WORD && memSize % 4 == 0 && ram.bytes.Length == memSize + 2 * H
    }

    /** Everything but lfree. */
    ghost predicate Core()
      reads this, ram, ram.bytes
    {
      && Sized()
      && Tiled(H, bs, End())
      && Aligned(bs)
      && Stored(ram.View(), bs, End())
      && usedMem == UsedBytes(H, bs) && usedMem <= maxMem
    }

    ghost predicate Valid()
      reads this, ram, ram.bytes
    {
      && Core()
      && 0 <= lf <= |bs| && lfree == AddrAt(bs, End(), lf) && (lf < |bs| ==> !bs[lf].used)
    }

    /** lfree is the lowest free block. */
    ghost predicate Lowest()
      reads this
    {
      0 <= lf <= |bs| && UsedBelow(bs, lf)
    }

    /** rt_system_heap_init on a region that leaves room for one minimal block. */
    constructor (begin: int, end: int)
      requires 0 <= begin && MIN <= RegionSize(begin, end) <= WORD - 2 * H
      ensures Valid() && Lowest() && fresh(ram) && fresh(ram.bytes)
      ensures memSize == RegionSize(begin, end)
      ensures bs == [Block(0, memSize, false)] && maxMem == 0
    {
      hide RegionSize; hide Tiled; hide Stored; hide Aligned; hide UsedBytes; hide B.At; hide B.Touched;
      var size := RegionSize(begin, end);
      memSize, lfree, usedMem, maxMem := size, 0, 0, 0;
      bs, lf := [Block(0, size, false)], 0;
      var r := new B.Ram(size + 2 * H);
      ram := r;
      RegionAligned(begin, end);
      new;
      r.Create(0, B.Header(B.MAGIC, 0, size + H, 0));
      r.Create(size + H, B.Header(B.MAGIC, 1, size + H, size + H));
      FirstLayout(r.View(), size);
    }

    /** The search loop of rt_malloc. */
    method Search(need: int) returns (ptr: int, ghost i: int)
      requires Valid() && 0 < need <= memSize
      ensures lf <= i <= |bs| && ptr == AddrAt(bs, End(), i)
      ensures forall j :: lf <= j < i ==> !Fits(bs, memSize, j, need)
      ensures ptr < memSize - need ==> i < |bs| && Fits(bs, memSize, i, need)
      ensures ptr >= memSize - need ==> forall j :: lf <= j < |bs| ==> !Fits(bs, memSize, j, need)
    {
      hide Laid; hide Chain; hide Stored; hide UsedBytes; hide B.At; hide Aligned;
      ptr, i := lfree, lf;
      while ptr < memSize - need
        invariant lf <= i <= |bs| && ptr == AddrAt(bs, End(), i)
        invariant forall j :: lf <= j < i ==> !Fits(bs, memSize, j, need)
        decreases |bs| - i
      {
        StoredAt(ram.View(), bs, End(), i);
        var h := ram.Load(ptr);
        if h.used == 0 && h.next - (ptr + H) >= need { return; }
        ptr, i := h.next, i + 1;
      }
      forall j | lf <= j < |bs| ensures !Fits(bs, memSize, j, need) {
        if i <= j { AddrMonotone(bs, End(), i, j); }
      }
    }

    /** Walking lfree forward to the next free header. */
    method Advance(ghost i: int)
      requires Core() && 0 <= i <= |bs| && lfree == AddrAt(bs, End(), i)
      modifies this`lfree, this`lf
      ensures Valid() && i <= lf && forall j :: i <= j < lf ==> bs[j].used
    {
      hide Laid; hide Chain; hide Stored; hide UsedBytes; hide B.At; hide Aligned;
      lf := i;
      StoredAt(ram.View(), bs, End(), lf);
      AddrMonotone(bs, End(), lf, |bs|);
      var h := ram.Load(lfree);
      while h.used != 0 && lfree != memSize + H
        invariant i <= lf <= |bs| && lfree == AddrAt(bs, End(), lf)
        invariant 0 <= lfree <= ram.bytes.Length - H && h == B.At(ram.View(), lfree)
        invariant lf < |bs| ==> h == HeaderFor(bs[lf], PrevOf(bs, lf)) && lfree < End()
        invariant forall j :: i <= j < lf ==> bs[j].used
        decreases |bs| - lf
      {
        StoredAt(ram.View(), bs, End(), lf);
        StoredAt(ram.View(), bs, End(), lf + 1);
        AddrMonotone(bs, End(), lf + 1, |bs|);
        lfree, lf := h.next, lf + 1;
        h := ram.Load(lfree);
      }
    }

    /** Creating a new header inside block `k` and linking it in. */
    method Split(ptr: int, size: int, ghost k: int)
      requires Sized() && Laid(H, bs, End()) && Stored(ram.View(), bs, End())
      requires 0 <= k < |bs| && bs[k].addr == ptr && 0 <= size <= bs[k].size - H
      modifies ram.bytes
      ensures Stored(ram.View(), CutAt(bs, k, size), End())
      ensures forall b :: b in bs && b != bs[k] ==> PayloadKept(old(ram.View()), ram.View(), b)
      ensures PayloadKept(old(ram.View()), ram.View(), Halves(bs[k], size)[0])
    {
      hide Laid; hide Stored; hide B.At; hide B.Touched; hide PayloadKept; hide CutAt;
      ghost var m := ram.View();
      StoredAt(m, bs, End(), k);
      StoredAt(m, bs, End(), k + 1);
      StoredAt(m, bs, End(), |bs|);
      AddrGap(bs, End(), k, k + 1);
      AddrGap(bs, End(), k, |bs|);
      if k + 1 < |bs| { AddrGap(bs, End(), k + 1, |bs|); }
      var h := ram.Load(ptr);
      var ptr2 := ptr + H + size;
      ram.Create(ptr2, B.Header(B.MAGIC, 0, h.next, ptr));
      ghost var m1 := ram.View();
      ram.SetNext(ptr, ptr2);
      B.TouchedThen(m, m1, ram.View(), {ptr2}, {ptr});
      ghost var m2 := ram.View();
      if h.next != memSize + H {
        ram.SetPrev(h.next, ptr2);
        B.TouchedThen(m, m2, ram.View(), {ptr2} + {ptr}, {h.next});
        CutStored(m, ram.View(), bs, End(), k, size, {ptr2} + {ptr} + {h.next});
        CutPayloads(m, ram.View(), bs, End(), k, size, {ptr2} + {ptr} + {h.next});
      } else {
        CutStored(m, ram.View(), bs, End(), k, size, {ptr2} + {ptr});
        CutPayloads(m, ram.View(), bs, End(), k, size, {ptr2} + {ptr});
      }
    }

    /** Setting or clearing the used flag in the header of a block. */
    method Mark(ptr: int, used: bool, ghost cs: seq<Block>, ghost k: int)
      requires Sized() && Laid(H, cs, End()) && Stored(ram.View(), cs, End())
      requires 0 <= k < |cs| && cs[k].addr == ptr
      modifies ram.bytes
      ensures Stored(ram.View(), cs[k := cs[k].(used := used)], End())
      ensures forall b :: b in cs ==> PayloadKept(old(ram.View()), ram.View(), b)
    {
      hide Laid; hide Stored; hide B.At; hide B.Touched; hide PayloadKept;
      StoredAt(ram.View(), cs, End(), k);
      ghost var m := ram.View();
      ram.SetUsed(ptr, if used then 1 else 0);
      MarkStored(m, ram.View(), cs, End(), k, used);
    }

    /** Handing out block `k`, split if enough is left over. */
    method Carve(ptr: int, need: int, ghost k: int)
      requires Core() && 0 <= k < |bs| && bs[k].addr == ptr && !bs[k].used && 0 < need <= bs[k].size && need % 4 == 0
      modifies this`usedMem, this`maxMem, this`bs, ram.bytes
      ensures Core() && bs == AllocAt(H, MIN, old(bs), k, need)
      ensures forall b :: b in Live(old(bs)) ==> PayloadKept(old(ram.View()), ram.View(), b)
      ensures maxMem == if old(maxMem) < usedMem then usedMem else old(maxMem)
    {
      hide Laid; hide Chain; hide Stored; hide B.At; hide PayloadKept; hide CutAt; hide AllocAt; hide UsedBytes; hide Aligned; hide FreeBytes;
      ghost var m, cs := ram.View(), bs;
      AllocTiled(H, MIN, bs, End(), k, need);
      AllocEffect(H, MIN, bs, End(), k, need);
      AllocAligned(bs, k, need);
      CutIsAlloc(bs, k, need);
      StoredAt(m, bs, End(), k);
      var h := ram.Load(ptr);
      if h.next - (ptr + H) >= need + H + MIN {
        CutLaid(bs, End(), k, need);
        cs := CutAt(bs, k, need);
        Split(ptr, need, k);
        usedMem := usedMem + need + H;
      } else {
        usedMem := usedMem + (h.next - ptr);
      }
      ghost var m1 := ram.View();
      Mark(ptr, true, cs, k);
      if maxMem < usedMem { maxMem := usedMem; }
      forall b | b in Live(bs) ensures PayloadKept(m, ram.View(), b) {
        if cs != bs { CutKeepsOthers(bs, k, need, b); KeptThen(m, m1, ram.View(), b); }
      }
      bs := AllocAt(H, MIN, bs, k, need);
    }

    /** rt_malloc. The first block from lfree on that fits is handed out; nothing else in use is
        touched, neither its place nor a byte of its payload. */
    method Malloc(size: int) returns (p: int, ghost k: int)
      requires Valid() && 0 <= size < WORD
      modifies this, ram.bytes
      ensures Valid() && memSize == old(memSize) && (old(Lowest()) ==> Lowest())
      ensures p == NULL <==> size == 0 || AlignUp(size) > memSize || NoFit(old(bs), memSize, old(lf), Need(size))
      ensures old(Lowest()) ==>
        (p == NULL <==> size == 0 || AlignUp(size) > memSize || OnlyExactLast(old(bs), Need(size)))
      ensures p == NULL ==> unchanged(this) && ram.View() == old(ram.View())
      ensures p != NULL ==>
        && FirstFit(old(bs), memSize, old(lf), Need(size), k) && p == old(bs)[k].addr + H && p % 4 == 0
        && Tight(H, MIN, old(bs)[k], Granted(H, MIN, old(bs)[k], Need(size))[0], Need(size))
        && bs == AllocAt(H, MIN, old(bs), k, Need(size))
        && Live(bs) == Live(old(bs)) + {Granted(H, MIN, old(bs)[k], Need(size))[0]}
        && usedMem == old(usedMem) + H + Granted(H, MIN, old(bs)[k], Need(size))[0].size
      ensures forall b :: b in Live(old(bs)) ==> PayloadKept(old(ram.View()), ram.View(), b)
      ensures maxMem == if old(maxMem) < usedMem then usedMem else old(maxMem)
    {
      hide Laid; hide Chain; hide Stored; hide B.At; hide AllocAt; hide UsedBytes; hide FreeBytes; hide Need; hide OnlyExactLast;
      p, k := NULL, 0;
      if size == 0 { return; }
      var s := AlignUp(size);
      if s > memSize { return; }
      NeedCovers(size);
      var need := if s < MIN then MIN else s;
      assert need == Need(size) by { NeedIs(size); }
      if Lowest() { NothingFits(bs, memSize, lf, need); }
      var ptr;
      ptr, k := Search(need);
      if ptr >= memSize - need { return; }
      Bounds(H, bs, End(), k);
      GrantedTight(H, MIN, bs[k], need);
      Grant(ptr, need, k);
      p := ptr + H;
    }

    /** What rt_malloc does with the block it has found. */
    method Grant(ptr: int, need: int, ghost k: int)
      requires Valid() && lf <= k < |bs| && bs[k].addr == ptr && !bs[k].used && 0 < need <= bs[k].size && need % 4 == 0
      modifies this, ram.bytes
      ensures Valid() && memSize == old(memSize) && (old(Lowest()) ==> Lowest())
      ensures bs == AllocAt(H, MIN, old(bs), k, need)
      ensures Live(bs) == Live(old(bs)) + {Granted(H, MIN, old(bs)[k], need)[0]}
      ensures usedMem == old(usedMem) + H + Granted(H, MIN, old(bs)[k], need)[0].size
      ensures forall b :: b in Live(old(bs)) ==> PayloadKept(old(ram.View()), ram.View(), b)
      ensures maxMem == if old(maxMem) < usedMem then usedMem else old(maxMem)
    {
      hide Laid; hide Chain; hide Stored; hide B.At; hide AllocAt; hide UsedBytes; hide FreeBytes; hide PayloadKept; hide Granted; hide Aligned;
      AllocEffect(H, MIN, bs, End(), k, need);
      AllocPrefix(bs, End(), k, need);
      AddrMonotone(bs, End(), lf, k);
      Carve(ptr, need, k);
      if ptr == lfree { Advance(k); }
    }

    /** One merge of plug_holes: block `i` takes over its right neighbour. */
    method Absorb(a: int, beyond: int, ghost cs: seq<Block>, ghost i: int)
      requires Sized() && Laid(H, cs, End()) && Stored(ram.View(), cs, End())
      requires 0 <= i < |cs| - 1 && !cs[i].used && !cs[i + 1].used && cs[i].addr == a && beyond == AddrAt(cs, End(), i + 2)
      modifies ram.bytes
      ensures Stored(ram.View(), Join(cs, i), End())
      ensures forall b :: b in Live(cs) ==> PayloadKept(old(ram.View()), ram.View(), b)
    {
      hide Laid; hide Stored; hide B.At; hide B.Touched; hide PayloadKept; hide Join;
      ghost var m := ram.View();
      StoredAt(m, cs, End(), i);
      StoredAt(m, cs, End(), i + 2);
      AddrGap(cs, End(), i, i + 2);
      ram.SetNext(a, beyond);
      ghost var m1 := ram.View();
      ram.SetPrev(beyond, a);
      B.TouchedThen(m, m1, ram.View(), {a}, {beyond});
      assert {a} + {beyond} == {cs[i].addr, AddrAt(cs, End(), i + 2)};
      JoinStored(m, ram.View(), cs, End(), i);
    }

    method PlugForward(mem: int, ghost cs: seq<Block>, ghost k: int)
      requires Sized() && Laid(H, cs, End()) && Stored(ram.View(), cs, End())
      requires 0 <= k < |cs| && cs[k].addr == mem && !cs[k].used
      modifies this`lfree, ram.bytes
      ensures Stored(ram.View(), if MergeHi(cs, k) == k + 2 then Join(cs, k) else cs, End())
      ensures forall b :: b in Live(cs) ==> PayloadKept(old(ram.View()), ram.View(), b)
      ensures lfree == if MergeHi(cs, k) == k + 2 && old(lfree) == cs[k + 1].addr then mem else old(lfree)
    {
      hide Laid; hide Stored; hide B.At; hide PayloadKept; hide Join;
      StoredAt(ram.View(), cs, End(), k);
      StoredAt(ram.View(), cs, End(), k + 1);
      if k + 1 < |cs| { AddrGap(cs, End(), k + 1, |cs|); }
      AddrGap(cs, End(), k, k + 1);
      var h := ram.Load(mem);
      var nmem := h.next;
      var nh := ram.Load(nmem);
      if mem != nmem && nh.used == 0 && nmem != memSize + H {
        if lfree == nmem { lfree := mem; }
        Absorb(mem, nh.next, cs, k);
      } else {
        forall b | b in Live(cs) ensures PayloadKept(old(ram.View()), ram.View(), b) { Untouched(ram.View(), b); }
      }
    }

    method PlugBackward(mem: int, ghost cs: seq<Block>, ghost k: int)
      requires Sized() && Laid(H, cs, End()) && Stored(ram.View(), cs, End())
      requires 0 <= k < |cs| && cs[k].addr == mem && !cs[k].used
      modifies this`lfree, ram.bytes
      ensures Stored(ram.View(), if MergeLo(cs, k) < k then Join(cs, k - 1) else cs, End())
      ensures forall b :: b in Live(cs) ==> PayloadKept(old(ram.View()), ram.View(), b)
      ensures lfree == if MergeLo(cs, k) < k && old(lfree) == mem then cs[k - 1].addr else old(lfree)
    {
      hide Laid; hide Stored; hide B.At; hide PayloadKept; hide Join;
      StoredAt(ram.View(), cs, End(), k);
      StartsAtZero(cs, End());
      if k > 0 { StoredAt(ram.View(), cs, End(), k - 1); AddrGap(cs, End(), k - 1, k); }
      var h := ram.Load(mem);
      var pmem := h.prev;
      var ph := ram.Load(pmem);
      if pmem != mem && ph.used == 0 {
        if lfree == mem { lfree := pmem; }
        Absorb(pmem, h.next, cs, k - 1);
      } else {
        forall b | b in Live(cs) ensures PayloadKept(old(ram.View()), ram.View(), b) { Untouched(ram.View(), b); }
      }
    }

    /** plug_holes: join a free block with its free neighbours, moving lfree off headers that vanish. */
    method PlugHoles(mem: int, ghost cs: seq<Block>, ghost k: int)
      requires Sized() && Laid(H, cs, End()) && Stored(ram.View(), cs, End())
      requires 0 <= k < |cs| && cs[k].addr == mem && !cs[k].used
      modifies this`lfree, ram.bytes
      ensures Stored(ram.View(), FreeAt(H, cs, k), End())
      ensures forall b :: b in Live(cs) ==> PayloadKept(old(ram.View()), ram.View(), b)
      ensures lfree == PlugLfree(cs, k, old(lfree))
    {
      hide Laid; hide Stored; hide PayloadKept; hide Join; hide FreeAt; hide Live;
      PlugIsFree(cs, k);
      ghost var m, c := ram.View(), cs;
      PlugForward(mem, cs, k);
      if MergeHi(cs, k) == k + 2 {
        JoinLaid(cs, End(), k);
        c := Join(cs, k);
      }
      ghost var m1 := ram.View();
      PlugBackward(mem, c, k);
      forall b | b in Live(cs) ensures PayloadKept(m, ram.View(), b) {
        if c != cs { JoinKeepsLive(cs, k, b); }
        KeptThen(m, m1, ram.View(), b);
      }
    }

    /** Some block in use has its payload at `p`. */
    ghost predicate IsLive(p: int)
      reads this
    {
      exists b :: b in Live(bs) && b.addr + H == p
    }

    /** A pointer that does not point into the heap. */
    ghost predicate Outside(p: int)
      reads this
    {
      p < 0 || p >= End()
    }

    lemma Find(p: int) returns (k: int)
      requires IsLive(p)
      ensures 0 <= k < |bs| && bs[k].used && bs[k].addr + H == p && bs[k] in Live(bs)
    {
      var b :| b in Live(bs) && b.addr + H == p;
      k :| 0 <= k < |bs| && bs[k] == b;
    }

    /** rt_free. The block leaves the blocks in use and is merged with its free neighbours;
        lfree falls to it if it is lower. A pointer outside the heap is ignored. */
    method Free(p: int) returns (ghost k: int)
      requires Valid() && (Outside(p) || IsLive(p))
      modifies this, ram.bytes
      ensures Valid() && memSize == old(memSize) && maxMem == old(maxMem) && (old(Lowest()) ==> Lowest())
      ensures old(Outside(p)) ==> unchanged(this) && ram.View() == old(ram.View())
      ensures !old(Outside(p)) ==>
        && 0 <= k < |old(bs)| && old(bs)[k].used && old(bs)[k].addr + H == p
        && bs == FreeAt(H, old(bs), k)
        && Live(bs) == Live(old(bs)) - {old(bs)[k]}
        && lf == LfAfterFree(old(bs), k, old(lf))
      ensures forall b :: b in Live(bs) ==> PayloadKept(old(ram.View()), ram.View(), b)
    {
      hide Laid; hide Chain; hide Stored; hide PayloadKept; hide FreeAt; hide UsedBytes;
      k := 0;
      if p < 0 || p >= memSize + H {
        forall b | b in Live(bs) ensures PayloadKept(old(ram.View()), ram.View(), b) { Untouched(ram.View(), b); }
        return;
      }
      k := Find(p);
      Bounds(H, bs, End(), k);
      Release(p - H, k);
    }

    method Release(mem: int, ghost k: int)
      requires Valid() && 0 <= k < |bs| && bs[k].used && bs[k].addr == mem
      modifies this, ram.bytes
      ensures Valid() && memSize == old(memSize) && maxMem == old(maxMem) && (old(Lowest()) ==> Lowest())
      ensures bs == FreeAt(H, old(bs), k) && Live(bs) == Live(old(bs)) - {old(bs)[k]}
      ensures lf == LfAfterFree(old(bs), k, old(lf))
      ensures forall b :: b in Live(old(bs)) && b != old(bs)[k] ==> PayloadKept(old(ram.View()), ram.View(), b)
    {
      hide Laid; hide Chain; hide Stored; hide B.At; hide PayloadKept; hide FreeAt; hide UsedBytes; hide FreeBytes; hide Aligned; hide Tiled;
      hide PlugLfree; hide LfAfterFree; hide UsedBelow;
      ghost var m, bs0, cs := ram.View(), bs, bs[k := bs[k].(used := false)];
      TiledLaid(H, bs, End());
      FreeTiled(H, bs, End(), k);
      FreeEffect(H, bs, End(), k);
      FreeAligned(bs, End(), k);
      FreeOfMarked(bs, k);
      Bounds(H, bs, End(), k);
      ReleaseLfree(bs, End(), k, lf);
      MarkLaid(bs, End(), k, false);
      StoredAt(m, bs, End(), k);
      Mark(mem, false, bs, k);
      ghost var m1 := ram.View();
      StoredAt(m1, cs, End(), k);
      if mem < lfree { lfree := mem; }
      var h := ram.Load(mem);
      usedMem := usedMem - (h.next - mem);
      PlugHoles(mem, cs, k);
      forall b | b in Live(bs0) && b != bs0[k] ensures PayloadKept(m, ram.View(), b) {
        OthersLive(bs0, k, b);
        KeptThen(m, m1, ram.View(), b);
      }
      lf := LfAfterFree(bs, k, lf);
      bs := FreeAt(H, bs, k);
    }

    /** A client storing into its own payload cannot damage the heap. */
    method Store(p: int, i: int, v: W.Byte)
      requires Valid() && IsLive(p) && exists b :: b in Live(bs) && b.addr + H == p && 0 <= i < b.size
      modifies ram.bytes
      ensures Valid()
      ensures forall j :: 0 <= j < ram.bytes.Length ==> ram.bytes[j] == if j == p + i then v else old(ram.bytes[j])
      ensures forall b :: b in Live(bs) && b.addr + H != p ==> PayloadKept(old(ram.View()), ram.View(), b)
    {
      hide Stored; hide PayloadKept; hide Chain;
      ghost var b :| b in Live(bs) && b.addr + H == p && 0 <= i < b.size;
      ghost var k :| 0 <= k < |bs| && bs[k] == b;
      Bounds(H, bs, End(), k);
      ghost var m := ram.View();
      ram.bytes[p + i] := v;
      PayloadWrite(m, ram.View(), bs, End(), k);
    }

    /** The shrinking branch of rt_realloc: the surplus becomes a free block, joined with a free
        right neighbour. lfree moves only if it pointed at that neighbour, so it stays the lowest
        free block exactly when it lay below the shrunk block or was that neighbour. */
    method Shrink(ptr: int, newSize: int, ghost k: int)
      requires Valid() && 0 <= k < |bs| && bs[k].used && bs[k].addr == ptr
      requires 0 < newSize && newSize % 4 == 0 && newSize + H + MIN < bs[k].size
      modifies this, ram.bytes
      ensures Valid() && memSize == old(memSize) && maxMem == old(maxMem)
      ensures bs == ResizeAt(H, old(bs), k, newSize)
      ensures Live(bs) == Live(old(bs)) - {old(bs)[k]} + {Block(ptr, newSize, true)}
      ensures old(Lowest()) ==> (Lowest() <==> old(lf) < k || old(lf) == k + 1 < |old(bs)|)
      ensures forall b :: b in Live(old(bs)) && b != old(bs)[k] ==> PayloadKept(old(ram.View()), ram.View(), b)
      ensures PayloadKept(old(ram.View()), ram.View(), Block(ptr, newSize, true))
    {
      hide Laid; hide Chain; hide Stored; hide B.At; hide PayloadKept; hide FreeAt; hide UsedBytes; hide FreeBytes;
      hide Aligned; hide ResizeAt; hide CutAt; hide Tiled; hide PlugLfree; hide LfAfterShrink; hide UsedBelow; hide MergeHi; hide MergeLo;
      ghost var m, bs0, cs := ram.View(), bs, CutAt(bs, k, newSize);
      TiledLaid(H, bs, End());
      StoredAt(m, bs, End(), k);
      ShrinkTiled(bs, End(), k, newSize);
      ResizeEffect(H, bs, End(), k, newSize);
      ShrinkLfree(bs, End(), k, newSize, lf);
      CutThenPlug(bs, k, newSize);
      CutNext(bs, k, newSize);
      CutHalf(bs, k, newSize);
      CutLaid(bs, End(), k, newSize);
      var h := ram.Load(ptr);
      var size := h.next - ptr - H;
      usedMem := usedMem - (size - newSize);
      Split(ptr, newSize, k);
      ghost var m1 := ram.View();
      PlugHoles(ptr + H + newSize, cs, k + 1);
      forall b | b in Live(bs0) && b != bs0[k] ensures PayloadKept(m, ram.View(), b) {
        CutKeepsOthers(bs0, k, newSize, b);
        KeptThen(m, m1, ram.View(), b);
      }
      KeptThen(m, m1, ram.View(), Block(ptr, newSize, true));
      lf := LfAfterShrink(bs, k, lf);
      bs := ResizeAt(H, bs, k, newSize);
    }

    /** Replace block `k` by a new one that starts with the same bytes, or change nothing. */
    method Move(ptr: int, size: int, newSize: int, ghost k: int) returns (q: int, ghost g: Block, ghost j: int)
      requires Valid() && 0 <= k < |bs| && bs[k].used && bs[k].addr == ptr && bs[k].size == size && 0 < newSize < WORD && newSize % 4 == 0
      modifies this, ram.bytes
      ensures Valid() && memSize == old(memSize) && (old(Lowest()) ==> Lowest())
      ensures q == NULL <==> newSize > memSize || NoFit(old(bs), memSize, old(lf), Need(newSize))
      ensures old(Lowest()) ==> (q == NULL <==> newSize > memSize || OnlyExactLast(old(bs), Need(newSize)))
      ensures q == NULL ==> unchanged(this) && ram.View() == old(ram.View())
      ensures q != NULL ==> FirstFit(old(bs), memSize, old(lf), Need(newSize), j) && g == Granted(H, MIN, old(bs)[j], Need(newSize))[0]
      ensures q != NULL ==>
        && g.used && g.addr + H == q && newSize <= g.size && g.addr != ptr
        && Live(bs) == Live(old(bs)) - {old(bs)[k]} + {g}
        && SameStart(old(ram.View()), ptr + H, ram.View(), q, if size < newSize then size else newSize)
        && (forall b :: b in Live(old(bs)) && b != old(bs)[k] ==> PayloadKept(old(ram.View()), ram.View(), b))
        && maxMem == Peak(old(maxMem), old(usedMem) + H + g.size)
    {
      hide Laid; hide Chain; hide Stored; hide AllocAt; hide FreeAt; hide UsedBytes; hide FreeBytes; hide Aligned; hide Need; hide Fits;
      hide PayloadKept; hide SameStart; hide OnlyExactLast; hide UsedBelow;
      ghost var b, m0, bs0 := bs[k], ram.View(), bs;
      g, j := b, 0;
      AlignedIs(newSize);
      Bounds(H, bs, End(), k);
      q, j := Malloc(newSize);
      if q == NULL { return; }
      g := Granted(H, MIN, bs0[j], Need(newSize))[0];
      GrantedNew(bs0, End(), memSize, j, k, newSize);
      ghost var m1 := ram.View();
      assert b in Live(bs) && g in Live(bs);
      Transfer(ptr, q, if size < newSize then size else newSize, b, g);
      KeptStart(m0, m1, b, if size < newSize then size else newSize);
      SameStartThen(m0, m1, ram.View(), ram.View(), ptr + H, q, if size < newSize then size else newSize);
      forall c | c in Live(bs0) && c != b ensures PayloadKept(m0, ram.View(), c) { KeptThen(m0, m1, ram.View(), c); }
    }

    /** Copies the start of block `b` to block `g` and releases `b`. */
    method Transfer(ptr: int, q: int, n: int, ghost b: Block, ghost g: Block)
      requires Valid() && b in Live(bs) && g in Live(bs) && b != g && b.addr == ptr && g.addr + H == q && 0 <= n <= b.size && n <= g.size
      modifies this, ram.bytes
      ensures Valid() && memSize == old(memSize) && maxMem == old(maxMem) && (old(Lowest()) ==> Lowest())
      ensures Live(bs) == Live(old(bs)) - {b}
      ensures SameStart(old(ram.View()), ptr + H, ram.View(), q, n) && SameStart(ram.View(), q, ram.View(), q, n)
      ensures forall c :: c in Live(old(bs)) && c != b && c != g ==> PayloadKept(old(ram.View()), ram.View(), c)
    {
      hide Laid; hide Chain; hide Stored; hide FreeAt; hide UsedBytes; hide Aligned; hide PayloadKept; hide SameStart; hide UsedBelow; hide LfAfterFree;
      ghost var m1, live := ram.View(), Live(bs);
      ghost var gi, bi := IndexIn(g), IndexIn(b);
      Apart2(gi, bi);
      Apart2(bi, gi);
      CopyPayload(q, ptr + H, n, gi, bi);
      ghost var m2 := ram.View();
      Release(ptr, bi);
      Untouched(m1, b);
      KeptStart(m1, m1, b, n);
      KeptStart(m2, ram.View(), g, n);
      Untouched(ram.View(), g);
      KeptStart(ram.View(), ram.View(), g, n);
      SameStartThen(m1, m1, m2, ram.View(), ptr + H, q, n);
      forall c | c in live && c != b && c != g ensures PayloadKept(m1, ram.View(), c) { KeptThen(m1, m2, ram.View(), c); }
    }

    /** rt_memcpy from one block in use to another. */
    method CopyPayload(dst: int, src: int, n: int, ghost i: int, ghost j: int)
      requires Valid() && 0 <= i < |bs| && 0 <= j < |bs| && bs[i] != bs[j]
      requires dst == bs[i].addr + H && src == bs[j].addr + H && 0 <= n <= bs[i].size && n <= bs[j].size
      modifies ram.bytes
      ensures Valid() && SameStart(old(ram.View()), src, ram.View(), dst, n)
      ensures forall b :: b in bs && b != bs[i] ==> PayloadKept(old(ram.View()), ram.View(), b)
    {
      hide Laid; hide Chain; hide Stored; hide UsedBytes; hide Aligned; hide PayloadKept;
      Apart2(i, j);
      ghost var m := ram.View();
      ram.Copy(dst, src, n);
      PayloadWrite(m, ram.View(), bs, End(), i);
    }

    /** lfree is the first block that is not in use. */
    lemma LfreeAt(n: int)
      requires Valid() && Lowest() && 0 <= n < |bs| && !bs[n].used && forall i :: 0 <= i < n ==> bs[i].used
      ensures lfree == bs[n].addr
    {
      hide Laid; hide Chain; hide Stored; hide UsedBytes; hide Aligned;
    }

    lemma LiveAt(k: int)
      requires 0 <= k < |bs| && bs[k].used
      ensures IsLive(bs[k].addr + H)
    {
      assert bs[k] in Live(bs);
    }

    ghost function IndexIn(b: Block): (i: int)
      requires b in bs
      reads this
      ensures 0 <= i < |bs| && bs[i] == b
    {
      var i :| 0 <= i < |bs| && bs[i] == b;
      i
    }

    lemma Apart2(i: int, j: int)
      requires Valid() && 0 <= i < |bs| && 0 <= j < |bs| && bs[i] != bs[j]
      ensures 0 <= bs[i].addr && bs[i].addr + H + bs[i].size <= ram.bytes.Length - H && bs[i].size >= 0
      ensures 0 <= bs[j].addr && bs[j].addr + H + bs[j].size <= ram.bytes.Length - H
      ensures bs[i].addr + H + bs[i].size <= bs[j].addr || bs[j].addr + H + bs[j].size <= bs[i].addr
    {
      Bounds(H, bs, End(), i);
      Bounds(H, bs, End(), j);
      Disjoint(H, bs, bs[i], bs[j]);
    }

    /** rt_realloc. For a block in use it returns a block that starts with the first
        min(old size, new size) bytes of the old one and takes its place among the blocks in use,
        or NULL with nothing changed; the payloads of all other blocks stay as they are. */
    method Realloc(p: int, newSize: int) returns (q: int, ghost b: Block, ghost g: Block)
      requires Valid() && 0 <= newSize < WORD && (Outside(p) || IsLive(p))
      modifies this, ram.bytes
      ensures Valid() && memSize == old(memSize)
      ensures !old(Outside(p)) ==> b in Live(old(bs)) && b.addr + H == p
      ensures AlignUp(newSize) == 0 ==> q == NULL && Live(bs) == Live(old(bs)) - (if old(Outside(p)) then {} else {b})
      ensures AlignUp(newSize) > memSize || (AlignUp(newSize) > 0 && q == NULL) ==>
        q == NULL && unchanged(this) && ram.View() == old(ram.View())
      ensures 0 < AlignUp(newSize) <= memSize && old(Outside(p)) && p != NULL ==>
        q == p && unchanged(this) && ram.View() == old(ram.View())
      ensures 0 < AlignUp(newSize) <= memSize && p == NULL ==>
        (q == NULL <==> NoFit(old(bs), memSize, old(lf), Need(AlignUp(newSize))))
      ensures 0 < AlignUp(newSize) <= memSize && !old(Outside(p)) ==>
        && (q == p <==> Stays(b, AlignUp(newSize)))
        && (q == NULL <==> !Stays(b, AlignUp(newSize)) && NoFit(old(bs), memSize, old(lf), Need(AlignUp(newSize))))
      ensures 0 < AlignUp(newSize) <= memSize && old(Lowest()) ==>
        (NoFit(old(bs), memSize, old(lf), Need(AlignUp(newSize))) <==> OnlyExactLast(old(bs), Need(AlignUp(newSize))))
      ensures q == p && !old(Outside(p)) ==> g == Block(b.addr, AlignUp(newSize), true)
      ensures q != NULL && q != p ==> exists i ::
        FirstFit(old(bs), memSize, old(lf), Need(AlignUp(newSize)), i) && g == Granted(H, MIN, old(bs)[i], Need(AlignUp(newSize)))[0]
      ensures q != NULL && (p == NULL || !old(Outside(p))) ==>
        && g.used && g.addr + H == q && AlignUp(newSize) <= g.size
        && Live(bs) == Live(old(bs)) - (if p == NULL then {} else {b}) + {g}
      ensures q != NULL && !old(Outside(p)) ==>
        SameStart(old(ram.View()), p, ram.View(), q, if b.size < AlignUp(newSize) then b.size else AlignUp(newSize))
      ensures forall c :: c in Live(old(bs)) && (old(Outside(p)) || c != b) ==> PayloadKept(old(ram.View()), ram.View(), c)
      ensures maxMem == if q != NULL && q != p then Peak(old(maxMem), old(usedMem) + H + g.size) else old(maxMem)
      ensures old(Lowest()) ==>
        (Lowest() <==>
          !(!old(Outside(p)) && 0 < AlignUp(newSize) && AlignUp(newSize) + H + MIN < b.size && LeftBehind(old(lfree), memSize, p - H, b.size)))
    {
      hide Laid; hide Chain; hide Stored; hide AllocAt; hide FreeAt; hide ResizeAt; hide UsedBytes; hide Aligned;
      hide Need; hide PayloadKept; hide SameStart; hide AlignUp; hide B.At; hide Live; hide MergeLo; hide Granted; hide NoFit; hide LeftBehind; hide OnlyExactLast; hide AddrAt;
      ghost var k := 0;
      b, g, q := Block(0, 0, true), Block(0, 0, true), NULL;
      forall c ensures PayloadKept(ram.View(), ram.View(), c) { Untouched(ram.View(), c); }
      if !Outside(p) {
        k := Find(p);
        b := bs[k];
        Bounds(H, bs, End(), k);
      }
      AlignUpRange(newSize);
      var s := AlignUp(newSize);
      if s > memSize { return; }
      if s == 0 {
        if p < 0 || p >= memSize + H { return; }
        Release(p - H, k);
        return;
      }
      AlignUpTwice(newSize);
      NeedIs(s);
      if Lowest() { NothingFits(bs, memSize, lf, Need(s)); }
      if p == NULL {
        q, k := Malloc(s);
        if q != NULL {
          NeedCovers(s);
          g := Granted(H, MIN, old(bs)[k], Need(s))[0];
        }
        return;
      }
      if p < 0 || p >= memSize + H { q := p; return; }
      q, g := Resize(p, s, k);
    }

    /** What rt_realloc does with block `k`, whose payload is at `p`. */
    method Resize(p: int, s: int, ghost k: int) returns (q: int, ghost g: Block)
      requires Valid() && 0 <= k < |bs| && bs[k].used && bs[k].addr + H == p && 0 < s <= memSize && s % 4 == 0
      modifies this, ram.bytes
      ensures Valid() && memSize == old(memSize)
      ensures var b := old(bs)[k];
        && (q == p <==> Stays(b, s))
        && (q == NULL <==> !Stays(b, s) && NoFit(old(bs), memSize, old(lf), Need(s)))
        && (q == NULL ==> unchanged(this) && ram.View() == old(ram.View()))
        && (q == p ==> g == Block(b.addr, s, true))
        && (q != NULL && q != p ==> exists i :: FirstFit(old(bs), memSize, old(lf), Need(s), i) && g == Granted(H, MIN, old(bs)[i], Need(s))[0])
        && (q != NULL ==> g.used && g.addr + H == q && s <= g.size && Live(bs) == Live(old(bs)) - {b} + {g})
        && (q != NULL ==> SameStart(old(ram.View()), p, ram.View(), q, if b.size < s then b.size else s))
        && (forall c :: c in Live(old(bs)) && c != b ==> PayloadKept(old(ram.View()), ram.View(), c))
        && maxMem == (if q != NULL && q != p then Peak(old(maxMem), old(usedMem) + H + g.size) else old(maxMem))
        && (old(Lowest()) ==> (Lowest() <==> !(s + H + MIN < b.size && LeftBehind(old(lfree), memSize, p - H, b.size))))
    {
      hide Laid; hide Chain; hide Stored; hide ResizeAt; hide UsedBytes; hide Aligned; hide Need; hide PayloadKept; hide SameStart;
      hide B.At; hide Live; hide MergeLo; hide LeftBehind; hide OnlyExactLast; hide AddrAt; hide Granted; hide NoFit; hide FirstFit;
      ghost var b := bs[k];
      forall c ensures PayloadKept(ram.View(), ram.View(), c) { Untouched(ram.View(), c); }
      StoredAt(ram.View(), bs, End(), k);
      Bounds(H, bs, End(), k);
      KeptStart(ram.View(), ram.View(), b, b.size);
      assert b in Live(bs) by { InUse(bs, k); }
      var ptr := p - H;
      var h := ram.Load(ptr);
      var size := h.next - ptr - H;
      if size == s { q, g := p, b; return; }
      LeftBehindIs(bs, memSize, k, lf);
      if s + H + MIN < size {
        Shrink(ptr, s, k);
        q, g := p, Block(ptr, s, true);
        KeptStart(old(ram.View()), ram.View(), g, s);
      } else {
        ghost var i;
        q, g, i := Move(ptr, size, s, k);
      }
    }
  }

  /** Shrinking does leave lfree too high: of two neighbours in use with free memory behind them, the
      first is shrunk, and its surplus is free below lfree. */
  method ShrinkRun() returns (h: Heap)
    ensures fresh(h) && h.Valid() && !h.Lowest()
  {
    hide Heap.Valid; hide UsedBelow; hide AllocAt; hide OnlyExactLast; hide LeftBehind; hide Need; hide AlignUp; hide Live;
    hide PayloadKept; hide Granted; hide RegionSize; hide SameStart; hide Peak; hide Heap.IsLive;
    RunLayout();
    h := new Heap(0, 512);
    var p, k := h.Malloc(64);
    var q, j := h.Malloc(12);
    h.LfreeAt(2);
    h.LiveAt(0);
    var r, b, g := h.Realloc(p, 12);
    OneAt(b, p);
  }

  /** The blocks along that run. */
  lemma RunLayout()
    ensures RegionSize(0, 512) == 488 && AlignUp(64) == 64 == Need(64) && AlignUp(12) == 12 == Need(12)
    ensures !OnlyExactLast([Block(0, 488, false)], 64)
    ensures AllocAt(H, MIN, [Block(0, 488, false)], 0, 64) == [Block(0, 64, true), Block(76, 412, false)]
    ensures !OnlyExactLast([Block(0, 64, true), Block(76, 412, false)], 12)
    ensures AllocAt(H, MIN, [Block(0, 64, true), Block(76, 412, false)], 1, 12) ==
            [Block(0, 64, true), Block(76, 12, true), Block(100, 388, false)]
    ensures LeftBehind(100, 488, 0, 64)
  {
    var a, b := [Block(0, 488, false)], [Block(0, 64, true), Block(76, 412, false)];
    assert !a[0].used && !b[1].used;
  }

  lemma OneAt(b: Block, p: int)
    requires b in Live([Block(0, 64, true), Block(76, 12, true), Block(100, 388, false)]) && b.addr + H == p == H
    ensures b == Block(0, 64, true)
  {}
}
