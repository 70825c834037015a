/** The zone layer of the slab heap (src/slab.c): chunks of one size are carved out of zones of
    several pages; a per-page usage table leads from a pointer back to its zone. */
module SlabZones {
  import SP = SlabPages

  const PAGE := 4096
  const NZONES := 72
  const RELEASE_THRESH := 2    // ZONE_RELEASE_THRESH
  const ZONE_HEADER := 36      // sizeof(slab_zone)

  // ---- size classes ---------------------------------------------------------------------

  /** zoneindex: the index of a size class and its chunk size. */
  function Class(n: int): (int, int) {
    if n < 128 then ((n + 7) / 8 - 1, (n + 7) / 8 * 8)
    else if n < 256 then ((n + 15) / 16 + 7, (n + 15) / 16 * 16)
    else if n < 512 then ((n + 31) / 32 + 15, (n + 31) / 32 * 32)
    else if n < 1024 then ((n + 63) / 64 + 23, (n + 63) / 64 * 64)
    else if n < 2048 then ((n + 127) / 128 + 31, (n + 127) / 128 * 128)
    else if n < 4096 then ((n + 255) / 256 + 39, (n + 255) / 256 * 256)
    else if n < 8192 then ((n + 511) / 512 + 47, (n + 511) / 512 * 512)
    else if n < 16384 then ((n + 1023) / 1024 + 55, (n + 1023) / 1024 * 1024)
    else (0, n)
  }

  /** The chunk size an index stands for. */
  function ChunkOf(zi: int): int {
    if zi < 16 then (zi + 1) * 8
    else if zi < 24 then (zi - 7) * 16
    else if zi < 32 then (zi - 15) * 32
    else if zi < 40 then (zi - 23) * 64
    else if zi < 48 then (zi - 31) * 128
    else if zi < 56 then (zi - 39) * 256
    else if zi < 64 then (zi - 47) * 512
    else (zi - 55) * 1024
  }

  lemma ClassSmall(n: int)
    requires 0 < n < 256
    ensures 0 <= Class(n).0 < NZONES
    ensures Class(n).1 == ChunkOf(Class(n).0) && 8 <= Class(n).1 <= 16384
    ensures n <= ChunkOf(Class(n).0) && (Class(n).0 > 0 ==> ChunkOf(Class(n).0 - 1) < n)
  {}

  lemma ClassMiddle(n: int)
    requires 256 <= n < 1024
    ensures 0 <= Class(n).0 < NZONES
    ensures Class(n).1 == ChunkOf(Class(n).0) && 8 <= Class(n).1 <= 16384
    ensures n <= ChunkOf(Class(n).0) && (Class(n).0 > 0 ==> ChunkOf(Class(n).0 - 1) < n)
  {}

  lemma ClassLarge(n: int)
    requires 1024 <= n < 4096
    ensures 0 <= Class(n).0 < NZONES
    ensures Class(n).1 == ChunkOf(Class(n).0) && 8 <= Class(n).1 <= 16384
    ensures n <= ChunkOf(Class(n).0) && (Class(n).0 > 0 ==> ChunkOf(Class(n).0 - 1) < n)
  {}

  lemma ClassHuge(n: int)
    requires 4096 <= n < 16384
    ensures 0 <= Class(n).0 < NZONES
    ensures Class(n).1 == ChunkOf(Class(n).0) && 8 <= Class(n).1 <= 16384
    ensures n <= ChunkOf(Class(n).0) && (Class(n).0 > 0 ==> ChunkOf(Class(n).0 - 1) < n)
  {}

  /** Every request below 16 KiB gets the smallest class whose chunks hold it, and the index alone
      determines the chunk size. */
  lemma ClassIsLeast(n: int)
    requires 0 < n < 16384
    ensures 0 <= Class(n).0 < NZONES
    ensures Class(n).1 == ChunkOf(Class(n).0) && 8 <= Class(n).1 <= 16384
    ensures n <= ChunkOf(Class(n).0)
    ensures forall zi :: 0 <= zi < Class(n).0 ==> ChunkOf(zi) < n
  {
    hide Class; hide ChunkOf;
    if n < 256 { ClassSmall(n); } else if n < 1024 { ClassMiddle(n); } else if n < 4096 { ClassLarge(n); } else { ClassHuge(n); }
    forall zi | 0 <= zi < Class(n).0 ensures ChunkOf(zi) < n { ChunkIncreases(zi, Class(n).0 - 1); }
  }

  lemma ChunkIncreases(i: int, j: int)
    requires 0 <= i <= j < NZONES
    ensures ChunkOf(i) <= ChunkOf(j)
  {}

  // ---- one zone ----------------------------------------------------------------------------

  /** struct slab_zone. Chunks are numbered within the zone; `free` lists the returned ones. */
  datatype Zone = Zone(nfree: int, nmax: int, off: int, uindex: int, chunk: int, index: int, free: seq<int>)

  ghost predicate Distinct(s: seq<int>) {
    forall i, j :: 0 <= i < j < |s| ==> s[i] != s[j]
  }

  /** The counters agree: free chunks are the never-used tail plus the returned ones. */
  ghost predicate Counted(z: Zone) {
    && 0 <= z.uindex < z.nmax
    && z.nfree == (z.nmax - 1 - z.uindex) + |z.free|
    && Distinct(z.free)
    && forall i :: i in z.free ==> 0 <= i <= z.uindex
  }

  /** Chunk `i` is handed out. */
  ghost predicate Out(z: Zone, i: int) {
    0 <= i <= z.uindex && i !in z.free
  }

  /** Taking a chunk: the next never-used one, or else the last returned one. */
  function TakeChunk(z: Zone): (Zone, int)
    requires z.uindex + 1 == z.nmax ==> z.free != []
  {
    if z.uindex + 1 != z.nmax then (z.(nfree := z.nfree - 1, uindex := z.uindex + 1), z.uindex + 1)
    else (z.(nfree := z.nfree - 1, free := z.free[1..]), z.free[0])
  }

  function GiveChunk(z: Zone, i: int): Zone {
    z.(nfree := z.nfree + 1, free := [i] + z.free)
  }

  /** A zone that says it has free chunks has one, it was not handed out, and now it is. */
  lemma TakeChunkCounts(z: Zone)
    requires Counted(z) && z.nfree > 0
    ensures z.uindex + 1 == z.nmax ==> z.free != []
    ensures var (z', i) := TakeChunk(z);
      && Counted(z') && z'.nfree == z.nfree - 1 && !Out(z, i)
      && forall j :: Out(z', j) <==> Out(z, j) || j == i
  {
    if z.uindex + 1 == z.nmax {
      var f := z.free;
      assert f == [f[0]] + f[1..];
      assert forall j :: j in f <==> j == f[0] || j in f[1..];
      assert forall j :: 0 <= j < |f[1..]| ==> f[1..][j] == f[j + 1];
    }
  }

  lemma GiveChunkCounts(z: Zone, i: int)
    requires Counted(z) && Out(z, i)
    ensures var z' := GiveChunk(z, i); Counted(z') && forall j :: Out(z', j) <==> Out(z, j) && j != i
  {
    var s := [i] + z.free;
    assert forall j :: 0 < j < |s| ==> s[j] == z.free[j - 1];
  }

  lemma {:induction false} DistinctWithin(s: seq<int>, n: int)
    requires Distinct(s) && n >= 0 && forall x :: x in s ==> 0 <= x < n
    ensures |s| <= n
    ensures |s| == n ==> forall x :: 0 <= x < n ==> x in s
  {
    var elems := set x | x in s;
    DistinctCard(s);
    var range := SP.Range(0, n);
    RangeCard(n);
    CardSubset(elems, range);
    if |s| == n {
      forall x | 0 <= x < n ensures x in s { assert x in range; }
    }
  }

  lemma {:induction false} DistinctCard(s: seq<int>)
    requires Distinct(s)
    ensures |set x | x in s| == |s|
  {
    if s != [] {
      var last := s[|s| - 1];
      var r := s[..|s| - 1];
      DistinctCard(r);
      assert (set x | x in s) == (set x | x in r) + {last};
    }
  }

  lemma {:induction false} RangeCard(n: int)
    requires n >= 0
    ensures |SP.Range(0, n)| == n
  {
    if n > 0 {
      RangeCard(n - 1);
      assert SP.Range(0, n) == SP.Range(0, n - 1) + {n - 1};
    } else {
      assert SP.Range(0, 0) == {};
    }
  }

  lemma CardSubset(a: set<int>, b: set<int>)
    requires a <= b
    ensures |a| <= |b| && (|a| == |b| ==> a == b)
  {
    var rest := b - a;
    assert b == a + rest && a !! rest;
    assert |b| == |a| + |rest|;
    if |a| == |b| { assert rest == {}; }
  }

  /** nfree stays within bounds, and reaches nmax exactly when no chunk is handed out. */
  lemma FullIffNoneOut(z: Zone)
    requires Counted(z)
    ensures 0 <= z.nfree <= z.nmax
    ensures z.nfree == z.nmax <==> forall i :: !Out(z, i)
  {
    DistinctWithin(z.free, z.uindex + 1);
    if forall i :: !Out(z, i) {
      forall x | 0 <= x <= z.uindex ensures x in z.free { assert !Out(z, x); }
      AllWithin(z.free, z.uindex + 1);
    }
  }

  lemma AllWithin(s: seq<int>, n: int)
    requires Distinct(s) && n >= 0 && (forall x :: x in s ==> 0 <= x < n) && forall x :: 0 <= x < n ==> x in s
    ensures |s| == n
  {
    DistinctCard(s);
    RangeCard(n);
    assert (set x | x in s) == SP.Range(0, n);
  }

  // ---- chunk addresses and the usage table -----------------------------------------------------

  /** The address of chunk `i` of the zone that starts at page `a`. */
  function ChunkAddr(a: int, z: Zone, i: int): int {
    a * PAGE + z.off + i * z.chunk
  }

  /** The chunk array fits behind the header of a zone of `pages` pages. */
  ghost predicate Fits(z: Zone, pages: int) {
    0 <= z.index < NZONES && z.chunk == ChunkOf(z.index) && ZONE_HEADER <= z.off && z.off + z.nmax * z.chunk <= pages * PAGE
  }

  lemma ChunkPositive(z: Zone, pages: int)
    requires Fits(z, pages)
    ensures z.chunk >= 8
  {
    ChunkIncreases(0, z.index);
  }

  /** Different chunks do not overlap and lie inside the zone behind its header. */
  lemma ChunksApart(a: int, z: Zone, pages: int, i: int, j: int)
    requires Fits(z, pages) && 0 <= i < j < z.nmax
    ensures a * PAGE + ZONE_HEADER <= ChunkAddr(a, z, i)
    ensures ChunkAddr(a, z, i) + z.chunk <= ChunkAddr(a, z, j)
    ensures ChunkAddr(a, z, j) + z.chunk <= (a + pages) * PAGE
  {
    ChunkPositive(z, pages);
    Steps(i, j, z.chunk);
    Steps(j, z.nmax, z.chunk);
    MulMonotone(0, i, z.chunk);
  }

  lemma Steps(x: int, y: int, c: int)
    requires x < y && c >= 0
    ensures x * c + c <= y * c
  {
    MulMonotone(x + 1, y, c);
  }

  lemma MulMonotone(x: int, y: int, c: int)
    requires x <= y && c >= 0
    ensures x * c <= y * c
  {}

  lemma ChunkInside(a: int, z: Zone, pages: int, i: int)
    requires Fits(z, pages) && 0 <= i < z.nmax
    ensures a * PAGE + ZONE_HEADER <= ChunkAddr(a, z, i) && ChunkAddr(a, z, i) + z.chunk <= (a + pages) * PAGE
    ensures a <= ChunkAddr(a, z, i) / PAGE < a + pages
    ensures (ChunkAddr(a, z, i) - a * PAGE - z.off) / z.chunk == i
  {
    ChunkPositive(z, pages);
    ChunkBounds(z.off, z.chunk, z.nmax, pages * PAGE, i);
    DivExact(i, z.chunk);
  }

  lemma ChunkBounds(off: int, chunk: int, nmax: int, room: int, i: int)
    requires off + nmax * chunk <= room && 0 <= i < nmax && chunk > 0
    ensures 0 <= i * chunk && off + i * chunk + chunk <= room
  {
    MulMonotone(i + 1, nmax, chunk);
    MulMonotone(0, i, chunk);
    assert (i + 1) * chunk == i * chunk + chunk;
  }

  lemma DivExact(i: int, c: int)
    requires c > 0
    ensures i * c / c == i
  {
    var q, r := i * c / c, i * c % c;
    assert i * c == q * c + r;
    if q < i { MulMonotone(q + 1, i, c); } else { MulMonotone(i, q, c); if i < q { MulMonotone(i + 1, q, c); } }
  }

  /** Page usage: PAGE_TYPE_FREE, _SMALL with the offset of the page in its zone, _LARGE with a count. */
  datatype Usage = Free | Small(off: int) | Large(count: int)

  /** Every page of every zone says how far it is from the start of its zone. */
  ghost predicate Charted(zones: map<int, Zone>, usage: map<int, Usage>, pages: int) {
    forall a, o :: a in zones && 0 <= o < pages ==> Marked(usage, a, o)
  }

  ghost predicate Marked(usage: map<int, Usage>, a: int, o: int) {
    a + o in usage && usage[a + o] == Small(o)
  }

  /** The table leads from any chunk address back to its zone and chunk. */
  lemma LookupFindsZone(zones: map<int, Zone>, usage: map<int, Usage>, pages: int, a: int, i: int)
    requires Charted(zones, usage, pages) && a in zones && Fits(zones[a], pages) && 0 <= i < zones[a].nmax
    ensures var ptr := ChunkAddr(a, zones[a], i);
      && ptr / PAGE in usage && usage[ptr / PAGE].Small? && ptr / PAGE - usage[ptr / PAGE].off == a
      && (ptr - a * PAGE - zones[a].off) / zones[a].chunk == i
  {
    ChunkInside(a, zones[a], pages, i);
    var o := ChunkAddr(a, zones[a], i) / PAGE - a;
    assert Marked(usage, a, o);
  }

  // ---- all zones -----------------------------------------------------------------------------

  /** The zone bookkeeping: zone headers, zone_free, zone_array and memusage. */
  datatype Zones = Zones(zone: map<int, Zone>, idle: seq<int>, lists: seq<seq<int>>, usage: map<int, Usage>)

  /** A zone that serves requests, as opposed to one waiting on zone_free. */
  ghost predicate Serving(s: Zones, a: int) {
    a in s.zone && a !in s.idle
  }

  /** Chunk `i` of the zone at page `a` is in the hands of a caller. */
  ghost predicate IsOut(s: Zones, a: int, i: int) {
    Serving(s, a) && Out(s.zone[a], i)
  }

  ghost predicate Belongs(s: Zones, a: int, zi: int) {
    Serving(s, a) && s.zone[a].index == zi && s.zone[a].nfree > 0
  }

  /** Every serving zone is counted and fits; list `zi` holds exactly the serving zones of class `zi`
      that have a free chunk; idle zones are listed once; zones do not overlap. */
  ghost predicate Sound(s: Zones, pages: int) {
    && (forall a :: Serving(s, a) ==> Counted(s.zone[a]) && Fits(s.zone[a], pages))
    && |s.lists| == NZONES
    && (forall zi :: 0 <= zi < NZONES ==> Distinct(s.lists[zi]))
    && (forall zi, a :: 0 <= zi < NZONES ==> (a in s.lists[zi] <==> Belongs(s, a, zi)))
    && Distinct(s.idle)
    && (forall a :: a in s.idle ==> a in s.zone)
    && (forall a, b :: a in s.zone && b in s.zone && a != b ==> a + pages <= b || b + pages <= a)
    && Charted(s.zone, s.usage, pages)
  }

  /** Allocation from the first zone on the list of its class. */
  ghost function TakeStep(s: Zones, zi: int): Zones
    requires 0 <= zi < |s.lists| && s.lists[zi] != [] && s.lists[zi][0] in s.zone
    requires s.zone[s.lists[zi][0]].uindex + 1 == s.zone[s.lists[zi][0]].nmax ==> s.zone[s.lists[zi][0]].free != []
  {
    var a := s.lists[zi][0];
    var z' := TakeChunk(s.zone[a]).0;
    s.(zone := s.zone[a := z'], lists := if z'.nfree == 0 then s.lists[zi := s.lists[zi][1..]] else s.lists)
  }

  lemma TakeStepSound(s: Zones, pages: int, zi: int)
    requires Sound(s, pages) && 0 <= zi < NZONES && s.lists[zi] != []
    ensures var a := s.lists[zi][0];
      && Belongs(s, a, zi)
      && (s.zone[a].uindex + 1 == s.zone[a].nmax ==> s.zone[a].free != [])
      && var i := TakeChunk(s.zone[a]).1;
      && Sound(TakeStep(s, zi), pages)
      && !IsOut(s, a, i)
      && (forall b, j :: IsOut(TakeStep(s, zi), b, j) <==> IsOut(s, b, j) || (b == a && j == i))
  {
    var l := s.lists[zi];
    var a := l[0];
    assert a in l;
    assert Belongs(s, a, zi);
    TakeChunkCounts(s.zone[a]);
    var t := TakeStep(s, zi);
    TailMembers(l);
    forall zj, b | 0 <= zj < NZONES ensures b in t.lists[zj] <==> Belongs(t, b, zj) {
      assert b in s.lists[zj] <==> Belongs(s, b, zj);
    }
  }

  lemma TailMembers(l: seq<int>)
    requires l != [] && Distinct(l)
    ensures Distinct(l[1..]) && forall x :: x in l[1..] <==> x in l && x != l[0]
  {
    assert l == [l[0]] + l[1..];
    assert forall i :: 0 <= i < |l| - 1 ==> l[1..][i] == l[i + 1];
  }

  lemma ConsMembers(x: int, l: seq<int>)
    requires x !in l && Distinct(l)
    ensures Distinct([x] + l) && forall y :: y in [x] + l <==> y == x || y in l
  {
    assert forall i :: 0 < i < |l| + 1 ==> ([x] + l)[i] == l[i - 1];
  }

  /** A zone taken off zone_free starts serving class `z.index`. */
  ghost function OpenIdle(s: Zones, z: Zone): Zones
    requires s.idle != [] && 0 <= z.index < |s.lists|
  {
    var a := s.idle[0];
    s.(zone := s.zone[a := z], idle := s.idle[1..], lists := s.lists[z.index := [a] + s.lists[z.index]])
  }

  /** A zone of fresh pages starts serving class `z.index`. */
  ghost function OpenFresh(s: Zones, a: int, z: Zone, pages: int): Zones
    requires 0 <= z.index < |s.lists|
  {
    s.(zone := s.zone[a := z], lists := s.lists[z.index := [a] + s.lists[z.index]], usage := Stamp(s.usage, a, pages))
  }

  /** The pages of a new zone marked with their offsets. */
  ghost function Stamp(usage: map<int, Usage>, a: int, n: int): map<int, Usage> {
    var hi := a + n;
    usage + map p | p in SP.Range(a, hi) :: Small(p - a)
  }

  lemma OpenIdleSound(s: Zones, pages: int, z: Zone)
    requires Sound(s, pages) && s.idle != [] && Counted(z) && Fits(z, pages) && z.nfree > 0
    ensures Sound(OpenIdle(s, z), pages)
    ensures forall b, j :: IsOut(OpenIdle(s, z), b, j) <==> IsOut(s, b, j) || (b == s.idle[0] && Out(z, j))
    ensures forall j :: !IsOut(s, s.idle[0], j)
  {
    var t, a := OpenIdle(s, z), s.idle[0];
    assert a in s.idle;
    TailMembers(s.idle);
    assert !Belongs(s, a, z.index);
    ConsMembers(a, s.lists[z.index]);
    forall zj, b | 0 <= zj < NZONES ensures b in t.lists[zj] <==> Belongs(t, b, zj) {
      assert b in s.lists[zj] <==> Belongs(s, b, zj);
    }
  }

  lemma OpenFreshSound(s: Zones, pages: int, a: int, z: Zone)
    requires Sound(s, pages) && Counted(z) && Fits(z, pages) && z.nfree > 0 && pages > 0
    requires forall b :: b in s.zone ==> a + pages <= b || b + pages <= a
    ensures Sound(OpenFresh(s, a, z, pages), pages)
    ensures forall b, j :: IsOut(OpenFresh(s, a, z, pages), b, j) <==> IsOut(s, b, j) || (b == a && Out(z, j))
    ensures a !in s.zone
  {
    var t := OpenFresh(s, a, z, pages);
    assert !Belongs(s, a, z.index);
    ConsMembers(a, s.lists[z.index]);
    forall zj, b | 0 <= zj < NZONES ensures b in t.lists[zj] <==> Belongs(t, b, zj) {
      assert b in s.lists[zj] <==> Belongs(s, b, zj);
    }
    StampCharts(s, a, z, pages);
  }

  lemma StampCharts(s: Zones, a: int, z: Zone, pages: int)
    requires Charted(s.zone, s.usage, pages) && pages > 0
    requires forall b :: b in s.zone ==> a + pages <= b || b + pages <= a
    ensures Charted(s.zone[a := z], Stamp(s.usage, a, pages), pages)
  {
    forall b, o | b in s.zone[a := z] && 0 <= o < pages ensures Marked(Stamp(s.usage, a, pages), b, o) {
      if b != a { assert Marked(s.usage, b, o); }
    }
  }

  /** A chunk comes back; a zone that had none left returns to its list. */
  ghost function GiveStep(s: Zones, a: int, i: int): Zones
    requires a in s.zone && 0 <= s.zone[a].index < |s.lists|
  {
    var z := s.zone[a];
    s.(zone := s.zone[a := GiveChunk(z, i)],
       lists := if z.nfree == 0 then s.lists[z.index := [a] + s.lists[z.index]] else s.lists)
  }

  lemma GiveStepSound(s: Zones, pages: int, a: int, i: int)
    requires Sound(s, pages) && IsOut(s, a, i)
    ensures 0 <= s.zone[a].index < NZONES && Sound(GiveStep(s, a, i), pages)
    ensures Belongs(GiveStep(s, a, i), a, s.zone[a].index)
    ensures forall b, j :: IsOut(GiveStep(s, a, i), b, j) <==> IsOut(s, b, j) && !(b == a && j == i)
  {
    var z := s.zone[a];
    assert Counted(z) && Fits(z, pages);
    GiveChunkCounts(z, i);
    FullIffNoneOut(z);
    var t := GiveStep(s, a, i);
    if z.nfree == 0 {
      assert !Belongs(s, a, z.index);
      ConsMembers(a, s.lists[z.index]);
    }
    forall zj, b | 0 <= zj < NZONES ensures b in t.lists[zj] <==> Belongs(t, b, zj) {
      assert b in s.lists[zj] <==> Belongs(s, b, zj);
    }
  }

  function Without(l: seq<int>, x: int): seq<int> {
    if l == [] then [] else if l[0] == x then l[1..] else [l[0]] + Without(l[1..], x)
  }

  lemma {:induction false} WithoutMembers(l: seq<int>, x: int)
    requires Distinct(l)
    ensures Distinct(Without(l, x)) && forall y :: y in Without(l, x) <==> y in l && y != x
  {
    if l != [] {
      TailMembers(l);
      if l[0] != x {
        WithoutMembers(l[1..], x);
        ConsMembers(l[0], Without(l[1..], x));
      }
    }
  }

  /** An entirely free zone moves to zone_free. */
  ghost function RetireStep(s: Zones, a: int): Zones
    requires a in s.zone && 0 <= s.zone[a].index < |s.lists|
  {
    var zi := s.zone[a].index;
    s.(lists := s.lists[zi := Without(s.lists[zi], a)], idle := [a] + s.idle)
  }

  lemma RetireStepSound(s: Zones, pages: int, a: int)
    requires Sound(s, pages) && Serving(s, a) && s.zone[a].nfree == s.zone[a].nmax
    ensures 0 <= s.zone[a].index < NZONES && Sound(RetireStep(s, a), pages)
    ensures forall b, j :: IsOut(RetireStep(s, a), b, j) <==> IsOut(s, b, j)
  {
    var z, t := s.zone[a], RetireStep(s, a);
    assert Counted(z) && Fits(z, pages);
    FullIffNoneOut(z);
    WithoutMembers(s.lists[z.index], a);
    ConsMembers(a, s.idle);
    forall zj, b | 0 <= zj < NZONES ensures b in t.lists[zj] <==> Belongs(t, b, zj) {
      assert b in s.lists[zj] <==> Belongs(s, b, zj);
    }
  }

  /** The first idle zone goes back to the page allocator. */
  ghost function ReleaseStep(s: Zones, pages: int): Zones
    requires s.idle != []
  {
    var a := s.idle[0];
    s.(zone := s.zone - {a}, idle := s.idle[1..], usage := Clear(s.usage, a, pages))
  }

  ghost function Clear(usage: map<int, Usage>, a: int, n: int): map<int, Usage> {
    var hi := a + n;
    usage + map p | p in SP.Range(a, hi) :: Free
  }

  lemma ReleaseStepSound(s: Zones, pages: int)
    requires Sound(s, pages) && s.idle != [] && pages > 0
    ensures Sound(ReleaseStep(s, pages), pages)
    ensures forall b, j :: IsOut(ReleaseStep(s, pages), b, j) <==> IsOut(s, b, j)
    ensures var t, a := ReleaseStep(s, pages), s.idle[0];
      && (forall p :: a <= p < a + pages ==> p in t.usage && t.usage[p] == Free)
      && (forall p :: p in s.usage && !(a <= p < a + pages) ==> p in t.usage && t.usage[p] == s.usage[p])
  {
    var t, a := ReleaseStep(s, pages), s.idle[0];
    assert a in s.idle;
    TailMembers(s.idle);
    forall zj, b | 0 <= zj < NZONES ensures b in t.lists[zj] <==> Belongs(t, b, zj) {
      assert b in s.lists[zj] <==> Belongs(s, b, zj);
    }
    forall b, o | b in t.zone && 0 <= o < pages ensures Marked(t.usage, b, o) {
      assert Marked(s.usage, b, o);
    }
  }

  // ---- the heap ---------------------------------------------------------------------------------

  predicate IsPowerOfTwo(c: int) {
    c in {8, 16, 32, 64, 128, 256, 512, 1024, 2048, 4096, 8192, 16384}
  }

  /** Where the chunks of a new zone start: aligned to the chunk size if that is a power of two,
      otherwise to eight bytes. */
  function ChunkStart(c: int): int {
    if c == 8 then 40 else if c == 16 then 48 else if c == 32 then 64
    else if IsPowerOfTwo(c) then c else 40
  }

  /** Chunks start as early as their alignment allows: at a multiple of their size if that is a power of
      two, otherwise of eight. */
  lemma ChunkStartAligned(c: int)
    requires 8 <= c <= 16384
    ensures var u := if IsPowerOfTwo(c) then c else 8; ChunkStart(c) % u == 0 && ZONE_HEADER <= ChunkStart(c) < ZONE_HEADER + u
  {}

  /** A zone freshly set up for class `zi`, its first chunk already handed out. */
  function NewZone(zi: int, pages: int): Zone
    requires ChunkOf(zi) > 0
  {
    var c := ChunkOf(zi);
    var nmax := (pages * PAGE - ChunkStart(c)) / c;
    Zone(nmax - 1, nmax, ChunkStart(c), 0, c, zi, [])
  }

  /** A new zone always has a chunk to spare, because requests stop at a quarter of a zone. */
  lemma NewZoneFits(zi: int, pages: int)
    requires 0 <= zi < NZONES && pages in {8, 16, 32} && 4 * ChunkOf(zi) <= pages * PAGE && 8 <= ChunkOf(zi) <= 16384
    ensures var z := NewZone(zi, pages); Counted(z) && Fits(z, pages) && z.nfree > 0 && forall j :: Out(z, j) <==> j == 0
  {
    hide ChunkOf; hide ChunkStart;
    var c, room := ChunkOf(zi), pages * PAGE - ChunkStart(ChunkOf(zi));
    ChunkStartBound(c);
    DivAtLeast(room, c, 2);
  }

  lemma ChunkStartBound(c: int)
    requires 8 <= c
    ensures ZONE_HEADER <= ChunkStart(c) <= c + 32
  {}

  lemma DivAtLeast(x: int, c: int, k: int)
    requires c > 0 && x >= k * c && k >= 0
    ensures x / c >= k && x / c * c <= x
  {
    var q, r := x / c, x % c;
    assert x == q * c + r;
    if q < k { MulMonotone(q + 1, k, c); }
  }

  ghost predicate Apart(a: int, n: int, b: int, m: int) {
    a + n <= b || b + m <= a
  }

  lemma RangesApart(a: int, n: int, b: int, m: int)
    requires n > 0 && m > 0 && SP.Range(a, a + n) !! SP.Range(b, b + m)
    ensures Apart(a, n, b, m)
  {
    assert a in SP.Range(a, a + n) && b in SP.Range(b, b + m);
    assert b <= a < b + m ==> a in SP.Range(b, b + m);
    assert a <= b < a + n ==> b in SP.Range(a, a + n);
  }

  /** Pages are owned at most once: by the page list, by a zone, or by a large block. */
  ghost predicate Owned(s: Zones, large: map<int, int>, list: seq<SP.Run>, pages: int) {
    && (forall a :: a in s.zone ==> a >= 0 && SP.Range(a, a + pages) !! SP.Pages(list))
    && (forall l :: l in large ==> l >= 0 && large[l] > 0 && SP.Range(l, l + large[l]) !! SP.Pages(list))
    && (forall l, a :: l in large && a in s.zone ==> Apart(l, large[l], a, pages))
    && (forall l, m :: l in large && m in large && l != m ==> Apart(l, large[l], m, large[m]))
    && (forall l :: l in large ==> l in s.usage && s.usage[l] == Large(large[l]))
  }

  /** Pages just taken off the list belong to nobody else. */
  lemma TakenApart(s: Zones, large: map<int, int>, list: seq<SP.Run>, pages: int, b: int, n: int)
    requires Owned(s, large, list, pages) && pages > 0 && n > 0 && SP.Range(b, b + n) <= SP.Pages(list)
    ensures forall a :: a in s.zone ==> Apart(b, n, a, pages)
    ensures forall l :: l in large ==> Apart(l, large[l], b, n) && l != b
  {
    forall a | a in s.zone ensures Apart(b, n, a, pages) { RangesApart(b, n, a, pages); }
    forall l | l in large ensures Apart(l, large[l], b, n) && l != b { RangesApart(l, large[l], b, n); }
  }

  lemma OpenFreshOwned(s: Zones, large: map<int, int>, list: seq<SP.Run>, list': seq<SP.Run>, pages: int, a: int, z: Zone)
    requires Owned(s, large, list, pages) && pages > 0 && a >= 0 && 0 <= z.index < |s.lists|
    requires SP.Range(a, a + pages) <= SP.Pages(list) && SP.Pages(list') == SP.Pages(list) - SP.Range(a, a + pages)
    ensures Owned(OpenFresh(s, a, z, pages), large, list', pages)
  {
    hide SP.Pages;
    TakenApart(s, large, list, pages, a, pages);
    var t := OpenFresh(s, a, z, pages);
    forall l | l in large ensures l in t.usage && t.usage[l] == Large(large[l]) {
      assert Apart(l, large[l], a, pages);
    }
  }

  /** Writing the usage of a page outside all zones concerns no zone. */
  lemma UsageWrite(s: Zones, pages: int, b: int, u: Usage)
    requires Sound(s, pages) && forall a :: a in s.zone ==> b < a || a + pages <= b
    ensures var t := s.(usage := s.usage[b := u]); Sound(t, pages) && forall a, i :: IsOut(t, a, i) <==> IsOut(s, a, i)
  {
    var t := s.(usage := s.usage[b := u]);
    forall a, o | a in t.zone && 0 <= o < pages ensures Marked(t.usage, a, o) { assert Marked(s.usage, a, o); }
    forall zj, a | 0 <= zj < NZONES ensures a in t.lists[zj] <==> Belongs(t, a, zj) {
      assert a in s.lists[zj] <==> Belongs(s, a, zj);
    }
  }

  lemma LargeOwned(s: Zones, large: map<int, int>, list: seq<SP.Run>, list': seq<SP.Run>, pages: int, b: int, n: int)
    requires Owned(s, large, list, pages) && pages > 0 && b >= 0 && n > 0 && Sound(s, pages)
    requires SP.Range(b, b + n) <= SP.Pages(list) && SP.Pages(list') == SP.Pages(list) - SP.Range(b, b + n)
    ensures var t := s.(usage := s.usage[b := Large(n)]);
      Owned(t, large[b := n], list', pages) && Sound(t, pages) && forall a, i :: IsOut(t, a, i) <==> IsOut(s, a, i)
  {
    hide Owned; hide Sound; hide SP.Pages; hide SP.Range; hide IsOut;
    TakenApart(s, large, list, pages, b, n);
    UsageWrite(s, pages, b, Large(n));
    LargeTaken(s, large, list, list', pages, b, n);
  }

  lemma LargeTaken(s: Zones, large: map<int, int>, list: seq<SP.Run>, list': seq<SP.Run>, pages: int, b: int, n: int)
    requires Owned(s, large, list, pages) && pages > 0 && b >= 0 && n > 0
    requires SP.Range(b, b + n) <= SP.Pages(list) && SP.Pages(list') == SP.Pages(list) - SP.Range(b, b + n)
    ensures Owned(s.(usage := s.usage[b := Large(n)]), large[b := n], list', pages)
  {
    hide SP.Pages; hide SP.Range; hide Apart;
    TakenApart(s, large, list, pages, b, n);
    forall a | a in s.zone ensures SP.Range(a, a + pages) !! SP.Pages(list') {}
    forall l | l in large ensures SP.Range(l, l + large[l]) !! SP.Pages(list') {}
    assert SP.Range(b, b + n) !! SP.Pages(list');
    forall l | l in large ensures Apart(b, n, l, large[l]) { ApartBack(l, large[l], b, n); }
  }

  lemma ApartBack(a: int, n: int, b: int, m: int)
    requires Apart(a, n, b, m)
    ensures Apart(b, m, a, n)
  {}

  lemma ReleaseOwned(s: Zones, large: map<int, int>, list: seq<SP.Run>, list': seq<SP.Run>, pages: int)
    requires Owned(s, large, list, pages) && Sound(s, pages) && s.idle != [] && pages > 0
    requires SP.Pages(list') == SP.Pages(list) + SP.Range(s.idle[0], s.idle[0] + pages)
    ensures Owned(ReleaseStep(s, pages), large, list', pages)
  {
    hide Sound; hide SP.Pages; hide SP.Range; hide Apart; hide Clear;
    IdleApart(s, pages);
    var t := ReleaseStep(s, pages);
    forall a | a in t.zone ensures a >= 0 && SP.Range(a, a + pages) !! SP.Pages(list') { ZoneStaysOwned(s, large, list, list', pages, a); }
    forall l | l in large ensures SP.Range(l, l + large[l]) !! SP.Pages(list') && l in t.usage && t.usage[l] == Large(large[l]) {
      LargeStaysOwned(s, large, list, list', pages, l);
    }
  }

  lemma ZoneStaysOwned(s: Zones, large: map<int, int>, list: seq<SP.Run>, list': seq<SP.Run>, pages: int, a: int)
    requires Owned(s, large, list, pages) && s.idle != [] && a in s.zone && Apart(a, pages, s.idle[0], pages)
    requires SP.Pages(list') == SP.Pages(list) + SP.Range(s.idle[0], s.idle[0] + pages)
    ensures a >= 0 && SP.Range(a, a + pages) !! SP.Pages(list')
  {
    hide SP.Pages; hide SP.Range; hide Apart;
    ApartRanges(a, pages, s.idle[0], pages);
  }

  lemma LargeStaysOwned(s: Zones, large: map<int, int>, list: seq<SP.Run>, list': seq<SP.Run>, pages: int, l: int)
    requires Owned(s, large, list, pages) && s.idle != [] && s.idle[0] in s.zone && l in large
    requires SP.Pages(list') == SP.Pages(list) + SP.Range(s.idle[0], s.idle[0] + pages)
    ensures var t := ReleaseStep(s, pages);
      SP.Range(l, l + large[l]) !! SP.Pages(list') && l in t.usage && t.usage[l] == Large(large[l])
  {
    hide SP.Pages; hide SP.Range; hide Apart; hide Clear;
    var z := s.idle[0];
    assert Apart(l, large[l], z, pages);
    ApartRanges(l, large[l], z, pages);
    ClearedApart(s.usage, z, pages, l, large[l]);
  }

  /** Zones other than the first idle one lie apart from it. */
  lemma IdleApart(s: Zones, pages: int)
    requires Sound(s, pages) && s.idle != []
    ensures s.idle[0] in s.zone && forall a :: a in s.zone && a != s.idle[0] ==> Apart(a, pages, s.idle[0], pages)
  {
    var z := s.idle[0];
    assert z in s.idle;
  }

  lemma ApartRanges(a: int, n: int, b: int, m: int)
    requires Apart(a, n, b, m)
    ensures SP.Range(a, a + n) !! SP.Range(b, b + m)
  {}

  lemma ClearedApart(usage: map<int, Usage>, a: int, n: int, l: int, m: int)
    requires Apart(l, m, a, n) && m > 0 && l in usage
    ensures l in Clear(usage, a, n) && Clear(usage, a, n)[l] == usage[l]
  {}

  lemma LargeReleased(s: Zones, large: map<int, int>, list: seq<SP.Run>, list': seq<SP.Run>, pages: int, b: int)
    requires Owned(s, large, list, pages) && Sound(s, pages) && b in large && pages > 0
    requires SP.Pages(list') == SP.Pages(list) + SP.Range(b, b + large[b])
    ensures var t := s.(usage := s.usage[b := Large(0)]);
      Owned(t, large - {b}, list', pages) && Sound(t, pages) && forall a, i :: IsOut(t, a, i) <==> IsOut(s, a, i)
  {
    hide SP.Pages; hide Sound;
    var t := s.(usage := s.usage[b := Large(0)]);
    forall a | a in s.zone ensures b < a || a + pages <= b { assert Apart(b, large[b], a, pages); }
    UsageWrite(s, pages, b, Large(0));
    forall a | a in t.zone ensures SP.Range(a, a + pages) !! SP.Range(b, b + large[b]) {
      assert Apart(b, large[b], a, pages);
    }
    forall l | l in large && l != b ensures SP.Range(l, l + large[l]) !! SP.Range(b, b + large[b]) {
      assert Apart(l, large[l], b, large[b]);
    }
  }

  // ---- no page is lost ----------------------------------------------------------------------------

  ghost predicate InZone(zone: map<int, Zone>, pages: int, p: int) {
    exists a :: a in zone && a <= p < a + pages
  }

  ghost predicate InLarge(large: map<int, int>, p: int) {
    exists l :: l in large && l <= p < l + large[l]
  }

  /** The pages of the heap are exactly those on the page list, in zones and in large blocks. */
  ghost predicate Complete(zone: map<int, Zone>, large: map<int, int>, list: seq<SP.Run>, pages: int, all: set<int>) {
    forall p :: p in all <==> p in SP.Pages(list) || InZone(zone, pages, p) || InLarge(large, p)
  }

  lemma InRange(lo: int, hi: int, p: int)
    ensures p in SP.Range(lo, hi) <==> lo <= p < hi
  {}

  /** A zone more or less changes by its own pages which pages are in zones. */
  lemma ZonePages(zone: map<int, Zone>, zone': map<int, Zone>, pages: int, a: int, p: int)
    requires zone'.Keys == zone.Keys + {a}
    ensures InZone(zone', pages, p) <==> InZone(zone, pages, p) || p in SP.Range(a, a + pages)
  {
    hide SP.Range;
    InRange(a, a + pages, p);
    if InZone(zone, pages, p) { var b :| b in zone && b <= p < b + pages; assert b in zone'; }
    if InZone(zone', pages, p) { var b :| b in zone' && b <= p < b + pages; assert b == a || b in zone; }
    if a <= p < a + pages { assert a in zone'; }
  }

  lemma LargeBlockPages(large: map<int, int>, large': map<int, int>, l: int, p: int)
    requires l in large' && (large == large' - {l})
    ensures InLarge(large', p) <==> InLarge(large, p) || p in SP.Range(l, l + large'[l])
  {
    hide SP.Range;
    InRange(l, l + large'[l], p);
    if InLarge(large, p) { var m :| m in large && m <= p < m + large[m]; assert m in large'; }
    if InLarge(large', p) { var m :| m in large' && m <= p < m + large'[m]; assert m == l || m in large; }
  }

  lemma CompleteSame(zone: map<int, Zone>, zone': map<int, Zone>, large: map<int, int>, list: seq<SP.Run>, pages: int, all: set<int>)
    requires Complete(zone, large, list, pages, all) && zone'.Keys == zone.Keys
    ensures Complete(zone', large, list, pages, all)
  {
    hide SP.Pages; hide InLarge;
    forall p ensures InZone(zone', pages, p) <==> InZone(zone, pages, p) {
      if InZone(zone, pages, p) { var b :| b in zone && b <= p < b + pages; assert b in zone'; }
      if InZone(zone', pages, p) { var b :| b in zone' && b <= p < b + pages; assert b in zone; }
    }
  }

  /** A zone is made of pages off the list ... */
  lemma CompleteOpened(zone: map<int, Zone>, zone': map<int, Zone>, large: map<int, int>, list: seq<SP.Run>, list': seq<SP.Run>, pages: int, all: set<int>, a: int)
    requires Complete(zone, large, list, pages, all) && zone'.Keys == zone.Keys + {a}
    requires SP.Range(a, a + pages) <= SP.Pages(list) && SP.Pages(list') == SP.Pages(list) - SP.Range(a, a + pages)
    ensures Complete(zone', large, list', pages, all)
  {
    hide SP.Pages; hide SP.Range; hide InLarge; hide InZone;
    forall p ensures p in all <==> p in SP.Pages(list') || InZone(zone', pages, p) || InLarge(large, p) {
      ZonePages(zone, zone', pages, a, p);
    }
  }

  /** ... and goes back there. */
  lemma CompleteClosed(zone: map<int, Zone>, zone': map<int, Zone>, large: map<int, int>, list: seq<SP.Run>, list': seq<SP.Run>, pages: int, all: set<int>, a: int)
    requires Complete(zone, large, list, pages, all) && zone.Keys == zone'.Keys + {a}
    requires SP.Pages(list') == SP.Pages(list) + SP.Range(a, a + pages)
    ensures Complete(zone', large, list', pages, all)
  {
    hide SP.Pages; hide SP.Range; hide InLarge; hide InZone;
    forall p ensures p in all <==> p in SP.Pages(list') || InZone(zone', pages, p) || InLarge(large, p) {
      ZonePages(zone', zone, pages, a, p);
    }
  }

  lemma CompleteGranted(zone: map<int, Zone>, large: map<int, int>, list: seq<SP.Run>, list': seq<SP.Run>, pages: int, all: set<int>, b: int, n: int)
    requires Complete(zone, large, list, pages, all) && b !in large
    requires SP.Range(b, b + n) <= SP.Pages(list) && SP.Pages(list') == SP.Pages(list) - SP.Range(b, b + n)
    ensures Complete(zone, large[b := n], list', pages, all)
  {
    hide SP.Pages; hide SP.Range; hide InLarge; hide InZone;
    assert large[b := n] - {b} == large;
    forall p ensures p in all <==> p in SP.Pages(list') || InZone(zone, pages, p) || InLarge(large[b := n], p) {
      LargeBlockPages(large, large[b := n], b, p);
    }
  }

  lemma CompleteReturned(zone: map<int, Zone>, large: map<int, int>, list: seq<SP.Run>, list': seq<SP.Run>, pages: int, all: set<int>, b: int)
    requires Complete(zone, large, list, pages, all) && b in large && SP.Pages(list') == SP.Pages(list) + SP.Range(b, b + large[b])
    ensures Complete(zone, large - {b}, list', pages, all)
  {
    hide SP.Pages; hide SP.Range; hide InLarge; hide InZone;
    forall p ensures p in all <==> p in SP.Pages(list') || InZone(zone, pages, p) || InLarge(large - {b}, p) {
      LargeBlockPages(large - {b}, large, b, p);
    }
  }

  /** No run on the list holds `n` pages, or none are asked for. */
  ghost predicate NoRun(list: seq<SP.Run>, n: int) {
    n == 0 || forall j :: 0 <= j < |list| ==> list[j].len < n
  }

  /** Nothing changes for chunks that are handed out: same zone, same place. */
  ghost predicate Unmoved(s: Zones, t: Zones) {
    forall a, i :: IsOut(s, a, i) ==> a in t.zone && t.zone[a].off == s.zone[a].off && t.zone[a].chunk == s.zone[a].chunk
  }

  lemma StampNone(usage: map<int, Usage>, a: int)
    ensures Stamp(usage, a, 0) == usage
  {}

  lemma StampNext(usage: map<int, Usage>, a: int, n: int)
    requires n >= 0
    ensures Stamp(usage, a, n)[a + n := Small(n)] == Stamp(usage, a, n + 1)
  {}

  lemma ClearNone(usage: map<int, Usage>, a: int)
    ensures Clear(usage, a, 0) == usage
  {}

  lemma ClearNext(usage: map<int, Usage>, a: int, n: int)
    requires n >= 0
    ensures Clear(usage, a, n)[a + n := Free] == Clear(usage, a, n + 1)
  {}

  lemma SoundFacts(s: Zones, pages: int)
    requires Sound(s, pages)
    ensures |s.lists| == NZONES && forall a :: a in s.idle ==> a in s.zone
  {}

  lemma OwnedFacts(s: Zones, large: map<int, int>, list: seq<SP.Run>, pages: int, a: int)
    requires Owned(s, large, list, pages) && a in s.zone
    ensures a >= 0
  {}

  lemma NotInZone(s: Zones, a: int, i: int)
    requires a !in s.zone
    ensures !IsOut(s, a, i)
  {}

  lemma PageNonNegative(list: seq<SP.Run>, j: int, a: int)
    requires SP.Canonical(list) && (forall p :: p in SP.Pages(list) ==> p >= 0) && 0 <= j < |list| && list[j].start == a && list[j].len > 0
    ensures a >= 0
  {
    SP.StartIsPage(list, j);
  }

  lemma NewZoneIndex(zi: int, pages: int)
    requires ChunkOf(zi) > 0
    ensures NewZone(zi, pages).index == zi
  {}

  /** Ownership looks only at which zones exist and at the usage table. */
  lemma OwnedSame(s: Zones, t: Zones, large: map<int, int>, list: seq<SP.Run>, pages: int)
    requires Owned(s, large, list, pages) && t.zone.Keys == s.zone.Keys && t.usage == s.usage
    ensures Owned(t, large, list, pages)
  {}

  lemma ChunkAt63()
    ensures ChunkOf(63) == 8192
  {}

  lemma ClassQuarter(n: int, pages: int)
    requires pages in {8, 16, 32} && 0 < n && n < (if pages * PAGE / 4 > 16384 then 16384 else pages * PAGE / 4)
    ensures 4 * ChunkOf(Class(n).0) <= pages * PAGE
  {
    hide Class; hide ChunkOf;
    ClassIsLeast(n);
    assert ChunkOf(63) == 8192 by { ChunkAt63(); }
    if pages == 8 { ChunkIncreases(Class(n).0, 63); }
  }

  lemma UnmovedBy(s: Zones, t: Zones, a: int, z: Zone)
    requires t.zone == s.zone[a := z]
    requires (forall j :: !IsOut(s, a, j)) || (a in s.zone && z.off == s.zone[a].off && z.chunk == s.zone[a].chunk)
    ensures Unmoved(s, t)
  {}

  lemma UnmovedBySame(s: Zones, t: Zones)
    requires t.zone == s.zone
    ensures Unmoved(s, t)
  {}

  /** The pages of a large request, RT_ALIGN done in 32 bits. */
  function LargePages(size: int): int {
    (size + (PAGE - 1)) % 0x1_0000_0000 / PAGE
  }

  /** Enough pages for every size, except that the last page's worth of sizes wraps to none. */
  lemma LargePagesCover(size: int)
    requires 0 < size < 0x1_0000_0000
    ensures size <= LargePages(size) * PAGE <==> size <= 0x1_0000_0000 - PAGE
    ensures size > 0x1_0000_0000 - PAGE ==> LargePages(size) == 0
  {}

  lemma ServingChunk(s: Zones, pages: int, a: int, i: int)
    requires Sound(s, pages) && IsOut(s, a, i)
    ensures s.zone[a].chunk == ChunkOf(s.zone[a].index) && 0 <= i < s.zone[a].nmax && Fits(s.zone[a], pages)
  {}

  lemma ChunkNotNull(s: Zones, large: map<int, int>, list: seq<SP.Run>, pages: int, a: int, i: int)
    requires Sound(s, pages) && Owned(s, large, list, pages) && IsOut(s, a, i)
    ensures ChunkAddr(a, s.zone[a], i) >= 0
  {
    ServingChunk(s, pages, a, i);
    ChunkInside(a, s.zone[a], pages, i);
    OwnedFacts(s, large, list, pages, a);
  }

  lemma GiveFacts(s: Zones, pages: int, a: int, i: int)
    requires Sound(s, pages) && IsOut(s, a, i)
    ensures Serving(s, a) && 0 <= s.zone[a].index < NZONES && s.zone[a].chunk > 0
    ensures var ptr := ChunkAddr(a, s.zone[a], i);
      && ptr / PAGE in s.usage && s.usage[ptr / PAGE].Small? && ptr / PAGE - s.usage[ptr / PAGE].off == a
      && (ptr - a * PAGE - s.zone[a].off) / s.zone[a].chunk == i
  {
    ServingChunk(s, pages, a, i);
    ChunkPositive(s.zone[a], pages);
    LookupFindsZone(s.zone, s.usage, pages, a, i);
  }

  lemma IdlePages(s: Zones, large: map<int, int>, list: seq<SP.Run>, pages: int)
    requires Sound(s, pages) && Owned(s, large, list, pages) && s.idle != []
    ensures s.idle[0] >= 0 && SP.Pages(list) !! SP.Range(s.idle[0], s.idle[0] + pages)
  {
    assert s.idle[0] in s.idle;
  }

  /** Chunks that are still out have not moved. */
  lemma UnmovedAfter(s: Zones, t: Zones, a: int)
    requires forall b, j :: IsOut(t, b, j) ==> IsOut(s, b, j)
    requires forall b :: b in t.zone ==> b in s.zone && t.zone[b].off == s.zone[b].off && t.zone[b].chunk == s.zone[b].chunk
    ensures Unmoved(t, s)
  {}

  const NULL := -1

  class Slab {
    const zonePages: int                // zone_page_cnt
    const pages: SP.PageList
    var zone: map<int, Zone>            // zone headers by page number
    var idle: seq<int>                  // zone_free
    var idleCnt: int                    // zone_free_cnt
    var lists: seq<seq<int>>            // zone_array
    var usage: map<int, Usage>          // memusage
    ghost var large: map<int, int>      // large blocks handed out: first page and page count
    ghost const all: set<int>           // the pages of the heap

    ghost function View(): Zones
      reads this
    {
      Zones(zone, idle, lists, usage)
    }

    ghost predicate Valid()
      reads this, pages
    {
      && zonePages in {8, 16, 32}
      && pages.Valid()
      && Sound(View(), zonePages)
      && Owned(View(), large, pages.list, zonePages)
      && Complete(zone, large, pages.list, zonePages, all)
      && idleCnt == |idle| <= RELEASE_THRESH
    }

    /** The heap after rt_system_heap_init, with the usage table kept outside the pages. */
    constructor (zonePages: int, first: int, count: int)
      requires zonePages in {8, 16, 32} && first >= 0 && count > 0
      ensures Valid() && fresh(pages) && all == SP.Range(first, first + count) && forall a, i :: !IsOut(View(), a, i)
    {
      this.zonePages := zonePages;
      pages := new SP.PageList(first, count);
      zone, idle, idleCnt, usage := map[], [], 0, map[];
      lists := seq(NZONES, _ => []);
      large, all := map[], SP.Range(first, first + count);
    }

    function ZoneLimit(): int {
      if zonePages * PAGE / 4 > 16384 then 16384 else zonePages * PAGE / 4
    }

    method MarkPages(a: int)
      requires zonePages > 0
      modifies this`usage
      ensures usage == Stamp(old(usage), a, zonePages)
    {
      hide Stamp;
      var off := 0;
      StampNone(usage, a);
      while off < zonePages
        invariant 0 <= off <= zonePages && usage == Stamp(old(usage), a, off)
      {
        StampNext(old(usage), a, off);
        usage := usage[a + off := Small(off)];
        off := off + 1;
      }
    }

    method ClearPages(a: int)
      requires zonePages > 0
      modifies this`usage
      ensures usage == Clear(old(usage), a, zonePages)
    {
      hide Clear;
      var i := 0;
      ClearNone(usage, a);
      while i < zonePages
        invariant 0 <= i <= zonePages && usage == Clear(old(usage), a, i)
      {
        ClearNext(old(usage), a, i);
        usage := usage[a + i := Free];
        i := i + 1;
      }
    }

    /** Allocation from an existing zone of class `zi`. */
    method FromList(zi: int) returns (a: int, i: int)
      requires Valid() && 0 <= zi < NZONES && lists[zi] != []
      modifies this`zone, this`lists
      ensures Valid() && a == old(lists)[zi][0] && Belongs(old(View()), a, zi) && i == TakeChunk(old(zone)[a]).1
      ensures View() == TakeStep(old(View()), zi) && !IsOut(old(View()), a, i)
      ensures zone[a].index == zi && Unmoved(old(View()), View())
      ensures forall b, j :: IsOut(View(), b, j) <==> IsOut(old(View()), b, j) || (b == a && j == i)
    {
      hide Sound; hide Owned; hide Complete; hide SP.Canonical; hide SP.Pages; hide IsOut;
      ghost var s := View();
      SoundFacts(s, zonePages);
      TakeStepSound(s, zonePages, zi);
      a := lists[zi][0];
      var (z', k) := TakeChunk(zone[a]);
      i := k;
      zone := zone[a := z'];
      if z'.nfree == 0 { lists := lists[zi := lists[zi][1..]]; }
      OwnedSame(s, View(), large, pages.list, zonePages);
      CompleteSame(s.zone, zone, large, pages.list, zonePages, all);
      UnmovedBy(s, View(), a, z');
    }

    /** A new zone for class `zi`, off zone_free or made of fresh pages. */
    method OpenZone(zi: int) returns (a: int)
      requires Valid() && 0 <= zi < NZONES && 4 * ChunkOf(zi) <= zonePages * PAGE && 8 <= ChunkOf(zi) <= 16384
      modifies this, pages
      ensures Valid() && large == old(large)
      ensures a == SP.NULL <==> old(idle) == [] && NoRun(old(pages.list), zonePages)
      ensures a == SP.NULL ==> View() == old(View()) && pages.list == old(pages.list)
      ensures a != SP.NULL ==>
        && View() == (if old(idle) != [] then OpenIdle(old(View()), NewZone(zi, zonePages)) else OpenFresh(old(View()), a, NewZone(zi, zonePages), zonePages))
        && zone == old(zone)[a := NewZone(zi, zonePages)]
        && (forall b, j :: IsOut(View(), b, j) <==> IsOut(old(View()), b, j) || (b == a && j == 0))
        && !IsOut(old(View()), a, 0) && Unmoved(old(View()), View())
    {
      hide Sound; hide Owned; hide Complete; hide SP.Canonical; hide SP.Pages; hide ChunkOf; hide Counted; hide Fits; hide Out; hide NewZone; hide Stamp; hide IsOut;
      ghost var s, j := View(), 0;
      SoundFacts(s, zonePages);
      NewZoneFits(zi, zonePages);
      NewZoneIndex(zi, zonePages);
      if idle != [] {
        OpenIdleSound(s, zonePages, NewZone(zi, zonePages));
        a := idle[0];
        OwnedFacts(s, large, pages.list, zonePages, a);
        zone := zone[a := NewZone(zi, zonePages)];
        idle, idleCnt := idle[1..], idleCnt - 1;
        lists := lists[zi := [a] + lists[zi]];
        OwnedSame(s, View(), large, pages.list, zonePages);
        CompleteSame(s.zone, zone, large, pages.list, zonePages, all);
      } else {
        ghost var before := pages.list;
        a, j := pages.Alloc(zonePages);
        if a == SP.NULL { return; }
        PageNonNegative(before, j, a);
        TakenApart(s, large, before, zonePages, a, zonePages);
        assert forall b :: b in s.zone ==> Apart(a, zonePages, b, zonePages);
        OpenFreshSound(s, zonePages, a, NewZone(zi, zonePages));
        OpenFreshOwned(s, large, before, pages.list, zonePages, a, NewZone(zi, zonePages));
        forall k ensures !IsOut(s, a, k) { NotInZone(s, a, k); }
        MarkPages(a);
        zone := zone[a := NewZone(zi, zonePages)];
        CompleteOpened(s.zone, zone, large, before, pages.list, zonePages, all, a);
        lists := lists[zi := [a] + lists[zi]];
      }
      UnmovedBy(s, View(), a, NewZone(zi, zonePages));
    }

    /** rt_malloc at or above the zone limit: whole pages. */
    method MallocLarge(size: int) returns (ptr: int, ghost page: int)
      requires Valid() && ZoneLimit() <= size < 0x1_0000_0000
      modifies this, pages
      ensures Valid()
      ensures ptr == NULL ==> View() == old(View()) && pages.list == old(pages.list) && large == old(large)
      ensures ptr == NULL <==> NoRun(old(pages.list), LargePages(size))
      ensures ptr != NULL ==>
        && ptr == page * PAGE && page !in old(large) && large == old(large)[page := LargePages(size)]
        && (forall b, j :: IsOut(View(), b, j) <==> IsOut(old(View()), b, j))
        && Unmoved(old(View()), View())
    {
      hide Sound; hide Owned; hide Complete; hide SP.Canonical; hide SP.Pages; hide IsOut;
      ghost var s, j, before := View(), 0, pages.list;
      var n := LargePages(size);
      var b;
      page := 0;
      b, j := pages.Alloc(n);
      if b == SP.NULL { return NULL, page; }
      PageNonNegative(before, j, b);
      TakenApart(s, large, before, zonePages, b, n);
      LargeOwned(s, large, before, pages.list, zonePages, b, n);
      usage := usage[b := Large(n)];
      CompleteGranted(zone, large, before, pages.list, zonePages, all, b, n);
      large := large[b := n];
      UnmovedBySame(s, View());
      ptr, page := b * PAGE, b;
    }

    /** rt_malloc below the zone limit. A chunk of the right class that nobody holds; it fails only
        when no zone of the class has a chunk, no zone is idle and no run of pages is long enough. */
    method MallocSmall(size: int) returns (ptr: int, ghost a: int, ghost i: int)
      requires Valid() && 0 < size < ZoneLimit()
      modifies this, pages
      ensures Valid() && large == old(large)
      ensures ptr == NULL <==> old(lists)[Class(size).0] == [] && old(idle) == [] && NoRun(old(pages.list), zonePages)
      ensures ptr == NULL ==> View() == old(View()) && pages.list == old(pages.list)
      ensures ptr != NULL ==>
        && IsOut(View(), a, i) && !IsOut(old(View()), a, i)
        && ptr == ChunkAddr(a, zone[a], i) && size <= zone[a].chunk == ChunkOf(Class(size).0)
        && (forall b, j :: IsOut(View(), b, j) <==> IsOut(old(View()), b, j) || (b == a && j == i))
        && Unmoved(old(View()), View())
    {
      hide Sound; hide Owned; hide Complete; hide SP.Canonical; hide SP.Pages; hide ChunkOf; hide IsOut; hide Class; hide Unmoved; hide ChunkAddr;
      ClassIsLeast(size);
      var zi := Class(size).0;
      ghost var s := View();
      a, i := 0, 0;
      SoundFacts(s, zonePages);
      if lists[zi] != [] {
        var z, k := FromList(zi);
        a, i := z, k;
        ptr := ChunkAddr(z, zone[z], k);
      } else {
        ClassQuarter(size, zonePages);
        var z := OpenZone(zi);
        if z == SP.NULL { return NULL, a, i; }
        a, i := z, 0;
        ptr := ChunkAddr(z, zone[z], 0);
        NewZoneIndex(zi, zonePages);
      }
      ServingChunk(View(), zonePages, a, i);
      ChunkNotNull(View(), large, pages.list, zonePages, a, i);
    }

    /** The first idle zone goes back to the page allocator. */
    method ReleaseIdle()
      requires zonePages in {8, 16, 32} && pages.Valid() && Sound(View(), zonePages)
      requires Owned(View(), large, pages.list, zonePages) && Complete(zone, large, pages.list, zonePages, all)
      requires idleCnt == |idle| == RELEASE_THRESH + 1
      modifies this, pages
      ensures Valid() && large == old(large) && View() == ReleaseStep(old(View()), zonePages)
      ensures forall b, j :: IsOut(View(), b, j) <==> IsOut(old(View()), b, j)
    {
      hide Sound; hide Owned; hide Complete; hide SP.Canonical; hide SP.Pages; hide IsOut; hide Clear;
      ghost var s := View();
      ReleaseStepSound(s, zonePages);
      IdlePages(s, large, pages.list, zonePages);
      IdleApart(s, zonePages);
      var z := idle[0];
      idle, idleCnt := idle[1..], idleCnt - 1;
      ClearPages(z);
      zone := zone - {z};
      ghost var before := pages.list;
      pages.Free(z, zonePages);
      ReleaseOwned(s, large, before, pages.list, zonePages);
      CompleteClosed(s.zone, zone, large, before, pages.list, zonePages, all, z);
    }

    /** rt_free of a chunk. The usage table leads to the zone; the chunk goes on its free list, a
        full zone back on the list of its class, and an entirely free one, unless it is the only
        zone on that list, to zone_free or back to the page allocator. */
    method FreeSmall(ptr: int, ghost a: int, ghost i: int)
      requires Valid() && IsOut(View(), a, i) && ptr == ChunkAddr(a, zone[a], i)
      modifies this, pages
      ensures Valid() && large == old(large)
      ensures forall b, j :: IsOut(View(), b, j) <==> IsOut(old(View()), b, j) && !(b == a && j == i)
      ensures Unmoved(View(), old(View()))
      ensures var s := GiveStep(old(View()), a, i);
        View() == if !(s.zone[a].nfree == s.zone[a].nmax && s.lists[s.zone[a].index] != [a]) then s
                  else if old(idleCnt) < RELEASE_THRESH then RetireStep(s, a) else ReleaseStep(RetireStep(s, a), zonePages)
    {
      hide Sound; hide Owned; hide Complete; hide SP.Canonical; hide SP.Pages; hide IsOut; hide ChunkAddr; hide Clear; hide Without;
      ghost var s0 := View();
      SoundFacts(s0, zonePages);
      GiveFacts(s0, zonePages, a, i);
      GiveStepSound(s0, zonePages, a, i);
      var kup := usage[ptr / PAGE];
      var z := ptr / PAGE - kup.off;
      var zi := zone[z].index;
      var wasFull := zone[z].nfree == 0;
      zone := zone[z := GiveChunk(zone[z], (ptr - z * PAGE - zone[z].off) / zone[z].chunk)];
      if wasFull { lists := lists[zi := [z] + lists[zi]]; }
      ghost var s1 := View();
      OwnedSame(s0, s1, large, pages.list, zonePages);
      CompleteSame(s0.zone, zone, large, pages.list, zonePages, all);
      if zone[z].nfree == zone[z].nmax && lists[zi] != [z] {
        RetireStepSound(s1, zonePages, z);
        lists := lists[zi := Without(lists[zi], z)];
        idle, idleCnt := [z] + idle, idleCnt + 1;
        ghost var s2 := View();
        OwnedSame(s1, s2, large, pages.list, zonePages);
        if idleCnt > RELEASE_THRESH { ReleaseIdle(); }
      }
      UnmovedAfter(s0, View(), a);
    }

    /** rt_free of a large block. */
    method FreeLarge(ptr: int)
      requires Valid() && ptr % PAGE == 0 && ptr / PAGE in large
      modifies this, pages
      ensures Valid() && large == old(large) - {ptr / PAGE}
      ensures forall b, j :: IsOut(View(), b, j) <==> IsOut(old(View()), b, j)
      ensures SP.Pages(pages.list) == SP.Pages(old(pages.list)) + SP.Range(ptr / PAGE, ptr / PAGE + old(large)[ptr / PAGE])
    {
      hide Sound; hide Complete; hide SP.Canonical; hide SP.Pages; hide IsOut;
      var b := ptr / PAGE;
      ghost var s, before := View(), pages.list;
      var n := usage[b].count;
      usage := usage[b := Large(0)];
      pages.Free(b, n);
      LargeReleased(s, large, before, pages.list, zonePages, b);
      CompleteReturned(zone, large, before, pages.list, zonePages, all, b);
      large := large - {b};
    }

    /** rt_malloc: nothing for size 0, whole pages from the zone limit up, a chunk below it. The
        memory belonged to nobody, and everything that was allocated stays so. */
    method Malloc(size: int) returns (ptr: int, ghost small: bool, ghost a: int, ghost i: int)
      requires Valid() && 0 <= size < 0x1_0000_0000
      modifies this, pages
      ensures Valid()
      ensures size == 0 ==> ptr == NULL
      ensures size >= ZoneLimit() ==> (ptr == NULL <==> NoRun(old(pages.list), LargePages(size)))
      ensures 0 < size < ZoneLimit() ==>
        (ptr == NULL <==> old(lists)[Class(size).0] == [] && old(idle) == [] && NoRun(old(pages.list), zonePages))
      ensures ptr == NULL ==> View() == old(View()) && pages.list == old(pages.list) && large == old(large)
      ensures ptr != NULL ==> small == (size < ZoneLimit())
      ensures ptr != NULL && small ==>
        && large == old(large) && IsOut(View(), a, i) && !IsOut(old(View()), a, i)
        && ptr == ChunkAddr(a, zone[a], i) && size <= zone[a].chunk == ChunkOf(Class(size).0)
        && forall b, j :: IsOut(View(), b, j) <==> IsOut(old(View()), b, j) || (b == a && j == i)
      ensures ptr != NULL && !small ==>
        && ptr == a * PAGE && a !in old(large) && large == old(large)[a := LargePages(size)]
        && forall b, j :: IsOut(View(), b, j) <==> IsOut(old(View()), b, j)
    {
      hide Sound; hide Owned; hide Complete; hide SP.Canonical; hide SP.Pages; hide IsOut; hide Class; hide Unmoved; hide ChunkAddr; hide LargePages;
      small, a, i := size < ZoneLimit(), 0, 0;
      if size == 0 { return NULL, small, a, i; }
      if size >= ZoneLimit() { ptr, a := MallocLarge(size); } else { ptr, a, i := MallocSmall(size); }
    }

    /** rt_free: the usage table tells a large block from a chunk. */
    method FreeIt(ptr: int, ghost small: bool, ghost a: int, ghost i: int)
      requires Valid()
      requires ptr != NULL && small ==> IsOut(View(), a, i) && ptr == ChunkAddr(a, zone[a], i)
      requires ptr != NULL && !small ==> ptr % PAGE == 0 && ptr / PAGE == a && a in large
      modifies this, pages
      ensures Valid()
      ensures ptr == NULL ==> View() == old(View()) && large == old(large) && pages.list == old(pages.list)
      ensures ptr != NULL && small ==>
        large == old(large) && forall b, j :: IsOut(View(), b, j) <==> IsOut(old(View()), b, j) && !(b == a && j == i)
      ensures ptr != NULL && !small ==>
        large == old(large) - {a} && forall b, j :: IsOut(View(), b, j) <==> IsOut(old(View()), b, j)
    {
      hide Sound; hide Owned; hide Complete; hide SP.Canonical; hide SP.Pages; hide IsOut; hide ChunkAddr; hide GiveStep; hide Unmoved;
      if ptr == NULL { return; }
      if small { GiveFacts(View(), zonePages, a, i); } else { LargeUsage(View(), large, pages.list, zonePages, a); }
      if usage[ptr / PAGE].Large? { FreeLarge(ptr); } else { FreeSmall(ptr, a, i); }
    }
  }

  lemma LargeUsage(s: Zones, large: map<int, int>, list: seq<SP.Run>, pages: int, l: int)
    requires Owned(s, large, list, pages) && l in large
    ensures l in s.usage && s.usage[l].Large?
  {}
}
