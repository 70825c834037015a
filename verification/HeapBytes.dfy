/** The heap buffer of src/mem.c as bytes, and the block headers stored inside it.

    A header is twelve bytes, little endian: magic and used flag (16 bits each), then the
    offsets of the next and previous header (32 bits each). */
module HeapBytes {

  import opened Words

  const SIZE := 12            // SIZEOF_STRUCT_MEM
  const MAGIC := 0x1ea0       // HEAP_MAGIC

  datatype Header = Header(magic: int, used: int, next: int, prev: int)

  predicate Storable(h: Header) {
    0 <= h.magic < 65536 && 0 <= h.used < 65536 && 0 <= h.next < WORD && 0 <= h.prev < WORD
  }

  function Encode(h: Header): (r: seq<Byte>)
    requires Storable(h)
    ensures |r| == SIZE
  {
    [h.magic % 256, h.magic / 256, h.used % 256, h.used / 256] + Bytes4(h.next) + Bytes4(h.prev)
  }

  /** The header stored at offset `p`. */
  function Get(m: seq<Byte>, p: int): (h: Header)
    requires 0 <= p <= |m| - SIZE
    ensures Storable(h)
  {
    Header(Half(m[p], m[p + 1]), Half(m[p + 2], m[p + 3]), Word4(m[p + 4..p + 8]), Word4(m[p + 8..p + 12]))
  }

  /** The buffer after storing `bs` at offset `p`. */
  function Over(m: seq<Byte>, p: int, bs: seq<Byte>): (r: seq<Byte>)
    requires 0 <= p <= |m| - |bs|
    ensures |r| == |m|
  {
    m[..p] + bs + m[p + |bs|..]
  }

  lemma OverTwice(m: seq<Byte>, p: int, a: seq<Byte>, b: seq<Byte>)
    requires 0 <= p <= |m| - |a| - |b|
    ensures Over(Over(m, p, a), p + |a|, b) == Over(m, p, a + b)
  {
    var r := Over(m, p, a);
    assert r[..p + |a|] == m[..p] + a;
    assert r[p + |a| + |b|..] == m[p + |a| + |b|..];
  }

  /** The buffer after storing a header at offset `p`. */
  function Put(m: seq<Byte>, p: int, h: Header): (r: seq<Byte>)
    requires 0 <= p <= |m| - SIZE && Storable(h)
    ensures |r| == |m|
  {
    m[..p] + Encode(h) + m[p + SIZE..]
  }

  /** Storing a header field by field. */
  lemma EncodeParts(m: seq<Byte>, p: int, h: Header)
    requires 0 <= p <= |m| - SIZE && Storable(h)
    ensures |Bytes4(h.next)| == |Bytes4(h.prev)| == 4
    ensures var m1 := Over(m, p, [h.magic % 256, h.magic / 256]);
      var m2 := Over(m1, p + 2, [h.used % 256, h.used / 256]);
      var m3 := Over(m2, p + 4, Bytes4(h.next));
      Over(m3, p + 8, Bytes4(h.prev)) == Put(m, p, h)
  {
    var a, b, c, d := [h.magic % 256, h.magic / 256], [h.used % 256, h.used / 256], Bytes4(h.next), Bytes4(h.prev);
    assert a + b + c + d == Encode(h);
    hide Over; hide Bytes4; hide Encode;
    OverTwice(m, p, a, b);
    OverTwice(m, p, a + b, c);
    OverTwice(m, p, a + b + c, d);
    assert Put(m, p, h) == Over(m, p, Encode(h)) by { PutIs(m, p, h); }
  }

  lemma PutIs(m: seq<Byte>, p: int, h: Header)
    requires 0 <= p <= |m| - SIZE && Storable(h)
    ensures Put(m, p, h) == Over(m, p, Encode(h))
  {}

  /** A header read back is the header stored. */
  lemma GetPut(m: seq<Byte>, p: int, h: Header)
    requires 0 <= p <= |m| - SIZE && Storable(h)
    ensures Get(Put(m, p, h), p) == h
  {
    hide Get; hide Encode;
    assert Put(m, p, h)[p..p + SIZE] == Encode(h);
    GetSlice(Put(m, p, h), p);
    GetEncoded(h);
  }

  /** The code of a header reads as the header. */
  lemma GetEncoded(h: Header)
    requires Storable(h)
    ensures Get(Encode(h), 0) == h
  {
    var e := Encode(h);
    assert e[4..8] == Bytes4(h.next) && e[8..12] == Bytes4(h.prev);
    Word4RoundTrip(h.next);
    Word4RoundTrip(h.prev);
    hide Bytes4; hide Word4;
  }

  /** Storing a header changes no byte outside its twelve. */
  lemma PutBytes(m: seq<Byte>, p: int, h: Header)
    requires 0 <= p <= |m| - SIZE && Storable(h)
    ensures forall i :: 0 <= i < |m| && !(p <= i < p + SIZE) ==> Put(m, p, h)[i] == m[i]
  {}

  lemma SliceAt(m: seq<Byte>, q: int, a: int, b: int)
    requires 0 <= q <= |m| - SIZE && 0 <= a <= b <= SIZE
    ensures m[q..q + SIZE][a..b] == m[q + a..q + b]
  {
    var s, r := m[q..q + SIZE][a..b], m[q + a..q + b];
    forall i | 0 <= i < b - a ensures s[i] == r[i] {
      assert s[i] == m[q..q + SIZE][a + i] == m[q + a + i];
    }
  }

  lemma ByteAt(m: seq<Byte>, q: int, i: int)
    requires 0 <= q <= |m| - SIZE && 0 <= i < SIZE
    ensures m[q..q + SIZE][i] == m[q + i]
  {}

  /** A header is read from its twelve bytes. */
  lemma GetSlice(m: seq<Byte>, q: int)
    requires 0 <= q <= |m| - SIZE
    ensures Get(m, q) == Get(m[q..q + SIZE], 0)
  {
    hide Word4; hide Half;
    var s := m[q..q + SIZE];
    SliceAt(m, q, 4, 8);
    SliceAt(m, q, 8, 12);
    ByteAt(m, q, 0);
    ByteAt(m, q, 1);
    ByteAt(m, q, 2);
    ByteAt(m, q, 3);
  }

  /** Equal bytes hold equal headers. */
  lemma GetSame(m: seq<Byte>, m': seq<Byte>, q: int)
    requires |m| == |m'| && 0 <= q <= |m| - SIZE && m[q..q + SIZE] == m'[q..q + SIZE]
    ensures Get(m', q) == Get(m, q)
  {
    hide Get;
    GetSlice(m, q);
    GetSlice(m', q);
  }

  /** Headers that do not overlap are independent. */
  lemma GetPutOther(m: seq<Byte>, p: int, h: Header, q: int)
    requires 0 <= p <= |m| - SIZE && Storable(h) && 0 <= q <= |m| - SIZE
    requires q + SIZE <= p || p + SIZE <= q
    ensures Get(Put(m, p, h), q) == Get(m, q)
  {
    PutBytes(m, p, h);
    assert m[q..q + SIZE] == Put(m, p, h)[q..q + SIZE];
    GetSame(m, Put(m, p, h), q);
  }

  /** The bytes of a header, field by field. */
  lemma EncodeHalves(m: seq<Byte>, p: int, h: Header)
    requires 0 <= p <= |m| - SIZE && Storable(h)
    ensures h.magic == Get(m, p).magic ==> Encode(h)[..2] == m[p..p + 2]
    ensures h.used == Get(m, p).used ==> Encode(h)[2..4] == m[p + 2..p + 4]
    ensures Encode(h)[2..4] == [h.used % 256, h.used / 256]
  {
    hide Bytes4; hide Word4;
  }

  lemma EncodeWords(m: seq<Byte>, p: int, h: Header)
    requires 0 <= p <= |m| - SIZE && Storable(h)
    ensures h.next == Get(m, p).next ==> Encode(h)[4..8] == m[p + 4..p + 8]
    ensures h.prev == Get(m, p).prev ==> Encode(h)[8..12] == m[p + 8..p + 12]
    ensures Encode(h)[4..8] == Bytes4(h.next) && Encode(h)[8..12] == Bytes4(h.prev)
  {
    Bytes4RoundTrip(m[p + 4..p + 8]);
    Bytes4RoundTrip(m[p + 8..p + 12]);
    hide Bytes4; hide Word4; hide Half;
  }

  lemma EncodeGet(m: seq<Byte>, p: int, h: Header)
    requires 0 <= p <= |m| - SIZE && Storable(h)
    ensures h.magic == Get(m, p).magic ==> Encode(h)[..2] == m[p..p + 2]
    ensures h.used == Get(m, p).used ==> Encode(h)[2..4] == m[p + 2..p + 4]
    ensures h.next == Get(m, p).next ==> Encode(h)[4..8] == m[p + 4..p + 8]
    ensures h.prev == Get(m, p).prev ==> Encode(h)[8..12] == m[p + 8..p + 12]
    ensures Encode(h) == Encode(h)[..2] + Encode(h)[2..4] + Encode(h)[4..8] + Encode(h)[8..12]
    ensures Encode(h)[2..4] == [h.used % 256, h.used / 256]
    ensures Encode(h)[4..8] == Bytes4(h.next) && Encode(h)[8..12] == Bytes4(h.prev)
  {
    EncodeHalves(m, p, h);
    EncodeWords(m, p, h);
    hide Encode; hide Get; hide Bytes4;
  }

  lemma StoredUsed(m: seq<Byte>, p: int, v: int)
    requires 0 <= p <= |m| - SIZE && 0 <= v < 65536
    ensures Put(m, p, Get(m, p).(used := v)) == m[..p + 2] + [v % 256, v / 256] + m[p + 4..]
  {
    EncodeGet(m, p, Get(m, p).(used := v));
  }

  lemma StoredNext(m: seq<Byte>, p: int, v: int)
    requires 0 <= p <= |m| - SIZE && 0 <= v < WORD
    ensures Put(m, p, Get(m, p).(next := v)) == m[..p + 4] + Bytes4(v) + m[p + 8..]
  {
    EncodeGet(m, p, Get(m, p).(next := v));
  }

  lemma StoredPrev(m: seq<Byte>, p: int, v: int)
    requires 0 <= p <= |m| - SIZE && 0 <= v < WORD
    ensures Put(m, p, Get(m, p).(prev := v)) == m[..p + 8] + Bytes4(v) + m[p + 12..]
  {
    EncodeGet(m, p, Get(m, p).(prev := v));
  }

  /** `Get`, defined everywhere. */
  ghost function At(m: seq<Byte>, p: int): Header {
    if 0 <= p <= |m| - SIZE then Get(m, p) else Header(0, 0, 0, 0)
  }

  /** Only bytes of headers at the offsets `ps` may differ. */
  ghost predicate Touched(m: seq<Byte>, m': seq<Byte>, ps: set<int>) {
    && |m'| == |m|
    && forall i :: 0 <= i < |m| && (forall p :: p in ps ==> !(p <= i < p + SIZE)) ==> m'[i] == m[i]
  }

  ghost predicate Apart(p: int, q: int) {
    q + SIZE <= p || p + SIZE <= q
  }

  /** What storing one header means for all of them. */
  lemma PutEffect(m: seq<Byte>, p: int, h: Header)
    requires 0 <= p <= |m| - SIZE && Storable(h)
    ensures Touched(m, Put(m, p, h), {p})
    ensures At(Put(m, p, h), p) == h
    ensures forall q :: Apart(p, q) ==> At(Put(m, p, h), q) == At(m, q)
  {
    PutBytes(m, p, h);
    GetPut(m, p, h);
    forall q | Apart(p, q) ensures At(Put(m, p, h), q) == At(m, q) {
      if 0 <= q <= |m| - SIZE { GetPutOther(m, p, h, q); }
    }
  }

  lemma TouchedThen(m: seq<Byte>, m': seq<Byte>, m'': seq<Byte>, ps: set<int>, qs: set<int>)
    requires Touched(m, m', ps) && Touched(m', m'', qs)
    ensures Touched(m, m'', ps + qs)
  {}

  lemma TouchedLength(m: seq<Byte>, m': seq<Byte>, ps: set<int>)
    requires Touched(m, m', ps)
    ensures |m'| == |m|
  {}

  lemma TouchedAt(m: seq<Byte>, m': seq<Byte>, ps: set<int>, q: int)
    requires Touched(m, m', ps) && forall p :: p in ps ==> Apart(p, q)
    ensures At(m', q) == At(m, q)
  {
    if 0 <= q <= |m| - SIZE {
      assert m[q..q + SIZE] == m'[q..q + SIZE];
      GetSame(m, m', q);
    }
  }

  /** The buffer itself. Field assignments through a header pointer become stores of the few
      bytes of that field. */
  class Ram {
    const bytes: array<Byte>

    constructor (size: nat)
      ensures fresh(bytes) && bytes.Length == size
    {
      bytes := new Byte[size](_ => 0);
    }

    ghost function View(): seq<Byte>
      reads this, bytes
    {
      bytes[..]
    }

    method Load(p: int) returns (h: Header)
      requires 0 <= p <= bytes.Length - SIZE
      ensures h == At(View(), p) && Storable(h)
    {
      h := Header(Half(bytes[p], bytes[p + 1]), Half(bytes[p + 2], bytes[p + 3]),
                  Word4(bytes[p + 4..p + 8]), Word4(bytes[p + 8..p + 12]));
    }

    method StoreHalf(p: int, v: int)
      requires 0 <= p <= bytes.Length - 2 && 0 <= v < 65536
      modifies bytes
      ensures View() == Over(old(View()), p, [v % 256, v / 256])
    {
      bytes[p], bytes[p + 1] := v % 256, v / 256;
    }

    method StoreWord(p: int, v: int)
      requires 0 <= p <= bytes.Length - 4 && 0 <= v < WORD
      modifies bytes
      ensures View() == Over(old(View()), p, Bytes4(v))
    {
      bytes[p], bytes[p + 1], bytes[p + 2], bytes[p + 3] :=
        v % 65536 % 256, v % 65536 / 256, v / 65536 % 256, v / 65536 / 256;
    }

    method SetUsed(p: int, v: int)
      requires 0 <= p <= bytes.Length - SIZE && 0 <= v < 65536
      modifies bytes
      ensures At(View(), p) == At(old(View()), p).(used := v)
      ensures forall q :: Apart(p, q) ==> At(View(), q) == At(old(View()), q)
      ensures Touched(old(View()), View(), {p})
    {
      StoredUsed(View(), p, v);
      PutEffect(View(), p, Get(View(), p).(used := v));
      StoreHalf(p + 2, v);
    }

    method SetNext(p: int, v: int)
      requires 0 <= p <= bytes.Length - SIZE && 0 <= v < WORD
      modifies bytes
      ensures At(View(), p) == At(old(View()), p).(next := v)
      ensures forall q :: Apart(p, q) ==> At(View(), q) == At(old(View()), q)
      ensures Touched(old(View()), View(), {p})
    {
      StoredNext(View(), p, v);
      PutEffect(View(), p, Get(View(), p).(next := v));
      StoreWord(p + 4, v);
    }

    method SetPrev(p: int, v: int)
      requires 0 <= p <= bytes.Length - SIZE && 0 <= v < WORD
      modifies bytes
      ensures At(View(), p) == At(old(View()), p).(prev := v)
      ensures forall q :: Apart(p, q) ==> At(View(), q) == At(old(View()), q)
      ensures Touched(old(View()), View(), {p})
    {
      StoredPrev(View(), p, v);
      PutEffect(View(), p, Get(View(), p).(prev := v));
      StoreWord(p + 8, v);
    }

    method StoreAll(p: int, h: Header)
      requires 0 <= p <= bytes.Length - SIZE && Storable(h)
      modifies bytes
      ensures View() == Put(old(View()), p, h)
    {
      ghost var m := View();
      EncodeParts(m, p, h);
      hide Over; hide Bytes4; hide Put;
      StoreHalf(p, h.magic);
      StoreHalf(p + 2, h.used);
      StoreWord(p + 4, h.next);
      StoreWord(p + 8, h.prev);
    }

    /** All four fields, as when a block is split. */
    method Create(p: int, h: Header)
      requires 0 <= p <= bytes.Length - SIZE && Storable(h)
      modifies bytes
      ensures At(View(), p) == h
      ensures forall q :: Apart(p, q) ==> At(View(), q) == At(old(View()), q)
      ensures Touched(old(View()), View(), {p})
    {
      PutEffect(View(), p, h);
      StoreAll(p, h);
    }

    /** rt_memcpy between ranges that do not overlap. */
    method Copy(dst: int, src: int, n: int)
      requires 0 <= n && 0 <= src <= bytes.Length - n && 0 <= dst <= bytes.Length - n
      requires src + n <= dst || dst + n <= src
      modifies bytes
      ensures forall i :: 0 <= i < bytes.Length ==>
        bytes[i] == if dst <= i < dst + n then old(bytes[src + i - dst]) else old(bytes[i])
    {
      var k := 0;
      while k < n
        invariant 0 <= k <= n
        invariant forall i :: 0 <= i < bytes.Length ==>
          bytes[i] == if dst <= i < dst + k then old(bytes[src + i - dst]) else old(bytes[i])
      {
        bytes[dst + k] := bytes[src + k];
        k := k + 1;
      }
    }
  }
}
