/** Find-first-set and the two-level ready bitmap (src/kservice.c, src/scheduler.c). */
module Bitmap {

  // ---- single bits --------------------------------------------------------------------------

  function M8(b: nat): bv8
    requires b < 8
  {
    1 << b
  }

  function M32(n: nat): bv32
    requires n < 32
  {
    1 << n
  }

  predicate Has8(x: bv8, b: nat)
    requires b < 8
  {
    x & M8(b) != 0
  }

  function Common(x: bv32, m: bv32): bv32 {
    x & m
  }

  predicate Meets(x: bv32, m: bv32) {
    Common(x, m) != 0
  }

  predicate Has32(x: bv32, n: nat)
    requires n < 32
  {
    Meets(x, M32(n))
  }

  lemma Values8(b: nat)
    requires b < 8
    ensures M8(b) == [1, 2, 4, 8, 16, 32, 64, 128][b]
  {
    if b == 0 {} else if b == 1 {} else if b == 2 {} else if b == 3 {}
    else if b == 4 {} else if b == 5 {} else if b == 6 {} else {}
  }

  lemma Set8(x: bv8, m: bv8, n: bv8)
    ensures m & n == 0 ==> ((x | m) & n == x & n && (x & !m) & n == x & n)
    ensures (x | m) & m == m && (x & !m) & m == 0
  {}

  function SetGroup(x: bv32, m: bv32): bv32 {
    x | m
  }

  function ClearGroup(x: bv32, m: bv32): bv32 {
    x & !m
  }

  lemma OrApart(x: bv32, m: bv32, n: bv32)
    ensures Common(m, n) == 0 ==> Common(SetGroup(x, m), n) == Common(x, n)
  {}

  lemma WithoutApart(x: bv32, m: bv32, n: bv32)
    ensures Common(m, n) == 0 ==> Common(ClearGroup(x, m), n) == Common(x, n)
  {}

  lemma Set32(x: bv32, m: bv32, n: bv32)
    requires !Meets(m, n)
    ensures Meets(SetGroup(x, m), n) == Meets(x, n)
  {
    hide Common; hide SetGroup;
    OrApart(x, m, n);
  }

  lemma Clear32(x: bv32, m: bv32, n: bv32)
    requires !Meets(m, n)
    ensures Meets(ClearGroup(x, m), n) == Meets(x, n)
  {
    hide Common; hide ClearGroup;
    WithoutApart(x, m, n);
  }

  lemma Own32(x: bv32, m: bv32)
    requires m != 0
    ensures Meets(SetGroup(x, m), m) && !Meets(ClearGroup(x, m), m)
  {}

  lemma Apart8(b: nat, c: nat)
    requires b < 8 && c < 8
    ensures M8(b) != 0 && (b != c ==> M8(b) & M8(c) == 0)
  {
    Values8(b);
    Values8(c);
  }

  lemma Zero8(x: bv8)
    ensures x == 0 <==> forall b :: 0 <= b < 8 ==> !Has8(x, b)
  {
    if forall b :: 0 <= b < 8 ==> !Has8(x, b) {
      assert !Has8(x, 0) && !Has8(x, 1) && !Has8(x, 2) && !Has8(x, 3);
      assert !Has8(x, 4) && !Has8(x, 5) && !Has8(x, 6) && !Has8(x, 7);
    }
  }

  /** The byte `x` at place `i` of a word. */
  function Place(x: bv8, i: nat): bv32
    requires i < 4
  {
    var w := x as bv32;
    if i == 0 then w else if i == 1 then w << 8 else if i == 2 then w << 16 else w << 24
  }

  lemma PlacesApart(x: bv8, y: bv8, i: nat, j: nat)
    requires i < j < 4
    ensures Place(x, i) & Place(y, j) == 0
  {}

  lemma PlaceMeet(x: bv8, y: bv8, i: nat)
    requires i < 4
    ensures Place(x, i) & Place(y, i) == 0 <==> x & y == 0
    ensures Place(x, i) != 0 <==> x != 0
  {}

  lemma Byte0(b: nat)
    requires b < 8
    ensures M32(b) == Place(M8(b), 0)
  {
    Values8(b);
  }

  lemma Byte1(b: nat)
    requires b < 8
    ensures M32(8 + b) == Place(M8(b), 1)
  {
    Values8(b);
  }

  lemma Byte2(b: nat)
    requires b < 8
    ensures M32(16 + b) == Place(M8(b), 2)
  {
    Values8(b);
  }

  lemma Byte3(b: nat)
    requires b < 8
    ensures M32(24 + b) == Place(M8(b), 3)
  {
    Values8(b);
  }

  /** A bit of a word is a bit of one of its bytes. */
  lemma Split32(n: nat)
    requires n < 32
    ensures M32(n) == Place(M8(n % 8), n / 8)
  {
    hide M32; hide M8; hide Place;
    var b := n % 8;
    if n < 8 { Byte0(b); } else if n < 16 { Byte1(b); } else if n < 24 { Byte2(b); } else { Byte3(b); }
  }

  lemma PartsApart(i: nat, b: nat, j: nat, c: nat)
    requires i < 4 && b < 8 && j < 4 && c < 8
    ensures Place(M8(b), i) != 0
    ensures i != j || b != c ==> Place(M8(b), i) & Place(M8(c), j) == 0
  {
    hide M8; hide Place;
    Apart8(b, c);
    PlaceMeet(M8(b), M8(c), i);
    if i < j { PlacesApart(M8(b), M8(c), i, j); }
    if j < i { PlacesApart(M8(c), M8(b), j, i); }
  }

  lemma Apart32(a: nat, b: nat)
    requires a < 32 && b < 32
    ensures M32(a) != 0 && (a != b ==> !Meets(M32(a), M32(b)))
  {
    hide M8; hide M32; hide Place;
    Split32(a);
    Split32(b);
    PartsApart(a / 8, a % 8, b / 8, b % 8);
  }

  // ---- __rt_ffs -----------------------------------------------------------------------------

  /** Entries 1 to 15 of every row of __lowest_bit_bitmap, and its first column. */
  const LOW: seq<nat> := [0, 0, 1, 0, 2, 0, 1, 0, 3, 0, 1, 0, 2, 0, 1, 0]
  const COLUMN: seq<nat> := [0, 4, 5, 4, 6, 4, 5, 4, 7, 4, 5, 4, 6, 4, 5, 4]

  function Lowest(x: bv8): nat {
    if x & 0x0f != 0 then LOW[(x & 0x0f) as nat] else COLUMN[(x >> 4) as nat]
  }

  /** `b` is the lowest bit of `x`. */
  ghost predicate First8(x: bv8, b: nat) {
    b < 8 && Has8(x, b) && forall c :: 0 <= c < b ==> !Has8(x, c)
  }

  lemma LowestIsFirst(x: bv8)
    requires x != 0
    ensures First8(x, Lowest(x))
  {
  }

  function Byte(v: bv32, i: nat): bv8
    requires i < 4
  {
    if i == 0 then (v & 0xff) as bv8
    else if i == 1 then ((v & 0xff00) >> 8) as bv8
    else if i == 2 then ((v & 0xff0000) >> 16) as bv8
    else ((v & 0xff000000) >> 24) as bv8
  }

  function Ffs(v: bv32): nat {
    if v == 0 then 0
    else if v & 0xff != 0 then Lowest(Byte(v, 0)) + 1
    else if v & 0xff00 != 0 then Lowest(Byte(v, 1)) + 9
    else if v & 0xff0000 != 0 then Lowest(Byte(v, 2)) + 17
    else Lowest(Byte(v, 3)) + 25
  }

  lemma HasByte(v: bv32, m: bv8, i: nat)
    requires i < 4
    ensures Meets(v, Place(m, i)) <==> Byte(v, i) & m != 0
  {}

  lemma HasSplit(v: bv32, n: nat)
    requires n < 32
    ensures Has32(v, n) <==> Has8(Byte(v, n / 8), n % 8)
  {
    hide M8; hide M32; hide Place; hide Byte;
    Split32(n);
    HasByte(v, M8(n % 8), n / 8);
  }

  /** The byte that decides the result. */
  lemma FfsByte(v: bv32) returns (k: nat)
    requires v != 0
    ensures k < 4 && Byte(v, k) != 0 && Ffs(v) == Lowest(Byte(v, k)) + 8 * k + 1
    ensures forall j :: 0 <= j < k ==> Byte(v, j) == 0
  {
    hide Lowest;
    k := if v & 0xff != 0 then 0 else if v & 0xff00 != 0 then 1 else if v & 0xff0000 != 0 then 2 else 3;
  }

  /** __rt_ffs returns one more than the position of the lowest bit, and 0 only for 0. */
  lemma FfsIsFirst(v: bv32)
    ensures v == 0 <==> Ffs(v) == 0
    ensures v != 0 ==> Ffs(v) <= 32 && Has32(v, Ffs(v) - 1) && forall n :: 0 <= n < Ffs(v) - 1 ==> !Has32(v, n)
  {
    if v != 0 {
      hide Ffs; hide Lowest; hide Byte; hide Has32; hide Has8; hide Meets; hide M32; hide M8; hide First8;
      var k := FfsByte(v);
      var b := Lowest(Byte(v, k));
      LowestIsFirst(Byte(v, k));
      FirstHas(Byte(v, k), b);
      HasSplit(v, 8 * k + b);
      forall n | 0 <= n < 8 * k + b ensures !Has32(v, n) {
        NoneBelow(v, k, b, n);
      }
    }
  }

  lemma FirstHas(x: bv8, b: nat)
    requires First8(x, b)
    ensures b < 8 && Has8(x, b)
  {}

  lemma NoneBelow(v: bv32, k: nat, b: nat, n: nat)
    requires k < 4 && n < 8 * k + b && First8(Byte(v, k), b) && forall j :: 0 <= j < k ==> Byte(v, j) == 0
    ensures !Has32(v, n)
  {
    hide Byte; hide Has32; hide Has8;
    HasSplit(v, n);
    if n / 8 < k { Zero8(Byte(v, n / 8)); }
  }

  // ---- the ready bitmap -----------------------------------------------------------------------

  const PRIORITIES := 256
  const WORDS := 32

  predicate Marked(table: seq<bv8>, p: nat)
    requires |table| == WORDS && p < PRIORITIES
  {
    Has8(table[p / 8], p % 8)
  }

  /** Bit b of entry n is set iff list 8n + b is non-empty, and group bit n iff entry n is non-zero. */
  ghost predicate Agrees(lists: seq<seq<int>>, table: seq<bv8>, group: bv32) {
    && |lists| == PRIORITIES && |table| == WORDS
    && (forall p :: 0 <= p < PRIORITIES ==> (Marked(table, p) <==> lists[p] != []))
    && (forall n :: 0 <= n < WORDS ==> (Has32(group, n) <==> table[n] != 0))
  }

  function Mark(table: seq<bv8>, p: nat): seq<bv8>
    requires |table| == WORDS && p < PRIORITIES
  {
    table[p / 8 := table[p / 8] | M8(p % 8)]
  }

  function Clear(x: bv8, m: bv8): bv8 {
    x & !m
  }

  function Unmark(table: seq<bv8>, p: nat): seq<bv8>
    requires |table| == WORDS && p < PRIORITIES
  {
    table[p / 8 := Clear(table[p / 8], M8(p % 8))]
  }

  lemma MarkedSet(table: seq<bv8>, p: nat, q: nat)
    requires |table| == WORDS && p < PRIORITIES && q < PRIORITIES
    ensures Marked(Mark(table, p), q) <==> q == p || Marked(table, q)
  {
    hide M8;
    if q / 8 == p / 8 {
      Apart8(p % 8, q % 8);
      Set8(table[p / 8], M8(p % 8), M8(q % 8));
    }
  }

  lemma MarkedClear(table: seq<bv8>, p: nat, q: nat)
    requires |table| == WORDS && p < PRIORITIES && q < PRIORITIES
    ensures Marked(Unmark(table, p), q) <==> q != p && Marked(table, q)
  {
    hide M8;
    if q / 8 == p / 8 {
      Apart8(p % 8, q % 8);
      Set8(table[p / 8], M8(p % 8), M8(q % 8));
    }
  }

  lemma GroupSame(group: bv32, n: nat)
    requires n < 32
    ensures Has32(SetGroup(group, M32(n)), n) && !Has32(ClearGroup(group, M32(n)), n)
  {
    hide M32; hide Meets; hide SetGroup; hide ClearGroup;
    Apart32(n, n);
    Own32(group, M32(n));
  }

  lemma GroupOther(group: bv32, n: nat, k: nat)
    requires n < 32 && k < 32 && n != k
    ensures Has32(SetGroup(group, M32(n)), k) == Has32(ClearGroup(group, M32(n)), k) == Has32(group, k)
  {
    hide M32; hide Meets; hide SetGroup; hide ClearGroup;
    Apart32(n, k);
    Set32(group, M32(n), M32(k));
    Clear32(group, M32(n), M32(k));
  }

  lemma GroupAfter(group: bv32, n: nat, k: nat)
    requires n < 32 && k < 32
    ensures Has32(SetGroup(group, M32(n)), k) <==> k == n || Has32(group, k)
    ensures Has32(ClearGroup(group, M32(n)), k) <==> k != n && Has32(group, k)
  {
    hide M32; hide Has32; hide SetGroup; hide ClearGroup;
    if k == n { GroupSame(group, n); } else { GroupOther(group, n, k); }
  }

  lemma NonZero8(x: bv8, b: nat)
    requires b < 8
    ensures x | M8(b) != 0
  {
    Apart8(b, b);
  }

  /** Filling a list: its mark and the mark of its group are set. */
  lemma FillAgrees(lists: seq<seq<int>>, table: seq<bv8>, group: bv32, p: nat, row: seq<int>)
    requires Agrees(lists, table, group) && p < PRIORITIES && row != []
    ensures Agrees(lists[p := row], Mark(table, p), SetGroup(group, M32(p / 8)))
  {
    hide Has32; hide Marked; hide M8; hide M32; hide SetGroup; hide ClearGroup;
    forall q | 0 <= q < PRIORITIES { MarkedSet(table, p, q); }
    forall n | 0 <= n < WORDS { GroupAfter(group, p / 8, n); }
    NonZero8(table[p / 8], p % 8);
  }

  /** Emptying a list: its mark is cleared, and the mark of its group with the last of them. */
  lemma DrainAgrees(lists: seq<seq<int>>, table: seq<bv8>, group: bv32, p: nat)
    requires Agrees(lists, table, group) && p < PRIORITIES
    ensures Unmark(table, p)[p / 8] == 0 ==> Agrees(lists[p := []], Unmark(table, p), ClearGroup(group, M32(p / 8)))
    ensures Unmark(table, p)[p / 8] != 0 ==> Agrees(lists[p := []], Unmark(table, p), group)
  {
    hide Has32; hide Marked; hide M8; hide M32; hide SetGroup; hide ClearGroup;
    forall q | 0 <= q < PRIORITIES { MarkedClear(table, p, q); }
    forall n | 0 <= n < WORDS { GroupAfter(group, p / 8, n); }
    Subset8(table[p / 8], M8(p % 8));
  }

  /** A list that stays non-empty keeps its marks. */
  lemma StayAgrees(lists: seq<seq<int>>, table: seq<bv8>, group: bv32, p: nat, row: seq<int>)
    requires Agrees(lists, table, group) && p < PRIORITIES && row != [] && lists[p] != []
    ensures Agrees(lists[p := row], table, group)
  {
    hide Has32; hide Marked;
  }

  lemma Subset8(x: bv8, m: bv8)
    ensures x & !m != 0 ==> x != 0
  {}

  /** _get_highest_priority_thread: the priority it finds. */
  function Top(table: seq<bv8>, group: bv32): int
    requires |table| == WORDS
  {
    var number := Ffs(group) - 1;
    if 0 <= number < WORDS then number * 8 + Ffs(table[number] as bv32) - 1 else -1
  }

  lemma FfsOfByte(x: bv8)
    requires x != 0
    ensures Ffs(x as bv32) == Lowest(x) + 1
  {
    hide Lowest;
    assert Byte(x as bv32, 0) == x;
  }

  /** The bitmap finds the lowest non-empty list, and says whether there is one. */
  lemma TopIsLeast(lists: seq<seq<int>>, table: seq<bv8>, group: bv32)
    requires Agrees(lists, table, group)
    ensures group == 0 <==> forall p :: 0 <= p < PRIORITIES ==> lists[p] == []
    ensures group != 0 ==> var p := Top(table, group);
      0 <= p < PRIORITIES && lists[p] != [] && forall q :: 0 <= q < p ==> lists[q] == []
  {
    hide Has32; hide Ffs; hide Has8;
    FfsIsFirst(group);
    if group != 0 {
      TopFound(lists, table, group);
    } else {
      forall p | 0 <= p < PRIORITIES ensures lists[p] == [] {
        NoBits(p / 8);
        NoneAt(table, group, p);
      }
    }
  }

  lemma NoneAt(table: seq<bv8>, group: bv32, p: nat)
    requires |table| == WORDS && p < PRIORITIES && (Has32(group, p / 8) <==> table[p / 8] != 0) && !Has32(group, p / 8)
    ensures !Marked(table, p)
  {
    Zero8(table[p / 8]);
  }

  lemma NoBits(n: nat)
    requires n < 32
    ensures !Has32(0, n)
  {}

  lemma TopFound(lists: seq<seq<int>>, table: seq<bv8>, group: bv32)
    requires Agrees(lists, table, group) && group != 0
    ensures var p := Top(table, group);
      0 <= p < PRIORITIES && lists[p] != [] && forall q :: 0 <= q < p ==> lists[q] == []
  {
    hide Has32; hide Ffs; hide Has8; hide Lowest;
    FfsIsFirst(group);
    var n := Ffs(group) - 1;
    LowestIsFirst(table[n]);
    FfsOfByte(table[n]);
    var b := Lowest(table[n]);
    assert Top(table, group) == n * 8 + b;
    assert Marked(table, n * 8 + b);
    forall q | 0 <= q < n * 8 + b ensures !Marked(table, q) {
      if q / 8 < n { Zero8(table[q / 8]); }
    }
  }
}
