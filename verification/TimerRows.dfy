/** The rows of the timer list of src/timer.c, each a shortcut through the row below, and the search for
    the place of a timer by 32-bit deadlines that wrap around.

    A row is the sequence of timers linked at that level; the last row holds all of them. */
module TimerRows {
  import opened SortedRow
  import opened TimerSpec

  const WORD := 0x1_0000_0000

  // ---- wrapping deadlines -------------------------------------------------------------------

  /** The code's test that deadline `a` comes after deadline `b`. */
  predicate Later32(a: int, b: int) {
    (a - b) % WORD != 0 && (a - b) % WORD < HALF
  }

  /** The code's test that deadline `b` has been reached at tick `a`. */
  predicate Reached32(a: int, b: int) {
    (a - b) % WORD < HALF
  }

  /** The wrapping tests are the true comparisons exactly if the first deadline is less than half the
      range after the second and no more than half the range before it. */
  lemma WrapCompare(x: int, y: int)
    requires -WORD < x - y < WORD
    ensures (Later32(x % WORD, y % WORD) <==> x > y) <==> HALF - WORD <= x - y < HALF
    ensures (Reached32(x % WORD, y % WORD) <==> x >= y) <==> HALF - WORD <= x - y < HALF
  {
    var d := x - y;
    assert (x % WORD - y % WORD) % WORD == d % WORD;
  }

  /** The search stops at a timer whose deadline is less than half the range after `d`, and also at one
      more than half the range before it. */
  predicate Stops(x: int, d: int) {
    0 < x - d < HALF || x - d < HALF - WORD
  }

  lemma LaterStops(x: int, d: int)
    requires -WORD < x - d < WORD
    ensures Later32(x % WORD, d % WORD) <==> Stops(x, d)
  {
    assert (x % WORD - d % WORD) % WORD == (x - d) % WORD;
  }

  // ---- rows ---------------------------------------------------------------------------------

  /** `a` is what remains of `b` after leaving out some timers. */
  ghost predicate Under(a: seq<int>, b: seq<int>) {
    if a == [] then true
    else if b == [] then false
    else if a[0] == b[0] then Under(a[1..], b[1..])
    else Under(a, b[1..])
  }

  lemma {:induction false} UnderMembers(a: seq<int>, b: seq<int>)
    requires Under(a, b)
    ensures forall x :: x in a ==> x in b
  {
    if a != [] {
      Uncons(a);
      Uncons(b);
      if a[0] == b[0] { UnderMembers(a[1..], b[1..]); } else { UnderMembers(a, b[1..]); }
    }
  }

  lemma {:induction false} UnderRemove(a: seq<int>, b: seq<int>, t: int)
    requires Under(a, b) && Distinct(b) && Distinct(a)
    ensures Under(Remove(a, t), Remove(b, t))
  {
    if a != [] {
      Uncons(b);
      if a[0] == b[0] {
        UnderRemove(a[1..], b[1..], t);
        if a[0] != t { UnderCons(a[0], Remove(a[1..], t), Remove(b[1..], t)); }
      } else {
        UnderRemove(a, b[1..], t);
        if b[0] != t {
          UnderMembers(a, b[1..]);
          RemoveMembers(a, t);
          UnderSkip(Remove(a, t), b[0], Remove(b[1..], t));
        }
      }
    }
  }

  lemma UnderCons(x: int, a: seq<int>, b: seq<int>)
    requires Under(a, b)
    ensures Under([x] + a, [x] + b)
  {
    assert ([x] + a)[1..] == a && ([x] + b)[1..] == b;
  }

  lemma UnderSkip(a: seq<int>, x: int, b: seq<int>)
    requires Under(a, b) && x !in a
    ensures Under(a, [x] + b)
  {
    assert ([x] + b)[1..] == b;
  }

  /** Inserting the same timer into a row and into its shortcut, or into the row alone, keeps the shortcut. */
  lemma {:induction false} UnderInsert(a: seq<int>, b: seq<int>, due: map<int, int>, t: int)
    requires Under(a, b) && Sorted(b, due) && Distinct(b) && t !in b
    ensures Under(Insert(a, due, t), Insert(b, due, t)) && Under(a, Insert(b, due, t))
  {
    UnderMembers(a, b);
    if b == [] {
    } else {
      Uncons(b);
      if Key(due, b[0]) <= Key(due, t) {
        if a != [] && a[0] == b[0] {
          Uncons(a);
          UnderInsert(a[1..], b[1..], due, t);
          UnderCons(b[0], Insert(a[1..], due, t), Insert(b[1..], due, t));
          UnderCons(b[0], a[1..], Insert(b[1..], due, t));
        } else {
          UnderInsert(a, b[1..], due, t);
          UnderMembers(a, b[1..]);
          InsertMembers(a, due, t);
          UnderSkip(Insert(a, due, t), b[0], Insert(b[1..], due, t));
          UnderSkip(a, b[0], Insert(b[1..], due, t));
        }
      } else {
        if a != [] { assert a[0] in b; }
        UnderCons(t, a, b);
        UnderSkip(a, t, b);
      }
    }
  }

  // ---- several rows -------------------------------------------------------------------------

  /** Every row is sorted and without duplicates, and is a shortcut through the row below. */
  ghost predicate RowsOk(rows: seq<seq<int>>, due: map<int, int>) {
    && |rows| > 0
    && (forall r :: 0 <= r < |rows| ==> Distinct(rows[r]) && Sorted(rows[r], due))
    && (forall r :: 0 <= r < |rows| - 1 ==> Under(rows[r], rows[r + 1]))
  }

  ghost function Bottom(rows: seq<seq<int>>): seq<int>
    requires |rows| > 0
  {
    rows[|rows| - 1]
  }

  lemma {:induction false} RowMembers(rows: seq<seq<int>>, due: map<int, int>, r: nat)
    requires RowsOk(rows, due) && r < |rows|
    ensures forall x :: x in rows[r] ==> x in Bottom(rows)
    decreases |rows| - r
  {
    if r < |rows| - 1 {
      UnderMembers(rows[r], rows[r + 1]);
      RowMembers(rows, due, r + 1);
    }
  }

  /** Taking a timer out of every row keeps the rows. */
  lemma RemovedOk(rows: seq<seq<int>>, rows': seq<seq<int>>, due: map<int, int>, t: int)
    requires RowsOk(rows, due) && |rows'| == |rows| && forall r :: 0 <= r < |rows| ==> rows'[r] == Remove(rows[r], t)
    ensures RowsOk(rows', due) && forall r :: 0 <= r < |rows'| ==> t !in rows'[r]
  {
    forall r | 0 <= r < |rows| ensures Distinct(rows'[r]) && Sorted(rows'[r], due) && t !in rows'[r] {
      RemoveKeeps(rows[r], due, t);
    }
    forall r | 0 <= r < |rows| - 1 ensures Under(rows'[r], rows'[r + 1]) {
      UnderRemove(rows[r], rows[r + 1], t);
    }
  }

  lemma {:induction false} UnderSorted(a: seq<int>, b: seq<int>, due: map<int, int>)
    requires Under(a, b) && Sorted(b, due)
    ensures Sorted(a, due)
  {
    if a != [] {
      if a[0] == b[0] {
        UnderMembers(a[1..], b[1..]);
        UnderSorted(a[1..], b[1..], due);
      } else {
        UnderSorted(a, b[1..], due);
      }
    }
  }

  lemma {:induction false} RowsUnder(rows: seq<seq<int>>, due: map<int, int>, due': map<int, int>, r: nat)
    requires RowsOk(rows, due) && Sorted(Bottom(rows), due') && r < |rows|
    ensures Sorted(rows[r], due')
    decreases |rows| - r
  {
    if r < |rows| - 1 {
      RowsUnder(rows, due, due', r + 1);
      UnderSorted(rows[r], rows[r + 1], due');
    }
  }

  /** A new deadline that keeps the last row in order keeps all of them. */
  lemma RedatedOk(rows: seq<seq<int>>, due: map<int, int>, t: int, d: int)
    requires RowsOk(rows, due)
    ensures RowsOk(rows, due[t := d]) <==> Fitting(Bottom(rows), due, t, d)
  {
    RekeyedSorted(Bottom(rows), due, t, d);
    if Sorted(Bottom(rows), due[t := d]) {
      forall r | 0 <= r < |rows| ensures Sorted(rows[r], due[t := d]) { RowsUnder(rows, due, due[t := d], r); }
    } else {
      assert !Sorted(rows[|rows| - 1], due[t := d]);
    }
  }

  /** Inserting a timer into the rows from `h` down keeps the rows, whatever `h` is. */
  lemma InsertedOk(rows: seq<seq<int>>, rows': seq<seq<int>>, due: map<int, int>, t: int, h: nat)
    requires RowsOk(rows, due) && |rows'| == |rows| && h < |rows| && forall r :: 0 <= r < |rows| ==> t !in rows[r]
    requires forall r :: 0 <= r < |rows| ==> rows'[r] == if r < h then rows[r] else Insert(rows[r], due, t)
    ensures RowsOk(rows', due) && Bottom(rows') == Insert(Bottom(rows), due, t)
  {
    forall r | 0 <= r < |rows| ensures Distinct(rows'[r]) && Sorted(rows'[r], due) {
      InsertKeeps(rows[r], due, t);
    }
    forall r | 0 <= r < |rows| - 1 ensures Under(rows'[r], rows'[r + 1]) {
      UnderInsert(rows[r], rows[r + 1], due, t);
    }
  }

  // ---- the search ---------------------------------------------------------------------------

  function IndexOf(row: seq<int>, x: int): (i: nat)
    requires x in row
    ensures i < |row| && row[i] == x
  {
    if row[0] == x then 0 else 1 + IndexOf(row[1..], x)
  }

  /** The first timer of the row that is due later than `d`, if any, is less than half the range later. */
  ghost predicate SeesLater(row: seq<int>, due: map<int, int>, d: int) {
    var c := Cut(row, due, d);
    c >= |row| || Key(due, row[c]) < d + HALF
  }

  /** Some timer of the row, and so the first, is due more than half the range before `d`. */
  ghost predicate FarBehind(row: seq<int>, due: map<int, int>, d: int) {
    row != [] && Key(due, row[0]) < d + HALF - WORD
  }

  /** A row without such a timer in which some timer is due no later than `d`. */
  ghost predicate Anchors(row: seq<int>, due: map<int, int>, d: int) {
    !FarBehind(row, due, d) && Cut(row, due, d) > 0
  }

  /** When the search from the top row down finds the right place in the last row. */
  ghost predicate RightPlace(rows: seq<seq<int>>, due: map<int, int>, d: int)
    requires |rows| > 0
  {
    && (forall r :: 0 <= r < |rows| ==> SeesLater(rows[r], due, d))
    && (FarBehind(Bottom(rows), due, d) ==> exists r :: 0 <= r < |rows| && Anchors(rows[r], due, d))
  }

  /** The walk along a row from `from` ends at `i`. */
  ghost predicate Walked(row: seq<int>, due: map<int, int>, d: int, from: nat, i: nat) {
    && from <= i <= |row|
    && (forall j :: from <= j < i ==> !Stops(Key(due, row[j]), d))
    && (i < |row| ==> Stops(Key(due, row[i]), d))
  }

  /** From no later than the right place, past all timers far behind, the walk ends at the right place or,
      if it does not see the next timer, at the end of the row. */
  lemma WalkTrue(row: seq<int>, due: map<int, int>, d: int, from: nat, i: nat)
    requires Sorted(row, due) && Walked(row, due, d, from, i) && from <= Cut(row, due, d)
    requires forall j :: from <= j < |row| ==> Key(due, row[j]) >= d + HALF - WORD
    ensures Cut(row, due, d) <= |row| && i == if SeesLater(row, due, d) then Cut(row, due, d) else |row|
  {
    hide Cut;
    CutPoint(row, due, d);
    var c := Cut(row, due, d);
    if c < |row| {
      forall j | c <= j < |row| ensures Key(due, row[j]) >= Key(due, row[c]) { SortedAt(row, due, c, j); }
    }
    hide Sorted;
  }

  lemma {:induction false} SortedAt(row: seq<int>, key: map<int, int>, i: nat, j: nat)
    requires Sorted(row, key) && i <= j < |row|
    ensures Key(key, row[i]) <= Key(key, row[j])
  {
    if i > 0 {
      SortedAt(row[1..], key, i - 1, j - 1);
    } else if j > 0 {
      assert row[1..][j - 1] == row[j];
      assert row[j] in row[1..];
    }
  }

  /** A walk from the start of a row with a timer far behind ends there. */
  lemma WalkFar(row: seq<int>, due: map<int, int>, d: int, i: nat)
    requires FarBehind(row, due, d) && Walked(row, due, d, 0, i)
    ensures i == 0
  {}

  /** How far the search has come in the rows above `r`: it went past the right place and stays past it;
      or it is right so far; or it has not left the start. */
  datatype Track = High | True | Zero

  ghost predicate Tracked(k: Track, rows: seq<seq<int>>, due: map<int, int>, d: int, heads: seq<nat>, r: nat)
    requires 0 < r <= |rows| && r <= |heads|
  {
    var row, h := rows[r - 1], heads[r - 1];
    match k
    case High => Cut(row, due, d) < h <= |row| && exists q :: 0 <= q < r && !SeesLater(rows[q], due, d)
    case True =>
      && 0 < h <= |row| && Key(due, row[h - 1]) >= d + HALF - WORD
      && (forall q :: 0 <= q < r ==> SeesLater(rows[q], due, d) && heads[q] == Cut(rows[q], due, d))
      && exists q :: 0 <= q < r && Anchors(rows[q], due, d)
    case Zero =>
      && h == 0 && (forall q :: 0 <= q < r ==> !Anchors(rows[q], due, d))
      && (FarBehind(row, due, d) || forall q :: 0 <= q < r ==> SeesLater(rows[q], due, d) && heads[q] == Cut(rows[q], due, d) == 0)
  }

  /** Where the walk along row `r` starts. */
  ghost predicate Entered(rows: seq<seq<int>>, heads: seq<nat>, r: nat, from: nat)
    requires r < |rows| && |heads| == r
  {
    if r == 0 || heads[r - 1] == 0 then from == 0
    else heads[r - 1] <= |rows[r - 1]| && 0 < from <= |rows[r]| && rows[r][from - 1] == rows[r - 1][heads[r - 1] - 1]
  }

  /** Timers far behind in a row are in all rows below. */
  lemma FarBelow(rows: seq<seq<int>>, due: map<int, int>, d: int, r: nat)
    requires RowsOk(rows, due) && 0 < r < |rows| && FarBehind(rows[r - 1], due, d)
    ensures FarBehind(rows[r], due, d)
  {
    var a := rows[r - 1];
    assert Under(rows[r - 1], rows[r - 1 + 1]);
    UnderMembers(a, rows[r]);
    assert a[0] in a;
    var j :| 0 <= j < |rows[r]| && rows[r][j] == a[0];
    SortedAt(rows[r], due, 0, j);
  }

  lemma TrackHigh(rows: seq<seq<int>>, due: map<int, int>, d: int, heads: seq<nat>, r: nat, from: nat, i: nat)
    requires RowsOk(rows, due) && 0 < r < |rows| && |heads| == r && Tracked(High, rows, due, d, heads, r)
    requires Entered(rows, heads, r, from) && Walked(rows[r], due, d, from, i)
    ensures Tracked(High, rows, due, d, heads + [i], r + 1)
  {
    CutPoint(rows[r - 1], due, d);
    CutPoint(rows[r], due, d);
    hide Cut; hide Sorted;
    var h := heads[r - 1];
    assert Key(due, rows[r - 1][h - 1]) > d;
  }

  lemma TrackTrue(rows: seq<seq<int>>, due: map<int, int>, d: int, heads: seq<nat>, r: nat, from: nat, i: nat)
    requires RowsOk(rows, due) && 0 < r < |rows| && |heads| == r && Tracked(True, rows, due, d, heads, r)
    requires Entered(rows, heads, r, from) && Walked(rows[r], due, d, from, i)
    ensures SeesLater(rows[r], due, d) ==> Tracked(True, rows, due, d, heads + [i], r + 1)
    ensures !SeesLater(rows[r], due, d) ==> Tracked(High, rows, due, d, heads + [i], r + 1)
  {
    hide Sorted; hide RowsOk; hide Walked; hide Entered; hide Anchors; hide Cut;
    TrueHead(rows, due, d, heads, r, from);
    WalkFrom(rows[r], due, d, from, i);
    assert forall q :: 0 <= q < r ==> (heads + [i])[q] == heads[q];
  }

  lemma TrueHead(rows: seq<seq<int>>, due: map<int, int>, d: int, heads: seq<nat>, r: nat, from: nat)
    requires RowsOk(rows, due) && 0 < r < |rows| && |heads| == r && Tracked(True, rows, due, d, heads, r) && Entered(rows, heads, r, from)
    ensures Sorted(rows[r], due) && 0 < from <= |rows[r]| && d + HALF - WORD <= Key(due, rows[r][from - 1]) <= d
  {
    CutPoint(rows[r - 1], due, d);
    hide Cut; hide Sorted; hide Under; hide Distinct;
  }

  /** The walk from behind a timer that is due no later and not far behind. */
  lemma WalkFrom(row: seq<int>, due: map<int, int>, d: int, from: nat, i: nat)
    requires Sorted(row, due) && Walked(row, due, d, from, i) && 0 < from && d + HALF - WORD <= Key(due, row[from - 1]) <= d
    ensures Cut(row, due, d) <= |row| && i == if SeesLater(row, due, d) then Cut(row, due, d) else |row|
    ensures 0 < i && Key(due, row[i - 1]) >= d + HALF - WORD && Cut(row, due, d) > 0
  {
    CutPoint(row, due, d);
    forall j | from - 1 <= j < |row| ensures Key(due, row[j]) >= d + HALF - WORD { SortedAt(row, due, from - 1, j); }
    WalkTrue(row, due, d, from, i);
    hide Sorted; hide Cut;
  }

  lemma TrackFar(rows: seq<seq<int>>, due: map<int, int>, d: int, heads: seq<nat>, r: nat, i: nat)
    requires r < |rows| && |heads| == r && (r == 0 || Tracked(Zero, rows, due, d, heads, r))
    requires Walked(rows[r], due, d, 0, i) && FarBehind(rows[r], due, d)
    ensures Tracked(Zero, rows, due, d, heads + [i], r + 1)
  {
    WalkFar(rows[r], due, d, i);
    hide Walked; hide Cut; hide SeesLater;
  }

  /** The walk from the start of a row with no timer far behind. */
  lemma WalkNear(row: seq<int>, due: map<int, int>, d: int, i: nat)
    requires Sorted(row, due) && Walked(row, due, d, 0, i) && !FarBehind(row, due, d)
    ensures Cut(row, due, d) <= |row| && i == if SeesLater(row, due, d) then Cut(row, due, d) else |row|
    ensures i > 0 ==> Key(due, row[i - 1]) >= d + HALF - WORD
  {
    forall j | 0 <= j < |row| ensures Key(due, row[j]) >= d + HALF - WORD { SortedAt(row, due, 0, j); }
    WalkTrue(row, due, d, 0, i);
  }

  lemma TrackNear(rows: seq<seq<int>>, due: map<int, int>, d: int, heads: seq<nat>, r: nat, i: nat) returns (k: Track)
    requires r < |rows| && |heads| == r && (r == 0 || (Tracked(Zero, rows, due, d, heads, r) && !FarBehind(rows[r - 1], due, d)))
    requires Sorted(rows[r], due) && Walked(rows[r], due, d, 0, i) && !FarBehind(rows[r], due, d)
    ensures Tracked(k, rows, due, d, heads + [i], r + 1)
  {
    var row, hs := rows[r], heads + [i];
    WalkNear(row, due, d, i);
    hide Cut; hide Sorted; hide Walked; hide FarBehind;
    assert forall q :: 0 <= q < r ==> hs[q] == heads[q];
    if !SeesLater(row, due, d) {
      k := High;
    } else if i > 0 {
      assert Anchors(row, due, d);
      k := True;
    } else {
      k := Zero;
    }
  }

  lemma TrackZero(rows: seq<seq<int>>, due: map<int, int>, d: int, heads: seq<nat>, r: nat, i: nat) returns (k: Track)
    requires RowsOk(rows, due) && r < |rows| && |heads| == r && (r == 0 || Tracked(Zero, rows, due, d, heads, r))
    requires Walked(rows[r], due, d, 0, i)
    ensures Tracked(k, rows, due, d, heads + [i], r + 1)
  {
    hide Tracked; hide Walked; hide FarBehind; hide Under; hide Distinct; hide Sorted;
    if FarBehind(rows[r], due, d) {
      TrackFar(rows, due, d, heads, r, i);
      k := Zero;
    } else {
      if r > 0 && FarBehind(rows[r - 1], due, d) { FarBelow(rows, due, d, r); }
      k := TrackNear(rows, due, d, heads, r, i);
    }
  }

  /** One row further down. */
  lemma TrackNext(k: Track, rows: seq<seq<int>>, due: map<int, int>, d: int, heads: seq<nat>, r: nat, from: nat, i: nat) returns (n: Track)
    requires RowsOk(rows, due) && r < |rows| && |heads| == r && (r > 0 ==> Tracked(k, rows, due, d, heads, r))
    requires Entered(rows, heads, r, from) && Walked(rows[r], due, d, from, i)
    ensures Tracked(n, rows, due, d, heads + [i], r + 1)
  {
    if r == 0 || k == Zero {
      assert from == 0;
      hide Tracked; hide RowsOk; hide Walked;
      n := TrackZero(rows, due, d, heads, r, i);
    } else {
      hide Tracked; hide RowsOk; hide Walked; hide Entered; hide SeesLater;
      if k == High {
        TrackHigh(rows, due, d, heads, r, from, i);
        n := High;
      } else {
        TrackTrue(rows, due, d, heads, r, from, i);
        n := if SeesLater(rows[r], due, d) then True else High;
      }
    }
  }

  /** The search ends at the right place in the last row exactly under RightPlace, and then is right in all
      rows. Otherwise it ends past the place, or in front of a timer far behind. */
  lemma TrackEnds(k: Track, rows: seq<seq<int>>, due: map<int, int>, d: int, heads: seq<nat>)
    requires RowsOk(rows, due) && |heads| == |rows| && Tracked(k, rows, due, d, heads, |rows|)
    ensures var h, c := heads[|rows| - 1], Cut(Bottom(rows), due, d);
      && h <= |Bottom(rows)| && c <= |Bottom(rows)|
      && (h == c <==> RightPlace(rows, due, d))
      && (!RightPlace(rows, due, d) ==> h > c || (h == 0 && FarBehind(Bottom(rows), due, d)))
    ensures RightPlace(rows, due, d) ==> forall r :: 0 <= r < |rows| ==> heads[r] == Cut(rows[r], due, d)
  {
    CutPoint(rows[|rows| - 1], due, d);
    hide Sorted; hide Cut; hide Distinct; hide Under;
    if k == Zero && FarBehind(Bottom(rows), due, d) {
      assert Key(due, Bottom(rows)[0]) <= d;
    }
  }
}
