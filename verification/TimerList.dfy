/** The timer list of src/timer.c as it is built: several rows of linked lists, ordered by 32-bit deadlines
    that wrap around. */
module TimerList {
  import opened SortedRow
  import opened TimerRows
  import opened TimerRuns
  import opened TimerSpec

  /** The stored 32-bit deadlines are the integer deadlines, wrapped. */
  ghost predicate Clocked(timeout: map<int, int>, due: map<int, int>) {
    forall x :: x in due ==> x in timeout && timeout[x] == due[x] % WORD
  }

  ghost predicate Within(row: seq<int>, due: map<int, int>, lo: int, hi: int) {
    forall x :: x in row ==> x in due && lo <= due[x] <= hi
  }

  /** No interval is longer than `reach`, and no timer is inserted more than `late` ticks after its deadline. */
  ghost predicate Near(s: State, reach: int, late: int) {
    && (forall x :: x in s.period ==> s.period[x] <= reach)
    && (forall x :: x in s.due ==> s.due[x] <= s.now + reach && x in s.period)
    && (forall x :: x in s.list ==> NearAt(s, x, late))
  }

  ghost predicate NearAt(s: State, x: int, late: int) {
    x in s.due && Key(s.armed, x) <= s.now && Key(s.armed, x) - late <= s.due[x] && FireTime(s, x) >= s.now
  }

  lemma RowsExist(rows: seq<seq<int>>, due: map<int, int>)
    requires RowsOk(rows, due)
    ensures |rows| > 0
  {}

  lemma DetachedNear(s: State, t: int, reach: int, late: int)
    requires Near(s, reach, late)
    ensures Near(s.(list := Remove(s.list, t)), reach, late)
  {
    RemoveMembers(s.list, t);
    forall x | x in Remove(s.list, t) ensures NearAt(s.(list := Remove(s.list, t)), x, late) { assert NearAt(s, x, late); }
  }

  lemma StampedNear(s: State, timeout: map<int, int>, tick: int, t: int, reach: int, late: int)
    requires Near(s, reach, late) && -1 <= late && Clocked(timeout, s.due) && tick == s.now % WORD && t in s.period
    ensures Near(StampTimer(s, t), reach, late)
    ensures Clocked(timeout[t := (tick + s.period[t]) % WORD], StampTimer(s, t).due)
  {
    assert (tick + s.period[t]) % WORD == (s.now + s.period[t]) % WORD;
    forall x | x in s.list ensures NearAt(StampTimer(s, t), x, late) { assert NearAt(s, x, late); }
  }

  lemma ArmedNear(s: State, t: int, reach: int, late: int)
    requires Near(s, reach, late) && t in s.due && t !in s.list && s.now - late <= s.due[t]
    ensures Near(ArmTimer(s, t), reach, late)
  {
    InsertMembers(s.list, s.due, t);
    var r := ArmTimer(s, t);
    forall x | x in r.list ensures NearAt(r, x, late) { if x != t { assert NearAt(s, x, late); } }
  }

  /** The bounds on intervals and lateness. */
  ghost predicate Bounds(reach: int, late: int) {
    1 <= reach < HALF && -1 <= late && reach + late < HALF
  }

  /** A timer that is inserted less than about the whole range after its deadline. */
  lemma NearWithin(s: State, t: int, reach: int, late: int)
    requires Near(s, reach, late) && Bounds(reach, late) && t in s.due && s.now + reach - WORD < s.due[t]
    ensures Within(s.list, s.due, s.due[t] - WORD + 1, s.due[t] + WORD - 1)
  {
    forall x | x in s.list ensures x in s.due && s.due[t] - WORD + 1 <= s.due[x] <= s.due[t] + WORD - 1 {
      assert NearAt(s, x, late);
    }
  }

  /** An insertion in a state that keeps within `reach` and `late`, and is itself no later than that. */
  ghost predicate Inserts(rows: seq<seq<int>>, s: State, t: int, reach: int, late: int) {
    && RowsOk(rows, s.due) && s.list == rows[|rows| - 1] && Near(s, reach, late)
    && t in s.due && t !in s.list && s.now - late <= s.due[t]
  }

  lemma InsertsRight(rows: seq<seq<int>>, s: State, t: int, reach: int, late: int)
    requires Inserts(rows, s, t, reach, late) && Bounds(reach, late)
    ensures RightPlace(rows, s.due, s.due[t])
  {
    var d := s.due[t];
    forall r | 0 <= r < |rows| ensures SeesLater(rows[r], s.due, d) && !FarBehind(rows[r], s.due, d) {
      RowNear(rows, s, reach, late, r);
      CutPoint(rows[r], s.due, d);
      hide RowsOk; hide Near;
      forall i | 0 <= i < |rows[r]| ensures d + HALF - WORD <= Key(s.due, rows[r][i]) < d + HALF {
        assert rows[r][i] in rows[r];
      }
    }
  }

  lemma RowNear(rows: seq<seq<int>>, s: State, reach: int, late: int, r: nat)
    requires RowsOk(rows, s.due) && s.list == rows[|rows| - 1] && Near(s, reach, late) && r < |rows| && late >= -1
    ensures Sorted(rows[r], s.due)
    ensures forall x :: x in rows[r] ==> x in s.due && s.now - late - 1 <= s.due[x] <= s.now + reach
  {
    RowMembers(rows, s.due, r);
    forall x | x in rows[r] ensures x in s.due && s.now - late - 1 <= s.due[x] <= s.now + reach {
      assert x in s.list;
      assert NearAt(s, x, late);
    }
  }

  /** An insertion that goes wrong: a timer of interval `reach` was just started, and another one is
      inserted half the range before the deadline of that. */
  ghost function WrongState(reach: Interval): State {
    State(0, [2], map[1 := reach - HALF, 2 := reach], map[2 := 0], map[1 := 1, 2 := reach], {}, {2}, [])
  }

  lemma WrongInserts(reach: Interval, late: int)
    requires reach + late >= HALF
    ensures Inserts([[2]], WrongState(reach), 1, reach, late)
    ensures !RightPlace([[2]], WrongState(reach).due, reach - HALF)
  {
    var s := WrongState(reach);
    assert NearAt(s, 2, late);
    assert [2][1..] == [];
    assert !SeesLater([2], s.due, reach - HALF);
    assert [[2]][0] == [2];
  }

  /** Every insertion within `reach` and `late` finds the right place if and only if they add up to less
      than half the range. */
  lemma InsertionsRight(reach: int, late: int)
    requires 1 <= reach < HALF && -1 <= late
    ensures (forall rows, s, t :: Inserts(rows, s, t, reach, late) ==> RightPlace(rows, s.due, s.due[t])) <==> reach + late < HALF
  {
    if reach + late < HALF {
      forall rows, s, t | Inserts(rows, s, t, reach, late) ensures RightPlace(rows, s.due, s.due[t]) {
        InsertsRight(rows, s, t, reach, late);
      }
    } else {
      WrongInserts(reach, late);
      hide Inserts; hide RightPlace;
      var s := WrongState(reach);
      assert Inserts([[2]], s, 1, reach, late) && s.due[1] == reach - HALF;
    }
  }

  lemma ActiveNear(s: State, active: set<int>, reach: int, late: int)
    requires Near(s, reach, late)
    ensures Near(s.(active := active), reach, late)
  {
    forall x | x in s.list ensures NearAt(s.(active := active), x, late) { assert NearAt(s, x, late); }
  }

  lemma LogNear(s: State, log: seq<Fire>, reach: int, late: int)
    requires Near(s, reach, late)
    ensures Near(s.(log := log), reach, late)
  {
    forall x | x in s.list ensures NearAt(s.(log := log), x, late) { assert NearAt(s, x, late); }
  }

  lemma PeriodNear(s: State, t: int, ticks: Interval, reach: int, late: int)
    requires Near(s, reach, late) && ticks <= reach
    ensures Near(SetPeriod(s, t, ticks), reach, late)
  {
    var r := SetPeriod(s, t, ticks);
    forall x | x in r.list ensures NearAt(r, x, late) { assert NearAt(s, x, late); }
  }

  lemma NextTick(s: State, reach: int, late: int)
    requires Quiet(s) && Near(s, reach, late)
    ensures Near(s.(now := s.now + 1), reach, late)
    ensures (s.now % WORD + 1) % WORD == (s.now + 1) % WORD
  {
    var n := s.(now := s.now + 1);
    forall x | x in s.list ensures NearAt(n, x, late) { assert NearAt(s, x, late) && OkAt(s, x, false); }
  }

  lemma StartUnknown(s: State, t: int)
    requires t !in s.period
    ensures StartTimer(s, t) == s
  {}

  lemma StartIs(s: State, t: int)
    requires t in s.period
    ensures StartTimer(s, t) == ArmTimer(StampTimer(UnlinkTimer(s, t), t), t)
  {}

  lemma StampIs(s: State, t: int)
    requires t in s.period
    ensures StampTimer(s, t) == s.(due := s.due[t := s.now + s.period[t]])
  {}

  lemma HeadKnown(rows: seq<seq<int>>, s: State, reach: int, late: int)
    requires RowsOk(rows, s.due) && s.list == Bottom(rows) && s.list != [] && Near(s, reach, late)
    ensures s.list[0] in s.period && Remove(s.list, s.list[0]) == s.list[1..]
  {
    assert Distinct(rows[|rows| - 1]);
    assert NearAt(s, s.list[0], late);
    RemoveAbsent(s.list[1..], s.list[0]);
  }

  lemma AbsOrdered(rows: seq<seq<int>>, s: State)
    requires RowsOk(rows, s.due) && s.list == Bottom(rows)
    ensures Ordered(s)
  {
    assert Distinct(rows[|rows| - 1]);
  }

  lemma NotInRows(rows: seq<seq<int>>, due: map<int, int>, t: int)
    requires RowsOk(rows, due) && t !in Bottom(rows)
    ensures forall r :: 0 <= r < |rows| ==> t !in rows[r]
  {
    forall r | 0 <= r < |rows| ensures t !in rows[r] { RowMembers(rows, due, r); }
  }

  lemma HeadClocked(s: State, timeout: map<int, int>, tick: int, reach: int, late: int)
    requires Clocked(timeout, s.due) && Near(s, reach, late) && s.list != [] && tick == s.now % WORD
    requires Bounds(reach, late)
    ensures s.list[0] in timeout && (Reached32(tick, timeout[s.list[0]]) <==> Key(s.due, s.list[0]) <= s.now)
  {
    assert NearAt(s, s.list[0], late);
    WrapCompare(s.now, s.due[s.list[0]]);
  }

  /** No operation sets an interval longer than `reach`. */
  ghost predicate Modest(ops: seq<Op>, reach: int) {
    forall op :: op in ops ==> op.SetTime? ==> op.ticks <= reach
  }

  lemma ModestAt(ops: seq<Op>, reach: int, i: nat)
    requires Modest(ops, reach) && i < |ops| && ops[i].SetTime?
    ensures ops[i].ticks <= reach
  {
    assert ops[i] in ops;
  }

  ghost predicate ModestScript(cb: Script, reach: int) {
    forall n: nat :: Modest(cb(n), reach)
  }

  /** The events that keep within `reach` and `late`. */
  ghost predicate Timely(s: State, e: Event, reach: int, late: int) {
    match e
    case Do(op) => Modest([op], reach)
    case Tick(cb) => ModestScript(cb, reach)
    case Arm(t) => t in s.due && s.now - late <= s.due[t]
    case _ => true
  }

  ghost predicate TimelyRun(s: State, es: seq<Event>, reach: int, late: int)
    requires Healthy(s) && Can(s, es)
    decreases |es|
  {
    es != [] ==>
      && Timely(s, es[0], reach, late)
      && (StepKeeps(s, es[0]);
          TimelyRun(Step(s, es[0]), es[1..], reach, late))
  }

  /** A row with `t` put at place `n`. */
  function Put(row: seq<int>, n: nat, t: int): seq<int>
    requires n <= |row|
  {
    row[..n] + [t] + row[n..]
  }

  lemma RowWithin(rows: seq<seq<int>>, due: map<int, int>, r: nat, d: int)
    requires RowsOk(rows, due) && r < |rows| && Within(Bottom(rows), due, d - WORD + 1, d + WORD - 1)
    ensures Within(rows[r], due, d - WORD + 1, d + WORD - 1)
  {
    RowMembers(rows, due, r);
  }

  lemma RowBelow(rows: seq<seq<int>>, due: map<int, int>, r: nat)
    requires RowsOk(rows, due) && r + 1 < |rows|
    ensures forall i :: 0 <= i < |rows[r]| ==> rows[r][i] in rows[r + 1]
  {
    assert Under(rows[r], rows[r + 1]);
    UnderMembers(rows[r], rows[r + 1]);
    forall i | 0 <= i < |rows[r]| ensures rows[r][i] in rows[r + 1] { var x := rows[r][i]; assert x in rows[r]; }
  }

  lemma WalkedEnd(row: seq<int>, due: map<int, int>, d: int, from: nat, i: nat)
    requires Walked(row, due, d, from, i)
    ensures i <= |row|
  {}

  /** A timer put behind one that is due later, or in front of one that is due earlier, is out of order. */
  lemma PutUnsorted(row: seq<int>, due: map<int, int>, t: int, n: nat)
    requires Sorted(row, due) && n <= |row| && (n > Cut(row, due, Key(due, t)) || (n == 0 && row != [] && Key(due, row[0]) < Key(due, t)))
    ensures !Sorted(Put(row, n, t), due)
  {
    var d, p := Key(due, t), Put(row, n, t);
    CutPoint(row, due, d);
    var c := Cut(row, due, d);
    hide Cut; hide Sorted;
    if n > c {
      assert p[c] == row[c] && p[n] == t;
      PairUnsorted(p, due, c, n);
    } else {
      assert p[0] == t && p[1] == row[0];
      PairUnsorted(p, due, 0, 1);
    }
  }

  lemma PairUnsorted(row: seq<int>, due: map<int, int>, i: nat, j: nat)
    requires i < j < |row| && Key(due, row[i]) > Key(due, row[j])
    ensures !Sorted(row, due)
  {
    if Sorted(row, due) { SortedAt(row, due, i, j); }
  }

  /** What linking at the places of the search makes of the rows. */
  lemma PlacedOk(was: seq<seq<int>>, rows: seq<seq<int>>, due: map<int, int>, t: int, heads: seq<nat>, h: nat)
    requires RowsOk(was, due) && |was| == |rows| == |heads| && h < |rows| && t in due && forall r :: 0 <= r < |was| ==> t !in was[r]
    requires forall r :: 0 <= r < |was| ==> heads[r] <= |was[r]|
    requires forall r :: 0 <= r < |was| ==> rows[r] == if r < h then was[r] else Put(was[r], heads[r], t)
    requires RightPlace(was, due, due[t]) ==> forall r :: 0 <= r < |was| ==> heads[r] == Cut(was[r], due, due[t])
    requires !RightPlace(was, due, due[t]) ==>
      heads[|was| - 1] > Cut(Bottom(was), due, due[t]) || (heads[|was| - 1] == 0 && FarBehind(Bottom(was), due, due[t]))
    ensures Bottom(rows) == Put(Bottom(was), heads[|was| - 1], t)
    ensures RightPlace(was, due, due[t]) ==> RowsOk(rows, due) && Bottom(rows) == Insert(Bottom(was), due, t) && Sorted(Bottom(rows), due)
    ensures !RightPlace(was, due, due[t]) ==> !Sorted(Bottom(rows), due) && Bottom(rows) != Insert(Bottom(was), due, t)
  {
    BottomSorted(was, due);
    if RightPlace(was, due, due[t]) {
      hide RightPlace; hide Cut; hide RowsOk;
      forall r | 0 <= r < |was| ensures Put(was[r], heads[r], t) == Insert(was[r], due, t) { InsertAtCut(was[r], due, t); }
      InsertedOk(was, rows, due, t, h);
      BottomSorted(rows, due);
    } else {
      hide RightPlace; hide Cut; hide RowsOk;
      PutUnsorted(Bottom(was), due, t, heads[|was| - 1]);
      InsertKeeps(Bottom(was), due, t);
    }
  }

  lemma BottomSorted(rows: seq<seq<int>>, due: map<int, int>)
    requires RowsOk(rows, due)
    ensures |rows| > 0 && Sorted(Bottom(rows), due) && Distinct(Bottom(rows))
  {
    assert Distinct(rows[|rows| - 1]);
  }

  /** Whether the next row up gets the timer too. */
  predicate Raise(tst: bv32, mask: bv32) {
    tst & mask == 0
  }

  function Shift(tst: bv32, mask: bv32): bv32
    requires mask <= 63
  {
    tst >> ((mask + 1) >> 1)
  }

  /** How many of `n` further rows a timer is linked into: the groups of bits that are zero. */
  function Raised(tst: bv32, mask: bv32, n: nat): nat
    requires mask <= 63
  {
    if n == 0 || !Raise(tst, mask) then 0 else 1 + Raised(Shift(tst, mask), mask, n - 1)
  }

  // ---- the list -----------------------------------------------------------------------------

  class Timers {
    var rows: seq<seq<int>>            // rt_timer_list
    var timeout: map<int, int>         // timeout_tick
    var tick: int                      // rt_tick
    var random: bv32                   // random_nr
    const mask: bv32                   // RT_TIMER_SKIP_LIST_MASK
    var period: map<int, Interval>     // init_tick
    const periodic: set<int>
    var active: set<int>
    var calls: nat                     // timeout functions called so far

    ghost const reach: int             // the longest interval
    ghost const late: int              // how long after its deadline a timer may be inserted
    ghost var now: int                 // ticks since the start, not wrapped
    ghost var due: map<int, int>
    ghost var armed: map<int, int>
    ghost var log: seq<Fire>

    ghost function Abs(): State
      reads this
      requires |rows| > 0
    {
      State(now, Bottom(rows), due, armed, period, periodic, active, log)
    }

    ghost predicate Valid()
      reads this
    {
      && RowsOk(rows, due) && mask <= 63 && calls == |log|
      && Bounds(reach, late)
      && Near(Abs(), reach, late)
      && tick == now % WORD
      && Clocked(timeout, due)
    }

    constructor (levels: nat, mask: bv32, period: map<int, Interval>, periodic: set<int>, start: nat, ghost reach: int, ghost late: int)
      requires levels > 0 && mask <= 63 && start < WORD
      requires Bounds(reach, late) && forall t :: t in period ==> period[t] <= reach
      ensures Valid() && Abs() == State(start, [], map[], map[], period, periodic, {}, []) && this.reach == reach && this.late == late
    {
      rows, timeout, tick, random, active := seq(levels, _ => []), map[], start, 0, {};
      this.mask, this.period, this.periodic := mask, period, periodic;
      this.reach, this.late := reach, late;
      now, due, armed, log, calls := start, map[], map[], [], 0;
    }

    /** _rt_timer_remove. */
    method Unlink(t: int)
      requires Valid()
      modifies `rows
      ensures Valid() && Abs() == old(Abs()).(list := Remove(old(Abs()).list, t))
      ensures t !in Bottom(rows)
    {
      hide RowsOk; hide Near; hide Clocked; hide Remove;
      RowsExist(rows, due);
      var i := 0;
      while i < |rows|
        invariant 0 <= i <= |rows| == |old(rows)|
        invariant forall r :: 0 <= r < |rows| ==> rows[r] == if r < i then Remove(old(rows)[r], t) else old(rows)[r]
      {
        rows := rows[i := Remove(rows[i], t)];
        i := i + 1;
      }
      RemovedOk(old(rows), rows, due, t);
      DetachedNear(old(Abs()), t, reach, late);
      assert Abs() == old(Abs()).(list := Remove(old(Abs()).list, t));
    }

    /** The walk along one row. */
    method Walk(row: seq<int>, from: nat, t: int) returns (i: nat)
      requires from <= |row| && Clocked(timeout, due) && t in due && Within(row, due, due[t] - WORD + 1, due[t] + WORD - 1)
      ensures Walked(row, due, due[t], from, i)
    {
      hide Stops; hide Later32;
      i := from;
      while i < |row|
        invariant from <= i <= |row|
        invariant forall j :: from <= j < i ==> !Stops(Key(due, row[j]), due[t])
      {
        assert row[i] in row;
        LaterStops(due[row[i]], due[t]);
        if Later32(timeout[row[i]], timeout[t]) { break; }
        i := i + 1;
      }
    }

    /** The descending search. It finds the place behind all timers due no later, in the last row and then
        in every row, if and only if every row sees its next timer less than half the range later, and no
        timer is more than half the range behind, or some row without such a timer leads past them. */
    method Search(t: int) returns (heads: seq<nat>)
      requires RowsOk(rows, due) && Clocked(timeout, due) && t in due
      requires Within(Bottom(rows), due, due[t] - WORD + 1, due[t] + WORD - 1)
      ensures |heads| == |rows| && forall r :: 0 <= r < |rows| ==> heads[r] <= |rows[r]|
      ensures heads[|rows| - 1] == Cut(Bottom(rows), due, due[t]) <==> RightPlace(rows, due, due[t])
      ensures RightPlace(rows, due, due[t]) ==> forall r :: 0 <= r < |rows| ==> heads[r] == Cut(rows[r], due, due[t])
      ensures !RightPlace(rows, due, due[t]) ==>
        heads[|rows| - 1] > Cut(Bottom(rows), due, due[t]) || (heads[|rows| - 1] == 0 && FarBehind(Bottom(rows), due, due[t]))
    {
      hide Cut; hide Walked; hide Tracked; hide RightPlace; hide FarBehind; hide RowsOk; hide Under;
      RowsExist(rows, due);
      ghost var d, k := due[t], Zero;
      heads := [];
      var r := 0;
      while r < |rows|
        invariant 0 <= r <= |rows| && |heads| == r && forall q :: 0 <= q < r ==> heads[q] <= |rows[q]|
        invariant r > 0 ==> Tracked(k, rows, due, d, heads, r)
      {
        RowWithin(rows, due, r, d);
        var from := 0;
        if r > 0 && heads[r - 1] > 0 {
          RowBelow(rows, due, r - 1);
          from := IndexOf(rows[r], rows[r - 1][heads[r - 1] - 1]) + 1;
        }
        var i := Walk(rows[r], from, t);
        k := TrackNext(k, rows, due, d, heads, r, from, i);
        WalkedEnd(rows[r], due, d, from, i);
        heads := heads + [i];
        r := r + 1;
      }
      TrackEnds(k, rows, due, d, heads);
    }

    /** Links the timer into the last row and, as the counter says, into rows above it. */
    method Link(t: int, heads: seq<nat>) returns (ghost h: nat)
      requires mask <= 63 && |heads| == |rows| > 0 && forall r :: 0 <= r < |rows| ==> heads[r] <= |rows[r]|
      modifies `rows, `random
      ensures |rows| == |old(rows)| && h < |rows| && random == old(random) + 1 && h + Raised(random, mask, |rows| - 1) == |rows| - 1
      ensures forall r :: 0 <= r < |rows| ==> rows[r] == if r < h then old(rows)[r] else Put(old(rows)[r], heads[r], t)
    {
      hide Raise; hide Shift; hide Put;
      random := random + 1;
      var tst := random;
      var n := |rows|;
      rows := rows[n - 1 := Put(rows[n - 1], heads[n - 1], t)];
      var r := n - 1;
      while r > 0
        invariant 0 <= r < n == |rows|
        invariant forall k :: 0 <= k < n ==> rows[k] == if k < r then old(rows)[k] else Put(old(rows)[k], heads[k], t)
        invariant random == old(random) + 1 && r - Raised(tst, mask, r) == n - 1 - Raised(random, mask, n - 1)
      {
        if !Raise(tst, mask) { break; }
        r := r - 1;
        rows := rows[r := Put(rows[r], heads[r], t)];
        tst := Shift(tst, mask);
      }
      h := r;
    }

    /** The first section of rt_timer_start. */
    method TakeOff(t: int)
      requires Valid()
      modifies `rows, `active
      ensures Valid() && Abs() == UnlinkTimer(old(Abs()), t) && t !in Bottom(rows)
    {
      hide RowsOk; hide Clocked; hide Remove; hide Near;
      RowsExist(rows, due);
      Unlink(t);
      RowsExist(rows, due);
      ActiveNear(Abs(), active - {t}, reach, late);
      active := active - {t};
    }

    /** The deadline, read and stored with interrupts enabled. */
    method StampIt(t: int)
      requires Valid() && t in period && Fitting(Bottom(rows), due, t, now + period[t])
      modifies `timeout, `due
      ensures Valid() && Abs() == StampTimer(old(Abs()), t)
    {
      hide RowsOk; hide Clocked; hide Near; hide StampTimer; hide Fitting;
      RowsExist(rows, due);
      StampedNear(Abs(), timeout, tick, t, reach, late);
      StampIs(Abs(), t);
      RedatedOk(rows, due, t, now + period[t]);
      timeout := timeout[t := (tick + period[t]) % WORD];
      due := due[t := now + period[t]];
    }

    /** The second section of rt_timer_start. It leaves the last row in order, and does what insertion into
        the sorted list does, if and only if the search finds the right place; within the bounds on
        intervals and lateness it always does. */
    method ArmIt(t: int)
      requires Valid() && t in due && t !in Bottom(rows) && now + reach - WORD < due[t]
      modifies `rows, `random, `active, `armed
      ensures |rows| == |old(rows)| && active == old(active) + {t} && armed == old(armed)[t := now]
      ensures Sorted(Bottom(rows), due) <==> RightPlace(old(rows), due, due[t])
      ensures Abs() == ArmTimer(old(Abs()), t) <==> RightPlace(old(rows), due, due[t])
      ensures exists n :: 0 <= n <= |Bottom(old(rows))| && Bottom(rows) == Put(Bottom(old(rows)), n, t)
      ensures now - late <= due[t] ==> RightPlace(old(rows), due, due[t]) && Valid()
    {
      hide RowsOk; hide Clocked; hide Near; hide Within; hide Insert; hide Cut; hide RightPlace; hide Sorted; hide Put; hide FarBehind; hide Bounds;
      RowsExist(rows, due);
      ghost var was := rows;
      NearWithin(Abs(), t, reach, late);
      NotInRows(rows, due, t);
      if now - late <= due[t] {
        InsertsRight(rows, Abs(), t, reach, late);
        ArmedNear(Abs(), t, reach, late);
      }
      var heads := Search(t);
      ghost var h := Link(t, heads);
      PlacedOk(was, rows, due, t, heads, h);
      active := active + {t};
      armed := armed[t := now];
    }

    /** rt_timer_start. */
    method Start(t: int)
      requires Valid() && t in period
      modifies `rows, `timeout, `random, `active, `due, `armed
      ensures Valid() && Abs() == StartTimer(old(Abs()), t)
    {
      hide RowsOk; hide Clocked; hide Near; hide ArmTimer; hide StampTimer; hide Remove; hide RightPlace; hide Put; hide Fitting;
      RowsExist(rows, due);
      StartIs(Abs(), t);
      TakeOff(t);
      RowsExist(rows, due);
      StampIs(Abs(), t);
      FittingAbsent(Bottom(rows), due, t, now + period[t]);
      StampIt(t);
      RowsExist(rows, due);
      ArmIt(t);
    }

    /** rt_timer_stop. */
    method Stop(t: int) returns (ok: bool)
      requires Valid()
      modifies `rows, `active
      ensures Valid() && Abs() == StopTimer(old(Abs()), t) && (ok <==> t in old(active))
    {
      hide RowsOk; hide Clocked; hide Remove; hide Near;
      RowsExist(rows, due);
      if t !in active { return false; }
      TakeOff(t);
      return true;
    }

    /** rt_timer_control with RT_TIMER_CTRL_SET_TIME. */
    method SetTime(t: int, ticks: Interval)
      requires Valid() && ticks <= reach
      modifies `period
      ensures Valid() && Abs() == SetPeriod(old(Abs()), t, ticks) && (t in old(period) ==> t in period && period[t] == ticks)
    {
      hide RowsOk; hide Clocked; hide Near;
      RowsExist(rows, due);
      PeriodNear(Abs(), t, ticks, reach, late);
      if t in period { period := period[t := ticks]; }
    }

    /** What a timeout function does to timers. */
    method Perform(ops: seq<Op>)
      requires Valid() && Modest(ops, reach)
      modifies `rows, `timeout, `random, `active, `due, `armed, `period
      ensures Valid() && Abs() == ApplyAll(old(Abs()), ops)
    {
      hide RowsOk; hide Clocked; hide Near; hide StartTimer; hide StopTimer; hide SetPeriod; hide Modest;
      RowsExist(rows, due);
      var i := 0;
      while i < |ops|
        invariant 0 <= i <= |ops| && Valid() && |rows| > 0
        invariant ApplyAll(Abs(), ops[i..]) == ApplyAll(old(Abs()), ops)
      {
        ghost var s := Abs();
        assert ops[i..][0] == ops[i] && ops[i..][1..] == ops[i + 1..];
        match ops[i] {
          case Start(t) => if t in period { Start(t); } else { StartUnknown(Abs(), t); }
          case Stop(t) => var _ := Stop(t);
          case SetTime(t, ticks) => ModestAt(ops, reach, i); SetTime(t, ticks);
        }
        RowsExist(rows, due);
        assert Abs() == Apply(s, ops[i]);
        i := i + 1;
      }
    }

    /** One round of rt_timer_check. */
    method FireHead(cb: Script)
      requires Valid() && Bottom(rows) != [] && ModestScript(cb, reach)
      modifies `rows, `timeout, `random, `active, `due, `armed, `period, `log, `calls
      ensures Valid() && Abs() == FireFirst(old(Abs()), cb)
    {
      hide RowsOk; hide Clocked; hide Near; hide StartTimer; hide ApplyAll; hide Remove; hide Modest;
      RowsExist(rows, due);
      var t := rows[|rows| - 1][0];
      HeadKnown(rows, Abs(), reach, late);
      ghost var fire := Fire(t, Key(due, t), Key(armed, t), now);
      Unlink(t);
      RowsExist(rows, due);
      LogNear(Abs(), log + [fire], reach, late);
      log := log + [fire];
      calls := calls + 1;
      assert Abs() == Called(old(Abs()));
      Perform(cb(calls - 1));
      RowsExist(rows, due);
      ghost var r := Abs();
      ActiveNear(r, active - {t}, reach, late);
      var again := t in periodic && t in active;
      active := active - {t};
      if again {
        if t in period { Start(t); } else { StartUnknown(Abs(), t); }
      }
    }

    /** No check at counter value `at` fires anything: the first timer is not due. */
    ghost predicate Waits(at: int)
      reads this
    {
      |rows| > 0 && (Bottom(rows) == [] || (Bottom(rows)[0] in timeout && !Reached32(at, timeout[Bottom(rows)[0]])))
    }

    /** rt_timer_check: fires what is due, in deadline order, until the first timer is not due. */
    method Check(cb: Script)
      requires (Valid() && ModestScript(cb, reach)) || Waits(tick)
      modifies `rows, `timeout, `random, `active, `due, `armed, `period, `log, `calls
      ensures old(Valid()) && ModestScript(cb, reach) ==> old(Ordered(Abs())) && Valid() && Abs() == Drain(old(Abs()), cb)
      ensures old(Waits(tick)) ==> unchanged(this)
    {
      hide RowsOk; hide Clocked; hide Near; hide FireFirst; hide DueCount; hide Ordered; hide ModestScript; hide Reached32; hide Bounds;
      ghost var good := Valid() && ModestScript(cb, reach);
      if good {
        RowsExist(rows, due);
        AbsOrdered(rows, Abs());
      }
      ghost var s0 := Abs();
      while rows[|rows| - 1] != []
        invariant |rows| > 0 && (old(Waits(tick)) ==> unchanged(this))
        invariant if good then Valid() && Ordered(Abs()) && Ordered(s0) && Drain(Abs(), cb) == Drain(s0, cb) else Waits(tick)
        decreases if good then DueCount(Abs()) else 0
      {
        if good {
          HeadKnown(rows, Abs(), reach, late);
          HeadClocked(Abs(), timeout, tick, reach, late);
        }
        if !Reached32(tick, timeout[rows[|rows| - 1][0]]) { break; }
        FireKeeps(Abs(), cb);
        FireHead(cb);
        RowsExist(rows, due);
      }
    }

    /** rt_tick_increase, as far as timers go. */
    method Increase(cb: Script)
      requires (Valid() && Quiet(Abs()) && ModestScript(cb, reach)) || Waits((tick + 1) % WORD)
      modifies this
      ensures tick == (old(tick) + 1) % WORD && now == old(now) + 1
      ensures old(Valid() && Quiet(Abs())) && ModestScript(cb, reach) ==> Valid() && Abs() == TickOnce(old(Abs()), cb)
      ensures old(Waits((tick + 1) % WORD)) ==>
        rows == old(rows) && due == old(due) && armed == old(armed) && active == old(active) && log == old(log) && timeout == old(timeout)
    {
      hide RowsOk; hide Clocked; hide Near; hide Drain; hide ModestScript; hide Reached32;
      if Valid() {
        RowsExist(rows, due);
        if Quiet(Abs()) { NextTick(Abs(), reach, late); }
      }
      tick := (tick + 1) % WORD;
      now := now + 1;
      Check(cb);
    }

    /** One event of a run. */
    method Advance(e: Event)
      requires Valid() && Healthy(Abs()) && Enabled(Abs(), e) && Timely(Abs(), e, reach, late)
      modifies this
      ensures old(Ordered(Abs())) && Valid() && Abs() == Step(old(Abs()), e)
    {
      hide RowsOk; hide Clocked; hide Near; hide TickOnce; hide Apply; hide UnlinkTimer; hide StampTimer; hide ArmTimer; hide Remove;
      RowsExist(rows, due);
      HealthyOrdered(Abs());
      match e {
        case Do(op) => ApplyOne(Abs(), op); Perform([op]);
        case Tick(cb) => Increase(cb);
        case Unlink(t) => TakeOff(t);
        case Stamp(t) => StampIt(t);
        case Arm(t) => ArmIt(t);
        case Detach(t) => Unlink(t);
        case Clear(t) =>
          ActiveNear(Abs(), active - {t}, reach, late);
          active := active - {t};
      }
      RowsExist(rows, due);
    }

    /** When a one-shot timer fires that is started and then left alone. */
    method PlayStart(t: int, a: seq<Event>, b: seq<Event>, es: seq<Event>)
      requires Valid() && Healthy(Abs()) && t in period && t !in periodic && LeftAlone(a, t) && LeftAlone(b, t) && LeftAlone(es, t)
      requires Can(Abs(), Starting(t, a, b) + es) && TimelyRun(Abs(), Starting(t, a, b) + es, reach, late)
      modifies this
      ensures Valid()
      ensures var stamped := old(now) + Ticks(a); var d := old(period)[t];
        var fire := if Ticks(b) < d then stamped + d else stamped + Ticks(b) + 1;
        FiresOf(log, t) == FiresOf(old(log), t) + if stamped + Ticks(b) + Ticks(es) < fire then [] else [fire]
    {
      hide Valid; hide Healthy; hide Starting; hide LeftAlone; hide TimelyRun; hide Can; hide Run; hide FiresOf; hide Ticks;
      ValidRows();
      StartThenFires(Abs(), a, b, es, t);
      Play(Starting(t, a, b) + es);
      ValidRows();
    }

    /** The same for a periodic timer. */
    method PlayStartEvery(t: int, a: seq<Event>, b: seq<Event>, es: seq<Event>)
      requires Valid() && Healthy(Abs()) && t in period && t in periodic && LeftAlone(a, t) && LeftAlone(b, t) && LeftAlone(es, t)
      requires Can(Abs(), Starting(t, a, b) + es) && TimelyRun(Abs(), Starting(t, a, b) + es, reach, late)
      modifies this
      ensures Valid()
      ensures var stamped := old(now) + Ticks(a); var d := old(period)[t];
        var first := if Ticks(b) < d then stamped + d else stamped + Ticks(b) + 1;
        FiresOf(log, t) == FiresOf(old(log), t) + Schedule(first, d, stamped + Ticks(b) + Ticks(es))
    {
      hide Valid; hide Healthy; hide Starting; hide LeftAlone; hide TimelyRun; hide Can; hide Run; hide FiresOf; hide Ticks; hide Schedule;
      ValidRows();
      StartThenFiresEvery(Abs(), a, b, es, t);
      Play(Starting(t, a, b) + es);
      ValidRows();
    }

    lemma ValidRows()
      requires Valid()
      ensures |rows| > 0
    {}

    lemma WaitsIs(at: int)
      ensures Waits(at) <==> |rows| > 0 && (Bottom(rows) == [] || (Bottom(rows)[0] in timeout && !Reached32(at, timeout[Bottom(rows)[0]])))
    {}

    lemma ClockFacts(t: int)
      requires Valid()
      ensures |rows| > 0 && tick == now % WORD && (t in due ==> t in timeout && timeout[t] == due[t] % WORD)
    {}

    /** Any run of calls, sections of calls and ticks, however often the counter wraps meanwhile. */
    method Play(es: seq<Event>)
      requires Valid() && Healthy(Abs()) && Can(Abs(), es) && TimelyRun(Abs(), es, reach, late)
      modifies this
      ensures Valid() && Abs() == Run(old(Abs()), es)
    {
      hide RowsOk; hide Clocked; hide Near; hide Ordered; hide Healthy; hide Step; hide Enabled; hide Timely;
      RowsExist(rows, due);
      ghost var s := Abs();
      var i := 0;
      assert es[0..] == es;
      while i < |es|
        invariant 0 <= i <= |es| && Valid() && |rows| > 0 && Healthy(Abs())
        invariant Can(Abs(), es[i..]) && TimelyRun(Abs(), es[i..], reach, late)
        invariant Run(Abs(), es[i..]) == Run(s, es)
      {
        assert es[i..][0] == es[i] && es[i..][1..] == es[i + 1..];
        StepKeeps(Abs(), es[i]);
        Advance(es[i]);
        RowsExist(rows, due);
        i := i + 1;
      }
    }
  }

  /** A start that is held up too long, whatever the number of rows and the mask. Timer 1 has an interval of
      one tick; between stamp and insertion come two ticks and a start of timer 2 with the longest
      interval. The search puts timer 1 behind timer 2. It is overdue, and the next tick, at which insertion
      in order would have it fire, does not fire it. */
  method LateStartMisplaced(levels: nat, mask: bv32, start: nat) returns (h: Timers)
    requires levels > 0 && mask <= 63 && start < WORD
    ensures fresh(h) && |h.rows| > 0 && h.now == start + 3 && Bottom(h.rows) == [2, 1] && h.log == []
    ensures h.due == map[1 := start + 1, 2 := start + 1 + HALF] && h.armed == map[1 := start + 2, 2 := start + 2]
    ensures FireTime(h.Abs(), 1) == h.now && !Sorted(Bottom(h.rows), h.due)
  {
    hide Timers.Valid; hide RightPlace; hide Put; hide Reached32; hide Sorted; hide ArmTimer; hide Timers.Waits;
    h := BeforeLateArm(levels, mask, start);
    h.ClockFacts(2);
    LateWrong(h.rows, h.due, start);
    h.ArmIt(1);
    ghost var n :| 0 <= n <= |[2]| && Bottom(h.rows) == Put([2], n, 1);
    LateOrder(h.due, start, n);
    LateWaits(start);
    h.WaitsIs((h.tick + 1) % WORD);
    h.Increase(_ => []);
    LateFires(h.Abs(), start);
  }

  /** The same run up to the insertion. */
  method BeforeLateArm(levels: nat, mask: bv32, start: nat) returns (h: Timers)
    requires levels > 0 && mask <= 63 && start < WORD
    ensures fresh(h) && h.Valid() && |h.rows| > 0 && h.reach == HALF - 1
    ensures h.Abs() == State(start + 2, [2], map[1 := start + 1, 2 := start + 1 + HALF], map[2 := start + 2], LatePeriods(), {}, {2}, [])
  {
    hide Timers.Valid; hide Quiet; hide UnlinkTimer; hide StampTimer; hide StartTimer; hide TickOnce; hide Fitting; hide ModestScript;
    var none: Script := _ => [];
    h := new Timers(levels, mask, LatePeriods(), {}, start, HALF - 1, 0);
    LateStates(start, none);
    h.TakeOff(1);
    h.StampIt(1);
    LateTick(start, 0, none);
    h.Increase(none);
    LateTick(start, 1, none);
    h.Increase(none);
    h.Start(2);
    h.ValidRows();
  }

  function LatePeriods(): (r: map<int, Interval>)
    ensures r == map[1 := 1, 2 := HALF - 1]
  {
    map[1 := 1, 2 := HALF - 1]
  }

  /** The state of that run after `n` ticks, up to the start of timer 2. */
  ghost function LateState(start: int, n: nat): State {
    State(start + n, [], map[1 := start + 1], map[], LatePeriods(), {}, {}, [])
  }

  lemma LateStates(start: int, none: Script)
    requires none == (_ => [])
    ensures var s0 := State(start, [], map[], map[], LatePeriods(), {}, {}, []);
      && UnlinkTimer(s0, 1) == s0 && StampTimer(s0, 1) == LateState(start, 0)
      && Fitting([], map[], 1, start + 1) && ModestScript(none, HALF - 1)
    ensures StartTimer(LateState(start, 2), 2) ==
            State(start + 2, [2], map[1 := start + 1, 2 := start + 1 + HALF], map[2 := start + 2], LatePeriods(), {}, {2}, [])
  {
    var s0: State := State(start, [], map[], map[], LatePeriods(), {}, {}, []);
    assert s0.due[1 := start + 1] == map[1 := start + 1];
  }

  lemma LateTick(start: int, n: nat, none: Script)
    ensures Quiet(LateState(start, n)) && Ordered(LateState(start, n)) && TickOnce(LateState(start, n), none) == LateState(start, n + 1)
  {}

  lemma LateWrong(rows: seq<seq<int>>, due: map<int, int>, start: int)
    requires |rows| > 0 && Bottom(rows) == [2] && due == map[1 := start + 1, 2 := start + 1 + HALF]
    ensures !RightPlace(rows, due, due[1])
  {
    assert rows[|rows| - 1] == [2];
    assert Cut([2], due, due[1]) == 0;
    assert !SeesLater(rows[|rows| - 1], due, due[1]);
  }

  lemma LateOrder(due: map<int, int>, start: int, n: nat)
    requires n <= 1 && due == map[1 := start + 1, 2 := start + 1 + HALF] && !Sorted(Put([2], n, 1), due)
    ensures Put([2], n, 1) == [2, 1]
  {
    TwoSorted(due, start);
    assert Put([2], 0, 1) == [1, 2] && Put([2], 1, 1) == [2, 1];
  }

  lemma TwoSorted(due: map<int, int>, start: int)
    requires due == map[1 := start + 1, 2 := start + 1 + HALF]
    ensures Sorted([1, 2], due)
  {
    assert [1, 2][1..] == [2] && [2][1..] == [];
  }

  lemma LateWaits(start: int)
    ensures !Reached32(((start + 2) % WORD + 1) % WORD, (start + 1 + HALF) % WORD)
  {
    assert ((start + 2) % WORD + 1) % WORD == (start + 3) % WORD;
    hide Reached32;
    WrapCompare(start + 3, start + 1 + HALF);
  }

  lemma LateFires(s: State, start: int)
    requires s.due == map[1 := start + 1, 2 := start + 1 + HALF] && s.armed == map[2 := start + 2, 1 := start + 2]
    ensures FireTime(s, 1) == start + 3
  {}

  lemma ApplyOne(s: State, op: Op)
    ensures ApplyAll(s, [op]) == Apply(s, op)
  {
    assert [op][1..] == [];
  }
}
