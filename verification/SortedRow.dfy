/** Rows of timers or threads sorted by a key, with equal keys in order of arrival. */
module SortedRow {

  function Key(key: map<int, int>, t: int): int {
    if t in key then key[t] else 0
  }

  /** `row` with `t` placed behind every element whose key is no larger. */
  function Insert(row: seq<int>, key: map<int, int>, t: int): seq<int> {
    if row == [] then [t]
    else if Key(key, row[0]) <= Key(key, t) then [row[0]] + Insert(row[1..], key, t)
    else [t] + row
  }

  function Remove(row: seq<int>, t: int): seq<int> {
    if row == [] then [] else if row[0] == t then Remove(row[1..], t) else [row[0]] + Remove(row[1..], t)
  }

  ghost predicate Distinct(row: seq<int>) {
    row == [] || (row[0] !in row[1..] && Distinct(row[1..]))
  }

  ghost predicate Sorted(row: seq<int>, key: map<int, int>) {
    row == [] || ((forall x :: x in row[1..] ==> Key(key, row[0]) <= Key(key, x)) && Sorted(row[1..], key))
  }

  lemma Uncons(row: seq<int>)
    requires row != []
    ensures row == [row[0]] + row[1..] && forall x :: x in row <==> x == row[0] || x in row[1..]
  {
    assert row == [row[0]] + row[1..];
  }

  lemma {:induction false} InsertKeeps(row: seq<int>, key: map<int, int>, t: int)
    requires Distinct(row) && Sorted(row, key) && t !in row
    ensures Distinct(Insert(row, key, t)) && Sorted(Insert(row, key, t), key)
    ensures forall x :: x in Insert(row, key, t) <==> x == t || x in row
  {
    var r := Insert(row, key, t);
    if row == [] {
      assert r[1..] == [];
    } else {
      Uncons(row);
      if Key(key, row[0]) <= Key(key, t) {
        InsertKeeps(row[1..], key, t);
        assert r[1..] == Insert(row[1..], key, t);
      } else {
        assert r[1..] == row;
      }
    }
  }

  lemma {:induction false} RemoveKeeps(row: seq<int>, key: map<int, int>, t: int)
    requires Distinct(row) && Sorted(row, key)
    ensures Distinct(Remove(row, t)) && Sorted(Remove(row, t), key)
    ensures forall x :: x in Remove(row, t) <==> x in row && x != t
  {
    var r := Remove(row, t);
    if row != [] {
      Uncons(row);
      RemoveKeeps(row[1..], key, t);
      if row[0] != t { assert r[1..] == Remove(row[1..], t); }
    }
  }

  lemma {:induction false} SortedUnder(row: seq<int>, key: map<int, int>, key': map<int, int>)
    requires Sorted(row, key) && forall x :: x in row ==> Key(key', x) == Key(key, x)
    ensures Sorted(row, key')
  {
    if row != [] {
      Uncons(row);
      SortedUnder(row[1..], key, key');
    }
  }

  /** How many elements at the start of `row` have a key no larger than `d`. */
  ghost function Cut(row: seq<int>, key: map<int, int>, d: int): nat {
    if row == [] || Key(key, row[0]) > d then 0 else 1 + Cut(row[1..], key, d)
  }

  lemma {:induction false} CutPoint(row: seq<int>, key: map<int, int>, d: int)
    requires Sorted(row, key)
    ensures Cut(row, key, d) <= |row|
    ensures forall i :: 0 <= i < |row| ==> (Key(key, row[i]) <= d <==> i < Cut(row, key, d))
  {
    if row != [] {
      Uncons(row);
      CutPoint(row[1..], key, d);
      forall i | 0 <= i < |row| ensures Key(key, row[i]) <= d <==> i < Cut(row, key, d) {
        if i > 0 { assert row[i] == row[1..][i - 1]; assert row[i] in row[1..]; }
      }
    }
  }

  lemma {:induction false} InsertAtCut(row: seq<int>, key: map<int, int>, t: int)
    ensures Cut(row, key, Key(key, t)) <= |row|
    ensures Insert(row, key, t) == row[..Cut(row, key, Key(key, t))] + [t] + row[Cut(row, key, Key(key, t))..]
  {
    if row != [] && Key(key, row[0]) <= Key(key, t) {
      InsertAtCut(row[1..], key, t);
    }
  }

  lemma {:induction false} RemoveMembers(row: seq<int>, t: int)
    ensures forall x :: x in Remove(row, t) <==> x in row && x != t
  {
    if row != [] { Uncons(row); RemoveMembers(row[1..], t); }
  }

  lemma {:induction false} InsertMembers(row: seq<int>, key: map<int, int>, t: int)
    ensures forall x :: x in Insert(row, key, t) <==> x == t || x in row
  {
    if row != [] { Uncons(row); InsertMembers(row[1..], key, t); }
  }

  lemma {:induction false} RemoveAbsent(row: seq<int>, t: int)
    requires t !in row
    ensures Remove(row, t) == row
  {
    if row != [] { Uncons(row); RemoveAbsent(row[1..], t); }
  }

  lemma {:induction false} RemoveDistinct(row: seq<int>, t: int)
    requires Distinct(row)
    ensures Distinct(Remove(row, t)) && forall x :: x in Remove(row, t) <==> x in row && x != t
    ensures t !in row ==> Remove(row, t) == row
    ensures row != [] && row[0] == t ==> Remove(row, t) == row[1..]
  {
    if row != [] {
      Uncons(row);
      RemoveDistinct(row[1..], t);
      RemoveMembers(row[1..], t);
      if row[0] == t { RemoveAbsent(row[1..], t); } else { assert Remove(row, t)[1..] == Remove(row[1..], t); }
    }
  }

  lemma Shifted(row: seq<int>, n: nat, rest: seq<int>)
    requires n < |row|
    ensures row[..n] + ([row[n]] + rest) == row[..n + 1] + rest
  {}

  lemma InsertNext(row: seq<int>, key: map<int, int>, t: int, n: nat)
    requires n < |row| && Key(key, row[n]) <= Key(key, t)
    ensures Insert(row[n..], key, t) == [row[n]] + Insert(row[n + 1..], key, t)
  {
    assert row[n..][1..] == row[n + 1..];
  }

  lemma InsertPast(row: seq<int>, key: map<int, int>, t: int, n: nat)
    requires n < |row| && Key(key, row[n]) <= Key(key, t)
    requires Insert(row, key, t) == row[..n] + Insert(row[n..], key, t)
    ensures Insert(row, key, t) == row[..n + 1] + Insert(row[n + 1..], key, t)
  {
    hide Insert;
    InsertNext(row, key, t, n);
    Shifted(row, n, Insert(row[n + 1..], key, t));
  }

  lemma InsertHere(row: seq<int>, key: map<int, int>, t: int, n: nat)
    requires n <= |row| && (n < |row| ==> Key(key, row[n]) > Key(key, t))
    requires Insert(row, key, t) == row[..n] + Insert(row[n..], key, t)
    ensures Insert(row, key, t) == row[..n] + [t] + row[n..]
  {
    if n < |row| {
      assert row[n..][0] == row[n];
    } else {
      assert row[n..] == [];
    }
    assert row[..n] + ([t] + row[n..]) == row[..n] + [t] + row[n..];
  }

  /** rt_ipc_list_suspend: where a thread joins a wait list, by arrival or by priority. */
  function Enqueue(row: seq<int>, fifo: bool, key: map<int, int>, t: int): seq<int> {
    if fifo then row + [t] else Insert(row, key, t)
  }

  lemma {:induction false} InsertDistinct(row: seq<int>, key: map<int, int>, t: int)
    requires Distinct(row) && t !in row
    ensures Distinct(Insert(row, key, t))
  {
    var r := Insert(row, key, t);
    if row == [] {
      assert r[1..] == [];
    } else {
      Uncons(row);
      if Key(key, row[0]) <= Key(key, t) {
        InsertDistinct(row[1..], key, t);
        InsertMembers(row[1..], key, t);
        assert r[1..] == Insert(row[1..], key, t);
      } else {
        assert r[1..] == row;
      }
    }
  }

  lemma {:induction false} AppendDistinct(row: seq<int>, t: int)
    requires Distinct(row) && t !in row
    ensures Distinct(row + [t])
  {
    if row != [] {
      Uncons(row);
      AppendDistinct(row[1..], t);
      assert (row + [t])[1..] == row[1..] + [t];
    }
  }

  lemma EnqueueKeeps(row: seq<int>, fifo: bool, key: map<int, int>, t: int)
    requires Distinct(row) && t !in row
    ensures var r := Enqueue(row, fifo, key, t); Distinct(r) && forall x :: x in r <==> x == t || x in row
  {
    AppendDistinct(row, t);
    InsertDistinct(row, key, t);
    InsertMembers(row, key, t);
  }

  /** A wait list: nobody twice, and by urgency unless it is first come, first served. */
  ghost predicate InLine(row: seq<int>, fifo: bool, key: map<int, int>) {
    Distinct(row) && (fifo || Sorted(row, key))
  }

  /** `row'` is `row` with `t` in its place: at the end, or behind all who are at least as urgent and
      before all others. */
  ghost predicate Joined(row: seq<int>, row': seq<int>, fifo: bool, key: map<int, int>, t: int) {
    exists n :: 0 <= n <= |row| && row' == row[..n] + [t] + row[n..] &&
      (if fifo then n == |row| else forall i :: 0 <= i < |row| ==> (Key(key, row[i]) <= Key(key, t) <==> i < n))
  }

  /** Who joins a line goes to its end, or behind all who are at least as urgent and before all others. */
  lemma EnqueueJoins(row: seq<int>, fifo: bool, key: map<int, int>, t: int)
    requires InLine(row, fifo, key) && t !in row
    ensures var r := Enqueue(row, fifo, key, t);
      InLine(r, fifo, key) && Joined(row, r, fifo, key, t) && forall x :: x in r <==> x == t || x in row
  {
    AppendDistinct(row, t);
    if fifo {
      assert row[..|row|] == row && row[|row|..] == [];
      assert Enqueue(row, fifo, key, t) == row[..|row|] + [t] + row[|row|..];
    } else {
      InsertKeeps(row, key, t);
      InsertMembers(row, key, t);
      CutPoint(row, key, Key(key, t));
      InsertAtCut(row, key, t);
    }
  }

  /** Who leaves a line leaves the others in theirs. */
  lemma RemoveInLine(row: seq<int>, fifo: bool, key: map<int, int>, t: int)
    requires InLine(row, fifo, key)
    ensures InLine(Remove(row, t), fifo, key)
  {
    RemoveDistinct(row, t);
    if !fifo { RemoveKeeps(row, key, t); }
  }

  /** The first in a line by urgency is the most urgent. */
  lemma FirstInLine(row: seq<int>, fifo: bool, key: map<int, int>)
    requires InLine(row, fifo, key) && row != []
    ensures InLine(row[1..], fifo, key) && row[0] !in row[1..]
    ensures !fifo ==> forall x :: x in row ==> Key(key, row[0]) <= Key(key, x)
  {
    Uncons(row);
  }

  /** Inserting an element that is in the row already makes a duplicate. */
  lemma {:induction false} InsertTwice(row: seq<int>, key: map<int, int>, t: int)
    requires t in row
    ensures !Distinct(Insert(row, key, t))
  {
    var r := Insert(row, key, t);
    if Key(key, row[0]) <= Key(key, t) {
      assert r[0] == row[0] && r[1..] == Insert(row[1..], key, t);
      InsertMembers(row[1..], key, t);
      Uncons(row);
      if row[0] != t { InsertTwice(row[1..], key, t); }
    } else {
      assert r[1..] == row;
    }
  }

  /** The key `d` lies between those of the neighbours of `t` in the row. */
  predicate Fitting(row: seq<int>, key: map<int, int>, t: int, d: int) {
    if |row| < 2 then true
    else if row[0] == t then d <= Key(key, row[1])
    else (row[1] == t ==> Key(key, row[0]) <= d) && Fitting(row[1..], key, t, d)
  }

  lemma {:induction false} FittingAbsent(row: seq<int>, key: map<int, int>, t: int, d: int)
    requires t !in row
    ensures Fitting(row, key, t, d)
  {
    if |row| >= 2 {
      Uncons(row);
      FittingAbsent(row[1..], key, t, d);
    }
  }

  lemma SortedFirst(row: seq<int>, key: map<int, int>, d: int)
    requires Sorted(row, key) && row != []
    ensures (forall x :: x in row ==> d <= Key(key, x)) <==> d <= Key(key, row[0])
  {
    Uncons(row);
    assert row[0] in row;
  }

  /** An element may get the key `d` where it is if and only if that lies between its neighbours' keys. */
  lemma {:induction false} RekeyedSorted(row: seq<int>, key: map<int, int>, t: int, d: int)
    requires Distinct(row) && Sorted(row, key)
    ensures Sorted(row, key[t := d]) <==> Fitting(row, key, t, d)
  {
    if |row| < 2 {
      if row != [] { assert row[1..] == []; }
    } else {
      var rest := row[1..];
      Uncons(row);
      Uncons(rest);
      if row[0] == t {
        SortedUnder(rest, key, key[t := d]);
        SortedFirst(rest, key, d);
      } else {
        RekeyedSorted(rest, key, t, d);
        if Sorted(rest, key[t := d]) { RekeyedFirst(row, key, t, d); }
      }
    }
  }

  lemma RekeyedFirst(row: seq<int>, key: map<int, int>, t: int, d: int)
    requires Distinct(row) && Sorted(row, key) && |row| >= 2 && row[0] != t && Sorted(row[1..], key[t := d])
    ensures (forall x :: x in row[1..] ==> Key(key[t := d], row[0]) <= Key(key[t := d], x)) <==>
            (row[1] == t ==> Key(key, row[0]) <= d)
  {
    SortedFirst(row[1..], key[t := d], Key(key, row[0]));
    assert row[1] in row[1..];
  }
}
