/** Circular doubly linked lists.

    A node is an address; `next` and `prev` are the two pointer fields of every
    node. A ring is described by the sequence of its nodes, starting at the list
    head. The operations are the inline functions of include/rtservice.h, which
    the allocators repeat by hand on their own `next/prev` and
    `next_free/prev_free` fields. */
module LinkedRing {

  datatype Links = Links(next: map<int, int>, prev: map<int, int>)

  ghost predicate Distinct(s: seq<int>) {
    forall i, j :: 0 <= i < j < |s| ==> s[i] != s[j]
  }

  /** Following `next` walks through `s` in order and from its end back to its start. */
  ghost predicate Forward(next: map<int, int>, s: seq<int>) {
    && |s| > 0
    && (forall i :: 0 <= i < |s| ==> s[i] in next)
    && (forall i {:trigger next[s[i]]} :: 0 <= i < |s| - 1 ==> next[s[i]] == s[i + 1])
    && next[s[|s| - 1]] == s[0]
  }

  /** Following `prev` walks through `s` in the opposite direction. */
  ghost predicate Backward(prev: map<int, int>, s: seq<int>) {
    && |s| > 0
    && (forall i :: 0 <= i < |s| ==> s[i] in prev)
    && (forall i {:trigger prev[s[i]]} :: 0 < i < |s| ==> prev[s[i]] == s[i - 1])
    && prev[s[0]] == s[|s| - 1]
  }

  /** The pointers of `lk` join exactly the nodes of `s`, in this order, into one ring. */
  ghost predicate IsRing(lk: Links, s: seq<int>) {
    Distinct(s) && Forward(lk.next, s) && Backward(lk.prev, s)
  }

  // ---- the pointer assignments, in the order of the source --------------------

  function Init(lk: Links, l: int): Links {
    Links(lk.next[l := l], lk.prev[l := l])
  }

  function InsertAfter(lk: Links, l: int, n: int): Links
    requires l in lk.next
  {
    var prev := lk.prev[lk.next[l] := n];
    var next := lk.next[n := lk.next[l]];
    Links(next[l := n], prev[n := l])
  }

  function InsertBefore(lk: Links, l: int, n: int): Links
    requires l in lk.prev
  {
    var next := lk.next[lk.prev[l] := n];
    var prev := lk.prev[n := lk.prev[l]];
    Links(next[n := l], prev[l := n])
  }

  /** The first two assignments of a removal; the node's own pointers stay behind. */
  function Unlink(lk: Links, n: int): Links
    requires n in lk.next && n in lk.prev
  {
    var prev := lk.prev[lk.next[n] := lk.prev[n]];
    Links(lk.next[prev[n] := lk.next[n]], prev)
  }

  function Remove(lk: Links, n: int): Links
    requires n in lk.next && n in lk.prev
  {
    Init(Unlink(lk, n), n)
  }

  predicate IsEmpty(lk: Links, l: int)
    requires l in lk.next
  {
    lk.next[l] == l
  }

  // ---- what they do to a ring ---------------------------------------------------

  function Inserted(s: seq<int>, k: int, n: int): seq<int>
    requires 0 <= k <= |s|
  {
    s[..k] + [n] + s[k..]
  }

  function Removed(s: seq<int>, k: int): seq<int>
    requires 0 <= k < |s|
  {
    s[..k] + s[k + 1..]
  }

  lemma InsertedAt(s: seq<int>, k: int, n: int)
    requires 0 <= k <= |s|
    ensures |Inserted(s, k, n)| == |s| + 1
    ensures Inserted(s, k, n)[k] == n
    ensures forall i :: 0 <= i < k ==> Inserted(s, k, n)[i] == s[i]
    ensures forall i :: k < i <= |s| ==> Inserted(s, k, n)[i] == s[i - 1]
    ensures Distinct(s) && n !in s ==> Distinct(Inserted(s, k, n))
  {}

  lemma RemovedAt(s: seq<int>, k: int)
    requires 0 <= k < |s|
    ensures |Removed(s, k)| == |s| - 1
    ensures forall i :: 0 <= i < k ==> Removed(s, k)[i] == s[i]
    ensures forall i :: k <= i < |s| - 1 ==> Removed(s, k)[i] == s[i + 1]
    ensures Distinct(s) ==> Distinct(Removed(s, k)) && s[k] !in Removed(s, k)
  {}

  lemma RemovedMembers(s: seq<int>, k: int)
    requires 0 <= k < |s| && Distinct(s)
    ensures forall x :: x in Removed(s, k) <==> x in s && x != s[k]
  {
    RemovedAt(s, k);
    forall x | x in s && x != s[k] ensures x in Removed(s, k) {
      var i :| 0 <= i < |s| && s[i] == x;
      assert Removed(s, k)[if i < k then i else i - 1] == x;
    }
  }

  /** Removing a node behind the list head, seen from the list without its head. */
  lemma RemovedBehindHead(head: int, fs: seq<int>, j: int)
    requires Distinct([head] + fs) && 0 <= j < |fs|
    ensures Removed([head] + fs, j + 1) == [head] + Removed(fs, j)
    ensures forall x :: x in Removed(fs, j) <==> x in fs && x != fs[j]
  {
    assert forall i :: 0 <= i < |fs| ==> fs[i] == ([head] + fs)[i + 1];
    RemovedMembers(fs, j);
  }

  lemma ForwardInserted(next: map<int, int>, s: seq<int>, k: int, n: int)
    requires Distinct(s) && Forward(next, s) && 0 <= k < |s| && n !in s
    ensures Forward(next[n := next[s[k]]][s[k] := n], Inserted(s, k + 1, n))
  {
    var t := Inserted(s, k + 1, n);
    var next' := next[n := next[s[k]]][s[k] := n];
    InsertedAt(s, k + 1, n);
    forall i | 0 <= i < |t| - 1 ensures t[i] in next' && next'[t[i]] == t[i + 1] {
      if i > k + 1 { assert next[s[i - 1]] == s[i]; }
    }
  }

  lemma BackwardInserted(prev: map<int, int>, s: seq<int>, k: int, n: int)
    requires Distinct(s) && Backward(prev, s) && 0 <= k < |s| && n !in s
    ensures Backward(prev[(if k + 1 < |s| then s[k + 1] else s[0]) := n][n := s[k]], Inserted(s, k + 1, n))
  {
    var t := Inserted(s, k + 1, n);
    var prev' := prev[(if k + 1 < |s| then s[k + 1] else s[0]) := n][n := s[k]];
    InsertedAt(s, k + 1, n);
    forall i | 0 < i < |t| ensures t[i] in prev' && prev'[t[i]] == t[i - 1] {
      if i > k + 2 { assert prev[s[i - 1]] == s[i - 2]; }
    }
  }

  lemma InsertAfterRing(lk: Links, s: seq<int>, k: int, n: int)
    requires IsRing(lk, s) && 0 <= k < |s| && n !in s
    ensures IsRing(InsertAfter(lk, s[k], n), Inserted(s, k + 1, n))
  {
    InsertedAt(s, k + 1, n);
    ForwardInserted(lk.next, s, k, n);
    BackwardInserted(lk.prev, s, k, n);
  }

  /** The nodes of a ring, starting from another node. */
  function Rotated(s: seq<int>, k: int): (t: seq<int>)
    requires 0 <= k < |s|
    ensures |t| == |s| && forall i :: 0 <= i < |t| ==> t[i] == if i < |s| - k then s[i + k] else s[i - (|s| - k)]
  {
    s[k..] + s[..k]
  }

  lemma ForwardRotated(next: map<int, int>, s: seq<int>, k: int)
    requires Forward(next, s) && 0 <= k < |s|
    ensures Forward(next, Rotated(s, k))
  {
    var t, m := Rotated(s, k), |s| - k;
    forall i | 0 <= i < |t| ensures t[i] in next && next[t[i]] == if i + 1 < |t| then t[i + 1] else t[0] {
      var j := if i < m then i + k else i - m;
      assert t[i] == s[j] && next[s[j]] == if j + 1 < |s| then s[j + 1] else s[0];
    }
  }

  lemma BackwardRotated(prev: map<int, int>, s: seq<int>, k: int)
    requires Backward(prev, s) && 0 <= k < |s|
    ensures Backward(prev, Rotated(s, k))
  {
    var t, m := Rotated(s, k), |s| - k;
    forall i | 0 <= i < |t| ensures t[i] in prev && prev[t[i]] == if i > 0 then t[i - 1] else t[|t| - 1] {
      var j := if i < m then i + k else i - m;
      assert t[i] == s[j] && prev[s[j]] == if j > 0 then s[j - 1] else s[|s| - 1];
    }
  }

  /** A ring may be described from any of its nodes. */
  lemma Rotate(lk: Links, s: seq<int>, k: int)
    requires IsRing(lk, s) && 0 <= k < |s|
    ensures IsRing(lk, Rotated(s, k))
  {
    ForwardRotated(lk.next, s, k);
    BackwardRotated(lk.prev, s, k);
    hide Forward; hide Backward;
    assert Distinct(Rotated(s, k));
  }

  /** Insertion before a node is insertion after its predecessor. */
  lemma BeforeIsAfter(lk: Links, s: seq<int>, k: int, n: int)
    requires IsRing(lk, s) && 0 <= k < |s| && n !in s
    ensures InsertBefore(lk, s[k], n) == InsertAfter(lk, s[if k > 0 then k - 1 else |s| - 1], n)
  {
    var p := if k > 0 then k - 1 else |s| - 1;
    assert lk.prev[s[k]] == s[p] && lk.next[s[p]] == s[k];
    assert lk.next[n := s[k]][s[p] := n] == lk.next[s[p] := n][n := s[k]];
    assert lk.prev[s[k] := n][n := s[p]] == lk.prev[n := s[p]][s[k] := n];
  }

  lemma InsertedAround(s: seq<int>, n: int)
    ensures Inserted(s, |s|, n) == s + [n] && Rotated(s + [n], |s|) == Inserted(s, 0, n)
  {}

  lemma InsertBeforeRing(lk: Links, s: seq<int>, k: int, n: int)
    requires IsRing(lk, s) && 0 <= k < |s| && n !in s
    ensures s[k] in lk.prev
    ensures IsRing(InsertBefore(lk, s[k], n), Inserted(s, k, n))
    ensures k == 0 ==> IsRing(InsertBefore(lk, s[0], n), s + [n])
  {
    hide *;
    RingLinked(lk, s, k);
    RingLinked(lk, s, if k > 0 then k - 1 else |s| - 1);
    BeforeIsAfter(lk, s, k, n);
    if k > 0 {
      InsertAfterRing(lk, s, k - 1, n);
    } else {
      InsertAfterRing(lk, s, |s| - 1, n);
      InsertedAround(s, n);
      Rotate(InsertBefore(lk, s[0], n), s + [n], |s|);
    }
  }

  lemma ForwardRemoved(next: map<int, int>, s: seq<int>, k: int)
    requires Distinct(s) && Forward(next, s) && 0 <= k < |s| && |s| >= 2
    ensures Forward(next[(if k > 0 then s[k - 1] else s[|s| - 1]) := next[s[k]]], Removed(s, k))
  {
    var t := Removed(s, k);
    var next' := next[(if k > 0 then s[k - 1] else s[|s| - 1]) := next[s[k]]];
    RemovedAt(s, k);
    forall i | 0 <= i < |t| - 1 ensures t[i] in next' && next'[t[i]] == t[i + 1] {
      if i >= k { assert next[s[i + 1]] == s[i + 2]; }
    }
  }

  lemma BackwardRemoved(prev: map<int, int>, s: seq<int>, k: int)
    requires Distinct(s) && Backward(prev, s) && 0 <= k < |s| && |s| >= 2
    ensures Backward(prev[(if k + 1 < |s| then s[k + 1] else s[0]) := prev[s[k]]], Removed(s, k))
  {
    var t := Removed(s, k);
    var prev' := prev[(if k + 1 < |s| then s[k + 1] else s[0]) := prev[s[k]]];
    RemovedAt(s, k);
    forall i | 0 < i < |t| ensures t[i] in prev' && prev'[t[i]] == t[i - 1] {
      if i > k { assert prev[s[i + 1]] == s[i]; }
    }
  }

  lemma UnlinkRing(lk: Links, s: seq<int>, k: int)
    requires IsRing(lk, s) && 0 <= k < |s| && |s| >= 2
    ensures IsRing(Unlink(lk, s[k]), Removed(s, k))
  {
    RemovedAt(s, k);
    ForwardRemoved(lk.next, s, k);
    BackwardRemoved(lk.prev, s, k);
  }

  /** Replacing the successor of a node: unlink it, then link another one in its place. */
  lemma UnlinkInsertRing(lk: Links, s: seq<int>, k: int, c: int)
    requires IsRing(lk, s) && 0 <= k < |s| - 1 && c !in Removed(s, k + 1)
    ensures s[k + 1] in lk.next && s[k + 1] in lk.prev && s[k] in Unlink(lk, s[k + 1]).next
    ensures IsRing(InsertAfter(Unlink(lk, s[k + 1]), s[k], c), Inserted(Removed(s, k + 1), k + 1, c))
  {
    UnlinkRing(lk, s, k + 1);
    assert Removed(s, k + 1)[k] == s[k];
    InsertAfterRing(Unlink(lk, s[k + 1]), Removed(s, k + 1), k, c);
  }

  /** The same replacement in the other order. */
  lemma InsertUnlinkRing(lk: Links, s: seq<int>, k: int, c: int)
    requires IsRing(lk, s) && 0 <= k < |s| - 1 && c !in s
    ensures s[k] in lk.next
    ensures var lk' := InsertAfter(lk, s[k], c);
      && s[k + 1] in lk'.next && s[k + 1] in lk'.prev
      && IsRing(Unlink(lk', s[k + 1]), Inserted(Removed(s, k + 1), k + 1, c))
  {
    RingLinked(lk, s, k);
    hide InsertAfter; hide Unlink; hide IsRing; hide Inserted; hide Removed;
    var lk', t := InsertAfter(lk, s[k], c), Inserted(s, k + 1, c);
    InsertAfterRing(lk, s, k, c);
    InsertedThenRemoved(s, k, c);
    RingLinked(lk', t, k + 2);
    UnlinkRing(lk', t, k + 2);
  }

  lemma RingLinked(lk: Links, s: seq<int>, k: int)
    requires IsRing(lk, s) && 0 <= k < |s|
    ensures |s| > 0 && s[k] in lk.next && s[k] in lk.prev
  {}

  lemma RingDistinct(lk: Links, s: seq<int>)
    requires IsRing(lk, s)
    ensures Distinct(s)
  {}

  lemma InsertedThenRemoved(s: seq<int>, k: int, c: int)
    requires 0 <= k < |s| - 1
    ensures |Inserted(s, k + 1, c)| == |s| + 1 && Inserted(s, k + 1, c)[k + 2] == s[k + 1]
    ensures Removed(Inserted(s, k + 1, c), k + 2) == Inserted(Removed(s, k + 1), k + 1, c)
  {}

  /** Removal leaves two rings: the list without the node, and the node alone. A node that was alone
      stays so. */
  lemma RemoveRing(lk: Links, s: seq<int>, k: int)
    requires IsRing(lk, s) && 0 <= k < |s|
    ensures IsRing(Remove(lk, s[k]), [s[k]])
    ensures if |s| >= 2 then IsRing(Remove(lk, s[k]), Removed(s, k)) else Remove(lk, s[k]) == lk
  {
    if |s| >= 2 {
      RemovedAt(s, k);
      UnlinkRing(lk, s, k);
      OutsideKept(Unlink(lk, s[k]), s[k], s[k], s[k], Removed(s, k));
    } else {
      assert lk.next[s[0]] == s[0] && lk.prev[s[0]] == s[0];
      assert lk.next[s[0] := s[0]] == lk.next && lk.prev[s[0] := s[0]] == lk.prev;
    }
  }

  lemma OutsideKept(lk: Links, n: int, x: int, y: int, u: seq<int>)
    requires IsRing(lk, u) && n !in u
    ensures IsRing(Links(lk.next[n := x], lk.prev[n := y]), u)
  {
    assert forall i :: 0 <= i < |u| ==> u[i] != n;
  }

  /** An empty-list test looks at one pointer and decides whether the ring is just its head. */
  lemma EmptyIffAlone(lk: Links, s: seq<int>)
    requires IsRing(lk, s)
    ensures IsEmpty(lk, s[0]) <==> s == [s[0]]
  {
    if |s| > 1 { assert lk.next[s[0]] == s[1]; }
  }

  lemma SamePointers(lk: Links, lk': Links, u: seq<int>)
    requires IsRing(lk, u)
    requires forall x :: x in u ==> x in lk'.next && x in lk'.prev && lk'.next[x] == lk.next[x] && lk'.prev[x] == lk.prev[x]
    ensures IsRing(lk', u)
  {
    assert forall i :: 0 <= i < |u| ==> u[i] in u;
  }

  /** The neighbours of a node are in its ring. */
  lemma RingClosed(lk: Links, s: seq<int>, k: int)
    requires IsRing(lk, s) && 0 <= k < |s|
    ensures s[k] in lk.next && s[k] in lk.prev && lk.next[s[k]] in s && lk.prev[s[k]] in s
  {}

  /** Inserting into or removing from one ring leaves every disjoint ring intact. */
  lemma DisjointRingKept(lk: Links, s: seq<int>, k: int, n: int, u: seq<int>)
    requires IsRing(lk, s) && 0 <= k < |s| && n !in s
    requires IsRing(lk, u) && n !in u && (forall m :: m in u ==> m !in s)
    ensures s[k] in lk.next && s[k] in lk.prev
    ensures IsRing(InsertAfter(lk, s[k], n), u)
    ensures IsRing(InsertBefore(lk, s[k], n), u)
    ensures IsRing(Remove(lk, s[k]), u)
  {
    RingClosed(lk, s, k);
    forall x | x in u ensures x in lk.next && x in lk.prev { var i :| 0 <= i < |u| && u[i] == x; RingClosed(lk, u, i); }
    hide IsRing;
    SamePointers(lk, InsertAfter(lk, s[k], n), u);
    SamePointers(lk, InsertBefore(lk, s[k], n), u);
    SamePointers(lk, Remove(lk, s[k]), u);
  }

  /** rt_list_len: walks the ring once. */
  method Length(lk: Links, l: int, ghost s: seq<int>) returns (len: nat)
    requires IsRing(lk, s) && s[0] == l
    ensures len == |s| - 1
  {
    len := 0;
    var p := l;
    while lk.next[p] != l
      invariant len < |s| && p == s[len]
      decreases |s| - len
    {
      p := lk.next[p];
      len := len + 1;
    }
  }
}
