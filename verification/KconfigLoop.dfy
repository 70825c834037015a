/** Dependency loop detection over the symbols and choices of a configuration (tools/kconfiglib.py). */
module KconfigLoop {

  const NONE := -1

  /** `deps[i]` lists what depends on `i`: i._dependents in some order of iteration. */
  type Graph = map<int, seq<int>>

  /** The dependents, the symbols of every choice, and the choice of every symbol that is in one. */
  datatype Net = Net(deps: Graph, syms: map<int, seq<int>>, choice: map<int, int>)

  predicate IsChoice(g: Net, i: int) {
    i in g.syms
  }

  ghost predicate Formed(g: Net) {
    && NONE !in g.deps
    && (forall s, d :: s in g.deps && d in g.deps[s] ==> d in g.deps)
    && (forall c :: c in g.syms ==> c in g.deps)
    && (forall c, x :: c in g.syms && x in g.syms[c] ==> x in g.deps && x !in g.syms && x in g.choice && g.choice[x] == c)
    && (forall x :: x in g.choice ==> x in g.deps && x !in g.syms && g.choice[x] in g.syms && x in g.syms[g.choice[x]])
  }

  // ---- loops --------------------------------------------------------------------------------

  /** `b` depends on `a`: through a property of `b`, as the choice of `a`, or as a symbol of the choice `a`. */
  ghost predicate Edge(g: Net, a: int, b: int) {
    if IsChoice(g, a) then b in g.syms[a] else Leads(g.deps, a, b) || (a in g.choice && b == g.choice[a])
  }

  predicate Leads(deps: Graph, a: int, b: int) {
    a in deps && b in deps[a]
  }

  ghost predicate Distinct(s: seq<int>) {
    forall i, j :: 0 <= i < j < |s| ==> s[i] != s[j]
  }

  /** Each item of `loop` depends on the one behind it. */
  ghost predicate Backwards(g: Net, loop: seq<int>) {
    forall k :: 0 <= k < |loop| - 1 ==> Edge(g, loop[k + 1], loop[k])
  }

  /** A symbol and its choice depend on each other always; that alone is no loop. */
  ghost predicate Bounce(g: Net, a: int, b: int) {
    (IsChoice(g, a) && !Leads(g.deps, b, a)) || (IsChoice(g, b) && !Leads(g.deps, a, b))
  }

  /** Different items, each depending on the one behind it and the last on the first. */
  ghost predicate Cycle(g: Net, loop: seq<int>) {
    && loop != [] && Distinct(loop) && Backwards(g, loop) && Edge(g, loop[0], loop[|loop| - 1])
    && !(|loop| == 2 && Bounce(g, loop[0], loop[1]))
  }

  // ---- orders -------------------------------------------------------------------------------

  /** Every item comes after all that depend on it. */
  ghost predicate Topological(g: Graph, order: seq<int>) {
    forall i :: 0 <= i < |order| ==> order[i] in g && forall d :: d in g[order[i]] ==> d in order[..i]
  }

  /** What the search looks at from an item: the dependents of a symbol, the symbols of a choice. */
  function Row(g: Net, i: int): seq<int>
    requires i in g.deps
  {
    if IsChoice(g, i) then g.syms[i] else g.deps[i]
  }

  ghost function Rows(g: Net): Graph {
    map i | i in g.deps :: Row(g, i)
  }

  /** Every symbol comes after all that depend on it, every choice after its symbols. */
  ghost predicate Arranged(g: Net, order: seq<int>) {
    Topological(Rows(g), order)
  }

  lemma TopologicalNext(g: Graph, order: seq<int>, s: int)
    requires Topological(g, order) && s in g && forall d :: d in g[s] ==> d in order
    ensures Topological(g, order + [s])
  {
    var o := order + [s];
    forall i | 0 <= i < |o| ensures o[i] in g && forall d :: d in g[o[i]] ==> d in o[..i] {
      if i < |order| { assert o[..i] == order[..i]; } else { assert o[..i] == order; }
    }
  }

  function IndexOf(order: seq<int>, s: int): (i: nat)
    requires s in order
    ensures i < |order| && order[i] == s && s !in order[..i]
  {
    if order[0] == s then 0
    else
      var j := IndexOf(order[1..], s);
      assert order[..j + 1] == [order[0]] + order[1..][..j];
      j + 1
  }

  /** In a topological order, dependants come strictly earlier: the order read backwards is one in
      which every symbol is evaluated after all it depends on. */
  lemma Earlier(g: Graph, order: seq<int>, s: int, d: int)
    requires Topological(g, order) && s in order && Leads(g, s, d)
    ensures d in order && IndexOf(order, d) < IndexOf(order, s)
  {
    var i := IndexOf(order, s);
    assert d in order[..i];
    var k :| 0 <= k < i && order[..i][k] == d;
    assert order[k] == d;
    FirstIndex(order, d, k);
  }

  lemma FirstIndex(order: seq<int>, d: int, k: nat)
    requires k < |order| && order[k] == d
    ensures IndexOf(order, d) <= k
  {
    var j := IndexOf(order, d);
    assert forall n :: 0 <= n < j ==> order[..j][n] == order[n];
  }

  /** Each item of `loop` is a dependant of the one behind it. */
  ghost predicate Chain(g: Graph, loop: seq<int>) {
    forall k :: 0 <= k < |loop| - 1 ==> Leads(g, loop[k + 1], loop[k])
  }

  lemma {:induction false} EarlierAlong(g: Graph, order: seq<int>, loop: seq<int>, k: nat)
    requires Topological(g, order) && Chain(g, loop) && k < |loop| && loop[|loop| - 1] in order
    ensures loop[k] in order && IndexOf(order, loop[k]) <= IndexOf(order, loop[|loop| - 1])
    decreases |loop| - k
  {
    if k < |loop| - 1 {
      EarlierAlong(g, order, loop, k + 1);
      assert Leads(g, loop[k + 1], loop[k]);
      Earlier(g, order, loop[k + 1], loop[k]);
    }
  }

  /** A graph whose dependants are all in a topological order has no cycle. */
  lemma NoCycle(g: Graph, order: seq<int>, loop: seq<int>)
    requires Topological(g, order) && forall s, d :: Leads(g, s, d) ==> d in order
    ensures !(loop != [] && Chain(g, loop) && Leads(g, loop[0], loop[|loop| - 1]))
  {
    if loop != [] && Chain(g, loop) && Leads(g, loop[0], loop[|loop| - 1]) {
      var last := loop[|loop| - 1];
      EarlierAlong(g, order, loop, 0);
      Earlier(g, order, loop[0], last);
    }
  }

  // ---- the search -----------------------------------------------------------------------------

  /** The result of a call: nothing found, a loop still being collected on the way back, or the
      exception with the whole loop. */
  datatype Result = Fine | Partial(loop: seq<int>) | Raised(loop: seq<int>)

  type Marks = map<int, int>    // _visited: 0, 1 or 2

  ghost function White(m: Marks): set<int> {
    set s | s in m && m[s] == 0
  }

  /** The marks after a call, the items in an order in which they can be said to be done, and the result. */
  datatype Out = Out(marks: Marks, order: seq<int>, r: Result)

  /** _found_dep_loop. */
  function Found(r: Result, cur: int): Result {
    match r
    case Partial(loop) => if loop != [] && loop[0] == cur then Raised(loop) else Partial(loop + [cur])
    case _ => r
  }

  /** _check_dep_loop_sym. A choice that was entered through a symbol counts as done after it. */
  ghost function VisitSym(g: Net, m: Marks, order: seq<int>, s: int, ignoreChoice: bool): (o: Out)
    requires Formed(g) && m.Keys == g.deps.Keys && s in g.deps
    ensures o.marks.Keys == m.Keys && White(o.marks) <= White(m)
    decreases White(m), 0, 0
  {
    if m[s] == 2 then Out(m, order, Fine)
    else if m[s] != 0 then Out(m, order, Partial([s]))
    else
      assert s in White(m);
      var o := VisitRow(g, m[s := 1], order, g.deps[s], NONE, false);
      if !o.r.Fine? then o.(r := Found(o.r, s))
      else if s in g.choice && !ignoreChoice then
        var c := g.choice[s];
        var p := VisitChoice(g, o.marks, o.order, c, s);
        if !p.r.Fine? then p.(r := Found(p.r, s))
        else Out(p.marks[s := 2], p.order + [s] + (if o.marks[c] == 0 then [c] else []), Fine)
      else Out(o.marks[s := 2], o.order + [s], Fine)
  }

  /** _check_dep_loop_choice, entered through the symbol `skip` or from elsewhere. */
  ghost function VisitChoice(g: Net, m: Marks, order: seq<int>, c: int, skip: int): (o: Out)
    requires Formed(g) && m.Keys == g.deps.Keys && IsChoice(g, c)
    ensures o.marks.Keys == m.Keys && White(o.marks) <= White(m)
    decreases White(m), 0, 0
  {
    if m[c] == 2 then Out(m, order, Fine)
    else if m[c] != 0 then Out(m, order, Partial([c]))
    else
      assert c in White(m);
      var o := VisitRow(g, m[c := 1], order, g.syms[c], skip, true);
      if !o.r.Fine? then o.(r := Found(o.r, c))
      else Out(o.marks[c := 2], if skip == NONE then o.order + [c] else o.order, Fine)
  }

  /** The loop over a row, without `skip`. */
  ghost function VisitRow(g: Net, m: Marks, order: seq<int>, row: seq<int>, skip: int, inChoice: bool): (o: Out)
    requires Formed(g) && m.Keys == g.deps.Keys && forall d :: d in row ==> d in g.deps
    ensures o.marks.Keys == m.Keys && White(o.marks) <= White(m)
    decreases White(m), 1, |row|
  {
    if row == [] then Out(m, order, Fine)
    else if row[0] == skip then VisitRow(g, m, order, row[1..], skip, inChoice)
    else
      var o := if IsChoice(g, row[0]) then VisitChoice(g, m, order, row[0], NONE) else VisitSym(g, m, order, row[0], inChoice);
      if !o.r.Fine? then o else VisitRow(g, o.marks, o.order, row[1..], skip, inChoice)
  }

  // ---- without a loop ---------------------------------------------------------------------------

  ghost predicate Keeps(a: seq<int>, b: seq<int>) {
    forall s :: s in a ==> s in b
  }

  /** The items marked 2 are the ones in the order, which is arranged. */
  ghost predicate Ordered(g: Net, m: Marks, order: seq<int>) {
    && m.Keys == g.deps.Keys && Arranged(g, order) && (forall i :: i in order <==> i in m && m[i] == 2)
    && forall i :: i in m ==> 0 <= m[i] <= 2
  }

  /** The same items are on the call stack. */
  ghost predicate SameOnes(m: Marks, m': Marks) {
    m.Keys == m'.Keys && forall i :: i in m ==> (m[i] == 1 <==> m'[i] == 1)
  }

  lemma OnesSelf(m: Marks)
    ensures SameOnes(m, m)
  {}

  lemma OnesBack(m: Marks, s: int, m': Marks)
    requires s in m && m[s] == 0 && SameOnes(m[s := 1], m')
    ensures SameOnes(m, m'[s := 2]) && m'[s] == 1
  {}

  lemma OnesTwice(a: Marks, b: Marks, c: Marks)
    requires SameOnes(a, b) && SameOnes(b, c)
    ensures SameOnes(a, c)
  {}

  lemma ArrangedNext(g: Net, order: seq<int>, s: int)
    requires Arranged(g, order) && s in g.deps && forall d :: d in Row(g, s) ==> d in order
    ensures Arranged(g, order + [s])
  {
    TopologicalNext(Rows(g), order, s);
  }

  /** An item whose row is done can be said to be done itself. */
  lemma OrderedNext(g: Net, m: Marks, order: seq<int>, s: int)
    requires Ordered(g, m, order) && s in g.deps && forall d :: d in Row(g, s) ==> d in order
    ensures Ordered(g, m[s := 2], order + [s])
  {
    hide Arranged;
    ArrangedNext(g, order, s);
  }

  lemma OrderedBoth(g: Net, m: Marks, order: seq<int>, s: int, c: int)
    requires s in g.deps && !IsChoice(g, s) && IsChoice(g, c) && c in m && m[c] == 2 && Ordered(g, m[c := 1], order)
    requires (forall d :: d in g.deps[s] ==> d in order) && forall x :: x in g.syms[c] && x != s ==> x in order
    ensures Ordered(g, m[s := 2], order + [s] + [c])
  {
    OrderedNext(g, m[c := 1], order, s);
    OrderedNext(g, m[c := 1][s := 2], order + [s], c);
    assert m[c := 1][s := 2][c := 2] == m[s := 2];
  }

  lemma {:induction false} FineSym(g: Net, m: Marks, order: seq<int>, s: int, ignoreChoice: bool)
    requires Formed(g) && Ordered(g, m, order) && s in g.deps && !IsChoice(g, s)
    ensures var o := VisitSym(g, m, order, s, ignoreChoice);
      o.r.Fine? ==> Ordered(g, o.marks, o.order) && s in o.order && Keeps(order, o.order) && SameOnes(m, o.marks)
    decreases White(m), 0, 0
  {
    hide Arranged; hide SameOnes;
    OnesSelf(m);
    if m[s] == 0 {
      assert s in White(m);
      var m' := m[s := 1];
      FineRow(g, m', order, g.deps[s], NONE, false);
      var o := VisitRow(g, m', order, g.deps[s], NONE, false);
      if o.r.Fine? {
        OnesBack(m, s, o.marks);
        if s in g.choice && !ignoreChoice {
          FineThrough(g, o.marks, o.order, s);
          var p := VisitChoice(g, o.marks, o.order, g.choice[s], s);
          if p.r.Fine? {
            OnesTwice(m', o.marks, p.marks);
            OnesBack(m, s, p.marks);
          }
        } else {
          OrderedNext(g, o.marks, o.order, s);
        }
      }
    }
  }

  /** Finishing a symbol by entering its choice. */
  lemma {:induction false} FineThrough(g: Net, m: Marks, order: seq<int>, s: int)
    requires Formed(g) && Ordered(g, m, order) && s in g.choice && m[s] == 1 && forall d :: d in g.deps[s] ==> d in order
    ensures var c := g.choice[s]; var p := VisitChoice(g, m, order, c, s);
      p.r.Fine? ==>
        var o := p.order + [s] + (if m[c] == 0 then [c] else []);
        Ordered(g, p.marks[s := 2], o) && Keeps(order, o) && SameOnes(m, p.marks)
    decreases White(m), 0, 1
  {
    hide Arranged;
    var c := g.choice[s];
    FineChoice(g, m, order, c, s);
    var p := VisitChoice(g, m, order, c, s);
    if p.r.Fine? {
      if m[c] == 0 {
        OrderedBoth(g, p.marks, p.order, s, c);
      } else {
        OrderedNext(g, p.marks, p.order, s);
        assert p.order + [s] + [] == p.order + [s];
      }
    }
  }

  lemma {:induction false} FineChoice(g: Net, m: Marks, order: seq<int>, c: int, skip: int)
    requires Formed(g) && Ordered(g, m, order) && IsChoice(g, c)
    ensures var o := VisitChoice(g, m, order, c, skip);
      o.r.Fine? ==>
        && Keeps(order, o.order) && SameOnes(m, o.marks) && o.marks[c] == 2
        && (m[c] == 0 && skip != NONE ==> Ordered(g, o.marks[c := 1], o.order) && forall x :: x in g.syms[c] && x != skip ==> x in o.order)
        && (m[c] != 0 || skip == NONE ==> Ordered(g, o.marks, o.order) && c in o.order)
    decreases White(m), 0, 0
  {
    hide Arranged;
    if m[c] == 0 {
      assert c in White(m);
      FineRow(g, m[c := 1], order, g.syms[c], skip, true);
      var o := VisitRow(g, m[c := 1], order, g.syms[c], skip, true);
      if o.r.Fine? {
        assert o.marks[c] == 1;
        if skip == NONE { OrderedNext(g, o.marks, o.order, c); }
        assert o.marks[c := 2][c := 1] == o.marks;
      }
    }
  }

  lemma {:induction false} FineRow(g: Net, m: Marks, order: seq<int>, row: seq<int>, skip: int, inChoice: bool)
    requires Formed(g) && Ordered(g, m, order) && forall d :: d in row ==> d in g.deps
    ensures var o := VisitRow(g, m, order, row, skip, inChoice);
      o.r.Fine? ==> Ordered(g, o.marks, o.order) && Keeps(order, o.order) && SameOnes(m, o.marks) && forall d :: d in row && d != skip ==> d in o.order
    decreases White(m), 1, |row|
  {
    hide Arranged;
    if row != [] {
      if row[0] == skip { FineRow(g, m, order, row[1..], skip, inChoice); }
      else {
        if IsChoice(g, row[0]) { FineChoice(g, m, order, row[0], NONE); } else { FineSym(g, m, order, row[0], inChoice); }
        var o := if IsChoice(g, row[0]) then VisitChoice(g, m, order, row[0], NONE) else VisitSym(g, m, order, row[0], inChoice);
        if o.r.Fine? { FineRow(g, o.marks, o.order, row[1..], skip, inChoice); }
      }
    }
  }

  // ---- with a loop --------------------------------------------------------------------------------

  /** A loop being collected: from an item on the call stack back to `s`, through items that were not
      visited before. */
  ghost predicate Collected(g: Net, m: Marks, s: int, loop: seq<int>) {
    && loop != [] && loop[|loop| - 1] == s && Distinct(loop) && Backwards(g, loop)
    && loop[0] in m && m[loop[0]] == 1 && forall n :: 1 <= n < |loop| ==> loop[n] in White(m)
  }

  lemma CollectedBefore(g: Net, m: Marks, m': Marks, s: int, loop: seq<int>)
    requires Collected(g, m', s, loop) && SameOnes(m, m') && White(m') <= White(m)
    ensures Collected(g, m, s, loop)
  {}

  /** The loop goes on to `s`, whose visit has begun, or is closed there. */
  lemma CollectedNext(g: Net, m: Marks, m': Marks, s: int, d: int, loop: seq<int>)
    requires s in White(m) && SameOnes(m[s := 1], m') && White(m') <= White(m[s := 1]) && Collected(g, m', d, loop) && Edge(g, s, d)
    ensures loop[0] != s ==> Collected(g, m, s, loop + [s])
    ensures loop[0] == s && !(|loop| == 2 && Bounce(g, s, d)) ==> Cycle(g, loop)
  {
    hide Edge;
    if loop[0] != s {
      var more := loop + [s];
      forall n | 1 <= n < |loop| ensures loop[n] in White(m) && loop[n] != s { assert loop[n] in White(m'); }
      forall n | 0 <= n < |more| - 1 ensures Edge(g, more[n + 1], more[n]) {
        if n < |loop| - 1 { assert Edge(g, loop[n + 1], loop[n]); }
      }
    }
  }

  /** A symbol that is visited from its choice does not go back there of itself. */
  ghost predicate Direct(g: Net, loop: seq<int>) {
    |loop| == 2 ==> Leads(g.deps, loop[1], loop[0])
  }

  lemma {:induction false} LoopSym(g: Net, m: Marks, order: seq<int>, s: int, ignoreChoice: bool)
    requires Formed(g) && Ordered(g, m, order) && s in g.deps && !IsChoice(g, s)
    ensures var r := VisitSym(g, m, order, s, ignoreChoice).r;
      && (r.Partial? ==> Collected(g, m, s, r.loop) && (ignoreChoice ==> Direct(g, r.loop)))
      && (r.Raised? ==> Cycle(g, r.loop))
    decreases White(m), 0, 0
  {
    hide Arranged; hide Cycle; hide Edge;
    CollectedOne(g, m, order, s);
    if m[s] == 0 {
      var m' := m[s := 1];
      OrderedEnter(g, m, order, s);
      LoopRow(g, m', order, g.deps[s], NONE, false);
      var o := VisitRow(g, m', order, g.deps[s], NONE, false);
      if o.r.Partial? {
        var d := o.r.loop[|o.r.loop| - 1];
        DepEdge(g, s, d);
        CollectedNext(g, m, m', s, d, o.r.loop);
      } else if o.r.Fine? && s in g.choice && !ignoreChoice {
        FineRow(g, m', order, g.deps[s], NONE, false);
        LoopThrough(g, m, o.marks, o.order, s);
      }
    }
  }

  lemma CollectedOne(g: Net, m: Marks, order: seq<int>, s: int)
    requires Ordered(g, m, order) && s in m
    ensures m[s] != 0 && m[s] != 2 ==> Collected(g, m, s, [s])
  {}

  lemma OrderedEnter(g: Net, m: Marks, order: seq<int>, s: int)
    requires Ordered(g, m, order) && s in m && m[s] == 0
    ensures Ordered(g, m[s := 1], order) && s in White(m) && White(m[s := 1]) < White(m)
  {
    assert s in White(m);
  }

  lemma DepEdge(g: Net, s: int, d: int)
    requires s in g.deps && !IsChoice(g, s) && d in g.deps[s]
    ensures Edge(g, s, d) && !Bounce(g, s, d)
  {}

  lemma {:induction false} LoopThrough(g: Net, m: Marks, m': Marks, order: seq<int>, s: int)
    requires Formed(g) && Ordered(g, m', order) && s in White(m) && SameOnes(m[s := 1], m') && White(m') <= White(m[s := 1]) && s in g.choice
    ensures var r := Found(VisitChoice(g, m', order, g.choice[s], s).r, s);
      && (r.Partial? ==> Collected(g, m, s, r.loop))
      && (r.Raised? ==> Cycle(g, r.loop))
    decreases White(m'), 0, 1
  {
    hide Arranged; hide Cycle;
    var c := g.choice[s];
    LoopChoice(g, m', order, c, s);
    var r := VisitChoice(g, m', order, c, s).r;
    if r.Partial? { CollectedNext(g, m, m', s, c, r.loop); }
  }

  lemma {:induction false} LoopChoice(g: Net, m: Marks, order: seq<int>, c: int, skip: int)
    requires Formed(g) && Ordered(g, m, order) && IsChoice(g, c)
    ensures var r := VisitChoice(g, m, order, c, skip).r;
      && (r.Partial? ==> Collected(g, m, c, r.loop) && (|r.loop| == 2 ==> r.loop[0] != skip))
      && (r.Raised? ==> Cycle(g, r.loop))
    decreases White(m), 0, 0
  {
    hide Arranged; hide Cycle; hide Edge;
    CollectedOne(g, m, order, c);
    if m[c] == 0 {
      var m' := m[c := 1];
      OrderedEnter(g, m, order, c);
      LoopRow(g, m', order, g.syms[c], skip, true);
      var o := VisitRow(g, m', order, g.syms[c], skip, true);
      if o.r.Partial? {
        var x := o.r.loop[|o.r.loop| - 1];
        SymEdge(g, c, x);
        CollectedNext(g, m, m', c, x, o.r.loop);
      }
    }
  }

  lemma SymEdge(g: Net, c: int, x: int)
    requires Formed(g) && IsChoice(g, c) && x in g.syms[c]
    ensures Edge(g, c, x) && !IsChoice(g, x) && (Leads(g.deps, x, c) ==> !Bounce(g, c, x))
  {}

  lemma {:induction false} LoopRow(g: Net, m: Marks, order: seq<int>, row: seq<int>, skip: int, inChoice: bool)
    requires Formed(g) && Ordered(g, m, order) && forall d :: d in row ==> d in g.deps
    ensures var r := VisitRow(g, m, order, row, skip, inChoice).r;
      && (r.Partial? ==> exists d :: d in row && d != skip && Collected(g, m, d, r.loop) && (inChoice && !IsChoice(g, d) ==> Direct(g, r.loop)))
      && (r.Raised? ==> Cycle(g, r.loop))
    decreases White(m), 1, |row|
  {
    hide Arranged; hide Cycle; hide Edge; hide Collected; hide Direct;
    if row != [] {
      if row[0] == skip { LoopRow(g, m, order, row[1..], skip, inChoice); }
      else {
        var d := row[0];
        var o := if IsChoice(g, d) then VisitChoice(g, m, order, d, NONE) else VisitSym(g, m, order, d, inChoice);
        if IsChoice(g, d) { LoopChoice(g, m, order, d, NONE); } else { LoopSym(g, m, order, d, inChoice); }
        if o.r.Fine? {
          if IsChoice(g, d) { FineChoice(g, m, order, d, NONE); } else { FineSym(g, m, order, d, inChoice); }
          LoopRow(g, o.marks, o.order, row[1..], skip, inChoice);
          var r := VisitRow(g, o.marks, o.order, row[1..], skip, inChoice).r;
          if r.Partial? {
            var e :| e in row[1..] && e != skip && Collected(g, o.marks, e, r.loop) && (inChoice && !IsChoice(g, e) ==> Direct(g, r.loop));
            CollectedBefore(g, m, o.marks, e, r.loop);
          }
        }
      }
    }
  }

  // ---- the whole search -----------------------------------------------------------------------------

  function Unvisited(g: Net): Marks {
    map i | i in g.deps :: 0
  }

  /** The loop over all defined symbols. */
  ghost function VisitAll(g: Net, defined: seq<int>): Out
    requires Formed(g) && forall s :: s in defined ==> s in g.deps
  {
    VisitRow(g, Unvisited(g), [], defined, NONE, false)
  }

  ghost predicate AllDefined(g: Net, defined: seq<int>) {
    forall s :: s in defined <==> s in g.deps && !IsChoice(g, s)
  }

  /** Every item has its place in the order. */
  ghost predicate Covers(g: Net, order: seq<int>) {
    forall i :: i in g.deps ==> i in order
  }

  /** Choices that no search has entered, as they have no symbols, can come last. */
  lemma {:induction false} Completed(g: Net, order: seq<int>, left: set<int>) returns (full: seq<int>)
    requires Formed(g) && Arranged(g, order) && left <= g.syms.Keys && forall i :: i in g.deps ==> i in order || i in left
    requires forall i :: i in g.deps && !IsChoice(g, i) ==> i in order
    ensures Arranged(g, full) && Covers(g, full)
    decreases left
  {
    hide Arranged;
    full := order;
    if c :| c in left {
      ArrangedNext(g, order, c);
      full := Completed(g, order + [c], left - {c});
    }
  }

  lemma VisitAllFine(g: Net, defined: seq<int>) returns (order: seq<int>)
    requires Formed(g) && AllDefined(g, defined) && VisitAll(g, defined).r.Fine?
    ensures Arranged(g, order) && Covers(g, order)
  {
    var o := VisitAll(g, defined);
    FineRow(g, Unvisited(g), [], defined, NONE, false);
    order := Completed(g, o.order, g.syms.Keys);
  }

  lemma VisitAllRaised(g: Net, defined: seq<int>)
    requires Formed(g) && AllDefined(g, defined)
    ensures var r := VisitAll(g, defined).r; !r.Partial? && (r.Raised? ==> Cycle(g, r.loop))
  {
    LoopRow(g, Unvisited(g), [], defined, NONE, false);
  }

  /** `c` follows `a` only as its choice. */
  predicate Enters(g: Net, a: int, c: int) {
    a in g.choice && c == g.choice[a] && !Leads(g.deps, a, c)
  }

  ghost predicate EntersChoice(g: Net, loop: seq<int>) {
    loop != [] && (Enters(g, loop[0], loop[|loop| - 1]) || exists n :: 0 <= n < |loop| - 1 && Enters(g, loop[n + 1], loop[n]))
  }

  /** A cycle in a graph that can be arranged enters a choice through one of its symbols. */
  lemma CycleEnters(g: Net, order: seq<int>, loop: seq<int>)
    requires Formed(g) && Arranged(g, order) && Covers(g, order) && Cycle(g, loop)
    ensures EntersChoice(g, loop)
  {
    if !EntersChoice(g, loop) {
      EdgeInRow(g, loop[0], loop[|loop| - 1]);
      forall n | 0 <= n < |loop| - 1 ensures Leads(Rows(g), loop[n + 1], loop[n]) { EdgeInRow(g, loop[n + 1], loop[n]); }
      RowsCovered(g, order);
      NoCycle(Rows(g), order, loop);
    }
  }

  lemma EdgeInRow(g: Net, a: int, b: int)
    requires Formed(g) && Edge(g, a, b) && !Enters(g, a, b)
    ensures Leads(Rows(g), a, b)
  {}

  lemma RowsCovered(g: Net, order: seq<int>)
    requires Formed(g) && Covers(g, order)
    ensures forall s, d :: Leads(Rows(g), s, d) ==> d in order
  {
    forall s, d | Leads(Rows(g), s, d) ensures d in order { assert d in Row(g, s) && d in g.deps; }
  }

  lemma NoneEntered(g: Net)
    requires Formed(g)
    ensures g.syms == map[] ==> forall loop :: !EntersChoice(g, loop)
  {
    if g.syms == map[] { assert forall x :: x in g.choice ==> g.choice[x] in g.syms; }
  }

  lemma ChoiceIn(g: Net, s: int)
    requires Formed(g) && s in g.choice
    ensures g.choice[s] in g.deps && IsChoice(g, g.choice[s])
  {
    var c := g.choice[s];
    assert c in g.syms;
  }

  class Checker {
    const g: Net
    var visited: Marks
    ghost var order: seq<int>

    constructor (g: Net)
      ensures this.g == g && visited == Unvisited(g) && order == []
    {
      this.g := g;
      visited := Unvisited(g);
      order := [];
    }

    ghost predicate Valid()
      reads this
    {
      Formed(g) && visited.Keys == g.deps.Keys
    }

    ghost function State(r: Result): Out
      reads this
    {
      Out(visited, order, r)
    }

    /** _check_dep_loop_sym. */
    method CheckSym(sym: int, ignoreChoice: bool) returns (r: Result)
      requires Valid() && sym in g.deps && !IsChoice(g, sym)
      modifies this
      ensures Valid() && State(r) == VisitSym(g, old(visited), old(order), sym, ignoreChoice)
      decreases White(visited), 0, 0
    {
      if visited[sym] == 2 { return Fine; }
      if visited[sym] != 0 { return Partial([sym]); }
      assert sym in White(visited);
      visited := visited[sym := 1];
      r := CheckRow(g.deps[sym], NONE, false);
      if !r.Fine? { return Found(r, sym); }
      ghost var last := [];
      if sym in g.choice && !ignoreChoice {
        ChoiceIn(g, sym);
        last := if visited[g.choice[sym]] == 0 then [g.choice[sym]] else [];
        r := CheckChoice(g.choice[sym], sym);
        if !r.Fine? { return Found(r, sym); }
      }
      visited := visited[sym := 2];
      order := order + [sym] + last;
    }

    /** _check_dep_loop_choice. */
    method CheckChoice(c: int, skip: int) returns (r: Result)
      requires Valid() && IsChoice(g, c)
      modifies this
      ensures Valid() && State(r) == VisitChoice(g, old(visited), old(order), c, skip)
      decreases White(visited), 0, 0
    {
      if visited[c] == 2 { return Fine; }
      if visited[c] != 0 { return Partial([c]); }
      assert c in White(visited);
      visited := visited[c := 1];
      r := CheckRow(g.syms[c], skip, true);
      if !r.Fine? { return Found(r, c); }
      visited := visited[c := 2];
      order := if skip == NONE then order + [c] else order;
    }

    /** The loops over dependents, over the symbols of a choice and over all defined symbols. */
    method CheckRow(row: seq<int>, skip: int, inChoice: bool) returns (r: Result)
      requires Valid() && forall d :: d in row ==> d in g.deps
      modifies this
      ensures Valid() && State(r) == VisitRow(g, old(visited), old(order), row, skip, inChoice)
      decreases White(visited), 1, |row|
    {
      var i := 0;
      while i < |row|
        invariant 0 <= i <= |row| && Valid() && White(visited) <= White(old(visited))
        invariant VisitRow(g, visited, order, row[i..], skip, inChoice) == VisitRow(g, old(visited), old(order), row, skip, inChoice)
      {
        assert row[i..][1..] == row[i + 1..];
        if row[i] != skip {
          if IsChoice(g, row[i]) { r := CheckChoice(row[i], NONE); } else { r := CheckSym(row[i], inChoice); }
          if !r.Fine? { return; }
        }
        i := i + 1;
      }
      return Fine;
    }

    /** A loop that is raised is one; success arranges all items and leaves only cycles through choices.
        Without choices, a loop is raised exactly if there is one. */
    method CheckAll(defined: seq<int>) returns (r: Result, ghost full: seq<int>)
      requires Valid() && visited == Unvisited(g) && order == [] && AllDefined(g, defined)
      modifies this
      ensures r == VisitAll(g, defined).r
      ensures r.Raised? ==> Cycle(g, r.loop)
      ensures !r.Raised? ==> r.Fine? && Arranged(g, full) && Covers(g, full)
      ensures !r.Raised? ==> forall loop :: Cycle(g, loop) ==> EntersChoice(g, loop)
      ensures g.syms == map[] ==> (r.Raised? <==> exists loop :: Cycle(g, loop))
    {
      full := [];
      r := CheckRow(defined, NONE, false);
      VisitAllRaised(g, defined);
      if r.Fine? {
        full := VisitAllFine(g, defined);
        forall loop | Cycle(g, loop) ensures EntersChoice(g, loop) { CycleEnters(g, full, loop); }
        NoneEntered(g);
      }
    }
  }
}
