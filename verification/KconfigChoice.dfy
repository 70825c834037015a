/** The evaluation order that loop detection provides for configurations with choices
    (tools/kconfiglib.py). */
module KconfigChoice {
  import opened KconfigCache
  import opened KconfigDeps
  import KconfigLoop

  // ---- what a step may look at ------------------------------------------------------------------

  lemma VisCells(k: Config, u: User, i: int, env: Lookup, d: Cell)
    requires WellFormed(k) && i in k.items && d in VisStep(k, u, i, env).used
    ensures d == TriVal(k.modules) || (d.i in Conditions(k.items[i]) && ValueCell(k, d))
  {
    hide Prompts; hide MentionsPairs; hide Mentions; hide MentionsConds; hide MentionsAll;
    PromptsExact(k, u, k.items[i].prompts, env);
  }

  lemma PlainCells(k: Config, u: User, i: int, env: Lookup, d: Cell)
    requires IsSymbol(k, i) && d in PlainStep(k, u, i, env).used
    ensures d == Vis(i) || d == TriVal(k.modules) || (d.i in Conditions(k.items[i]) && ValueCell(k, d))
  {
    hide Eval; hide Defaults; hide MentionsPairs; hide Mentions; hide MentionsAll;
    var s := k.items[i];
    DefaultsExact(k, u, s.defaults, env);
    EvalExact(k, u, s.weakRevDep, env);
    EvalExact(k, u, s.revDep, env);
    EvalExact(k, u, s.directDep, env);
  }

  lemma TriCellsOf(k: Config, u: User, i: int, env: Lookup, d: Cell)
    requires WellFormed(k) && IsSymbol(k, i) && d in TriStep(k, u, i, env).used
    ensures d == Vis(i) || d == TriVal(k.modules) || (d.i in Conditions(k.items[i]) && ValueCell(k, d))
      || (d.Sel? && IsChoice(k, d.i) && i in k.items[d.i].syms)
  {
    hide PlainStep; hide Conditions; hide DependsOn;
    if !IsChoice(k, k.items[i].choice) { PlainCells(k, u, i, env, d); }
  }

  lemma {:induction false} FirstDefaultCells(k: Config, u: User, ds: seq<(int, Cond)>, env: Lookup, d: Cell)
    requires d in FirstDefault(k, u, ds, env).used
    ensures d == TriVal(k.modules) || (d.i in MentionsConds(ds) && ValueCell(k, d)) || (d.Vis? && exists n :: 0 <= n < |ds| && ds[n].0 == d.i)
  {
    hide Eval; hide Mentions;
    if ds != [] {
      EvalExact(k, u, ds[0].1, env);
      if d !in Eval(k, u, ds[0].1, env).used && d != Vis(ds[0].0) {
        FirstDefaultCells(k, u, ds[1..], env, d);
        if n :| 0 <= n < |ds[1..]| && ds[1..][n].0 == d.i { assert ds[n + 1].0 == d.i; }
      }
    }
  }

  lemma {:induction false} FirstVisibleCells(syms: seq<int>, env: Lookup, d: Cell)
    requires d in FirstVisible(syms, env).used
    ensures d.Vis? && d.i in syms
  {
    if d != Vis(syms[0]) { FirstVisibleCells(syms[1..], env, d); }
  }

  lemma SelCells(k: Config, u: User, c: int, env: Lookup, d: Cell)
    requires WellFormed(k) && UserOk(k, u) && IsChoice(k, c) && d in SelStep(k, u, c, env).used
    ensures d == Vis(c) || d == TriVal(k.modules) || (d.i in Conditions(k.items[c]) && ValueCell(k, d)) || (d.Vis? && d.i in k.items[c].syms)
  {
    hide FirstDefault; hide FirstVisible; hide MentionsConds; hide MentionsAll;
    var x := k.items[c];
    if d in FirstDefault(k, u, x.selections, env).used {
      FirstDefaultCells(k, u, x.selections, env, d);
    } else if d in FirstVisible(x.syms, env).used {
      FirstVisibleCells(x.syms, env, d);
    }
  }

  // ---- what loop detection does not follow ------------------------------------------------------

  /** The selection of a choice looks at the visibility of one of its symbols. */
  predicate Sideways(k: Config, c: Cell, d: Cell) {
    c.Sel? && d.Vis? && IsChoice(k, c.i) && d.i in k.items[c.i].syms
  }

  /** A choice is looked at by an item that is none of its symbols and mentions none of them. */
  ghost predicate Outsider(k: Config, c: Cell, d: Cell) {
    && d.Vis? && IsChoice(k, d.i) && c.i in k.items && c != Sel(d.i)
    && c.i !in k.items[d.i].syms && forall x :: x in k.items[d.i].syms ==> x !in Conditions(k.items[c.i])
  }

  lemma MentionPlaced(k: Config, deps: Dependents, order: seq<int>, c: Cell, d: Cell)
    requires Searched(k, deps, order) && WellFormed(k) && c.i in k.items && d.i in Conditions(k.items[c.i]) && ValueCell(k, d)
    ensures Place(order, d) < Place(order, c) || Outsider(k, c, d)
  {
    hide Searched; hide KconfigLoop.IndexOf; hide Conditions; hide DependsOn;
    SearchedCovers(k, deps, order);
    if d.TriVal? {
      DependsEarlier(k, deps, order, d.i, c.i);
    } else if c.i in k.items[d.i].syms {
      MemberEarlier(k, deps, order, c.i, d.i);
    } else if x :| x in k.items[d.i].syms && x in Conditions(k.items[c.i]) {
      DependsEarlier(k, deps, order, x, c.i);
      MemberEarlier(k, deps, order, x, d.i);
    }
  }

  /** What a step uses has an earlier place, but for MODULES and for the two kinds above. */
  lemma UsesPlaced(k: Config, deps: Dependents, order: seq<int>, u: User, c: Cell, env: Lookup, d: Cell)
    requires Searched(k, deps, order) && WellFormed(k) && UserOk(k, u) && Known(k, c) && d in Step(k, u, c, env).used
    ensures Place(order, d) < Place(order, c) || d == TriVal(k.modules) || Sideways(k, c, d) || Outsider(k, c, d)
    ensures d.Sel? ==> c.TriVal? && IsChoice(k, d.i) && c.i in k.items[d.i].syms
  {
    hide Searched; hide KconfigLoop.IndexOf; hide Conditions; hide WellFormed; hide UserOk; hide VisStep; hide TriStep; hide SelStep; hide Outsider;
    SearchedCovers(k, deps, order);
    match c {
      case Vis(i) => VisCells(k, u, i, env, d);
      case TriVal(i) => TriCellsOf(k, u, i, env, d);
      case Sel(i) => SelCells(k, u, i, env, d);
    }
    if d.i in Conditions(k.items[c.i]) && ValueCell(k, d) {
      MentionPlaced(k, deps, order, c, d);
    } else if d.Sel? {
      MemberEarlier(k, deps, order, c.i, d.i);
    }
  }

  // ---- evaluation orders and loops ----------------------------------------------------------------

  ghost predicate Leading(k: Config, p: seq<Cell>, a: Cell, b: Cell) {
    Path(k, p) && p[0] == a && p[|p| - 1] == b
  }

  /** Evaluating `a` may come to `b`. */
  ghost predicate Reaches(k: Config, a: Cell, b: Cell) {
    exists p :: Leading(k, p, a, b)
  }

  /** Evaluating `a` may come back to `a`. */
  ghost predicate Loops(k: Config, a: Cell) {
    exists p :: |p| > 1 && Leading(k, p, a, a)
  }

  lemma PathJoin(k: Config, p: seq<Cell>, q: seq<Cell>)
    requires Path(k, p) && Path(k, q) && MayUse(k, p[|p| - 1], q[0])
    ensures Path(k, p + q)
  {
    hide MayUse;
    var r := p + q;
    forall n | 0 <= n < |r| - 1 ensures MayUse(k, r[n], r[n + 1]) {
      if n < |p| - 1 { assert MayUse(k, p[n], p[n + 1]); }
      else if n >= |p| { assert MayUse(k, q[n - |p|], q[n - |p| + 1]); }
    }
  }

  lemma PathSlice(k: Config, p: seq<Cell>, lo: nat, hi: nat)
    requires Path(k, p) && lo < hi <= |p|
    ensures Leading(k, p[lo..hi], p[lo], p[hi - 1])
  {
    hide MayUse;
    var r := p[lo..hi];
    forall n | 0 <= n < |r| - 1 ensures MayUse(k, r[n], r[n + 1]) { assert MayUse(k, p[lo + n], p[lo + n + 1]); }
  }

  lemma ReachesSelf(k: Config, a: Cell)
    ensures Reaches(k, a, a)
  {
    assert Leading(k, [a], a, a);
  }

  /** One step and then a way: if it leads back, there is a loop. */
  lemma ReachesFurther(k: Config, a: Cell, b: Cell, c: Cell)
    requires MayUse(k, a, b) && Reaches(k, b, c)
    ensures Reaches(k, a, c) && (a == c ==> Loops(k, a))
  {
    hide MayUse; hide Path;
    var p :| Leading(k, p, b, c);
    PathOne(k, a, p);
    assert Leading(k, [a] + p, a, c) && |[a] + p| > 1;
  }

  lemma PathOne(k: Config, a: Cell, p: seq<Cell>)
    requires Path(k, p) && MayUse(k, a, p[0])
    ensures Path(k, [a] + p) && |p| > 0 && ([a] + p)[|p|] == p[|p| - 1]
  {
    hide MayUse;
    PathJoin(k, [a], p);
  }

  /** Around a loop, everything is reached from everything. */
  lemma LoopReaches(k: Config, p: seq<Cell>, m: nat, n: nat)
    requires |p| > 1 && Path(k, p) && p[0] == p[|p| - 1] && m < |p| && n < |p|
    ensures Reaches(k, p[m], p[n])
  {
    hide MayUse;
    if m <= n {
      PathSlice(k, p, m, n + 1);
    } else if n == 0 {
      PathSlice(k, p, m, |p|);
    } else {
      PathSlice(k, p, m, |p|);
      PathSlice(k, p, 1, n + 1);
      assert MayUse(k, p[0], p[0 + 1]);
      PathJoin(k, p[m..], p[1..n + 1]);
      assert Leading(k, p[m..] + p[1..n + 1], p[m], p[n]);
    }
  }

  function Cells(k: Config): set<Cell> {
    (set i | i in k.items :: Vis(i)) + (set i | i in k.items && k.items[i].Symbol? :: TriVal(i)) + (set i | i in k.items && k.items[i].Choice? :: Sel(i))
  }

  /** The cells that evaluating `c` may come to. */
  ghost function Reach(k: Config, c: Cell): set<Cell> {
    set d | d in Cells(k) && Reaches(k, c, d)
  }

  ghost function ReachRank(k: Config): Rank {
    (c: Cell) => |Reach(k, c)|
  }

  lemma SmallerSet(a: set<Cell>, b: set<Cell>, c: Cell)
    requires a <= b && c in b && c !in a
    ensures |a| < |b|
  {
    CountIn(a, b - {c});
  }

  lemma {:induction false} CountIn(a: set<Cell>, b: set<Cell>)
    requires a <= b
    ensures |a| <= |b|
  {
    if x :| x in a { CountIn(a - {x}, b - {x}); }
  }

  lemma ReachFalls(k: Config, c: Cell, d: Cell)
    requires Known(k, c) && MayUse(k, c, d) && !Loops(k, c)
    ensures |Reach(k, d)| < |Reach(k, c)|
  {
    hide MayUse; hide Reaches; hide Loops;
    forall e | e in Reach(k, d) ensures e in Reach(k, c) { ReachesFurther(k, c, d, e); }
    ReachesSelf(k, c);
    if c in Reach(k, d) { ReachesFurther(k, c, d, c); }
    SmallerSet(Reach(k, d), Reach(k, c), c);
  }

  /** There is an evaluation order exactly if no cell may come back to itself. */
  lemma OrderIff(k: Config)
    ensures (exists rank: Rank :: Acyclic(k, rank)) <==> forall a :: !Loops(k, a)
  {
    if a :| Loops(k, a) {
      forall rank: Rank ensures !Acyclic(k, rank) { NoRank(k, a, rank); }
    } else {
      RankFromReach(k);
    }
  }

  lemma NoRank(k: Config, a: Cell, rank: Rank)
    requires Loops(k, a)
    ensures !Acyclic(k, rank)
  {
    hide Path; hide Acyclic;
    var p :| |p| > 1 && Leading(k, p, a, a);
    if Acyclic(k, rank) { RankFalls(k, rank, p, |p| - 1); }
  }

  lemma RankFromReach(k: Config)
    requires forall a :: !Loops(k, a)
    ensures Acyclic(k, ReachRank(k))
  {
    hide Step; hide Loops; hide Reach; hide Known; hide UserOk; hide Plausible; hide MayUse;
    forall u: User, c: Cell, env: Lookup, d: Cell | Known(k, c) && UserOk(k, u) && Plausible(k, env) && d in Step(k, u, c, env).used
      ensures ReachRank(k)(d) < ReachRank(k)(c)
    {
      Used(k, u, c, env, d);
      ReachFalls(k, c, d);
    }
  }

  // ---- the loops that are not detected --------------------------------------------------------------

  /** Whether a symbol of a choice is visible may hang on the value of another symbol of the choice. */
  ghost predicate SiblingLoop(k: Config) {
    exists c, x, y :: Siblings(k, c, x, y) && Reaches(k, Vis(y), TriVal(x))
  }

  predicate Siblings(k: Config, c: int, x: int, y: int) {
    IsChoice(k, c) && x in k.items[c].syms && y in k.items[c].syms && x != y
  }

  /** The visibility of a choice may hang on a cell of an outsider that looks at the choice. */
  ghost predicate OutsiderLoop(k: Config) {
    exists c, d :: Outsider(k, c, d) && MayUse(k, c, d) && Reaches(k, d, c)
  }

  ghost predicate Undetected(k: Config) {
    ModulesLoop(k) || SiblingLoop(k) || OutsiderLoop(k)
  }

  /** On a loop, a step from `c` to `d` that is not followed makes it one of the three kinds. */
  lemma StepKind(k: Config, deps: Dependents, order: seq<int>, p: seq<Cell>, n: nat)
    requires Searched(k, deps, order) && WellFormed(k) && !Undetected(k)
    requires |p| > 1 && Path(k, p) && p[0] == p[|p| - 1] && n + 1 < |p|
    ensures Place(order, p[n + 1]) < Place(order, p[n]) || Sideways(k, p[n], p[n + 1])
    ensures p[n + 1].Sel? ==> p[n].TriVal? && IsChoice(k, p[n + 1].i) && p[n].i in k.items[p[n + 1].i].syms
  {
    hide Searched; hide WellFormed; hide Place; hide Step; hide UserOk; hide Plausible; hide Path; hide Outsider; hide Sideways; hide Reaches; hide SiblingLoop;
    var c, d := p[n], p[n + 1];
    PathAt(k, p, n);
    var u: User, env: Lookup :| UserOk(k, u) && Plausible(k, env) && d in Step(k, u, c, env).used;
    UsesKnown(k, u, c, env, d);
    UsesPlaced(k, deps, order, u, c, env, d);
    LoopReaches(k, p, n + 1, n);
    if d == TriVal(k.modules) {
      ReachesFurther(k, c, d, c);
      LoopReaches(k, p, n + 1, n);
      BackToModules(k, p, n + 1);
    }
  }

  lemma PathAt(k: Config, p: seq<Cell>, n: nat)
    requires Path(k, p) && n + 1 < |p|
    ensures MayUse(k, p[n], p[n + 1])
  {}

  lemma BackToModules(k: Config, p: seq<Cell>, n: nat)
    requires |p| > 1 && Path(k, p) && p[0] == p[|p| - 1] && 0 < n < |p| && p[n] == TriVal(k.modules)
    ensures ModulesLoop(k)
  {
    hide MayUse;
    var m := if n == |p| - 1 then 0 else n;
    PathAt(k, p, m);
    LoopReaches(k, p, m + 1, m);
    hide Path;
    ReachesFurther(k, p[m], p[m + 1], p[m]);
    var q :| |q| > 1 && Leading(k, q, p[m], p[m]);
    assert Via(k, q, TriVal(k.modules));
  }

  /** Away from its start a loop of another kind only falls, though it may pass through selections. */
  lemma {:induction false} PlaceSinks(k: Config, deps: Dependents, order: seq<int>, p: seq<Cell>, n: nat)
    requires Searched(k, deps, order) && WellFormed(k) && !Undetected(k)
    requires |p| > 1 && Path(k, p) && p[0] == p[|p| - 1] && !p[0].Sel? && 0 < n < |p| && !p[n].Sel?
    ensures Place(order, p[n]) < Place(order, p[0])
    decreases n
  {
    hide Searched; hide WellFormed; hide Place; hide Path; hide Undetected;
    StepKind(k, deps, order, p, n - 1);
    if !p[n - 1].Sel? {
      if n > 1 { PlaceSinks(k, deps, order, p, n - 1); }
    } else {
      StepKind(k, deps, order, p, n - 2);
      if n > 2 { PlaceSinks(k, deps, order, p, n - 2); }
      ThroughSelection(k, deps, order, p, n - 2);
    }
  }

  /** Through the selection of a choice a loop comes back to the symbol it came from. */
  lemma ThroughSelection(k: Config, deps: Dependents, order: seq<int>, p: seq<Cell>, n: nat)
    requires Searched(k, deps, order) && WellFormed(k) && !Undetected(k)
    requires |p| > 1 && Path(k, p) && p[0] == p[|p| - 1] && n + 2 < |p| && p[n + 1].Sel?
    ensures Place(order, p[n + 2]) < Place(order, p[n])
  {
    hide Searched; hide WellFormed; hide Path; hide ModulesLoop; hide OutsiderLoop; hide Reaches;
    StepKind(k, deps, order, p, n);
    StepKind(k, deps, order, p, n + 1);
    LoopReaches(k, p, n + 2, n);
    if Sideways(k, p[n + 1], p[n + 2]) && p[n + 2].i != p[n].i {
      assert Siblings(k, p[n + 1].i, p[n].i, p[n + 2].i);
    }
  }

  lemma LoopIsUndetected(k: Config, deps: Dependents, order: seq<int>, a: Cell)
    requires Searched(k, deps, order) && WellFormed(k) && Loops(k, a)
    ensures Undetected(k)
  {
    hide Searched; hide WellFormed; hide Place; hide Path; hide Undetected;
    if !Undetected(k) {
      var p :| |p| > 1 && Leading(k, p, a, a);
      if a.Sel? {
        StepKind(k, deps, order, p, 0);
        Turned(k, p);
        PlaceSinks(k, deps, order, p[1..] + [p[1]], |p| - 1);
      } else {
        PlaceSinks(k, deps, order, p, |p| - 1);
      }
    }
  }

  /** The loop from its second cell on. */
  lemma Turned(k: Config, p: seq<Cell>)
    requires |p| > 1 && Path(k, p) && p[0] == p[|p| - 1]
    ensures var q := p[1..] + [p[1]]; Path(k, q) && |q| == |p| && q[0] == p[1] == q[|q| - 1]
  {
    hide MayUse;
    PathAt(k, p, 0);
    PathSlice(k, p, 1, |p|);
    PathJoin(k, p[1..], [p[1]]);
  }

  /** The value of a symbol of a choice may look at the selection ... */
  lemma LooksAtSelection(k: Config, c: int, x: int)
    requires WellFormed(k) && IsChoice(k, c) && x in k.items[c].syms
    ensures MayUse(k, TriVal(x), Sel(c))
  {
    hide DependsOn;
    var u, env: Lookup := User(map[], map[]), (d: Cell) => 2;
    assert Sel(c) in Step(k, u, TriVal(x), env).used;
  }

  /** ... and the selection at the visibility of every symbol. */
  lemma LooksAtSymbol(k: Config, c: int, y: int)
    requires IsChoice(k, c) && y in k.items[c].syms
    ensures MayUse(k, Sel(c), Vis(y))
  {
    var u, env: Lookup := User(map[c := 2], map[c := y]), (d: Cell) => 2;
    assert Vis(y) in Step(k, u, Sel(c), env).used;
  }

  lemma {:induction false} ReachesOn(k: Config, a: Cell, b: Cell, c: Cell)
    requires Reaches(k, a, b) && MayUse(k, b, c)
    ensures Reaches(k, a, c)
  {
    hide MayUse;
    var p :| Leading(k, p, a, b);
    PathJoin(k, p, [c]);
    assert Leading(k, p + [c], a, c);
  }

  lemma SiblingLoops(k: Config)
    requires WellFormed(k) && SiblingLoop(k)
    ensures exists a :: Loops(k, a)
  {
    hide WellFormed; hide MayUse; hide Reaches; hide Loops;
    var c, x, y :| Siblings(k, c, x, y) && Reaches(k, Vis(y), TriVal(x));
    LooksAtSelection(k, c, x);
    LooksAtSymbol(k, c, y);
    ReachesOn(k, Vis(y), TriVal(x), Sel(c));
    ReachesFurther(k, Sel(c), Vis(y), Sel(c));
  }

  lemma UndetectedLoops(k: Config)
    requires WellFormed(k) && Undetected(k)
    ensures exists a :: Loops(k, a)
  {
    hide WellFormed; hide MayUse; hide Reaches; hide Path; hide SiblingLoop;
    if ModulesLoop(k) {
      var p :| |p| > 1 && Via(k, p, TriVal(k.modules));
      assert Leading(k, p, TriVal(k.modules), TriVal(k.modules));
      assert Loops(k, TriVal(k.modules));
    } else if SiblingLoop(k) {
      SiblingLoops(k);
    } else {
      var c, d :| Outsider(k, c, d) && MayUse(k, c, d) && Reaches(k, d, c);
      ReachesFurther(k, c, d, c);
    }
  }

  /** After successful loop detection, values can be evaluated in some order exactly if evaluating
      MODULES cannot come back to it, the visibility of no symbol of a choice hangs on the value of
      another, and the visibility of no choice on an outsider that looks at it. */
  lemma ChoiceOrderIff(k: Config, deps: Dependents, order: seq<int>)
    requires Searched(k, deps, order) && WellFormed(k)
    ensures (exists rank: Rank :: Acyclic(k, rank)) <==> !ModulesLoop(k) && !SiblingLoop(k) && !OutsiderLoop(k)
  {
    hide Searched; hide WellFormed; hide Acyclic; hide Loops; hide ModulesLoop; hide SiblingLoop; hide OutsiderLoop;
    OrderIff(k);
    if Undetected(k) { UndetectedLoops(k); }
    else {
      forall a ensures !Loops(k, a) { if Loops(k, a) { LoopIsUndetected(k, deps, order, a); } }
    }
  }

  /** The end of loading a configuration: dependents, loop detection, the dependents of choices. */
  method Load(k: Config, ids: seq<int>, defined: seq<int>) returns (r: KconfigLoop.Result, deps: Dependents, ghost order: seq<int>)
    requires WellFormed(k) && (forall i :: i in ids <==> i in k.items) && forall s :: s in defined <==> IsSymbol(k, s)
    ensures !r.Partial?
    ensures r.Raised? ==> exists built :: BuiltOk(k, built) && KconfigLoop.Cycle(NetOf(k, built), r.loop)
    ensures r.Fine? ==> DepsOk(k, deps)
    ensures r.Fine? ==> ((exists rank: Rank :: Acyclic(k, rank)) <==> !ModulesLoop(k) && !SiblingLoop(k) && !OutsiderLoop(k))
  {
    hide WellFormed; hide BuiltOk; hide DepsOk; hide Acyclic; hide ModulesLoop; hide SiblingLoop; hide OutsiderLoop; hide KconfigLoop.Cycle; hide KconfigLoop.Arranged;
    deps := BuildDep(k, ids);
    var g := NetOf(k, deps);
    NetFormed(k, deps);
    NetDefined(k, deps, defined);
    var checker := new KconfigLoop.Checker(g);
    r, order := checker.CheckAll(defined);
    if r.Fine? {
      NetCovers(k, deps, order);
      ChoiceOrderIff(k, deps, order);
      deps := AddChoiceDeps(k, deps, ids);
    }
  }

  /** A configuration that passes loop detection and has none of the three loops can be evaluated
      through caches. */
  method Open(k: Config, ids: seq<int>, defined: seq<int>) returns (r: KconfigLoop.Result, kc: Kconfig?)
    requires WellFormed(k) && (forall i :: i in ids <==> i in k.items) && (forall s :: s in defined <==> IsSymbol(k, s))
    requires !ModulesLoop(k) && !SiblingLoop(k) && !OutsiderLoop(k)
    ensures !r.Partial? && (kc != null <==> r.Fine?)
    ensures kc != null ==> fresh(kc) && kc.Valid() && kc.k == k && kc.Settings() == User(map[], map[]) && kc.cache == map[]
  {
    hide WellFormed; hide Acyclic; hide ModulesLoop; hide SiblingLoop; hide OutsiderLoop; hide DepsOk; hide Kconfig.Valid;
    var deps;
    ghost var order;
    r, deps, order := Load(k, ids, defined);
    kc := null;
    if r.Fine? {
      ghost var rank: Rank :| Acyclic(k, rank);
      kc := new Kconfig(k, deps, rank);
    }
  }

  lemma NetDefined(k: Config, deps: Dependents, defined: seq<int>)
    requires BuiltOk(k, deps) && forall s :: s in defined <==> IsSymbol(k, s)
    ensures KconfigLoop.AllDefined(NetOf(k, deps), defined) && NetOf(k, deps).deps.Keys == k.items.Keys
  {
    hide Conditions;
  }

  lemma NetCovers(k: Config, deps: Dependents, order: seq<int>)
    requires BuiltOk(k, deps) && KconfigLoop.Arranged(NetOf(k, deps), order) && KconfigLoop.Covers(NetOf(k, deps), order)
    ensures Searched(k, deps, order)
  {
    hide Conditions; hide KconfigLoop.Arranged;
  }

  // ---- a loop that is found or not, depending on the order of the definitions ---------------------------

  /** A choice 5 of the symbols 1, 2 and 3, of which 2 depends on 4, which is y if 3 is. */
  ghost function Rivals(): Config {
    var n, y, c := Const(0), Const(2), Item(5);
    var d := Both(Item(4), c);
    Config(map[
      1 := Symbol(true, [c], [], n, n, c, 5),
      2 := Symbol(true, [d], [], n, n, d, 5),
      3 := Symbol(true, [c], [], n, n, c, 5),
      4 := Symbol(true, [], [(y, Item(3))], n, n, y, NONE),
      5 := Choice(true, [y], [], [1, 2, 3], false)], NONE)
  }

  ghost function RivalDeps(): Dependents {
    map[1 := [], 2 := [], 3 := [4], 4 := [2], 5 := [1, 2, 3]]
  }

  ghost function RivalNet(): KconfigLoop.Net {
    KconfigLoop.Net(RivalDeps(), map[5 := [1, 2, 3]], map[1 := 5, 2 := 5, 3 := 5])
  }

  lemma RivalsBuilt()
    ensures BuiltOk(Rivals(), RivalDeps())
  {
    hide Conditions; hide Rivals;
    RivalItems();
    RivalConditions();
  }

  lemma RivalItems()
    ensures var k := Rivals();
      && k.items.Keys == {1, 2, 3, 4, 5} && k.modules == NONE
      && k.items[5].Choice? && k.items[5].syms == [1, 2, 3] && k.items[5].selections == []
      && k.items[1].Symbol? && k.items[2].Symbol? && k.items[3].Symbol? && k.items[4].Symbol?
      && k.items[1].choice == k.items[2].choice == k.items[3].choice == 5 && k.items[4].choice == NONE
  {}

  lemma RivalsWellFormed()
    ensures WellFormed(Rivals())
  {
    hide Conditions; hide DependsOn; hide Rivals;
    RivalItems();
    RivalConditions();
  }

  lemma RivalConditions()
    ensures var x := Rivals().items;
      && Conditions(x[1]) == {5} == DependsOn(x[1]) && Conditions(x[2]) == {4, 5} == DependsOn(x[2]) && Conditions(x[3]) == {5} == DependsOn(x[3])
      && Conditions(x[4]) == {3} == DependsOn(x[4]) && Conditions(x[5]) == {}
  {
    var x := Rivals().items;
    assert x[1].prompts[1..] == [] && x[2].prompts[1..] == [] && x[4].defaults[1..] == [] && x[5].prompts[1..] == [];
  }

  lemma RivalsNet()
    ensures NetOf(Rivals(), RivalDeps()) == RivalNet() && KconfigLoop.Formed(RivalNet())
  {
    hide WellFormed; hide BuiltOk; hide KconfigLoop.Formed; hide Rivals; hide RivalDeps;
    RivalItems();
    RivalsWellFormed();
    RivalsBuilt();
    NetFormed(Rivals(), RivalDeps());
    var g, h := NetOf(Rivals(), RivalDeps()), RivalNet();
    assert g.syms == h.syms;
    assert g.choice == h.choice;
  }

  /** The visibility of 2 hangs on the value of 3. */
  lemma RivalsLoop()
    ensures SiblingLoop(Rivals())
  {
    RivalUses();
    hide MayUse; hide Rivals;
    var k := Rivals();
    assert Leading(k, [Vis(2), TriVal(4), TriVal(3)], Vis(2), TriVal(3));
    assert Siblings(k, 5, 3, 2) by { RivalChoice(); }
  }

  lemma RivalChoice()
    ensures Siblings(Rivals(), 5, 3, 2)
  {}

  lemma RivalUses()
    ensures MayUse(Rivals(), Vis(2), TriVal(4)) && MayUse(Rivals(), TriVal(4), TriVal(3))
  {
    var k, u, env: Lookup := Rivals(), User(map[], map[]), (c: Cell) => 2;
    assert k.items[2].prompts[1..] == [] && k.items[4].defaults[1..] == [];
    assert TriVal(4) in Step(k, u, Vis(2), env).used;
    assert TriVal(3) in Step(k, u, TriVal(4), env).used;
  }

  ghost predicate RivalMarks(m: KconfigLoop.Marks) {
    m.Keys == {1, 2, 3, 4, 5}
  }

  lemma RivalsFormed()
    ensures KconfigLoop.Formed(RivalNet()) && RivalNet().deps.Keys == {1, 2, 3, 4, 5}
  {
    hide KconfigLoop.Formed;
    RivalsNet();
  }

  /** From the choice, 1 and 2 are done at once. */
  lemma VisitMember(m: KconfigLoop.Marks, order: seq<int>, x: int)
    requires RivalMarks(m) && (x == 1 || x == 2) && m[x] == 0 && KconfigLoop.Formed(RivalNet())
    ensures KconfigLoop.VisitSym(RivalNet(), m, order, x, true) == KconfigLoop.Out(m[x := 2], order + [x], KconfigLoop.Fine)
  {
    hide KconfigLoop.Formed;
    assert KconfigLoop.VisitRow(RivalNet(), m[x := 1], order, [], KconfigLoop.NONE, false) == KconfigLoop.Out(m[x := 1], order, KconfigLoop.Fine);
    assert m[x := 1][x := 2] == m[x := 2];
  }

  /** A row of one symbol. */
  lemma RowOne(g: KconfigLoop.Net, m: KconfigLoop.Marks, order: seq<int>, x: int)
    requires KconfigLoop.Formed(g) && m.Keys == g.deps.Keys && x in g.deps && !KconfigLoop.IsChoice(g, x) && x != KconfigLoop.NONE
    ensures KconfigLoop.VisitRow(g, m, order, [x], KconfigLoop.NONE, false) == KconfigLoop.VisitSym(g, m, order, x, false)
  {
    hide KconfigLoop.VisitSym; hide KconfigLoop.VisitChoice; hide KconfigLoop.Formed;
    assert [x][1..] == [];
  }

  /** A row that starts with a symbol that is done. */
  lemma RowFirst(g: KconfigLoop.Net, m: KconfigLoop.Marks, order: seq<int>, row: seq<int>, skip: int, inChoice: bool, o: KconfigLoop.Out)
    requires KconfigLoop.Formed(g) && m.Keys == g.deps.Keys && row != [] && (forall d :: d in row ==> d in g.deps) && !KconfigLoop.IsChoice(g, row[0]) && row[0] != skip
    requires KconfigLoop.VisitSym(g, m, order, row[0], inChoice) == o && o.r.Fine?
    ensures KconfigLoop.VisitRow(g, m, order, row, skip, inChoice) == KconfigLoop.VisitRow(g, o.marks, o.order, row[1..], skip, inChoice)
  {
    hide KconfigLoop.VisitSym; hide KconfigLoop.VisitChoice; hide KconfigLoop.Formed;
  }

  lemma VisitFour(m: KconfigLoop.Marks, order: seq<int>)
    requires RivalMarks(m) && m[4] == 0 && m[2] == 2 && KconfigLoop.Formed(RivalNet())
    ensures KconfigLoop.VisitSym(RivalNet(), m, order, 4, false) == KconfigLoop.Out(m[4 := 2], order + [4], KconfigLoop.Fine)
  {
    hide KconfigLoop.Formed;
    RowOne(RivalNet(), m[4 := 1], order, 2);
    assert m[4 := 1][4 := 2] == m[4 := 2];
  }

  lemma VisitThree(m: KconfigLoop.Marks, order: seq<int>)
    requires RivalMarks(m) && m[3] == 0 && m[4] == 0 && m[2] == 2 && KconfigLoop.Formed(RivalNet())
    ensures KconfigLoop.VisitSym(RivalNet(), m, order, 3, true) == KconfigLoop.Out(m[4 := 2][3 := 2], order + [4] + [3], KconfigLoop.Fine)
  {
    hide KconfigLoop.Formed;
    RowOne(RivalNet(), m[3 := 1], order, 4);
    VisitFour(m[3 := 1], order);
    assert m[3 := 1][4 := 2][3 := 2] == m[4 := 2][3 := 2];
  }

  /** Entered through 1, the choice is done, as 2 is done before 3 is looked at. */
  lemma VisitFive(m: KconfigLoop.Marks)
    requires m == map[1 := 1, 2 := 0, 3 := 0, 4 := 0, 5 := 0] && KconfigLoop.Formed(RivalNet())
    ensures KconfigLoop.VisitChoice(RivalNet(), m, [], 5, 1) == KconfigLoop.Out(map[1 := 1, 2 := 2, 3 := 2, 4 := 2, 5 := 2], [2, 4, 3], KconfigLoop.Fine)
  {
    hide KconfigLoop.Formed; hide KconfigLoop.VisitSym;
    var g, m1 := RivalNet(), m[5 := 1];
    VisitMember(m1, [], 2);
    var m2 := m1[2 := 2];
    RowFirst(g, m1, [], [2, 3], 1, true, KconfigLoop.Out(m2, [2], KconfigLoop.Fine));
    VisitThree(m2, [2]);
    var m3 := m2[4 := 2][3 := 2];
    RowFirst(g, m2, [2], [3], 1, true, KconfigLoop.Out(m3, [2, 4, 3], KconfigLoop.Fine));
    assert [1, 2, 3][1..] == [2, 3] && [2, 3][1..] == [3] && [3][1..] == [];
    assert m3[5 := 2] == map[1 := 1, 2 := 2, 3 := 2, 4 := 2, 5 := 2];
  }

  /** A row of symbols that are all done. */
  lemma {:induction false} RowDone(g: KconfigLoop.Net, m: KconfigLoop.Marks, order: seq<int>, row: seq<int>)
    requires KconfigLoop.Formed(g) && m.Keys == g.deps.Keys && forall d :: d in row ==> d in g.deps && !KconfigLoop.IsChoice(g, d) && m[d] == 2
    ensures KconfigLoop.VisitRow(g, m, order, row, KconfigLoop.NONE, false).r.Fine?
  {
    hide KconfigLoop.Formed;
    if row != [] && row[0] != KconfigLoop.NONE {
      RowFirst(g, m, order, row, KconfigLoop.NONE, false, KconfigLoop.Out(m, order, KconfigLoop.Fine));
      RowDone(g, m, order, row[1..]);
    } else if row != [] {
      RowDone(g, m, order, row[1..]);
    }
  }

  lemma VisitOne(m: KconfigLoop.Marks)
    requires m == map[1 := 0, 2 := 0, 3 := 0, 4 := 0, 5 := 0] && KconfigLoop.Formed(RivalNet())
    ensures KconfigLoop.VisitSym(RivalNet(), m, [], 1, false) ==
      KconfigLoop.Out(map[1 := 2, 2 := 2, 3 := 2, 4 := 2, 5 := 2], [2, 4, 3, 1, 5], KconfigLoop.Fine)
  {
    hide KconfigLoop.Formed; hide KconfigLoop.VisitChoice;
    VisitFive(m[1 := 1]);
    assert map[1 := 1, 2 := 2, 3 := 2, 4 := 2, 5 := 2][1 := 2] == map[1 := 2, 2 := 2, 3 := 2, 4 := 2, 5 := 2];
    assert [2, 4, 3] + [1] + [5] == [2, 4, 3, 1, 5];
  }

  /** With 1 defined first, the search finds nothing. */
  lemma RivalsMissed()
    ensures KconfigLoop.Formed(RivalNet()) && KconfigLoop.VisitAll(RivalNet(), [1, 2, 3, 4]).r.Fine?
  {
    hide KconfigLoop.Formed; hide KconfigLoop.VisitSym; hide KconfigLoop.VisitRow;
    RivalsFormed();
    var g, m := RivalNet(), map[1 := 0, 2 := 0, 3 := 0, 4 := 0, 5 := 0];
    assert KconfigLoop.Unvisited(g) == m;
    VisitOne(m);
    var m', order := map[1 := 2, 2 := 2, 3 := 2, 4 := 2, 5 := 2], [2, 4, 3, 1, 5];
    RowFirst(g, m, [], [1, 2, 3, 4], KconfigLoop.NONE, false, KconfigLoop.Out(m', order, KconfigLoop.Fine));
    assert [1, 2, 3, 4][1..] == [2, 3, 4];
    RowDone(g, m', order, [2, 3, 4]);
  }

  /** From the choice entered through 2 while 4 is being visited, 3 leads back to 4. */
  lemma ReenterThree(m: KconfigLoop.Marks, order: seq<int>)
    requires RivalMarks(m) && m[3] == 0 && m[4] == 1 && KconfigLoop.Formed(RivalNet())
    ensures KconfigLoop.VisitSym(RivalNet(), m, order, 3, true).r == KconfigLoop.Partial([4, 3])
  {
    hide KconfigLoop.Formed;
    RowOne(RivalNet(), m[3 := 1], order, 4);
    assert [4] + [3] == [4, 3];
  }

  lemma ReenterFive(m: KconfigLoop.Marks, order: seq<int>)
    requires m == map[1 := 0, 2 := 1, 3 := 0, 4 := 1, 5 := 0] && KconfigLoop.Formed(RivalNet())
    ensures KconfigLoop.VisitChoice(RivalNet(), m, order, 5, 2).r == KconfigLoop.Partial([4, 3, 5])
  {
    hide KconfigLoop.Formed; hide KconfigLoop.VisitSym;
    var g, m1 := RivalNet(), m[5 := 1];
    VisitMember(m1, order, 1);
    var m2 := m1[1 := 2];
    RowFirst(g, m1, order, [1, 2, 3], 2, true, KconfigLoop.Out(m2, order + [1], KconfigLoop.Fine));
    assert [1, 2, 3][1..] == [2, 3] && [2, 3][1..] == [3];
    ReenterThree(m2, order + [1]);
    assert [4, 3] + [5] == [4, 3, 5];
  }

  /** With 4 defined first, it raises the loop. */
  lemma RivalsFound()
    ensures KconfigLoop.Formed(RivalNet()) && KconfigLoop.VisitAll(RivalNet(), [4, 1, 2, 3]).r == KconfigLoop.Raised([4, 3, 5, 2])
  {
    hide KconfigLoop.Formed; hide KconfigLoop.VisitChoice;
    RivalsFormed();
    var g, m := RivalNet(), map[1 := 0, 2 := 0, 3 := 0, 4 := 0, 5 := 0];
    assert KconfigLoop.Unvisited(g) == m;
    var m2 := map[1 := 0, 2 := 1, 3 := 0, 4 := 1, 5 := 0];
    assert m[4 := 1][2 := 1] == m2;
    ReenterFive(m2, []);
    assert [4, 3, 5] + [2] == [4, 3, 5, 2];
    assert KconfigLoop.VisitSym(g, m[4 := 1], [], 2, false).r == KconfigLoop.Partial([4, 3, 5, 2]);
    RowOne(g, m[4 := 1], [], 2);
    assert KconfigLoop.VisitSym(g, m, [], 4, false).r == KconfigLoop.Raised([4, 3, 5, 2]);
  }

  /** The order of the definitions decides whether the loop is found; where it is not, values have no
      evaluation order. */
  lemma RivalsUndetected()
    ensures var k, deps, g := Rivals(), RivalDeps(), RivalNet();
      && WellFormed(k) && BuiltOk(k, deps) && NetOf(k, deps) == g && KconfigLoop.Formed(g)
      && KconfigLoop.AllDefined(g, [1, 2, 3, 4]) && KconfigLoop.VisitAll(g, [1, 2, 3, 4]).r.Fine?
      && KconfigLoop.AllDefined(g, [4, 1, 2, 3]) && KconfigLoop.VisitAll(g, [4, 1, 2, 3]).r == KconfigLoop.Raised([4, 3, 5, 2])
      && SiblingLoop(k) && forall rank: Rank :: !Acyclic(k, rank)
  {
    RivalsDefined();
    hide WellFormed; hide BuiltOk; hide KconfigLoop.Formed; hide KconfigLoop.VisitAll; hide KconfigLoop.AllDefined; hide SiblingLoop; hide Acyclic; hide Rivals; hide RivalDeps; hide RivalNet; hide NetOf; hide Loops;
    RivalsWellFormed();
    RivalsBuilt();
    RivalsNet();
    RivalsMissed();
    RivalsFound();
    RivalsLoop();
    SiblingLoops(Rivals());
    OrderIff(Rivals());
  }

  lemma RivalsDefined()
    ensures KconfigLoop.AllDefined(RivalNet(), [1, 2, 3, 4]) && KconfigLoop.AllDefined(RivalNet(), [4, 1, 2, 3])
  {}

  // ---- a loop that is never found ------------------------------------------------------------------------

  /** A choice 1 whose prompt depends on 2, which is in a menu inside the choice. */
  ghost function Guest(): Config {
    var n := Const(0);
    Config(map[1 := Choice(true, [Item(2)], [], [], false), 2 := Symbol(true, [Item(1)], [], n, n, Item(1), NONE)], NONE)
  }

  ghost function GuestDeps(): Dependents {
    map[1 := [2], 2 := [1]]
  }

  lemma GuestConditions()
    ensures var x := Guest().items; Conditions(x[1]) == {2} && Conditions(x[2]) == {1} == DependsOn(x[2])
  {
    var x := Guest().items;
    assert x[1].prompts[1..] == [] && x[2].prompts[1..] == [];
  }

  lemma GuestBuilt()
    ensures WellFormed(Guest()) && BuiltOk(Guest(), GuestDeps())
  {
    hide Conditions; hide DependsOn;
    GuestConditions();
  }

  lemma GuestSearched()
    ensures WellFormed(Guest()) && Searched(Guest(), GuestDeps(), [1, 2])
  {
    hide WellFormed; hide BuiltOk;
    GuestBuilt();
    assert [1, 2][..0] == [] && [1, 2][..1] == [1];
  }

  lemma GuestUses()
    ensures var k := Guest(); MayUse(k, Vis(1), TriVal(2)) && MayUse(k, TriVal(2), Vis(2)) && MayUse(k, Vis(2), Vis(1))
  {
    var k, u, env: Lookup := Guest(), User(map[], map[]), (c: Cell) => 2;
    assert k.items[1].prompts[1..] == [] && k.items[2].prompts[1..] == [];
    assert TriVal(2) in Step(k, u, Vis(1), env).used;
    assert Vis(2) in Step(k, u, TriVal(2), env).used;
    assert Vis(1) in Step(k, u, Vis(2), env).used;
  }

  /** Loop detection does not follow what looks at a choice, other than its symbols. */
  lemma GuestUndetected()
    ensures var k := Guest(); WellFormed(k) && Searched(k, GuestDeps(), [1, 2]) && OutsiderLoop(k) && forall rank: Rank :: !Acyclic(k, rank)
  {
    GuestSearched();
    GuestUses();
    GuestLooks();
    hide WellFormed; hide Searched; hide MayUse; hide Outsider; hide Acyclic; hide Guest;
    var k := Guest();
    assert Leading(k, [Vis(1), TriVal(2), Vis(2)], Vis(1), Vis(2));
    assert OutsiderLoop(k);
    ChoiceOrderIff(k, GuestDeps(), [1, 2]);
  }

  lemma GuestLooks()
    ensures Outsider(Guest(), Vis(2), Vis(1))
  {}
}
