/** The dependents of every item, and the evaluation order that loop detection provides
    (tools/kconfiglib.py). */
module KconfigDeps {
  import opened KconfigCache
  import KconfigLoop

  // ---- building the dependents ----------------------------------------------------------------

  /** `b` is `a` with `j` added to the dependents of the items of `ids`. */
  ghost predicate Added(a: Dependents, b: Dependents, j: int, ids: set<int>) {
    a.Keys == b.Keys && forall i, x :: i in a ==> (x in b[i] <==> x in a[i] || (x == j && i in ids))
  }

  lemma AddedNone(a: Dependents, j: int)
    ensures Added(a, a, j, {})
  {}

  lemma AddedTwice(a: Dependents, b: Dependents, c: Dependents, j: int, x: set<int>, y: set<int>)
    requires Added(a, b, j, x) && Added(b, c, j, y)
    ensures Added(a, c, j, x + y)
  {}

  method AddOne(deps: Dependents, j: int, i: int) returns (r: Dependents)
    ensures Added(deps, r, j, {i})
  {
    if i in deps && j !in deps[i] { return deps[i := deps[i] + [j]]; }
    return deps;
  }

  method DependOnOperand(deps: Dependents, j: int, o: Operand) returns (r: Dependents)
    ensures Added(deps, r, j, MentionsIn(o))
  {
    if o.Ref? { r := AddOne(deps, j, o.i); } else { AddedNone(deps, j); r := deps; }
  }

  /** _make_depend_on. */
  method MakeDependOn(deps: Dependents, j: int, e: Cond) returns (r: Dependents)
    ensures Added(deps, r, j, Mentions(e))
    decreases e
  {
    hide Added;
    match e {
      case Const(_) => AddedNone(deps, j); return deps;
      case Item(i) => r := AddOne(deps, j, i);
      case Neg(x) => r := MakeDependOn(deps, j, x);
      case Both(a, b) =>
        var m := MakeDependOn(deps, j, a);
        r := MakeDependOn(m, j, b);
        AddedTwice(deps, m, r, j, Mentions(a), Mentions(b));
      case Either(a, b) =>
        var m := MakeDependOn(deps, j, a);
        r := MakeDependOn(m, j, b);
        AddedTwice(deps, m, r, j, Mentions(a), Mentions(b));
      case Compare(_, x, y) =>
        var m := DependOnOperand(deps, j, x);
        r := DependOnOperand(m, j, y);
        AddedTwice(deps, m, r, j, MentionsIn(x), MentionsIn(y));
    }
  }

  method DependOnAll(deps: Dependents, j: int, es: seq<Cond>) returns (r: Dependents)
    ensures Added(deps, r, j, MentionsAll(es))
    decreases |es|
  {
    hide Added; hide Mentions;
    AddedNone(deps, j);
    if es == [] { return deps; }
    var m := MakeDependOn(deps, j, es[0]);
    r := DependOnAll(m, j, es[1..]);
    AddedTwice(deps, m, r, j, Mentions(es[0]), MentionsAll(es[1..]));
  }

  method DependOnPairs(deps: Dependents, j: int, ds: seq<(Cond, Cond)>) returns (r: Dependents)
    ensures Added(deps, r, j, MentionsPairs(ds))
    decreases |ds|
  {
    hide Added; hide Mentions;
    AddedNone(deps, j);
    if ds == [] { return deps; }
    var m := MakeDependOn(deps, j, ds[0].0);
    var n := MakeDependOn(m, j, ds[0].1);
    AddedTwice(deps, m, n, j, Mentions(ds[0].0), Mentions(ds[0].1));
    r := DependOnPairs(n, j, ds[1..]);
    AddedTwice(deps, n, r, j, Mentions(ds[0].0) + Mentions(ds[0].1), MentionsPairs(ds[1..]));
  }

  method DependOnConds(deps: Dependents, j: int, ds: seq<(int, Cond)>) returns (r: Dependents)
    ensures Added(deps, r, j, MentionsConds(ds))
    decreases |ds|
  {
    hide Added; hide Mentions;
    AddedNone(deps, j);
    if ds == [] { return deps; }
    var m := MakeDependOn(deps, j, ds[0].1);
    r := DependOnConds(m, j, ds[1..]);
    AddedTwice(deps, m, r, j, Mentions(ds[0].1), MentionsConds(ds[1..]));
  }

  /** _add_choice_deps for one choice. */
  method DependOnSyms(deps: Dependents, j: int, syms: seq<int>) returns (r: Dependents)
    ensures Added(deps, r, j, set s | s in syms)
    decreases |syms|
  {
    hide Added;
    AddedNone(deps, j);
    if syms == [] {
      assert (set s | s in syms) == {};
      return deps;
    }
    var m := AddOne(deps, j, syms[0]);
    r := DependOnSyms(m, j, syms[1..]);
    AddedTwice(deps, m, r, j, {syms[0]}, set s | s in syms[1..]);
    assert (set s | s in syms) == {syms[0]} + set s | s in syms[1..];
  }

  /** The items that the properties of an entry mention. */
  function Conditions(x: Entry): set<int> {
    match x
    case Symbol(_, _, _, _, _, _, _) => DependsOn(x)
    case Choice(_, ps, sels, _, _) => MentionsAll(ps) + MentionsConds(sels)
  }

  ghost function Members(x: Entry): set<int> {
    if x.Choice? then set s | s in x.syms else {}
  }

  /** What _build_dep does for one item. */
  method DependItem(deps: Dependents, j: int, x: Entry) returns (r: Dependents)
    ensures Added(deps, r, j, Conditions(x))
  {
    hide Added; hide Mentions; hide MentionsAll; hide MentionsPairs; hide MentionsConds;
    var d1 := DependOnAll(deps, j, x.prompts);
    if x.Symbol? {
      var d2 := DependOnPairs(d1, j, x.defaults);
      AddedTwice(deps, d1, d2, j, MentionsAll(x.prompts), MentionsPairs(x.defaults));
      var d3 := MakeDependOn(d2, j, x.revDep);
      AddedTwice(deps, d2, d3, j, MentionsAll(x.prompts) + MentionsPairs(x.defaults), Mentions(x.revDep));
      var d4 := MakeDependOn(d3, j, x.weakRevDep);
      AddedTwice(deps, d3, d4, j, MentionsAll(x.prompts) + MentionsPairs(x.defaults) + Mentions(x.revDep), Mentions(x.weakRevDep));
      r := MakeDependOn(d4, j, x.directDep);
      AddedTwice(deps, d4, r, j, MentionsAll(x.prompts) + MentionsPairs(x.defaults) + Mentions(x.revDep) + Mentions(x.weakRevDep), Mentions(x.directDep));
    } else {
      r := DependOnConds(d1, j, x.selections);
      AddedTwice(deps, d1, r, j, MentionsAll(x.prompts), MentionsConds(x.selections));
    }
  }

  type Wanted = map<int, set<int>>

  ghost function AllConditions(k: Config): Wanted {
    map i | i in k.items :: Conditions(k.items[i])
  }

  ghost function AllMembers(k: Config): Wanted {
    map i | i in k.items :: Members(k.items[i])
  }

  /** The first items of `ids` have been added to the dependents of the items they are wanted in. */
  ghost predicate Registered(want: Wanted, was: Dependents, deps: Dependents, ids: seq<int>, n: nat) {
    && n <= |ids| && (forall m :: 0 <= m < |ids| ==> ids[m] in want) && deps.Keys == was.Keys == want.Keys
    && forall i, b :: i in want ==> (b in deps[i] <==> b in was[i] || (b in ids[..n] && i in want[b]))
  }

  lemma RegisteredNone(want: Wanted, deps: Dependents, ids: seq<int>)
    requires deps.Keys == want.Keys && forall i :: i in ids <==> i in want
    ensures Registered(want, deps, deps, ids, 0)
  {
    forall m | 0 <= m < |ids| ensures ids[m] in want {
      var i := ids[m];
      assert i in ids;
    }
  }

  lemma RegisteredNext(want: Wanted, was: Dependents, deps: Dependents, deps': Dependents, ids: seq<int>, n: nat)
    requires Registered(want, was, deps, ids, n) && n < |ids| && Added(deps, deps', ids[n], want[ids[n]])
    ensures Registered(want, was, deps', ids, n + 1)
  {
    assert ids[..n + 1] == ids[..n] + [ids[n]];
  }

  lemma RegisteredKnown(want: Wanted, was: Dependents, deps: Dependents, ids: seq<int>, n: nat)
    requires Registered(want, was, deps, ids, n) && n < |ids|
    ensures ids[n] in want
  {}

  /** The dependents at the time of loop detection. */
  ghost predicate BuiltOk(k: Config, deps: Dependents) {
    && deps.Keys == k.items.Keys
    && forall i, b :: i in k.items ==> (b in deps[i] <==> b in k.items && i in Conditions(k.items[b]))
  }

  lemma RegisteredBuilt(k: Config, was: Dependents, deps: Dependents, ids: seq<int>)
    requires Registered(AllConditions(k), was, deps, ids, |ids|) && (forall i :: i in ids <==> i in k.items) && forall i :: i in was ==> was[i] == []
    ensures BuiltOk(k, deps)
  {
    hide Conditions;
    assert ids[..|ids|] == ids;
  }

  lemma RegisteredAll(k: Config, was: Dependents, deps: Dependents, ids: seq<int>)
    requires BuiltOk(k, was) && Registered(AllMembers(k), was, deps, ids, |ids|) && forall i :: i in ids <==> i in k.items
    ensures DepsOk(k, deps)
  {
    hide Conditions; hide Members; hide DependsOn;
    assert ids[..|ids|] == ids;
    forall i, b | i in k.items ensures b in deps[i] <==> b in k.items && i in DependsOn(k.items[b]) {
      if b in k.items { DependsSplit(k.items[b]); }
    }
  }

  lemma DependsSplit(x: Entry)
    ensures DependsOn(x) == Conditions(x) + Members(x)
  {
    hide Mentions; hide MentionsAll; hide MentionsPairs; hide MentionsConds;
  }

  /** _build_dep, over all defined symbols and choices. */
  method BuildDep(k: Config, ids: seq<int>) returns (deps: Dependents)
    requires forall i :: i in ids <==> i in k.items
    ensures BuiltOk(k, deps)
  {
    hide Conditions; hide Added; hide Registered; hide BuiltOk;
    deps := map i | i in k.items :: [];
    ghost var was, want := deps, AllConditions(k);
    RegisteredNone(want, deps, ids);
    var n := 0;
    while n < |ids|
      invariant 0 <= n <= |ids| && Registered(want, was, deps, ids, n)
    {
      RegisteredKnown(want, was, deps, ids, n);
      ghost var before := deps;
      deps := DependItem(deps, ids[n], k.items[ids[n]]);
      RegisteredNext(want, was, before, deps, ids, n);
      n := n + 1;
    }
    RegisteredBuilt(k, was, deps, ids);
  }

  /** _add_choice_deps, after loop detection. */
  method AddChoiceDeps(k: Config, built: Dependents, ids: seq<int>) returns (deps: Dependents)
    requires BuiltOk(k, built) && forall i :: i in ids <==> i in k.items
    ensures DepsOk(k, deps)
  {
    hide Conditions; hide Added; hide Registered; hide DepsOk;
    deps := built;
    ghost var want := AllMembers(k);
    RegisteredNone(want, deps, ids);
    var n := 0;
    while n < |ids|
      invariant 0 <= n <= |ids| && Registered(want, built, deps, ids, n)
    {
      RegisteredKnown(want, built, deps, ids, n);
      ghost var before := deps;
      if k.items[ids[n]].Choice? { deps := DependOnSyms(deps, ids[n], k.items[ids[n]].syms); } else { AddedNone(deps, ids[n]); }
      RegisteredNext(want, built, before, deps, ids, n);
      n := n + 1;
    }
    RegisteredAll(k, built, deps, ids);
  }

  // ---- the order of evaluation ------------------------------------------------------------------

  /** What loop detection looks at. */
  function NetOf(k: Config, deps: Dependents): KconfigLoop.Net {
    KconfigLoop.Net(deps,
      map c | c in k.items && k.items[c].Choice? :: k.items[c].syms,
      map x | x in k.items && k.items[x].Symbol? && IsChoice(k, k.items[x].choice) :: k.items[x].choice)
  }

  lemma NetMember(k: Config, deps: Dependents, c: int, x: int)
    requires WellFormed(k) && deps.Keys == k.items.Keys && IsChoice(k, c) && x in k.items[c].syms
    ensures var g := NetOf(k, deps); x in g.deps && x !in g.syms && x in g.choice && g.choice[x] == c
  {
    hide DependsOn;
    assert IsSymbol(k, x) && k.items[x].choice == c;
  }

  lemma NetFormed(k: Config, deps: Dependents)
    requires WellFormed(k) && BuiltOk(k, deps)
    ensures KconfigLoop.Formed(NetOf(k, deps))
  {
    hide Conditions; hide DependsOn;
    var g := NetOf(k, deps);
    forall s, d | s in g.deps && d in g.deps[s] ensures d in g.deps { assert d in deps[s] && s in k.items; }
    forall c, x | c in g.syms && x in g.syms[c] ensures x in g.deps && x !in g.syms && x in g.choice && g.choice[x] == c {
      NetMember(k, deps, c, x);
    }
    forall x | x in g.choice ensures x in g.deps && x !in g.syms && g.choice[x] in g.syms && x in g.syms[g.choice[x]] {
      assert IsSymbol(k, x) && IsChoice(k, k.items[x].choice);
    }
  }

  /** Successful loop detection has arranged all items. */
  ghost predicate Searched(k: Config, deps: Dependents, order: seq<int>) {
    BuiltOk(k, deps) && KconfigLoop.Arranged(NetOf(k, deps), order) && forall i :: i in k.items ==> i in order
  }

  /** An item comes before the symbols it mentions. */
  lemma DependsEarlier(k: Config, deps: Dependents, order: seq<int>, i: int, j: int)
    requires Searched(k, deps, order) && IsSymbol(k, i) && j in k.items && i in Conditions(k.items[j])
    ensures KconfigLoop.IndexOf(order, j) < KconfigLoop.IndexOf(order, i)
  {
    hide Conditions; hide KconfigLoop.Topological;
    var g := NetOf(k, deps);
    assert j in deps[i];
    KconfigLoop.Earlier(KconfigLoop.Rows(g), order, i, j);
  }

  /** A symbol comes before its choice. */
  lemma MemberEarlier(k: Config, deps: Dependents, order: seq<int>, x: int, c: int)
    requires Searched(k, deps, order) && x in k.items && IsChoice(k, c) && x in k.items[c].syms
    ensures KconfigLoop.IndexOf(order, x) < KconfigLoop.IndexOf(order, c)
  {
    hide Conditions; hide KconfigLoop.Topological;
    KconfigLoop.Earlier(KconfigLoop.Rows(NetOf(k, deps)), order, c, x);
  }

  ghost predicate ChoiceFree(k: Config) {
    forall i :: i in k.items ==> k.items[i].Symbol? && !IsChoice(k, k.items[i].choice)
  }

  /** An expression looks at the values of symbols and the modes of choices it mentions; the mode of
      a choice may look at MODULES. */
  ghost predicate Mentioned(k: Config, used: set<Cell>, ids: set<int>) {
    forall d :: d in used ==> (d.i in ids && ValueCell(k, d)) || (d == TriVal(k.modules) && exists c :: c in ids && IsChoice(k, c))
  }

  predicate ValueCell(k: Config, d: Cell) {
    (d.TriVal? && IsSymbol(k, d.i)) || (d.Vis? && IsChoice(k, d.i))
  }

  lemma {:induction false} EvalExact(k: Config, u: User, e: Cond, env: Lookup)
    ensures Mentioned(k, Eval(k, u, e, env).used, Mentions(e))
  {
    match e
    case Const(_) =>
    case Item(_) =>
    case Neg(x) => EvalExact(k, u, x, env);
    case Both(a, b) => EvalExact(k, u, a, env); EvalExact(k, u, b, env);
    case Either(a, b) => EvalExact(k, u, a, env); EvalExact(k, u, b, env);
    case Compare(_, _, _) =>
  }

  lemma {:induction false} PromptsExact(k: Config, u: User, ps: seq<Cond>, env: Lookup)
    ensures Mentioned(k, Prompts(k, u, ps, env).used, MentionsAll(ps))
  {
    hide Eval; hide Mentions;
    if ps != [] {
      EvalExact(k, u, ps[0], env);
      PromptsExact(k, u, ps[1..], env);
    }
  }

  lemma {:induction false} DefaultsExact(k: Config, u: User, ds: seq<(Cond, Cond)>, env: Lookup)
    ensures Mentioned(k, Defaults(k, u, ds, env).used, MentionsPairs(ds))
  {
    hide Eval; hide Mentions;
    if ds != [] {
      EvalExact(k, u, ds[0].0, env);
      EvalExact(k, u, ds[0].1, env);
      DefaultsExact(k, u, ds[1..], env);
    }
  }

  lemma VisExact(k: Config, u: User, i: int, env: Lookup, d: Cell)
    requires ChoiceFree(k) && i in k.items && d in VisStep(k, u, i, env).used
    ensures (d.TriVal? && d.i in k.items && d.i in DependsOn(k.items[i])) || (d == TriVal(k.modules) && !k.items[i].bool_)
  {
    hide Prompts; hide MentionsPairs; hide Mentions; hide MentionsAll;
    PromptsExact(k, u, k.items[i].prompts, env);
  }

  lemma TriExact(k: Config, u: User, i: int, env: Lookup, d: Cell)
    requires ChoiceFree(k) && i in k.items && d in TriStep(k, u, i, env).used
    ensures d == Vis(i) || (d.TriVal? && d.i in k.items && d.i in DependsOn(k.items[i])) || (d == TriVal(k.modules) && !k.items[i].bool_)
  {
    hide Eval; hide Defaults; hide MentionsPairs; hide Mentions; hide MentionsAll;
    var s := k.items[i];
    DefaultsExact(k, u, s.defaults, env);
    EvalExact(k, u, s.weakRevDep, env);
    EvalExact(k, u, s.revDep, env);
    EvalExact(k, u, s.directDep, env);
  }

  /** The place of a cell in a configuration whose items are in topological order: items that others
      depend on come late in the order and are evaluated first. */
  ghost function Place(order: seq<int>, c: Cell): (n: nat)
    ensures n <= 2 * |order| + 1
  {
    (if c.i in order then 2 * (|order| - KconfigLoop.IndexOf(order, c.i)) else 0) + if c.Vis? then 0 else 1
  }

  lemma SearchedCovers(k: Config, deps: Dependents, order: seq<int>)
    requires Searched(k, deps, order)
    ensures forall i :: i in k.items ==> i in order
  {}

  /** What a step uses has an earlier place, except for MODULES looked at by a tristate symbol. */
  lemma UsesEarlier(k: Config, deps: Dependents, order: seq<int>, u: User, c: Cell, env: Lookup, d: Cell)
    requires Searched(k, deps, order) && ChoiceFree(k) && Known(k, c) && d in Step(k, u, c, env).used
    ensures Place(order, d) < Place(order, c) || (d == TriVal(k.modules) && !k.items[c.i].bool_)
  {
    hide DependsOn; hide Searched; hide KconfigLoop.IndexOf; hide VisStep; hide TriStep; hide SelStep;
    SearchedCovers(k, deps, order);
    if c.Vis? { VisExact(k, u, c.i, env, d); } else { TriExact(k, u, c.i, env, d); }
    if d != Vis(c.i) && d.i in DependsOn(k.items[c.i]) && d.i in k.items {
      DependsEarlier(k, deps, order, d.i, c.i);
    }
  }

  // ---- MODULES ----------------------------------------------------------------------------------

  /** Computing cell `c` may look at cell `d`, for some settings of the user and some values. */
  ghost predicate MayUse(k: Config, c: Cell, d: Cell) {
    exists u: User, env: Lookup :: UserOk(k, u) && Plausible(k, env) && d in Step(k, u, c, env).used
  }

  ghost predicate Path(k: Config, p: seq<Cell>) {
    |p| > 0 && forall n :: 0 <= n < |p| - 1 ==> MayUse(k, p[n], p[n + 1])
  }

  /** Evaluating MODULES may come to cell `c` along `p`. */
  ghost predicate Via(k: Config, p: seq<Cell>, c: Cell) {
    Path(k, p) && p[0] == TriVal(k.modules) && p[|p| - 1] == c
  }

  ghost predicate Reached(k: Config, c: Cell) {
    exists p :: Via(k, p, c)
  }

  /** Evaluating MODULES may come back to MODULES. */
  ghost predicate ModulesLoop(k: Config) {
    exists p :: |p| > 1 && Via(k, p, TriVal(k.modules))
  }

  lemma ReachedSelf(k: Config)
    ensures Reached(k, TriVal(k.modules))
  {
    assert Via(k, [TriVal(k.modules)], TriVal(k.modules));
  }

  lemma ViaNext(k: Config, p: seq<Cell>, c: Cell, d: Cell)
    requires Via(k, p, c) && MayUse(k, c, d)
    ensures Via(k, p + [d], d)
  {
    hide MayUse;
    var q := p + [d];
    forall n | 0 <= n < |q| - 1 ensures MayUse(k, q[n], q[n + 1]) {
      if n < |p| - 1 { assert MayUse(k, p[n], p[n + 1]); }
    }
  }

  lemma ReachedNext(k: Config, c: Cell, d: Cell)
    requires Reached(k, c) && MayUse(k, c, d)
    ensures Reached(k, d) && (d == TriVal(k.modules) ==> ModulesLoop(k))
  {
    hide Via; hide MayUse;
    var p :| Via(k, p, c);
    ViaNext(k, p, c, d);
    assert |p| > 0 by { ViaLong(k, p, c); }
  }

  lemma ViaLong(k: Config, p: seq<Cell>, c: Cell)
    requires Via(k, p, c)
    ensures |p| > 0
  {}

  /** Along an evaluation the rank falls. */
  lemma {:induction false} RankFalls(k: Config, rank: Rank, p: seq<Cell>, n: nat)
    requires Acyclic(k, rank) && Path(k, p) && n < |p|
    ensures rank(p[n]) <= rank(p[0]) - n
  {
    if n > 0 {
      RankFalls(k, rank, p, n - 1);
      assert MayUse(k, p[n - 1], p[n - 1 + 1]);
      var u: User, env: Lookup :| UserOk(k, u) && Plausible(k, env) && p[n] in Step(k, u, p[n - 1], env).used;
      UsesKnown(k, u, p[n - 1], env, p[n]);
    }
  }

  lemma UsesKnown(k: Config, u: User, c: Cell, env: Lookup, d: Cell)
    requires d in Step(k, u, c, env).used
    ensures Known(k, c)
  {
    hide VisStep; hide TriStep; hide SelStep;
  }

  /** The rank of a cell: what evaluating MODULES may come to, before everything else. */
  ghost function OrderRank(k: Config, order: seq<int>): Rank {
    (c: Cell) => Place(order, c) + if Reached(k, c) then 0 else 2 * |order| + 2
  }

  lemma UsesRanked(k: Config, deps: Dependents, order: seq<int>, u: User, c: Cell, env: Lookup, d: Cell)
    requires Searched(k, deps, order) && ChoiceFree(k) && !ModulesLoop(k) && Known(k, c) && UserOk(k, u) && Plausible(k, env) && d in Step(k, u, c, env).used
    ensures OrderRank(k, order)(d) < OrderRank(k, order)(c)
  {
    hide Searched; hide ChoiceFree; hide ModulesLoop; hide Reached; hide Step; hide Place; hide UserOk;
    UsesEarlier(k, deps, order, u, c, env, d);
    ReachedSelf(k);
    assert MayUse(k, c, d);
    if Reached(k, c) { ReachedNext(k, c, d); }
  }

  /** The success of loop detection gives an order in which values can be evaluated, if evaluating
      MODULES cannot come back to MODULES. */
  lemma LoopFreeIsAcyclic(k: Config, deps: Dependents, order: seq<int>)
    requires Searched(k, deps, order) && ChoiceFree(k) && !ModulesLoop(k)
    ensures Acyclic(k, OrderRank(k, order))
  {
    hide Step; hide Searched; hide ChoiceFree; hide ModulesLoop; hide OrderRank; hide Known; hide UserOk;
    forall u: User, c: Cell, env: Lookup, d: Cell | Known(k, c) && UserOk(k, u) && Plausible(k, env) && d in Step(k, u, c, env).used
      ensures OrderRank(k, order)(d) < OrderRank(k, order)(c)
    {
      UsesRanked(k, deps, order, u, c, env, d);
    }
  }

  /** ... and only if. */
  lemma AcyclicIff(k: Config, deps: Dependents, order: seq<int>)
    requires Searched(k, deps, order) && ChoiceFree(k)
    ensures (exists rank: Rank :: Acyclic(k, rank)) <==> !ModulesLoop(k)
  {
    hide Searched; hide ChoiceFree; hide Acyclic; hide Path;
    if !ModulesLoop(k) {
      LoopFreeIsAcyclic(k, deps, order);
    } else {
      var p :| |p| > 1 && Via(k, p, TriVal(k.modules));
      forall rank: Rank ensures !Acyclic(k, rank) {
        if Acyclic(k, rank) { RankFalls(k, rank, p, |p| - 1); }
      }
    }
  }

  /** Evaluating MODULES comes back to it exactly if it may come to a tristate symbol that may look at MODULES. */
  lemma LoopIff(k: Config, deps: Dependents, order: seq<int>)
    requires Searched(k, deps, order) && ChoiceFree(k)
    ensures ModulesLoop(k) <==> exists c :: Reached(k, c) && Tristate(k, c) && MayUse(k, c, TriVal(k.modules))
  {
    hide Searched; hide ChoiceFree; hide Reached; hide MayUse; hide Path; hide Tristate;
    if ModulesLoop(k) {
      var p :| |p| > 1 && Via(k, p, TriVal(k.modules));
      if !exists c :: Reached(k, c) && Tristate(k, c) && MayUse(k, c, TriVal(k.modules)) {
        PlaceFalls(k, deps, order, p, |p| - 1);
      }
    } else {
      forall c | Reached(k, c) && Tristate(k, c) ensures !MayUse(k, c, TriVal(k.modules)) {
        if MayUse(k, c, TriVal(k.modules)) { ReachedNext(k, c, TriVal(k.modules)); }
      }
    }
  }

  ghost predicate Tristate(k: Config, c: Cell) {
    c.i in k.items && !k.items[c.i].bool_
  }

  lemma {:induction false} PlaceFalls(k: Config, deps: Dependents, order: seq<int>, p: seq<Cell>, n: nat)
    requires Searched(k, deps, order) && ChoiceFree(k) && Path(k, p) && p[0] == TriVal(k.modules) && n < |p|
    requires !exists c :: Reached(k, c) && Tristate(k, c) && MayUse(k, c, TriVal(k.modules))
    ensures Reached(k, p[n]) && Place(order, p[n]) <= Place(order, p[0]) - n
  {
    hide Searched; hide ChoiceFree; hide Reached; hide Place; hide Step; hide UserOk;
    if n == 0 {
      ReachedSelf(k);
    } else {
      PlaceFalls(k, deps, order, p, n - 1);
      var c, d := p[n - 1], p[n];
      assert MayUse(k, p[n - 1], p[n - 1 + 1]);
      ReachedNext(k, c, d);
      var u: User, env: Lookup :| UserOk(k, u) && Plausible(k, env) && d in Step(k, u, c, env).used;
      UsesKnown(k, u, c, env, d);
      UsesEarlier(k, deps, order, u, c, env, d);
    }
  }

  /** In particular there is an evaluation order if everything MODULES transitively depends on is bool. */
  lemma BoolModulesFine(k: Config, deps: Dependents, order: seq<int>, ids: set<int>)
    requires Searched(k, deps, order) && ChoiceFree(k)
    requires k.modules in ids && forall i :: i in ids && i in k.items ==> k.items[i].bool_ && DependsOn(k.items[i]) <= ids
    ensures Acyclic(k, OrderRank(k, order))
  {
    hide Searched; hide MayUse; hide Path; hide DependsOn; hide ModulesLoop;
    forall c | Reached(k, c) ensures !Tristate(k, c) {
      var p :| Via(k, p, c);
      ViaLong(k, p, c);
      StaysIn(k, ids, p, |p| - 1);
    }
    LoopIff(k, deps, order);
    LoopFreeIsAcyclic(k, deps, order);
  }

  lemma {:induction false} StaysIn(k: Config, ids: set<int>, p: seq<Cell>, n: nat)
    requires ChoiceFree(k) && Path(k, p) && p[0].i in ids && n < |p|
    requires k.modules in ids && forall i :: i in ids && i in k.items ==> k.items[i].bool_ && DependsOn(k.items[i]) <= ids
    ensures p[n].i in ids
  {
    hide DependsOn; hide ChoiceFree; hide VisStep; hide TriStep; hide SelStep;
    if n > 0 {
      StaysIn(k, ids, p, n - 1);
      var c, d := p[n - 1], p[n];
      assert MayUse(k, p[n - 1], p[n - 1 + 1]);
      var u: User, env: Lookup :| UserOk(k, u) && Plausible(k, env) && d in Step(k, u, c, env).used;
      UsesKnown(k, u, c, env, d);
      NoSelection(k, c);
      if c.Vis? { VisExact(k, u, c.i, env, d); } else { TriExact(k, u, c.i, env, d); }
    }
  }

  lemma NoSelection(k: Config, c: Cell)
    requires ChoiceFree(k) && Known(k, c)
    ensures !c.Sel? && IsSymbol(k, c.i)
  {}

  /** A configuration with a bool MODULES whose prompt depends on a tristate symbol. */
  ghost function Trap(): Config {
    var n, y := Const(0), Const(2);
    Config(map[1 := Symbol(false, [y], [], n, n, y, NONE), 2 := Symbol(true, [Item(1)], [], n, n, y, NONE)], 2)
  }

  /** Loop detection finds nothing in it, and yet its values have no evaluation order. */
  lemma TrapUndetected()
    ensures var k := Trap(); var deps := map[1 := [2], 2 := []];
      ChoiceFree(k) && Searched(k, deps, [2, 1]) && ModulesLoop(k) && forall rank: Rank :: !Acyclic(k, rank)
  {
    var k, deps := Trap(), map[1 := [2], 2 := []];
    TrapDeps();
    TrapLoops();
    hide Searched; hide ModulesLoop; hide Acyclic;
    AcyclicIff(k, deps, [2, 1]);
  }

  lemma TrapDeps()
    ensures var k := Trap(); var deps := map[1 := [2], 2 := []]; ChoiceFree(k) && Searched(k, deps, [2, 1])
  {
    var k := Trap();
    assert [Item(1)][1..] == [] && [Const(2)][1..] == [];
    assert DependsOn(k.items[1]) == {} && DependsOn(k.items[2]) == {1};
    assert [2, 1][..0] == [] && [2, 1][..1] == [2];
  }

  lemma TrapLoops()
    ensures ModulesLoop(Trap())
  {
    hide Step; hide Trap; hide TrapUser; hide MayUse; hide UserOk; hide Plausible;
    var k, u, env: Lookup := Trap(), TrapUser(), (c: Cell) => 2;
    TrapVisible(env);
    TrapCycle(env);
    TrapUserOk(env);
    Used(k, u, TriVal(2), env, Vis(2));
    Used(k, u, Vis(2), env, TriVal(1));
    Used(k, u, TriVal(1), env, TriVal(2));
    assert Via(k, [TriVal(2), Vis(2), TriVal(1), TriVal(2)], TriVal(2)) && k.modules == 2;
  }

  lemma Used(k: Config, u: User, c: Cell, env: Lookup, d: Cell)
    requires UserOk(k, u) && Plausible(k, env) && d in Step(k, u, c, env).used
    ensures MayUse(k, c, d)
  {}

  lemma TrapUserOk(env: Lookup)
    requires forall c :: env(c) == 2
    ensures UserOk(Trap(), TrapUser()) && Plausible(Trap(), env)
  {}

  lemma TrapVisible(env: Lookup)
    ensures Step(Trap(), TrapUser(), Vis(1), env).v == 2 && Trap().modules == 2
  {
    assert [Const(2)][1..] == [];
  }

  /** The user has set the tristate symbol to m. */
  ghost function TrapUser(): User {
    User(map[1 := 1], map[])
  }

  /** With that one setting, MODULES looks at its visibility, that at the tristate symbol, whose
      visibility is y, and that at MODULES: the three wait for each other. */
  lemma TrapCycle(env: Lookup)
    requires env(Vis(1)) == Step(Trap(), TrapUser(), Vis(1), env).v
    ensures var k, u := Trap(), TrapUser();
      && Vis(2) in Step(k, u, TriVal(2), env).used
      && TriVal(1) in Step(k, u, Vis(2), env).used
      && TriVal(2) in Step(k, u, TriVal(1), env).used
  {
    assert [Item(1)][1..] == [] && [Const(2)][1..] == [];
  }
}
