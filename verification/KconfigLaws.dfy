/** What the values of symbols and choices obey, whatever the configuration and the user's settings
    (tools/kconfiglib.py). */
module KconfigLaws {
  import KconfigExpr
  import opened KconfigCache

  // ---- what expressions mean --------------------------------------------------------------------

  function Least(a: int, b: int): int {
    if a < b then a else b
  }

  function Most(a: int, b: int): int {
    if a < b then b else a
  }

  /** The value of MODULES, n if it is not defined. */
  ghost function ModulesValue(k: Config, u: User, rank: Rank): int {
    if IsSymbol(k, k.modules) then Value(k, u, rank, TriVal(k.modules)) else 0
  }

  /** What is declared tristate is one unless MODULES is n. */
  ghost predicate TristateNow(k: Config, u: User, rank: Rank, x: Entry) {
    !x.bool_ && ModulesValue(k, u, rank) != 0
  }

  /** m is y for everything that is not a tristate. */
  function Promoted(v: int, tristate: bool): int {
    if v == 1 && !tristate then 2 else v
  }

  /** The mode of a choice: what the user asked for, at least m unless it is optional, as far as it is
      visible. */
  ghost function ModeValue(k: Config, u: User, rank: Rank, c: int): int
    requires IsChoice(k, c)
  {
    var asked := Most(if k.items[c].optional then 0 else 1, if c in u.value then u.value[c] else 0);
    Promoted(Least(asked, Value(k, u, rank, Vis(c))), TristateNow(k, u, rank, k.items[c]))
  }

  ghost function ItemMeans(k: Config, u: User, rank: Rank, i: int): int {
    if IsSymbol(k, i) then Value(k, u, rank, TriVal(i)) else if IsChoice(k, i) then ModeValue(k, u, rank, i) else 0
  }

  /** An operand as a number: that of its value, or of its name if it is no item. */
  ghost function NumberOf(k: Config, u: User, rank: Rank, o: Operand): Number {
    match o
    case Lit(v) => Number(v)
    case Ref(i, _, num) => if i in k.items then Number(ItemMeans(k, u, rank, i)) else num
  }

  function TriName(v: int): string {
    match v
    case 0 => "n"
    case 1 => "m"
    case _ => "y"
  }

  ghost function TextOf(k: Config, u: User, rank: Rank, o: Operand): string {
    match o
    case Lit(v) => TriName(v)
    case Ref(i, name, _) => if i in k.items then TriName(ItemMeans(k, u, rank, i)) else name
  }

  /** `s` comes before `t` in the dictionary: they agree up to a place where `s` ends or has the lower
      character. */
  ghost predicate Before(s: string, t: string) {
    exists n: nat :: Differ(s, t, n) && (n == |s| || (n < |s| && n < |t| && s[n] < t[n]))
  }

  /** `s` and `t` agree up to place `n` and no further. */
  ghost predicate Differ(s: string, t: string, n: nat) {
    n <= |s| && n <= |t| && s[..n] == t[..n] && (n < |s| || n < |t|) && (n < |s| && n < |t| ==> s[n] != t[n])
  }

  ghost predicate IsLess(k: Config, u: User, rank: Rank, x: Operand, y: Operand) {
    var m, n := NumberOf(k, u, rank, x), NumberOf(k, u, rank, y);
    if m.Number? && n.Number? then m.n < n.n else Before(TextOf(k, u, rank, x), TextOf(k, u, rank, y))
  }

  ghost predicate IsSame(k: Config, u: User, rank: Rank, x: Operand, y: Operand) {
    var m, n := NumberOf(k, u, rank, x), NumberOf(k, u, rank, y);
    if m.Number? && n.Number? then m.n == n.n else TextOf(k, u, rank, x) == TextOf(k, u, rank, y)
  }

  ghost predicate Holds(op: KconfigExpr.RelOp, less: bool, same: bool) {
    match op
    case Equal => same
    case Unequal => !same
    case Less => less
    case LessEqual => less || same
    case Greater => !less && !same
    case GreaterEqual => !less
  }

  /** The value of an expression: the lesser of two for &&, the greater for ||. */
  ghost function Means(k: Config, u: User, rank: Rank, e: Cond): int {
    match e
    case Const(v) => v
    case Item(i) => ItemMeans(k, u, rank, i)
    case Neg(x) => 2 - Means(k, u, rank, x)
    case Both(a, b) => Least(Means(k, u, rank, a), Means(k, u, rank, b))
    case Either(a, b) => Most(Means(k, u, rank, a), Means(k, u, rank, b))
    case Compare(op, x, y) => if Holds(op, IsLess(k, u, rank, x, y), IsSame(k, u, rank, x, y)) then 2 else 0
  }

  lemma ModeMeans(k: Config, u: User, rank: Rank, c: int)
    requires IsChoice(k, c)
    ensures Mode(k, u, c, Values(k, u, rank)).v == ModeValue(k, u, rank, c) && IsTri(ModeValue(k, u, rank, c))
  {
    hide Value;
    ValueTri(k, u, rank, Vis(c));
  }

  lemma ItemMeansIs(k: Config, u: User, rank: Rank, i: int)
    ensures ItemValue(k, u, i, Values(k, u, rank)).v == ItemMeans(k, u, rank, i) && IsTri(ItemMeans(k, u, rank, i))
  {
    hide Value; hide Mode; hide ModeValue;
    ValueTri(k, u, rank, TriVal(i));
    if IsChoice(k, i) { ModeMeans(k, u, rank, i); }
  }

  lemma {:induction false} DictionaryOrder(s: string, t: string)
    ensures StrCmp(s, t) < 0 <==> Before(s, t)
  {
    if s == [] || t == [] {
      if s == [] && t != [] { assert Differ(s, t, 0); }
    } else if s[0] != t[0] {
      assert Differ(s, t, 0);
      DifferFirst(s, t);
    } else {
      DictionaryOrder(s[1..], t[1..]);
      BeforeNext(s, t);
    }
  }

  lemma DifferFirst(s: string, t: string)
    requires s != [] && t != [] && s[0] != t[0]
    ensures forall n: nat :: Differ(s, t, n) ==> n == 0
  {
    forall n: nat | 0 < n <= |s| && n <= |t| ensures s[..n] != t[..n] { assert s[..n][0] == s[0] && t[..n][0] == t[0]; }
  }

  lemma BeforeNext(s: string, t: string)
    requires s != [] && t != [] && s[0] == t[0]
    ensures Before(s, t) <==> Before(s[1..], t[1..])
  {
    hide Differ;
    if Before(s[1..], t[1..]) {
      var n: nat :| Differ(s[1..], t[1..], n) && (n == |s[1..]| || (n < |s[1..]| && n < |t[1..]| && s[1..][n] < t[1..][n]));
      DifferNext(s, t, n);
    }
    if Before(s, t) {
      var n: nat :| Differ(s, t, n) && (n == |s| || (n < |s| && n < |t| && s[n] < t[n]));
      DifferSome(s, t, n);
      DifferNext(s, t, n - 1);
    }
  }

  lemma DifferSome(s: string, t: string, n: nat)
    requires s != [] && t != [] && s[0] == t[0] && Differ(s, t, n)
    ensures 0 < n <= |s| && n <= |t|
  {}

  lemma DifferNext(s: string, t: string, n: nat)
    requires s != [] && t != [] && s[0] == t[0]
    ensures Differ(s, t, n + 1) <==> Differ(s[1..], t[1..], n)
    ensures Differ(s, t, n + 1) ==> n < |s| && n < |t|
  {
    if n + 1 <= |s| && n + 1 <= |t| {
      assert s[..n + 1] == [s[0]] + s[1..][..n] && t[..n + 1] == [t[0]] + t[1..][..n];
      assert s[1..][..n] == s[..n + 1][1..] && t[1..][..n] == t[..n + 1][1..];
    }
  }

  lemma OperandMeans(k: Config, u: User, rank: Rank, o: Operand)
    ensures var v := OperandValue(k, u, o, Values(k, u, rank)).v;
      AsNumber(k, o, v) == NumberOf(k, u, rank, o) && AsText(k, o, v) == TextOf(k, u, rank, o)
  {
    hide ItemValue; hide ItemMeans;
    if o.Ref? { ItemMeansIs(k, u, rank, o.i); }
  }

  lemma CompareMeans(k: Config, u: User, rank: Rank, e: Cond)
    requires e.Compare?
    ensures Eval(k, u, e, Values(k, u, rank)).v == Means(k, u, rank, e)
  {
    hide OperandValue; hide AsNumber; hide AsText; hide NumberOf; hide TextOf; hide StrCmp; hide Before; hide Values;
    OperandMeans(k, u, rank, e.x);
    OperandMeans(k, u, rank, e.y);
    var s, t := TextOf(k, u, rank, e.x), TextOf(k, u, rank, e.y);
    DictionaryOrder(s, t);
    StrCmpIs(s, t);
  }

  lemma StrCmpIs(s: string, t: string)
    ensures StrCmp(s, t) == 0 <==> s == t
  {}

  /** expr_value, short cuts and caches included, gives the meaning. */
  lemma {:induction false} EvalMeans(k: Config, u: User, rank: Rank, e: Cond)
    ensures Eval(k, u, e, Values(k, u, rank)).v == Means(k, u, rank, e) && IsTri(Means(k, u, rank, e))
  {
    hide ItemValue; hide ItemMeans; hide Values; hide IsLess; hide IsSame; hide OperandValue; hide Compared; hide Holds;
    match e
    case Const(_) =>
    case Item(i) => ItemMeansIs(k, u, rank, i);
    case Neg(x) => EvalMeans(k, u, rank, x);
    case Both(a, b) => EvalMeans(k, u, rank, a); EvalMeans(k, u, rank, b);
    case Either(a, b) => EvalMeans(k, u, rank, a); EvalMeans(k, u, rank, b);
    case Compare(_, _, _) => CompareMeans(k, u, rank, e);
  }

  // ---- parsed expressions -------------------------------------------------------------------------

  /** A parsed expression as a condition; `name` and `num` spell the symbols. */
  function CondOf(e: KconfigExpr.Expr, name: int -> string, num: int -> Number): Cond {
    match e
    case Sym(s) => Item(s)
    case Rel(op, l, r) => Compare(op, Ref(l, name(l), num(l)), Ref(r, name(r), num(r)))
    case Not(x) => Neg(CondOf(x, name, num))
    case And(a, b) => Both(CondOf(a, name, num), CondOf(b, name, num))
    case Or(a, b) => Either(CondOf(a, name, num), CondOf(b, name, num))
  }

  ghost function TriOf(k: Config, u: User, rank: Rank, i: int): Tri {
    ItemMeansIs(k, u, rank, i);
    ItemMeans(k, u, rank, i)
  }

  ghost function Order(k: Config, u: User, rank: Rank, x: Operand, y: Operand): int {
    if IsLess(k, u, rank, x, y) then -1 else if IsSame(k, u, rank, x, y) then 0 else 1
  }

  /** The values of a configuration as an assignment to the symbols of parsed expressions. */
  ghost function Assignment(k: Config, u: User, rank: Rank, name: int -> string, num: int -> Number): KconfigExpr.Env {
    KconfigExpr.Env((i: int) => TriOf(k, u, rank, i),
      (l: int, r: int) => Order(k, u, rank, Ref(l, name(l), num(l)), Ref(r, name(r), num(r))))
  }

  lemma RelationMeans(k: Config, u: User, rank: Rank, op: KconfigExpr.RelOp, x: Operand, y: Operand)
    ensures KconfigExpr.Related(op, Order(k, u, rank, x, y)) <==> Holds(op, IsLess(k, u, rank, x, y), IsSame(k, u, rank, x, y))
  {
    hide NumberOf; hide TextOf; hide Before;
    var s, t := TextOf(k, u, rank, x), TextOf(k, u, rank, y);
    DictionaryOrder(s, t);
    StrCmpIs(s, t);
  }

  /** The value of a parsed expression is what the condition made of it means. */
  lemma {:induction false} ParsedMeans(k: Config, u: User, rank: Rank, e: KconfigExpr.Expr, name: int -> string, num: int -> Number)
    ensures KconfigExpr.Value(e, Assignment(k, u, rank, name, num)) == Means(k, u, rank, CondOf(e, name, num))
  {
    hide ItemMeans; hide IsLess; hide IsSame; hide Order; hide Holds; hide KconfigExpr.Related;
    match e
    case Sym(_) =>
    case Rel(op, l, r) => RelationMeans(k, u, rank, op, Ref(l, name(l), num(l)), Ref(r, name(r), num(r)));
    case Not(x) => ParsedMeans(k, u, rank, x, name, num);
    case And(a, b) => ParsedMeans(k, u, rank, a, name, num); ParsedMeans(k, u, rank, b, name, num); MeansTri(k, u, rank, b, name, num);
    case Or(a, b) => ParsedMeans(k, u, rank, a, name, num); ParsedMeans(k, u, rank, b, name, num); MeansTri(k, u, rank, b, name, num);
  }

  lemma MeansTri(k: Config, u: User, rank: Rank, e: KconfigExpr.Expr, name: int -> string, num: int -> Number)
    ensures IsTri(Means(k, u, rank, CondOf(e, name, num)))
  {
    EvalMeans(k, u, rank, CondOf(e, name, num));
  }

  // ---- visibility ---------------------------------------------------------------------------------

  /** `v` is the greatest value of the prompt conditions, n without a prompt. */
  ghost predicate Greatest(k: Config, u: User, rank: Rank, ps: seq<Cond>, v: int) {
    && (forall n :: 0 <= n < |ps| ==> Means(k, u, rank, ps[n]) <= v)
    && (v == 0 || exists n :: 0 <= n < |ps| && Means(k, u, rank, ps[n]) == v)
  }

  lemma {:induction false} PromptsMean(k: Config, u: User, rank: Rank, ps: seq<Cond>)
    ensures var v := Prompts(k, u, ps, Values(k, u, rank)).v; Greatest(k, u, rank, ps, v) && IsTri(v)
  {
    hide Eval; hide Means; hide Values;
    if ps != [] {
      EvalMeans(k, u, rank, ps[0]);
      PromptsMean(k, u, rank, ps[1..]);
      GreatestNext(k, u, rank, ps, Prompts(k, u, ps[1..], Values(k, u, rank)).v);
    }
  }

  lemma GreatestNext(k: Config, u: User, rank: Rank, ps: seq<Cond>, v: int)
    requires ps != [] && Greatest(k, u, rank, ps[1..], v) && 0 <= v
    ensures Greatest(k, u, rank, ps, Most(Means(k, u, rank, ps[0]), v))
  {
    hide Means;
    var m := Most(Means(k, u, rank, ps[0]), v);
    forall n | 0 <= n < |ps| ensures Means(k, u, rank, ps[n]) <= m { if n > 0 { assert ps[n] == ps[1..][n - 1]; } }
    if m != 0 && m == v {
      var n :| 0 <= n < |ps[1..]| && Means(k, u, rank, ps[1..][n]) == v;
      assert ps[n + 1] == ps[1..][n];
    }
  }

  /** A symbol of a choice that is bool while the choice is a tristate shows only in y mode; one that is
      a tristate and would show as m does not show in y mode. */
  ghost predicate HiddenByChoice(k: Config, u: User, rank: Rank, x: Entry, v: int) {
    && x.Symbol? && IsChoice(k, x.choice)
    && var mode := ModeValue(k, u, rank, x.choice);
      (!k.items[x.choice].bool_ && x.bool_ && mode != 2) || (!x.bool_ && v == 1 && mode == 2)
  }

  /** The visibility of an item is the greatest value of its prompt conditions, as far as its choice lets
      it show; m is y where it is not a tristate. */
  lemma VisibilityMeans(k: Config, u: User, rank: Rank, i: int) returns (v: int)
    requires Acyclic(k, rank) && UserOk(k, u) && i in k.items
    ensures Greatest(k, u, rank, k.items[i].prompts, v)
    ensures Value(k, u, rank, Vis(i)) ==
      if HiddenByChoice(k, u, rank, k.items[i], v) then 0 else Promoted(v, TristateNow(k, u, rank, k.items[i]))
  {
    ValueIsStep(k, u, rank, Vis(i));
    hide Acyclic; hide UserOk; hide Value; hide Prompts; hide Mode; hide Greatest; hide ModeValue;
    var x := k.items[i];
    PromptsMean(k, u, rank, x.prompts);
    v := Prompts(k, u, x.prompts, Values(k, u, rank)).v;
    if x.Symbol? && IsChoice(k, x.choice) { ModeMeans(k, u, rank, x.choice); }
  }

  // ---- symbols outside choices ----------------------------------------------------------------------

  /** Default `n` is the first whose condition is met. */
  ghost predicate FirstMet(k: Config, u: User, rank: Rank, ds: seq<(Cond, Cond)>, n: nat) {
    && n < |ds| && Means(k, u, rank, ds[n].1) != 0
    && forall m :: 0 <= m < n ==> Means(k, u, rank, ds[m].1) == 0
  }

  /** `v` is the value of the first default whose condition is met, as far as the condition goes, or n. */
  ghost predicate DefaultValue(k: Config, u: User, rank: Rank, ds: seq<(Cond, Cond)>, v: int) {
    || (v == 0 && forall n :: 0 <= n < |ds| ==> Means(k, u, rank, ds[n].1) == 0)
    || exists n: nat :: FirstMet(k, u, rank, ds, n) && v == Least(Means(k, u, rank, ds[n].0), Means(k, u, rank, ds[n].1))
  }

  lemma {:induction false} DefaultsMean(k: Config, u: User, rank: Rank, ds: seq<(Cond, Cond)>)
    ensures var v := Defaults(k, u, ds, Values(k, u, rank)).v; DefaultValue(k, u, rank, ds, v) && IsTri(v)
  {
    hide Eval; hide Means; hide Values;
    if ds != [] {
      EvalMeans(k, u, rank, ds[0].0);
      EvalMeans(k, u, rank, ds[0].1);
      if Means(k, u, rank, ds[0].1) != 0 {
        assert FirstMet(k, u, rank, ds, 0);
      } else {
        DefaultsMean(k, u, rank, ds[1..]);
        DefaultNext(k, u, rank, ds, Defaults(k, u, ds[1..], Values(k, u, rank)).v);
      }
    }
  }

  lemma DefaultNext(k: Config, u: User, rank: Rank, ds: seq<(Cond, Cond)>, v: int)
    requires ds != [] && Means(k, u, rank, ds[0].1) == 0 && DefaultValue(k, u, rank, ds[1..], v)
    ensures DefaultValue(k, u, rank, ds, v)
  {
    hide Means; hide Least;
    assert forall n :: 0 < n < |ds| ==> ds[n] == ds[1..][n - 1];
    if n: nat :| FirstMet(k, u, rank, ds[1..], n) && v == Least(Means(k, u, rank, ds[1..][n].0), Means(k, u, rank, ds[1..][n].1)) {
      assert ds[n + 1] == ds[1..][n];
      assert FirstMet(k, u, rank, ds, n + 1);
    }
  }

  /** What a symbol has before selects: the user's value as far as the symbol is visible, or its default
      `d`, raised by an imply if its dependencies are met. */
  ghost function BaseValue(k: Config, u: User, rank: Rank, i: int, d: int): int
    requires IsSymbol(k, i)
  {
    var s, vis := k.items[i], Value(k, u, rank, Vis(i));
    if vis != 0 && i in u.value then Least(u.value[i], vis)
    else if Means(k, u, rank, s.weakRevDep) != 0 && Means(k, u, rank, s.directDep) != 0 then Most(Means(k, u, rank, s.weakRevDep), d)
    else d
  }

  /** m is y for a symbol that is not a tristate and for one with an imply of y. */
  ghost function Settled(k: Config, u: User, rank: Rank, i: int, v: int): int
    requires IsSymbol(k, i)
  {
    Promoted(v, TristateNow(k, u, rank, k.items[i]) && Means(k, u, rank, k.items[i].weakRevDep) != 2)
  }

  lemma FallbackMeans(k: Config, u: User, rank: Rank, i: int)
    requires IsSymbol(k, i)
    ensures var s := k.items[i]; var d := Defaults(k, u, s.defaults, Values(k, u, rank)).v;
      && DefaultValue(k, u, rank, s.defaults, d)
      && (Value(k, u, rank, Vis(i)) == 0 || i !in u.value ==> Fallback(k, u, s, Values(k, u, rank)).v == BaseValue(k, u, rank, i, d))
  {
    hide Eval; hide Means; hide Defaults; hide DefaultValue; hide Value;
    var s := k.items[i];
    DefaultsMean(k, u, rank, s.defaults);
    EvalMeans(k, u, rank, s.weakRevDep);
    EvalMeans(k, u, rank, s.directDep);
  }

  lemma SelectedMeans(k: Config, u: User, rank: Rank, s: Entry, v: int)
    requires s.Symbol? && v >= 0
    ensures Selected(k, u, s, v, Values(k, u, rank)).v == Most(Means(k, u, rank, s.revDep), v)
  {
    hide Eval; hide Means; hide Values;
    EvalMeans(k, u, rank, s.revDep);
  }

  lemma PromoteMeans(k: Config, u: User, rank: Rank, i: int, v: int)
    requires IsSymbol(k, i)
    ensures PromoteTri(k, u, k.items[i], v, Values(k, u, rank)).v == Settled(k, u, rank, i, v)
  {
    hide Eval; hide Means; hide Value;
    EvalMeans(k, u, rank, k.items[i].weakRevDep);
  }

  lemma PlainMeans(k: Config, u: User, rank: Rank, i: int)
    requires IsSymbol(k, i)
    ensures var d := Defaults(k, u, k.items[i].defaults, Values(k, u, rank)).v;
      && DefaultValue(k, u, rank, k.items[i].defaults, d)
      && PlainStep(k, u, i, Values(k, u, rank)).v == Settled(k, u, rank, i, Most(Means(k, u, rank, k.items[i].revDep), BaseValue(k, u, rank, i, d)))
  {
    hide Selected; hide PromoteTri; hide Fallback; hide Defaults; hide DefaultValue; hide Settled; hide Means; hide Value; hide Most;
    var s, env := k.items[i], Values(k, u, rank);
    var d := Defaults(k, u, s.defaults, env).v;
    FallbackMeans(k, u, rank, i);
    ValueTri(k, u, rank, Vis(i));
    BaseTri(k, u, rank, i, d);
    var b := BaseValue(k, u, rank, i, d);
    SelectedMeans(k, u, rank, s, b);
    PromoteMeans(k, u, rank, i, Most(Means(k, u, rank, s.revDep), b));
  }

  lemma BaseTri(k: Config, u: User, rank: Rank, i: int, d: int)
    requires IsSymbol(k, i) && DefaultValue(k, u, rank, k.items[i].defaults, d)
    ensures IsTri(BaseValue(k, u, rank, i, d))
  {
    hide Means; hide Value; hide DefaultValue;
    DefaultTri(k, u, rank, k.items[i].defaults, d);
    ValueTri(k, u, rank, Vis(i));
    EvalMeans(k, u, rank, k.items[i].weakRevDep);
  }

  /** The value of a symbol outside choices. */
  lemma SymbolMeans(k: Config, u: User, rank: Rank, i: int) returns (d: int)
    requires Acyclic(k, rank) && UserOk(k, u) && IsSymbol(k, i) && !IsChoice(k, k.items[i].choice)
    ensures DefaultValue(k, u, rank, k.items[i].defaults, d)
    ensures Value(k, u, rank, TriVal(i)) ==
      Settled(k, u, rank, i, Most(Means(k, u, rank, k.items[i].revDep), BaseValue(k, u, rank, i, d)))
  {
    hide Acyclic; hide UserOk; hide Value; hide PlainStep; hide Means; hide Defaults; hide DefaultValue; hide Settled; hide BaseValue;
    ValueIsStep(k, u, rank, TriVal(i));
    PlainMeans(k, u, rank, i);
    d := Defaults(k, u, k.items[i].defaults, Values(k, u, rank)).v;
  }

  /** A select is never ignored, whatever the user or the defaults say. */
  lemma AtLeastSelected(k: Config, u: User, rank: Rank, i: int)
    requires Acyclic(k, rank) && UserOk(k, u) && IsSymbol(k, i) && !IsChoice(k, k.items[i].choice)
    ensures Value(k, u, rank, TriVal(i)) >= Means(k, u, rank, k.items[i].revDep)
  {
    hide Acyclic; hide UserOk; hide Value; hide Means; hide BaseValue; hide TristateNow;
    var d := SymbolMeans(k, u, rank, i);
  }

  /** What the user sets a visible symbol to is its value, as far as it is visible, if nothing selects it. */
  lemma UserValueStands(k: Config, u: User, rank: Rank, i: int)
    requires Acyclic(k, rank) && UserOk(k, u) && IsSymbol(k, i) && !IsChoice(k, k.items[i].choice)
    requires i in u.value && Value(k, u, rank, Vis(i)) != 0 && Means(k, u, rank, k.items[i].revDep) == 0
    ensures Value(k, u, rank, TriVal(i)) == Settled(k, u, rank, i, Least(u.value[i], Value(k, u, rank, Vis(i))))
  {
    ValueTri(k, u, rank, Vis(i));
    hide Acyclic; hide UserOk; hide Value; hide Means; hide Settled;
    var d := SymbolMeans(k, u, rank, i);
  }

  /** A symbol that is invisible or unset, and not selected, has its default or, with its dependencies
      met, an imply that is greater. */
  lemma DefaultStands(k: Config, u: User, rank: Rank, i: int) returns (d: int)
    requires Acyclic(k, rank) && UserOk(k, u) && IsSymbol(k, i) && !IsChoice(k, k.items[i].choice)
    requires i !in u.value || Value(k, u, rank, Vis(i)) == 0
    requires Means(k, u, rank, k.items[i].revDep) == 0
    ensures DefaultValue(k, u, rank, k.items[i].defaults, d)
    ensures Value(k, u, rank, TriVal(i)) == Settled(k, u, rank, i,
      Most(d, if Means(k, u, rank, k.items[i].directDep) != 0 then Means(k, u, rank, k.items[i].weakRevDep) else 0))
  {
    hide Acyclic; hide UserOk; hide Value; hide Means; hide Settled; hide DefaultValue; hide Defaults;
    d := SymbolMeans(k, u, rank, i);
    EvalMeans(k, u, rank, k.items[i].weakRevDep);
    DefaultTri(k, u, rank, k.items[i].defaults, d);
  }

  lemma DefaultTri(k: Config, u: User, rank: Rank, ds: seq<(Cond, Cond)>, v: int)
    requires DefaultValue(k, u, rank, ds, v)
    ensures IsTri(v)
  {
    hide Means;
    if n: nat :| FirstMet(k, u, rank, ds, n) && v == Least(Means(k, u, rank, ds[n].0), Means(k, u, rank, ds[n].1)) {
      EvalMeans(k, u, rank, ds[n].0);
      EvalMeans(k, u, rank, ds[n].1);
    }
  }

  // ---- choices ----------------------------------------------------------------------------------

  /** In a y-mode choice a symbol is either fully visible or not at all. */
  lemma VisInYMode(k: Config, u: User, rank: Rank, s: int)
    requires Acyclic(k, rank) && UserOk(k, u) && IsSymbol(k, s) && IsChoice(k, k.items[s].choice)
    requires ModeValue(k, u, rank, k.items[s].choice) == 2
    ensures Value(k, u, rank, Vis(s)) == 0 || Value(k, u, rank, Vis(s)) == 2
  {
    ValueTri(k, u, rank, Vis(s));
    ValueIsStep(k, u, rank, Vis(s));
    hide Acyclic; hide UserOk; hide Value; hide Prompts; hide Mode;
  }

  lemma {:induction false} FirstDefaultVisible(k: Config, u: User, ds: seq<(int, Cond)>, env: Lookup)
    ensures var r := FirstDefault(k, u, ds, env).v;
      r != NONE ==> env(Vis(r)) != 0 && exists n :: 0 <= n < |ds| && ds[n].0 == r
  {
    hide Eval;
    if ds != [] {
      FirstDefaultVisible(k, u, ds[1..], env);
      var r := FirstDefault(k, u, ds[1..], env).v;
      if r != NONE {
        var n :| 0 <= n < |ds[1..]| && ds[1..][n].0 == r;
        assert ds[n + 1].0 == r;
      }
      assert ds[0].0 == ds[0].0;
    }
  }

  lemma {:induction false} FirstVisibleVisible(syms: seq<int>, env: Lookup)
    requires NONE !in syms
    ensures var r := FirstVisible(syms, env).v;
      && (r != NONE ==> env(Vis(r)) != 0 && r in syms)
      && (r == NONE <==> forall s :: s in syms ==> env(Vis(s)) == 0)
  {
    if syms != [] {
      assert syms == [syms[0]] + syms[1..];
      FirstVisibleVisible(syms[1..], env);
    }
  }

  /** The selection of a choice is one of its visible symbols; there is none exactly if the choice is
      not in y mode or has no visible symbol. */
  lemma SelectionVisible(k: Config, u: User, rank: Rank, c: int)
    requires WellFormed(k) && Acyclic(k, rank) && UserOk(k, u) && IsChoice(k, c)
    ensures var r := Value(k, u, rank, Sel(c));
      && (r != NONE ==> r in k.items[c].syms && Value(k, u, rank, Vis(r)) != 0)
      && (r == NONE <==> ModeValue(k, u, rank, c) != 2 || forall s :: s in k.items[c].syms ==> Value(k, u, rank, Vis(s)) == 0)
  {
    ValueIsStep(k, u, rank, Sel(c));
    NoneIsNoSymbol(k, c);
    hide Acyclic; hide Value; hide Mode; hide FirstDefault; hide FirstVisible;
    FirstDefaultVisible(k, u, k.items[c].selections, Values(k, u, rank));
    FirstVisibleVisible(k.items[c].syms, Values(k, u, rank));
  }

  lemma NoneIsNoSymbol(k: Config, c: int)
    requires WellFormed(k) && IsChoice(k, c)
    ensures NONE !in k.items[c].syms
  {
    assert NONE in k.items[c].syms ==> IsSymbol(k, NONE);
  }

  /** Default selection `n` is the first whose condition is met and whose symbol is visible. */
  ghost predicate FirstSelectable(k: Config, u: User, rank: Rank, ds: seq<(int, Cond)>, n: nat) {
    && n < |ds| && Selectable(k, u, rank, ds[n])
    && forall m :: 0 <= m < n ==> !Selectable(k, u, rank, ds[m])
  }

  ghost predicate Selectable(k: Config, u: User, rank: Rank, d: (int, Cond)) {
    Means(k, u, rank, d.1) != 0 && Value(k, u, rank, Vis(d.0)) != 0
  }

  ghost predicate FirstShown(k: Config, u: User, rank: Rank, syms: seq<int>, n: nat) {
    && n < |syms| && Value(k, u, rank, Vis(syms[n])) != 0
    && forall m :: 0 <= m < n ==> Value(k, u, rank, Vis(syms[m])) == 0
  }

  /** `r` is the symbol of the first default selection that can be, or NONE. */
  ghost predicate DefaultSelection(k: Config, u: User, rank: Rank, ds: seq<(int, Cond)>, r: int) {
    || (r == NONE && forall n :: 0 <= n < |ds| ==> !Selectable(k, u, rank, ds[n]))
    || exists n: nat :: FirstSelectable(k, u, rank, ds, n) && r == ds[n].0
  }

  ghost predicate ShownSelection(k: Config, u: User, rank: Rank, syms: seq<int>, r: int) {
    || (r == NONE && forall n :: 0 <= n < |syms| ==> Value(k, u, rank, Vis(syms[n])) == 0)
    || exists n: nat :: FirstShown(k, u, rank, syms, n) && r == syms[n]
  }

  lemma {:induction false} FirstDefaultMeans(k: Config, u: User, rank: Rank, ds: seq<(int, Cond)>)
    ensures DefaultSelection(k, u, rank, ds, FirstDefault(k, u, ds, Values(k, u, rank)).v)
  {
    hide Eval; hide Means; hide Value;
    if ds != [] {
      EvalMeans(k, u, rank, ds[0].1);
      if Selectable(k, u, rank, ds[0]) {
        assert FirstSelectable(k, u, rank, ds, 0);
      } else {
        FirstDefaultMeans(k, u, rank, ds[1..]);
        SelectableNext(k, u, rank, ds, FirstDefault(k, u, ds[1..], Values(k, u, rank)).v);
      }
    }
  }

  lemma SelectableNext(k: Config, u: User, rank: Rank, ds: seq<(int, Cond)>, r: int)
    requires ds != [] && !Selectable(k, u, rank, ds[0]) && DefaultSelection(k, u, rank, ds[1..], r)
    ensures DefaultSelection(k, u, rank, ds, r)
  {
    hide Selectable;
    assert forall n :: 0 < n < |ds| ==> ds[n] == ds[1..][n - 1];
    if n: nat :| FirstSelectable(k, u, rank, ds[1..], n) && r == ds[1..][n].0 {
      assert FirstSelectable(k, u, rank, ds, n + 1);
    }
  }

  lemma {:induction false} FirstVisibleMeans(k: Config, u: User, rank: Rank, syms: seq<int>)
    ensures ShownSelection(k, u, rank, syms, FirstVisible(syms, Values(k, u, rank)).v)
  {
    hide Value;
    if syms != [] {
      if Value(k, u, rank, Vis(syms[0])) != 0 {
        assert FirstShown(k, u, rank, syms, 0);
      } else {
        FirstVisibleMeans(k, u, rank, syms[1..]);
        ShownNext(k, u, rank, syms, FirstVisible(syms[1..], Values(k, u, rank)).v);
      }
    }
  }

  lemma ShownNext(k: Config, u: User, rank: Rank, syms: seq<int>, r: int)
    requires syms != [] && Value(k, u, rank, Vis(syms[0])) == 0 && ShownSelection(k, u, rank, syms[1..], r)
    ensures ShownSelection(k, u, rank, syms, r)
  {
    hide Value;
    assert forall n :: 0 < n < |syms| ==> syms[n] == syms[1..][n - 1];
    if n: nat :| FirstShown(k, u, rank, syms[1..], n) && r == syms[1..][n] {
      assert FirstShown(k, u, rank, syms, n + 1);
    }
  }

  /** The selection of a y-mode choice is the user's if that is visible, otherwise the first default
      selection that can be, otherwise the first visible symbol. */
  lemma SelectionMeans(k: Config, u: User, rank: Rank, c: int) returns (d: int)
    requires WellFormed(k) && Acyclic(k, rank) && UserOk(k, u) && IsChoice(k, c) && ModeValue(k, u, rank, c) == 2
    ensures DefaultSelection(k, u, rank, k.items[c].selections, d)
    ensures var r := Value(k, u, rank, Sel(c));
      if c in u.selection && Value(k, u, rank, Vis(u.selection[c])) != 0 then r == u.selection[c]
      else if d != NONE then r == d
      else ShownSelection(k, u, rank, k.items[c].syms, r)
  {
    ValueIsStep(k, u, rank, Sel(c));
    ModeMeans(k, u, rank, c);
    hide Acyclic; hide Value; hide Mode; hide FirstDefault; hide FirstVisible; hide ModeValue; hide WellFormed; hide UserOk; hide DefaultSelection; hide ShownSelection;
    d := FirstDefault(k, u, k.items[c].selections, Values(k, u, rank)).v;
    FirstDefaultMeans(k, u, rank, k.items[c].selections);
    FirstVisibleMeans(k, u, rank, k.items[c].syms);
  }

  /** A symbol of a choice: y or n by the selection where it is fully visible; m where it shows as m and
      the user set it; n otherwise. */
  lemma MemberMeans(k: Config, u: User, rank: Rank, s: int)
    requires Acyclic(k, rank) && UserOk(k, u) && IsSymbol(k, s) && IsChoice(k, k.items[s].choice)
    ensures var vis := Value(k, u, rank, Vis(s));
      Value(k, u, rank, TriVal(s)) ==
        if vis == 2 then (if Value(k, u, rank, Sel(k.items[s].choice)) == s then 2 else 0)
        else if vis == 1 && s in u.value && u.value[s] != 0 then 1 else 0
  {
    ValueIsStep(k, u, rank, TriVal(s));
    ValueTri(k, u, rank, Vis(s));
    hide Acyclic; hide Value; hide UserOk;
  }

  /** In a y-mode choice exactly the selection is y and every other symbol n. */
  lemma ChoiceIsExclusive(k: Config, u: User, rank: Rank, c: int, s: int)
    requires WellFormed(k) && Acyclic(k, rank) && UserOk(k, u) && IsChoice(k, c) && s in k.items[c].syms
    requires ModeValue(k, u, rank, c) == 2
    ensures Value(k, u, rank, TriVal(s)) == if Value(k, u, rank, Sel(c)) == s then 2 else 0
  {
    assert IsSymbol(k, s) && k.items[s].choice == c;
    SelectionVisible(k, u, rank, c);
    VisInYMode(k, u, rank, s);
    ValueIsStep(k, u, rank, TriVal(s));
    hide Acyclic; hide Value; hide Mode; hide WellFormed; hide UserOk;
  }
}
