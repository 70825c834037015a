/** Lazily cached values of bool and tristate symbols and of choices, and their invalidation
    (tools/kconfiglib.py). */
module KconfigCache {
  import KconfigExpr

  type Tri = KconfigExpr.Tri

  // ---- the configuration --------------------------------------------------------------------

  /** Conditions over symbols and choices. */
  datatype Cond =
    | Const(v: Tri)
    | Item(i: int)
    | Neg(e: Cond)
    | Both(a: Cond, b: Cond)
    | Either(a: Cond, b: Cond)
    | Compare(op: KconfigExpr.RelOp, x: Operand, y: Operand)

  /** What a relation compares: one of the constants n, m and y, or a symbol. A symbol that is not
      defined, as every other constant, has its name for its value. */
  datatype Operand = Lit(v: Tri) | Ref(i: int, name: string, num: Number)

  /** What the name says as a number, if it does. */
  datatype Number = NotNumber | Number(n: int)

  datatype Entry =
    | Symbol(
        bool_: bool,                     // orig_type is BOOL, otherwise TRISTATE
        prompts: seq<Cond>,              // the conditions of its prompts
        defaults: seq<(Cond, Cond)>,     // value and condition
        revDep: Cond,
        weakRevDep: Cond,
        directDep: Cond,
        choice: int)                     // the choice it is in, or NONE
    | Choice(
        bool_: bool,
        prompts: seq<Cond>,
        selections: seq<(int, Cond)>,    // default symbol and condition
        syms: seq<int>,
        optional: bool)

  const NONE := -1

  datatype Config = Config(items: map<int, Entry>, modules: int)

  /** What the user has set. */
  datatype User = User(value: map<int, Tri>, selection: map<int, int>)

  /** The cached attributes: _cached_vis, _cached_tri_val, _cached_selection. */
  datatype Cell = Vis(i: int) | TriVal(i: int) | Sel(i: int)

  type Lookup = Cell -> int

  /** A computed value and the cells that were read to compute it. */
  datatype Out = Out(v: int, used: set<Cell>)

  function Lo(a: int, b: int): int {
    if a <= b then a else b
  }

  function Hi(a: int, b: int): int {
    if a >= b then a else b
  }

  predicate IsSymbol(k: Config, i: int) {
    i in k.items && k.items[i].Symbol?
  }

  predicate IsChoice(k: Config, i: int) {
    i in k.items && k.items[i].Choice?
  }

  // ---- one evaluation step ------------------------------------------------------------------

  /** The tri_value of MODULES; an undefined symbol is n. */
  function Modules(k: Config, env: Lookup): Out {
    if IsSymbol(k, k.modules) then Out(env(TriVal(k.modules)), {TriVal(k.modules)}) else Out(0, {})
  }

  /** Choice.tri_value, which is not cached. */
  function Mode(k: Config, u: User, c: int, env: Lookup): Out
    requires IsChoice(k, c)
  {
    var base := if k.items[c].optional then 0 else 1;
    var val := Lo(if c in u.value then Hi(base, u.value[c]) else base, env(Vis(c)));
    if val != 1 then Out(val, {Vis(c)})
    else if k.items[c].bool_ then Out(2, {Vis(c)})
    else
      var m := Modules(k, env);
      Out(if m.v == 0 then 2 else 1, {Vis(c)} + m.used)
  }

  function ItemValue(k: Config, u: User, i: int, env: Lookup): Out {
    if IsSymbol(k, i) then Out(env(TriVal(i)), {TriVal(i)})
    else if IsChoice(k, i) then Mode(k, u, i, env)
    else Out(0, {})
  }

  function OperandValue(k: Config, u: User, o: Operand, env: Lookup): Out {
    match o
    case Lit(v) => Out(v, {})
    case Ref(i, _, _) => ItemValue(k, u, i, env)
  }

  /** _sym_to_num of an operand whose tri_value is `v`. */
  function AsNumber(k: Config, o: Operand, v: int): Number {
    if o.Lit? || o.i in k.items then Number(v) else o.num
  }

  /** str_value of an operand whose tri_value is `v`. */
  function AsText(k: Config, o: Operand, v: int): string {
    if o.Ref? && o.i !in k.items then o.name else if v == 0 then "n" else if v == 1 then "m" else "y"
  }

  function StrCmp(s: string, t: string): (r: int)
    ensures -1 <= r <= 1 && (r == 0 <==> s == t)
  {
    if s == [] || t == [] then (if s != [] then 1 else 0) - (if t != [] then 1 else 0)
    else if s[0] != t[0] then (if s[0] > t[0] then 1 else -1)
    else
      assert s == [s[0]] + s[1..] && t == [t[0]] + t[1..];
      StrCmp(s[1..], t[1..])
  }

  /** Operands compare as numbers if both are numbers, and as strings otherwise. */
  function Compared(k: Config, x: Operand, vx: int, y: Operand, vy: int): int {
    var m, n := AsNumber(k, x, vx), AsNumber(k, y, vy);
    if m.Number? && n.Number? then m.n - n.n else StrCmp(AsText(k, x, vx), AsText(k, y, vy))
  }

  /** expr_value, with its short cuts. */
  function Eval(k: Config, u: User, e: Cond, env: Lookup): Out {
    match e
    case Const(v) => Out(v, {})
    case Item(i) => ItemValue(k, u, i, env)
    case Neg(x) => var r := Eval(k, u, x, env); Out(2 - r.v, r.used)
    case Both(a, b) =>
      var ra := Eval(k, u, a, env);
      if ra.v == 0 then Out(0, ra.used)
      else var rb := Eval(k, u, b, env); Out(Lo(ra.v, rb.v), ra.used + rb.used)
    case Either(a, b) =>
      var ra := Eval(k, u, a, env);
      if ra.v == 2 then Out(2, ra.used)
      else var rb := Eval(k, u, b, env); Out(Hi(ra.v, rb.v), ra.used + rb.used)
    case Compare(op, x, y) =>
      var rx, ry := OperandValue(k, u, x, env), OperandValue(k, u, y, env);
      Out(if KconfigExpr.Related(op, Compared(k, x, rx.v, y, ry.v)) then 2 else 0, rx.used + ry.used)
  }

  function Prompts(k: Config, u: User, ps: seq<Cond>, env: Lookup): Out {
    if ps == [] then Out(0, {})
    else
      var r, rest := Eval(k, u, ps[0], env), Prompts(k, u, ps[1..], env);
      Out(Hi(r.v, rest.v), r.used + rest.used)
  }

  /** A symbol in a choice may be hidden by the mode of the choice. */
  function Hidden(k: Config, u: User, s: Entry, vis: int, env: Lookup): Out
    requires s.Symbol?
  {
    if !IsChoice(k, s.choice) then Out(0, {})
    else if !k.items[s.choice].bool_ && s.bool_ then
      var m := Mode(k, u, s.choice, env);
      Out(if m.v != 2 then 1 else 0, m.used)
    else if !s.bool_ && vis == 1 then
      var m := Mode(k, u, s.choice, env);
      Out(if m.v == 2 then 1 else 0, m.used)
    else Out(0, {})
  }

  /** m visibility becomes y for everything that is not a tristate at the moment. */
  function PromoteVis(k: Config, bool_: bool, vis: int, env: Lookup): Out {
    if vis != 1 then Out(vis, {})
    else if bool_ then Out(2, {})
    else var m := Modules(k, env); Out(if m.v == 0 then 2 else 1, m.used)
  }

  /** _visibility. */
  function VisStep(k: Config, u: User, i: int, env: Lookup): Out
    requires i in k.items
  {
    var x := k.items[i];
    var p := Prompts(k, u, x.prompts, env);
    var h := if x.Symbol? then Hidden(k, u, x, p.v, env) else Out(0, {});
    if h.v != 0 then Out(0, p.used + h.used)
    else
      var r := PromoteVis(k, x.bool_, p.v, env);
      Out(r.v, p.used + h.used + r.used)
  }

  function Defaults(k: Config, u: User, ds: seq<(Cond, Cond)>, env: Lookup): Out {
    if ds == [] then Out(0, {})
    else
      var c := Eval(k, u, ds[0].1, env);
      if c.v != 0 then
        var d := Eval(k, u, ds[0].0, env);
        Out(Lo(d.v, c.v), c.used + d.used)
      else
        var rest := Defaults(k, u, ds[1..], env);
        Out(rest.v, c.used + rest.used)
  }

  /** Defaults and weak reverse dependencies. */
  function Fallback(k: Config, u: User, s: Entry, env: Lookup): Out
    requires s.Symbol?
  {
    var d := Defaults(k, u, s.defaults, env);
    var w := Eval(k, u, s.weakRevDep, env);
    if w.v == 0 then Out(d.v, d.used + w.used)
    else
      var dd := Eval(k, u, s.directDep, env);
      Out(if dd.v != 0 then Hi(w.v, d.v) else d.v, d.used + w.used + dd.used)
  }

  /** Reverse dependencies. */
  function Selected(k: Config, u: User, s: Entry, val: int, env: Lookup): Out
    requires s.Symbol?
  {
    var r := Eval(k, u, s.revDep, env);
    if r.v == 0 then Out(val, r.used)
    else Out(Hi(r.v, val), r.used + Eval(k, u, s.directDep, env).used)
  }

  function PromoteTri(k: Config, u: User, s: Entry, val: int, env: Lookup): Out
    requires s.Symbol?
  {
    if val != 1 then Out(val, {})
    else if s.bool_ then Out(2, {})
    else
      var m := Modules(k, env);
      if m.v == 0 then Out(2, m.used)
      else var w := Eval(k, u, s.weakRevDep, env); Out(if w.v == 2 then 2 else 1, m.used + w.used)
  }

  /** Symbol.tri_value of a symbol outside choices. */
  function PlainStep(k: Config, u: User, i: int, env: Lookup): Out
    requires IsSymbol(k, i)
  {
    var s, vis := k.items[i], env(Vis(i));
    var b := if vis != 0 && i in u.value then Out(Lo(u.value[i], vis), {}) else Fallback(k, u, s, env);
    var r := Selected(k, u, s, b.v, env);
    var p := PromoteTri(k, u, s, r.v, env);
    Out(p.v, {Vis(i)} + b.used + r.used + p.used)
  }

  /** Symbol.tri_value. */
  function TriStep(k: Config, u: User, i: int, env: Lookup): Out
    requires IsSymbol(k, i)
  {
    var s, vis := k.items[i], env(Vis(i));
    if !IsChoice(k, s.choice) then PlainStep(k, u, i, env)
    else if vis == 2 then Out(if env(Sel(s.choice)) == i then 2 else 0, {Vis(i), Sel(s.choice)})
    else Out(if vis != 0 && i in u.value && u.value[i] != 0 then 1 else 0, {Vis(i)})
  }

  function FirstDefault(k: Config, u: User, ds: seq<(int, Cond)>, env: Lookup): Out {
    if ds == [] then Out(NONE, {})
    else
      var c := Eval(k, u, ds[0].1, env);
      if c.v != 0 && env(Vis(ds[0].0)) != 0 then Out(ds[0].0, c.used + {Vis(ds[0].0)})
      else
        var rest := FirstDefault(k, u, ds[1..], env);
        Out(rest.v, c.used + (if c.v != 0 then {Vis(ds[0].0)} else {}) + rest.used)
  }

  function FirstVisible(syms: seq<int>, env: Lookup): Out {
    if syms == [] then Out(NONE, {})
    else if env(Vis(syms[0])) != 0 then Out(syms[0], {Vis(syms[0])})
    else var rest := FirstVisible(syms[1..], env); Out(rest.v, {Vis(syms[0])} + rest.used)
  }

  /** The selection from the defaults, or the first visible symbol. */
  function AutoSelection(k: Config, u: User, c: int, env: Lookup): Out
    requires IsChoice(k, c)
  {
    var d := FirstDefault(k, u, k.items[c].selections, env);
    if d.v != NONE then d
    else var f := FirstVisible(k.items[c].syms, env); Out(f.v, d.used + f.used)
  }

  /** Choice._selection. */
  function SelStep(k: Config, u: User, c: int, env: Lookup): Out
    requires IsChoice(k, c)
  {
    var m := Mode(k, u, c, env);
    if m.v != 2 then Out(NONE, m.used)
    else if c in u.selection && env(Vis(u.selection[c])) != 0 then
      Out(u.selection[c], m.used + {Vis(u.selection[c])})
    else
      var a := AutoSelection(k, u, c, env);
      Out(a.v, m.used + (if c in u.selection then {Vis(u.selection[c])} else {}) + a.used)
  }

  predicate Known(k: Config, c: Cell) {
    match c
    case Vis(i) => i in k.items
    case TriVal(i) => IsSymbol(k, i)
    case Sel(i) => IsChoice(k, i)
  }

  function Step(k: Config, u: User, c: Cell, env: Lookup): Out {
    if !Known(k, c) then Out(0, {})
    else
      match c
      case Vis(i) => VisStep(k, u, i, env)
      case TriVal(i) => TriStep(k, u, i, env)
      case Sel(i) => SelStep(k, u, i, env)
  }

  // ---- locality -----------------------------------------------------------------------------

  ghost predicate Agree(env: Lookup, env': Lookup, cells: set<Cell>) {
    forall c :: c in cells ==> env(c) == env'(c)
  }

  lemma ModeLocal(k: Config, u: User, c: int, env: Lookup, env': Lookup)
    requires IsChoice(k, c) && Agree(env, env', Mode(k, u, c, env).used)
    ensures Mode(k, u, c, env') == Mode(k, u, c, env)
  {
    assert Vis(c) in Mode(k, u, c, env).used;
    assert env(Vis(c)) == env'(Vis(c));
  }

  lemma OperandLocal(k: Config, u: User, o: Operand, env: Lookup, env': Lookup)
    requires Agree(env, env', OperandValue(k, u, o, env).used)
    ensures OperandValue(k, u, o, env') == OperandValue(k, u, o, env)
  {
    if o.Ref? && IsChoice(k, o.i) { ModeLocal(k, u, o.i, env, env'); }
  }

  lemma {:induction false} EvalLocal(k: Config, u: User, e: Cond, env: Lookup, env': Lookup)
    requires Agree(env, env', Eval(k, u, e, env).used)
    ensures Eval(k, u, e, env') == Eval(k, u, e, env)
  {
    match e
    case Const(_) =>
    case Item(i) => if IsChoice(k, i) { ModeLocal(k, u, i, env, env'); }
    case Neg(x) => EvalLocal(k, u, x, env, env');
    case Both(a, b) =>
      EvalLocal(k, u, a, env, env');
      if Eval(k, u, a, env).v != 0 { EvalLocal(k, u, b, env, env'); }
    case Either(a, b) =>
      EvalLocal(k, u, a, env, env');
      if Eval(k, u, a, env).v != 2 { EvalLocal(k, u, b, env, env'); }
    case Compare(_, x, y) => OperandLocal(k, u, x, env, env'); OperandLocal(k, u, y, env, env');
  }

  lemma {:induction false} PromptsLocal(k: Config, u: User, ps: seq<Cond>, env: Lookup, env': Lookup)
    requires Agree(env, env', Prompts(k, u, ps, env).used)
    ensures Prompts(k, u, ps, env') == Prompts(k, u, ps, env)
  {
    hide Eval;
    if ps != [] {
      EvalLocal(k, u, ps[0], env, env');
      PromptsLocal(k, u, ps[1..], env, env');
    }
  }

  lemma HiddenLocal(k: Config, u: User, s: Entry, vis: int, env: Lookup, env': Lookup)
    requires s.Symbol? && Agree(env, env', Hidden(k, u, s, vis, env).used)
    ensures Hidden(k, u, s, vis, env') == Hidden(k, u, s, vis, env)
  {
    hide Mode;
    if IsChoice(k, s.choice) && ((!k.items[s.choice].bool_ && s.bool_) || (!s.bool_ && vis == 1)) {
      ModeLocal(k, u, s.choice, env, env');
    }
  }

  lemma PromoteVisLocal(k: Config, bool_: bool, vis: int, env: Lookup, env': Lookup)
    requires Agree(env, env', PromoteVis(k, bool_, vis, env).used)
    ensures PromoteVis(k, bool_, vis, env') == PromoteVis(k, bool_, vis, env)
  {}

  lemma VisLocal(k: Config, u: User, i: int, env: Lookup, env': Lookup)
    requires i in k.items && Agree(env, env', VisStep(k, u, i, env).used)
    ensures VisStep(k, u, i, env') == VisStep(k, u, i, env)
  {
    hide Prompts; hide Hidden; hide PromoteVis;
    var x := k.items[i];
    PromptsLocal(k, u, x.prompts, env, env');
    var p := Prompts(k, u, x.prompts, env);
    if x.Symbol? { HiddenLocal(k, u, x, p.v, env, env'); }
    if !(x.Symbol? && Hidden(k, u, x, p.v, env).v != 0) { PromoteVisLocal(k, x.bool_, p.v, env, env'); }
  }

  lemma {:induction false} DefaultsLocal(k: Config, u: User, ds: seq<(Cond, Cond)>, env: Lookup, env': Lookup)
    requires Agree(env, env', Defaults(k, u, ds, env).used)
    ensures Defaults(k, u, ds, env') == Defaults(k, u, ds, env)
  {
    hide Eval;
    if ds != [] {
      EvalLocal(k, u, ds[0].1, env, env');
      if Eval(k, u, ds[0].1, env).v != 0 { EvalLocal(k, u, ds[0].0, env, env'); }
      else { DefaultsLocal(k, u, ds[1..], env, env'); }
    }
  }

  lemma FallbackLocal(k: Config, u: User, s: Entry, env: Lookup, env': Lookup)
    requires s.Symbol? && Agree(env, env', Fallback(k, u, s, env).used)
    ensures Fallback(k, u, s, env') == Fallback(k, u, s, env)
  {
    hide Eval; hide Defaults;
    DefaultsLocal(k, u, s.defaults, env, env');
    EvalLocal(k, u, s.weakRevDep, env, env');
    if Eval(k, u, s.weakRevDep, env).v != 0 { EvalLocal(k, u, s.directDep, env, env'); }
  }

  lemma SelectedLocal(k: Config, u: User, s: Entry, val: int, env: Lookup, env': Lookup)
    requires s.Symbol? && Agree(env, env', Selected(k, u, s, val, env).used)
    ensures Selected(k, u, s, val, env') == Selected(k, u, s, val, env)
  {
    hide Eval;
    EvalLocal(k, u, s.revDep, env, env');
    if Eval(k, u, s.revDep, env).v != 0 { EvalLocal(k, u, s.directDep, env, env'); }
  }

  lemma PromoteTriLocal(k: Config, u: User, s: Entry, val: int, env: Lookup, env': Lookup)
    requires s.Symbol? && Agree(env, env', PromoteTri(k, u, s, val, env).used)
    ensures PromoteTri(k, u, s, val, env') == PromoteTri(k, u, s, val, env)
  {
    hide Eval;
    if val == 1 && !s.bool_ && Modules(k, env).v != 0 { EvalLocal(k, u, s.weakRevDep, env, env'); }
  }

  lemma PlainLocal(k: Config, u: User, i: int, env: Lookup, env': Lookup)
    requires IsSymbol(k, i) && Agree(env, env', PlainStep(k, u, i, env).used)
    ensures PlainStep(k, u, i, env') == PlainStep(k, u, i, env)
  {
    hide Fallback; hide Selected; hide PromoteTri;
    var s, vis := k.items[i], env(Vis(i));
    assert Vis(i) in PlainStep(k, u, i, env).used;
    assert env'(Vis(i)) == vis;
    var user := vis != 0 && i in u.value;
    if !user { FallbackLocal(k, u, s, env, env'); }
    var b := if user then Lo(u.value[i], vis) else Fallback(k, u, s, env).v;
    SelectedLocal(k, u, s, b, env, env');
    PromoteTriLocal(k, u, s, Selected(k, u, s, b, env).v, env, env');
  }

  lemma TriLocal(k: Config, u: User, i: int, env: Lookup, env': Lookup)
    requires IsSymbol(k, i) && Agree(env, env', TriStep(k, u, i, env).used)
    ensures TriStep(k, u, i, env') == TriStep(k, u, i, env)
  {
    hide PlainStep;
    if !IsChoice(k, k.items[i].choice) { PlainLocal(k, u, i, env, env'); }
    else { assert Vis(i) in TriStep(k, u, i, env).used; }
  }

  lemma {:induction false} FirstDefaultLocal(k: Config, u: User, ds: seq<(int, Cond)>, env: Lookup, env': Lookup)
    requires Agree(env, env', FirstDefault(k, u, ds, env).used)
    ensures FirstDefault(k, u, ds, env') == FirstDefault(k, u, ds, env)
  {
    hide Eval;
    if ds != [] {
      EvalLocal(k, u, ds[0].1, env, env');
      var c := Eval(k, u, ds[0].1, env);
      assert c.v != 0 ==> Vis(ds[0].0) in FirstDefault(k, u, ds, env).used;
      if !(c.v != 0 && env(Vis(ds[0].0)) != 0) { FirstDefaultLocal(k, u, ds[1..], env, env'); }
    }
  }

  lemma {:induction false} FirstVisibleLocal(syms: seq<int>, env: Lookup, env': Lookup)
    requires Agree(env, env', FirstVisible(syms, env).used)
    ensures FirstVisible(syms, env') == FirstVisible(syms, env)
  {
    if syms != [] {
      assert Vis(syms[0]) in FirstVisible(syms, env).used;
      if env(Vis(syms[0])) == 0 { FirstVisibleLocal(syms[1..], env, env'); }
    }
  }

  lemma AutoLocal(k: Config, u: User, c: int, env: Lookup, env': Lookup)
    requires IsChoice(k, c) && Agree(env, env', AutoSelection(k, u, c, env).used)
    ensures AutoSelection(k, u, c, env') == AutoSelection(k, u, c, env)
  {
    hide FirstDefault; hide FirstVisible;
    FirstDefaultLocal(k, u, k.items[c].selections, env, env');
    if FirstDefault(k, u, k.items[c].selections, env).v == NONE { FirstVisibleLocal(k.items[c].syms, env, env'); }
  }

  lemma SelLocal(k: Config, u: User, c: int, env: Lookup, env': Lookup)
    requires IsChoice(k, c) && Agree(env, env', SelStep(k, u, c, env).used)
    ensures SelStep(k, u, c, env') == SelStep(k, u, c, env)
  {
    hide Mode; hide AutoSelection;
    ModeLocal(k, u, c, env, env');
    if Mode(k, u, c, env).v == 2 {
      assert c in u.selection ==> Vis(u.selection[c]) in SelStep(k, u, c, env).used;
      if !(c in u.selection && env(Vis(u.selection[c])) != 0) { AutoLocal(k, u, c, env, env'); }
    }
  }

  /** A step looks at nothing but the cells it reports. */
  lemma StepLocal(k: Config, u: User, c: Cell, env: Lookup, env': Lookup)
    requires Agree(env, env', Step(k, u, c, env).used)
    ensures Step(k, u, c, env') == Step(k, u, c, env)
  {
    hide VisStep; hide TriStep; hide SelStep;
    if Known(k, c) {
      match c
      case Vis(i) => VisLocal(k, u, i, env, env');
      case TriVal(i) => TriLocal(k, u, i, env, env');
      case Sel(i) => SelLocal(k, u, i, env, env');
    }
  }

  // ---- dependencies -------------------------------------------------------------------------

  function MentionsIn(o: Operand): set<int> {
    if o.Ref? then {o.i} else {}
  }

  /** The items an expression mentions: what _make_depend_on visits. */
  function Mentions(e: Cond): set<int> {
    match e
    case Const(_) => {}
    case Item(i) => {i}
    case Neg(x) => Mentions(x)
    case Both(a, b) => Mentions(a) + Mentions(b)
    case Either(a, b) => Mentions(a) + Mentions(b)
    case Compare(_, x, y) => MentionsIn(x) + MentionsIn(y)
  }

  function MentionsAll(es: seq<Cond>): set<int> {
    if es == [] then {} else Mentions(es[0]) + MentionsAll(es[1..])
  }

  function MentionsPairs(ds: seq<(Cond, Cond)>): set<int> {
    if ds == [] then {} else Mentions(ds[0].0) + Mentions(ds[0].1) + MentionsPairs(ds[1..])
  }

  function MentionsConds(ds: seq<(int, Cond)>): set<int> {
    if ds == [] then {} else Mentions(ds[0].1) + MentionsConds(ds[1..])
  }

  /** The items on which an entry depends: _build_dep and _add_choice_deps. */
  function DependsOn(x: Entry): set<int> {
    match x
    case Symbol(_, ps, ds, rev, weak, direct, _) =>
      MentionsAll(ps) + MentionsPairs(ds) + Mentions(rev) + Mentions(weak) + Mentions(direct)
    case Choice(_, ps, sels, syms, _) =>
      MentionsAll(ps) + MentionsConds(sels) + set s | s in syms
  }

  /** Every cell that was used belongs to an item of `ids`, or to MODULES. */
  ghost predicate From(k: Config, used: set<Cell>, ids: set<int>) {
    forall c :: c in used ==> c.i in ids || c.i == k.modules
  }

  lemma {:induction false} EvalFrom(k: Config, u: User, e: Cond, env: Lookup)
    ensures From(k, Eval(k, u, e, env).used, Mentions(e))
  {
    match e
    case Const(_) =>
    case Item(_) =>
    case Neg(x) => EvalFrom(k, u, x, env);
    case Both(a, b) => EvalFrom(k, u, a, env); EvalFrom(k, u, b, env);
    case Either(a, b) => EvalFrom(k, u, a, env); EvalFrom(k, u, b, env);
    case Compare(_, _, _) =>
  }

  /** What the loader guarantees: a choice symbol's conditions mention its choice, choice symbols and
      their choice agree, and a choice's default symbols are among its symbols. */
  ghost predicate WellFormed(k: Config) {
    && (k.modules in k.items ==> IsSymbol(k, k.modules))
    && NONE !in k.items
    && (forall i :: IsSymbol(k, i) && IsChoice(k, k.items[i].choice) ==>
      k.items[i].choice in DependsOn(k.items[i]) && i in k.items[k.items[i].choice].syms)
    && (forall c, s :: IsChoice(k, c) && s in k.items[c].syms ==> IsSymbol(k, s) && k.items[s].choice == c)
    && (forall c, n :: IsChoice(k, c) && 0 <= n < |k.items[c].selections| ==> k.items[c].selections[n].0 in k.items[c].syms)
  }

  /** A user selection is one of the choice's symbols. */
  ghost predicate UserOk(k: Config, u: User) {
    forall c :: c in u.selection ==> IsChoice(k, c) && u.selection[c] in k.items[c].syms
  }

  lemma {:induction false} PromptsFrom(k: Config, u: User, ps: seq<Cond>, env: Lookup)
    ensures From(k, Prompts(k, u, ps, env).used, MentionsAll(ps))
  {
    hide Eval; hide Mentions;
    if ps != [] {
      EvalFrom(k, u, ps[0], env);
      PromptsFrom(k, u, ps[1..], env);
    }
  }

  lemma {:induction false} DefaultsFrom(k: Config, u: User, ds: seq<(Cond, Cond)>, env: Lookup)
    ensures From(k, Defaults(k, u, ds, env).used, MentionsPairs(ds))
  {
    hide Eval; hide Mentions;
    if ds != [] {
      EvalFrom(k, u, ds[0].0, env);
      EvalFrom(k, u, ds[0].1, env);
      DefaultsFrom(k, u, ds[1..], env);
    }
  }

  lemma {:induction false} FirstDefaultFrom(k: Config, u: User, ds: seq<(int, Cond)>, env: Lookup, syms: set<int>)
    requires forall n :: 0 <= n < |ds| ==> ds[n].0 in syms
    ensures From(k, FirstDefault(k, u, ds, env).used, MentionsConds(ds) + syms)
  {
    hide Eval; hide Mentions;
    if ds != [] {
      EvalFrom(k, u, ds[0].1, env);
      FirstDefaultFrom(k, u, ds[1..], env, syms);
    }
  }

  lemma {:induction false} FirstVisibleFrom(k: Config, syms: seq<int>, env: Lookup)
    ensures From(k, FirstVisible(syms, env).used, set s | s in syms)
  {
    if syms != [] {
      FirstVisibleFrom(k, syms[1..], env);
      assert forall s :: s in syms[1..] ==> s in syms;
    }
  }

  lemma VisFrom(k: Config, u: User, i: int, env: Lookup)
    requires WellFormed(k) && i in k.items
    ensures From(k, VisStep(k, u, i, env).used, DependsOn(k.items[i]))
  {
    hide Prompts; hide MentionsPairs; hide Mentions; hide MentionsConds; hide MentionsAll;
    PromptsFrom(k, u, k.items[i].prompts, env);
  }

  lemma PlainFrom(k: Config, u: User, i: int, env: Lookup)
    requires IsSymbol(k, i)
    ensures From(k, PlainStep(k, u, i, env).used, DependsOn(k.items[i]) + {i})
  {
    hide Eval; hide Defaults; hide MentionsPairs; hide Mentions; hide MentionsAll;
    var s := k.items[i];
    DefaultsFrom(k, u, s.defaults, env);
    EvalFrom(k, u, s.weakRevDep, env);
    EvalFrom(k, u, s.revDep, env);
    EvalFrom(k, u, s.directDep, env);
  }

  lemma TriFrom(k: Config, u: User, i: int, env: Lookup)
    requires WellFormed(k) && IsSymbol(k, i)
    ensures From(k, TriStep(k, u, i, env).used, DependsOn(k.items[i]) + {i})
  {
    hide PlainStep; hide DependsOn;
    PlainFrom(k, u, i, env);
  }

  lemma SelFrom(k: Config, u: User, c: int, env: Lookup)
    requires WellFormed(k) && UserOk(k, u) && IsChoice(k, c)
    ensures From(k, SelStep(k, u, c, env).used, DependsOn(k.items[c]) + {c})
  {
    hide FirstDefault; hide FirstVisible; hide MentionsConds; hide MentionsAll;
    var syms := set s | s in k.items[c].syms;
    FirstDefaultFrom(k, u, k.items[c].selections, env, syms);
    FirstVisibleFrom(k, k.items[c].syms, env);
  }

  /** Whatever cell a step uses belongs to its own item, to one it depends on, or to MODULES. */
  lemma StepFrom(k: Config, u: User, c: Cell, env: Lookup)
    requires WellFormed(k) && UserOk(k, u) && Known(k, c)
    ensures From(k, Step(k, u, c, env).used, DependsOn(k.items[c.i]) + {c.i})
  {
    hide VisStep; hide TriStep; hide SelStep; hide DependsOn; hide WellFormed; hide UserOk;
    match c
    case Vis(i) => VisFrom(k, u, i, env);
    case TriVal(i) => TriFrom(k, u, i, env);
    case Sel(i) => SelFrom(k, u, i, env);
  }

  // ---- what a user setting can change ----------------------------------------------------------

  predicate SameAt(u: User, u': User, i: int) {
    && (i in u.value <==> i in u'.value) && (i in u.value ==> u.value[i] == u'.value[i])
    && (i in u.selection <==> i in u'.selection) && (i in u.selection ==> u.selection[i] == u'.selection[i])
  }

  ghost predicate SameChoices(k: Config, u: User, u': User, ids: set<int>) {
    forall c :: c in ids && IsChoice(k, c) ==> SameAt(u, u', c)
  }

  lemma {:induction false} EvalUser(k: Config, u: User, u': User, e: Cond, env: Lookup)
    requires SameChoices(k, u, u', Mentions(e))
    ensures Eval(k, u', e, env) == Eval(k, u, e, env)
  {
    match e
    case Const(_) =>
    case Item(i) =>
    case Neg(x) => EvalUser(k, u, u', x, env);
    case Both(a, b) => EvalUser(k, u, u', a, env); EvalUser(k, u, u', b, env);
    case Either(a, b) => EvalUser(k, u, u', a, env); EvalUser(k, u, u', b, env);
    case Compare(_, _, _) =>
  }

  lemma {:induction false} PromptsUser(k: Config, u: User, u': User, ps: seq<Cond>, env: Lookup)
    requires SameChoices(k, u, u', MentionsAll(ps))
    ensures Prompts(k, u', ps, env) == Prompts(k, u, ps, env)
  {
    hide Eval; hide Mentions;
    if ps != [] {
      EvalUser(k, u, u', ps[0], env);
      PromptsUser(k, u, u', ps[1..], env);
    }
  }

  lemma {:induction false} DefaultsUser(k: Config, u: User, u': User, ds: seq<(Cond, Cond)>, env: Lookup)
    requires SameChoices(k, u, u', MentionsPairs(ds))
    ensures Defaults(k, u', ds, env) == Defaults(k, u, ds, env)
  {
    hide Eval; hide Mentions;
    if ds != [] {
      EvalUser(k, u, u', ds[0].0, env);
      EvalUser(k, u, u', ds[0].1, env);
      DefaultsUser(k, u, u', ds[1..], env);
    }
  }

  lemma {:induction false} FirstDefaultUser(k: Config, u: User, u': User, ds: seq<(int, Cond)>, env: Lookup)
    requires SameChoices(k, u, u', MentionsConds(ds))
    ensures FirstDefault(k, u', ds, env) == FirstDefault(k, u, ds, env)
  {
    hide Eval; hide Mentions;
    if ds != [] {
      EvalUser(k, u, u', ds[0].1, env);
      FirstDefaultUser(k, u, u', ds[1..], env);
    }
  }

  lemma VisUser(k: Config, u: User, u': User, i: int, env: Lookup)
    requires WellFormed(k) && i in k.items && SameChoices(k, u, u', DependsOn(k.items[i]))
    ensures VisStep(k, u', i, env) == VisStep(k, u, i, env)
  {
    hide Prompts; hide MentionsPairs; hide Mentions; hide MentionsConds; hide MentionsAll;
    PromptsUser(k, u, u', k.items[i].prompts, env);
  }

  lemma PlainUser(k: Config, u: User, u': User, i: int, env: Lookup)
    requires IsSymbol(k, i) && SameChoices(k, u, u', DependsOn(k.items[i]))
    requires SameAt(u, u', i) || env(Vis(i)) == 0
    ensures PlainStep(k, u', i, env) == PlainStep(k, u, i, env)
  {
    hide Eval; hide Defaults; hide MentionsPairs; hide Mentions; hide MentionsAll;
    var s := k.items[i];
    DefaultsUser(k, u, u', s.defaults, env);
    EvalUser(k, u, u', s.weakRevDep, env);
    EvalUser(k, u, u', s.revDep, env);
    EvalUser(k, u, u', s.directDep, env);
  }

  /** The value of a symbol that is not visible does not depend on what the user set. */
  lemma TriUser(k: Config, u: User, u': User, i: int, env: Lookup)
    requires IsSymbol(k, i) && SameChoices(k, u, u', DependsOn(k.items[i]))
    requires SameAt(u, u', i) || env(Vis(i)) == 0
    ensures TriStep(k, u', i, env) == TriStep(k, u, i, env)
  {
    hide PlainStep; hide DependsOn;
    PlainUser(k, u, u', i, env);
  }

  lemma SelUser(k: Config, u: User, u': User, c: int, env: Lookup)
    requires IsChoice(k, c) && SameChoices(k, u, u', DependsOn(k.items[c])) && SameAt(u, u', c)
    ensures SelStep(k, u', c, env) == SelStep(k, u, c, env)
  {
    hide FirstDefault; hide FirstVisible; hide MentionsConds; hide MentionsAll;
    FirstDefaultUser(k, u, u', k.items[c].selections, env);
  }

  /** A step sees what the user set for its own item and for the choices that item depends on. */
  lemma StepUser(k: Config, u: User, u': User, c: Cell, env: Lookup)
    requires WellFormed(k) && Known(k, c) && SameChoices(k, u, u', DependsOn(k.items[c.i]))
    requires SameAt(u, u', c.i) || (c.TriVal? && env(Vis(c.i)) == 0) || (c.Vis? && IsSymbol(k, c.i))
    ensures Step(k, u', c, env) == Step(k, u, c, env)
  {
    hide VisStep; hide TriStep; hide SelStep; hide DependsOn; hide WellFormed; hide SameAt;
    match c
    case Vis(i) => VisUser(k, u, u', i, env);
    case TriVal(i) => TriUser(k, u, u', i, env);
    case Sel(i) => SelUser(k, u, u', i, env);
  }

  // ---- n, m and y -----------------------------------------------------------------------------

  predicate IsTri(v: int) {
    0 <= v <= 2
  }

  /** The visibilities and values among `used` are n, m or y. */
  ghost predicate TriCells(env: Lookup, used: set<Cell>) {
    forall d :: d in used && !d.Sel? ==> IsTri(env(d))
  }

  lemma ModeTri(k: Config, u: User, c: int, env: Lookup)
    requires IsChoice(k, c) && TriCells(env, Mode(k, u, c, env).used)
    ensures IsTri(Mode(k, u, c, env).v)
  {
    assert Vis(c) in Mode(k, u, c, env).used;
    assert IsTri(env(Vis(c)));
  }

  lemma {:induction false} EvalTri(k: Config, u: User, e: Cond, env: Lookup)
    requires TriCells(env, Eval(k, u, e, env).used)
    ensures IsTri(Eval(k, u, e, env).v)
  {
    match e
    case Const(_) =>
    case Item(i) => if IsChoice(k, i) { ModeTri(k, u, i, env); }
    case Neg(x) => EvalTri(k, u, x, env);
    case Both(a, b) =>
      EvalTri(k, u, a, env);
      if Eval(k, u, a, env).v != 0 { EvalTri(k, u, b, env); }
    case Either(a, b) =>
      EvalTri(k, u, a, env);
      if Eval(k, u, a, env).v != 2 { EvalTri(k, u, b, env); }
    case Compare(_, _, _) =>
  }

  lemma {:induction false} PromptsTri(k: Config, u: User, ps: seq<Cond>, env: Lookup)
    requires TriCells(env, Prompts(k, u, ps, env).used)
    ensures IsTri(Prompts(k, u, ps, env).v)
  {
    hide Eval;
    if ps != [] {
      EvalTri(k, u, ps[0], env);
      PromptsTri(k, u, ps[1..], env);
    }
  }

  lemma {:induction false} DefaultsTri(k: Config, u: User, ds: seq<(Cond, Cond)>, env: Lookup)
    requires TriCells(env, Defaults(k, u, ds, env).used)
    ensures IsTri(Defaults(k, u, ds, env).v)
  {
    hide Eval;
    if ds != [] {
      EvalTri(k, u, ds[0].1, env);
      if Eval(k, u, ds[0].1, env).v != 0 { EvalTri(k, u, ds[0].0, env); } else { DefaultsTri(k, u, ds[1..], env); }
    }
  }

  lemma VisTri(k: Config, u: User, i: int, env: Lookup)
    requires i in k.items && TriCells(env, VisStep(k, u, i, env).used)
    ensures IsTri(VisStep(k, u, i, env).v)
    ensures k.items[i].bool_ ==> VisStep(k, u, i, env).v != 1
  {
    hide Prompts; hide Hidden;
    PromptsTri(k, u, k.items[i].prompts, env);
  }

  lemma FallbackTri(k: Config, u: User, s: Entry, env: Lookup)
    requires s.Symbol? && TriCells(env, Fallback(k, u, s, env).used)
    ensures IsTri(Fallback(k, u, s, env).v)
  {
    hide Eval; hide Defaults;
    DefaultsTri(k, u, s.defaults, env);
    EvalTri(k, u, s.weakRevDep, env);
  }

  lemma PlainTri(k: Config, u: User, i: int, env: Lookup)
    requires IsSymbol(k, i) && TriCells(env, PlainStep(k, u, i, env).used)
    ensures IsTri(PlainStep(k, u, i, env).v)
    ensures k.items[i].bool_ ==> PlainStep(k, u, i, env).v != 1
  {
    hide Eval; hide Fallback;
    var s, vis := k.items[i], env(Vis(i));
    assert Vis(i) in PlainStep(k, u, i, env).used;
    assert IsTri(vis);
    if !(vis != 0 && i in u.value) { FallbackTri(k, u, s, env); }
    EvalTri(k, u, s.revDep, env);
  }

  /** A bool symbol in a choice is never visible as m, so it gets no m from the user. */
  lemma TriTri(k: Config, u: User, i: int, env: Lookup)
    requires IsSymbol(k, i) && TriCells(env, TriStep(k, u, i, env).used) && (k.items[i].bool_ ==> env(Vis(i)) != 1)
    ensures IsTri(TriStep(k, u, i, env).v)
    ensures k.items[i].bool_ ==> TriStep(k, u, i, env).v != 1
  {
    hide PlainStep;
    if !IsChoice(k, k.items[i].choice) { PlainTri(k, u, i, env); }
    else {
      assert Vis(i) in TriStep(k, u, i, env).used;
      assert IsTri(env(Vis(i)));
    }
  }

  // ---- values -------------------------------------------------------------------------------

  /** Visibilities and values are n, m or y, and never m for what is declared bool. */
  ghost predicate Plausible(k: Config, env: Lookup) {
    forall d: Cell :: !d.Sel? ==> PlausibleAt(k, d, env(d))
  }

  predicate PlausibleAt(k: Config, d: Cell, v: int) {
    IsTri(v) && (d.i in k.items && k.items[d.i].bool_ ==> v != 1)
  }

  type Rank = Cell -> nat

  /** Evaluation never comes back to the cell it started from: what a step uses has a lower rank. */
  ghost predicate Acyclic(k: Config, rank: Rank) {
    forall u: User, c: Cell, env: Lookup, d: Cell ::
      Known(k, c) && UserOk(k, u) && Plausible(k, env) && d in Step(k, u, c, env).used ==> rank(d) < rank(c)
  }

  /** The value of a cell, evaluated without any cache. */
  ghost function Value(k: Config, u: User, rank: Rank, c: Cell): int
    decreases rank(c), 1
  {
    Step(k, u, c, Lower(k, u, rank, c)).v
  }

  ghost function Lower(k: Config, u: User, rank: Rank, c: Cell): Lookup
    decreases rank(c), 0
  {
    (d: Cell) => if rank(d) < rank(c) then Value(k, u, rank, d) else 0
  }

  ghost function Values(k: Config, u: User, rank: Rank): Lookup {
    (d: Cell) => Value(k, u, rank, d)
  }

  /** What evaluating a cell uses. */
  ghost function Uses(k: Config, u: User, rank: Rank, c: Cell): set<Cell> {
    Step(k, u, c, Values(k, u, rank)).used
  }

  lemma StepTri(k: Config, u: User, c: Cell, env: Lookup)
    requires Plausible(k, env) && !c.Sel?
    ensures PlausibleAt(k, c, Step(k, u, c, env).v)
  {
    hide VisStep; hide TriStep; hide SelStep;
    if Known(k, c) {
      assert PlausibleAt(k, Vis(c.i), env(Vis(c.i)));
      if c.Vis? {
        assert TriCells(env, VisStep(k, u, c.i, env).used);
        VisTri(k, u, c.i, env);
      } else {
        assert TriCells(env, TriStep(k, u, c.i, env).used);
        TriTri(k, u, c.i, env);
      }
    }
  }

  /** Every visibility and every value is n, m or y, and never m for what is declared bool. */
  lemma {:induction false} ValueTri(k: Config, u: User, rank: Rank, c: Cell)
    requires !c.Sel?
    ensures PlausibleAt(k, c, Value(k, u, rank, c))
    decreases rank(c)
  {
    hide Step; hide PlausibleAt;
    NoIsPlausible(k);
    forall d: Cell | !d.Sel? ensures PlausibleAt(k, d, Lower(k, u, rank, c)(d)) {
      if rank(d) < rank(c) { ValueTri(k, u, rank, d); }
    }
    StepTri(k, u, c, Lower(k, u, rank, c));
  }

  lemma NoIsPlausible(k: Config)
    ensures forall d: Cell :: PlausibleAt(k, d, 0)
  {}

  lemma ValuesPlausible(k: Config, u: User, rank: Rank, c: Cell)
    ensures Plausible(k, Values(k, u, rank)) && Plausible(k, Lower(k, u, rank, c))
  {
    hide Value; hide PlausibleAt;
    NoIsPlausible(k);
    forall d: Cell | !d.Sel? ensures PlausibleAt(k, d, Value(k, u, rank, d)) { ValueTri(k, u, rank, d); }
  }

  /** The value of a cell is one step from the values of the cells it uses. */
  lemma ValueIsStep(k: Config, u: User, rank: Rank, c: Cell)
    requires Acyclic(k, rank) && UserOk(k, u) && Known(k, c)
    ensures Value(k, u, rank, c) == Step(k, u, c, Values(k, u, rank)).v
    ensures forall d :: d in Uses(k, u, rank, c) ==> rank(d) < rank(c)
  {
    hide Step; hide UserOk; hide Known; hide Plausible;
    ValuesPlausible(k, u, rank, c);
    StepLocal(k, u, c, Lower(k, u, rank, c), Values(k, u, rank));
  }

  // ---- the cache invariant --------------------------------------------------------------------

  type Cache = map<Cell, int>

  /** Every cached value is the value; whatever it was computed from is cached too; an item with any
      cached value has its visibility cached. */
  ghost predicate Inv(k: Config, u: User, rank: Rank, cache: Cache) {
    forall c :: c in cache ==>
      Known(k, c) && cache[c] == Value(k, u, rank, c) && Uses(k, u, rank, c) <= cache.Keys && Vis(c.i) in cache
  }

  /** `cache'` is `cache` without the items of `gone`. */
  ghost predicate Without(cache: Cache, cache': Cache, gone: set<int>) {
    && (forall c :: c in cache' <==> c in cache && c.i !in gone)
    && (forall c :: c in cache' ==> cache'[c] == cache[c])
  }

  /** Whatever depends on an item of `gone` is in `gone` or has no cached visibility left; if MODULES is
      gone, everything is. */
  ghost predicate ClosedUp(k: Config, gone: set<int>, cache': Cache) {
    && (forall a, b :: a in gone && b in k.items && a in DependsOn(k.items[b]) ==> b in gone || Vis(b) !in cache')
    && (k.modules in gone ==> cache' == map[])
  }

  lemma UsesKept(k: Config, u: User, rank: Rank, cache: Cache, cache': Cache, gone: set<int>, c: Cell)
    requires WellFormed(k) && UserOk(k, u) && Inv(k, u, rank, cache) && Without(cache, cache', gone)
    requires ClosedUp(k, gone, cache') && c in cache'
    ensures Uses(k, u, rank, c) <= cache'.Keys && Vis(c.i) in cache'
    ensures forall a :: a in gone ==> a !in DependsOn(k.items[c.i])
  {
    hide Step; hide DependsOn; hide WellFormed; hide UserOk; hide Value;
    StepFrom(k, u, c, Values(k, u, rank));
    assert Vis(c.i) in cache';
    forall d | d in Uses(k, u, rank, c) ensures d in cache' {
      assert d in cache;
    }
  }

  /** What is left in the cache after an invalidation is still right for the new user settings. */
  lemma {:induction false} ValueKept(k: Config, u: User, u': User, rank: Rank, cache: Cache, cache': Cache, gone: set<int>, c: Cell)
    requires WellFormed(k) && Acyclic(k, rank) && UserOk(k, u) && UserOk(k, u') && Inv(k, u, rank, cache)
    requires Without(cache, cache', gone) && ClosedUp(k, gone, cache') && c in cache'
    requires forall d :: d in cache' ==> Step(k, u', d, Values(k, u, rank)) == Step(k, u, d, Values(k, u, rank))
    ensures Value(k, u', rank, c) == Value(k, u, rank, c) && Uses(k, u', rank, c) == Uses(k, u, rank, c)
    decreases rank(c)
  {
    hide Step; hide DependsOn; hide WellFormed; hide UserOk; hide Acyclic; hide ClosedUp; hide Value; hide Known;
    CachedKnown(k, u, rank, cache, c);
    UsesKept(k, u, rank, cache, cache', gone, c);
    ValueIsStep(k, u, rank, c);
    ValueIsStep(k, u', rank, c);
    forall d | d in Uses(k, u, rank, c) ensures Values(k, u', rank)(d) == Values(k, u, rank)(d) {
      ValueKept(k, u, u', rank, cache, cache', gone, d);
    }
    StepLocal(k, u', c, Values(k, u, rank), Values(k, u', rank));
  }

  lemma CachedKnown(k: Config, u: User, rank: Rank, cache: Cache, c: Cell)
    requires Inv(k, u, rank, cache) && c in cache
    ensures Known(k, c) && cache[c] == Value(k, u, rank, c)
  {}

  /** Invalidation is enough: if no remaining cell sees the new settings, the invariant holds again. */
  lemma InvalidationSuffices(k: Config, u: User, u': User, rank: Rank, cache: Cache, cache': Cache, gone: set<int>)
    requires WellFormed(k) && Acyclic(k, rank) && UserOk(k, u) && UserOk(k, u') && Inv(k, u, rank, cache)
    requires Without(cache, cache', gone) && ClosedUp(k, gone, cache')
    requires forall d :: d in cache' ==> Step(k, u', d, Values(k, u, rank)) == Step(k, u, d, Values(k, u, rank))
    ensures Inv(k, u', rank, cache')
  {
    hide Step; hide DependsOn; hide WellFormed; hide UserOk; hide Acyclic; hide ClosedUp; hide Value; hide Uses; hide Known;
    forall c | c in cache'
      ensures Known(k, c) && cache'[c] == Value(k, u', rank, c) && Uses(k, u', rank, c) <= cache'.Keys && Vis(c.i) in cache'
    {
      CachedKnown(k, u, rank, cache, c);
      UsesKept(k, u, rank, cache, cache', gone, c);
      ValueKept(k, u, u', rank, cache, cache', gone, c);
    }
  }

  // ---- which settings an invalidation covers ---------------------------------------------------

  /** The settings differ only for `r` and, if `r` is a choice, for its symbols. */
  ghost predicate ChangedAt(k: Config, u: User, u': User, r: int) {
    forall i :: !SameAt(u, u', i) ==> i == r || (IsChoice(k, r) && IsSymbol(k, i) && k.items[i].choice == r)
  }

  lemma ChangeUnseen(k: Config, u: User, u': User, rank: Rank, cache: Cache, cache': Cache, gone: set<int>, r: int, d: Cell)
    requires WellFormed(k) && UserOk(k, u) && Inv(k, u, rank, cache) && Without(cache, cache', gone)
    requires ClosedUp(k, gone, cache') && r in gone && ChangedAt(k, u, u', r) && d in cache'
    ensures Step(k, u', d, Values(k, u, rank)) == Step(k, u, d, Values(k, u, rank))
  {
    hide Step; hide DependsOn; hide UserOk; hide ClosedUp; hide Value; hide SameAt; hide Uses;
    CachedKnown(k, u, rank, cache, d);
    UsesKept(k, u, rank, cache, cache', gone, d);
    assert r !in DependsOn(k.items[d.i]);
    StepUser(k, u, u', d, Values(k, u, rank));
  }

  /** Invalidating an item and all that depends on it covers a change of its settings, and for a choice
      also a change of the settings of its symbols. */
  lemma InvalidateKeeps(k: Config, u: User, u': User, rank: Rank, cache: Cache, cache': Cache, gone: set<int>, r: int)
    requires WellFormed(k) && Acyclic(k, rank) && UserOk(k, u) && UserOk(k, u') && Inv(k, u, rank, cache)
    requires Without(cache, cache', gone) && ClosedUp(k, gone, cache') && r in gone && ChangedAt(k, u, u', r)
    ensures Inv(k, u', rank, cache')
  {
    hide *;
    forall d | d in cache' ensures Step(k, u', d, Values(k, u, rank)) == Step(k, u, d, Values(k, u, rank)) {
      ChangeUnseen(k, u, u', rank, cache, cache', gone, r, d);
    }
    InvalidationSuffices(k, u, u', rank, cache, cache', gone);
  }

  lemma HiddenWithoutPrompt(k: Config, u: User, rank: Rank, x: int)
    requires Acyclic(k, rank) && UserOk(k, u) && x in k.items && k.items[x].prompts == []
    ensures Value(k, u, rank, Vis(x)) == 0
  {
    ValueIsStep(k, u, rank, Vis(x));
  }

  /** The settings of a symbol without a prompt have no effect, so nothing need be invalidated. */
  lemma PromptlessKeeps(k: Config, u: User, u': User, rank: Rank, cache: Cache, x: int)
    requires WellFormed(k) && Acyclic(k, rank) && UserOk(k, u) && UserOk(k, u') && Inv(k, u, rank, cache)
    requires IsSymbol(k, x) && k.items[x].prompts == [] && forall i :: i != x ==> SameAt(u, u', i)
    ensures Inv(k, u', rank, cache)
  {
    HiddenWithoutPrompt(k, u, rank, x);
    hide Step; hide DependsOn; hide UserOk; hide Value; hide SameAt; hide Uses; hide Acyclic; hide WellFormed;
    forall d | d in cache ensures Step(k, u', d, Values(k, u, rank)) == Step(k, u, d, Values(k, u, rank)) {
      CachedKnown(k, u, rank, cache, d);
      StepUser(k, u, u', d, Values(k, u, rank));
    }
    InvalidationSuffices(k, u, u', rank, cache, cache, {});
  }

  // ---- invalidation ---------------------------------------------------------------------------

  /** `deps[i]` lists the items that depend on `i`, in some order: i._dependents. */
  type Dependents = map<int, seq<int>>

  ghost predicate DepsOk(k: Config, deps: Dependents) {
    && deps.Keys == k.items.Keys
    && forall i, b :: i in k.items ==> (b in deps[i] <==> b in k.items && i in DependsOn(k.items[b]))
  }

  function Drop(cache: Cache, i: int): Cache {
    cache - {Vis(i), TriVal(i), Sel(i)}
  }

  /** The items that still have a cached visibility. */
  ghost function Marked(cache: Cache): set<Cell> {
    set c | c in cache.Keys && c.Vis?
  }

  lemma DropIs(cache: Cache, i: int)
    ensures Without(cache, Drop(cache, i), {i}) && Marked(Drop(cache, i)) == Marked(cache) - {Vis(i)}
  {}

  lemma WithoutTwice(a: Cache, b: Cache, c: Cache, x: set<int>, y: set<int>)
    requires Without(a, b, x) && Without(b, c, y)
    ensures Without(a, c, x + y) && Marked(c) <= Marked(b)
  {}

  /** All of `gone` but `i` is closed up, and of `i` the first `n` dependents are. */
  ghost predicate Closing(k: Config, gone: set<int>, cache: Cache, i: int, row: seq<int>, n: nat) {
    && n <= |row|
    && (forall a, b :: a in gone && a != i && b in k.items && a in DependsOn(k.items[b]) ==> b in gone || Vis(b) !in cache)
    && (forall m :: 0 <= m < n ==> row[m] in gone || Vis(row[m]) !in cache)
    && (k.modules in gone ==> cache == map[])
  }

  lemma ClosingStart(k: Config, cache: Cache, i: int, row: seq<int>)
    requires i != k.modules
    ensures Closing(k, {i}, cache, i, row, 0)
  {}

  lemma ClosingSkip(k: Config, gone: set<int>, cache: Cache, i: int, row: seq<int>, n: nat)
    requires Closing(k, gone, cache, i, row, n) && n < |row| && Vis(row[n]) !in cache
    ensures Closing(k, gone, cache, i, row, n + 1)
  {}

  lemma ClosingNext(k: Config, gone: set<int>, cache: Cache, i: int, row: seq<int>, n: nat, gone': set<int>, cache': Cache)
    requires Closing(k, gone, cache, i, row, n) && n < |row| && Without(cache, cache', gone')
    requires row[n] in gone' && ClosedUp(k, gone', cache')
    ensures Closing(k, gone + gone', cache', i, row, n + 1)
  {
    hide DependsOn;
    assert cache == map[] ==> cache' == map[];
  }

  lemma ClosingDone(k: Config, deps: Dependents, gone: set<int>, cache: Cache, i: int)
    requires DepsOk(k, deps) && i in k.items && Closing(k, gone, cache, i, deps[i], |deps[i]|)
    ensures ClosedUp(k, gone, cache)
  {
    hide DependsOn;
    forall a, b | a in gone && b in k.items && a in DependsOn(k.items[b]) ensures b in gone || Vis(b) !in cache {
      if a == i { assert b in deps[i]; }
    }
  }

  class Kconfig {
    const k: Config
    const deps: Dependents
    ghost const rank: Rank
    var value: map<int, Tri>          // user_value
    var selection: map<int, int>      // user_selection
    var cache: Cache

    ghost function Settings(): User
      reads this
    {
      User(value, selection)
    }

    ghost predicate Static() {
      WellFormed(k) && Acyclic(k, rank) && DepsOk(k, deps)
    }

    /** Every cached value is what evaluation without caches gives. */
    ghost predicate Valid()
      reads this
    {
      Static() && UserOk(k, Settings()) && Inv(k, Settings(), rank, cache)
    }

    constructor (k: Config, deps: Dependents, ghost rank: Rank)
      requires WellFormed(k) && Acyclic(k, rank) && DepsOk(k, deps)
      ensures Valid() && this.k == k && value == map[] && selection == map[] && cache == map[]
    {
      this.k, this.deps, this.rank := k, deps, rank;
      value, selection, cache := map[], map[], map[];
    }

    /** _rec_invalidate of symbols and choices. */
    method RecInvalidate(i: int) returns (ghost gone: set<int>)
      requires Static() && i in k.items
      modifies `cache
      ensures i in gone && Without(old(cache), cache, gone) && ClosedUp(k, gone, cache)
      decreases Marked(cache), if Vis(i) in cache then 0 else 1
    {
      hide DependsOn; hide Closing; hide ClosedUp; hide Without; hide Marked; hide Acyclic; hide WellFormed; hide DepsOk; hide Drop;
      DepsKnown(k, deps, i);
      MarkedIs(cache);
      if i == k.modules {
        gone := EverythingGone(cache, i);
        cache := map[];
        ClosedEmpty(k, gone);
        return;
      }
      DropIs(cache, i);
      cache := Drop(cache, i);
      gone := {i};
      ClosingStart(k, cache, i, deps[i]);
      var n := 0;
      while n < |deps[i]|
        invariant 0 <= n <= |deps[i]| && i in gone && Without(old(cache), cache, gone)
        invariant Closing(k, gone, cache, i, deps[i], n)
        invariant Marked(cache) <= Marked(old(cache)) - {Vis(i)}
      {
        var j := deps[i][n];
        if Vis(j) in cache {
          ghost var before := cache;
          ghost var more := RecInvalidate(j);
          ClosingNext(k, gone, before, i, deps[i], n, more, cache);
          WithoutTwice(old(cache), before, cache, gone, more);
          gone := gone + more;
        } else {
          ClosingSkip(k, gone, cache, i, deps[i], n);
        }
        n := n + 1;
      }
      ClosingDone(k, deps, gone, cache, i);
    }

    /** Symbol._rec_invalidate_if_has_prompt after a change of the symbol's user value. */
    method InvalidateIfPrompted(x: int, ghost u: User)
      requires Static() && IsSymbol(k, x) && UserOk(k, u) && UserOk(k, Settings()) && Inv(k, u, rank, cache)
      requires forall i :: i != x ==> SameAt(u, Settings(), i)
      modifies `cache
      ensures Valid()
    {
      hide DependsOn; hide ClosedUp; hide Without; hide Acyclic; hide WellFormed; hide DepsOk; hide Inv; hide UserOk; hide SameAt;
      if k.items[x].prompts != [] {
        ghost var before := cache;
        ghost var gone := RecInvalidate(x);
        InvalidateKeeps(k, u, Settings(), rank, before, cache, gone, x);
      } else {
        PromptlessKeeps(k, u, Settings(), rank, cache, x);
      }
    }

    /** Symbol.set_value with a tristate value. */
    method SetSymbol(x: int, v: int) returns (ok: bool)
      requires Valid() && IsSymbol(k, x)
      modifies this
      ensures Valid()
      ensures ok <==> v == 0 || v == 2 || (v == 1 && !k.items[x].bool_) || (old(x in value && value[x] == v) && !IsChoice(k, k.items[x].choice))
      ensures ok ==> x in value && value == old(value)[x := v]
      ensures selection == if ok && IsChoice(k, k.items[x].choice) && v == 2 then old(selection)[k.items[x].choice := x] else old(selection)
      ensures !ok ==> value == old(value) && cache == old(cache)
    {
      hide DependsOn; hide ClosedUp; hide Without; hide Acyclic; hide DepsOk; hide Inv;
      ghost var u := Settings();
      var c := k.items[x].choice;
      if x in value && value[x] == v && !IsChoice(k, c) {
        assert value == value[x := v];
        return true;
      }
      if !(v == 0 || v == 2 || (v == 1 && !k.items[x].bool_)) { return false; }
      value := value[x := v];
      if IsChoice(k, c) && v == 2 {
        selection := selection[c := x];
        ghost var before := cache;
        ghost var gone := RecInvalidate(c);
        InvalidateKeeps(k, u, Settings(), rank, before, cache, gone, c);
      } else {
        InvalidateIfPrompted(x, u);
      }
      return true;
    }

    /** Symbol.unset_value. */
    method UnsetSymbol(x: int)
      requires Valid() && IsSymbol(k, x)
      modifies this
      ensures Valid() && value == old(value) - {x} && selection == old(selection)
    {
      hide DependsOn; hide ClosedUp; hide Without; hide Acyclic; hide DepsOk; hide Inv;
      ghost var u := Settings();
      if x in value {
        value := value - {x};
        InvalidateIfPrompted(x, u);
      } else {
        assert value - {x} == value;
      }
    }

    /** Choice.set_value. */
    method SetChoice(c: int, v: int) returns (ok: bool)
      requires Valid() && IsChoice(k, c)
      modifies this
      ensures Valid() && selection == old(selection)
      ensures ok <==> v == 0 || v == 2 || (v == 1 && !k.items[c].bool_) || old(c in value && value[c] == v)
      ensures ok ==> c in value && value == old(value)[c := v]
      ensures !ok ==> value == old(value) && cache == old(cache)
    {
      hide DependsOn; hide ClosedUp; hide Without; hide Acyclic; hide DepsOk; hide Inv;
      ghost var u := Settings();
      if c in value && value[c] == v {
        assert value == value[c := v];
        return true;
      }
      if !(v == 0 || v == 2 || (v == 1 && !k.items[c].bool_)) { return false; }
      value := value[c := v];
      ghost var before := cache;
      ghost var gone := RecInvalidate(c);
      InvalidateKeeps(k, u, Settings(), rank, before, cache, gone, c);
      return true;
    }

    /** Choice.unset_value. */
    method UnsetChoice(c: int)
      requires Valid() && IsChoice(k, c)
      modifies this
      ensures Valid() && value == old(value) - {c} && selection == old(selection) - {c}
    {
      hide DependsOn; hide ClosedUp; hide Without; hide Acyclic; hide DepsOk; hide Inv;
      ghost var u := Settings();
      if c in value || c in selection {
        value, selection := value - {c}, selection - {c};
        ghost var before := cache;
        ghost var gone := RecInvalidate(c);
        InvalidateKeeps(k, u, Settings(), rank, before, cache, gone, c);
      } else {
        assert value - {c} == value && selection - {c} == selection;
      }
    }

    // ---- evaluation with caches

    /** The values of all cells for the present settings. */
    ghost function Now(): Lookup
      reads this
    {
      Values(k, Settings(), rank)
    }

    /** `o` has been evaluated: everything it uses is cached, and the rest of the cache is as it was. */
    ghost predicate Done(r: int, o: Out, was: Cache)
      reads this
    {
      r == o.v && o.used <= cache.Keys && Grown(was, cache)
    }

    ghost predicate Below(o: Out, bound: nat) {
      forall d :: d in o.used ==> rank(d) < bound
    }

    method ModulesIt(ghost bound: nat) returns (r: int)
      requires Valid() && Below(Modules(k, Now()), bound)
      modifies `cache
      ensures Valid() && Done(r, Modules(k, Now()), old(cache))
      decreases bound, 0
    {
      hide Inv; hide Acyclic; hide WellFormed; hide DepsOk; hide UserOk;
      GrownSelf(cache);
      if IsSymbol(k, k.modules) { r := TriValue(k.modules); } else { r := 0; }
    }

    /** Choice.tri_value. */
    method ModeIt(c: int, ghost bound: nat) returns (r: int)
      requires Valid() && IsChoice(k, c) && Below(Mode(k, Settings(), c, Now()), bound)
      modifies `cache
      ensures Valid() && Done(r, Mode(k, Settings(), c, Now()), old(cache))
      decreases bound, 1
    {
      hide Inv; hide Acyclic; hide WellFormed; hide DepsOk; hide UserOk; hide Modules; hide Grown;
      ghost var o := Mode(k, Settings(), c, Now());
      assert Vis(c) in o.used;
      var val := if k.items[c].optional then 0 else 1;
      if c in value { val := Hi(val, value[c]); }
      var vis := Visibility(c);
      val := Lo(val, vis);
      if val == 1 {
        if k.items[c].bool_ { return 2; }
        ghost var mid := cache;
        var m := ModulesIt(bound);
        GrownTwice(old(cache), mid, cache);
        return if m == 0 then 2 else 1;
      }
      return val;
    }

    method OperandIt(o: Operand, ghost bound: nat) returns (r: int)
      requires Valid() && Below(OperandValue(k, Settings(), o, Now()), bound)
      modifies `cache
      ensures Valid() && Done(r, OperandValue(k, Settings(), o, Now()), old(cache))
      decreases bound, 2
    {
      hide Inv; hide Acyclic; hide WellFormed; hide DepsOk; hide UserOk; hide Mode; hide Grown;
      GrownSelf(cache);
      match o {
        case Lit(v) => return v;
        case Ref(i, _, _) =>
          if IsSymbol(k, i) { r := TriValue(i); } else if IsChoice(k, i) { r := ModeIt(i, bound); } else { r := 0; }
      }
    }

    /** expr_value. */
    method EvalIt(e: Cond, ghost bound: nat) returns (r: int)
      requires Valid() && Below(Eval(k, Settings(), e, Now()), bound)
      modifies `cache
      ensures Valid() && Done(r, Eval(k, Settings(), e, Now()), old(cache))
      decreases bound, 3, e
    {
      hide Inv; hide Acyclic; hide WellFormed; hide DepsOk; hide UserOk; hide Mode; hide Grown;
      GrownSelf(cache);
      match e {
        case Const(v) => return v;
        case Item(i) =>
          if IsSymbol(k, i) { r := TriValue(i); } else if IsChoice(k, i) { r := ModeIt(i, bound); } else { r := 0; }
        case Neg(x) =>
          r := EvalIt(x, bound);
          r := 2 - r;
        case Both(a, b) =>
          r := EvalIt(a, bound);
          if r == 0 { return 0; }
          ghost var mid := cache;
          var r2 := EvalIt(b, bound);
          DoneTwice(old(cache), mid, cache, Eval(k, Settings(), a, Now()).used);
          return Lo(r, r2);
        case Either(a, b) =>
          r := EvalIt(a, bound);
          if r == 2 { return 2; }
          ghost var mid := cache;
          var r2 := EvalIt(b, bound);
          DoneTwice(old(cache), mid, cache, Eval(k, Settings(), a, Now()).used);
          return Hi(r, r2);
        case Compare(op, x, y) =>
          var v := OperandIt(x, bound);
          ghost var mid := cache;
          var w := OperandIt(y, bound);
          DoneTwice(old(cache), mid, cache, OperandValue(k, Settings(), x, Now()).used);
          return if KconfigExpr.Related(op, Compared(k, x, v, y, w)) then 2 else 0;
      }
    }

    /** The loop over the prompts. */
    method PromptsIt(ps: seq<Cond>, ghost bound: nat) returns (vis: int)
      requires Valid() && Below(Prompts(k, Settings(), ps, Now()), bound)
      modifies `cache
      ensures Valid() && Done(vis, Prompts(k, Settings(), ps, Now()), old(cache))
      decreases bound, 3
    {
      hide Inv; hide Acyclic; hide WellFormed; hide DepsOk; hide UserOk; hide Grown; hide Eval; hide Prompts;
      ghost var u, env := Settings(), Now();
      ghost var whole := Prompts(k, u, ps, env);
      GrownSelf(cache);
      PromptsStart(k, u, ps, env);
      vis := 0;
      var n := 0;
      while n < |ps|
        invariant 0 <= n <= |ps| && vis >= 0 && Valid() && Grown(old(cache), cache)
        invariant Hi(vis, Prompts(k, u, ps[n..], env).v) == whole.v
        invariant whole.used <= cache.Keys + Prompts(k, u, ps[n..], env).used && Prompts(k, u, ps[n..], env).used <= whole.used
      {
        PromptsNext(k, u, ps, n, env);
        ghost var before := cache;
        var r := EvalIt(ps[n], bound);
        GrownTwice(old(cache), before, cache);
        vis := Hi(vis, r);
        n := n + 1;
      }
      PromptsEnd(k, u, ps[n..], env);
    }

    /** The part of _visibility for symbols in a choice. */
    method HiddenIt(s: Entry, vis: int, ghost bound: nat) returns (r: int)
      requires Valid() && s.Symbol? && Below(Hidden(k, Settings(), s, vis, Now()), bound)
      modifies `cache
      ensures Valid() && Done(r, Hidden(k, Settings(), s, vis, Now()), old(cache))
      decreases bound, 3
    {
      hide Inv; hide Acyclic; hide WellFormed; hide DepsOk; hide UserOk; hide Grown; hide Mode;
      GrownSelf(cache);
      if !IsChoice(k, s.choice) { return 0; }
      if !k.items[s.choice].bool_ && s.bool_ {
        var m := ModeIt(s.choice, bound);
        return if m != 2 then 1 else 0;
      }
      if !s.bool_ && vis == 1 {
        var m := ModeIt(s.choice, bound);
        return if m == 2 then 1 else 0;
      }
      return 0;
    }

    method PromoteVisIt(bool_: bool, vis: int, ghost bound: nat) returns (r: int)
      requires Valid() && Below(PromoteVis(k, bool_, vis, Now()), bound)
      modifies `cache
      ensures Valid() && Done(r, PromoteVis(k, bool_, vis, Now()), old(cache))
      decreases bound, 3
    {
      hide Inv; hide Acyclic; hide WellFormed; hide DepsOk; hide UserOk; hide Grown; hide Modules;
      GrownSelf(cache);
      if vis != 1 { return vis; }
      if bool_ { return 2; }
      var m := ModulesIt(bound);
      return if m == 0 then 2 else 1;
    }

    /** _visibility. */
    method VisibilityOf(i: int) returns (r: int)
      requires Valid() && i in k.items && Below(VisStep(k, Settings(), i, Now()), rank(Vis(i)))
      modifies `cache
      ensures Valid() && Done(r, VisStep(k, Settings(), i, Now()), old(cache))
      decreases rank(Vis(i)), 8
    {
      hide Inv; hide Acyclic; hide WellFormed; hide DepsOk; hide UserOk; hide Grown; hide Prompts; hide Hidden; hide PromoteVis;
      ghost var bound, u, env := rank(Vis(i)), Settings(), Now();
      var x := k.items[i];
      var p := PromptsIt(x.prompts, bound);
      ghost var c1 := cache;
      var h := 0;
      if x.Symbol? { h := HiddenIt(x, p, bound); } else { GrownSelf(cache); }
      DoneTwice(old(cache), c1, cache, Prompts(k, u, x.prompts, env).used);
      if h != 0 { return 0; }
      ghost var c2 := cache;
      r := PromoteVisIt(x.bool_, p, bound);
      DoneTwice(old(cache), c2, cache, VisStep(k, u, i, env).used - PromoteVis(k, x.bool_, p, env).used);
    }

    /** Symbol.visibility and Choice.visibility. */
    method Visibility(i: int) returns (r: int)
      requires Valid() && i in k.items
      modifies `cache
      ensures Valid() && r == Value(k, Settings(), rank, Vis(i)) && Vis(i) in cache && Grown(old(cache), cache)
      decreases rank(Vis(i)), 9
    {
      hide Acyclic; hide WellFormed; hide DepsOk; hide UserOk; hide Grown; hide VisStep; hide Value; hide Inv;
      GrownSelf(cache);
      if Vis(i) in cache {
        CachedKnown(k, Settings(), rank, cache, Vis(i));
        return cache[Vis(i)];
      }
      ValueIsStep(k, Settings(), rank, Vis(i));
      r := VisibilityOf(i);
      CacheKeeps(k, Settings(), rank, cache, Vis(i), r);
      GrownTwice(old(cache), cache, cache[Vis(i) := r]);
      cache := cache[Vis(i) := r];
    }

    /** The loop over the defaults, which stops at the first whose condition is met. */
    method DefaultsIt(ds: seq<(Cond, Cond)>, ghost bound: nat) returns (r: int)
      requires Valid() && Below(Defaults(k, Settings(), ds, Now()), bound)
      modifies `cache
      ensures Valid() && Done(r, Defaults(k, Settings(), ds, Now()), old(cache))
      decreases bound, 3
    {
      hide Inv; hide Acyclic; hide WellFormed; hide DepsOk; hide UserOk; hide Grown; hide Eval; hide Defaults;
      ghost var u, env := Settings(), Now();
      ghost var whole := Defaults(k, u, ds, env);
      GrownSelf(cache);
      assert ds[0..] == ds;
      var n := 0;
      while n < |ds|
        invariant 0 <= n <= |ds| && Valid() && Grown(old(cache), cache)
        invariant Defaults(k, u, ds[n..], env).v == whole.v
        invariant whole.used <= cache.Keys + Defaults(k, u, ds[n..], env).used && Defaults(k, u, ds[n..], env).used <= whole.used
      {
        DefaultsNext(k, u, ds, n, env);
        ghost var before := cache;
        var c := EvalIt(ds[n].1, bound);
        GrownTwice(old(cache), before, cache);
        if c != 0 {
          ghost var mid := cache;
          var d := EvalIt(ds[n].0, bound);
          GrownTwice(old(cache), mid, cache);
          return Lo(d, c);
        }
        n := n + 1;
      }
      DefaultsEnd(k, u, ds[n..], env);
      return 0;
    }

    method FallbackIt(s: Entry, ghost bound: nat) returns (r: int)
      requires Valid() && s.Symbol? && Below(Fallback(k, Settings(), s, Now()), bound)
      modifies `cache
      ensures Valid() && Done(r, Fallback(k, Settings(), s, Now()), old(cache))
      decreases bound, 4
    {
      hide Inv; hide Acyclic; hide WellFormed; hide DepsOk; hide UserOk; hide Grown; hide Eval; hide Defaults;
      var d := DefaultsIt(s.defaults, bound);
      ghost var c1 := cache;
      var w := EvalIt(s.weakRevDep, bound);
      GrownTwice(old(cache), c1, cache);
      if w == 0 { return d; }
      ghost var c2 := cache;
      var dd := EvalIt(s.directDep, bound);
      GrownTwice(old(cache), c2, cache);
      return if dd != 0 then Hi(w, d) else d;
    }

    method SelectedIt(s: Entry, val: int, ghost bound: nat) returns (r: int)
      requires Valid() && s.Symbol? && Below(Selected(k, Settings(), s, val, Now()), bound)
      modifies `cache
      ensures Valid() && Done(r, Selected(k, Settings(), s, val, Now()), old(cache))
      decreases bound, 4
    {
      hide Inv; hide Acyclic; hide WellFormed; hide DepsOk; hide UserOk; hide Grown; hide Eval;
      var rev := EvalIt(s.revDep, bound);
      if rev == 0 { return val; }
      ghost var c1 := cache;
      var _ := EvalIt(s.directDep, bound);
      GrownTwice(old(cache), c1, cache);
      return Hi(rev, val);
    }

    method PromoteTriIt(s: Entry, val: int, ghost bound: nat) returns (r: int)
      requires Valid() && s.Symbol? && Below(PromoteTri(k, Settings(), s, val, Now()), bound)
      modifies `cache
      ensures Valid() && Done(r, PromoteTri(k, Settings(), s, val, Now()), old(cache))
      decreases bound, 4
    {
      hide Inv; hide Acyclic; hide WellFormed; hide DepsOk; hide UserOk; hide Grown; hide Eval; hide Modules;
      GrownSelf(cache);
      if val != 1 { return val; }
      if s.bool_ { return 2; }
      var m := ModulesIt(bound);
      if m == 0 { return 2; }
      ghost var c1 := cache;
      var w := EvalIt(s.weakRevDep, bound);
      GrownTwice(old(cache), c1, cache);
      return if w == 2 then 2 else 1;
    }

    /** Symbol.tri_value of a symbol outside choices. */
    method PlainIt(i: int) returns (r: int)
      requires Valid() && IsSymbol(k, i) && Below(PlainStep(k, Settings(), i, Now()), rank(TriVal(i)))
      modifies `cache
      ensures Valid() && Done(r, PlainStep(k, Settings(), i, Now()), old(cache))
      decreases rank(TriVal(i)), 7
    {
      hide Inv; hide Acyclic; hide WellFormed; hide DepsOk; hide UserOk; hide Grown; hide Fallback; hide Selected; hide PromoteTri;
      ghost var bound := rank(TriVal(i));
      var s := k.items[i];
      assert Vis(i) in PlainStep(k, Settings(), i, Now()).used;
      var vis := Visibility(i);
      ghost var c1 := cache;
      var val;
      if vis != 0 && i in value { val := Lo(value[i], vis); GrownSelf(cache); } else { val := FallbackIt(s, bound); }
      GrownTwice(old(cache), c1, cache);
      ghost var c2 := cache;
      val := SelectedIt(s, val, bound);
      GrownTwice(old(cache), c2, cache);
      ghost var c3 := cache;
      r := PromoteTriIt(s, val, bound);
      GrownTwice(old(cache), c3, cache);
    }

    /** Symbol.tri_value without its cache. */
    method TriValueOf(i: int) returns (r: int)
      requires Valid() && IsSymbol(k, i) && Below(TriStep(k, Settings(), i, Now()), rank(TriVal(i)))
      modifies `cache
      ensures Valid() && Done(r, TriStep(k, Settings(), i, Now()), old(cache)) && Vis(i) in cache
      decreases rank(TriVal(i)), 8
    {
      hide Inv; hide Acyclic; hide WellFormed; hide DepsOk; hide UserOk; hide Grown; hide PlainStep;
      var c := k.items[i].choice;
      PlainSees(k, Settings(), i, Now());
      assert Vis(i) in TriStep(k, Settings(), i, Now()).used;
      if !IsChoice(k, c) {
        r := PlainIt(i);
        return;
      }
      var vis := Visibility(i);
      if vis == 2 {
        ghost var c1 := cache;
        var s := Selection(c);
        GrownTwice(old(cache), c1, cache);
        return if s == i then 2 else 0;
      }
      return if vis != 0 && i in value && value[i] != 0 then 1 else 0;
    }

    /** Symbol.tri_value. */
    method TriValue(i: int) returns (r: int)
      requires Valid() && IsSymbol(k, i)
      modifies `cache
      ensures Valid() && r == Value(k, Settings(), rank, TriVal(i)) && TriVal(i) in cache && Grown(old(cache), cache)
      decreases rank(TriVal(i)), 9
    {
      hide Acyclic; hide WellFormed; hide DepsOk; hide UserOk; hide Grown; hide TriStep; hide Value; hide Inv;
      GrownSelf(cache);
      if TriVal(i) in cache {
        CachedKnown(k, Settings(), rank, cache, TriVal(i));
        return cache[TriVal(i)];
      }
      ValueIsStep(k, Settings(), rank, TriVal(i));
      r := TriValueOf(i);
      CacheKeeps(k, Settings(), rank, cache, TriVal(i), r);
      GrownTwice(old(cache), cache, cache[TriVal(i) := r]);
      cache := cache[TriVal(i) := r];
    }

    /** The loop over the default symbols of a choice. */
    method FirstDefaultIt(ds: seq<(int, Cond)>, ghost bound: nat) returns (r: int)
      requires Valid() && Below(FirstDefault(k, Settings(), ds, Now()), bound) && forall n :: 0 <= n < |ds| ==> ds[n].0 in k.items
      modifies `cache
      ensures Valid() && Done(r, FirstDefault(k, Settings(), ds, Now()), old(cache))
      decreases bound, 3
    {
      hide Inv; hide Acyclic; hide WellFormed; hide DepsOk; hide UserOk; hide Grown; hide Eval; hide FirstDefault;
      ghost var u, env := Settings(), Now();
      ghost var whole := FirstDefault(k, u, ds, env);
      GrownSelf(cache);
      assert ds[0..] == ds;
      var n := 0;
      while n < |ds|
        invariant 0 <= n <= |ds| && Valid() && Grown(old(cache), cache)
        invariant FirstDefault(k, u, ds[n..], env).v == whole.v
        invariant whole.used <= cache.Keys + FirstDefault(k, u, ds[n..], env).used
        invariant FirstDefault(k, u, ds[n..], env).used <= whole.used
      {
        FirstDefaultNext(k, u, ds, n, env);
        ghost var before := cache;
        var c := EvalIt(ds[n].1, bound);
        GrownTwice(old(cache), before, cache);
        if c != 0 {
          ghost var mid := cache;
          var v := Visibility(ds[n].0);
          GrownTwice(old(cache), mid, cache);
          if v != 0 { return ds[n].0; }
        }
        n := n + 1;
      }
      FirstDefaultEnd(k, u, ds[n..], env);
      return NONE;
    }

    /** The loop over the symbols of a choice. */
    method FirstVisibleIt(syms: seq<int>, ghost bound: nat) returns (r: int)
      requires Valid() && Below(FirstVisible(syms, Now()), bound) && forall s :: s in syms ==> s in k.items
      modifies `cache
      ensures Valid() && Done(r, FirstVisible(syms, Now()), old(cache))
      decreases bound, 3
    {
      hide Inv; hide Acyclic; hide WellFormed; hide DepsOk; hide UserOk; hide Grown; hide FirstVisible;
      ghost var env := Now();
      ghost var whole := FirstVisible(syms, env);
      GrownSelf(cache);
      assert syms[0..] == syms;
      var n := 0;
      while n < |syms|
        invariant 0 <= n <= |syms| && Valid() && Grown(old(cache), cache)
        invariant FirstVisible(syms[n..], env).v == whole.v
        invariant whole.used <= cache.Keys + FirstVisible(syms[n..], env).used && FirstVisible(syms[n..], env).used <= whole.used
      {
        FirstVisibleNext(syms, n, env);
        ghost var before := cache;
        var v := Visibility(syms[n]);
        GrownTwice(old(cache), before, cache);
        if v != 0 { return syms[n]; }
        n := n + 1;
      }
      FirstVisibleEnd(syms[n..], env);
      return NONE;
    }

    /** Choice._get_selection_from_defaults. */
    method AutoSelectionIt(c: int, ghost bound: nat) returns (r: int)
      requires Valid() && IsChoice(k, c) && Below(AutoSelection(k, Settings(), c, Now()), bound)
      modifies `cache
      ensures Valid() && Done(r, AutoSelection(k, Settings(), c, Now()), old(cache))
      decreases bound, 4
    {
      ChoiceKnown(k, c);
      hide Inv; hide Acyclic; hide WellFormed; hide DepsOk; hide UserOk; hide Grown; hide FirstDefault; hide FirstVisible;
      r := FirstDefaultIt(k.items[c].selections, bound);
      if r != NONE { return; }
      ghost var c1 := cache;
      r := FirstVisibleIt(k.items[c].syms, bound);
      GrownTwice(old(cache), c1, cache);
    }

    /** Choice._selection. */
    method SelectionOf(c: int) returns (r: int)
      requires Valid() && IsChoice(k, c) && Below(SelStep(k, Settings(), c, Now()), rank(Sel(c)))
      modifies `cache
      ensures Valid() && Done(r, SelStep(k, Settings(), c, Now()), old(cache))
      decreases rank(Sel(c)), 8
    {
      SelectionKnown(k, Settings(), c);
      hide Inv; hide Acyclic; hide WellFormed; hide DepsOk; hide UserOk; hide Grown; hide Mode; hide AutoSelection;
      ghost var bound := rank(Sel(c));
      var m := ModeIt(c, bound);
      if m != 2 { return NONE; }
      if c in selection {
        assert Vis(selection[c]) in SelStep(k, Settings(), c, Now()).used;
        ghost var c1 := cache;
        var v := Visibility(selection[c]);
        GrownTwice(old(cache), c1, cache);
        if v != 0 { return selection[c]; }
      }
      ghost var c2 := cache;
      r := AutoSelectionIt(c, bound);
      GrownTwice(old(cache), c2, cache);
    }

    /** Choice.selection. */
    method Selection(c: int) returns (r: int)
      requires Valid() && IsChoice(k, c)
      modifies `cache
      ensures Valid() && r == Value(k, Settings(), rank, Sel(c)) && Sel(c) in cache && Grown(old(cache), cache)
      decreases rank(Sel(c)), 9
    {
      hide Acyclic; hide WellFormed; hide DepsOk; hide UserOk; hide Grown; hide SelStep; hide Value; hide Inv;
      GrownSelf(cache);
      if Sel(c) in cache {
        CachedKnown(k, Settings(), rank, cache, Sel(c));
        return cache[Sel(c)];
      }
      ValueIsStep(k, Settings(), rank, Sel(c));
      SelSees(k, Settings(), c, Now());
      r := SelectionOf(c);
      CacheKeeps(k, Settings(), rank, cache, Sel(c), r);
      GrownTwice(old(cache), cache, cache[Sel(c) := r]);
      cache := cache[Sel(c) := r];
    }

    /** Any sequence of settings and reads: the settings are those of the sequence, and every read gives
        what evaluation without caches gives for the settings at that point. */
    method Play(actions: seq<Action>) returns (seen: seq<int>)
      requires Valid()
      modifies this
      ensures Valid() && Settings() == SettleAll(k, old(Settings()), actions)
      ensures seen == ReadAll(k, old(Settings()), rank, actions)
    {
      hide Acyclic; hide WellFormed; hide DepsOk; hide UserOk; hide Inv; hide Value; hide Settle; hide Grown; hide ReadOf;
      var n := 0;
      seen := [];
      assert actions[0..] == actions;
      while n < |actions|
        invariant 0 <= n <= |actions| && Valid()
        invariant SettleAll(k, Settings(), actions[n..]) == SettleAll(k, old(Settings()), actions)
        invariant seen + ReadAll(k, Settings(), rank, actions[n..]) == ReadAll(k, old(Settings()), rank, actions)
      {
        assert actions[n..][0] == actions[n] && actions[n..][1..] == actions[n + 1..];
        var r := Perform(actions[n]);
        seen := seen + [r];
        n := n + 1;
      }
    }

    method Perform(a: Action) returns (r: int)
      requires Valid()
      modifies this
      ensures Valid() && Settings() == Settle(k, old(Settings()), a) && r == ReadOf(k, Settings(), rank, a)
    {
      hide Acyclic; hide WellFormed; hide DepsOk; hide UserOk; hide Inv; hide Value; hide Grown;
      r := 0;
      match a {
        case SetSym(x, v) =>
          if IsSymbol(k, x) {
            if x in value && value[x] == v { assert value == value[x := v]; }
            var _ := SetSymbol(x, v);
          }
        case UnsetSym(x) => if IsSymbol(k, x) { UnsetSymbol(x); }
        case SetMode(c, v) =>
          if IsChoice(k, c) {
            if c in value && value[c] == v { assert value == value[c := v]; }
            var _ := SetChoice(c, v);
          }
        case UnsetMode(c) => if IsChoice(k, c) { UnsetChoice(c); }
        case ReadVis(i) => if i in k.items { r := Visibility(i); }
        case ReadTri(i) => if IsSymbol(k, i) { r := TriValue(i); }
        case ReadSel(c) => if IsChoice(k, c) { r := Selection(c); }
      }
    }
  }

  /** What a user of a configuration does. */
  datatype Action =
    | SetSym(x: int, v: int) | UnsetSym(x: int) | SetMode(c: int, v: int) | UnsetMode(c: int)
    | ReadVis(i: int) | ReadTri(i: int) | ReadSel(c: int)

  predicate Assignable(x: Entry, v: int) {
    v == 0 || v == 2 || (v == 1 && !x.bool_)
  }

  /** The settings after an action: invalid values are ignored, reads change nothing, and a choice
      symbol set to y becomes the user selection of its choice. */
  function Settle(k: Config, u: User, a: Action): User {
    match a
    case SetSym(x, v) =>
      if !IsSymbol(k, x) || !Assignable(k.items[x], v) then u
      else
        var c := k.items[x].choice;
        User(u.value[x := v], if IsChoice(k, c) && v == 2 then u.selection[c := x] else u.selection)
    case UnsetSym(x) => if IsSymbol(k, x) then u.(value := u.value - {x}) else u
    case SetMode(c, v) => if IsChoice(k, c) && Assignable(k.items[c], v) then u.(value := u.value[c := v]) else u
    case UnsetMode(c) => if IsChoice(k, c) then User(u.value - {c}, u.selection - {c}) else u
    case _ => u
  }

  function SettleAll(k: Config, u: User, actions: seq<Action>): User
    decreases |actions|
  {
    if actions == [] then u else SettleAll(k, Settle(k, u, actions[0]), actions[1..])
  }

  /** What an action gives back: the value of the cell it reads, without caches. */
  ghost function ReadOf(k: Config, u: User, rank: Rank, a: Action): int {
    match a
    case ReadVis(i) => if i in k.items then Value(k, u, rank, Vis(i)) else 0
    case ReadTri(i) => if IsSymbol(k, i) then Value(k, u, rank, TriVal(i)) else 0
    case ReadSel(c) => if IsChoice(k, c) then Value(k, u, rank, Sel(c)) else 0
    case _ => 0
  }

  ghost function ReadAll(k: Config, u: User, rank: Rank, actions: seq<Action>): seq<int>
    decreases |actions|
  {
    if actions == [] then []
    else var v := Settle(k, u, actions[0]); [ReadOf(k, v, rank, actions[0])] + ReadAll(k, v, rank, actions[1..])
  }

  lemma PlainSees(k: Config, u: User, i: int, env: Lookup)
    requires IsSymbol(k, i)
    ensures Vis(i) in PlainStep(k, u, i, env).used
  {}

  lemma SelSees(k: Config, u: User, c: int, env: Lookup)
    requires IsChoice(k, c)
    ensures Vis(c) in SelStep(k, u, c, env).used
  {}

  lemma ChoiceKnown(k: Config, c: int)
    requires WellFormed(k) && IsChoice(k, c)
    ensures forall s :: s in k.items[c].syms ==> s in k.items
    ensures forall n :: 0 <= n < |k.items[c].selections| ==> k.items[c].selections[n].0 in k.items
  {
    forall s | s in k.items[c].syms ensures s in k.items { assert IsSymbol(k, s); }
    forall n | 0 <= n < |k.items[c].selections| ensures k.items[c].selections[n].0 in k.items {
      assert IsSymbol(k, k.items[c].selections[n].0);
    }
  }

  lemma SelectionKnown(k: Config, u: User, c: int)
    requires WellFormed(k) && UserOk(k, u) && IsChoice(k, c)
    ensures c in u.selection ==> u.selection[c] in k.items
  {
    if c in u.selection { assert IsSymbol(k, u.selection[c]); }
  }

  lemma DefaultsNext(k: Config, u: User, ds: seq<(Cond, Cond)>, n: nat, env: Lookup)
    requires n < |ds|
    ensures var c, d, rest := Eval(k, u, ds[n].1, env), Eval(k, u, ds[n].0, env), Defaults(k, u, ds[n + 1..], env);
      Defaults(k, u, ds[n..], env) == if c.v != 0 then Out(Lo(d.v, c.v), c.used + d.used) else Out(rest.v, c.used + rest.used)
  {
    assert ds[n..][0] == ds[n] && ds[n..][1..] == ds[n + 1..];
  }

  lemma DefaultsEnd(k: Config, u: User, ds: seq<(Cond, Cond)>, env: Lookup)
    requires ds == []
    ensures Defaults(k, u, ds, env) == Out(0, {})
  {}

  lemma FirstDefaultNext(k: Config, u: User, ds: seq<(int, Cond)>, n: nat, env: Lookup)
    requires n < |ds|
    ensures var c, s, rest := Eval(k, u, ds[n].1, env), ds[n].0, FirstDefault(k, u, ds[n + 1..], env);
      FirstDefault(k, u, ds[n..], env) ==
      if c.v != 0 && env(Vis(s)) != 0 then Out(s, c.used + {Vis(s)})
      else Out(rest.v, c.used + (if c.v != 0 then {Vis(s)} else {}) + rest.used)
  {
    assert ds[n..][0] == ds[n] && ds[n..][1..] == ds[n + 1..];
  }

  lemma FirstDefaultEnd(k: Config, u: User, ds: seq<(int, Cond)>, env: Lookup)
    requires ds == []
    ensures FirstDefault(k, u, ds, env) == Out(NONE, {})
  {}

  lemma FirstVisibleNext(syms: seq<int>, n: nat, env: Lookup)
    requires n < |syms|
    ensures var s, rest := syms[n], FirstVisible(syms[n + 1..], env);
      FirstVisible(syms[n..], env) == if env(Vis(s)) != 0 then Out(s, {Vis(s)}) else Out(rest.v, {Vis(s)} + rest.used)
  {
    assert syms[n..][0] == syms[n] && syms[n..][1..] == syms[n + 1..];
  }

  lemma FirstVisibleEnd(syms: seq<int>, env: Lookup)
    requires syms == []
    ensures FirstVisible(syms, env) == Out(NONE, {})
  {}

  lemma {:induction false} PromptsStart(k: Config, u: User, ps: seq<Cond>, env: Lookup)
    ensures Prompts(k, u, ps, env).v >= 0 && ps[0..] == ps
  {
    if ps != [] { PromptsStart(k, u, ps[1..], env); }
  }

  lemma PromptsNext(k: Config, u: User, ps: seq<Cond>, n: nat, env: Lookup)
    requires n < |ps|
    ensures var r, rest := Eval(k, u, ps[n], env), Prompts(k, u, ps[n + 1..], env);
      Prompts(k, u, ps[n..], env) == Out(Hi(r.v, rest.v), r.used + rest.used)
  {
    assert ps[n..][0] == ps[n] && ps[n..][1..] == ps[n + 1..];
  }

  lemma PromptsEnd(k: Config, u: User, ps: seq<Cond>, env: Lookup)
    requires ps == []
    ensures Prompts(k, u, ps, env) == Out(0, {})
  {}

  /** `b` has everything that `a` has. */
  ghost predicate Grown(a: Cache, b: Cache) {
    forall c :: c in a ==> c in b && b[c] == a[c]
  }

  lemma GrownSelf(a: Cache)
    ensures Grown(a, a)
  {}

  lemma GrownTwice(a: Cache, b: Cache, c: Cache)
    requires Grown(a, b) && Grown(b, c)
    ensures Grown(a, c) && b.Keys <= c.Keys
  {}

  lemma DoneTwice(a: Cache, b: Cache, c: Cache, used: set<Cell>)
    requires Grown(a, b) && Grown(b, c) && used <= b.Keys
    ensures Grown(a, c) && used <= c.Keys
  {}

  lemma CacheKeeps(k: Config, u: User, rank: Rank, cache: Cache, c: Cell, v: int)
    requires Inv(k, u, rank, cache) && Known(k, c) && v == Value(k, u, rank, c) && Uses(k, u, rank, c) <= cache.Keys
    requires c.Vis? || Vis(c.i) in cache
    ensures Inv(k, u, rank, cache[c := v]) && Grown(cache, cache[c := v])
  {
    hide Value; hide Uses; hide Known;
  }

  lemma DepsKnown(k: Config, deps: Dependents, i: int)
    requires DepsOk(k, deps) && i in k.items
    ensures i in deps && forall m :: 0 <= m < |deps[i]| ==> deps[i][m] in k.items
  {
    hide DependsOn;
    forall m | 0 <= m < |deps[i]| ensures deps[i][m] in k.items {
      var b := deps[i][m];
      assert b in deps[i];
    }
  }

  lemma MarkedIs(cache: Cache)
    ensures forall i :: Vis(i) in Marked(cache) <==> Vis(i) in cache
  {}

  lemma EverythingGone(cache: Cache, i: int) returns (gone: set<int>)
    ensures i in gone && Without(cache, map[], gone)
  {
    gone := {i} + set c | c in cache.Keys :: c.i;
  }

  lemma ClosedEmpty(k: Config, gone: set<int>)
    ensures ClosedUp(k, gone, map[])
  {}
}
