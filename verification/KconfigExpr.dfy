/** Kconfig expressions: evaluation, printing and parsing (tools/kconfiglib.py). */
module KconfigExpr {

  datatype RelOp = Equal | Unequal | Less | LessEqual | Greater | GreaterEqual

  /** Expression trees over symbols, which are numbers here. */
  datatype Expr =
    | Sym(s: int)
    | Rel(op: RelOp, l: int, r: int)
    | Not(e: Expr)
    | And(a: Expr, b: Expr)
    | Or(a: Expr, b: Expr)

  datatype Token = TSym(s: int) | TRel(op: RelOp) | TNot | TAnd | TOr | TOpen | TClose | TOther(k: int)

  // ---- evaluation ---------------------------------------------------------------------------

  /** Values of the symbols: 0, 1 or 2 each, and how two of them compare as numbers or strings. */
  type Tri = x: int | 0 <= x <= 2

  datatype Env = Env(tri: int -> Tri, compare: (int, int) -> int)

  predicate Related(op: RelOp, comp: int) {
    match op
    case Equal => comp == 0
    case Unequal => comp != 0
    case Less => comp < 0
    case LessEqual => comp <= 0
    case Greater => comp > 0
    case GreaterEqual => comp >= 0
  }

  function Min(a: Tri, b: Tri): Tri {
    if a <= b then a else b
  }

  function Max(a: Tri, b: Tri): Tri {
    if a >= b then a else b
  }

  /** expr_value, with its short cuts. */
  function Value(e: Expr, env: Env): Tri {
    match e
    case Sym(s) => env.tri(s)
    case Rel(op, l, r) => if Related(op, env.compare(l, r)) then 2 else 0
    case Not(x) => 2 - Value(x, env)
    case And(a, b) => var v := Value(a, env); if v == 0 then 0 else Min(v, Value(b, env))
    case Or(a, b) => var v := Value(a, env); if v == 2 then 2 else Max(v, Value(b, env))
  }

  // ---- printing -----------------------------------------------------------------------------

  function Paren(ts: seq<Token>): seq<Token> {
    [TOpen] + ts + [TClose]
  }

  /** The tokens of expr_str. */
  function Print(e: Expr): seq<Token>
    decreases e, 0
  {
    match e
    case Sym(s) => [TSym(s)]
    case Rel(op, l, r) => [TSym(l), TRel(op), TSym(r)]
    case Not(x) => if x.Sym? then [TNot, TSym(x.s)] else [TNot] + Paren(Print(x))
    case And(a, b) => AndArg(a) + [TAnd] + AndArg(b)
    case Or(a, b) => OrArg(a) + [TOr] + OrArg(b)
  }

  /** An operand of &&: _parenthesize with OR. */
  function AndArg(e: Expr): seq<Token>
    decreases e, 1
  {
    if e.Or? then Paren(Print(e)) else Print(e)
  }

  /** An operand of ||: _parenthesize with AND. */
  function OrArg(e: Expr): seq<Token>
    decreases e, 1
  {
    if e.And? then Paren(Print(e)) else Print(e)
  }

  // ---- parsing ------------------------------------------------------------------------------

  datatype Parsed = Ok(e: Expr, rest: seq<Token>) | Malformed

  /** What `transform_m` needs: the symbols m and MODULES. */
  datatype Mode = Mode(transformM: bool, m: int, modules: int)

  predicate Starts(ts: seq<Token>, t: Token) {
    ts != [] && ts[0] == t
  }

  function ParseExpr(ts: seq<Token>, mode: Mode): (r: Parsed)
    ensures r.Ok? ==> |r.rest| < |ts|
    decreases |ts|, 2
  {
    var r := ParseAnd(ts, mode);
    if r.Malformed? || !Starts(r.rest, TOr) then r
    else
      var r2 := ParseExpr(r.rest[1..], mode);
      if r2.Malformed? then r2 else Ok(Or(r.e, r2.e), r2.rest)
  }

  function ParseAnd(ts: seq<Token>, mode: Mode): (r: Parsed)
    ensures r.Ok? ==> |r.rest| < |ts|
    decreases |ts|, 1
  {
    var r := ParseFactor(ts, mode);
    if r.Malformed? || !Starts(r.rest, TAnd) then r
    else
      var r2 := ParseAnd(r.rest[1..], mode);
      if r2.Malformed? then r2 else Ok(And(r.e, r2.e), r2.rest)
  }

  function ParseFactor(ts: seq<Token>, mode: Mode): (r: Parsed)
    ensures r.Ok? ==> |r.rest| < |ts|
    decreases |ts|, 0
  {
    if ts == [] then Malformed
    else
      match ts[0]
      case TSym(s) =>
        if |ts| > 1 && ts[1].TRel? then
          if |ts| > 2 && ts[2].TSym? then Ok(Rel(ts[1].op, s, ts[2].s), ts[3..]) else Malformed
        else if mode.transformM && s == mode.m then Ok(And(Sym(mode.m), Sym(mode.modules)), ts[1..])
        else Ok(Sym(s), ts[1..])
      case TNot =>
        var r := ParseFactor(ts[1..], mode);
        if r.Malformed? then r else Ok(Not(r.e), r.rest)
      case TOpen =>
        var r := ParseExpr(ts[1..], mode);
        if r.Ok? && Starts(r.rest, TClose) then Ok(r.e, r.rest[1..]) else Malformed
      case _ => Malformed
  }

  // ---- the right-associated form ---------------------------------------------------------------

  function AndThen(x: Expr, y: Expr): Expr {
    if x.And? then And(x.a, AndThen(x.b, y)) else And(x, y)
  }

  function OrThen(x: Expr, y: Expr): Expr {
    if x.Or? then Or(x.a, OrThen(x.b, y)) else Or(x, y)
  }

  /** `e` with chains of the same operator associated to the right. */
  function Right(e: Expr): Expr {
    match e
    case Sym(_) => e
    case Rel(_, _, _) => e
    case Not(x) => Not(Right(x))
    case And(a, b) => AndThen(Right(a), Right(b))
    case Or(a, b) => OrThen(Right(a), Right(b))
  }

  lemma {:induction false} AndThenAssoc(x: Expr, y: Expr, z: Expr)
    ensures AndThen(AndThen(x, y), z) == AndThen(x, AndThen(y, z))
  {
    if x.And? { AndThenAssoc(x.b, y, z); }
  }

  lemma {:induction false} OrThenAssoc(x: Expr, y: Expr, z: Expr)
    ensures OrThen(OrThen(x, y), z) == OrThen(x, OrThen(y, z))
  {
    if x.Or? { OrThenAssoc(x.b, y, z); }
  }

  lemma {:induction false} ThenValue(x: Expr, y: Expr, env: Env)
    ensures Value(AndThen(x, y), env) == Min(Value(x, env), Value(y, env))
    ensures Value(OrThen(x, y), env) == Max(Value(x, env), Value(y, env))
  {
    if x.And? || x.Or? { ThenValue(x.b, y, env); }
  }

  /** Re-association does not change the value. */
  lemma {:induction false} RightValue(e: Expr, env: Env)
    ensures Value(Right(e), env) == Value(e, env)
  {
    match e
    case Sym(_) =>
    case Rel(_, _, _) =>
    case Not(x) => RightValue(x, env);
    case And(a, b) => RightValue(a, env); RightValue(b, env); ThenValue(Right(a), Right(b), env);
    case Or(a, b) => RightValue(a, env); RightValue(b, env); ThenValue(Right(a), Right(b), env);
  }

  lemma {:induction false} RightKind(e: Expr)
    ensures Right(e).And? <==> e.And?
    ensures Right(e).Or? <==> e.Or?
  {}

  // ---- the round trip -------------------------------------------------------------------------

  predicate StartsRel(ts: seq<Token>) {
    ts != [] && ts[0].TRel?
  }

  /** What the parser makes of `x` and the tokens behind it, inside a chain of && or of ||. */
  function AndRest(x: Expr, rest: seq<Token>, mode: Mode): Parsed {
    if !Starts(rest, TAnd) then Ok(x, rest)
    else
      var r := ParseAnd(rest[1..], mode);
      if r.Malformed? then r else Ok(AndThen(x, r.e), r.rest)
  }

  function OrRest(x: Expr, rest: seq<Token>, mode: Mode): Parsed {
    if !Starts(rest, TOr) then Ok(x, rest)
    else
      var r := ParseExpr(rest[1..], mode);
      if r.Malformed? then r else Ok(OrThen(x, r.e), r.rest)
  }

  lemma {:induction false} ParenRound(e: Expr, rest: seq<Token>, mode: Mode)
    requires !mode.transformM
    ensures ParseFactor(Paren(Print(e)) + rest, mode) == Ok(Right(e), rest)
    decreases e, 4
  {
    var ts := Paren(Print(e)) + rest;
    assert ts[1..] == Print(e) + ([TClose] + rest);
    ExprRound(e, [TClose] + rest, mode);
    assert ([TClose] + rest)[1..] == rest;
  }

  lemma {:induction false} FactorRound(e: Expr, rest: seq<Token>, mode: Mode)
    requires !mode.transformM && !e.And? && !e.Or? && !StartsRel(rest)
    ensures ParseFactor(Print(e) + rest, mode) == Ok(Right(e), rest)
    decreases e, 1
  {
    var ts := Print(e) + rest;
    match e
    case Sym(s) =>
      assert ts[1..] == rest;
    case Rel(op, l, r) =>
      assert ts[0] == TSym(l) && ts[1] == TRel(op) && ts[2] == TSym(r) && ts[3..] == rest;
    case Not(x) =>
      if x.Sym? {
        assert ts[1..] == [TSym(x.s)] + rest;
        FactorRound(x, rest, mode);
      } else {
        assert ts[1..] == Paren(Print(x)) + rest;
        ParenRound(x, rest, mode);
      }
  }

  lemma {:induction false} AndRound(e: Expr, rest: seq<Token>, mode: Mode)
    requires !mode.transformM && !StartsRel(rest)
    ensures ParseAnd(AndArg(e) + rest, mode) == AndRest(Right(e), rest, mode)
    decreases e, if e.Or? then 5 else 2
  {
    RightKind(e);
    match e
    case And(a, b) =>
      var tail := [TAnd] + (AndArg(b) + rest);
      assert AndArg(e) + rest == AndArg(a) + tail && tail[1..] == AndArg(b) + rest;
      AndRound(a, tail, mode);
      AndRound(b, rest, mode);
      if Starts(rest, TAnd) && ParseAnd(rest[1..], mode).Ok? {
        AndThenAssoc(Right(a), Right(b), ParseAnd(rest[1..], mode).e);
      }
    case Or(_, _) => ParenRound(e, rest, mode);
    case _ => FactorRound(e, rest, mode);
  }

  lemma {:induction false} OrRound(e: Expr, rest: seq<Token>, mode: Mode)
    requires !mode.transformM && !StartsRel(rest) && !Starts(rest, TAnd)
    ensures ParseExpr(OrArg(e) + rest, mode) == OrRest(Right(e), rest, mode)
    decreases e, if e.And? then 5 else 2
  {
    RightKind(e);
    match e
    case Or(a, b) =>
      var tail := [TOr] + (OrArg(b) + rest);
      assert OrArg(e) + rest == OrArg(a) + tail && tail[1..] == OrArg(b) + rest;
      OrRound(a, tail, mode);
      OrRound(b, rest, mode);
      if Starts(rest, TOr) && ParseExpr(rest[1..], mode).Ok? {
        OrThenAssoc(Right(a), Right(b), ParseExpr(rest[1..], mode).e);
      }
    case And(_, _) =>
      ParenRound(e, rest, mode);
      assert ParseAnd(OrArg(e) + rest, mode) == Ok(Right(e), rest);
    case _ =>
      FactorRound(e, rest, mode);
      assert ParseAnd(OrArg(e) + rest, mode) == Ok(Right(e), rest);
  }

  lemma {:induction false} ExprRound(e: Expr, rest: seq<Token>, mode: Mode)
    requires !mode.transformM && !StartsRel(rest) && !Starts(rest, TAnd) && !Starts(rest, TOr)
    ensures ParseExpr(Print(e) + rest, mode) == Ok(Right(e), rest)
    decreases e, 3
  {
    if e.And? { AndRound(e, rest, mode); } else { OrRound(e, rest, mode); }
  }

  /** Printing an expression and parsing the tokens uses all of them and gives the right-associated
      form, which has the same value under every assignment. */
  lemma RoundTrip(e: Expr, mode: Mode, env: Env)
    ensures ParseExpr(Print(e), mode) == Ok(if mode.transformM then WithModules(Right(e), mode) else Right(e), [])
    ensures Value(Right(e), env) == Value(e, env)
  {
    hide ParseExpr; hide WithModules;
    assert Print(e) + [] == Print(e);
    ExprRound(e, [], mode.(transformM := false));
    RightValue(e, env);
    if mode.transformM { TransformExpr(Print(e), mode); }
  }

  lemma {:induction false} ThenRight(x: Expr, y: Expr)
    requires Right(x) == x && Right(y) == y
    ensures Right(AndThen(x, y)) == AndThen(x, y)
    ensures Right(OrThen(x, y)) == OrThen(x, y)
  {
    if x.And? {
      RightParts(x);
      ThenRight(x.b, y);
    } else if x.Or? {
      RightParts(x);
      ThenRight(x.b, y);
    }
    RightKind(x);
  }

  /** A right-associated chain has a first operand that is not a chain, and the rest is one. */
  lemma {:induction false} RightParts(x: Expr)
    requires Right(x) == x && (x.And? || x.Or?)
    ensures x.And? ==> !x.a.And?
    ensures x.Or? ==> !x.a.Or?
    ensures Right(x.a) == x.a && Right(x.b) == x.b
  {
    RightKind(x.a);
    if x.And? && x.a.And? { Depth(Right(x.a), Right(x.b)); RightSize(x.a); }
    if x.Or? && x.a.Or? { Depth(Right(x.a), Right(x.b)); RightSize(x.a); }
  }

  ghost function Size(e: Expr): nat {
    match e
    case Sym(_) => 1
    case Rel(_, _, _) => 1
    case Not(x) => 1 + Size(x)
    case And(a, b) => 1 + Size(a) + Size(b)
    case Or(a, b) => 1 + Size(a) + Size(b)
  }

  lemma {:induction false} Depth(x: Expr, y: Expr)
    ensures Size(AndThen(x, y)) == Size(OrThen(x, y)) == 1 + Size(x) + Size(y)
    ensures AndThen(x, y).a == (if x.And? then x.a else x)
    ensures OrThen(x, y).a == (if x.Or? then x.a else x)
  {
    if x.And? || x.Or? { Depth(x.b, y); }
  }

  lemma {:induction false} RightSize(e: Expr)
    ensures Size(Right(e)) == Size(e)
  {
    match e
    case Sym(_) =>
    case Rel(_, _, _) =>
    case Not(x) => RightSize(x);
    case And(a, b) => RightSize(a); RightSize(b); Depth(Right(a), Right(b));
    case Or(a, b) => RightSize(a); RightSize(b); Depth(Right(a), Right(b));
  }

  /** A second round trip changes nothing more. */
  lemma {:induction false} RightStable(e: Expr)
    ensures Right(Right(e)) == Right(e)
  {
    match e
    case Sym(_) =>
    case Rel(_, _, _) =>
    case Not(x) => RightStable(x);
    case And(a, b) => RightStable(a); RightStable(b); ThenRight(Right(a), Right(b));
    case Or(a, b) => RightStable(a); RightStable(b); ThenRight(Right(a), Right(b));
  }

  // ---- m in Kconfig files -------------------------------------------------------------------------

  /** `e` with the symbol m, other than in relations, replaced by m && MODULES. */
  function WithModules(e: Expr, mode: Mode): Expr {
    match e
    case Sym(s) => if s == mode.m then And(Sym(mode.m), Sym(mode.modules)) else e
    case Rel(_, _, _) => e
    case Not(x) => Not(WithModules(x, mode))
    case And(a, b) => And(WithModules(a, mode), WithModules(b, mode))
    case Or(a, b) => Or(WithModules(a, mode), WithModules(b, mode))
  }

  function ParsedWithModules(p: Parsed, mode: Mode): Parsed {
    if p.Ok? then Ok(WithModules(p.e, mode), p.rest) else p
  }

  lemma {:induction false} TransformFactor(ts: seq<Token>, mode: Mode)
    requires mode.transformM
    ensures ParseFactor(ts, mode) == ParsedWithModules(ParseFactor(ts, mode.(transformM := false)), mode)
    decreases |ts|, 0
  {
    if ts != [] {
      if ts[0].TNot? { TransformFactor(ts[1..], mode); } else if ts[0].TOpen? { TransformExpr(ts[1..], mode); }
    }
  }

  lemma {:induction false} TransformAnd(ts: seq<Token>, mode: Mode)
    requires mode.transformM
    ensures ParseAnd(ts, mode) == ParsedWithModules(ParseAnd(ts, mode.(transformM := false)), mode)
    decreases |ts|, 1
  {
    TransformFactor(ts, mode);
    var r := ParseFactor(ts, mode);
    if r.Ok? && Starts(r.rest, TAnd) { TransformAnd(r.rest[1..], mode); }
  }

  /** transform_m makes m mean m && MODULES in every token sequence, and changes nothing else. */
  lemma {:induction false} TransformExpr(ts: seq<Token>, mode: Mode)
    requires mode.transformM
    ensures ParseExpr(ts, mode) == ParsedWithModules(ParseExpr(ts, mode.(transformM := false)), mode)
    decreases |ts|, 2
  {
    TransformAnd(ts, mode);
    var r := ParseAnd(ts, mode);
    if r.Ok? && Starts(r.rest, TOr) { TransformExpr(r.rest[1..], mode); }
  }

  /** Then m is at most what MODULES is. */
  lemma {:induction false} TransformValue(e: Expr, mode: Mode, env: Env)
    ensures Value(WithModules(e, mode), env) ==
      Value(e, env.(tri := (s: int) => if s == mode.m then Min(env.tri(mode.m), env.tri(mode.modules)) else env.tri(s)))
  {
    match e
    case Sym(_) =>
    case Rel(_, _, _) =>
    case Not(x) => TransformValue(x, mode, env);
    case And(a, b) => TransformValue(a, mode, env); TransformValue(b, mode, env);
    case Or(a, b) => TransformValue(a, mode, env); TransformValue(b, mode, env);
  }

  // ---- simplifying constructors ------------------------------------------------------------------

  /** The constant symbols n, m and y. */
  datatype Constants = Constants(n: int, y: int)

  function MakeAnd(e1: Expr, e2: Expr, c: Constants): Expr {
    if e1 == Sym(c.y) then e2
    else if e2 == Sym(c.y) then e1
    else if e1 == Sym(c.n) || e2 == Sym(c.n) then Sym(c.n)
    else And(e1, e2)
  }

  function MakeOr(e1: Expr, e2: Expr, c: Constants): Expr {
    if e1 == Sym(c.n) then e2
    else if e2 == Sym(c.n) then e1
    else if e1 == Sym(c.y) || e2 == Sym(c.y) then Sym(c.y)
    else Or(e1, e2)
  }

  lemma AndValue(e1: Expr, e2: Expr, env: Env)
    ensures Value(And(e1, e2), env) == Min(Value(e1, env), Value(e2, env))
    ensures Value(Or(e1, e2), env) == Max(Value(e1, env), Value(e2, env))
  {}

  lemma SymValue(s: int, env: Env)
    ensures Value(Sym(s), env) == env.tri(s)
  {}

  /** _make_and and _make_or simplify without changing the value. */
  lemma MakeAndValue(e1: Expr, e2: Expr, c: Constants, env: Env)
    requires env.tri(c.n) == 0 && env.tri(c.y) == 2
    ensures Value(MakeAnd(e1, e2, c), env) == Value(And(e1, e2), env)
  {
    AndValue(e1, e2, env);
    SymValue(c.n, env);
    SymValue(c.y, env);
    hide Value;
  }

  lemma MakeOrValue(e1: Expr, e2: Expr, c: Constants, env: Env)
    requires env.tri(c.n) == 0 && env.tri(c.y) == 2
    ensures Value(MakeOr(e1, e2, c), env) == Value(Or(e1, e2), env)
  {
    AndValue(e1, e2, env);
    SymValue(c.n, env);
    SymValue(c.y, env);
    hide Value;
  }

  predicate IsConstant(e: Expr, c: Constants) {
    e == Sym(c.n) || e == Sym(c.y)
  }

  /** No operand of && or || is n or y. */
  predicate Trimmed(e: Expr, c: Constants) {
    match e
    case Sym(_) => true
    case Rel(_, _, _) => true
    case Not(x) => Trimmed(x, c)
    case And(a, b) => Trimmed(a, c) && Trimmed(b, c) && !IsConstant(a, c) && !IsConstant(b, c)
    case Or(a, b) => Trimmed(a, c) && Trimmed(b, c) && !IsConstant(a, c) && !IsConstant(b, c)
  }

  /** They leave no operand that is n or y. */
  lemma MakeTrims(e1: Expr, e2: Expr, c: Constants)
    requires Trimmed(e1, c) && Trimmed(e2, c)
    ensures Trimmed(MakeAnd(e1, e2, c), c) && Trimmed(MakeOr(e1, e2, c), c)
  {
    if MakeAnd(e1, e2, c) == And(e1, e2) { assert Trimmed(And(e1, e2), c); }
    if MakeOr(e1, e2, c) == Or(e1, e2) { assert Trimmed(Or(e1, e2), c); }
  }

  // ---- the parser -------------------------------------------------------------------------------

  datatype Option = Some(e: Expr) | None

  /** The parser with its cursor: `i` is the index of the last token used. */
  class Parser {
    const tokens: seq<Token>
    const mode: Mode
    var i: int

    constructor (tokens: seq<Token>, mode: Mode)
      ensures this.tokens == tokens && this.mode == mode && i == -1
    {
      this.tokens, this.mode, i := tokens, mode, -1;
    }

    ghost predicate Valid()
      reads this
    {
      -1 <= i < |tokens|
    }

    /** The tokens still to come. */
    ghost function Left(): seq<Token>
      requires Valid()
      reads this
    {
      tokens[i + 1..]
    }

    /** The result of a parse, read off the cursor. */
    ghost predicate Agrees(r: Option, p: Parsed)
      requires Valid()
      reads this
    {
      if r.Some? then p == Ok(r.e, Left()) else p == Malformed
    }

    /** _check_token. */
    method Check(t: Token) returns (ok: bool)
      requires Valid()
      modifies this
      ensures Valid() && ok == old(Starts(Left(), t))
      ensures i == old(i) + if ok then 1 else 0
    {
      ok := i + 1 < |tokens| && tokens[i + 1] == t;
      if ok { i := i + 1; }
    }

    /** _parse_expr. */
    method Expr() returns (r: Option)
      requires Valid()
      modifies this
      ensures Valid() && old(i) <= i && Agrees(r, ParseExpr(old(Left()), mode))
      decreases |tokens| - i, 2
    {
      r := AndExpr();
      if r.None? { return; }
      var more := Check(TOr);
      if more {
        var r2 := Expr();
        r := if r2.None? then None else Some(Or(r.e, r2.e));
      }
    }

    /** _parse_and_expr. */
    method AndExpr() returns (r: Option)
      requires Valid()
      modifies this
      ensures Valid() && old(i) <= i && Agrees(r, ParseAnd(old(Left()), mode))
      decreases |tokens| - i, 1
    {
      r := Factor();
      if r.None? { return; }
      var more := Check(TAnd);
      if more {
        var r2 := AndExpr();
        r := if r2.None? then None else Some(And(r.e, r2.e));
      }
    }

    /** _parse_factor. */
    method Factor() returns (r: Option)
      requires Valid()
      modifies this
      ensures Valid() && old(i) <= i && Agrees(r, ParseFactor(old(Left()), mode))
      decreases |tokens| - i, 0
    {
      if i + 1 == |tokens| { return None; }
      i := i + 1;
      match tokens[i] {
        case TSym(s) =>
          if i + 1 < |tokens| && tokens[i + 1].TRel? {
            var op := tokens[i + 1].op;
            i := i + 1;
            if i + 1 == |tokens| || !tokens[i + 1].TSym? { return None; }
            i := i + 1;
            return Some(Rel(op, s, tokens[i].s));
          } else if mode.transformM && s == mode.m {
            return Some(And(Sym(mode.m), Sym(mode.modules)));
          } else {
            return Some(Sym(s));
          }
        case TNot =>
          var x := Factor();
          return if x.None? then None else Some(Not(x.e));
        case TOpen =>
          var x := Expr();
          if x.None? { return None; }
          var closed := Check(TClose);
          return if closed then x else None;
        case _ => return None;
      }
    }
  }
}
