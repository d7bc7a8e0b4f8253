/**
 What a `calc()` expression means: an abstract syntax, its printed tokens, and a denotation over
 the reals.  What each math function computes, and where it departs from section 10 of CSS Values and
 Units Level 4, is said in `CalcLaws`.
 */
module CalcMeaning {
  import opened Options
  import opened Text
  import opened CalcTokens

  /**
   The context an expression is evaluated in.  `pi` and `e` are the two named constants;
   `transcendental` stands for the math package's functions, of which nothing is assumed.
   */
  datatype Ctx = Ctx(em: real, rem: real, vw: real, vh: real, pctBase: real, allowPct: bool,
                     pi: real, e: real, transcendental: (string, seq<real>) -> real)

  datatype Op = Add | Sub | Mul | Div

  datatype Expr =
    | Lit(tok: Token)
    | Sign(negative: bool, arg: Expr)
    | Group(inner: Expr)
    | Bin(op: Op, left: Expr, right: Expr)
      /** `strategy` is the leading keyword argument of `round()`, as the tokens it was written in. */
    | Fn(name: Token, strategy: Option<seq<Token>>, args: seq<Expr>)

  // ---------------------------------------------------------------- printing

  function OpToken(op: Op): Token {
    match op case Add => "+" case Sub => "-" case Mul => "*" case Div => "/"
  }

  function Commas(parts: seq<seq<Token>>): seq<Token> {
    if parts == [] then []
    else if |parts| == 1 then parts[0]
    else parts[0] + [","] + Commas(parts[1..])
  }

  function Print(e: Expr): seq<Token> {
    match e
    case Lit(tok) => [tok]
    case Sign(negative, arg) => [if negative then "-" else "+"] + Print(arg)
    case Group(inner) => ["("] + Print(inner) + [")"]
    case Bin(op, left, right) => Print(left) + [OpToken(op)] + Print(right)
    case Fn(name, strategy, args) => [name, "("] + Commas(Parts(strategy, PrintAll(args))) + [")"]
  }

  function PrintAll(args: seq<Expr>): (parts: seq<seq<Token>>)
    ensures |parts| == |args|
    ensures forall i :: 0 <= i < |args| ==> parts[i] == Print(args[i])
  {
    if args == [] then [] else [Print(args[0])] + PrintAll(args[1..])
  }

  function Parts(strategy: Option<seq<Token>>, parts: seq<seq<Token>>): seq<seq<Token>> {
    if strategy.Some? then [strategy.value] + parts else parts
  }

  // ---------------------------------------------------------------- well-formed trees

  /** 0 for sums, 1 for products, 2 for a signed atom, 3 for an atom. */
  function Level(e: Expr): nat {
    match e
    case Bin(op, _, _) => if op.Add? || op.Sub? then 0 else 1
    case Sign(_, _) => 2
    case _ => 3
  }

  predicate IsNumeric(t: Token)
    requires t != ""
  {
    IsDigit(t[0]) || t[0] == '.'
  }

  /**
   The trees the grammar has: operators associate to the left, at most one sign stands before an
   atom, and a first argument of `round()` that spells a strategy is its strategy.
   */
  predicate WellFormed(e: Expr) {
    match e
    case Lit(tok) => IsWord(tok)
    case Sign(_, arg) => WellFormed(arg) && Level(arg) == 3
    case Group(inner) => WellFormed(inner)
    case Bin(op, left, right) =>
      WellFormed(left) && WellFormed(right) && Level(left) >= Level(e) && Level(right) > Level(e)
    case Fn(name, strategy, args) =>
      && IsWord(name) && !IsNumeric(name)
      && (strategy.None? ==> args != [])
      && (strategy.Some? ==> Lower(name) == "round" && AllTokens(strategy.value)
                             && StrategyOf(Join(strategy.value)).Some?)
      && (strategy.None? && Lower(name) == "round" ==> StrategyOf(Join(Print(args[0]))).None?)
      && (forall i :: 0 <= i < |args| ==> WellFormed(args[i]))
  }

  // ---------------------------------------------------------------- rounding

  datatype Strategy = Nearest | Up | Down | ToZero

  /** A strategy keyword as the code recognises it: trimmed, lower-cased, spaces dropped. */
  function StrategyOf(text: string): Option<Strategy> {
    Keyword(Without(Lower(Trim(text)), ' '))
  }

  function Keyword(word: string): Option<Strategy> {
    if word == "nearest" then Some(Nearest)
    else if word == "up" then Some(Up)
    else if word == "down" then Some(Down)
    else if word == "to-zero" then Some(ToZero)
    else None
  }

  function Floor(x: real): int {
    x.Floor
  }

  function Ceil(x: real): int {
    -((-x).Floor)
  }

  function Trunc(x: real): int {
    if x < 0.0 then Ceil(x) else Floor(x)
  }

  /** Ties go away from zero. */
  function RoundHalfAway(x: real): int {
    if x < 0.0 then Ceil(x - 0.5) else Floor(x + 0.5)
  }

  function RoundTo(v: real, step: real, strategy: Strategy): real
    requires step != 0.0
  {
    var size := if step < 0.0 then -step else step;
    var ratio := v / size;
    var whole := match strategy
                 case Up => Ceil(ratio)
                 case Down => Floor(ratio)
                 case ToZero => Trunc(ratio)
                 case Nearest => RoundHalfAway(ratio);
    whole as real * size
  }

  // ---------------------------------------------------------------- the functions

  function MinOf(vals: seq<real>): real
    requires vals != []
  {
    if |vals| == 1 then vals[0]
    else
      var m := MinOf(vals[..|vals| - 1]);
      if vals[|vals| - 1] < m then vals[|vals| - 1] else m
  }

  function MaxOf(vals: seq<real>): real
    requires vals != []
  {
    if |vals| == 1 then vals[0]
    else
      var m := MaxOf(vals[..|vals| - 1]);
      if vals[|vals| - 1] > m then vals[|vals| - 1] else m
  }

  function Max(a: real, b: real): real {
    if a < b then b else a
  }

  function Min(a: real, b: real): real {
    if b < a then b else a
  }

  function ModOf(a: real, b: real): real
    requires b != 0.0
  {
    a - b * Floor(a / b) as real
  }

  function RemOf(a: real, b: real): real
    requires b != 0.0
  {
    a - b * Trunc(a / b) as real
  }

  function RoundVals(strategy: Strategy, vals: seq<real>): Option<real> {
    if |vals| == 1 then Some(RoundTo(vals[0], 1.0, strategy))
    else if |vals| == 2 && vals[1] != 0.0 then Some(RoundTo(vals[0], vals[1], strategy))
    else None
  }

  /** A function name, lower-cased, applied to the values of its arguments. */
  function Apply(c: Ctx, name: string, vals: seq<real>): Option<real> {
    var math := (n: string) => Some(c.transcendental(n, vals));
    if name == "calc" then (if |vals| == 1 then Some(vals[0]) else None)
    else if name == "min" then (if |vals| >= 1 then Some(MinOf(vals)) else None)
    else if name == "max" then (if |vals| >= 1 then Some(MaxOf(vals)) else None)
    else if name == "clamp" then (if |vals| == 3 then Some(Max(vals[0], Min(vals[1], vals[2]))) else None)
    else if name == "abs" then (if |vals| == 1 then Some(if vals[0] < 0.0 then -vals[0] else vals[0]) else None)
    else if name == "sign" then
      (if |vals| == 1 then Some(if vals[0] > 0.0 then 1.0 else if vals[0] < 0.0 then -1.0 else 0.0) else None)
    else if name == "mod" then
      (if |vals| == 2 && vals[1] != 0.0 then Some(ModOf(vals[0], vals[1])) else None)
    else if name == "rem" then
      (if |vals| == 2 && vals[1] != 0.0 then Some(RemOf(vals[0], vals[1])) else None)
    else if name == "round" then RoundVals(Nearest, vals)
    else if name == "sin" || name == "cos" || name == "tan" || name == "atan" || name == "exp" then
      (if |vals| == 1 then math(name) else None)
    else if name == "asin" || name == "acos" then
      (if |vals| == 1 && -1.0 <= vals[0] <= 1.0 then math(name) else None)
    else if name == "sqrt" then (if |vals| == 1 && vals[0] >= 0.0 then math(name) else None)
    else if name == "atan2" || name == "pow" then (if |vals| == 2 then math(name) else None)
    else if name == "hypot" then (if |vals| >= 1 then math(name) else None)
    else if name == "log" then
      (if |vals| == 1 && vals[0] > 0.0 then math(name)
       else if |vals| == 2 && vals[0] > 0.0 && vals[1] > 0.0 && vals[1] != 1.0 then math(name)
       else None)
    else None
  }

  // ---------------------------------------------------------------- literals

  function NumberRun(s: string): (n: nat)
    ensures n <= |s|
    ensures forall i :: 0 <= i < n ==> IsDigit(s[i]) || s[i] == '.'
    ensures n < |s| ==> !IsDigit(s[n]) && s[n] != '.'
  {
    if s == "" || !(IsDigit(s[0]) || s[0] == '.') then 0 else 1 + NumberRun(s[1..])
  }

  /** Pixels (or radians, or a plain number) that one of this lower-cased unit makes. */
  function UnitSize(c: Ctx, unit: string): Option<real> {
    if unit == "px" || unit == "" then Some(1.0)
    else if unit == "deg" then Some(c.pi / 180.0)
    else if unit == "grad" then Some(c.pi / 200.0)
    else if unit == "rad" then Some(1.0)
    else if unit == "turn" then Some(2.0 * c.pi)
    else if unit == "%" then (if c.allowPct then Some(c.pctBase / 100.0) else None)
    else if unit == "em" || unit == "ex" then Some(c.em)
    else if unit == "ch" then Some(c.em * 0.5)
    else if unit == "rem" then Some(if c.rem <= 0.0 then 16.0 else c.rem)
    else if unit == "pt" then Some(96.0 / 72.0)
    else if unit == "pc" then Some(16.0)
    else if unit == "in" then Some(96.0)
    else if unit == "cm" then Some(96.0 / 2.54)
    else if unit == "mm" then Some(96.0 / 25.4)
    else if unit in ["vw", "svw", "dvw", "lvw", "vi", "cqw", "cqi"] then Some(c.vw / 100.0)
    else if unit in ["vh", "svh", "dvh", "lvh", "vb", "cqh", "cqb"] then Some(c.vh / 100.0)
    else if unit in ["vmin", "svmin", "dvmin", "lvmin", "cqmin"] then Some(Min(c.vw, c.vh) / 100.0)
    else if unit in ["vmax", "svmax", "dvmax", "lvmax", "cqmax"] then Some(Max(c.vw, c.vh) / 100.0)
    else None
  }

  function Scaled(num: real, size: real): real {
    num * size
  }

  function InUnit(c: Ctx, num: real, unit: string): Option<real> {
    var size := UnitSize(c, unit);
    if size.Some? then Some(Scaled(num, size.value)) else None
  }

  lemma NoUnit(c: Ctx, v: real)
    ensures InUnit(c, v, "") == Some(v)
  {
  }

  function Length(c: Ctx, tok: Token): Option<real> {
    if Lower(tok) == "pi" then Some(c.pi)
    else if Lower(tok) == "e" then Some(c.e)
    else
      var n := NumberRun(tok);
      if n == 0 || Decimal(tok[..n]).None? then None
      else InUnit(c, Decimal(tok[..n]).value, Lower(tok[n..]))
  }

  // ---------------------------------------------------------------- the denotation

  function BinValue(op: Op, a: real, b: real): Option<real> {
    match op
    case Add => Some(a + b)
    case Sub => Some(a - b)
    case Mul => Some(a * b)
    case Div => if b != 0.0 then Some(a / b) else None
  }

  lemma Stepped(op: Op, v: real, r: real, w: real)
    requires op.Div? ==> r != 0.0
    requires w == match op case Add => v + r case Sub => v - r case Mul => v * r case Div => v / r
    ensures BinValue(op, v, r) == Some(w)
  {
  }

  lemma DivByZero(v: real)
    ensures BinValue(Div, v, 0.0).None?
  {
  }

  function Denote(c: Ctx, e: Expr): Option<real> {
    match e
    case Lit(tok) => Length(c, tok)
    case Sign(negative, arg) =>
      var v := Denote(c, arg);
      if v.Some? then Some(if negative then -v.value else v.value) else None
    case Group(inner) => Denote(c, inner)
    case Bin(op, left, right) =>
      var a, b := Denote(c, left), Denote(c, right);
      if a.Some? && b.Some? then BinValue(op, a.value, b.value) else None
    case Fn(name, strategy, args) =>
      var vals := DenoteAll(c, args);
      if vals.None? then None
      else if strategy.Some? && StrategyOf(Join(strategy.value)).Some? then
        RoundVals(StrategyOf(Join(strategy.value)).value, vals.value)
      else Apply(c, Lower(name), vals.value)
  }

  function DenoteAll(c: Ctx, args: seq<Expr>): (vals: Option<seq<real>>)
    ensures vals.Some? ==> |vals.value| == |args|
  {
    if args == [] then Some([])
    else
      var v, rest := Denote(c, args[0]), DenoteAll(c, args[1..]);
      if v.Some? && rest.Some? then Some([v.value] + rest.value) else None
  }
}
