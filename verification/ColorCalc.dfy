/**
 The second evaluator, the one relative colours use, and how it compares with the first on plain
 arithmetic: it accepts the same texts with the same values, but for repeated signs.
 */
module ColorCalc {
  import opened Options
  import opened Text
  import opened CalcTokens
  import opened CalcMeaning
  import C = CalcCursor

  type Vars = map<string, real>

  function DropSuffix(s: string, suffix: string): string {
    if |suffix| <= |s| && s[|s| - |suffix|..] == suffix then s[..|s| - |suffix|] else s
  }

  /** A channel variable, or a number with an optional percent sign or `deg`. */
  function Literal(vars: Vars, tok: Token): Option<real> {
    if Lower(tok) in vars then Some(vars[Lower(tok)])
    else Decimal(DropSuffix(DropSuffix(tok, "%"), "deg"))
  }

  function ReadExpr(vars: Vars, toks: seq<Token>, pos: nat): (r: C.Parse)
    requires pos <= |toks|
    ensures r.At? ==> pos < r.pos <= |toks|
    decreases |toks| - pos, 4
  {
    match ReadTerm(vars, toks, pos)
    case Fail => C.Fail
    case At(v, q) => ReadExprRest(vars, toks, q, v)
  }

  function ReadExprRest(vars: Vars, toks: seq<Token>, pos: nat, v: real): (r: C.Parse)
    requires pos <= |toks|
    ensures r.At? ==> pos <= r.pos <= |toks|
    decreases |toks| - pos, 3
  {
    if pos < |toks| && (toks[pos] == "+" || toks[pos] == "-") then
      match ReadTerm(vars, toks, pos + 1)
      case Fail => C.Fail
      case At(w, q) =>
        var x := BinValue(if toks[pos] == "+" then Add else Sub, v, w);
        if x.Some? then ReadExprRest(vars, toks, q, x.value) else C.Fail
    else C.At(v, pos)
  }

  function ReadTerm(vars: Vars, toks: seq<Token>, pos: nat): (r: C.Parse)
    requires pos <= |toks|
    ensures r.At? ==> pos < r.pos <= |toks|
    decreases |toks| - pos, 2
  {
    match ReadFactor(vars, toks, pos)
    case Fail => C.Fail
    case At(v, q) => ReadTermRest(vars, toks, q, v)
  }

  function ReadTermRest(vars: Vars, toks: seq<Token>, pos: nat, v: real): (r: C.Parse)
    requires pos <= |toks|
    ensures r.At? ==> pos <= r.pos <= |toks|
    decreases |toks| - pos, 1
  {
    if pos < |toks| && (toks[pos] == "*" || toks[pos] == "/") then
      match ReadFactor(vars, toks, pos + 1)
      case Fail => C.Fail
      case At(w, q) =>
        var x := BinValue(if toks[pos] == "*" then Mul else Div, v, w);
        if x.Some? then ReadTermRest(vars, toks, q, x.value) else C.Fail
    else C.At(v, pos)
  }

  function ReadFactor(vars: Vars, toks: seq<Token>, pos: nat): (r: C.Parse)
    requires pos <= |toks|
    ensures r.At? ==> pos < r.pos <= |toks|
    decreases |toks| - pos, 0
  {
    if pos >= |toks| then C.Fail
    else if toks[pos] == "(" then
      match ReadExpr(vars, toks, pos + 1)
      case Fail => C.Fail
      case At(v, q) => if q >= |toks| || toks[q] != ")" then C.Fail else C.At(v, q + 1)
    else if toks[pos] == "-" then
      match ReadFactor(vars, toks, pos + 1)
      case Fail => C.Fail
      case At(v, q) => C.At(-v, q)
    else if toks[pos] == "+" then ReadFactor(vars, toks, pos + 1)
    else
      var v := Literal(vars, toks[pos]);
      if v.Some? then C.At(v.value, pos + 1) else C.Fail
  }

  /** The parser object, moving its cursor. */
  class CalcParser {
    const toks: seq<Token>
    const vars: Vars
    var pos: nat

    constructor (toks: seq<Token>, vars: Vars)
      ensures this.toks == toks && this.vars == vars && pos == 0
    {
      this.toks, this.vars, pos := toks, vars, 0;
    }

    ghost predicate Reports(v: real, ok: bool, r: C.Parse)
      reads this`pos
    {
      && pos <= |toks|
      && ok == r.At?
      && (ok ==> v == r.v && pos == r.pos)
    }

    method ParseExpr() returns (v: real, ok: bool)
      requires pos <= |toks|
      modifies this`pos
      ensures Reports(v, ok, ReadExpr(vars, toks, old(pos)))
      decreases |toks| - pos, 4
    {
      hide ReadTerm, BinValue;
      ghost var whole := ReadExpr(vars, toks, pos);
      v, ok := ParseTerm();
      if !ok { return 0.0, false; }
      while pos < |toks| && (toks[pos] == "+" || toks[pos] == "-")
        invariant old(pos) < pos <= |toks| && ok
        invariant ReadExprRest(vars, toks, pos, v) == whole
        decreases |toks| - pos
      {
        var op := toks[pos];
        ghost var at := ReadTerm(vars, toks, pos + 1);
        pos := pos + 1;
        var rhs;
        rhs, ok := ParseTerm();
        if !ok { return 0.0, false; }
        ghost var before := v;
        if op == "+" { v := v + rhs; } else { v := v - rhs; }
        Stepped(if op == "+" then Add else Sub, before, rhs, v);
      }
    }

    method ParseTerm() returns (v: real, ok: bool)
      requires pos <= |toks|
      modifies this`pos
      ensures Reports(v, ok, ReadTerm(vars, toks, old(pos)))
      decreases |toks| - pos, 2
    {
      hide ReadFactor, BinValue;
      ghost var whole := ReadTerm(vars, toks, pos);
      v, ok := ParseFactor();
      if !ok { return 0.0, false; }
      while pos < |toks| && (toks[pos] == "*" || toks[pos] == "/")
        invariant old(pos) < pos <= |toks| && ok
        invariant ReadTermRest(vars, toks, pos, v) == whole
        decreases |toks| - pos
      {
        var op := toks[pos];
        ghost var at := ReadFactor(vars, toks, pos + 1);
        pos := pos + 1;
        var rhs;
        rhs, ok := ParseFactor();
        if !ok { return 0.0, false; }
        ghost var before := v;
        if op == "*" {
          v := v * rhs;
          Stepped(Mul, before, rhs, v);
        } else {
          DivByZero(before);
          if rhs == 0.0 { return 0.0, false; }
          v := v / rhs;
          Stepped(Div, before, rhs, v);
        }
      }
    }

    method ParseFactor() returns (v: real, ok: bool)
      requires pos <= |toks|
      modifies this`pos
      ensures Reports(v, ok, ReadFactor(vars, toks, old(pos)))
      decreases |toks| - pos, 0
    {
      hide Literal, ReadExpr;
      if pos >= |toks| { return 0.0, false; }
      var tok := toks[pos];
      pos := pos + 1;
      if tok == "(" {
        v, ok := ParseExpr();
        if !ok { return 0.0, false; }
        if pos >= |toks| || toks[pos] != ")" { return 0.0, false; }
        pos := pos + 1;
        return;
      }
      if tok == "-" {
        v, ok := ParseFactor();
        v := -v;
        return;
      }
      if tok == "+" {
        v, ok := ParseFactor();
        return;
      }
      var f := Literal(vars, tok);
      if f.None? { return 0.0, false; }
      return f.value, true;
    }
  }

  // ---------------------------------------------------------------- the two evaluators side by side

  predicate IsSign(t: Token) {
    t == "+" || t == "-"
  }

  predicate IsOperand(t: Token) {
    Decimal(t).Some? || t == ")"
  }

  /** Plain decimal numbers, the four operators and parentheses. */
  predicate Plain(toks: seq<Token>) {
    forall i :: 0 <= i < |toks| ==> Decimal(toks[i]).Some? || toks[i] in ["+", "-", "*", "/", "(", ")"]
  }

  /** The sign here stands before a factor, not between two operands, and another sign follows it. */
  predicate RepeatedSign(toks: seq<Token>, i: nat) {
    && i + 1 < |toks|
    && IsSign(toks[i]) && IsSign(toks[i + 1])
    && (i == 0 || !IsOperand(toks[i - 1]))
  }

  /** A factor may start here. */
  predicate Fresh(toks: seq<Token>, pos: nat) {
    pos <= |toks| && (pos == 0 || !IsOperand(toks[pos - 1]))
  }

  lemma PlainTokens(toks: seq<Token>)
    requires Plain(toks)
    ensures AllTokens(toks)
  {
    forall i | 0 <= i < |toks| ensures IsToken(toks[i]) {
      if Decimal(toks[i]).Some? { DecimalIsNumber(toks[i]); }
    }
  }

  /** A decimal numeral is a word of digits and at most one point. */
  lemma DecimalIsNumber(t: Token)
    requires Decimal(t).Some?
    ensures t != "" && IsWord(t) && IsNumeric(t) && NumberRun(t) == |t|
    ensures forall i :: 0 <= i < |t| ==> IsDigit(t[i]) || t[i] == '.'
  {
    DecimalShape(t);
    hide Decimal;
    NumberRunAll(t);
  }

  lemma DecimalShape(t: Token)
    requires Decimal(t).Some?
    ensures t != "" && forall i :: 0 <= i < |t| ==> IsDigit(t[i]) || t[i] == '.'
  {
    hide Digits, Tenth, DigitRun;
    var n := DigitRun(t);
    if n < |t| {
      var frac := t[n + 1..];
      forall i | 0 <= i < |t| ensures IsDigit(t[i]) || t[i] == '.' {
        if i > n { assert t[i] == frac[i - n - 1]; }
      }
    }
  }

  lemma {:induction false} NumberRunAll(t: string)
    requires forall i :: 0 <= i < |t| ==> IsDigit(t[i]) || t[i] == '.'
    ensures NumberRun(t) == |t|
  {
    if t != "" { NumberRunAll(t[1..]); }
  }

  lemma SameNumber(c: Ctx, t: Token)
    requires Decimal(t).Some?
    ensures Length(c, t) == Decimal(t) == Literal(map[], t)
  {
    hide InUnit;
    DecimalIsNumber(t);
    NoUnit(c, Decimal(t).value);
    assert Lower(t)[0] == t[0];
    assert t[..|t|] == t && Lower(t[|t|..]) == "";
    assert t[|t| - 1] != '%' && t[|t| - 1] != 'g';
    assert DropSuffix(t, "%") == t;
    assert DropSuffix(t, "deg") == t;
  }

  lemma OtherDecimal(t: Token)
    requires |t| == 1 && IsPunct(t[0])
    ensures Decimal(t).None?
  {
    assert DigitRun(t) == 0;
  }

  lemma OtherLength(c: Ctx, t: Token)
    requires |t| == 1 && IsPunct(t[0])
    ensures Length(c, t).None?
  {
    hide InUnit;
    assert |Lower(t)| == 1 && Lower(t)[0] == t[0];
    assert NumberRun(t) == 0;
  }

  lemma OtherLiteral(t: Token)
    requires |t| == 1 && IsPunct(t[0])
    ensures Literal(map[], t).None?
  {
    hide Decimal;
    assert t[0..] == t && t[0] != '%';
    assert DropSuffix(t, "%") == t;
    assert DropSuffix(t, "deg") == t;
    OtherDecimal(t);
  }

  lemma OtherNumber(c: Ctx, t: Token)
    requires |t| == 1 && IsPunct(t[0])
    ensures Decimal(t).None? && Length(c, t).None? && Literal(map[], t).None?
  {
    hide Decimal, Length, Literal;
    OtherDecimal(t);
    OtherLength(c, t);
    OtherLiteral(t);
  }

  lemma NoFunction(c: Ctx, name: string, vals: seq<real>)
    requires |name| == 1
    ensures Apply(c, name, vals).None?
  {
  }

  /** Without repeated signs the two evaluators read the same stretch to the same value. */
  lemma {:induction false} SumAgrees(c: Ctx, toks: seq<Token>, pos: nat)
    requires Plain(toks) && AllTokens(toks) && Fresh(toks, pos)
    requires forall i :: pos <= i < |toks| ==> !RepeatedSign(toks, i)
    ensures ReadExpr(map[], toks, pos) == C.Sum(c, toks, pos)
    decreases |toks|, |toks| - pos, 4
  {
    hide BinValue, C.Factor, ReadFactor, Length, Literal;
    ProductAgrees(c, toks, pos);
    var p := C.Product(c, toks, pos);
    if p.At? { SumRestAgrees(c, toks, p.pos, p.v); }
  }

  lemma {:induction false} SumRestAgrees(c: Ctx, toks: seq<Token>, pos: nat, v: real)
    requires Plain(toks) && AllTokens(toks) && pos <= |toks|
    requires forall i :: pos <= i < |toks| ==> !RepeatedSign(toks, i)
    ensures ReadExprRest(map[], toks, pos, v) == C.SumRest(c, toks, pos, v)
    decreases |toks|, |toks| - pos, 3
  {
    hide BinValue, C.Product, ReadTerm, Length, Literal;
    if pos < |toks| && IsSign(toks[pos]) {
      SignIsNoOperand(toks[pos]);
      ProductAgrees(c, toks, pos + 1);
      var q := C.Product(c, toks, pos + 1);
      if q.At? {
        var x := BinValue(if toks[pos] == "-" then Sub else Add, v, q.v);
        if x.Some? { SumRestAgrees(c, toks, q.pos, x.value); }
      }
    }
  }

  lemma SignIsNoOperand(t: Token)
    requires t in ["+", "-", "*", "/", "("]
    ensures !IsOperand(t)
  {
    assert DigitRun(t) == 0;
  }

  lemma {:induction false} ProductAgrees(c: Ctx, toks: seq<Token>, pos: nat)
    requires Plain(toks) && AllTokens(toks) && Fresh(toks, pos)
    requires forall i :: pos <= i < |toks| ==> !RepeatedSign(toks, i)
    ensures ReadTerm(map[], toks, pos) == C.Product(c, toks, pos)
    decreases |toks|, |toks| - pos, 2
  {
    hide BinValue, C.Atom, Length, Literal;
    FactorAgrees(c, toks, pos);
    var p := C.Factor(c, toks, pos);
    if p.At? { ProductRestAgrees(c, toks, p.pos, p.v); }
  }

  lemma {:induction false} ProductRestAgrees(c: Ctx, toks: seq<Token>, pos: nat, v: real)
    requires Plain(toks) && AllTokens(toks) && pos <= |toks|
    requires forall i :: pos <= i < |toks| ==> !RepeatedSign(toks, i)
    ensures ReadTermRest(map[], toks, pos, v) == C.ProductRest(c, toks, pos, v)
    decreases |toks|, |toks| - pos, 1
  {
    hide BinValue, C.Factor, ReadFactor, Length, Literal;
    if pos < |toks| && (toks[pos] == "*" || toks[pos] == "/") {
      SignIsNoOperand(toks[pos]);
      FactorAgrees(c, toks, pos + 1);
      var q := C.Factor(c, toks, pos + 1);
      if q.At? {
        var x := BinValue(if toks[pos] == "*" then Mul else Div, v, q.v);
        if x.Some? { ProductRestAgrees(c, toks, q.pos, x.value); }
      }
    }
  }

  lemma {:induction false} FactorAgrees(c: Ctx, toks: seq<Token>, pos: nat)
    requires Plain(toks) && AllTokens(toks) && Fresh(toks, pos)
    requires forall i :: pos <= i < |toks| ==> !RepeatedSign(toks, i)
    ensures ReadFactor(map[], toks, pos) == C.Factor(c, toks, pos)
    decreases |toks|, |toks| - pos, 0, 1
  {
    hide C.Atom, ReadExpr, Literal, Length, Decimal;
    if pos < |toks| {
      if IsSign(toks[pos]) {
        SignIsNoOperand(toks[pos]);
        assert !RepeatedSign(toks, pos);
        if pos + 1 < |toks| { AtomAgrees(c, toks, pos + 1); }
      } else {
        AtomAgrees(c, toks, pos);
      }
    }
  }

  lemma {:induction false} AtomAgrees(c: Ctx, toks: seq<Token>, pos: nat)
    requires Plain(toks) && AllTokens(toks) && Fresh(toks, pos) && pos < |toks| && !IsSign(toks[pos])
    requires forall i :: pos <= i < |toks| ==> !RepeatedSign(toks, i)
    ensures ReadFactor(map[], toks, pos) == C.Atom(c, toks, pos)
    decreases |toks|, |toks| - pos, 0, 0
  {
    hide C.Sum, ReadExpr, Literal, Length, Decimal, C.Combine, C.ScanArgs;
    if toks[pos] == "(" {
      SignIsNoOperand("(");
      SumAgrees(c, toks, pos + 1);
    } else if Decimal(toks[pos]).Some? {
      SameNumber(c, toks[pos]);
      DecimalIsNumber(toks[pos]);
    } else {
      OtherNumber(c, toks[pos]);
      NoCall(c, toks[pos]);
    }
  }

  lemma NoCall(c: Ctx, name: Token)
    requires |name| == 1
    ensures forall texts :: C.Combine(c, name, texts).None?
  {
    hide Apply, C.EvalAll;
    assert |Lower(name)| == 1;
    forall texts ensures C.Combine(c, name, texts).None? {
      var vals := C.EvalAll(c, texts);
      if vals.Some? { NoFunction(c, Lower(name), vals.value); }
    }
  }

  /** Reading a stretch to a value means no sign in it was repeated, and it ended on an operand. */
  predicate Clean(toks: seq<Token>, lo: nat, hi: nat) {
    && lo < hi <= |toks| && IsOperand(toks[hi - 1])
    && forall i :: lo <= i < hi ==> !RepeatedSign(toks, i)
  }

  lemma {:induction false} SumIsClean(c: Ctx, toks: seq<Token>, pos: nat)
    requires Plain(toks) && AllTokens(toks) && Fresh(toks, pos) && C.Sum(c, toks, pos).At?
    ensures Clean(toks, pos, C.Sum(c, toks, pos).pos)
    decreases |toks|, |toks| - pos, 4
  {
    hide BinValue, C.Factor, Length, IsOperand;
    ProductIsClean(c, toks, pos);
    var p := C.Product(c, toks, pos);
    SumRestIsClean(c, toks, pos, p.pos, p.v);
  }

  lemma {:induction false} SumRestIsClean(c: Ctx, toks: seq<Token>, lo: nat, pos: nat, v: real)
    requires Plain(toks) && AllTokens(toks) && lo < pos <= |toks| && Clean(toks, lo, pos)
    requires C.SumRest(c, toks, pos, v).At?
    ensures Clean(toks, lo, C.SumRest(c, toks, pos, v).pos)
    decreases |toks|, |toks| - pos, 3
  {
    hide BinValue, C.Product, Length, IsOperand;
    if pos < |toks| && IsSign(toks[pos]) {
      SignIsNoOperand(toks[pos]);
      ProductIsClean(c, toks, pos + 1);
      var q := C.Product(c, toks, pos + 1);
      var x := BinValue(if toks[pos] == "-" then Sub else Add, v, q.v);
      assert !RepeatedSign(toks, pos);
      SumRestIsClean(c, toks, lo, q.pos, x.value);
    }
  }

  lemma {:induction false} ProductIsClean(c: Ctx, toks: seq<Token>, pos: nat)
    requires Plain(toks) && AllTokens(toks) && Fresh(toks, pos) && C.Product(c, toks, pos).At?
    ensures Clean(toks, pos, C.Product(c, toks, pos).pos)
    decreases |toks|, |toks| - pos, 2
  {
    hide BinValue, C.Atom, Length, IsOperand;
    FactorIsClean(c, toks, pos);
    var p := C.Factor(c, toks, pos);
    ProductRestIsClean(c, toks, pos, p.pos, p.v);
  }

  lemma {:induction false} ProductRestIsClean(c: Ctx, toks: seq<Token>, lo: nat, pos: nat, v: real)
    requires Plain(toks) && AllTokens(toks) && lo < pos <= |toks| && Clean(toks, lo, pos)
    requires C.ProductRest(c, toks, pos, v).At?
    ensures Clean(toks, lo, C.ProductRest(c, toks, pos, v).pos)
    decreases |toks|, |toks| - pos, 1
  {
    hide BinValue, C.Factor, Length, IsOperand;
    if pos < |toks| && (toks[pos] == "*" || toks[pos] == "/") {
      SignIsNoOperand(toks[pos]);
      FactorIsClean(c, toks, pos + 1);
      var q := C.Factor(c, toks, pos + 1);
      var x := BinValue(if toks[pos] == "*" then Mul else Div, v, q.v);
      ProductRestIsClean(c, toks, lo, q.pos, x.value);
    }
  }

  lemma {:induction false} FactorIsClean(c: Ctx, toks: seq<Token>, pos: nat)
    requires Plain(toks) && AllTokens(toks) && Fresh(toks, pos) && C.Factor(c, toks, pos).At?
    ensures Clean(toks, pos, C.Factor(c, toks, pos).pos)
    decreases |toks|, |toks| - pos, 0, 1
  {
    hide C.Atom, Length, IsOperand;
    if IsSign(toks[pos]) {
      SignIsNoOperand(toks[pos]);
      AtomIsClean(c, toks, pos + 1);
    } else {
      AtomIsClean(c, toks, pos);
    }
  }

  /** On plain tokens an atom is a number or a parenthesis. */
  lemma AtomShape(c: Ctx, toks: seq<Token>, pos: nat)
    requires Plain(toks) && AllTokens(toks) && pos < |toks| && C.Atom(c, toks, pos).At? && toks[pos] != "("
    ensures Decimal(toks[pos]).Some? && C.Atom(c, toks, pos).pos == pos + 1
  {
    hide Length, C.Combine, C.ScanArgs, Decimal, C.Sum;
    if Decimal(toks[pos]).Some? {
      DecimalIsNumber(toks[pos]);
    } else {
      OtherNumber(c, toks[pos]);
      NoCall(c, toks[pos]);
    }
  }

  lemma {:induction false} AtomIsClean(c: Ctx, toks: seq<Token>, pos: nat)
    requires Plain(toks) && AllTokens(toks) && Fresh(toks, pos) && pos < |toks| && C.Atom(c, toks, pos).At?
    ensures Clean(toks, pos, C.Atom(c, toks, pos).pos) && !IsSign(toks[pos])
    decreases |toks|, |toks| - pos, 0, 0
  {
    hide C.Sum, Length, C.Combine, C.ScanArgs, Decimal;
    if toks[pos] == "(" {
      SignIsNoOperand("(");
      SumIsClean(c, toks, pos + 1);
    } else {
      hide C.Atom;
      AtomShape(c, toks, pos);
      if IsSign(toks[pos]) { SignIsNoOperand(toks[pos]); }
    }
  }

  /** The whole token list read to a value. */
  function Accepts(r: C.Parse, n: nat): Option<real> {
    if r.At? && r.pos == n then Some(r.v) else None
  }

  /**
   On plain arithmetic the first evaluator accepts with a value exactly when the second accepts with
   that value and no sign before a factor is followed by another sign.
   */
  lemma EvaluatorsDifferOnlyInRepeatedSigns(c: Ctx, toks: seq<Token>, v: real)
    requires Plain(toks)
    ensures AllTokens(toks)
    ensures Accepts(C.Sum(c, toks, 0), |toks|) == Some(v)
            <==> (&& Accepts(ReadExpr(map[], toks, 0), |toks|) == Some(v)
                  && forall i :: 0 <= i < |toks| ==> !RepeatedSign(toks, i))
  {
    PlainTokens(toks);
    hide C.Sum, ReadExpr;
    if Accepts(C.Sum(c, toks, 0), |toks|) == Some(v) { SumIsClean(c, toks, 0); }
    if forall i :: 0 <= i < |toks| ==> !RepeatedSign(toks, i) { SumAgrees(c, toks, 0); }
  }

  // ---------------------------------------------------------------- the second evaluator's literals

  /** A variable is its value; else a number may end in `%` or `deg`, and counts for itself. */
  lemma LiteralIs(vars: Vars, num: string)
    requires Decimal(num).Some?
    ensures Lower(num) !in vars ==> Literal(vars, num) == Decimal(num)
    ensures Lower(num + "%") !in vars ==> Literal(vars, num + "%") == Decimal(num)
    ensures Lower(num + "deg") !in vars ==> Literal(vars, num + "deg") == Decimal(num)
    ensures forall name :: Lower(name) in vars ==> Literal(vars, name) == Some(vars[Lower(name)])
  {
    hide Decimal, Lower;
    DecimalIsNumber(num);
    assert num[|num| - 1] != '%' && num[|num| - 1] != 'g';
    DroppedSuffix(num, "%");
    DroppedSuffix(num, "deg");
    NoSuffix(num, "%");
    NoSuffix(num, "deg");
    NoSuffix(num + "deg", "%");
  }

  lemma DroppedSuffix(s: string, suffix: string)
    ensures DropSuffix(s + suffix, suffix) == s
  {
  }

  lemma NoSuffix(s: string, suffix: string)
    requires s != "" && suffix != "" && s[|s| - 1] != suffix[|suffix| - 1]
    ensures DropSuffix(s, suffix) == s
  {
  }
}
