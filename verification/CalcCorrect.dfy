/**
 The cursor evaluator computes the denotation, in both directions: it reads every printed tree and
 finds its meaning, and whatever it accepts is the print of some tree with the value it found.
 */
module CalcCorrect {
  import opened Options
  import opened Text
  import opened CalcTokens
  import opened CalcMeaning
  import opened CalcCursor

  // ---------------------------------------------------------------- strategy keywords hold no punctuation

  lemma {:induction false} TrimLeftKeeps(s: string, x: char)
    requires x in s && !IsSpace(x)
    ensures x in TrimLeft(s)
  {
    if IsSpace(s[0]) {
      assert s == s[..1] + s[1..];
      TrimLeftKeeps(s[1..], x);
    }
  }

  lemma {:induction false} TrimRightKeeps(s: string, x: char)
    requires x in s && !IsSpace(x)
    ensures x in TrimRight(s)
  {
    if IsSpace(s[|s| - 1]) {
      assert s == s[..|s| - 1] + s[|s| - 1..];
      TrimRightKeeps(s[..|s| - 1], x);
    }
  }

  lemma {:induction false} WithoutKeeps(s: string, x: char)
    requires x in s && x != ' '
    ensures x in Without(s, ' ')
  {
    if s[0] != x {
      assert s == s[..1] + s[1..];
      WithoutKeeps(s[1..], x);
    }
  }

  lemma StrategyHasNo(text: string, x: char)
    requires StrategyOf(text).Some? && (x == '(' || x == ')' || x == ',')
    ensures x !in text
  {
    hide TrimLeft, TrimRight, Without;
    if x in text {
      TrimLeftKeeps(text, x);
      TrimRightKeeps(TrimLeft(text), x);
      var i :| 0 <= i < |Trim(text)| && Trim(text)[i] == x;
      assert Lower(Trim(text))[i] == x;
      WithoutKeeps(Lower(Trim(text)), x);
    }
  }

  lemma {:induction false} JoinKeeps(toks: seq<Token>, i: nat, x: char)
    requires i < |toks| && x in toks[i]
    ensures x in Join(toks)
  {
    if i > 0 { JoinKeeps(toks[1..], i - 1, x); }
  }

  // ---------------------------------------------------------------- nesting of printed trees

  /** The depth after reading these tokens from `depth`, unless a parenthesis closes below zero or
      a comma stands at depth zero. */
  function Nest(p: seq<Token>, depth: nat): Option<nat> {
    if p == [] then Some(depth)
    else if p[0] == "(" then Nest(p[1..], depth + 1)
    else if p[0] == ")" then (if depth == 0 then None else Nest(p[1..], depth - 1))
    else if p[0] == "," && depth == 0 then None
    else Nest(p[1..], depth)
  }

  lemma {:induction false} NestConcat(p: seq<Token>, q: seq<Token>, depth: nat)
    ensures Nest(p + q, depth) == if Nest(p, depth).Some? then Nest(q, Nest(p, depth).value) else None
  {
    if p == [] {
      assert p + q == q;
    } else {
      assert (p + q)[1..] == p[1..] + q;
      NestConcat(p[1..], q, if p[0] == "(" then depth + 1 else if p[0] == ")" && depth > 0 then depth - 1 else depth);
    }
  }

  lemma {:induction false} PlainNests(p: seq<Token>, depth: nat)
    requires forall i :: 0 <= i < |p| ==> p[i] != "(" && p[i] != ")" && p[i] != ","
    ensures Nest(p, depth) == Some(depth)
  {
    if p != [] { PlainNests(p[1..], depth); }
  }

  lemma StrategyNests(p: seq<Token>, depth: nat)
    requires StrategyOf(Join(p)).Some?
    ensures Nest(p, depth) == Some(depth)
  {
    forall i | 0 <= i < |p| ensures p[i] != "(" && p[i] != ")" && p[i] != "," {
      StrategyHasNo(Join(p), '(');
      StrategyHasNo(Join(p), ')');
      StrategyHasNo(Join(p), ',');
      if p[i] == "(" { JoinKeeps(p, i, '('); }
      if p[i] == ")" { JoinKeeps(p, i, ')'); }
      if p[i] == "," { JoinKeeps(p, i, ','); }
    }
    PlainNests(p, depth);
  }

  lemma {:induction false} CommasNest(parts: seq<seq<Token>>, depth: nat)
    requires depth > 0
    requires forall i :: 0 <= i < |parts| ==> Nest(parts[i], depth) == Some(depth)
    ensures Nest(Commas(parts), depth) == Some(depth)
  {
    if |parts| > 1 {
      CommasNest(parts[1..], depth);
      NestConcat(parts[0] + [","], Commas(parts[1..]), depth);
      NestConcat(parts[0], [","], depth);
    }
  }

  lemma EnclosedNests(head: seq<Token>, inner: seq<Token>, depth: nat)
    requires head == ["("] || (|head| == 2 && IsWord(head[0]) && head[1] == "(")
    requires Nest(inner, depth + 1) == Some(depth + 1)
    ensures Nest(head + inner + [")"], depth) == Some(depth)
  {
    NestConcat(head, inner + [")"], depth);
    NestConcat(inner, [")"], depth + 1);
    assert head + inner + [")"] == head + (inner + [")"]);
    assert Nest(["("], depth) == Some(depth + 1);
    if |head| == 2 {
      assert head[1..] == ["("];
      assert head[0] != "(" && head[0] != ")" && head[0] != ",";
    }
  }

  /** A printed tree closes what it opens, and shows no comma outside its own parentheses. */
  lemma {:induction false} PrintNests(e: Expr, depth: nat)
    requires WellFormed(e)
    ensures Nest(Print(e), depth) == Some(depth)
    decreases e, 1
  {
    hide StrategyOf;
    match e
    case Lit(tok) =>
    case Sign(negative, arg) => PrintNests(arg, depth);
    case Group(inner) =>
      PrintNests(inner, depth + 1);
      EnclosedNests(["("], Print(inner), depth);
    case Bin(op, left, right) =>
      PrintNests(left, depth);
      PrintNests(right, depth);
      NestConcat(Print(left) + [OpToken(op)], Print(right), depth);
      NestConcat(Print(left), [OpToken(op)], depth);
    case Fn(name, strategy, args) =>
      PartsNest(e, depth + 1);
      CommasNest(Parts(strategy, PrintAll(args)), depth + 1);
      EnclosedNests([name, "("], Commas(Parts(strategy, PrintAll(args))), depth);
  }

  lemma {:induction false} PartsNest(e: Expr, depth: nat)
    requires e.Fn? && WellFormed(e)
    ensures var parts := Parts(e.strategy, PrintAll(e.args));
            |parts| > 0 && forall i :: 0 <= i < |parts| ==> Nest(parts[i], depth) == Some(depth)
    decreases e, 0
  {
    hide StrategyOf, Nest, Print;
    FnParts(e);
    hide WellFormed;
    var parts := Parts(e.strategy, PrintAll(e.args));
    var skip := if e.strategy.Some? then 1 else 0;
    forall i | 0 <= i < |parts| ensures Nest(parts[i], depth) == Some(depth) {
      if i < skip {
        StrategyNests(e.strategy.value, depth);
      } else {
        PrintNests(e.args[i - skip], depth);
      }
    }
  }

  lemma {:induction false} PrintTokens(e: Expr)
    requires WellFormed(e)
    ensures AllTokens(Print(e)) && Print(e) != []
  {
    hide StrategyOf;
    match e
    case Lit(tok) =>
    case Sign(negative, arg) => PrintTokens(arg);
    case Group(inner) => PrintTokens(inner);
    case Bin(op, left, right) =>
      PrintTokens(left);
      PrintTokens(right);
      assert IsToken(OpToken(op));
    case Fn(name, strategy, args) =>
      var parts := Parts(strategy, PrintAll(args));
      forall i | 0 <= i < |args| ensures AllTokens(Print(args[i])) { PrintTokens(args[i]); }
      PartsTokens(e);
      CommasTokens(parts);
      hide Commas;
      assert IsToken("(") && IsToken(")");
  }

  lemma PartsTokens(e: Expr)
    requires WellFormed(e) && e.Fn? && forall i :: 0 <= i < |e.args| ==> AllTokens(Print(e.args[i]))
    ensures var parts := Parts(e.strategy, PrintAll(e.args)); forall i :: 0 <= i < |parts| ==> AllTokens(parts[i])
  {
    hide StrategyOf, Print, AllTokens;
  }

  lemma {:induction false} CommasTokens(parts: seq<seq<Token>>)
    requires forall i :: 0 <= i < |parts| ==> AllTokens(parts[i])
    ensures AllTokens(Commas(parts))
  {
    if |parts| > 1 { CommasTokens(parts[1..]); }
  }

  // ---------------------------------------------------------------- scanning arguments

  /** These tokens stand at this position. */
  predicate Shown(toks: seq<Token>, pos: nat, p: seq<Token>) {
    pos + |p| <= |toks| && toks[pos..pos + |p|] == p
  }

  lemma ShownSplit(toks: seq<Token>, pos: nat, p: seq<Token>, q: seq<Token>)
    requires Shown(toks, pos, p + q)
    ensures Shown(toks, pos, p) && Shown(toks, pos + |p|, q)
  {
    var r := toks[pos..pos + |p + q|];
    assert toks[pos..pos + |p|] == r[..|p|] && toks[pos + |p|..pos + |p| + |q|] == r[|p|..];
  }

  lemma {:induction false} ScanSkips(toks: seq<Token>, start: nat, pos: nat, depth: nat, p: seq<Token>)
    requires start <= pos && Shown(toks, pos, p) && Nest(p, depth).Some?
    ensures ScanArgs(toks, start, pos, depth) == ScanArgs(toks, start, pos + |p|, Nest(p, depth).value)
    decreases |p|
  {
    if p != [] {
      assert toks[pos] == p[0];
      ShownSplit(toks, pos, p[..1], p[1..]) by { assert p == p[..1] + p[1..]; }
      ScanSkips(toks, start, pos + 1,
                if p[0] == "(" then depth + 1 else if p[0] == ")" then depth - 1 else depth, p[1..]);
    }
  }

  lemma ShownAt(toks: seq<Token>, pos: nat, p: seq<Token>, k: nat)
    requires Shown(toks, pos, p) && k < |p|
    ensures toks[pos + k] == p[k]
    ensures Shown(toks, pos, p[..k]) && Shown(toks, pos + k + 1, p[k + 1..])
  {
    var r := toks[pos..pos + |p|];
    assert toks[pos..pos + k] == r[..k];
    assert toks[pos + k + 1..pos + |p|] == r[k + 1..];
    assert r[k] == toks[pos + k];
  }

  /** The scan steps over a part and stops on what follows it at depth zero. */
  lemma PartThen(toks: seq<Token>, pos: nat, all: seq<Token>, n: nat)
    requires Shown(toks, pos, all) && n < |all| && Nest(all[..n], 0) == Some(0)
    ensures pos + n < |toks| && toks[pos + n] == all[n] && toks[pos..pos + n] == all[..n]
    ensures Shown(toks, pos + n + 1, all[n + 1..])
    ensures ScanArgs(toks, pos, pos, 0) == ScanArgs(toks, pos, pos + n, 0)
  {
    hide ScanArgs, Nest;
    ShownAt(toks, pos, all, n);
    ScanSkips(toks, pos, pos, 0, all[..n]);
  }

  /** The scan of a printed argument list finds exactly its arguments. */
  lemma {:induction false} ScanReads(toks: seq<Token>, pos: nat, parts: seq<seq<Token>>)
    requires parts != [] && Shown(toks, pos, Commas(parts) + [")"])
    requires forall i :: 0 <= i < |parts| ==> Nest(parts[i], 0) == Some(0)
    ensures ScanArgs(toks, pos, pos, 0) == Closed(parts, pos + |Commas(parts)| + 1)
    decreases |parts|
  {
    hide Nest;
    if |parts| == 1 {
      assert (Commas(parts) + [")"])[..|parts[0]|] == parts[0];
      PartThen(toks, pos, Commas(parts) + [")"], |parts[0]|);
      assert parts == [parts[0]];
    } else {
      var rest := Commas(parts[1..]) + [")"];
      assert Commas(parts) + [")"] == parts[0] + [","] + rest;
      assert (Commas(parts) + [")"])[..|parts[0]|] == parts[0];
      assert (Commas(parts) + [")"])[|parts[0]| + 1..] == rest;
      PartThen(toks, pos, Commas(parts) + [")"], |parts[0]|);
      ScanReads(toks, pos + |parts[0]| + 1, parts[1..]);
      assert parts == [parts[0]] + parts[1..];
    }
  }

  /** What a successful scan consumed is a printed argument list. */
  lemma {:induction false} ScanShape(toks: seq<Token>, start: nat, pos: nat, depth: nat)
    requires start <= pos <= |toks| && ScanArgs(toks, start, pos, depth).Closed?
    ensures var r := ScanArgs(toks, start, pos, depth);
            toks[start..r.pos] == Commas(r.parts) + [")"]
    decreases |toks| - pos
  {
    var r := ScanArgs(toks, start, pos, depth);
    if toks[pos] == "(" {
      ScanShape(toks, start, pos + 1, depth + 1);
    } else if toks[pos] == ")" {
      if depth > 0 { ScanShape(toks, start, pos + 1, depth - 1); }
    } else if toks[pos] == "," && depth == 0 {
      ScanShape(toks, pos + 1, pos + 1, 0);
      var rest := ScanArgs(toks, pos + 1, pos + 1, 0);
      assert toks[start..r.pos] == toks[start..pos] + [","] + toks[pos + 1..r.pos];
      assert r.parts[1..] == rest.parts;
    } else {
      ScanShape(toks, start, pos + 1, depth);
    }
  }

  // ---------------------------------------------------------------- reading a printed tree

  predicate EndsSum(toks: seq<Token>, pos: nat) {
    pos < |toks| ==> toks[pos] in ["+", "-", ")", ","]
  }

  predicate EndsFactor(toks: seq<Token>, pos: nat) {
    pos < |toks| ==> toks[pos] in ["+", "-", "*", "/", ")", ","]
  }

  /** A parser that met this tree goes on from its end with its value, or fails with it. */
  function Reached(v: Option<real>, pos: nat): Parse {
    if v.Some? then At(v.value, pos) else Fail
  }

  /** Where the operator of a shown operation stands. */
  lemma BinShown(toks: seq<Token>, pos: nat, e: Expr) returns (mid: nat)
    requires e.Bin? && Shown(toks, pos, Print(e))
    ensures mid == pos + |Print(e.left)| < |toks| && toks[mid] == OpToken(e.op)
    ensures Shown(toks, pos, Print(e.left)) && Shown(toks, mid + 1, Print(e.right))
    ensures mid + 1 + |Print(e.right)| == pos + |Print(e)|
  {
    var l, r := Print(e.left), Print(e.right);
    assert Print(e) == l + [OpToken(e.op)] + r;
    hide Print;
    var p := Print(e);
    assert p[..|l|] == l && p[|l|] == OpToken(e.op) && p[|l| + 1..] == r;
    ShownAt(toks, pos, p, |l|);
    mid := pos + |l|;
  }

  lemma {:induction false} SumReads(c: Ctx, toks: seq<Token>, pos: nat, e: Expr)
    requires AllTokens(toks) && WellFormed(e) && Shown(toks, pos, Print(e))
    requires EndsSum(toks, pos + |Print(e)|)
    ensures var v := Denote(c, e);
            Sum(c, toks, pos) == if v.Some? then SumRest(c, toks, pos + |Print(e)|, v.value) else Fail
    decreases e, 4
  {
    hide Denote, Factor, Combine, Print, ProductRest;
    if Level(e) == 0 {
      var mid := BinShown(toks, pos, e);
      SumReads(c, toks, pos, e.left);
      ProductReads(c, toks, mid + 1, e.right);
      SumStep(c, toks, mid, e);
    } else {
      ProductReads(c, toks, pos, e);
      ProductEnds(c, toks, pos + |Print(e)|);
    }
  }

  /** A sum's last product ends where no factor follows. */
  lemma ProductEnds(c: Ctx, toks: seq<Token>, pos: nat)
    requires AllTokens(toks) && pos <= |toks| && EndsSum(toks, pos)
    ensures forall v :: ProductRest(c, toks, pos, v) == At(v, pos)
  {
  }

  lemma SumStep(c: Ctx, toks: seq<Token>, mid: nat, e: Expr)
    requires AllTokens(toks) && mid < |toks| && e.Bin? && Level(e) == 0 && toks[mid] == OpToken(e.op)
    requires mid + 1 + |Print(e.right)| <= |toks| && EndsSum(toks, mid + 1 + |Print(e.right)|)
    requires var v := Denote(c, e.right);
             Product(c, toks, mid + 1)
             == if v.Some? then ProductRest(c, toks, mid + 1 + |Print(e.right)|, v.value) else Fail
    ensures Denote(c, e.left).None? ==> Denote(c, e).None?
    ensures Denote(c, e.left).Some? ==>
              SumRest(c, toks, mid, Denote(c, e.left).value)
              == if Denote(c, e).Some? then SumRest(c, toks, mid + 1 + |Print(e.right)|, Denote(c, e).value) else Fail
  {
    hide BinValue, Length, Apply, RoundVals, Factor, Print, Product;
  }

  lemma {:induction false} ProductReads(c: Ctx, toks: seq<Token>, pos: nat, e: Expr)
    requires AllTokens(toks) && WellFormed(e) && Level(e) >= 1 && Shown(toks, pos, Print(e))
    requires EndsFactor(toks, pos + |Print(e)|)
    ensures var v := Denote(c, e);
            Product(c, toks, pos) == if v.Some? then ProductRest(c, toks, pos + |Print(e)|, v.value) else Fail
    decreases e, 3
  {
    hide Denote, Atom, Combine, Print, ProductRest;
    if Level(e) == 1 {
      var mid := BinShown(toks, pos, e);
      ProductReads(c, toks, pos, e.left);
      FactorReads(c, toks, mid + 1, e.right);
      ProductStep(c, toks, mid, e);
    } else {
      FactorReads(c, toks, pos, e);
    }
  }

  lemma ProductStep(c: Ctx, toks: seq<Token>, mid: nat, e: Expr)
    requires AllTokens(toks) && mid < |toks| && e.Bin? && Level(e) == 1 && toks[mid] == OpToken(e.op)
    requires mid + 1 + |Print(e.right)| <= |toks|
    requires Factor(c, toks, mid + 1) == Reached(Denote(c, e.right), mid + 1 + |Print(e.right)|)
    ensures Denote(c, e.left).None? ==> Denote(c, e).None?
    ensures Denote(c, e.left).Some? ==>
              ProductRest(c, toks, mid, Denote(c, e.left).value)
              == if Denote(c, e).Some? then ProductRest(c, toks, mid + 1 + |Print(e.right)|, Denote(c, e).value)
                 else Fail
  {
    hide BinValue, Length, Apply, RoundVals, Atom, Print, Factor, Product;
  }

  lemma {:induction false} FactorReads(c: Ctx, toks: seq<Token>, pos: nat, e: Expr)
    requires AllTokens(toks) && WellFormed(e) && Level(e) >= 2 && Shown(toks, pos, Print(e))
    requires EndsFactor(toks, pos + |Print(e)|)
    ensures Factor(c, toks, pos) == Reached(Denote(c, e), pos + |Print(e)|)
    decreases e, 2
  {
    hide Length, Apply, RoundVals, BinValue, Combine, Sum, Atom, ScanArgs, StrategyOf, Join, Commas;
    PrintTokens(e);
    assert toks[pos] == Print(e)[0];
    if e.Sign? {
      PrintTokens(e.arg);
      ShownSplit(toks, pos, [if e.negative then "-" else "+"], Print(e.arg));
      AtomReads(c, toks, pos + 1, e.arg);
    } else {
      AtomReads(c, toks, pos, e);
      AtomStart(e);
    }
  }

  lemma AtomStart(e: Expr)
    requires WellFormed(e) && Level(e) == 3
    ensures Print(e) != [] && Print(e)[0] != "+" && Print(e)[0] != "-"
  {
  }

  lemma {:induction false} AtomReads(c: Ctx, toks: seq<Token>, pos: nat, e: Expr)
    requires AllTokens(toks) && WellFormed(e) && Level(e) == 3 && Shown(toks, pos, Print(e))
    requires EndsFactor(toks, pos + |Print(e)|) && pos < |toks|
    ensures Atom(c, toks, pos) == Reached(Denote(c, e), pos + |Print(e)|)
    decreases e, 1
  {
    hide Sum, Combine, Length, ScanArgs, StrategyOf, Print, Atom, Denote;
    match e
    case Lit(_) => LitReads(c, toks, pos, e);
    case Group(_) => GroupReads(c, toks, pos, e);
    case Fn(_, _, _) => FnReads(c, toks, pos, e);
  }

  lemma LitReads(c: Ctx, toks: seq<Token>, pos: nat, e: Expr)
    requires AllTokens(toks) && WellFormed(e) && e.Lit? && Shown(toks, pos, Print(e))
    requires EndsFactor(toks, pos + |Print(e)|) && pos < |toks|
    ensures Atom(c, toks, pos) == Reached(Denote(c, e), pos + |Print(e)|)
  {
    hide Length, Sum, Combine, ScanArgs;
    assert toks[pos] == e.tok;
  }

  lemma {:induction false} GroupReads(c: Ctx, toks: seq<Token>, pos: nat, e: Expr)
    requires AllTokens(toks) && WellFormed(e) && e.Group? && Shown(toks, pos, Print(e)) && pos < |toks|
    ensures Atom(c, toks, pos) == Reached(Denote(c, e), pos + |Print(e)|)
    decreases e, 0, 1
  {
    hide Combine, Sum, ScanArgs, Atom, Print, WellFormed, Denote, IsWord, IsNumeric;
    var inner := e.inner;
    GroupIs(c, e);
    ShownSplit(toks, pos, ["("], Print(inner) + [")"]);
    ShownSplit(toks, pos + 1, Print(inner), [")"]);
    var q := pos + 1 + |Print(inner)|;
    assert toks[pos] == "(" && toks[q] == ")" && q < |toks|;
    assert EndsSum(toks, q) && Shown(toks, pos + 1, Print(inner));
    SumReads(c, toks, pos + 1, inner);
    SumEnds(c, toks, q);
    AtomOpens(c, toks, pos);
  }

  lemma GroupIs(c: Ctx, e: Expr)
    requires WellFormed(e) && e.Group?
    ensures Print(e) == ["("] + (Print(e.inner) + [")"]) && WellFormed(e.inner) && Denote(c, e) == Denote(c, e.inner)
  {
  }

  /** An opening parenthesis is read up to its closing one. */
  lemma AtomOpens(c: Ctx, toks: seq<Token>, pos: nat)
    requires AllTokens(toks) && pos < |toks| && toks[pos] == "("
    ensures Atom(c, toks, pos)
            == match Sum(c, toks, pos + 1)
               case Fail => Fail
               case At(v, q) => if q >= |toks| || toks[q] != ")" then Fail else At(v, q + 1)
  {
    hide Combine, Sum, ScanArgs;
  }

  lemma SumEnds(c: Ctx, toks: seq<Token>, pos: nat)
    requires AllTokens(toks) && pos < |toks| && toks[pos] == ")"
    ensures forall v :: SumRest(c, toks, pos, v) == At(v, pos)
  {
  }

  lemma FnNames(e: Expr)
    requires WellFormed(e) && e.Fn?
    ensures IsWord(e.name) && !IsNumeric(e.name) && Parts(e.strategy, PrintAll(e.args)) != []
  {
    hide StrategyOf;
  }

  lemma {:induction false} FnReads(c: Ctx, toks: seq<Token>, pos: nat, e: Expr)
    requires AllTokens(toks) && WellFormed(e) && e.Fn? && Shown(toks, pos, Print(e)) && pos < |toks|
    ensures Atom(c, toks, pos) == Reached(Denote(c, e), pos + |Print(e)|)
    decreases e, 0, 1
  {
    hide StrategyOf, Denote, Combine, Nest, ScanArgs, Sum, Length, Commas, Weight, WellFormed;
    FnNames(e);
    var parts := Parts(e.strategy, PrintAll(e.args));
    var inside := Commas(parts) + [")"];
    assert Print(e) == [e.name, "("] + inside;
    ShownSplit(toks, pos, [e.name, "("], inside);
    assert toks[pos..pos + 2] == [e.name, "("];
    assert toks[pos] == e.name && toks[pos + 1] == "(";
    PartsNest(e, 0);
    ScanReads(toks, pos + 2, parts);
    CombineDenotes(c, e);
  }

  /** A function's argument texts evaluate to the meaning of its argument trees. */
  lemma {:induction false} CombineDenotes(c: Ctx, e: Expr)
    requires e.Fn? && WellFormed(e)
    ensures Combine(c, e.name, JoinAll(Parts(e.strategy, PrintAll(e.args)))) == Denote(c, e)
    decreases e, 0, 0
  {
    hide Combine, Denote, StrategyOf, Weight, Tokens, Join, Apply, RoundVals, Length, WellFormed;
    FnParts(e);
    forall i | 0 <= i < |e.args| ensures Eval(c, Join(Print(e.args[i]))) == Denote(c, e.args[i]) {
      PrintTokens(e.args[i]);
      TokensOfJoin(Print(e.args[i]));
      SumReads(c, Print(e.args[i]), 0, e.args[i]);
    }
    EvalAllDenotes(c, e.args);
    CombineUnfolds(c, e);
  }

  lemma FnParts(e: Expr)
    requires e.Fn? && WellFormed(e)
    ensures forall i :: 0 <= i < |e.args| ==> WellFormed(e.args[i])
    ensures e.strategy.Some? ==> Lower(e.name) == "round" && StrategyOf(Join(e.strategy.value)).Some?
    ensures e.strategy.None? ==>
              e.args != [] && (Lower(e.name) == "round" ==> StrategyOf(Join(Print(e.args[0]))).None?)
  {
    hide StrategyOf, Join, Print;
  }

  lemma CombineUnfolds(c: Ctx, e: Expr)
    requires e.Fn?
    requires e.strategy.Some? ==> Lower(e.name) == "round" && StrategyOf(Join(e.strategy.value)).Some?
    requires e.strategy.None? ==>
               e.args != [] && (Lower(e.name) == "round" ==> StrategyOf(Join(Print(e.args[0]))).None?)
    requires EvalAll(c, JoinAll(PrintAll(e.args))) == DenoteAll(c, e.args)
    ensures Combine(c, e.name, JoinAll(Parts(e.strategy, PrintAll(e.args)))) == Denote(c, e)
  {
    hide StrategyOf, Weight, EvalAll, Join, Apply, RoundVals, DenoteAll, Print;
    var texts := JoinAll(Parts(e.strategy, PrintAll(e.args)));
    if e.strategy.Some? {
      assert texts[0] == Join(e.strategy.value);
      assert texts[1..] == JoinAll(PrintAll(e.args));
    } else {
      assert texts[0] == Join(Print(e.args[0]));
    }
  }

  lemma {:induction false} EvalAllDenotes(c: Ctx, args: seq<Expr>)
    requires forall i :: 0 <= i < |args| ==> Eval(c, Join(Print(args[i]))) == Denote(c, args[i])
    ensures EvalAll(c, JoinAll(PrintAll(args))) == DenoteAll(c, args)
  {
    if args != [] {
      EvalAllDenotes(c, args[1..]);
      assert JoinAll(PrintAll(args))[1..] == JoinAll(PrintAll(args[1..]));
    }
  }

  // ---------------------------------------------------------------- every accepted text is a printed tree

  /** The tree a stretch of tokens prints, with the value the evaluator found there. */
  predicate Explains(c: Ctx, toks: seq<Token>, lo: nat, hi: nat, v: real, e: Expr) {
    lo <= hi <= |toks| && WellFormed(e) && toks[lo..hi] == Print(e) && Denote(c, e) == Some(v)
  }

  lemma {:induction false} SumFinds(c: Ctx, toks: seq<Token>, pos: nat) returns (e: Expr)
    requires AllTokens(toks) && pos <= |toks| && Sum(c, toks, pos).At?
    ensures Explains(c, toks, pos, Sum(c, toks, pos).pos, Sum(c, toks, pos).v, e)
    decreases |toks|, |toks| - pos, 4, 0
  {
    e := ProductFinds(c, toks, pos);
    var p := Product(c, toks, pos);
    e := SumRestFinds(c, toks, pos, p.pos, p.v, e);
  }

  /** Two explained stretches with an operator between them are one explained stretch. */
  lemma Joined(c: Ctx, toks: seq<Token>, lo: nat, pos: nat, hi: nat, op: Op, v: real, w: real, l: Expr, r: Expr)
    requires lo <= pos < hi <= |toks| && toks[pos] == OpToken(op)
    requires Explains(c, toks, lo, pos, v, l) && Explains(c, toks, pos + 1, hi, w, r)
    requires Level(l) >= Level(Bin(op, l, r)) && Level(r) > Level(Bin(op, l, r))
    requires BinValue(op, v, w).Some?
    ensures Explains(c, toks, lo, hi, BinValue(op, v, w).value, Bin(op, l, r))
  {
    hide BinValue, Length, Apply, RoundVals;
    assert toks[lo..hi] == toks[lo..pos] + [toks[pos]] + toks[pos + 1..hi];
  }

  lemma {:induction false} SumRestFinds(c: Ctx, toks: seq<Token>, lo: nat, pos: nat, v: real, sofar: Expr)
    returns (e: Expr)
    requires AllTokens(toks) && lo < pos <= |toks| && Explains(c, toks, lo, pos, v, sofar)
    requires SumRest(c, toks, pos, v).At?
    ensures Explains(c, toks, lo, SumRest(c, toks, pos, v).pos, SumRest(c, toks, pos, v).v, e)
    decreases |toks|, |toks| - pos, 3, 0
  {
    hide BinValue, Denote, Factor, Product;
    e := sofar;
    if pos < |toks| && (toks[pos] == "+" || toks[pos] == "-") {
      var r := ProductFinds(c, toks, pos + 1);
      var q := Product(c, toks, pos + 1);
      var op := if toks[pos] == "-" then Sub else Add;
      Joined(c, toks, lo, pos, q.pos, op, v, q.v, sofar, r);
      e := SumRestFinds(c, toks, lo, q.pos, BinValue(op, v, q.v).value, Bin(op, sofar, r));
    }
  }

  lemma {:induction false} ProductFinds(c: Ctx, toks: seq<Token>, pos: nat) returns (e: Expr)
    requires AllTokens(toks) && pos <= |toks| && Product(c, toks, pos).At?
    ensures Explains(c, toks, pos, Product(c, toks, pos).pos, Product(c, toks, pos).v, e) && Level(e) >= 1
    decreases |toks|, |toks| - pos, 2, 0
  {
    e := FactorFinds(c, toks, pos);
    var p := Factor(c, toks, pos);
    e := ProductRestFinds(c, toks, pos, p.pos, p.v, e);
  }

  lemma {:induction false} ProductRestFinds(c: Ctx, toks: seq<Token>, lo: nat, pos: nat, v: real, sofar: Expr)
    returns (e: Expr)
    requires AllTokens(toks) && lo < pos <= |toks| && Explains(c, toks, lo, pos, v, sofar) && Level(sofar) >= 1
    requires ProductRest(c, toks, pos, v).At?
    ensures Explains(c, toks, lo, ProductRest(c, toks, pos, v).pos, ProductRest(c, toks, pos, v).v, e) && Level(e) >= 1
    decreases |toks|, |toks| - pos, 1, 0
  {
    hide BinValue, Denote, Atom, Factor;
    e := sofar;
    if pos < |toks| && (toks[pos] == "*" || toks[pos] == "/") {
      var r := FactorFinds(c, toks, pos + 1);
      var q := Factor(c, toks, pos + 1);
      var op := if toks[pos] == "*" then Mul else Div;
      Joined(c, toks, lo, pos, q.pos, op, v, q.v, sofar, r);
      e := ProductRestFinds(c, toks, lo, q.pos, BinValue(op, v, q.v).value, Bin(op, sofar, r));
    }
  }

  lemma {:induction false} FactorFinds(c: Ctx, toks: seq<Token>, pos: nat) returns (e: Expr)
    requires AllTokens(toks) && pos <= |toks| && Factor(c, toks, pos).At?
    ensures Explains(c, toks, pos, Factor(c, toks, pos).pos, Factor(c, toks, pos).v, e) && Level(e) >= 2
    decreases |toks|, |toks| - pos, 0, 2
  {
    hide Length, Combine, ScanArgs, StrategyOf, Atom, Apply, RoundVals;
    if toks[pos] == "+" || toks[pos] == "-" {
      e := AtomFinds(c, toks, pos + 1);
      var q := Atom(c, toks, pos + 1);
      assert toks[pos..q.pos] == [toks[pos]] + toks[pos + 1..q.pos];
      e := Sign(toks[pos] == "-", e);
    } else {
      e := AtomFinds(c, toks, pos);
    }
  }

  lemma {:induction false} AtomFinds(c: Ctx, toks: seq<Token>, pos: nat) returns (e: Expr)
    requires AllTokens(toks) && pos < |toks| && Atom(c, toks, pos).At?
    ensures Explains(c, toks, pos, Atom(c, toks, pos).pos, Atom(c, toks, pos).v, e) && Level(e) == 3
    decreases |toks|, |toks| - pos, 0, 1
  {
    hide Length, Combine, ScanArgs, StrategyOf, Product, Apply, RoundVals;
    if toks[pos] == "(" {
      e := SumFinds(c, toks, pos + 1);
      var q := Sum(c, toks, pos + 1);
      assert toks[pos..q.pos + 1] == ["("] + toks[pos + 1..q.pos] + [")"];
      e := Group(e);
    } else if pos + 1 < |toks| && toks[pos + 1] == "(" && !IsNumeric(toks[pos]) {
      e := FnFinds(c, toks, pos);
    } else {
      e := LitFinds(c, toks, pos);
    }
  }

  lemma LitFinds(c: Ctx, toks: seq<Token>, pos: nat) returns (e: Expr)
    requires AllTokens(toks) && pos < |toks| && Length(c, toks[pos]).Some?
    ensures Explains(c, toks, pos, pos + 1, Length(c, toks[pos]).value, e) && e.Lit?
  {
    assert toks[pos..pos + 1] == [toks[pos]];
    e := Lit(toks[pos]);
    LengthNeedsWord(c, toks[pos]);
    hide Length;
  }

  lemma {:induction false} FnFinds(c: Ctx, toks: seq<Token>, pos: nat) returns (e: Expr)
    requires AllTokens(toks) && pos + 1 < |toks| && toks[pos] != "(" && toks[pos + 1] == "(" && !IsNumeric(toks[pos])
    requires Atom(c, toks, pos).At?
    ensures Explains(c, toks, pos, Atom(c, toks, pos).pos, Atom(c, toks, pos).v, e) && Level(e) == 3
    decreases |toks|, |toks| - pos, 0, 0
  {
    hide Length, Combine, StrategyOf, Sum, Apply, RoundVals, Denote;
    var scan := ScanArgs(toks, pos + 2, pos + 2, 0);
    ScanShape(toks, pos + 2, pos + 2, 0);
    assert toks[pos..scan.pos] == [toks[pos], "("] + toks[pos + 2..scan.pos];
    e := CallFinds(c, toks[pos], scan.parts, |toks| - 2);
  }

  lemma LengthNeedsWord(c: Ctx, t: Token)
    requires IsToken(t) && Length(c, t).Some?
    ensures IsWord(t)
  {
  }

  lemma ApplyNeedsWord(c: Ctx, name: Token, vals: seq<real>)
    requires IsToken(name) && Apply(c, Lower(name), vals).Some?
    ensures IsWord(name)
  {
    assert |Lower(name)| == |name|;
  }

  /** An accepted call is the print of a function tree with the value found. */
  lemma {:induction false} CallFinds(c: Ctx, name: Token, parts: seq<seq<Token>>, n: nat) returns (e: Expr)
    requires IsToken(name) && !IsNumeric(name) && parts != []
    requires forall i :: 0 <= i < |parts| ==> AllTokens(parts[i]) && |parts[i]| < n
    requires Combine(c, name, JoinAll(parts)).Some?
    ensures WellFormed(e) && e.Fn? && Print(e) == [name, "("] + Commas(parts) + [")"]
    ensures Denote(c, e) == Combine(c, name, JoinAll(parts))
    decreases n, 0, 1, 0
  {
    hide EvalAll, Weight, Apply, RoundVals, Join, IsNumeric, WellFormed, Print, Denote, StrategyOf, Commas, AllTokens;
    var texts := JoinAll(parts);
    if Lower(name) == "round" && StrategyOf(texts[0]).Some? {
      assert texts[1..] == JoinAll(parts[1..]);
      var args := ArgsFind(c, parts[1..], n);
      RoundIsWord(name);
      e := FnWithStrategy(c, name, parts, args);
    } else {
      var args := ArgsFind(c, parts, n);
      ApplyNeedsWord(c, name, EvalAll(c, texts).value);
      e := FnWithout(c, name, parts, args);
    }
  }

  lemma FnWithStrategy(c: Ctx, name: Token, parts: seq<seq<Token>>, args: seq<Expr>) returns (e: Expr)
    requires IsWord(name) && !IsNumeric(name) && parts != [] && AllTokens(parts[0])
    requires Lower(name) == "round" && StrategyOf(Join(parts[0])).Some?
    requires PrintAll(args) == parts[1..] && DenoteAll(c, args) == EvalAll(c, JoinAll(parts[1..]))
    requires forall i :: 0 <= i < |args| ==> WellFormed(args[i])
    ensures WellFormed(e) && e.Fn? && Print(e) == [name, "("] + Commas(parts) + [")"]
    ensures Denote(c, e) == Combine(c, name, JoinAll(parts))
  {
    hide StrategyOf, Join, Commas, EvalAll, Weight, RoundVals, Apply, DenoteAll, AllTokens, IsWord, IsNumeric;
    e := Fn(name, Some(parts[0]), args);
    assert parts == [parts[0]] + parts[1..];
    assert JoinAll(parts)[1..] == JoinAll(parts[1..]);
  }

  lemma FnWithout(c: Ctx, name: Token, parts: seq<seq<Token>>, args: seq<Expr>) returns (e: Expr)
    requires IsWord(name) && !IsNumeric(name) && parts != []
    requires Lower(name) != "round" || StrategyOf(Join(parts[0])).None?
    requires PrintAll(args) == parts && DenoteAll(c, args) == EvalAll(c, JoinAll(parts))
    requires forall i :: 0 <= i < |args| ==> WellFormed(args[i])
    ensures WellFormed(e) && e.Fn? && Print(e) == [name, "("] + Commas(parts) + [")"]
    ensures Denote(c, e) == Combine(c, name, JoinAll(parts))
  {
    hide StrategyOf, Join, Commas, EvalAll, Weight, RoundVals, Apply, DenoteAll, AllTokens, IsWord, IsNumeric;
    e := Fn(name, None, args);
  }

  lemma RoundIsWord(name: Token)
    requires IsToken(name) && Lower(name) == "round"
    ensures IsWord(name)
  {
    assert |Lower(name)| == |name|;
  }

  lemma {:induction false} ArgsFind(c: Ctx, parts: seq<seq<Token>>, n: nat) returns (args: seq<Expr>)
    requires forall i :: 0 <= i < |parts| ==> AllTokens(parts[i]) && |parts[i]| < n
    requires EvalAll(c, JoinAll(parts)).Some?
    ensures PrintAll(args) == parts && DenoteAll(c, args) == EvalAll(c, JoinAll(parts))
    ensures forall i :: 0 <= i < |args| ==> WellFormed(args[i])
    decreases n, 0, 0, |parts|
  {
    if parts == [] {
      args := [];
    } else {
      assert JoinAll(parts)[1..] == JoinAll(parts[1..]);
      TokensOfJoin(parts[0]);
      var e := SumFinds(c, parts[0], 0);
      assert parts[0][0..|parts[0]|] == parts[0];
      var rest := ArgsFind(c, parts[1..], n);
      args := [e] + rest;
      assert args[1..] == rest;
      assert parts == [parts[0]] + parts[1..];
    }
  }

  // ---------------------------------------------------------------- the theorems

  /** Any text that tokenises to a printed tree evaluates to the tree's meaning, errors included. */
  lemma EvalMeansDenote(c: Ctx, text: string, e: Expr)
    requires WellFormed(e) && Tokens(text) == Print(e)
    ensures Eval(c, text) == Denote(c, e)
  {
    hide Sum, Denote, WellFormed, Print, Tokens;
    SumReads(c, Tokens(text), 0, e);
    assert Tokens(text)[0..|Print(e)|] == Print(e);
  }

  /** Evaluation accepts a text with a value exactly when it is the print of a tree with that meaning. */
  lemma EvalAcceptsExactly(c: Ctx, text: string, v: real)
    ensures Eval(c, text) == Some(v)
            <==> exists e :: WellFormed(e) && Print(e) == Tokens(text) && Denote(c, e) == Some(v)
  {
    if Eval(c, text) == Some(v) {
      var e := SumFinds(c, Tokens(text), 0);
      assert Tokens(text)[0..|Tokens(text)|] == Tokens(text);
      assert WellFormed(e) && Print(e) == Tokens(text) && Denote(c, e) == Some(v);
    }
    if e :| WellFormed(e) && Print(e) == Tokens(text) && Denote(c, e) == Some(v) {
      EvalMeansDenote(c, text, e);
    }
  }
}
