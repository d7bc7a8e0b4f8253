/**
 The evaluator as it is written: an object with a token list and a cursor that its methods move.
 Each method is proved to leave the cursor and the value where `CalcCursor` says.
 */
module CalcExprs {
  import opened Options
  import opened Text
  import opened CalcTokens
  import opened CalcMeaning
  import opened CalcLaws
  import C = CalcCursor

  lemma {:induction false} EvalAllIndex(c: Ctx, texts: seq<string>)
    ensures C.EvalAll(c, texts).Some? <==> forall i :: 0 <= i < |texts| ==> C.Eval(c, texts[i]).Some?
    ensures C.EvalAll(c, texts).Some? ==>
              forall i :: 0 <= i < |texts| ==> C.EvalAll(c, texts).value[i] == C.Eval(c, texts[i]).value
  {
    hide C.Eval;
    if texts != [] {
      EvalAllIndex(c, texts[1..]);
      assert forall i :: 1 <= i < |texts| ==> texts[i] == texts[1..][i - 1];
    }
  }

  class CalcExpr {
    const toks: seq<Token>
    const c: Ctx
    var pos: nat

    constructor (toks: seq<Token>, c: Ctx)
      ensures this.toks == toks && this.c == c && pos == 0
    {
      this.toks, this.c, pos := toks, c, 0;
    }

    /** What a parsing method reports, against the function of the position it started at. */
    ghost predicate Reports(v: real, ok: bool, r: C.Parse)
      reads this`pos
    {
      && pos <= |toks|
      && ok == r.At?
      && (ok ==> v == r.v && pos == r.pos)
    }

    method Sum() returns (v: real, ok: bool)
      requires pos <= |toks| && AllTokens(toks)
      modifies this`pos
      ensures Reports(v, ok, C.Sum(c, toks, old(pos)))
      decreases |toks|, |toks| - pos, 4
    {
      hide BinValue, C.Product;
      ghost var whole := C.Sum(c, toks, pos);
      v, ok := Product();
      if !ok { return 0.0, false; }
      while pos < |toks|
        invariant old(pos) < pos <= |toks| && ok
        invariant C.SumRest(c, toks, pos, v) == whole
        decreases |toks| - pos
      {
        var op := toks[pos];
        if op != "+" && op != "-" { return v, true; }
        ghost var at := C.Product(c, toks, pos + 1);
        pos := pos + 1;
        var r;
        r, ok := Product();
        if !ok { return 0.0, false; }
        ghost var before := v;
        if op == "-" { v := v - r; } else { v := v + r; }
        Stepped(if op == "-" then Sub else Add, before, r, v);
      }
    }

    method Product() returns (v: real, ok: bool)
      requires pos <= |toks| && AllTokens(toks)
      modifies this`pos
      ensures Reports(v, ok, C.Product(c, toks, old(pos)))
      decreases |toks|, |toks| - pos, 2
    {
      hide BinValue, C.Factor;
      ghost var whole := C.Product(c, toks, pos);
      v, ok := Factor();
      if !ok { return 0.0, false; }
      while pos < |toks|
        invariant old(pos) < pos <= |toks| && ok
        invariant C.ProductRest(c, toks, pos, v) == whole
        decreases |toks| - pos
      {
        var op := toks[pos];
        if op != "*" && op != "/" { return v, true; }
        ghost var at := C.Factor(c, toks, pos + 1);
        pos := pos + 1;
        var r;
        r, ok := Factor();
        if !ok { return 0.0, false; }
        ghost var before := v;
        if op == "*" {
          v := v * r;
          Stepped(Mul, before, r, v);
        } else if r != 0.0 {
          v := v / r;
          Stepped(Div, before, r, v);
        } else {
          DivByZero(before);
          return 0.0, false;
        }
      }
    }

    method Factor() returns (v: real, ok: bool)
      requires pos <= |toks| && AllTokens(toks)
      modifies this`pos
      ensures Reports(v, ok, C.Factor(c, toks, old(pos)))
      decreases |toks|, |toks| - pos, 0, 1
    {
      hide C.Atom;
      if pos >= |toks| { return 0.0, false; }
      var negative := false;
      var t := toks[pos];
      if t == "+" || t == "-" {
        negative := t == "-";
        pos := pos + 1;
        if pos >= |toks| { return 0.0, false; }
      }
      v, ok := Atom();
      if !ok { return 0.0, false; }
      if negative { v := -v; }
    }

    method Atom() returns (v: real, ok: bool)
      requires pos < |toks| && AllTokens(toks)
      modifies this`pos
      ensures Reports(v, ok, C.Atom(c, toks, old(pos)))
      decreases |toks|, |toks| - pos, 0, 0
    {
      hide Length, C.Combine, C.Sum, C.ScanArgs;
      if toks[pos] == "(" {
        pos := pos + 1;
        v, ok := Sum();
        if !ok || pos >= |toks| || toks[pos] != ")" { return 0.0, false; }
        pos := pos + 1;
        return;
      }
      if pos + 1 < |toks| && toks[pos + 1] == "(" && !IsNumeric(toks[pos]) {
        var name := toks[pos];
        pos := pos + 2;
        v, ok := Call(name);
        return;
      }
      var tok := toks[pos];
      pos := pos + 1;
      var len := Length(c, tok);
      if len.None? { return 0.0, false; }
      return len.value, true;
    }

    /** Collects the arguments of a call and applies it; the opening parenthesis is behind the cursor. */
    method Call(name: Token) returns (v: real, ok: bool)
      requires 2 <= pos <= |toks| && AllTokens(toks)
      modifies this`pos
      ensures pos <= |toks|
      ensures match C.ScanArgs(toks, old(pos), old(pos), 0)
              case Unclosed => !ok
              case Closed(parts, q) =>
                var r := C.Combine(c, name, C.JoinAll(parts));
                ok == r.Some? && (ok ==> v == r.value && pos == q)
      decreases |toks|, 0
    {
      hide C.Combine, Join, C.ScanArgs, C.Weight;
      var args;
      ghost var parts;
      args, parts, ok := CollectArgs();
      if !ok { return 0.0, false; }
      C.PartsWeight(parts, |toks|);
      v, ok := Combine(name, args);
    }

    method CollectArgs() returns (args: seq<string>, ghost parts: seq<seq<Token>>, ok: bool)
      requires pos <= |toks| && AllTokens(toks)
      modifies this`pos
      ensures pos <= |toks|
      ensures match C.ScanArgs(toks, old(pos), old(pos), 0)
              case Unclosed => !ok
              case Closed(all, q) => ok && parts == all && args == C.JoinAll(all) && pos == q
    {
      hide Join, C.JoinAll;
      args, parts, ok := [], [], false;
      var start, depth := pos, 0;
      ghost var whole := C.ScanArgs(toks, pos, pos, 0);
      while pos < |toks|
        invariant old(pos) <= start <= pos <= |toks| && !ok
        invariant args == C.JoinAll(parts)
        invariant whole == After(parts, C.ScanArgs(toks, start, pos, depth))
        decreases |toks| - pos
      {
        if toks[pos] == "(" {
          depth := depth + 1;
        } else if toks[pos] == ")" {
          if depth == 0 {
            JoinAllAppend(parts, toks[start..pos]);
            args, parts := args + [Join(toks[start..pos])], parts + [toks[start..pos]];
            pos, ok := pos + 1, true;
            return;
          }
          depth := depth - 1;
        } else if toks[pos] == "," && depth == 0 {
          JoinAllAppend(parts, toks[start..pos]);
          AfterAppend(parts, toks[start..pos], C.ScanArgs(toks, pos + 1, pos + 1, 0));
          args, parts := args + [Join(toks[start..pos])], parts + [toks[start..pos]];
          start := pos + 1;
        }
        pos := pos + 1;
      }
    }

    ghost function After(parts: seq<seq<Token>>, rest: C.Args): C.Args {
      if rest.Closed? then C.Closed(parts + rest.parts, rest.pos) else C.Unclosed
    }

    lemma AfterAppend(parts: seq<seq<Token>>, part: seq<Token>, rest: C.Args)
      ensures rest.Closed? ==> After(parts + [part], rest) == After(parts, C.Closed([part] + rest.parts, rest.pos))
    {
      if rest.Closed? { assert (parts + [part]) + rest.parts == parts + ([part] + rest.parts); }
    }

    lemma JoinAllAppend(parts: seq<seq<Token>>, part: seq<Token>)
      ensures C.JoinAll(parts + [part]) == C.JoinAll(parts) + [Join(part)]
    {
    }

    method EvalSum(text: string) returns (v: real, ok: bool)
      ensures ok == C.Eval(c, text).Some? && (ok ==> v == C.Eval(c, text).value)
      decreases |Tokens(text)|, |Tokens(text)|, 5
    {
      hide C.Sum;
      var ts := CalcTokens.CalcTokens(text);
      var q := new CalcExpr(ts, c);
      v, ok := q.Sum();
      if !ok || q.pos != |q.toks| { return 0.0, false; }
    }

    /** Evaluates every argument, keeping the smallest or the largest value. */
    method FoldOne(args: seq<string>, smallest: bool) returns (best: real, ok: bool)
      ensures ok == C.EvalAll(c, args).Some?
      ensures ok && args != [] ==>
                best == if smallest then MinOf(C.EvalAll(c, args).value) else MaxOf(C.EvalAll(c, args).value)
      ensures ok && args != [] ==>
                var vals := C.EvalAll(c, args).value;
                if smallest then Smallest(vals, best) else Largest(vals, best)
      decreases C.Weight(args), C.Weight(args) + 1, |args|, 0
    {
      hide C.Eval, C.EvalAll, C.Weight, Smallest, Largest;
      best := 0.0;
      EvalAllIndex(c, args);
      ghost var vals: seq<real> := [];
      for i := 0 to |args|
        invariant |vals| == i
        invariant forall j :: 0 <= j < i ==> C.Eval(c, args[j]) == Some(vals[j])
        invariant i > 0 ==> best == if smallest then MinOf(vals) else MaxOf(vals)
      {
        var v;
        v, ok := EvalSum(args[i]);
        if !ok { return 0.0, false; }
        if i == 0 || (smallest && v < best) || (!smallest && v > best) { best := v; }
        assert (vals + [v])[..i] == vals;
        vals := vals + [v];
      }
      ok := true;
      assert vals == C.EvalAll(c, args).value;
      if args != [] {
        MinIsSmallest(vals);
        MaxIsLargest(vals);
      }
    }

    /** Evaluates every argument, in order. */
    method EvalArgs(args: seq<string>) returns (vals: seq<real>, ok: bool)
      ensures ok == C.EvalAll(c, args).Some? && (ok ==> vals == C.EvalAll(c, args).value)
      decreases C.Weight(args), C.Weight(args) + 1, |args|, 0
    {
      hide C.Eval, C.EvalAll, C.Weight;
      vals := [];
      EvalAllIndex(c, args);
      for i := 0 to |args|
        invariant |vals| == i
        invariant forall j :: 0 <= j < i ==> C.Eval(c, args[j]) == Some(vals[j])
      {
        var v;
        v, ok := EvalSum(args[i]);
        if !ok { return [], false; }
        vals := vals + [v];
      }
      ok := true;
    }

    /** A call's outcome against the function of its name and argument texts. */
    ghost predicate Finds(v: real, ok: bool, name: Token, args: seq<string>) {
      var r := C.Combine(c, name, args);
      ok == r.Some? && (ok ==> v == r.value)
    }

    method Combine(name: Token, args: seq<string>) returns (v: real, ok: bool)
      ensures Finds(v, ok, name, args)
      decreases C.Weight(args), C.Weight(args) + 1, |args|, 3
    {
      hide C.EvalAll, C.Weight, StrategyOf, RoundVals, Apply;
      var fn := Lower(name);
      assert Lower(fn) == fn;
      if fn == "calc" || fn == "abs" || fn == "sign" {
        v, ok := CombineUnary(fn, args);
      } else if fn == "min" || fn == "max" {
        v, ok := CombineFold(fn, args);
      } else if fn == "clamp" {
        v, ok := CombineClamp(args);
      } else if fn == "round" {
        v, ok := CombineRound(args);
      } else if fn == "mod" || fn == "rem" {
        v, ok := CombineMod(fn, args);
      } else {
        // the transcendental functions, and every unknown name
        v, ok := CombineOther(fn, args);
      }
    }

    method CombineUnary(fn: string, args: seq<string>) returns (v: real, ok: bool)
      requires fn == "calc" || fn == "abs" || fn == "sign"
      ensures Finds(v, ok, fn, args)
      decreases C.Weight(args), C.Weight(args) + 1, |args|, 1
    {
      hide C.Eval, C.EvalAll, C.Weight;
      EvalAllIndex(c, args);
      assert Lower(fn) == fn;
      if |args| != 1 { return 0.0, false; }
      v, ok := EvalSum(args[0]);
      if !ok { return 0.0, false; }
      assert C.EvalAll(c, args).value == [v];
      if fn == "abs" {
        if v < 0.0 { v := -v; }
      } else if fn == "sign" {
        if v > 0.0 { return 1.0, true; }
        if v < 0.0 { return -1.0, true; }
        v := 0.0;
      }
    }

    method CombineFold(fn: string, args: seq<string>) returns (v: real, ok: bool)
      requires fn == "min" || fn == "max"
      ensures Finds(v, ok, fn, args)
      decreases C.Weight(args), C.Weight(args) + 1, |args|, 1
    {
      hide C.Eval, C.EvalAll, C.Weight, MinOf, MaxOf;
      assert Lower(fn) == fn;
      EvalAllIndex(c, args);
      if |args| < 1 { return 0.0, false; }
      v, ok := FoldOne(args, fn == "min");
    }

    /** The value capped, then floored. */
    method CombineClamp(args: seq<string>) returns (v: real, ok: bool)
      ensures Finds(v, ok, "clamp", args)
      decreases C.Weight(args), C.Weight(args) + 1, |args|, 1
    {
      hide C.Eval, C.EvalAll, C.Weight, Smallest, Largest;
      assert Lower("clamp") == "clamp";
      EvalAllIndex(c, args);
      if |args| != 3 { return 0.0, false; }
      EvalAllIndex(c, args[1..]);
      assert args[1..][0] == args[1] && args[1..][1] == args[2];
      C.WeightOfRest(args);
      v, ok := FoldOne(args[1..], true);
      if !ok { return 0.0, false; }
      ghost var pair := C.EvalAll(c, args[1..]).value;
      assert pair == [pair[0], pair[1]] && pair[..1] == [pair[0]];
      assert v == Min(pair[0], pair[1]);
      var lo;
      lo, ok := EvalSum(args[0]);
      if !ok { return 0.0, false; }
      assert C.EvalAll(c, args).value == [lo, pair[0], pair[1]];
      if v < lo { v := lo; }
    }

    /** The multiple of the step that the strategy asks for. */
    method CombineRound(args: seq<string>) returns (v: real, ok: bool)
      ensures Finds(v, ok, "round", args)
      ensures ok ==>
                var strategy := if StrategyOf(args[0]).Some? then StrategyOf(args[0]).value else Nearest;
                var vals := C.EvalAll(c, if StrategyOf(args[0]).Some? then args[1..] else args).value;
                IsRounded(strategy, vals[0], if |vals| == 2 then vals[1] else 1.0, v)
      decreases C.Weight(args), C.Weight(args) + 1, |args|, 2
    {
      hide C.EvalAll, C.Weight, RoundTo, IsRounded, RoundVals, StrategyOf;
      assert Lower("round") == "round";
      var used, strategy := args, Nearest;
      if |args| > 0 && StrategyOf(args[0]).Some? {
        C.WeightOfRest(args);
        used, strategy := args[1..], StrategyOf(args[0]).value;
      }
      v, ok := RoundUsed(used, strategy);
    }

    method RoundUsed(args: seq<string>, strategy: Strategy) returns (v: real, ok: bool)
      ensures var vals := C.EvalAll(c, args);
              var r := if vals.Some? then RoundVals(strategy, vals.value) else None;
              ok == r.Some? && (ok ==> v == r.value)
      ensures ok ==>
                var vals := C.EvalAll(c, args).value;
                0 < |vals| <= 2 && IsRounded(strategy, vals[0], if |vals| == 2 then vals[1] else 1.0, v)
      decreases C.Weight(args), C.Weight(args) + 1, |args|, 1
    {
      hide C.Eval, C.EvalAll, C.Weight, RoundTo, IsRounded;
      EvalAllIndex(c, args);
      if |args| == 1 {
        v, ok := EvalSum(args[0]);
        if !ok { return 0.0, false; }
        RoundToRounds(strategy, v, 1.0);
        return RoundTo(v, 1.0, strategy), true;
      } else if |args| == 2 {
        v, ok := EvalSum(args[0]);
        if !ok { return 0.0, false; }
        var step;
        step, ok := EvalSum(args[1]);
        if !ok || step == 0.0 { return 0.0, false; }
        RoundToRounds(strategy, v, step);
        return RoundTo(v, step, strategy), true;
      }
      return 0.0, false;
    }

    method CombineMod(fn: string, args: seq<string>) returns (v: real, ok: bool)
      requires fn == "mod" || fn == "rem"
      ensures Finds(v, ok, fn, args)
      ensures ok ==>
                var vals := C.EvalAll(c, args).value;
                |vals| == 2 && if fn == "mod" then IsMod(vals[0], vals[1], v) else IsRem(vals[0], vals[1], v)
      decreases C.Weight(args), C.Weight(args) + 1, |args|, 1
    {
      hide C.Eval, C.EvalAll, C.Weight, IsMod, IsRem, ModOf, RemOf, Apply;
      EvalAllIndex(c, args);
      assert Lower(fn) == fn;
      RemainderRefused(c, fn);
      if |args| != 2 { return 0.0, false; }
      var a, b;
      a, ok := EvalSum(args[0]);
      if !ok { return 0.0, false; }
      b, ok := EvalSum(args[1]);
      if !ok || b == 0.0 { return 0.0, false; }
      assert C.EvalAll(c, args).value == [a, b];
      if fn == "mod" {
        v := ModOf(a, b);
        FloorSplits(a, b);
      } else {
        v := RemOf(a, b);
        TruncSplits(a, b);
      }
      RemainderApplied(c, fn, [a, b]);
    }

    method CombineOther(fn: string, args: seq<string>) returns (v: real, ok: bool)
      requires fn == Lower(fn) && fn != "round"
      ensures Finds(v, ok, fn, args)
      decreases C.Weight(args), C.Weight(args) + 1, |args|, 1
    {
      hide C.EvalAll, C.Weight, Apply;
      var vals;
      vals, ok := EvalArgs(args);
      if !ok { return 0.0, false; }
      var r := Apply(c, fn, vals);
      if r.None? { return 0.0, false; }
      return r.value, true;
    }
  }

  // ---------------------------------------------------------------- the entry point

  /** A property function's text split on the commas outside every parenthesis. */
  function SplitArgs(s: string, start: nat, i: nat, depth: int): (parts: seq<string>)
    requires start <= i <= |s|
    ensures parts != []
    decreases |s| - i
  {
    if i == |s| then [s[start..]]
    else if s[i] == '(' then SplitArgs(s, start, i + 1, depth + 1)
    else if s[i] == ')' then SplitArgs(s, start, i + 1, depth - 1)
    else if s[i] == ',' && depth == 0 then [s[start..i]] + SplitArgs(s, i + 1, i + 1, depth)
    else SplitArgs(s, start, i + 1, depth)
  }

  method SplitArgsLoop(s: string) returns (parts: seq<string>)
    ensures parts == SplitArgs(s, 0, 0, 0)
  {
    parts := [];
    var depth, start, i := 0, 0, 0;
    while i < |s|
      invariant start <= i <= |s|
      invariant parts + SplitArgs(s, start, i, depth) == SplitArgs(s, 0, 0, 0)
    {
      if s[i] == '(' {
        depth := depth + 1;
      } else if s[i] == ')' {
        depth := depth - 1;
      } else if s[i] == ',' && depth == 0 {
        assert parts + ([s[start..i]] + SplitArgs(s, i + 1, i + 1, depth))
            == parts + [s[start..i]] + SplitArgs(s, i + 1, i + 1, depth);
        parts := parts + [s[start..i]];
        start := i + 1;
      }
      i := i + 1;
    }
    parts := parts + [s[start..]];
  }

  /** The context with the defaults the entry points fill in. */
  function WithDefaults(c: Ctx): Ctx {
    c.(em := if c.em <= 0.0 then 16.0 else c.em,
       rem := if c.rem <= 0.0 then 16.0 else c.rem,
       vw := if c.vw <= 0.0 then 1440.0 else c.vw,
       vh := if c.vh <= 0.0 then 900.0 else c.vh)
  }

  method EvalFunc(name: string, expr: string, c: Ctx) returns (v: real, ok: bool)
    ensures var r := C.Combine(WithDefaults(c), name, SplitArgs(expr, 0, 0, 0));
            ok == r.Some? && (ok ==> v == r.value)
  {
    var p := new CalcExpr([], WithDefaults(c));
    var args := SplitArgsLoop(expr);
    v, ok := p.Combine(name, args);
  }
}
