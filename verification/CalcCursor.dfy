/**
 The cursor evaluator's result as a function of the tokens and the position, branch by branch: how
 far it reads and what value it finds.
 */
module CalcCursor {
  import opened Options
  import opened Text
  import opened CalcTokens
  import opened CalcMeaning

  datatype Parse = Fail | At(v: real, pos: nat)

  /** The arguments of a call whose opening parenthesis ends before `pos`, and where it closes. */
  datatype Args = Unclosed | Closed(parts: seq<seq<Token>>, pos: nat)

  function ScanArgs(toks: seq<Token>, start: nat, pos: nat, depth: nat): (r: Args)
    requires start <= pos <= |toks|
    ensures r.Closed? ==> pos < r.pos <= |toks| && r.parts != []
    ensures r.Closed? ==> forall i :: 0 <= i < |r.parts| ==> |r.parts[i]| < |toks| - start
    ensures r.Closed? && AllTokens(toks) ==> forall i :: 0 <= i < |r.parts| ==> AllTokens(r.parts[i])
    decreases |toks| - pos
  {
    if pos >= |toks| then Unclosed
    else if toks[pos] == "(" then ScanArgs(toks, start, pos + 1, depth + 1)
    else if toks[pos] == ")" then
      if depth == 0 then Closed([toks[start..pos]], pos + 1)
      else ScanArgs(toks, start, pos + 1, depth - 1)
    else if toks[pos] == "," && depth == 0 then
      var rest := ScanArgs(toks, pos + 1, pos + 1, 0);
      if rest.Unclosed? then Unclosed else Closed([toks[start..pos]] + rest.parts, rest.pos)
    else ScanArgs(toks, start, pos + 1, depth)
  }

  function JoinAll(parts: seq<seq<Token>>): (texts: seq<string>)
    ensures |texts| == |parts|
    ensures forall i :: 0 <= i < |parts| ==> texts[i] == Join(parts[i])
  {
    seq(|parts|, i requires 0 <= i < |parts| => Join(parts[i]))
  }

  /** The most tokens any of these texts has. */
  function Weight(texts: seq<string>): (n: nat)
    ensures forall i :: 0 <= i < |texts| ==> |Tokens(texts[i])| <= n
    ensures texts == [] ==> n == 0
    ensures texts != [] ==> exists i :: 0 <= i < |texts| && |Tokens(texts[i])| == n
  {
    if texts == [] then 0
    else
      var n, m := |Tokens(texts[0])|, Weight(texts[1..]);
      assert forall i :: 1 <= i < |texts| ==> texts[i] == texts[1..][i - 1];
      if n >= m then n else m
  }

  function Sum(c: Ctx, toks: seq<Token>, pos: nat): (r: Parse)
    requires AllTokens(toks) && pos <= |toks|
    ensures r.At? ==> pos < r.pos <= |toks|
    decreases |toks|, |toks| - pos, 4
  {
    match Product(c, toks, pos)
    case Fail => Fail
    case At(v, q) => SumRest(c, toks, q, v)
  }

  function SumRest(c: Ctx, toks: seq<Token>, pos: nat, v: real): (r: Parse)
    requires AllTokens(toks) && pos <= |toks|
    ensures r.At? ==> pos <= r.pos <= |toks|
    decreases |toks|, |toks| - pos, 3
  {
    if pos < |toks| && (toks[pos] == "+" || toks[pos] == "-") then
      match Product(c, toks, pos + 1)
      case Fail => Fail
      case At(w, q) =>
        var x := BinValue(if toks[pos] == "-" then Sub else Add, v, w);
        if x.Some? then SumRest(c, toks, q, x.value) else Fail
    else At(v, pos)
  }

  function Product(c: Ctx, toks: seq<Token>, pos: nat): (r: Parse)
    requires AllTokens(toks) && pos <= |toks|
    ensures r.At? ==> pos < r.pos <= |toks|
    decreases |toks|, |toks| - pos, 2
  {
    match Factor(c, toks, pos)
    case Fail => Fail
    case At(v, q) => ProductRest(c, toks, q, v)
  }

  function ProductRest(c: Ctx, toks: seq<Token>, pos: nat, v: real): (r: Parse)
    requires AllTokens(toks) && pos <= |toks|
    ensures r.At? ==> pos <= r.pos <= |toks|
    decreases |toks|, |toks| - pos, 1
  {
    if pos < |toks| && (toks[pos] == "*" || toks[pos] == "/") then
      match Factor(c, toks, pos + 1)
      case Fail => Fail
      case At(w, q) =>
        var x := BinValue(if toks[pos] == "*" then Mul else Div, v, w);
        if x.Some? then ProductRest(c, toks, q, x.value) else Fail
    else At(v, pos)
  }

  function Factor(c: Ctx, toks: seq<Token>, pos: nat): (r: Parse)
    requires AllTokens(toks) && pos <= |toks|
    ensures r.At? ==> pos < r.pos <= |toks|
    decreases |toks|, |toks| - pos, 0, 1
  {
    if pos >= |toks| then Fail
    else if toks[pos] == "+" || toks[pos] == "-" then
      if pos + 1 >= |toks| then Fail
      else
        match Atom(c, toks, pos + 1)
        case Fail => Fail
        case At(v, q) => At(if toks[pos] == "-" then -v else v, q)
    else Atom(c, toks, pos)
  }

  function Atom(c: Ctx, toks: seq<Token>, pos: nat): (r: Parse)
    requires AllTokens(toks) && pos < |toks|
    ensures r.At? ==> pos < r.pos <= |toks|
    decreases |toks|, |toks| - pos, 0, 0
  {
    if toks[pos] == "(" then
      match Sum(c, toks, pos + 1)
      case Fail => Fail
      case At(v, q) => if q >= |toks| || toks[q] != ")" then Fail else At(v, q + 1)
    else if pos + 1 < |toks| && toks[pos + 1] == "(" && !IsNumeric(toks[pos]) then
      match ScanArgs(toks, pos + 2, pos + 2, 0)
      case Unclosed => Fail
      case Closed(parts, q) =>
        PartsWeight(parts, |toks|);
        var v := Combine(c, toks[pos], JoinAll(parts));
        if v.Some? then At(v.value, q) else Fail
    else
      var v := Length(c, toks[pos]);
      if v.Some? then At(v.value, pos + 1) else Fail
  }

  lemma PartsWeight(parts: seq<seq<Token>>, n: nat)
    requires parts != []
    requires forall i :: 0 <= i < |parts| ==> |parts[i]| < n && AllTokens(parts[i])
    ensures Weight(JoinAll(parts)) < n
  {
    forall i | 0 <= i < |parts| ensures |Tokens(JoinAll(parts)[i])| < n {
      TokensOfJoin(parts[i]);
    }
  }

  /** Evaluating an argument's text as an expression of its own. */
  function Eval(c: Ctx, text: string): Option<real>
    decreases |Tokens(text)|, |Tokens(text)|, 5
  {
    var toks := Tokens(text);
    match Sum(c, toks, 0)
    case Fail => None
    case At(v, pos) => if pos == |toks| then Some(v) else None
  }

  function EvalAll(c: Ctx, texts: seq<string>): (vals: Option<seq<real>>)
    ensures vals.Some? ==> |vals.value| == |texts|
    decreases Weight(texts), Weight(texts) + 1, |texts|, 0
  {
    if texts == [] then Some([])
    else
      WeightOfRest(texts);
      var v, rest := Eval(c, texts[0]), EvalAll(c, texts[1..]);
      if v.Some? && rest.Some? then Some([v.value] + rest.value) else None
  }

  lemma WeightOfRest(texts: seq<string>)
    requires texts != []
    ensures |Tokens(texts[0])| <= Weight(texts) && Weight(texts[1..]) <= Weight(texts)
  {
  }

  /** A function applied to the texts of its arguments. */
  function Combine(c: Ctx, name: Token, texts: seq<string>): Option<real>
    decreases Weight(texts), Weight(texts) + 1, |texts|, 1
  {
    var fn := Lower(name);
    var keyword := if fn == "round" && texts != [] then StrategyOf(texts[0]) else None;
    if keyword.Some? then
      WeightOfRest(texts);
      var vals := EvalAll(c, texts[1..]);
      if vals.Some? then RoundVals(keyword.value, vals.value) else None
    else
      var vals := EvalAll(c, texts);
      if vals.Some? then Apply(c, fn, vals.value) else None
  }
}
