/**
 What the math functions compute, said apart from how: each law fixes the one value there is.  They are
 those of section 10 of CSS Values and Units Level 4 but for the cases named here: ties of `nearest`, and
 zero divisors and steps, which the code refuses.
 */
module CalcLaws {
  import opened Options
  import opened Text
  import opened CalcTokens
  import opened CalcMeaning

  // ---------------------------------------------------------------- whole multiples

  function Times(k: int, b: real): real {
    k as real * b
  }

  predicate IsTimes(x: real, k: int, b: real) {
    x == Times(k, b)
  }

  ghost predicate Multiple(x: real, b: real) {
    exists k: int :: IsTimes(x, k, b)
  }

  function Size(b: real): (s: real)
    ensures s >= 0.0 && (b != 0.0 ==> s > 0.0)
  {
    if b < 0.0 then -b else b
  }

  lemma MulOrder(a: real, b: real, s: real)
    requires s > 0.0
    ensures (a < b <==> a * s < b * s) && (a <= b <==> a * s <= b * s)
  {
    assert (b - a) * s == b * s - a * s;
  }

  /** Multiples less than one step apart are the same. */
  lemma SameMultiple(x: real, y: real, b: real)
    requires b != 0.0 && Multiple(x, b) && Multiple(y, b) && -Size(b) < x - y < Size(b)
    ensures x == y
  {
    var j: int :| IsTimes(x, j, b);
    var k: int :| IsTimes(y, k, b);
    hide Times;
    if j > k { StepApart(j, k, b); }
    if k > j { StepApart(k, j, b); }
  }

  lemma StepApart(j: int, k: int, b: real)
    requires j > k
    ensures b > 0.0 ==> Times(j, b) - Times(k, b) >= b
    ensures b < 0.0 ==> Times(j, b) - Times(k, b) <= b
  {
    var d := j as real - k as real - 1.0;
    assert d >= 0.0;
    assert d * b == j as real * b - k as real * b - b;
    assert b > 0.0 ==> d * b >= 0.0;
    assert b < 0.0 ==> d * b <= 0.0;
  }

  lemma MultipleOfSize(k: int, b: real)
    ensures Multiple(Times(k, Size(b)), b)
  {
    if b < 0.0 {
      assert k as real * -b == (-k) as real * b;
      assert IsTimes(Times(k, Size(b)), -k, b);
    } else {
      assert IsTimes(Times(k, Size(b)), k, b);
    }
  }

  // ---------------------------------------------------------------- min, max, clamp, abs, sign

  ghost predicate Smallest(vals: seq<real>, r: real) {
    r in vals && forall i :: 0 <= i < |vals| ==> r <= vals[i]
  }

  ghost predicate Largest(vals: seq<real>, r: real) {
    r in vals && forall i :: 0 <= i < |vals| ==> vals[i] <= r
  }

  lemma {:induction false} MinIsSmallest(vals: seq<real>)
    requires vals != []
    ensures Smallest(vals, MinOf(vals))
    decreases |vals|
  {
    var n := |vals| - 1;
    if n > 0 {
      MinIsSmallest(vals[..n]);
      forall i | 0 <= i < |vals| ensures MinOf(vals) <= vals[i] {
        if i < n { assert vals[i] == vals[..n][i]; }
      }
    }
  }

  lemma {:induction false} MaxIsLargest(vals: seq<real>)
    requires vals != []
    ensures Largest(vals, MaxOf(vals))
    decreases |vals|
  {
    var n := |vals| - 1;
    if n > 0 {
      MaxIsLargest(vals[..n]);
      forall i | 0 <= i < |vals| ensures vals[i] <= MaxOf(vals) {
        if i < n { assert vals[i] == vals[..n][i]; }
      }
    }
  }

  /** `min` and `max` find the one smallest and the one largest value, and refuse an empty list only. */
  lemma ExtremesAre(c: Ctx, vals: seq<real>, r: real)
    ensures Apply(c, "min", vals) == Some(r) <==> vals != [] && Smallest(vals, r)
    ensures Apply(c, "max", vals) == Some(r) <==> vals != [] && Largest(vals, r)
  {
    if vals != [] {
      MinIsSmallest(vals);
      MaxIsLargest(vals);
      if Smallest(vals, r) {
        var i :| 0 <= i < |vals| && vals[i] == r;
        var j :| 0 <= j < |vals| && vals[j] == MinOf(vals);
      }
      if Largest(vals, r) {
        var i :| 0 <= i < |vals| && vals[i] == r;
        var j :| 0 <= j < |vals| && vals[j] == MaxOf(vals);
      }
    }
  }

  /** `clamp` is the value of [lo, hi] nearest to the middle argument; when lo > hi it is lo. */
  lemma ClampIs(c: Ctx, lo: real, v: real, hi: real, r: real)
    ensures Apply(c, "clamp", [lo, v, hi]) == Some(r)
            <==> if lo <= hi then lo <= r <= hi && (r < v ==> r == hi) && (r > v ==> r == lo) else r == lo
  {
  }

  lemma AbsAndSignAre(c: Ctx, v: real, r: real)
    ensures Apply(c, "abs", [v]) == Some(r) <==> r >= 0.0 && (r == v || r == -v)
    ensures Apply(c, "sign", [v]) == Some(r)
            <==> (r == 1.0 && v > 0.0) || (r == -1.0 && v < 0.0) || (r == 0.0 && v == 0.0)
  {
  }

  // ---------------------------------------------------------------- the functions of the math package

  /** Where each of them is defined: how many arguments, and which. */
  predicate Takes(name: string, vals: seq<real>) {
    || (name in ["sin", "cos", "tan", "atan", "exp"] && |vals| == 1)
    || (name in ["asin", "acos"] && |vals| == 1 && -1.0 <= vals[0] <= 1.0)
    || (name == "sqrt" && |vals| == 1 && 0.0 <= vals[0])
    || (name in ["atan2", "pow"] && |vals| == 2)
    || (name == "hypot" && vals != [])
    || (name == "log" && 1 <= |vals| <= 2 && 0.0 < vals[0] && (|vals| == 2 ==> 0.0 < vals[1] && vals[1] != 1.0))
  }

  const ELEMENTARY := ["sin", "cos", "tan", "atan", "exp", "asin", "acos", "sqrt", "atan2", "pow", "hypot", "log"]

  /** Each is itself on the arguments it is defined for, and refuses all others. */
  lemma ElementaryIs(c: Ctx, name: string, vals: seq<real>)
    requires name in ELEMENTARY
    ensures Apply(c, name, vals) == if Takes(name, vals) then Some(c.transcendental(name, vals)) else None
  {
    hide Apply, Takes;
    if name in ["sin", "cos", "tan", "atan", "exp"] { OfOneArgument(c, name, vals); }
    else if name in ["asin", "acos", "sqrt"] { OfARange(c, name, vals); }
    else { OfMoreArguments(c, name, vals); }
  }

  lemma OfOneArgument(c: Ctx, name: string, vals: seq<real>)
    requires name in ["sin", "cos", "tan", "atan", "exp"]
    ensures Apply(c, name, vals) == if Takes(name, vals) then Some(c.transcendental(name, vals)) else None
  {
    hide MinOf, MaxOf, ModOf, RemOf, RoundVals, Max, Min;
  }

  lemma OfARange(c: Ctx, name: string, vals: seq<real>)
    requires name in ["asin", "acos", "sqrt"]
    ensures Apply(c, name, vals) == if Takes(name, vals) then Some(c.transcendental(name, vals)) else None
  {
    hide MinOf, MaxOf, ModOf, RemOf, RoundVals, Max, Min;
  }

  lemma OfMoreArguments(c: Ctx, name: string, vals: seq<real>)
    requires name in ["atan2", "pow", "hypot", "log"]
    ensures Apply(c, name, vals) == if Takes(name, vals) then Some(c.transcendental(name, vals)) else None
  {
    hide MinOf, MaxOf, ModOf, RemOf, RoundVals, Max, Min;
  }

  // ---------------------------------------------------------------- mod and rem

  /** Between zero and the divisor, zero itself allowed. */
  predicate BetweenZeroAnd(r: real, b: real) {
    if b > 0.0 then 0.0 <= r < b else b < r <= 0.0
  }

  /** No sign but the one given. */
  predicate SignedLike(r: real, a: real) {
    if a > 0.0 then r >= 0.0 else if a < 0.0 then r <= 0.0 else r == 0.0
  }

  ghost predicate IsMod(a: real, b: real, r: real) {
    Multiple(a - r, b) && BetweenZeroAnd(r, b)
  }

  ghost predicate IsRem(a: real, b: real, r: real) {
    Multiple(a - r, b) && SignedLike(r, a) && Size(r) < Size(b)
  }

  lemma QuotientOrder(a: real, b: real, k: real)
    requires b != 0.0
    ensures k <= a / b <==> if b > 0.0 then b * k <= a else a <= b * k
    ensures a / b <= k <==> if b > 0.0 then a <= b * k else b * k <= a
  {
    var q := a / b;
    assert q * b == a;
    var s := Size(b);
    assert if b > 0.0 then q * s == a && k * s == b * k else q * s == -a && k * s == -(b * k);
    MulOrder(q, k, s);
    MulOrder(k, q, s);
  }

  lemma FloorSplits(a: real, b: real)
    requires b != 0.0
    ensures IsMod(a, b, ModOf(a, b))
  {
    var k := Floor(a / b);
    var x := k as real;
    assert x <= a / b < x + 1.0;
    QuotientOrder(a, b, x);
    QuotientOrder(a, b, x + 1.0);
    assert b * (x + 1.0) == b * x + b;
    assert ModOf(a, b) == a - b * x && IsTimes(a - ModOf(a, b), k, b);
  }

  lemma TruncSplits(a: real, b: real)
    requires b != 0.0
    ensures IsRem(a, b, RemOf(a, b))
  {
    var k := Trunc(a / b);
    var x := k as real;
    assert RemOf(a, b) == a - b * x && IsTimes(a - RemOf(a, b), k, b);
    TruncBounds(a / b);
    TruncRange(a, b, x);
  }

  lemma TruncBounds(q: real)
    ensures var x := Trunc(q) as real; if q < 0.0 then x - 1.0 < q <= x <= 0.0 else 0.0 <= x <= q < x + 1.0
  {
    if q < 0.0 { CeilBounds(q); }
  }

  lemma TruncRange(a: real, b: real, x: real)
    requires b != 0.0
    requires if a / b < 0.0 then x - 1.0 < a / b <= x <= 0.0 else 0.0 <= x <= a / b < x + 1.0
    ensures SignedLike(a - b * x, a) && Size(a - b * x) < Size(b)
  {
    QuotientOrder(a, b, x);
    QuotientOrder(a, b, 0.0);
    QuotientOrder(a, b, x - 1.0);
    QuotientOrder(a, b, x + 1.0);
    assert b * (x + 1.0) == b * x + b && b * (x - 1.0) == b * x - b;
    if a == 0.0 { assert a / b == 0.0; }
  }

  lemma CeilBounds(x: real)
    ensures Ceil(x) as real - 1.0 < x <= Ceil(x) as real
  {
    assert Ceil(x) as real == -((-x).Floor as real);
  }

  lemma OneMod(a: real, b: real, r: real, t: real)
    requires b != 0.0 && IsMod(a, b, r) && IsMod(a, b, t)
    ensures r == t
  {
    SameMultiple(a - r, a - t, b);
  }

  lemma OneRem(a: real, b: real, r: real, t: real)
    requires b != 0.0 && IsRem(a, b, r) && IsRem(a, b, t)
    ensures r == t
  {
    SameMultiple(a - r, a - t, b);
  }

  /** `mod` is the one value from zero up to the divisor a whole number of divisors away. */
  lemma ModIs(c: Ctx, a: real, b: real, r: real)
    ensures Apply(c, "mod", [a, b]) == Some(r) <==> b != 0.0 && IsMod(a, b, r)
  {
    hide IsMod, ModOf;
    assert "mod"[1] == 'o' && "min"[1] == 'i' && "max"[1] == 'a' && "abs"[0] == 'a';
    if b != 0.0 {
      var t := ModOf(a, b);
      FloorSplits(a, b);
      if IsMod(a, b, r) { OneMod(a, b, r, t); }
    }
  }

  /** `rem` is the one value smaller than the divisor, signed like the dividend, whole divisors away. */
  lemma RemIs(c: Ctx, a: real, b: real, r: real)
    ensures Apply(c, "rem", [a, b]) == Some(r) <==> b != 0.0 && IsRem(a, b, r)
  {
    hide IsRem, RemOf;
    assert "rem"[0] == 'r' && "mod"[0] == 'm' && "min"[0] == 'm' && "max"[0] == 'm' && "abs"[0] == 'a';
    if b != 0.0 {
      var t := RemOf(a, b);
      TruncSplits(a, b);
      if IsRem(a, b, r) { OneRem(a, b, r, t); }
    }
  }

  lemma RemainderApplied(c: Ctx, fn: string, vals: seq<real>)
    requires (fn == "mod" || fn == "rem") && |vals| == 2 && vals[1] != 0.0
    ensures Apply(c, fn, vals) == Some(if fn == "mod" then ModOf(vals[0], vals[1]) else RemOf(vals[0], vals[1]))
  {
    hide ModOf, RemOf;
    assert "mod"[1] == 'o' && "min"[1] == 'i' && "max"[1] == 'a' && "abs"[0] == 'a' && "rem"[0] == 'r';
  }

  lemma RemainderRefused(c: Ctx, fn: string)
    requires fn == "mod" || fn == "rem"
    ensures forall vals: seq<real> :: |vals| != 2 || vals[1] == 0.0 ==> Apply(c, fn, vals).None?
  {
    hide ModOf, RemOf;
    assert "mod"[1] == 'o' && "min"[1] == 'i' && "max"[1] == 'a' && "abs"[0] == 'a' && "rem"[0] == 'r';
  }

  // ---------------------------------------------------------------- round

  /** The multiple of the step that a strategy asks for; of two equally near ones, the one away from zero. */
  ghost predicate IsRounded(strategy: Strategy, v: real, step: real, r: real) {
    var s := Size(step);
    Multiple(r, step) &&
    match strategy
    case Up => v <= r < v + s
    case Down => v - s < r <= v
    case ToZero => SignedLike(r, v) && Size(r) <= Size(v) < Size(r) + s
    case Nearest => 2.0 * Size(r - v) <= s && (2.0 * Size(r - v) == s ==> if v < 0.0 then r < v else v < r)
  }

  /** The rounding function between two whole numbers of steps. */
  function Whole(strategy: Strategy, q: real): int {
    match strategy
    case Up => Ceil(q)
    case Down => Floor(q)
    case ToZero => Trunc(q)
    case Nearest => RoundHalfAway(q)
  }

  lemma WholeBounds(strategy: Strategy, q: real)
    ensures var x := Whole(strategy, q) as real;
            match strategy
            case Up => x - 1.0 < q <= x
            case Down => x <= q < x + 1.0
            case ToZero => if q < 0.0 then x - 1.0 < q <= x <= 0.0 else 0.0 <= x <= q < x + 1.0
            case Nearest => if q < 0.0 then x - 0.5 < q <= x + 0.5 else x - 0.5 <= q < x + 0.5
  {
    CeilBounds(q);
    CeilBounds(q - 0.5);
  }

  /** What comparing a value and a multiple says, in steps and in full. */
  lemma Steps(q: real, k: int, s: real, v: real, t: real)
    requires s > 0.0 && v == q * s && t == Times(k, s)
    ensures var x := k as real;
            && (q < 0.0 <==> v < 0.0) && (q <= x <==> v <= t) && (x <= q <==> t <= v)
            && (x <= 0.0 <==> t <= 0.0) && (0.0 <= x <==> 0.0 <= t)
            && (x - 1.0 < q <==> t - s < v) && (q < x + 1.0 <==> v < t + s)
            && (x - 0.5 < q <==> 2.0 * (t - v) < s) && (q < x + 0.5 <==> -s < 2.0 * (t - v))
            && (x - 0.5 <= q <==> 2.0 * (t - v) <= s) && (q <= x + 0.5 <==> -s <= 2.0 * (t - v))
  {
    var x := k as real;
    Ordered(q, 0.0, s, v, 0.0);
    Ordered(x, q, s, t, v);
    Ordered(q, x, s, v, t);
    Ordered(x, 0.0, s, t, 0.0);
    Ordered(0.0, x, s, 0.0, t);
    assert (x - 1.0) * s == t - s && (x + 1.0) * s == t + s;
    Ordered(x - 1.0, q, s, t - s, v);
    Ordered(q, x + 1.0, s, v, t + s);
    assert (x - 0.5) * s == t - 0.5 * s && (x + 0.5) * s == t + 0.5 * s;
    Ordered(x - 0.5, q, s, t - 0.5 * s, v);
    Ordered(q, x + 0.5, s, v, t + 0.5 * s);
  }

  lemma Ordered(a: real, b: real, s: real, p: real, r: real)
    requires s > 0.0 && p == a * s && r == b * s
    ensures (a < b <==> p < r) && (a <= b <==> p <= r)
  {
    MulOrder(a, b, s);
  }

  lemma RoundToIs(strategy: Strategy, v: real, step: real)
    requires step != 0.0
    ensures RoundTo(v, step, strategy) == Times(Whole(strategy, v / Size(step)), Size(step))
    ensures v == v / Size(step) * Size(step)
  {
    hide Ceil, Floor, Trunc, RoundHalfAway;
  }

  lemma RoundToRounds(strategy: Strategy, v: real, step: real)
    requires step != 0.0
    ensures IsRounded(strategy, v, step, RoundTo(v, step, strategy))
  {
    hide Whole, Multiple, RoundTo, Times;
    var s := Size(step);
    var q := v / s;
    var k := Whole(strategy, q);
    var t := RoundTo(v, step, strategy);
    RoundToIs(strategy, v, step);
    MultipleOfSize(k, step);
    WholeBounds(strategy, q);
    Steps(q, k, s, v, t);
  }

  lemma OneRounded(strategy: Strategy, v: real, step: real, r: real, t: real)
    requires step != 0.0 && IsRounded(strategy, v, step, r) && IsRounded(strategy, v, step, t)
    ensures r == t
  {
    hide Multiple;
    SameMultiple(r, t, step);
  }

  /** Each strategy finds the one multiple it stands for; a zero step, and no step but one, is refused. */
  lemma RoundIs(strategy: Strategy, v: real, step: real, r: real)
    ensures RoundVals(strategy, [v, step]) == Some(r) <==> step != 0.0 && IsRounded(strategy, v, step, r)
    ensures RoundVals(strategy, [v]) == Some(r) <==> IsRounded(strategy, v, 1.0, r)
  {
    hide IsRounded, RoundTo;
    RoundToRounds(strategy, v, 1.0);
    if IsRounded(strategy, v, 1.0, r) { OneRounded(strategy, v, 1.0, r, RoundTo(v, 1.0, strategy)); }
    if step != 0.0 {
      RoundToRounds(strategy, v, step);
      if IsRounded(strategy, v, step, r) { OneRounded(strategy, v, step, r, RoundTo(v, step, strategy)); }
    }
  }

  // ---------------------------------------------------------------- `nearest` in the section and in the code

  /** The nearest multiple with ties going to the upper one, as the section has it. */
  ghost predicate IsNearestUpward(v: real, step: real, r: real) {
    Multiple(r, step) && -Size(step) < 2.0 * (r - v) <= Size(step)
  }

  function NearestUpward(v: real, step: real): real
    requires step != 0.0
  {
    Times(Floor(v / Size(step) + 0.5), Size(step))
  }

  lemma NearestUpwardIs(v: real, step: real, r: real)
    requires step != 0.0
    ensures r == NearestUpward(v, step) <==> IsNearestUpward(v, step, r)
  {
    hide Multiple, Times;
    var s := Size(step);
    var q := v / s;
    var k := Floor(q + 0.5);
    var t := Times(k, s);
    RoundToIs(Nearest, v, step);
    MultipleOfSize(k, step);
    Steps(q, k, s, v, t);
    assert NearestUpward(v, step) == t;
    if IsNearestUpward(v, step, r) { SameMultiple(r, t, step); }
  }

  /** Half way between two multiples of the step. */
  predicate HalfWay(v: real, step: real)
    requires step != 0.0
  {
    v / Size(step) - Floor(v / Size(step)) as real == 0.5
  }

  /** The code rounds to the nearest multiple as the section does, but for a negative value half way. */
  lemma NearestAgreesIff(v: real, step: real)
    requires step != 0.0
    ensures RoundTo(v, step, Nearest) == NearestUpward(v, step) <==> !(v < 0.0 && HalfWay(v, step))
  {
    hide Times, RoundTo, RoundHalfAway;
    var s := Size(step);
    var q := v / s;
    RoundToIs(Nearest, v, step);
    Steps(q, 0, s, v, Times(0, s));
    var j, k := RoundHalfAway(q), Floor(q + 0.5);
    if j > k { StepApart(j, k, s); }
    if k > j { StepApart(k, j, s); }
    TiesDiffer(q);
  }

  lemma FloorOf(x: real, k: int)
    requires k as real <= x < k as real + 1.0
    ensures Floor(x) == k
  {
  }

  lemma CeilOf(x: real, k: int)
    requires k as real - 1.0 < x <= k as real
    ensures Ceil(x) == k
  {
    FloorOf(-x, -k);
  }

  lemma TiesDiffer(q: real)
    ensures RoundHalfAway(q) == Floor(q + 0.5) <==> !(q < 0.0 && q - Floor(q) as real == 0.5)
  {
    hide Ceil;
    var f := Floor(q);
    FloorOf(q, f);
    FloorOf(q + 0.5, if q - f as real < 0.5 then f else f + 1);
    CeilOf(q - 0.5, if q - f as real <= 0.5 then f else f + 1);
  }

  /** `round(-2.5)` is -3, where the section has -2. */
  lemma NearestDepartsBelowZero(c: Ctx)
    ensures Apply(c, "round", [-2.5]) == Some(-3.0) && IsNearestUpward(-2.5, 1.0, -2.0)
  {
    assert (-3.0).Floor == -3 && (3.0).Floor == 3;
    assert IsTimes(-2.0, -2, 1.0);
    assert "round"[1] == 'o' && "clamp"[1] == 'l';
  }

  // ---------------------------------------------------------------- what is refused

  /** Zero divisors and steps, for which the section has infinities and NaN, are refused, and only those. */
  lemma ZerosAreRefused(c: Ctx, a: real, b: real)
    ensures Apply(c, "mod", [a, b]).None? <==> b == 0.0
    ensures Apply(c, "rem", [a, b]).None? <==> b == 0.0
    ensures Apply(c, "round", [a, b]).None? <==> b == 0.0
    ensures BinValue(Div, a, b).None? <==> b == 0.0
  {
    hide RoundTo;
    assert "mod"[1] == 'o' && "min"[1] == 'i' && "max"[1] == 'a' && "abs"[0] == 'a' && "rem"[0] == 'r';
    assert "round"[1] == 'o' && "clamp"[1] == 'l';
  }

  // ---------------------------------------------------------------- strategy keywords

  function NameOf(strategy: Strategy): string {
    match strategy case Nearest => "nearest" case Up => "up" case Down => "down" case ToZero => "to-zero"
  }

  /** A text is a strategy exactly when it is the name of one, in any case, with any spaces in and around it. */
  lemma StrategyIff(text: string, strategy: Strategy)
    ensures StrategyOf(text) == Some(strategy) <==> Without(Lower(Trim(text)), ' ') == NameOf(strategy)
  {
    hide Trim, Lower, Without;
    assert "nearest"[0] == 'n' && "up"[0] == 'u' && "down"[0] == 'd' && "to-zero"[0] == 't';
  }

  function Glued(toks: seq<Token>): string {
    if toks == [] then "" else toks[0] + Glued(toks[1..])
  }

  lemma {:induction false} WithoutAppend(a: string, b: string)
    ensures Without(a + b, ' ') == Without(a, ' ') + Without(b, ' ')
    decreases |a|
  {
    if a == "" {
      assert a + b == b;
    } else {
      WithoutAppend(a[1..], b);
      WithoutStep(a, b);
    }
  }

  lemma WithoutStep(a: string, b: string)
    requires a != "" && Without(a[1..] + b, ' ') == Without(a[1..], ' ') + Without(b, ' ')
    ensures Without(a + b, ' ') == Without(a, ' ') + Without(b, ' ')
  {
    assert (a + b)[1..] == a[1..] + b && (a + b)[..1] == a[..1];
    var head := if a[0] == ' ' then "" else a[..1];
    var x, y := Without(a[1..], ' '), Without(b, ' ');
    assert Without(a + b, ' ') == head + (x + y);
    assert head + (x + y) == head + x + y;
  }

  lemma {:induction false} WithoutLower(s: string)
    ensures Without(Lower(s), ' ') == Lower(Without(s, ' '))
    decreases |s|
  {
    if s != "" {
      WithoutLower(s[1..]);
      assert Lower(s)[1..] == Lower(s[1..]) && Lower(s)[..1] == [LowerChar(s[0])];
    }
  }

  lemma {:induction false} WithoutTrimLeft(s: string)
    ensures Without(TrimLeft(s), ' ') == TrimLeft(Without(s, ' '))
    decreases |s|
  {
    if s != "" && IsSpace(s[0]) {
      WithoutTrimLeft(s[1..]);
      if s[0] != ' ' {
        assert Without(s, ' ')[0] == s[0] && Without(s, ' ')[1..] == Without(s[1..], ' ');
      } else {
        assert Without(s, ' ') == "" + Without(s[1..], ' ') == Without(s[1..], ' ');
      }
    } else if s != "" {
      assert Without(s, ' ')[0] == s[0];
    }
  }

  lemma {:induction false} WithoutTrimRight(s: string)
    ensures Without(TrimRight(s), ' ') == TrimRight(Without(s, ' '))
    decreases |s|
  {
    if s != "" {
      var n := |s| - 1;
      var last := s[n..];
      assert s == s[..n] + last && last[1..] == "" && last[..1] == last;
      WithoutAppend(s[..n], last);
      WithoutTrimRight(s[..n]);
      var front := Without(s[..n], ' ');
      if s[n] != ' ' {
        assert Without(last, ' ') == last + "" == last;
        assert Without(s, ' ')[..|front|] == front;
      } else {
        assert Without(last, ' ') == "" && front + "" == front;
      }
    }
  }

  lemma {:induction false} JoinWithoutSpaces(toks: seq<Token>)
    requires AllTokens(toks)
    ensures Without(Join(toks), ' ') == Glued(toks)
    decreases |toks|
  {
    if toks != [] {
      NoSpaces(toks[0]);
      if |toks| == 1 {
        assert toks[1..] == [] && toks[0] + "" == toks[0];
      } else {
        JoinWithoutSpaces(toks[1..]);
        WithoutAppend(toks[0] + " ", Join(toks[1..]));
        WithoutAppend(toks[0], " ");
        assert Without(" ", ' ') == "";
      }
    }
  }

  lemma {:induction false} NoSpaces(t: string)
    requires ' ' !in t
    ensures Without(t, ' ') == t
    decreases |t|
  {
    if t != "" { NoSpaces(t[1..]); }
  }

  /** A first argument is a strategy exactly when its tokens, nothing between them, spell a keyword. */
  lemma StrategyIsSpelled(toks: seq<Token>)
    requires AllTokens(toks)
    ensures StrategyOf(Join(toks)) == Keyword(Lower(Trim(Glued(toks))))
  {
    hide Keyword, Without, TrimLeft, TrimRight, Lower;
    var s := Join(toks);
    WithoutLower(Trim(s));
    WithoutTrimRight(TrimLeft(s));
    WithoutTrimLeft(s);
    JoinWithoutSpaces(toks);
  }

  lemma TwoTokens()
    ensures Tokens("u p") == ["u", "p"]
  {
    hide Tokens;
    WordThen("u", " p");
    WordThen("p", "");
    assert "u" + " p" == "u p" && "p" + "" == "p";
    SpaceThen("p");
    assert " " + "p" == " p";
    TokensUnfold("");
    assert ["p"] + [] == ["p"];
    assert ["u"] + ["p"] == ["u", "p"];
  }

  lemma SpaceThen(s: string)
    ensures Tokens(" " + s) == Tokens(s)
  {
    assert (" " + s)[1..] == s;
  }

  /** Two tokens may spell it, where the section takes one identifier only. */
  lemma SplitKeywordIsAStrategy()
    ensures Tokens("u p") == ["u", "p"] && StrategyOf("u p") == Some(Up)
  {
    hide Tokens;
    TwoTokens();
    TrimmedTrim("u p");
    assert "u p"[1..] == " p" && " p"[1..] == "p" && "p"[1..] == "" && "u p"[..1] == "u" && "p"[..1] == "p";
    assert Without("p", ' ') == "p" + "" == "p";
    assert Without(" p", ' ') == "" + "p" == "p";
    assert Without("u p", ' ') == "u" + "p" == "up";
    assert Lower("u p") == "u p";
    assert "nearest"[0] == 'n';
  }
}
