/** What a written number with its unit is worth to the evaluator: the units by what they are multiples of. */
module CalcUnits {
  import opened Options
  import opened Text
  import opened CalcTokens
  import opened CalcMeaning
  import opened CalcCursor
  import opened CalcCorrect
  import opened CalcEntry
  import opened CalcExprs

  // ---------------------------------------------------------------- the units

  const WIDTHS := ["vw", "svw", "dvw", "lvw", "vi", "cqw", "cqi"]
  const HEIGHTS := ["vh", "svh", "dvh", "lvh", "vb", "cqh", "cqb"]
  const SMALLER := ["vmin", "svmin", "dvmin", "lvmin", "cqmin"]
  const LARGER := ["vmax", "svmax", "dvmax", "lvmax", "cqmax"]

  /** One of this unit is `x` pixels. */
  predicate IsLength(c: Ctx, unit: string, x: real) {
    || (unit in ["", "px"] && x == 1.0)
    || (unit == "in" && x == 96.0)
    || (unit == "pt" && 72.0 * x == 96.0)
    || (unit == "pc" && 6.0 * x == 96.0)
    || (unit == "cm" && 2.54 * x == 96.0)
    || (unit == "mm" && 25.4 * x == 96.0)
    || (unit in ["em", "ex"] && x == c.em)
    || (unit == "ch" && 2.0 * x == c.em)
    || (unit == "rem" && if c.rem > 0.0 then x == c.rem else x == 16.0)
  }

  /** A hundred of them are the viewport's width, its height, the smaller or the larger of the two, or the base. */
  predicate IsShare(c: Ctx, unit: string, x: real) {
    || (unit in WIDTHS && 100.0 * x == c.vw)
    || (unit in HEIGHTS && 100.0 * x == c.vh)
    || (unit in SMALLER && 100.0 * x == if c.vw <= c.vh then c.vw else c.vh)
    || (unit in LARGER && 100.0 * x == if c.vw <= c.vh then c.vh else c.vw)
    || (unit == "%" && c.allowPct && 100.0 * x == c.pctBase)
  }

  /** A turn is 360 degrees, 400 gradians and twice pi radians. */
  predicate IsAngle(c: Ctx, unit: string, x: real) {
    || (unit == "rad" && x == 1.0)
    || (unit == "turn" && x == 2.0 * c.pi)
    || (unit == "deg" && 360.0 * x == 2.0 * c.pi)
    || (unit == "grad" && 400.0 * x == 2.0 * c.pi)
  }

  predicate IsUnit(c: Ctx, unit: string, x: real) {
    IsLength(c, unit, x) || IsShare(c, unit, x) || IsAngle(c, unit, x)
  }

  lemma UnitIs(c: Ctx, unit: string)
    requires UnitSize(c, unit).Some?
    ensures IsUnit(c, unit, UnitSize(c, unit).value)
  {
  }

  lemma LengthUnit(c: Ctx, unit: string, x: real)
    requires IsLength(c, unit, x)
    ensures UnitSize(c, unit) == Some(x)
  {
  }

  lemma ShareUnit(c: Ctx, unit: string, x: real)
    requires IsShare(c, unit, x)
    ensures UnitSize(c, unit) == Some(x)
  {
    hide UnitSize;
    if unit in WIDTHS && 100.0 * x == c.vw { WidthUnits(c, unit); }
    else if unit in HEIGHTS && 100.0 * x == c.vh { HeightUnits(c, unit); }
    else if unit in SMALLER && 100.0 * x == if c.vw <= c.vh then c.vw else c.vh { SmallerUnits(c, unit); }
    else if unit in LARGER && 100.0 * x == if c.vw <= c.vh then c.vh else c.vw { LargerUnits(c, unit); }
    else { BaseUnit(c); }
  }

  lemma BaseUnit(c: Ctx)
    requires c.allowPct
    ensures UnitSize(c, "%") == Some(c.pctBase / 100.0)
  {
  }

  lemma WidthUnits(c: Ctx, unit: string)
    requires unit in WIDTHS
    ensures UnitSize(c, unit) == Some(c.vw / 100.0)
  {
  }

  lemma HeightUnits(c: Ctx, unit: string)
    requires unit in HEIGHTS
    ensures UnitSize(c, unit) == Some(c.vh / 100.0)
  {
  }

  lemma SmallerUnits(c: Ctx, unit: string)
    requires unit in SMALLER
    ensures UnitSize(c, unit) == Some((if c.vw <= c.vh then c.vw else c.vh) / 100.0)
  {
  }

  lemma LargerUnits(c: Ctx, unit: string)
    requires unit in LARGER
    ensures UnitSize(c, unit) == Some((if c.vw <= c.vh then c.vh else c.vw) / 100.0)
  {
  }

  lemma AngleUnit(c: Ctx, unit: string, x: real)
    requires IsAngle(c, unit, x)
    ensures UnitSize(c, unit) == Some(x)
  {
  }

  // ---------------------------------------------------------------- literals

  /** Digits with at most one point among them, and one digit at least. */
  predicate Numeral(s: string) {
    s != "" && (forall i :: 0 <= i < |s| ==> IsDigit(s[i]) || s[i] == '.') && Decimal(s).Some?
  }

  /** A unit, or none: no digit or point in front, and nothing that ends a word. */
  predicate UnitText(s: string) {
    (s != "" ==> !IsDigit(s[0]) && s[0] != '.') && forall i :: 0 <= i < |s| ==> !EndsWord(s[i])
  }

  lemma {:induction false} RunOfNumeral(num: string, unit: string)
    requires (forall i :: 0 <= i < |num| ==> IsDigit(num[i]) || num[i] == '.') && UnitText(unit)
    ensures NumberRun(num + unit) == |num|
    decreases |num|
  {
    if num == "" {
      assert num + unit == unit;
    } else {
      assert (num + unit)[1..] == num[1..] + unit;
      RunOfNumeral(num[1..], unit);
    }
  }

  lemma LiteralIsWord(num: string, unit: string)
    requires Numeral(num) && UnitText(unit)
    ensures IsWord(num + unit) && Tokens(num + unit) == [num + unit]
    ensures Lower(num + unit) != "pi" && Lower(num + unit) != "e"
  {
    hide Tokens, Decimal;
    var t := num + unit;
    assert t[0] == num[0] && Lower(t)[0] == t[0];
    forall i | 0 <= i < |t| ensures !EndsWord(t[i]) {
      if i >= |num| { assert t[i] == unit[i - |num|]; }
    }
    OneToken(t);
  }

  /** A word evaluates to what it is worth as a literal. */
  lemma WordEvaluates(c: Ctx, t: string)
    requires IsWord(t) && Tokens(t) == [t]
    ensures Eval(c, t) == Length(c, t)
  {
    hide Eval, Tokens, Length, IsWord;
    EvalMeansDenote(c, t, Lit(t));
  }

  /** What the evaluator makes of a numeral with a unit, in any case: so many of what one of them is. */
  lemma LiteralIsWorth(c: Ctx, num: string, unit: string, x: real)
    requires Numeral(num) && UnitText(unit)
    ensures Eval(c, num + unit) == Some(x)
            <==> exists one :: IsUnit(c, Lower(unit), one) && x == Decimal(num).value * one
  {
    hide Eval, Decimal, UnitSize, IsUnit, Tokens, Length, Lower, InUnit;
    LiteralLength(c, num, unit);
    var size := UnitSize(c, Lower(unit));
    if Eval(c, num + unit) == Some(x) {
      Sized(c, Decimal(num).value, Lower(unit));
      UnitIs(c, Lower(unit));
      UnitTimes(c, Decimal(num).value, Lower(unit), size.value);
      assert IsUnit(c, Lower(unit), size.value);
    }
    if one :| IsUnit(c, Lower(unit), one) && x == Decimal(num).value * one {
      UnitIsOne(c, Lower(unit), one);
      UnitTimes(c, Decimal(num).value, Lower(unit), one);
    }
  }

  lemma Sized(c: Ctx, v: real, unit: string)
    ensures InUnit(c, v, unit).Some? <==> UnitSize(c, unit).Some?
  {
  }

  lemma UnitTimes(c: Ctx, v: real, unit: string, one: real)
    requires UnitSize(c, unit) == Some(one)
    ensures InUnit(c, v, unit) == Some(Scaled(v, one))
  {
    hide UnitSize, Scaled;
  }

  lemma LiteralLength(c: Ctx, num: string, unit: string)
    requires Numeral(num) && UnitText(unit)
    ensures Eval(c, num + unit) == InUnit(c, Decimal(num).value, Lower(unit))
  {
    hide Eval, Decimal, InUnit, Tokens;
    var t := num + unit;
    LiteralIsWord(num, unit);
    WordEvaluates(c, t);
    RunOfNumeral(num, unit);
    assert t[..|num|] == num && t[|num|..] == unit;
  }

  lemma UnitIsOne(c: Ctx, unit: string, x: real)
    requires IsUnit(c, unit, x)
    ensures UnitSize(c, unit) == Some(x)
  {
    hide IsLength, IsShare, IsAngle, UnitSize;
    if IsLength(c, unit, x) { LengthUnit(c, unit, x); }
    else if IsShare(c, unit, x) { ShareUnit(c, unit, x); }
    else { AngleUnit(c, unit, x); }
  }

  /** The names of two constants evaluate to them. */
  lemma ConstantsAre(c: Ctx, t: string)
    requires Lower(t) == "pi" || Lower(t) == "e"
    ensures Eval(c, t) == Some(if Lower(t) == "pi" then c.pi else c.e)
  {
    hide Eval, Tokens;
    ConstantIsWord(t);
    WordEvaluates(c, t);
  }

  lemma ConstantIsWord(t: string)
    requires Lower(t) == "pi" || Lower(t) == "e"
    ensures IsWord(t) && Tokens(t) == [t]
  {
    assert |t| == |Lower(t)|;
    forall i | 0 <= i < |t| ensures !EndsWord(t[i]) && t[i] != '\r' { assert Lower(t)[i] == LowerChar(t[i]); }
    OneToken(t);
  }

  /** A word is refused exactly when it is neither of the constants nor a numeral with a unit there is. */
  lemma RefusedIff(c: Ctx, t: string)
    requires IsWord(t)
    ensures Eval(c, t).None?
            <==> Lower(t) != "pi" && Lower(t) != "e"
                 && forall num, unit :: t == num + unit && Numeral(num) && UnitText(unit) ==> !HasSize(c, Lower(unit))
  {
    hide Eval, Decimal, UnitSize, IsUnit, Tokens, Numeral, HasSize;
    if Lower(t) == "pi" || Lower(t) == "e" {
      ConstantsAre(c, t);
      return;
    }
    forall num, unit | t == num + unit && Numeral(num) && UnitText(unit)
      ensures HasSize(c, Lower(unit)) <==> Eval(c, t).Some?
    {
      SizedEvaluates(c, num, unit);
    }
    OneToken(t);
    WordEvaluates(c, t);
    if Eval(c, t).Some? {
      var n := NumberRun(t);
      NumberTaken(t);
      assert t == t[..n] + t[n..];
    }
  }

  lemma OneToken(t: string)
    requires IsWord(t)
    ensures Tokens(t) == [t]
  {
    hide Tokens;
    WordThen(t, "");
    NoTokens();
    assert t + "" == t && [t] + [] == [t];
  }

  /** The number in front of a word that has one, and the rest of it. */
  lemma NumberTaken(t: string)
    requires IsWord(t) && NumberRun(t) > 0 && Decimal(t[..NumberRun(t)]).Some?
    ensures Numeral(t[..NumberRun(t)]) && UnitText(t[NumberRun(t)..])
  {
    hide Decimal;
  }

  lemma SizedEvaluates(c: Ctx, num: string, unit: string)
    requires Numeral(num) && UnitText(unit)
    ensures HasSize(c, Lower(unit)) <==> Eval(c, num + unit).Some?
  {
    hide Eval, Decimal, IsUnit, Numeral;
    var v := Decimal(num);
    if x :| IsUnit(c, Lower(unit), x) { LiteralIsWorth(c, num, unit, NumeralTimes(num, x)); }
    if Eval(c, num + unit).Some? { LiteralIsWorth(c, num, unit, Eval(c, num + unit).value); }
  }

  function NumeralTimes(num: string, x: real): real
    requires Numeral(num)
  {
    Decimal(num).value * x
  }

  ghost predicate HasSize(c: Ctx, unit: string) {
    exists x :: IsUnit(c, unit, x)
  }

  // ---------------------------------------------------------------- numerals

  function TenTo(n: nat): real {
    if n == 0 then 1.0 else 10.0 * TenTo(n - 1)
  }

  predicate AllDigits(s: string) {
    forall i :: 0 <= i < |s| ==> IsDigit(s[i])
  }

  lemma {:induction false} DigitsRun(a: string, b: string)
    requires AllDigits(a) && (b == "" || !IsDigit(b[0]))
    ensures DigitRun(a + b) == |a|
    decreases |a|
  {
    if a == "" {
      assert a + b == b;
    } else {
      assert (a + b)[1..] == a[1..] + b;
      DigitsRun(a[1..], b);
    }
  }

  lemma DigitsLast(s: string)
    requires s != "" && AllDigits(s)
    ensures Digits(s) as real
            == 10.0 * Digits(s[..|s| - 1]) as real + (s[|s| - 1] as int - '0' as int) as real
  {
    assert IsDigit(s[|s| - 1]);
  }

  lemma BothDigits(a: string, b: string)
    requires AllDigits(a) && AllDigits(b)
    ensures AllDigits(a + b)
  {
    forall i | 0 <= i < |a + b| ensures IsDigit((a + b)[i]) {
      assert (a + b)[i] == if i < |a| then a[i] else b[i - |a|];
    }
  }

  lemma {:induction false} DigitsAppend(a: string, b: string)
    requires AllDigits(a) && AllDigits(b)
    ensures AllDigits(a + b) && Digits(a + b) as real == Digits(a) as real * TenTo(|b|) + Digits(b) as real
    decreases |b|
  {
    hide Digits;
    BothDigits(a, b);
    if b == "" {
      assert a + b == a;
      NoDigits();
    } else {
      hide TenTo, AllDigits;
      var k := |b| - 1;
      assert AllDigits(b[..k]) by { AllButLast(b); }
      DigitsAppend(a, b[..k]);
      assert (a + b)[..|a + b| - 1] == a + b[..k] && (a + b)[|a + b| - 1] == b[k];
      DigitsLast(a + b);
      DigitsLast(b);
      TenTimes(Digits(a) as real, k);
    }
  }

  lemma AllButLast(b: string)
    requires b != "" && AllDigits(b)
    ensures AllDigits(b[..|b| - 1])
  {
  }

  lemma NoDigits()
    ensures Digits("") == 0
  {
  }

  lemma TenTimes(x: real, k: nat)
    ensures 10.0 * (x * TenTo(k)) == x * TenTo(k + 1)
  {
    var t := TenTo(k);
    assert TenTo(k + 1) == 10.0 * t;
    assert 10.0 * (x * t) == x * (10.0 * t);
  }

  lemma {:induction false} TenthShifts(x: real, k: nat)
    ensures Tenth(x, k) * TenTo(k) == x
  {
    if k > 0 {
      TenthShifts(x, k - 1);
      TenTimes(Tenth(x, k - 1) / 10.0, k - 1);
      Regrouped(Tenth(x, k - 1), TenTo(k - 1));
    }
  }

  lemma Regrouped(x: real, t: real)
    ensures 10.0 * ((x / 10.0) * t) == x * t
  {
    var y := x / 10.0;
    assert x == 10.0 * y;
    assert 10.0 * (y * t) == (10.0 * y) * t;
  }

  /** A numeral with `k` places, times ten to the `k`, is the whole number its digits spell. */
  lemma PlacesShift(a: string, b: string)
    requires AllDigits(a) && AllDigits(b) && |a| + |b| > 0
    ensures Decimal(a + "." + b).Some? && Decimal(a + "." + b).value * TenTo(|b|) == Digits(a + b) as real
    ensures a != "" ==> Decimal(a) == Some(Digits(a) as real)
  {
    hide Digits, TenTo, Tenth, Decimal;
    PointSplits(a, b);
    DigitsAppend(a, b);
    TenthShifts(Digits(b) as real, |b|);
    Spread(Digits(a) as real, Tenth(Digits(b) as real, |b|), TenTo(|b|), Decimal(a + "." + b).value);
    if a != "" { WholeNumeral(a); }
  }

  lemma WholeNumeral(a: string)
    requires a != "" && AllDigits(a)
    ensures Decimal(a) == Some(Digits(a) as real)
  {
    hide Digits;
    DigitsRun(a, "");
    assert a + "" == a;
  }

  lemma PointSplits(a: string, b: string)
    requires AllDigits(a) && AllDigits(b) && |a| + |b| > 0
    ensures Decimal(a + "." + b) == Some(Digits(a) as real + Tenth(Digits(b) as real, |b|))
  {
    hide Digits, Tenth;
    var s := a + "." + b;
    assert s == a + ("." + b);
    DigitsRun(a, "." + b);
    DigitsRun(b, "");
    assert b + "" == b && s[..|a|] == a && s[|a| + 1..] == b && s[|a|] == '.';
  }

  lemma Spread(x: real, y: real, t: real, sum: real)
    requires sum == x + y
    ensures sum * t == x * t + y * t
  {
  }

  /** Nothing else is a number. */
  lemma NumeralsOnly(s: string)
    requires Decimal(s).Some?
    ensures (s != "" && AllDigits(s))
            || exists a, b :: s == a + "." + b && AllDigits(a) && AllDigits(b) && |a| + |b| > 0
  {
    var n := DigitRun(s);
    if n < |s| { assert s == s[..n] + "." + s[n + 1..] && AllDigits(s[..n]) && AllDigits(s[n + 1..]); }
  }

  // ---------------------------------------------------------------- the sizes the entry points fill in

  /** A font, root, or viewport size that is not positive counts as 16 pixels, 1440 wide and 900 high. */
  lemma DefaultsAre(c: Ctx)
    ensures var d := WithDefaults(c);
            && IsUnit(d, "em", if c.em > 0.0 then c.em else 16.0)
            && IsUnit(d, "rem", if c.rem > 0.0 then c.rem else 16.0)
            && IsUnit(d, "vw", if c.vw > 0.0 then c.vw / 100.0 else 14.4)
            && IsUnit(d, "vh", if c.vh > 0.0 then c.vh / 100.0 else 9.0)
            && d.pctBase == c.pctBase && d.allowPct == c.allowPct
  {
  }
}
