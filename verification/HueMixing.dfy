/**
 Mixing two colours: the weights of color-mix() and the hue interpolation of section 12.4 of CSS Color
 Level 4, over exact reals.  A missing hue (a NaN in the program) is None.
 */
module HueMixing {
  import opened Options

  datatype Method = Shorter | Longer | Increasing | Decreasing

  /** The fraction the program's `math.Mod` drops: toward zero. */
  function Truncated(x: real): int {
    if x >= 0.0 then x.Floor else -((-x).Floor)
  }

  function Mod360(x: real): (r: real)
    ensures -360.0 < r < 360.0
    ensures x >= 0.0 ==> r >= 0.0
  {
    x - 360.0 * Truncated(x / 360.0) as real
  }

  /** A hue brought into [0, 360). */
  function Normal(h: real): (r: real)
    ensures 0.0 <= r < 360.0
  {
    var m := Mod360(h);
    if m < 0.0 then m + 360.0 else m
  }

  /** Equal up to whole turns. */
  ghost predicate SameHue(a: real, b: real) {
    exists k: int :: Turned(a, b, k)
  }

  predicate Turned(a: real, b: real, k: int) {
    a == b + 360.0 * k as real
  }

  /** The two hues between which the program goes straight. */
  function Ends(m: Method, h1: real, h2: real): (real, real) {
    var a, b := Normal(h1), Normal(h2);
    match m
    case Longer =>
      var diff := b - a;
      if 0.0 < diff < 180.0 then (a + 360.0, b)
      else if -180.0 < diff <= 0.0 then (a, b + 360.0)
      else (a, b)
    case Increasing => if b < a then (a, b + 360.0) else (a, b)
    case Decreasing => if a < b then (a + 360.0, b) else (a, b)
    case Shorter =>
      var diff := b - a;
      if diff > 180.0 then (a + 360.0, b)
      else if diff < -180.0 then (a, b + 360.0)
      else (a, b)
  }

  function Interpolated(m: Method, h1: Option<real>, h2: Option<real>, p1: real, p2: real): Option<real> {
    if h1.None? then h2
    else if h2.None? then h1
    else
      var (a, b) := Ends(m, h1.value, h2.value);
      Some(Normal(Blend(a, b, p1, p2)))
  }

  function Blend(a: real, b: real, p1: real, p2: real): real {
    a * p1 + b * p2
  }

  // ---------------------------------------------------------------- normal hues

  lemma NormalIsSame(h: real)
    ensures SameHue(Normal(h), h)
  {
    var k := Truncated(h / 360.0);
    var m := Mod360(h);
    if m < 0.0 { assert Turned(Normal(h), h, 1 - k); } else { assert Turned(Normal(h), h, -k); }
  }

  /** There is only one normal hue up to whole turns. */
  lemma NormalIsUnique(a: real, b: real)
    requires SameHue(a, b) && 0.0 <= a < 360.0 && 0.0 <= b < 360.0
    ensures a == b
  {
    var k: int :| Turned(a, b, k);
    assert -1.0 < k as real < 1.0;
    assert k == 0;
  }

  lemma NormalAgrees(a: real, b: real)
    requires SameHue(a, b)
    ensures Normal(a) == Normal(b)
  {
    NormalIsSame(a);
    NormalIsSame(b);
    var k: int :| Turned(a, b, k);
    var i: int :| Turned(Normal(a), a, i);
    var j: int :| Turned(Normal(b), b, j);
    assert Turned(Normal(a), Normal(b), i + k - j);
    NormalIsUnique(Normal(a), Normal(b));
  }

  // ---------------------------------------------------------------- the arcs

  /** The signed angle travelled from the first hue to the second. */
  function Travel(m: Method, h1: real, h2: real): real {
    Ends(m, h1, h2).1 - Ends(m, h1, h2).0
  }

  /** The ends are the given hues. */
  lemma EndsAreTheHues(m: Method, h1: real, h2: real)
    ensures SameHue(Ends(m, h1, h2).0, h1) && SameHue(Ends(m, h1, h2).1, h2)
  {
    NormalIsSame(h1);
    NormalIsSame(h2);
    var i: int :| Turned(Normal(h1), h1, i);
    var j: int :| Turned(Normal(h2), h2, j);
    assert Turned(Normal(h1) + 360.0, h1, i + 1) && Turned(Normal(h2) + 360.0, h2, j + 1);
  }

  /** How far and which way each method goes. */
  lemma ArcsGoTheirWay(h1: real, h2: real)
    ensures -180.0 <= Travel(Shorter, h1, h2) <= 180.0
    ensures Travel(Longer, h1, h2) <= -180.0 || Travel(Longer, h1, h2) >= 180.0
    ensures -360.0 < Travel(Longer, h1, h2) <= 360.0
    ensures 0.0 <= Travel(Increasing, h1, h2) < 360.0
    ensures -360.0 < Travel(Decreasing, h1, h2) <= 0.0
  {
  }

  /** No way from the one hue to the other is shorter, whatever turns are added to either. */
  lemma ShorterIsShortest(h1: real, h2: real, k: int)
    ensures var other := h2 - h1 + 360.0 * k as real;
            Size(Travel(Shorter, h1, h2)) <= Size(other)
  {
    EndsAreTheHues(Shorter, h1, h2);
    ArcsGoTheirWay(h1, h2);
    var (a, b) := Ends(Shorter, h1, h2);
    var i: int :| Turned(a, h1, i);
    var j: int :| Turned(b, h2, j);
    var n := k - j + i;
    assert h2 - h1 + 360.0 * k as real == (b - a) + 360.0 * n as real;
    if n > 0 {
      assert n as real >= 1.0;
    } else if n < 0 {
      assert n as real <= -1.0;
    }
  }

  function Size(x: real): real {
    if x < 0.0 then -x else x
  }

  /** The longer way is the shorter one's complement, and a full turn between equal hues. */
  lemma LongerCompletesTheTurn(h1: real, h2: real)
    ensures Size(Travel(Longer, h1, h2)) + Size(Travel(Shorter, h1, h2)) == 360.0
  {
  }

  // ---------------------------------------------------------------- interpolation

  /** Weights as color-mix() passes them on. */
  predicate Weights(p1: real, p2: real) {
    p1 >= 0.0 && p2 >= 0.0 && p1 + p2 == 1.0
  }

  /** A share of an angle, from a start. */
  function Along(start: real, angle: real, share: real): real {
    start + share * angle
  }

  /** The result is a normal hue on the chosen arc, the second weight's share of the way along it. */
  lemma LiesOnTheArc(m: Method, h1: real, h2: real, p1: real, p2: real)
    requires Weights(p1, p2)
    ensures var r := Interpolated(m, Some(h1), Some(h2), p1, p2).value;
            0.0 <= r < 360.0 && SameHue(r, Along(Ends(m, h1, h2).0, Travel(m, h1, h2), p2))
  {
    hide Ends, Normal, Blend, Along;
    var (a, b) := Ends(m, h1, h2);
    BlendIsAlong(a, b, p1, p2);
    NormalIsSame(Blend(a, b, p1, p2));
  }

  lemma BlendIsAlong(a: real, b: real, p1: real, p2: real)
    requires p1 + p2 == 1.0
    ensures Blend(a, b, p1, p2) == Along(a, b - a, p2)
  {
    assert p1 == 1.0 - p2;
    assert a * (1.0 - p2) == a - a * p2;
  }

  lemma BlendAtEnds(a: real, b: real)
    ensures Blend(a, b, 1.0, 0.0) == a && Blend(a, b, 0.0, 1.0) == b
  {
  }

  /** At the ends of the scale the given hues come back. */
  lemma HitsTheEndpoints(m: Method, h1: real, h2: real)
    ensures Interpolated(m, Some(h1), Some(h2), 1.0, 0.0) == Some(Normal(h1))
    ensures Interpolated(m, Some(h1), Some(h2), 0.0, 1.0) == Some(Normal(h2))
  {
    hide Ends, Normal, Blend;
    EndsAreTheHues(m, h1, h2);
    NormalAgrees(Ends(m, h1, h2).0, h1);
    NormalAgrees(Ends(m, h1, h2).1, h2);
    BlendAtEnds(Ends(m, h1, h2).0, Ends(m, h1, h2).1);
  }

  /** Only hues that are both given are brought into range: alone, a hue is handed on as it is. */
  lemma InRangeIff(m: Method, h1: Option<real>, h2: Option<real>, p1: real, p2: real)
    requires h1.Some? || h2.Some?
    ensures var r := Interpolated(m, h1, h2, p1, p2);
            r.Some?
            && (0.0 <= r.value < 360.0 <==>
                  (h1.Some? && h2.Some?) || (h1.Some? && 0.0 <= h1.value < 360.0)
                  || (h2.Some? && 0.0 <= h2.value < 360.0))
  {
    hide Ends;
  }

  /** Swapping both ends: the shorter way is the same way back, and increasing becomes decreasing. */
  lemma Swapped(h1: real, h2: real, p1: real, p2: real)
    ensures Interpolated(Shorter, Some(h1), Some(h2), p1, p2) == Interpolated(Shorter, Some(h2), Some(h1), p2, p1)
    ensures Interpolated(Increasing, Some(h1), Some(h2), p1, p2) == Interpolated(Decreasing, Some(h2), Some(h1), p2, p1)
  {
    hide Normal, Ends, Blend;
    EndsSwap(h1, h2);
    BlendSwaps(Ends(Shorter, h1, h2), p1, p2);
    BlendSwaps(Ends(Increasing, h1, h2), p1, p2);
  }

  lemma EndsSwap(h1: real, h2: real)
    ensures Ends(Shorter, h2, h1) == (Ends(Shorter, h1, h2).1, Ends(Shorter, h1, h2).0)
    ensures Ends(Decreasing, h2, h1) == (Ends(Increasing, h1, h2).1, Ends(Increasing, h1, h2).0)
  {
    hide Normal;
  }

  lemma BlendSwaps(e: (real, real), p1: real, p2: real)
    ensures Blend(e.0, e.1, p1, p2) == Blend(e.1, e.0, p2, p1)
  {
  }

  /** Not so for the longer way when the hues are equal: then it always goes forward. */
  lemma LongerSwappedIff(h1: real, h2: real)
    ensures Travel(Longer, h2, h1) == -Travel(Longer, h1, h2) <==> Normal(h1) != Normal(h2)
  {
  }

  /**
   Swapping both ends of the longer way gives the same hue unless the hues are equal and neither an end nor
   the middle is asked for.
   */
  lemma LongerSwapAgreesIff(h1: real, h2: real, p1: real, p2: real)
    requires Weights(p1, p2)
    ensures Interpolated(Longer, Some(h1), Some(h2), p1, p2) == Interpolated(Longer, Some(h2), Some(h1), p2, p1)
            <==> Normal(h1) != Normal(h2) || p1 == 0.0 || p1 == 0.5 || p1 == 1.0
  {
    hide Normal, Ends, Blend;
    LongerEnds(h1, h2);
    var e := Ends(Longer, h1, h2);
    BlendSwaps(e, p1, p2);
    if Normal(h1) == Normal(h2) {
      var a := Normal(h1);
      FullTurn(a, p1, p2);
      FullTurn(a, p2, p1);
      NormalSumAgreesIff(a + 360.0 * p2, a + 360.0 * p1, p2 - p1);
    }
  }

  lemma LongerEnds(h1: real, h2: real)
    ensures Normal(h1) != Normal(h2) ==> Ends(Longer, h2, h1) == (Ends(Longer, h1, h2).1, Ends(Longer, h1, h2).0)
    ensures Normal(h1) == Normal(h2) ==>
              Ends(Longer, h1, h2) == (Normal(h1), Normal(h1) + 360.0) && Ends(Longer, h2, h1) == Ends(Longer, h1, h2)
  {
    hide Normal;
  }

  lemma FullTurn(a: real, p1: real, p2: real)
    requires p1 + p2 == 1.0
    ensures Blend(a, a + 360.0, p1, p2) == a + 360.0 * p2
  {
    assert p1 == 1.0 - p2;
    assert a * (1.0 - p2) == a - a * p2;
    assert (a + 360.0) * p2 == a * p2 + 360.0 * p2;
  }

  /** Hues a fraction of a turn apart, less than two turns, are the same when the fraction is whole. */
  lemma NormalSumAgreesIff(x: real, y: real, turns: real)
    requires x == y + 360.0 * turns && -1.0 <= turns <= 1.0
    ensures Normal(x) == Normal(y) <==> turns == -1.0 || turns == 0.0 || turns == 1.0
  {
    hide Normal;
    if turns == -1.0 { assert Turned(x, y, -1); NormalAgrees(x, y); }
    if turns == 0.0 { assert Turned(x, y, 0); NormalAgrees(x, y); }
    if turns == 1.0 { assert Turned(x, y, 1); NormalAgrees(x, y); }
    if Normal(x) == Normal(y) {
      NormalIsSame(x);
      NormalIsSame(y);
      var i: int :| Turned(Normal(x), x, i);
      var j: int :| Turned(Normal(y), y, j);
      assert turns == (j - i) as real;
    }
  }

  // ---------------------------------------------------------------- weights

  datatype Mix = Mix(first: real, second: real, alphaScale: real)

  /** The weights of two percentages, either of which may be missing. */
  function Normalized(p1: Option<real>, p2: Option<real>): Option<Mix> {
    if p1.None? && p2.None? then Some(Mix(0.5, 0.5, 1.0))
    else if p2.None? then Some(Mix(p1.value / 100.0, 1.0 - p1.value / 100.0, 1.0))
    else if p1.None? then Some(Mix(1.0 - p2.value / 100.0, p2.value / 100.0, 1.0))
    else
      var sum := p1.value + p2.value;
      if sum <= 0.0 then None
      else Some(Mix(p1.value / sum, p2.value / sum, if sum < 100.0 then sum / 100.0 else 1.0))
  }

  predicate Percentage(p: Option<real>) {
    p.Some? ==> 0.0 <= p.value <= 100.0
  }

  /** Percentages from 0 to 100 give weights exactly when they are not both zero. */
  lemma PercentagesGiveWeights(p1: Option<real>, p2: Option<real>)
    requires Percentage(p1) && Percentage(p2)
    ensures Normalized(p1, p2).None? <==> p1 == Some(0.0) && p2 == Some(0.0)
    ensures Normalized(p1, p2).Some? ==>
              var w := Normalized(p1, p2).value;
              Weights(w.first, w.second) && 0.0 < w.alphaScale <= 1.0
    ensures Normalized(p1, p2).Some? && p1.Some? && p2.Some? ==>
              var w := Normalized(p1, p2).value;
              w.first * p2.value == w.second * p1.value
    ensures Normalized(p1, p2).Some? ==>
              var w := Normalized(p1, p2).value;
              && (p1.Some? && p2.None? ==> 100.0 * w.first == p1.value)
              && (p1.None? && p2.Some? ==> 100.0 * w.second == p2.value)
              && (p1.None? && p2.None? ==> w.first == w.second)
              && if p1.Some? && p2.Some? && p1.value + p2.value < 100.0
                 then 100.0 * w.alphaScale == p1.value + p2.value else w.alphaScale == 1.0
  {
    if p1.Some? && p2.Some? && p1.value + p2.value > 0.0 {
      Fractions(p1.value, p2.value);
    }
  }

  lemma Fractions(a: real, b: real)
    requires a >= 0.0 && b >= 0.0 && a + b > 0.0
    ensures Weights(a / (a + b), b / (a + b))
    ensures a / (a + b) * b == b / (a + b) * a
  {
    var s := a + b;
    var x, y := a / s, b / s;
    assert x * s == a && y * s == b;
    SignOfFactor(x, s);
    SignOfFactor(y, s);
    assert (x + y - 1.0) * s == 0.0;
    SignOfFactor(x + y - 1.0, s);
    assert x * b == x * (y * s) && y * a == y * (x * s);
  }

  /** A product with a positive number has the sign of the other factor. */
  lemma SignOfFactor(z: real, s: real)
    requires s > 0.0
    ensures z > 0.0 <==> z * s > 0.0
    ensures z < 0.0 <==> z * s < 0.0
  {
  }

  // ---------------------------------------------------------------- premultiplied mixing

  const TINY: real := 0.000001

  function Premultiplied(v1: real, a1: real, v2: real, a2: real, p1: real, p2: real): real
    requires a1 * p1 + a2 * p2 != 0.0
  {
    if a1 <= TINY then v2 else if a2 <= TINY then v1 else Mean(v1, a1 * p1, v2, a2 * p2)
  }

  function Mean(v1: real, x: real, v2: real, y: real): real
    requires x + y != 0.0
  {
    (v1 * x + v2 * y) / (x + y)
  }

  /** A channel mixed by alpha stays between its two values. */
  lemma MixStaysBetween(v1: real, a1: real, v2: real, a2: real, p1: real, p2: real)
    requires Weights(p1, p2) && a1 >= 0.0 && a2 >= 0.0 && a1 * p1 + a2 * p2 > 0.0
    ensures var r := Premultiplied(v1, a1, v2, a2, p1, p2); v1 <= r <= v2 || v2 <= r <= v1
  {
    hide Mean;
    ProductKeepsSign(a1, p1);
    ProductKeepsSign(a2, p2);
    if v1 <= v2 {
      MeanIsBetween(v1, a1 * p1, v2, a2 * p2);
    } else {
      MeanIsBetween(v2, a2 * p2, v1, a1 * p1);
      MeanSwaps(v1, a1 * p1, v2, a2 * p2);
    }
  }

  /**
   How far: the distances to the two values are in the opposite proportion of weight times alpha, and a colour
   with next to no alpha leaves the other's value.
   */
  lemma MixIsWeighted(v1: real, a1: real, v2: real, a2: real, p1: real, p2: real)
    requires a1 * p1 + a2 * p2 != 0.0
    ensures var r := Premultiplied(v1, a1, v2, a2, p1, p2);
            && (a1 > TINY && a2 > TINY ==> (r - v1) * (a1 * p1) == (v2 - r) * (a2 * p2))
            && (a1 <= TINY ==> r == v2) && (a1 > TINY && a2 <= TINY ==> r == v1)
  {
    hide Mean;
    Lever(v1, a1 * p1, v2, a2 * p2);
  }

  lemma Lever(v1: real, x: real, v2: real, y: real)
    requires x + y != 0.0
    ensures (Mean(v1, x, v2, y) - v1) * x == (v2 - Mean(v1, x, v2, y)) * y
  {
    var m := Mean(v1, x, v2, y);
    assert m * (x + y) == v1 * x + v2 * y;
    assert m * (x + y) == m * x + m * y;
  }

  lemma ProductKeepsSign(a: real, p: real)
    requires a >= 0.0 && p >= 0.0
    ensures a * p >= 0.0
  {
  }

  lemma MeanSwaps(v1: real, x: real, v2: real, y: real)
    requires x + y != 0.0
    ensures Mean(v1, x, v2, y) == Mean(v2, y, v1, x)
  {
  }

  lemma MeanIsBetween(v1: real, x: real, v2: real, y: real)
    requires x >= 0.0 && y >= 0.0 && x + y > 0.0 && v1 <= v2
    ensures v1 <= Mean(v1, x, v2, y) <= v2
  {
    var s := x + y;
    var m := Mean(v1, x, v2, y);
    assert m * s == v1 * x + v2 * y;
    assert (m - v1) * s == (v2 - v1) * y;
    assert (v2 - m) * s == (v2 - v1) * x;
    ProductKeepsSign(v2 - v1, y);
    ProductKeepsSign(v2 - v1, x);
    SignOfFactor(m - v1, s);
    SignOfFactor(v2 - m, s);
  }
}
