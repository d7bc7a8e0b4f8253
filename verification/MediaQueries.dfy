/** Media conditions: how the parser judges their text, and what a query of known tests means. */
module MediaQueries {
  import opened Options
  import opened Text

  /** What a condition is judged against; lengths and pixel ratios are read by `px` and `ratio`. */
  datatype Viewport = Viewport(width: real, dark: bool, contrast: bool, px: string -> Option<real>,
                               ratio: string -> Option<real>)

  const OR := " or "

  // ---------------------------------------------------------------- splitting

  function Nest(c: char, depth: nat): nat {
    if c == '(' then depth + 1 else if c == ')' && depth > 0 then depth - 1 else depth
  }

  /** The first ` or ` outside parentheses, or the end of the text. */
  function OrAt(s: string, depth: nat): (n: nat)
    ensures n <= |s| && (n < |s| ==> n + 4 <= |s| && s[n..n + 4] == OR)
    decreases |s|
  {
    if s == "" then 0
    else if depth == 0 && OR <= s then
      assert s[0..4] == OR;
      0
    else
      var m := OrAt(s[1..], Nest(s[0], depth));
      OrShifts(s, m);
      1 + m
  }

  lemma OrShifts(s: string, m: nat)
    requires s != "" && m <= |s| - 1
    ensures m + 5 <= |s| ==> s[1..][m..m + 4] == s[m + 1..m + 5]
  {
  }

  function Alternatives(s: string): (r: seq<string>)
    ensures r != []
    ensures |r| > 1 ==> forall i :: 0 <= i < |r| ==> |r[i]| < |s|
    ensures forall i :: 0 <= i < |r| ==> |r[i]| <= |s|
    decreases |s|
  {
    var n := OrAt(s, 0);
    TrimShrinks(s);
    TrimShrinks(s[..n]);
    if n < |s| then [Trim(s[..n])] + Alternatives(s[n + 4..]) else [Trim(s)]
  }

  lemma TrimShrinks(s: string)
    ensures |Trim(s)| <= |s|
  {
  }

  /** The alternatives from a position on, and where the first of them ends, `depth` deep at `i`. */
  function AlternativesFrom(s: string, start: nat): seq<string>
    requires start <= |s|
  {
    Alternatives(s[start..])
  }

  function OrEnd(s: string, i: nat, depth: nat): nat
    requires i <= |s|
  {
    i + OrAt(s[i..], depth)
  }

  /** Splits on ` or ` outside parentheses, trimming each piece. */
  method SplitOutsideParens(s: string) returns (parts: seq<string>)
    ensures parts == Alternatives(s)
  {
    hide AlternativesFrom, OrEnd, Trim, Alternatives;
    parts := [];
    var depth: nat, start, i := 0, 0, 0;
    AlternativesWhole(s);
    while i < |s|
      invariant 0 <= start <= i <= |s|
      invariant parts + AlternativesFrom(s, start) == Alternatives(s)
      invariant OrEnd(s, start, 0) == OrEnd(s, i, depth)
      decreases |s| - i
    {
      OrStep(s, i, depth);
      if s[i] == '(' {
        depth := depth + 1;
        i := i + 1;
      } else if s[i] == ')' {
        if depth > 0 { depth := depth - 1; }
        i := i + 1;
      } else {
        if depth == 0 && i + 4 <= |s| && s[i..i + 4] == OR {
          AlternativesCut(s, start, i);
          parts := parts + [Trim(s[start..i])];
          i := i + 4;
          start := i;
          continue;
        }
        i := i + 1;
      }
    }
    OrStep(s, i, depth);
    AlternativesLast(s, start);
    parts := parts + [Trim(s[start..])];
  }

  lemma AlternativesWhole(s: string)
    ensures AlternativesFrom(s, 0) == Alternatives(s)
  {
    hide Alternatives;
    assert s[0..] == s;
  }

  lemma OrStep(s: string, i: nat, depth: nat)
    requires i <= |s|
    ensures i == |s| ==> OrEnd(s, i, depth) == i
    ensures i < |s| ==> (OR <= s[i..] <==> i + 4 <= |s| && s[i..i + 4] == OR)
    ensures i < |s| ==>
              OrEnd(s, i, depth) == if depth == 0 && OR <= s[i..] then i else OrEnd(s, i + 1, Nest(s[i], depth))
    ensures i < |s| && s[i] != ' ' ==> !(i + 4 <= |s| && s[i..i + 4] == OR)
  {
    if i < |s| {
      assert s[i..][1..] == s[i + 1..];
      if i + 4 <= |s| { assert s[i..][..4] == s[i..i + 4] && s[i..i + 4][0] == s[i]; }
    }
  }

  lemma AlternativesCut(s: string, start: nat, i: nat)
    requires start <= i < |s| && OrEnd(s, start, 0) == i
    ensures i + 4 <= |s| && AlternativesFrom(s, start) == [Trim(s[start..i])] + AlternativesFrom(s, i + 4)
  {
    hide OrAt, Trim;
    assert s[start..][..i - start] == s[start..i] && s[start..][i - start + 4..] == s[i + 4..];
  }

  lemma AlternativesLast(s: string, start: nat)
    requires start <= |s| && OrEnd(s, start, 0) == |s|
    ensures AlternativesFrom(s, start) == [Trim(s[start..])]
  {
    hide OrAt, Trim;
  }

  function NestBoth(c: char, depth: nat): nat {
    if c == '(' || c == '[' then depth + 1 else if (c == ')' || c == ']') && depth > 0 then depth - 1 else depth
  }

  /** The first separator outside parentheses and brackets, or the end of the text. */
  function SeparatorAt(s: string, sep: char, depth: nat): (n: nat)
    ensures n <= |s| && (n < |s| ==> s[n] == sep)
    decreases |s|
  {
    if s == "" || (s[0] == sep && depth == 0) then 0 else 1 + SeparatorAt(s[1..], sep, NestBoth(s[0], depth))
  }

  function TopLevel(s: string, sep: char): (r: seq<string>)
    ensures r != []
    decreases |s|
  {
    var n := SeparatorAt(s, sep, 0);
    if n < |s| then [s[..n]] + TopLevel(s[n + 1..], sep) else [s]
  }

  /** Splits on a separator outside parentheses and brackets. */
  method SplitTopLevel(s: string, sep: char) returns (parts: seq<string>)
    requires sep !in "()[]"
    ensures parts == TopLevel(s, sep)
  {
    hide TopLevel, SeparatorAt;
    parts := [];
    var depth: nat, start, i := 0, 0, 0;
    assert s[0..] == s;
    while i < |s|
      invariant 0 <= start <= i <= |s|
      invariant parts + TopLevel(s[start..], sep) == TopLevel(s, sep)
      invariant SeparatorAt(s[start..], sep, 0) == i - start + SeparatorAt(s[i..], sep, depth)
    {
      SeparatorStep(s, sep, i, depth);
      if s[i] == '(' || s[i] == '[' {
        depth := depth + 1;
      } else if s[i] == ')' || s[i] == ']' {
        if depth > 0 { depth := depth - 1; }
      } else if s[i] == sep {
        if depth == 0 {
          TopLevelCut(s, sep, start, i);
          parts := parts + [s[start..i]];
          start := i + 1;
        }
      }
      i := i + 1;
    }
    SeparatorStep(s, sep, i, depth);
    TopLevelLast(s, sep, start);
    parts := parts + [s[start..]];
  }

  lemma SeparatorStep(s: string, sep: char, i: nat, depth: nat)
    requires i <= |s| && sep !in "()[]"
    ensures i == |s| ==> SeparatorAt(s[i..], sep, depth) == 0
    ensures i < |s| ==>
              SeparatorAt(s[i..], sep, depth)
              == if s[i] == sep && depth == 0 then 0 else 1 + SeparatorAt(s[i + 1..], sep, NestBoth(s[i], depth))
    ensures i < |s| && s[i] == sep ==> s[i] != '(' && s[i] != ')' && s[i] != '[' && s[i] != ']'
  {
    if i < |s| { assert s[i..][1..] == s[i + 1..]; }
    assert "()[]"[0] == '(' && "()[]"[1] == ')' && "()[]"[2] == '[' && "()[]"[3] == ']';
  }

  lemma TopLevelCut(s: string, sep: char, start: nat, i: nat)
    requires start <= i < |s| && SeparatorAt(s[start..], sep, 0) == i - start
    ensures TopLevel(s[start..], sep) == [s[start..i]] + TopLevel(s[i + 1..], sep)
  {
    hide SeparatorAt;
    assert s[start..][..i - start] == s[start..i] && s[start..][i - start + 1..] == s[i + 1..];
  }

  lemma TopLevelLast(s: string, sep: char, start: nat)
    requires start <= |s| && SeparatorAt(s[start..], sep, 0) == |s| - start
    ensures TopLevel(s[start..], sep) == [s[start..]]
  {
    hide SeparatorAt;
  }

  // ---------------------------------------------------------------- where the splitters cut

  /** How deep in brackets of either kind a text ends; a closing one with nothing open counts for nothing. */
  function BracketDepth(s: string): nat {
    if s == "" then 0
    else
      var d, c := BracketDepth(s[..|s| - 1]), s[|s| - 1];
      if c == '(' || c == '[' then d + 1 else if (c == ')' || c == ']') && d > 0 then d - 1 else d
  }

  /** The same for parentheses alone. */
  function ParenDepth(s: string): nat {
    if s == "" then 0
    else
      var d, c := ParenDepth(s[..|s| - 1]), s[|s| - 1];
      if c == '(' then d + 1 else if c == ')' && d > 0 then d - 1 else d
  }

  lemma DepthsStep(s: string, k: nat)
    requires k < |s|
    ensures BracketDepth(s[..k + 1]) == NestBoth(s[k], BracketDepth(s[..k]))
    ensures ParenDepth(s[..k + 1]) == Nest(s[k], ParenDepth(s[..k]))
  {
    assert s[..k + 1][..k] == s[..k];
  }

  /** The first cut is the first separator outside brackets. */
  lemma FirstSeparatorIs(s: string, sep: char)
    ensures var n := SeparatorAt(s, sep, 0);
            && n <= |s| && (n < |s| ==> s[n] == sep && BracketDepth(s[..n]) == 0)
            && forall i :: 0 <= i < n && s[i] == sep ==> BracketDepth(s[..i]) != 0
  {
    assert s[0..] == s && s[..0] == "";
    SeparatorFrom(s, sep, 0);
  }

  lemma {:induction false} SeparatorFrom(s: string, sep: char, k: nat)
    requires k <= |s|
    ensures var n := k + SeparatorAt(s[k..], sep, BracketDepth(s[..k]));
            && n <= |s| && (n < |s| ==> s[n] == sep && BracketDepth(s[..n]) == 0)
            && forall i :: k <= i < n && s[i] == sep ==> BracketDepth(s[..i]) != 0
    decreases |s| - k
  {
    hide BracketDepth;
    if k < |s| && !(s[k] == sep && BracketDepth(s[..k]) == 0) {
      DepthsStep(s, k);
      assert s[k..][1..] == s[k + 1..];
      SeparatorFrom(s, sep, k + 1);
    }
  }

  function JoinedWith(parts: seq<string>, sep: string): string {
    if parts == [] then "" else if |parts| == 1 then parts[0] else parts[0] + sep + JoinedWith(parts[1..], sep)
  }

  /** The pieces joined with the separator are the text. */
  lemma {:induction false} TopLevelIsLossless(s: string, sep: char)
    ensures JoinedWith(TopLevel(s, sep), [sep]) == s
    decreases |s|
  {
    hide SeparatorAt;
    var n := SeparatorAt(s, sep, 0);
    FirstSeparatorIs(s, sep);
    if n < |s| {
      TopLevelIsLossless(s[n + 1..], sep);
      assert TopLevel(s, sep)[1..] == TopLevel(s[n + 1..], sep);
      assert s == s[..n] + [sep] + s[n + 1..];
    }
  }

  /** The first alternative ends at the first ` or ` outside parentheses. */
  lemma FirstOrIs(s: string)
    ensures var n := OrAt(s, 0);
            && (n < |s| ==> OR <= s[n..] && ParenDepth(s[..n]) == 0)
            && forall i :: 0 <= i < n && OR <= s[i..] ==> ParenDepth(s[..i]) != 0
  {
    assert s[0..] == s && s[..0] == "";
    OrFrom(s, 0);
    assert OrEnd(s, 0, 0) == OrAt(s, 0);
  }

  lemma {:induction false} OrFrom(s: string, k: nat)
    requires k <= |s|
    ensures var n := OrEnd(s, k, ParenDepth(s[..k]));
            && n <= |s| && (n < |s| ==> OR <= s[n..] && ParenDepth(s[..n]) == 0)
            && forall i :: k <= i < n && OR <= s[i..] ==> ParenDepth(s[..i]) != 0
    decreases |s| - k
  {
    hide ParenDepth, OrEnd;
    OrStep(s, k, ParenDepth(s[..k]));
    if k < |s| && !(OR <= s[k..] && ParenDepth(s[..k]) == 0) {
      DepthsStep(s, k);
      OrFrom(s, k + 1);
    }
  }

  // ---------------------------------------------------------------- judging text

  predicate Bracketed(part: string) {
    |part| > 0 && part[0] == '(' && part[|part| - 1] == ')' && |part| > 1
  }

  /** A range cut on its comparison operators: the operands and, one fewer, the operators. */
  datatype Range = Range(operands: seq<string>, ops: seq<string>)

  function IsComparison(c: char): bool {
    c == '<' || c == '>' || c == '='
  }

  function OperatorLength(s: string): (n: nat)
    ensures n <= |s|
    decreases |s|
  {
    if s == "" || !IsComparison(s[0]) then 0 else 1 + OperatorLength(s[1..])
  }

  /** The next comparison outside parentheses; the depth may drop below zero and then none counts. */
  function ComparisonAt(s: string, depth: int): (n: nat)
    ensures n <= |s| && (n < |s| ==> s[n] == '<' || s[n] == '>')
    decreases |s|
  {
    if s == "" || ((s[0] == '<' || s[0] == '>') && depth == 0) then 0
    else 1 + ComparisonAt(s[1..], if s[0] == '(' then depth + 1 else if s[0] == ')' then depth - 1 else depth)
  }

  function SplitRange(s: string): Range
    decreases |s|
  {
    var n := ComparisonAt(s, 0);
    if n == |s| then Range([s], [])
    else
      var k := OperatorLength(s[n..]);
      assert k > 0;
      var rest := SplitRange(s[n + k..]);
      Range([s[..n]] + rest.operands, [s[n..n + k]] + rest.ops)
  }

  function Flipped(op: string): string {
    if op == "<" then ">" else if op == "<=" then ">=" else if op == ">" then "<" else if op == ">=" then "<=" else op
  }

  predicate Satisfies(w: real, op: string, px: real) {
    if op == "<" then w < px
    else if op == "<=" then w <= px
    else if op == ">" then w > px
    else if op == ">=" then w >= px
    else op == "=" && w == px
  }

  /** Whether a width range holds, None when the part is none. */
  function RangeHolds(vp: Viewport, part: string): Option<bool> {
    if !Bracketed(part) then None
    else
      var r := SplitRange(part[1..|part| - 1]);
      if |r.operands| == 2 && |r.ops| == 1 then
        var l, u := Trim(r.operands[0]), Trim(r.operands[1]);
        if l == "width" then
          (match vp.px(u) case None => None case Some(x) => Some(Satisfies(vp.width, r.ops[0], x)))
        else if u == "width" then
          (match vp.px(l) case None => None case Some(x) => Some(Satisfies(vp.width, Flipped(r.ops[0]), x)))
        else None
      else if |r.operands| == 3 && |r.ops| == 2 then
        var lo, hi := vp.px(Trim(r.operands[0])), vp.px(Trim(r.operands[2]));
        if Trim(r.operands[1]) != "width" || lo.None? || hi.None? then None
        else Some(Satisfies(vp.width, Flipped(r.ops[0]), lo.value) && Satisfies(vp.width, r.ops[1], hi.value))
      else None
  }

  /** A feature test: its name and value. */
  function Feature(part: string): Option<(string, string)> {
    if !Bracketed(part) then None
    else
      var inner := part[1..|part| - 1];
      var colon := Find(inner, ":");
      if colon < |inner| then Some((Trim(inner[..colon]), Trim(inner[colon + 1..]))) else Some((Trim(inner), ""))
  }

  /** Whether a feature test fails; what it cannot judge does not fail. */
  predicate FeatureFails(vp: Viewport, name: string, val: string) {
    if name == "min-width" || name == "min-device-width" then vp.px(val).Some? && vp.width < vp.px(val).value
    else if name == "max-width" || name == "max-device-width" then vp.px(val).Some? && vp.width > vp.px(val).value
    else if name == "orientation" then val == "portrait"
    else if name == "prefers-color-scheme" then val == (if vp.dark then "light" else "dark")
    else if name == "prefers-reduced-motion" then val == "reduce"
    else if name == "prefers-contrast" then
      if vp.contrast then val != "" && val != "more" && val != "custom" else val != "" && val != "no-preference"
    else if name == "min-device-pixel-ratio" || name == "-webkit-min-device-pixel-ratio" then
      vp.ratio(val).Some? && 1.0 < vp.ratio(val).value
    else false
  }

  predicate PartHolds(vp: Viewport, part: string) {
    match RangeHolds(vp, part)
    case Some(holds) => holds
    case None =>
      var p := Trim(part);
      if p == "" || p == "and" || p == "only" then true
      else if '(' !in p then p != "print"
      else
        match Feature(p)
        case None => true
        case Some((name, val)) => !FeatureFails(vp, name, val)
  }

  predicate AllHold(vp: Viewport, parts: seq<string>) {
    forall i :: 0 <= i < |parts| ==> PartHolds(vp, parts[i])
  }

  /** ` or ` binds loosest; within an alternative every part must hold. */
  predicate PartsTrue(vp: Viewport, group: string)
    decreases |group|
  {
    var alts := Alternatives(group);
    if |alts| > 1 then exists i :: 0 <= i < |alts| && PartsTrue(vp, TrimmedPiece(alts[i], |group|))
    else AllHold(vp, TopLevel(group, ' '))
  }

  /** A piece trimmed once more, as the program does. */
  function TrimmedPiece(s: string, bound: nat): (r: string)
    requires |s| < bound
    ensures |r| < bound
  {
    TrimShrinks(s);
    Trim(s)
  }

  predicate GroupTrue(vp: Viewport, text: string) {
    var group := Trim(Lower(text));
    if group == "" || group == "all" then true
    else if "not" <= group then !PartsTrue(vp, Trim(group[3..]))
    else PartsTrue(vp, group)
  }

  /** A condition holds when any of its comma-separated groups does. */
  predicate ConditionTrue(vp: Viewport, cond: string) {
    var groups := TopLevel(cond, ',');
    exists i :: 0 <= i < |groups| && GroupTrue(vp, groups[i])
  }

  // ---------------------------------------------------------------- width queries

  datatype Comparison = Lt | Le | Gt | Ge
  {
    function Sign(): string {
      match this case Lt => "<" case Le => "<=" case Gt => ">" case Ge => ">="
    }

    predicate Holds(x: real, y: real) {
      match this case Lt => x < y case Le => x <= y case Gt => x > y case Ge => x >= y
    }
  }

  /** Whether a browser window passes: one test in each written form the parser knows, and those it does not. */
  datatype Test =
    | Min(len: string)
    | Max(len: string)
    | MinDevice(len: string)
    | MaxDevice(len: string)
    | WidthIs(cmp: Comparison, len: string)
    | LengthIs(len: string, cmp: Comparison)
    | Within(lo: string, first: Comparison, second: Comparison, hi: string)
    | Scheme(dark: bool)
    | Oriented(portrait: bool)
    | Motion(reduce: bool)
    | Contrast(wish: string)
    | Ratio(webkit: bool, num: string)
      /** A feature the parser does not know, one that is only asked for, and one whose length it cannot measure. */
    | Other(name: string, val: string)
    | Asked(name: string)
    | Unmeasured(name: string, val: string)
      /** A media type, perhaps behind `only`. */
    | Medium(only: bool, name: string)
  {
    /** The name and value of a feature test. */
    function Pair(): Option<(string, string)> {
      match this
      case Min(l) => Some(("min-width", l))
      case Max(l) => Some(("max-width", l))
      case MinDevice(l) => Some(("min-device-width", l))
      case MaxDevice(l) => Some(("max-device-width", l))
      case Scheme(d) => Some(("prefers-color-scheme", if d then "dark" else "light"))
      case Oriented(p) => Some(("orientation", if p then "portrait" else "landscape"))
      case Motion(r) => Some(("prefers-reduced-motion", if r then "reduce" else "no-preference"))
      case Contrast(w) => Some(("prefers-contrast", w))
      case Ratio(webkit, n) =>
        Some((if webkit then "-webkit-min-device-pixel-ratio" else "min-device-pixel-ratio", n))
      case Other(n, v) => Some((n, v))
      case Unmeasured(n, v) => Some((n, v))
      case _ => None
    }

    function Inside(): string
      requires !Medium?
    {
      if Pair().Some? then Pair().value.0 + ": " + Pair().value.1
      else
        match this
        case WidthIs(c, l) => "width " + c.Sign() + " " + l
        case LengthIs(l, c) => l + " " + c.Sign() + " width"
        case Within(l, c, d, h) => l + " " + c.Sign() + " width " + d.Sign() + " " + h
        case Asked(n) => n
        case _ => ""
    }

    function Print(): string {
      if Medium? then (if only then "only " else "") + name else "(" + Inside() + ")"
    }

    /** The words it is written in: a bracketed test is one. */
    function Words(): seq<string> {
      if Medium? && only then ["only", name] else [Print()]
    }

    predicate Good(vp: Viewport) {
      match this
      case Min(l) => Length(vp, l)
      case Max(l) => Length(vp, l)
      case MinDevice(l) => Length(vp, l)
      case MaxDevice(l) => Length(vp, l)
      case WidthIs(_, l) => Length(vp, l)
      case LengthIs(l, _) => Length(vp, l)
      case Within(l, _, _, h) => Length(vp, l) && Length(vp, h)
      case Scheme(_) => true
      case Oriented(_) => true
      case Motion(_) => true
      case Contrast(w) => Named(w)
      case Ratio(_, n) => Named(n) && vp.ratio(n).Some?
      case Other(n, v) => Named(n) && Named(v) && !Measured(n) && !Chosen(n)
      case Asked(n) => Named(n) && !Measured(n)
      case Unmeasured(n, v) => Named(v) && OfLength(n) && vp.px(v).None?
      case Medium(_, n) => MediaType(n)
    }

    /** The windows the test stands for. */
    predicate Holds(vp: Viewport)
      requires Good(vp)
    {
      match this
      case Min(l) => vp.width >= vp.px(l).value
      case Max(l) => vp.width <= vp.px(l).value
      case MinDevice(l) => vp.width >= vp.px(l).value
      case MaxDevice(l) => vp.width <= vp.px(l).value
      case WidthIs(c, l) => c.Holds(vp.width, vp.px(l).value)
      case LengthIs(l, c) => c.Holds(vp.px(l).value, vp.width)
      case Within(l, c, d, h) => c.Holds(vp.px(l).value, vp.width) && d.Holds(vp.width, vp.px(h).value)
      case Scheme(d) => d == vp.dark
      case Oriented(p) => !p
      case Motion(r) => !r
      case Contrast(w) => if vp.contrast then w == "more" || w == "custom" else w == "no-preference"
      case Ratio(_, n) => vp.ratio(n).value <= 1.0
      case Other(_, _) => true
      case Asked(_) => true
      case Unmeasured(_, _) => true
      case Medium(_, n) => n != "print"
    }
  }

  predicate LengthChar(c: char) {
    '0' <= c <= '9' || 'a' <= c <= 'z' || c == '.' || c == '-' || c == '+'
  }

  /** A name or value written without spaces. */
  predicate Named(s: string) {
    s != "" && forall i :: 0 <= i < |s| ==> LengthChar(s[i])
  }

  /** A length the viewport can measure, written without spaces. */
  predicate Length(vp: Viewport, l: string) {
    Named(l) && l != "width" && vp.px(l).Some?
  }

  /** The features whose value is a length. */
  predicate OfLength(name: string) {
    name in ["min-width", "max-width", "min-device-width", "max-device-width"]
  }

  /** Those whose value is read by a parameter. */
  predicate Measured(name: string) {
    OfLength(name) || name in ["min-device-pixel-ratio", "-webkit-min-device-pixel-ratio"]
  }

  /** Those with a word for a value. */
  predicate Chosen(name: string) {
    name in ["orientation", "prefers-color-scheme", "prefers-reduced-motion", "prefers-contrast"]
  }

  /** A media type: letters and hyphens, neither the connector nor what reads as a negation. */
  predicate MediaType(name: string) {
    name != "" && Letters(name) && name != "or" && !("not" <= name)
  }

  predicate Letters(s: string) {
    forall i :: 0 <= i < |s| ==> 'a' <= s[i] <= 'z' || s[i] == '-'
  }

  /** Alternatives of tests that must hold together, perhaps negated as a whole. */
  datatype Group = Group(negated: bool, alts: seq<seq<Test>>)

  function PrintAll(tests: seq<Test>): string {
    if tests == [] then "" else if |tests| == 1 then tests[0].Print()
    else tests[0].Print() + " and " + PrintAll(tests[1..])
  }

  function PrintAny(alts: seq<seq<Test>>): string {
    if alts == [] then "" else if |alts| == 1 then PrintAll(alts[0])
    else PrintAll(alts[0]) + OR + PrintAny(alts[1..])
  }

  function PrintGroup(g: Group): string {
    (if g.negated then "not " else "") + PrintAny(g.alts)
  }

  function PrintQuery(q: seq<Group>): string {
    if q == [] then "" else if |q| == 1 then PrintGroup(q[0]) else PrintGroup(q[0]) + ", " + PrintQuery(q[1..])
  }

  predicate GoodTests(vp: Viewport, tests: seq<Test>) {
    tests != [] && forall i :: 0 <= i < |tests| ==> tests[i].Good(vp)
  }

  predicate GoodAlternatives(vp: Viewport, alts: seq<seq<Test>>) {
    alts != [] && forall i :: 0 <= i < |alts| ==> GoodTests(vp, alts[i])
  }

  predicate AllTests(vp: Viewport, tests: seq<Test>)
    requires GoodTests(vp, tests)
  {
    forall i :: 0 <= i < |tests| ==> tests[i].Holds(vp)
  }

  predicate AnyAlternative(vp: Viewport, alts: seq<seq<Test>>)
    requires GoodAlternatives(vp, alts)
  {
    exists i :: 0 <= i < |alts| && AllTests(vp, alts[i])
  }

  predicate GoodQuery(vp: Viewport, q: seq<Group>) {
    q != [] && forall i :: 0 <= i < |q| ==> GoodAlternatives(vp, q[i].alts)
  }

  predicate GroupHolds(vp: Viewport, g: Group)
    requires GoodAlternatives(vp, g.alts)
  {
    AnyAlternative(vp, g.alts) != g.negated
  }

  predicate QueryHolds(vp: Viewport, q: seq<Group>)
    requires GoodQuery(vp, q)
  {
    exists i :: 0 <= i < |q| && GroupHolds(vp, q[i])
  }

  // ---------------------------------------------------------------- one test

  /** The bytes of a printed test's inside: no parentheses, brackets, commas or capitals. */
  predicate InsideChar(c: char) {
    LengthChar(c) || c == ' ' || c == ':' || c == '<' || c == '>' || c == '='
  }

  predicate Insides(s: string) {
    forall i :: 0 <= i < |s| ==> InsideChar(s[i])
  }

  lemma InsidesAppend(a: string, b: string)
    requires Insides(a) && Insides(b)
    ensures Insides(a + b)
  {
  }

  lemma SignInsides(c: Comparison)
    ensures Insides(c.Sign()) && Insides(" ") && Insides(" width") && Insides("width ") && Insides(" width ")
  {
  }

  lemma LengthInsides(vp: Viewport, l: string)
    requires Named(l)
    ensures Insides(l)
  {
  }

  lemma TestInsides(vp: Viewport, t: Test)
    requires t.Good(vp) && !t.Medium?
    ensures Insides(t.Inside())
  {
    hide Insides, Length, Named, Test.Good, Test.Pair;
    if t.Pair().Some? {
      PairIsNamed(vp, t);
      PairInsides(vp, t.Pair().value.0, t.Pair().value.1);
    } else {
      NoPairInsides(vp, t);
    }
  }

  lemma NoPairInsides(vp: Viewport, t: Test)
    requires t.Good(vp) && !t.Medium? && t.Pair().None?
    ensures Insides(t.Inside())
  {
    hide Insides, Named;
    match t
    case WidthIs(c, l) =>
      SignInsides(c);
      LengthInsides(vp, l);
      InsidesAppend("width ", c.Sign());
      InsidesAppend("width " + c.Sign(), " ");
      InsidesAppend("width " + c.Sign() + " ", l);
    case LengthIs(l, c) =>
      SignInsides(c);
      LengthInsides(vp, l);
      InsidesAppend(l, " ");
      InsidesAppend(l + " ", c.Sign());
      InsidesAppend(l + " " + c.Sign(), " width");
    case Within(l, c, d, h) => WithinInsides(vp, l, c, d, h);
    case Asked(n) => LengthInsides(vp, n);
  }

  /** The names and values of the features are written without spaces. */
  lemma PairIsNamed(vp: Viewport, t: Test)
    requires t.Good(vp) && t.Pair().Some?
    ensures Named(t.Pair().value.0) && Named(t.Pair().value.1)
  {
    hide Named;
    LengthNames();
    ChosenNames();
    match t
    case Unmeasured(_, _) => LengthNames();
    case _ =>
  }

  lemma LengthNames()
    ensures Named("min-width") && Named("max-width") && Named("min-device-width") && Named("max-device-width")
    ensures Named("min-device-pixel-ratio") && Named("-webkit-min-device-pixel-ratio")
  {
  }

  lemma ChosenNames()
    ensures Named("prefers-color-scheme") && Named("dark") && Named("light") && Named("prefers-contrast")
    ensures Named("orientation") && Named("portrait") && Named("landscape")
    ensures Named("prefers-reduced-motion") && Named("reduce") && Named("no-preference")
  {
  }

  lemma PairInsides(vp: Viewport, name: string, v: string)
    requires Named(name) && Named(v)
    ensures Insides(name + ": " + v)
  {
    hide Insides, Named;
    LengthInsides(vp, name);
    LengthInsides(vp, v);
    ColonInsides();
    InsidesAppend(name, ": ");
    InsidesAppend(name + ": ", v);
  }

  lemma ColonInsides()
    ensures Insides(": ")
  {
  }

  lemma WithinInsides(vp: Viewport, l: string, c: Comparison, d: Comparison, h: string)
    requires Length(vp, l) && Length(vp, h)
    ensures Insides(Within(l, c, d, h).Inside())
  {
    hide Insides, Named;
    SignInsides(c);
    SignInsides(d);
    LengthInsides(vp, l);
    LengthInsides(vp, h);
    InsidesAppend(l, " ");
    InsidesAppend(l + " ", c.Sign());
    InsidesAppend(l + " " + c.Sign(), " width ");
    InsidesAppend(l + " " + c.Sign() + " width ", d.Sign());
    InsidesAppend(l + " " + c.Sign() + " width " + d.Sign(), " ");
    InsidesAppend(l + " " + c.Sign() + " width " + d.Sign() + " ", h);
  }

  /** Text without comparisons or parentheses. */
  predicate Operand(s: string) {
    forall i :: 0 <= i < |s| ==> s[i] != '<' && s[i] != '>' && s[i] != '=' && s[i] != '(' && s[i] != ')'
  }

  lemma ComparisonByte(c: char, s: string)
    requires c != '<' && c != '>' && c != '(' && c != ')'
    ensures ComparisonAt([c] + s, 0) == 1 + ComparisonAt(s, 0)
  {
    assert ([c] + s)[1..] == s;
  }

  lemma {:induction false} ComparisonAfter(a: string, b: string)
    requires Operand(a)
    ensures ComparisonAt(a + b, 0) == |a| + ComparisonAt(b, 0)
    decreases |a|
  {
    hide ComparisonAt;
    if a == "" {
      assert a + b == b;
    } else {
      assert a + b == [a[0]] + (a[1..] + b);
      ComparisonByte(a[0], a[1..] + b);
      ComparisonAfter(a[1..], b);
    }
  }

  lemma RangeStep(a: string, c: Comparison, b: string)
    requires Operand(a) && b != "" && !IsComparison(b[0])
    ensures SplitRange(a + (c.Sign() + b))
            == Range([a] + SplitRange(b).operands, [c.Sign()] + SplitRange(b).ops)
  {
    var s := a + (c.Sign() + b);
    ComparisonAfter(a, c.Sign() + b);
    SignRead(c, b);
    assert s[..|a|] == a && s[|a|..] == c.Sign() + b;
    assert s[|a|..|a| + |c.Sign()|] == c.Sign() && s[|a| + |c.Sign()|..] == b;
  }

  lemma SignRead(c: Comparison, b: string)
    requires b != "" && !IsComparison(b[0])
    ensures ComparisonAt(c.Sign() + b, 0) == 0 && OperatorLength(c.Sign() + b) == |c.Sign()|
  {
    var s := c.Sign() + b;
    if |c.Sign()| == 1 {
      assert s[1..] == b;
    } else {
      assert s[1..][0] == '=' && s[1..][1..] == b;
      assert OperatorLength(s[1..]) == 1;
    }
  }

  lemma RangeEnds(b: string)
    requires Operand(b)
    ensures SplitRange(b) == Range([b], [])
  {
    ComparisonAfter(b, "");
    assert b + "" == b;
  }

  lemma LengthIsOperand(vp: Viewport, l: string)
    requires Named(l)
    ensures Operand(l) && Operand(l + " ") && Operand(" " + l)
    ensures Trim(l) == l && Trim(l + " ") == l && Trim(" " + l) == l
  {
    forall i | 0 <= i < |l|
      ensures l[i] != '<' && l[i] != '>' && l[i] != '=' && l[i] != '(' && l[i] != ')' && !IsSpace(l[i])
    {
      assert LengthChar(l[i]);
    }
    TrimAround(l);
  }

  lemma TrimAround(s: string)
    requires s != "" && Trimmed(s)
    ensures Trim(s) == s && Trim(s + " ") == s && Trim(" " + s) == s && Trim(" " + s + " ") == s
  {
    assert (" " + s)[1..] == s && (s + " ")[..|s|] == s && (" " + s + " ")[1..] == s + " ";
    assert (s + " ")[0] == s[0] && (s + " ")[|s|] == ' ';
    assert TrimRight(s + " ") == TrimRight(s);
    assert TrimLeft(" " + s) == TrimLeft(s) == s;
    assert TrimLeft(" " + s + " ") == TrimLeft(s + " ") == s + " ";
  }

  /** A printed test is judged by its meaning. */
  lemma TestJudged(vp: Viewport, t: Test)
    requires t.Good(vp)
    ensures AllHold(vp, t.Words()) == t.Holds(vp)
  {
    hide SplitRange, Trim, Find, PartHolds, Test.Pair, Test.Print;
    if t.Medium? {
      MediumJudged(vp, t);
    } else {
      OneWord(vp, t.Print());
      if t.Pair().Some? {
        FeatureJudged(vp, t);
        PairMeans(vp, t);
      } else {
        OtherJudged(vp, t);
      }
    }
  }

  lemma OneWord(vp: Viewport, w: string)
    ensures AllHold(vp, [w]) == PartHolds(vp, w)
  {
    hide PartHolds;
    assert [w][0] == w;
  }

  lemma OtherJudged(vp: Viewport, t: Test)
    requires t.Good(vp) && !t.Medium? && t.Pair().None?
    ensures PartHolds(vp, t.Print()) == t.Holds(vp)
  {
    hide SplitRange, Trim, Find, PartHolds;
    match t
    case WidthIs(c, l) => WidthFirst(vp, c, l);
    case LengthIs(l, c) => LengthFirst(vp, l, c);
    case Within(l, c, d, h) => Between(vp, l, c, d, h);
    case Asked(n) => AskedHolds(vp, n);
  }

  lemma MediumJudged(vp: Viewport, t: Test)
    requires t.Good(vp) && t.Medium?
    ensures AllHold(vp, t.Words()) == t.Holds(vp)
  {
    hide PartHolds;
    TypeJudged(vp, t.name);
    OnlyHolds(vp);
    if t.only {
      assert t.Words()[0] == "only" && t.Words()[1] == t.name;
    } else {
      assert t.Print() == t.name;
      OneWord(vp, t.name);
    }
  }

  lemma TypeJudged(vp: Viewport, name: string)
    requires MediaType(name)
    ensures PartHolds(vp, name) == (name != "print")
  {
    hide Feature, FeatureFails, Trim;
    assert !Bracketed(name);
    TypeTrims(name);
    assert '(' !in name;
    assert "and"[0] == 'a' && "print"[0] == 'p' && "only"[0] == 'o';
  }

  lemma TypeTrims(name: string)
    requires MediaType(name)
    ensures Trim(name) == name && name != ""
  {
    TrimmedTrim(name);
  }

  lemma OnlyHolds(vp: Viewport)
    ensures PartHolds(vp, "only")
  {
    TrimAround("only");
    assert "only"[0] == 'o';
  }

  /** What the parser makes of each feature is what the test stands for. */
  lemma PairMeans(vp: Viewport, t: Test)
    requires t.Good(vp) && t.Pair().Some?
    ensures !FeatureFails(vp, t.Pair().value.0, t.Pair().value.1) == t.Holds(vp)
  {
    hide Named, Test.Good, Test.Pair, Test.Holds, FeatureFails;
    if t.Min? || t.Max? || t.MinDevice? || t.MaxDevice? || t.Unmeasured? {
      LengthMeans(vp, t);
    } else if t.Scheme? || t.Oriented? || t.Motion? || t.Contrast? {
      ChoiceMeans(vp, t);
    } else {
      PairIsOther(t);
      OtherMeans(vp, t);
    }
  }

  lemma PairIsOther(t: Test)
    requires t.Pair().Some?
    requires !(t.Min? || t.Max? || t.MinDevice? || t.MaxDevice? || t.Unmeasured?)
    requires !(t.Scheme? || t.Oriented? || t.Motion? || t.Contrast?)
    ensures t.Ratio? || t.Other?
  {
  }

  lemma LengthMeans(vp: Viewport, t: Test)
    requires t.Good(vp) && (t.Min? || t.Max? || t.MinDevice? || t.MaxDevice? || t.Unmeasured?)
    ensures !FeatureFails(vp, t.Pair().value.0, t.Pair().value.1) == t.Holds(vp)
  {
    hide Named;
  }

  lemma ChoiceMeans(vp: Viewport, t: Test)
    requires t.Good(vp) && (t.Scheme? || t.Oriented? || t.Motion? || t.Contrast?)
    ensures !FeatureFails(vp, t.Pair().value.0, t.Pair().value.1) == t.Holds(vp)
  {
    hide Named;
    if t.Contrast? { NamedIsSome(t.wish); }
  }

  lemma OtherMeans(vp: Viewport, t: Test)
    requires t.Good(vp) && (t.Ratio? || t.Other?)
    ensures !FeatureFails(vp, t.Pair().value.0, t.Pair().value.1) == t.Holds(vp)
  {
    hide Named;
  }

  lemma NamedIsSome(s: string)
    requires Named(s)
    ensures s != ""
  {
  }

  lemma FeatureJudged(vp: Viewport, t: Test)
    requires t.Good(vp) && t.Pair().Some?
    ensures PartHolds(vp, t.Print()) == !FeatureFails(vp, t.Pair().value.0, t.Pair().value.1)
  {
    hide SplitRange, Trim, Find, FeatureFails, RangeHolds, Feature, Named, Test.Good, Test.Pair;
    var (name, l) := t.Pair().value;
    PairIsNamed(vp, t);
    PairIsInside(t);
    NoRange(vp, name, l);
    FeatureRead(vp, name, l);
    PrintTrims(t.Print());
    assert t.Print()[0] == '(' && '(' in t.Print();
  }

  lemma PairIsInside(t: Test)
    requires t.Pair().Some?
    ensures !t.Medium? && t.Print() == "(" + (t.Pair().value.0 + ": " + t.Pair().value.1) + ")"
  {
  }

  lemma NoRange(vp: Viewport, name: string, l: string)
    requires Named(name) && Named(l)
    ensures RangeHolds(vp, "(" + (name + ": " + l) + ")").None?
  {
    hide SplitRange, Trim, Named;
    var part := "(" + (name + ": " + l) + ")";
    assert part[1..|part| - 1] == name + ": " + l;
    LengthIsOperand(vp, name);
    LengthIsOperand(vp, l);
    assert Operand(": ");
    OperandAppend(name, ": ");
    OperandAppend(name + ": ", l);
    RangeEnds(name + ": " + l);
  }

  lemma OperandAppend(a: string, b: string)
    requires Operand(a) && Operand(b)
    ensures Operand(a + b)
  {
  }

  lemma FeatureRead(vp: Viewport, name: string, l: string)
    requires Named(name) && Named(l)
    ensures Feature("(" + (name + ": " + l) + ")") == Some((name, l))
  {
    hide Trim, Find;
    var inside := name + ": " + l;
    var part := "(" + inside + ")";
    assert part[1..|part| - 1] == inside;
    LengthIsOperand(vp, l);
    LengthIsOperand(vp, name);
    assert inside == name + ":" + (" " + l);
    FindColon(name, " " + l);
    assert inside[|name| + 1..] == " " + l && inside[..|name|] == name;
  }

  /** A feature only asked for holds, whatever it is. */
  lemma AskedHolds(vp: Viewport, name: string)
    requires Named(name) && !Measured(name)
    ensures PartHolds(vp, Asked(name).Print())
  {
    hide SplitRange, Trim, Find, RangeHolds, Feature, Named, FeatureFails, Measured;
    var part := "(" + name + ")";
    assert Asked(name).Print() == part;
    AskedRead(vp, name);
    AskedFailsNot(vp, name);
    PrintTrims(part);
    assert part[0] == '(' && '(' in part;
  }

  lemma AskedFailsNot(vp: Viewport, name: string)
    requires !Measured(name)
    ensures !FeatureFails(vp, name, "")
  {
  }

  lemma AskedRead(vp: Viewport, name: string)
    requires Named(name)
    ensures Feature("(" + name + ")") == Some((name, "")) && RangeHolds(vp, "(" + name + ")").None?
  {
    hide SplitRange, Trim, Find;
    var part := "(" + name + ")";
    assert part[1..|part| - 1] == name;
    LengthIsOperand(vp, name);
    RangeEnds(name);
    forall k | 0 <= k < |name| ensures !(":" <= name[k..]) { assert name[k..][0] == name[k] && LengthChar(name[k]); }
    FindNowhere(name, ":");
  }

  lemma PrintTrims(part: string)
    requires |part| > 1 && part[0] == '(' && part[|part| - 1] == ')'
    ensures Trim(part) == part && part != "" && part != "and" && part != "only"
  {
    TrimAround(part);
    assert "and"[0] == 'a' && "only"[0] == 'o';
  }

  lemma WidthText()
    ensures Operand("width ") && Operand(" width") && Operand(" width ")
    ensures Trim("width ") == "width" && Trim(" width") == "width" && Trim(" width ") == "width"
  {
    TrimAround("width");
    assert "width" + " " == "width " && " " + "width" == " width" && " " + "width" + " " == " width ";
  }

  lemma FlippedHolds(c: Comparison, w: real, x: real)
    ensures Satisfies(w, c.Sign(), x) == c.Holds(w, x)
    ensures Satisfies(w, Flipped(c.Sign()), x) == c.Holds(x, w)
  {
  }

  lemma WidthFirst(vp: Viewport, c: Comparison, l: string)
    requires Length(vp, l)
    ensures PartHolds(vp, WidthIs(c, l).Print()) == c.Holds(vp.width, vp.px(l).value)
  {
    hide SplitRange, Trim;
    var part := WidthIs(c, l).Print();
    var inside := WidthIs(c, l).Inside();
    assert part[1..|part| - 1] == inside == "width " + (c.Sign() + (" " + l));
    LengthIsOperand(vp, l);
    WidthText();
    RangeStep("width ", c, " " + l);
    RangeEnds(" " + l);
    FlippedHolds(c, vp.width, vp.px(l).value);
  }

  lemma LengthFirst(vp: Viewport, l: string, c: Comparison)
    requires Length(vp, l)
    ensures PartHolds(vp, LengthIs(l, c).Print()) == c.Holds(vp.px(l).value, vp.width)
  {
    hide SplitRange, Trim;
    var part := LengthIs(l, c).Print();
    var inside := LengthIs(l, c).Inside();
    assert part[1..|part| - 1] == inside == (l + " ") + (c.Sign() + " width");
    LengthIsOperand(vp, l);
    WidthText();
    RangeStep(l + " ", c, " width");
    RangeEnds(" width");
    FlippedHolds(c, vp.width, vp.px(l).value);
  }

  lemma Between(vp: Viewport, l: string, c: Comparison, d: Comparison, h: string)
    requires Length(vp, l) && Length(vp, h)
    ensures PartHolds(vp, Within(l, c, d, h).Print())
            == (c.Holds(vp.px(l).value, vp.width) && d.Holds(vp.width, vp.px(h).value))
  {
    hide SplitRange, Trim, Satisfies, Flipped;
    var part := Within(l, c, d, h).Print();
    var tail := " width " + (d.Sign() + (" " + h));
    WithinSplits(vp, l, c, d, h);
    assert part[1..|part| - 1] == Within(l, c, d, h).Inside();
    LengthIsOperand(vp, l);
    LengthIsOperand(vp, h);
    WidthText();
    FlippedHolds(c, vp.width, vp.px(l).value);
    FlippedHolds(d, vp.width, vp.px(h).value);
  }

  lemma WithinSplits(vp: Viewport, l: string, c: Comparison, d: Comparison, h: string)
    requires Length(vp, l) && Length(vp, h)
    ensures SplitRange(Within(l, c, d, h).Inside()) == Range([l + " ", " width ", " " + h], [c.Sign(), d.Sign()])
  {
    hide SplitRange, Trim, Comparison.Sign, Named, Test.Inside;
    var tail := " width " + (d.Sign() + (" " + h));
    LengthIsOperand(vp, l);
    LengthIsOperand(vp, h);
    WidthText();
    RangeStep(l + " ", c, tail);
    RangeStep(" width ", d, " " + h);
    RangeEnds(" " + h);
    WithinText(l, c, d, h);
  }

  lemma WithinText(l: string, c: Comparison, d: Comparison, h: string)
    ensures Within(l, c, d, h).Inside() == (l + " ") + (c.Sign() + (" width " + (d.Sign() + (" " + h))))
  {
    hide Comparison.Sign;
    var s := l + " " + c.Sign() + " width " + d.Sign() + " " + h;
    assert s == (l + " ") + (c.Sign() + (" width " + (d.Sign() + (" " + h))));
  }

  // ---------------------------------------------------------------- splitting what was printed

  lemma SeparatorByte(c: char, rest: string, sep: char, depth: nat)
    ensures SeparatorAt([c] + rest, sep, depth)
            == if c == sep && depth == 0 then 0 else 1 + SeparatorAt(rest, sep, NestBoth(c, depth))
  {
    assert ([c] + rest)[1..] == rest;
  }

  lemma OrByte(c: char, rest: string, depth: nat)
    requires depth > 0 || c != ' ' || rest == "" || rest[0] != 'o'
    ensures OrAt([c] + rest, depth) == 1 + OrAt(rest, Nest(c, depth))
  {
    var s := [c] + rest;
    assert s[1..] == rest;
    if rest != "" { assert s[1] == rest[0] && OR[0] == ' ' && OR[1] == 'o'; }
  }

  /** What may stand behind a test: nothing, a space or a comma. */
  predicate Behind(rest: string) {
    rest == "" || rest[0] == ' ' || rest[0] == ','
  }

  /** A printed test is passed over whole by both splitters. */
  lemma BracketPassed(t: string, sep: char, rest: string)
    requires Insides(t) && (sep == ' ' || sep == ',')
    ensures SeparatorAt("(" + t + ")" + rest, sep, 0) == |t| + 2 + SeparatorAt(rest, sep, 0)
    ensures OrAt("(" + t + ")" + rest, 0) == |t| + 2 + OrAt(rest, 0)
  {
    hide SeparatorAt, OrAt, Insides;
    var tail := t + (")" + rest);
    InsidePassed(t, sep, rest);
    SeparatorByte('(', tail, sep, 0);
    OrByte('(', tail, 0);
    assert "(" + t + ")" + rest == ['('] + tail;
  }

  lemma TestPassed(vp: Viewport, t: Test, rest: string)
    requires t.Good(vp) && Behind(rest)
    ensures SeparatorAt(t.Print() + rest, ',', 0) == |t.Print()| + SeparatorAt(rest, ',', 0)
    ensures OrAt(t.Print() + rest, 0) == |t.Print()| + OrAt(rest, 0)
  {
    hide SeparatorAt, OrAt, Insides, Test.Inside, Test.Good;
    if t.Medium? {
      TypeIsGood(vp, t);
      TypePassed(t, rest);
    } else {
      TestInsides(vp, t);
      BracketPassed(t.Inside(), ',', rest);
    }
  }

  lemma TypeIsGood(vp: Viewport, t: Test)
    requires t.Good(vp) && t.Medium?
    ensures MediaType(t.name)
  {
  }

  /** A word without spaces holds no ` or `. */
  lemma {:induction false} NoOrInWord(w: string, rest: string)
    requires Bare(w) && ' ' !in w
    ensures OrAt(w + rest, 0) == |w| + OrAt(rest, 0)
    decreases |w|
  {
    hide OrAt;
    if w == "" {
      assert w + rest == rest;
    } else {
      var tail := w[1..] + rest;
      OrByte(w[0], tail, 0);
      assert w + rest == [w[0]] + tail;
      NoOrInWord(w[1..], rest);
    }
  }

  lemma OrSpace(rest: string)
    requires !("or " <= rest)
    ensures OrAt(" " + rest, 0) == 1 + OrAt(rest, 0)
  {
    OrAhead(rest);
    assert (" " + rest)[1..] == rest;
  }

  lemma OrAhead(rest: string)
    ensures OR <= " " + rest <==> "or " <= rest
  {
    var s := " " + rest;
    assert s[1..] == rest;
    if OR <= s { assert s[..4] == OR && rest[..3] == s[1..4] == "or "; }
    if "or " <= rest { assert rest[..3] == "or " && s[..4] == " " + rest[..3]; }
  }

  lemma TypeIsBare(name: string)
    requires MediaType(name)
    ensures Bare(name) && ' ' !in name && ',' !in name
  {
  }

  lemma TypeIsNoOr(name: string, rest: string)
    requires MediaType(name) && Behind(rest)
    ensures !("or " <= name + rest) && !("not" <= name + rest)
  {
    if "or " <= name + rest { OrNamed(name, rest); }
    if "not" <= name + rest { NotNamed(name, rest); }
  }

  /** Only a type of that name reads as the connector, and only one that starts with it as the negation. */
  lemma OrNamed(name: string, rest: string)
    requires name != "" && Letters(name) && Behind(rest) && "or " <= name + rest
    ensures name == "or"
  {
    var s := name + rest;
    assert s[0] == 'o' && s[1] == 'r' && s[2] == ' ';
    assert |name| <= 2;
  }

  lemma NotNamed(name: string, rest: string)
    requires name != "" && Letters(name) && Behind(rest) && "not" <= name + rest
    ensures "not" <= name
  {
    var s := name + rest;
    assert s[0] == 'n' && s[1] == 'o' && s[2] == 't';
    assert name[..3] == s[..3];
  }

  lemma TypePassed(t: Test, rest: string)
    requires t.Medium? && MediaType(t.name) && Behind(rest)
    ensures SeparatorAt(t.Print() + rest, ',', 0) == |t.Print()| + SeparatorAt(rest, ',', 0)
    ensures OrAt(t.Print() + rest, 0) == |t.Print()| + OrAt(rest, 0)
  {
    hide SeparatorAt, OrAt, MediaType, Bare;
    var tail := t.name + rest;
    TypeIsBare(t.name);
    WordPassed(t.name, rest, ',');
    NoOrInWord(t.name, rest);
    if t.only {
      TypeIsNoOr(t.name, rest);
      OnlyPassed(tail);
      assert t.Print() + rest == "only " + tail;
    } else {
      assert t.Print() == t.name;
    }
  }

  lemma OnlyPassed(tail: string)
    requires !("or " <= tail)
    ensures SeparatorAt("only " + tail, ',', 0) == 5 + SeparatorAt(tail, ',', 0)
    ensures OrAt("only " + tail, 0) == 5 + OrAt(tail, 0)
  {
    hide SeparatorAt, OrAt, Bare;
    OnlyIsBare();
    WordPassed("only ", tail, ',');
    OrSpace(tail);
    NoOrInWord("only", " " + tail);
    assert "only " + tail == "only" + (" " + tail);
  }

  lemma OnlyIsBare()
    ensures Bare("only ") && ',' !in "only " && Bare("only") && ' ' !in "only"
  {
  }

  lemma {:induction false} InsidePassed(t: string, sep: char, rest: string)
    requires Insides(t) && (sep == ' ' || sep == ',')
    ensures SeparatorAt(t + (")" + rest), sep, 1) == |t| + 1 + SeparatorAt(rest, sep, 0)
    ensures OrAt(t + (")" + rest), 1) == |t| + 1 + OrAt(rest, 0)
    decreases |t|
  {
    hide SeparatorAt, OrAt;
    if t == "" {
      SeparatorByte(')', rest, sep, 1);
      OrByte(')', rest, 1);
      assert t + (")" + rest) == [')'] + rest;
    } else {
      assert InsideChar(t[0]);
      var tail := t[1..] + (")" + rest);
      SeparatorByte(t[0], tail, sep, 1);
      OrByte(t[0], tail, 1);
      assert t + (")" + rest) == [t[0]] + tail;
      InsidePassed(t[1..], sep, rest);
    }
  }

  predicate Bare(w: string) {
    forall i :: 0 <= i < |w| ==> w[i] != '(' && w[i] != ')' && w[i] != '[' && w[i] != ']'
  }

  lemma {:induction false} WordPassed(w: string, rest: string, sep: char)
    requires Bare(w) && sep !in w
    ensures SeparatorAt(w + rest, sep, 0) == |w| + SeparatorAt(rest, sep, 0)
    decreases |w|
  {
    hide SeparatorAt;
    if w == "" {
      assert w + rest == rest;
    } else {
      SeparatorByte(w[0], w[1..] + rest, sep, 0);
      assert w + rest == [w[0]] + (w[1..] + rest);
      WordPassed(w[1..], rest, sep);
    }
  }

  const AND := " and "

  /** The words between two tests. */
  lemma AndPassed(rest: string)
    requires !("or " <= rest)
    ensures OrAt(AND + rest, 0) == 5 + OrAt(rest, 0)
    ensures SeparatorAt(AND + rest, ',', 0) == 5 + SeparatorAt(rest, ',', 0)
    ensures TopLevel((AND + rest)[1..], ' ') == ["and"] + TopLevel(rest, ' ')
  {
    hide OrAt, SeparatorAt;
    assert Bare(AND) && ',' !in AND && Bare("and") && ' ' !in "and";
    WordPassed(AND, rest, ',');
    OrByte(' ', "and" + (" " + rest), 0);
    NoOrInWord("and", " " + rest);
    OrSpace(rest);
    assert AND + rest == [' '] + ("and" + (" " + rest));
    WordPassed("and", " " + rest, ' ');
    SeparatorByte(' ', rest, ' ', 0);
    assert [' '] + rest == " " + rest;
    var s := "and" + (" " + rest);
    assert (AND + rest)[1..] == s && s[..3] == "and" && s[4..] == rest;
  }

  /** What a printed test begins with. */
  lemma TestBegins(vp: Viewport, t: Test, rest: string)
    requires t.Good(vp) && Behind(rest)
    ensures var s := t.Print() + rest; !("or " <= s) && !("not" <= s)
    ensures t.Print() != "" && Trimmed(t.Print())
  {
    hide Test.Inside, Test.Good;
    if t.Medium? {
      TypeIsGood(vp, t);
      TypeIsNoOr(t.name, rest);
      TypeEnds(t.name);
      if t.only { assert (t.Print() + rest)[0] == 'o' && (t.Print() + rest)[1] == 'n'; }
    } else {
      assert (t.Print() + rest)[0] == '(';
    }
  }

  lemma TypeEnds(name: string)
    requires MediaType(name)
    ensures name != "" && !IsSpace(name[0]) && !IsSpace(name[|name| - 1])
  {
  }

  lemma {:induction false} PrintStarts(vp: Viewport, tests: seq<Test>, rest: string)
    requires GoodTests(vp, tests) && Behind(rest)
    ensures var s := PrintAll(tests) + rest; !("or " <= s) && !("not" <= s)
    ensures PrintAll(tests) != "" && Trimmed(PrintAll(tests))
    decreases |tests|
  {
    hide Test.Print, Test.Good, PrintAll;
    var t := tests[0];
    assert t.Good(vp);
    if |tests| == 1 {
      OneTest(tests);
      TestBegins(vp, t, rest);
    } else {
      var others := PrintAll(tests[1..]);
      PrintStarts(vp, tests[1..], rest);
      HeadOfPrint(tests);
      TestBegins(vp, t, AND + (others + rest));
      assert PrintAll(tests) + rest == t.Print() + (AND + (others + rest));
      EndsOf(t.Print() + AND, others);
      assert t.Print() + (AND + others) == (t.Print() + AND) + others;
      assert PrintAll(tests)[0] == t.Print()[0];
    }
  }

  lemma EndsOf(a: string, b: string)
    requires b != ""
    ensures (a + b)[|a + b| - 1] == b[|b| - 1]
  {
  }

  lemma OneTest(tests: seq<Test>)
    requires |tests| == 1
    ensures PrintAll(tests) == tests[0].Print()
  {
    hide Test.Print;
  }

  /** Tests joined by `and` hold no ` or ` and no comma. */
  lemma {:induction false} TestsSplit(vp: Viewport, tests: seq<Test>, rest: string)
    requires GoodTests(vp, tests) && Behind(rest)
    ensures OrAt(PrintAll(tests) + rest, 0) == |PrintAll(tests)| + OrAt(rest, 0)
    ensures SeparatorAt(PrintAll(tests) + rest, ',', 0) == |PrintAll(tests)| + SeparatorAt(rest, ',', 0)
    decreases |tests|
  {
    hide OrAt, SeparatorAt, PrintAll, Test.Good, Test.Print;
    var t := tests[0];
    assert t.Good(vp);
    if |tests| == 1 {
      OneTest(tests);
      TestPassed(vp, t, rest);
    } else {
      var others := PrintAll(tests[1..]);
      TestsSplit(vp, tests[1..], rest);
      PrintStarts(vp, tests[1..], rest);
      TestPassed(vp, t, AND + (others + rest));
      AndPassed(others + rest);
      HeadOfPrint(tests);
      Regroup(t.Print(), AND, others, rest);
    }
  }

  lemma HeadOfPrint(tests: seq<Test>)
    requires |tests| > 1
    ensures PrintAll(tests) == tests[0].Print() + (AND + PrintAll(tests[1..]))
  {
    hide Test.Print;
    var p, rest := tests[0].Print(), PrintAll(tests[1..]);
    assert p + AND + rest == p + (AND + rest);
  }

  /** The words of an alternative are judged by the tests among them. */
  lemma {:induction false} TestsJudged(vp: Viewport, tests: seq<Test>)
    requires GoodTests(vp, tests)
    ensures AllHold(vp, TopLevel(PrintAll(tests), ' ')) == AllTests(vp, tests)
    decreases |tests|
  {
    hide TopLevel, PartHolds, AllHold, PrintAll, Test.Good, Test.Holds, Test.Print, Test.Words;
    var t := tests[0];
    assert t.Good(vp);
    TestJudged(vp, t);
    if |tests| == 1 {
      OneTest(tests);
      WordEnds(vp, t);
    } else {
      var others := PrintAll(tests[1..]);
      HeadOfPrint(tests);
      PrintStarts(vp, tests[1..], "");
      assert others + "" == others;
      TestsJudged(vp, tests[1..]);
      AndPassed(others);
      WordThen(vp, t, AND + others);
      WordsHold(vp, t.Words(), TopLevel(others, ' '));
      AllTestsSplit(vp, tests);
    }
  }

  lemma AllTestsSplit(vp: Viewport, tests: seq<Test>)
    requires GoodTests(vp, tests) && |tests| > 1
    ensures GoodTests(vp, tests[1..])
    ensures AllTests(vp, tests) == (tests[0].Holds(vp) && AllTests(vp, tests[1..]))
  {
    if tests[0].Holds(vp) && AllTests(vp, tests[1..]) {
      forall i | 0 <= i < |tests| ensures tests[i].Holds(vp) {
        if i > 0 { assert tests[1..][i - 1].Holds(vp); }
      }
    }
  }

  lemma WordEnds(vp: Viewport, t: Test)
    requires t.Good(vp)
    ensures TopLevel(t.Print(), ' ') == t.Words()
  {
    hide SeparatorAt, Insides, TopLevel, Test.Inside, Test.Good, MediaType;
    NothingToSeparate(' ');
    if t.Medium? {
      TypeIsGood(vp, t);
      TypeIsBare(t.name);
      WordPassed(t.name, "", ' ');
      assert t.name + "" == t.name && t.name[0..] == t.name;
      TopLevelLast(t.name, ' ', 0);
      if t.only {
        OnlyThen(t.name);
        assert ["only"] + [t.name] == ["only", t.name];
      } else {
        assert t.Print() == t.name;
      }
    } else {
      TestInsides(vp, t);
      BracketPassed(t.Inside(), ' ', "");
      var s := t.Print();
      assert s + "" == s && s[0..] == s;
      TopLevelLast(s, ' ', 0);
    }
  }

  lemma OnlyThen(rest: string)
    ensures TopLevel("only " + rest, ' ') == ["only"] + TopLevel(rest, ' ')
  {
    hide SeparatorAt, TopLevel;
    OnlyIsBare();
    WordPassed("only", " " + rest, ' ');
    SeparatorByte(' ', rest, ' ', 0);
    var s := "only " + rest;
    assert s == "only" + (" " + rest) && [' '] + rest == " " + rest;
    assert s[0..] == s && s[0..4] == "only" && s[5..] == rest;
    TopLevelCut(s, ' ', 0, 4);
  }

  lemma NothingToSeparate(sep: char)
    ensures SeparatorAt("", sep, 0) == 0 && OrAt("", 0) == 0
  {
  }

  /** A test followed by a space is the first word, or the first two. */
  lemma WordThen(vp: Viewport, t: Test, rest: string)
    requires t.Good(vp) && rest != "" && rest[0] == ' '
    ensures TopLevel(t.Print() + rest, ' ') == t.Words() + TopLevel(rest[1..], ' ')
  {
    hide Insides, SeparatorAt, TopLevel, Test.Inside, Test.Good, MediaType;
    if t.Medium? {
      TypeIsGood(vp, t);
      TypeIsBare(t.name);
      WordPassed(t.name, rest, ' ');
      FirstWord(t.name, rest);
      if t.only {
        OnlyThen(t.name + rest);
        assert t.Print() + rest == "only " + (t.name + rest);
        assert ["only"] + ([t.name] + TopLevel(rest[1..], ' ')) == t.Words() + TopLevel(rest[1..], ' ');
      } else {
        assert t.Print() == t.name;
      }
    } else {
      TestInsides(vp, t);
      BracketPassed(t.Inside(), ' ', rest);
      FirstWord(t.Print(), rest);
    }
  }

  lemma FirstWord(w: string, rest: string)
    requires rest != "" && rest[0] == ' ' && SeparatorAt(w + rest, ' ', 0) == |w| + SeparatorAt(rest, ' ', 0)
    ensures TopLevel(w + rest, ' ') == [w] + TopLevel(rest[1..], ' ')
  {
    hide SeparatorAt, TopLevel;
    SeparatorByte(' ', rest[1..], ' ', 0);
    assert [' '] + rest[1..] == rest;
    var s, n := w + rest, |w|;
    assert s[0..] == s && s[0..n] == w && s[n + 1..] == rest[1..];
    TopLevelCut(s, ' ', 0, n);
  }

  lemma WordsHold(vp: Viewport, first: seq<string>, others: seq<string>)
    ensures AllHold(vp, first + (["and"] + others)) == (AllHold(vp, first) && AllHold(vp, others))
  {
    hide PartHolds;
    var all, n := first + (["and"] + others), |first|;
    AndHolds(vp);
    if AllHold(vp, first) && AllHold(vp, others) {
      forall i | 0 <= i < |all| ensures PartHolds(vp, all[i]) {
        if i < n { assert all[i] == first[i]; }
        if i > n { assert all[i] == others[i - n - 1]; }
      }
    }
    if AllHold(vp, all) {
      forall i | 0 <= i < |first| ensures PartHolds(vp, first[i]) { assert all[i] == first[i]; }
      forall i | 0 <= i < |others| ensures PartHolds(vp, others[i]) { assert all[n + 1 + i] == others[i]; }
    }
  }

  lemma AndHolds(vp: Viewport)
    ensures PartHolds(vp, "and") && PartHolds(vp, "")
  {
    TrimAround("and");
    assert "and"[0] == 'a';
  }

  // ---------------------------------------------------------------- alternatives and groups

  function Printed(alts: seq<seq<Test>>): seq<string> {
    if alts == [] then [] else [PrintAll(alts[0])] + Printed(alts[1..])
  }

  lemma OrStops(rest: string)
    ensures OrAt(OR + rest, 0) == 0
  {
    assert OR <= OR + rest;
  }

  lemma PrintAllTrims(vp: Viewport, tests: seq<Test>)
    requires GoodTests(vp, tests)
    ensures Trim(PrintAll(tests)) == PrintAll(tests) && Trim(" " + PrintAll(tests)) == PrintAll(tests)
  {
    hide PrintAll, GoodTests;
    PrintStarts(vp, tests, "");
    TrimAround(PrintAll(tests));
  }

  lemma AnyHead(alts: seq<seq<Test>>)
    requires |alts| > 1
    ensures PrintAny(alts) == PrintAll(alts[0]) + (OR + PrintAny(alts[1..]))
  {
    hide PrintAll;
    var p, rest := PrintAll(alts[0]), PrintAny(alts[1..]);
    assert p + OR + rest == p + (OR + rest);
  }

  /** Alternatives split into themselves. */
  lemma {:induction false} AlternativesSplit(vp: Viewport, alts: seq<seq<Test>>)
    requires GoodAlternatives(vp, alts)
    ensures Alternatives(PrintAny(alts)) == Printed(alts)
    decreases |alts|
  {
    hide OrAt, Trim, PrintAll, Alternatives;
    var p := PrintAll(alts[0]);
    assert GoodTests(vp, alts[0]);
    PrintAllTrims(vp, alts[0]);
    NothingToSeparate(' ');
    if |alts| == 1 {
      TestsSplit(vp, alts[0], "");
      assert p + "" == p && PrintAny(alts) == p && p[0..] == p;
      AlternativesLast(p, 0);
      assert Printed(alts[1..]) == [];
    } else {
      var rest := PrintAny(alts[1..]);
      AnyHead(alts);
      TestsSplit(vp, alts[0], OR + rest);
      OrStops(rest);
      var s := PrintAny(alts);
      assert s[0..] == s && s[0..|p|] == p && s[|p| + 4..] == rest;
      AlternativesCut(s, 0, |p|);
      AlternativesSplit(vp, alts[1..]);
    }
  }

  lemma {:induction false} PrintedAt(alts: seq<seq<Test>>, i: nat)
    requires i < |alts|
    ensures |Printed(alts)| == |alts| && Printed(alts)[i] == PrintAll(alts[i])
    decreases |alts|
  {
    hide PrintAll;
    PrintedLength(alts);
    if i > 0 { PrintedAt(alts[1..], i - 1); }
  }

  lemma {:induction false} PrintedLength(alts: seq<seq<Test>>)
    ensures |Printed(alts)| == |alts|
  {
    hide PrintAll;
    if alts != [] { PrintedLength(alts[1..]); }
  }

  /** One alternative is true when all its tests hold. */
  lemma AlternativeJudged(vp: Viewport, tests: seq<Test>)
    requires GoodTests(vp, tests)
    ensures PartsTrue(vp, PrintAll(tests)) == AllTests(vp, tests)
  {
    hide PrintAll, AllHold, TopLevel, Alternatives, AllTests;
    assert GoodTests(vp, [tests][0]);
    AlternativesSplit(vp, [tests]);
    assert PrintAny([tests]) == PrintAll(tests);
    PrintedLength([tests]);
    TestsJudged(vp, tests);
  }

  /** Alternatives are true when the tests of one of them hold. */
  lemma AlternativesJudged(vp: Viewport, alts: seq<seq<Test>>)
    requires GoodAlternatives(vp, alts)
    ensures PartsTrue(vp, PrintAny(alts)) == AnyAlternative(vp, alts)
  {
    hide PrintAll, AllTests, GoodTests, Alternatives, Trim;
    var group := PrintAny(alts);
    AlternativesSplit(vp, alts);
    PrintedLength(alts);
    if |alts| == 1 {
      AlternativeJudged(vp, alts[0]);
      assert group == PrintAll(alts[0]);
    } else {
      var split := Alternatives(group);
      forall i | 0 <= i < |alts| ensures PartsTrue(vp, TrimmedPiece(split[i], |group|)) == AllTests(vp, alts[i]) {
        PrintedAt(alts, i);
        TestsNotEmpty(vp, alts[i]);
        PrintAllTrims(vp, alts[i]);
        AlternativeJudged(vp, alts[i]);
      }
    }
  }

  lemma TestsNotEmpty(vp: Viewport, tests: seq<Test>)
    requires GoodTests(vp, tests)
    ensures tests != []
  {
  }

  lemma {:induction false} AnyEnds(vp: Viewport, alts: seq<seq<Test>>)
    requires GoodAlternatives(vp, alts)
    ensures var p := PrintAny(alts); p != "" && Trimmed(p) && !("not" <= p)
    decreases |alts|
  {
    hide PrintAll, GoodTests;
    assert GoodTests(vp, alts[0]);
    if |alts| > 1 {
      var rest := PrintAny(alts[1..]);
      AnyEnds(vp, alts[1..]);
      AnyHead(alts);
      PrintStarts(vp, alts[0], OR + rest);
      EndsOf(PrintAll(alts[0]) + OR, rest);
      assert PrintAny(alts)[0] == PrintAll(alts[0])[0];
    } else {
      PrintStarts(vp, alts[0], "");
      assert PrintAll(alts[0]) + "" == PrintAll(alts[0]);
    }
  }

  lemma {:induction false} AnyPassesCommas(vp: Viewport, alts: seq<seq<Test>>, rest: string)
    requires GoodAlternatives(vp, alts) && Behind(rest)
    ensures SeparatorAt(PrintAny(alts) + rest, ',', 0) == |PrintAny(alts)| + SeparatorAt(rest, ',', 0)
    decreases |alts|
  {
    hide PrintAll, SeparatorAt, PrintAny, GoodTests, OrAt, Bare;
    assert GoodTests(vp, alts[0]);
    var p := PrintAll(alts[0]);
    if |alts| == 1 {
      OnlyOne(alts);
      TestsSplit(vp, alts[0], rest);
    } else {
      var others := PrintAny(alts[1..]);
      AnyHead(alts);
      AnyPassesCommas(vp, alts[1..], rest);
      TestsSplit(vp, alts[0], OR + (others + rest));
      OrIsBare();
      WordPassed(OR, others + rest, ',');
      Regroup(p, OR, others, rest);
    }
  }

  lemma OrIsBare()
    ensures Bare(OR) && ',' !in OR
  {
  }

  lemma OnlyOne(alts: seq<seq<Test>>)
    requires |alts| == 1
    ensures PrintAny(alts) == PrintAll(alts[0])
  {
    hide PrintAll;
  }

  lemma Regroup(a: string, b: string, c: string, d: string)
    ensures a + (b + c) + d == a + (b + (c + d))
  {
  }

  /** Text without capitals. */
  predicate Small(s: string) {
    forall i :: 0 <= i < |s| ==> !('A' <= s[i] <= 'Z')
  }

  lemma SmallIsLower(s: string)
    requires Small(s)
    ensures Lower(s) == s
  {
  }

  lemma TestSmall(vp: Viewport, t: Test)
    requires t.Good(vp)
    ensures Small(t.Print())
  {
    hide Test.Inside, Test.Good;
    if t.Medium? {
      TypeIsGood(vp, t);
      if t.only { SmallAppend("only ", t.name); }
    } else {
      TestInsides(vp, t);
      forall i | 0 <= i < |t.Inside()| ensures !('A' <= t.Inside()[i] <= 'Z') { assert InsideChar(t.Inside()[i]); }
      SmallAppend("(", t.Inside());
      SmallAppend("(" + t.Inside(), ")");
    }
  }

  lemma {:induction false} TestsSmall(vp: Viewport, tests: seq<Test>)
    requires GoodTests(vp, tests)
    ensures Small(PrintAll(tests))
    decreases |tests|
  {
    hide Test.Print, Test.Good;
    assert tests[0].Good(vp);
    TestSmall(vp, tests[0]);
    if |tests| > 1 {
      TestsSmall(vp, tests[1..]);
      SmallAppend(tests[0].Print(), AND);
      SmallAppend(tests[0].Print() + AND, PrintAll(tests[1..]));
    }
  }

  lemma SmallAppend(a: string, b: string)
    requires Small(a) && Small(b)
    ensures Small(a + b)
  {
  }

  lemma {:induction false} AnySmall(vp: Viewport, alts: seq<seq<Test>>)
    requires GoodAlternatives(vp, alts)
    ensures Small(PrintAny(alts))
    decreases |alts|
  {
    hide PrintAll, Small;
    assert GoodTests(vp, alts[0]);
    TestsSmall(vp, alts[0]);
    if |alts| > 1 {
      AnySmall(vp, alts[1..]);
      WordsSmall();
      SmallAppend(PrintAll(alts[0]), OR);
      SmallAppend(PrintAll(alts[0]) + OR, PrintAny(alts[1..]));
    }
  }

  lemma WordsSmall()
    ensures Small(OR) && Small("not ") && Small(" ") && Small("")
  {
  }

  /** A printed group is judged by its meaning, with or without a space in front. */
  lemma GroupJudged(vp: Viewport, g: Group, gap: string)
    requires GoodAlternatives(vp, g.alts) && (gap == "" || gap == " ")
    ensures GroupTrue(vp, gap + PrintGroup(g)) == GroupHolds(vp, g)
  {
    hide PrintAny, PartsTrue, Trim, AnyAlternative, Small, Lower, GoodAlternatives, PrintGroup;
    var any := PrintAny(g.alts);
    AnySmall(vp, g.alts);
    AnyEnds(vp, g.alts);
    AlternativesJudged(vp, g.alts);
    WordsSmall();
    GroupText(g);
    SmallAppend("not ", any);
    SmallAppend(gap, PrintGroup(g));
    SmallIsLower(gap + PrintGroup(g));
    AllIsTrue(vp);
    if g.negated { NotTrims(any, gap); } else { AnyTrims(any, gap); }
  }

  lemma GroupText(g: Group)
    ensures PrintGroup(g) == if g.negated then "not " + PrintAny(g.alts) else PrintAny(g.alts)
  {
    hide PrintAny;
    assert "" + PrintAny(g.alts) == PrintAny(g.alts);
  }

  lemma AnyTrims(any: string, gap: string)
    requires any != "" && Trimmed(any) && (gap == "" || gap == " ")
    ensures Trim(gap + any) == any
  {
    TrimAround(any);
    assert "" + any == any;
  }

  /** `all` is judged true by its words too. */
  lemma AllIsTrue(vp: Viewport)
    ensures PartsTrue(vp, "all")
  {
    hide PartHolds, Alternatives, TopLevel, AllTests;
    var t := Medium(false, "all");
    AllIsGood(vp, t);
    OneTest([t]);
    AlternativeJudged(vp, [t]);
    AllMeans(vp, t);
  }

  lemma AllIsGood(vp: Viewport, t: Test)
    requires t == Medium(false, "all")
    ensures GoodTests(vp, [t]) && t.Print() == "all"
  {
    assert "all"[0] == 'a' && "or"[0] == 'o' && "not"[0] == 'n';
    assert MediaType("all");
    assert "" + "all" == "all";
  }

  lemma AllMeans(vp: Viewport, t: Test)
    requires t == Medium(false, "all") && GoodTests(vp, [t])
    ensures AllTests(vp, [t])
  {
    assert "all"[0] == 'a' && "print"[0] == 'p';
  }

  lemma NotTrims(any: string, gap: string)
    requires any != "" && Trimmed(any) && (gap == "" || gap == " ")
    ensures var no := "not " + any;
            Trim(gap + no) == no && no != "all" && no != "" && "not" <= no && Trim(no[3..]) == any
  {
    hide Trim;
    var no := "not " + any;
    EndsOf("not ", any);
    assert no[0] == 'n';
    TrimAround(no);
    assert no[3..] == " " + any && no[..3] == "not" && "" + no == no;
    TrimAround(any);
  }

  lemma Joined(a: string, b: string, c: string, d: string)
    ensures a + (b + c) + d == (a + b) + (c + d) && |a + (b + c)| == |a| + |b| + |c|
  {
  }

  lemma NotIsBare(gap: string, negated: bool)
    requires gap == "" || gap == " "
    ensures var word := gap + if negated then "not " else ""; Bare(word) && ',' !in word
  {
  }

  lemma GroupPassesCommas(vp: Viewport, g: Group, gap: string, rest: string)
    requires GoodAlternatives(vp, g.alts) && (gap == "" || gap == " ") && Behind(rest)
    ensures SeparatorAt(gap + PrintGroup(g) + rest, ',', 0) == |gap| + |PrintGroup(g)| + SeparatorAt(rest, ',', 0)
  {
    hide PrintAny, SeparatorAt, GoodAlternatives, Bare;
    var any := PrintAny(g.alts);
    AnyPassesCommas(vp, g.alts, rest);
    var word := gap + if g.negated then "not " else "";
    NotIsBare(gap, g.negated);
    WordPassed(word, any + rest, ',');
    Joined(gap, if g.negated then "not " else "", any, rest);
  }

  // ---------------------------------------------------------------- the theorem

  lemma QueryHead(q: seq<Group>)
    requires |q| > 1
    ensures PrintQuery(q) == PrintGroup(q[0]) + ("," + (" " + PrintQuery(q[1..])))
  {
    hide PrintGroup;
    CommaAndSpace(PrintGroup(q[0]), PrintQuery(q[1..]));
  }

  lemma CommaAndSpace(p: string, rest: string)
    ensures p + ", " + rest == p + ("," + (" " + rest))
  {
    assert ", " == "," + " ";
  }

  lemma CommaStops(rest: string)
    ensures SeparatorAt("," + rest, ',', 0) == 0
  {
  }

  lemma {:induction false} QueryJudged(vp: Viewport, q: seq<Group>, gap: string)
    requires GoodQuery(vp, q) && (gap == "" || gap == " ")
    ensures ConditionTrue(vp, gap + PrintQuery(q)) == QueryHolds(vp, q)
    decreases |q|
  {
    hide PrintGroup, PrintQuery, SeparatorAt, GroupTrue, GroupHolds, GoodAlternatives, TopLevel;
    var p := gap + PrintGroup(q[0]);
    GroupJudged(vp, q[0], gap);
    if |q| == 1 {
      LastGroupSplits(vp, q, gap);
      FirstOrRest(vp, p, []);
    } else {
      var rest := " " + PrintQuery(q[1..]);
      FirstGroupSplits(vp, q, gap);
      FirstOrRest(vp, p, TopLevel(rest, ','));
      QueryJudged(vp, q[1..], " ");
      FirstGroupOrRest(vp, q);
    }
  }

  lemma LastGroupSplits(vp: Viewport, q: seq<Group>, gap: string)
    requires GoodQuery(vp, q) && (gap == "" || gap == " ") && |q| == 1
    ensures TopLevel(gap + PrintQuery(q), ',') == [gap + PrintGroup(q[0])] + []
  {
    hide PrintGroup, SeparatorAt, TopLevel;
    var p := gap + PrintGroup(q[0]);
    NothingToSeparate(',');
    GroupPassesCommas(vp, q[0], gap, "");
    assert p + "" == p && p[0..] == p;
    TopLevelLast(p, ',', 0);
  }

  lemma FirstGroupSplits(vp: Viewport, q: seq<Group>, gap: string)
    requires GoodQuery(vp, q) && (gap == "" || gap == " ") && |q| > 1
    ensures TopLevel(gap + PrintQuery(q), ',')
            == [gap + PrintGroup(q[0])] + TopLevel(" " + PrintQuery(q[1..]), ',')
  {
    hide PrintGroup, PrintQuery, SeparatorAt, TopLevel, GoodAlternatives;
    var p := gap + PrintGroup(q[0]);
    var rest := " " + PrintQuery(q[1..]);
    QueryHead(q);
    CommaStops(rest);
    GroupPassesCommas(vp, q[0], gap, "," + rest);
    var s := gap + PrintQuery(q);
    CutParts(gap, PrintGroup(q[0]), rest);
    TopLevelCut(s, ',', 0, |p|);
  }

  lemma CutParts(gap: string, first: string, rest: string)
    ensures var s, p := gap + (first + ("," + rest)), gap + first;
            s == p + ("," + rest) && s[0..] == s && s[0..|p|] == p && s[|p| + 1..] == rest
  {
  }

  lemma FirstOrRest(vp: Viewport, first: string, rest: seq<string>)
    ensures (exists i :: 0 <= i < |[first] + rest| && GroupTrue(vp, ([first] + rest)[i]))
            <==> GroupTrue(vp, first) || exists i :: 0 <= i < |rest| && GroupTrue(vp, rest[i])
  {
    hide GroupTrue;
    var all := [first] + rest;
    assert all[0] == first;
    if exists i :: 0 <= i < |rest| && GroupTrue(vp, rest[i]) {
      var i :| 0 <= i < |rest| && GroupTrue(vp, rest[i]);
      assert all[i + 1] == rest[i];
    }
  }

  lemma FirstGroupOrRest(vp: Viewport, q: seq<Group>)
    requires GoodQuery(vp, q) && |q| > 1
    ensures GoodQuery(vp, q[1..]) && QueryHolds(vp, q) == (GroupHolds(vp, q[0]) || QueryHolds(vp, q[1..]))
  {
    hide GroupHolds, GoodAlternatives;
    if QueryHolds(vp, q[1..]) {
      var i :| 0 <= i < |q[1..]| && GroupHolds(vp, q[1..][i]);
      assert q[i + 1] == q[1..][i];
    }
    if QueryHolds(vp, q) && !GroupHolds(vp, q[0]) {
      var i :| 0 <= i < |q| && GroupHolds(vp, q[i]);
      assert q[1..][i - 1] == q[i];
    }
  }

  /** Capitals make no difference to a group. */
  lemma CapitalsIgnored(vp: Viewport, text: string)
    ensures GroupTrue(vp, text) == GroupTrue(vp, Lower(text))
  {
    hide PartsTrue, Trim;
    assert Lower(Lower(text)) == Lower(text);
  }

  /** A printed query, of whatever tests, is judged true in exactly the windows it stands for. */
  lemma QueryMeansItsTests(vp: Viewport, q: seq<Group>)
    requires GoodQuery(vp, q)
    ensures ConditionTrue(vp, PrintQuery(q)) <==> QueryHolds(vp, q)
  {
    hide GoodQuery, ConditionTrue, QueryHolds;
    QueryJudged(vp, q, "");
    assert "" + PrintQuery(q) == PrintQuery(q);
  }
}
