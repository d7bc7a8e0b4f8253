/** Trees of nested rules, how they are written down and the flat rules they stand for. */
module CssTree {
  import opened Options
  import opened Text
  import opened CssScan
  import opened CssDecls
  import opened CssSelectors
  import opened CssReading

  datatype Item =
    | Declare(decl: Declaration)
    | Style(selectors: seq<string>, body: seq<Item>)
    | Group(name: string, prelude: string, body: seq<Item>)

  // ---------------------------------------------------------------- writing

  function Written(d: Declaration): string {
    d.property + ":" + d.value + if d.important then IMPORTANT else ""
  }

  /** Selectors with commas, a gap after each comma. */
  function Joined(gap: string, sels: seq<string>): string {
    if sels == [] then ""
    else if |sels| == 1 then sels[0]
    else sels[0] + "," + gap + Joined(gap, sels[1..])
  }

  function Header(gap: string, it: Item): string
    requires !it.Declare?
  {
    if it.Style? then Joined(gap, it.selectors) + gap else "@" + it.name + " " + it.prelude + gap
  }

  /** The items in order; `gap` is the white space put after every piece. */
  function Print(gap: string, items: seq<Item>): string
    decreases items
  {
    if items == [] then "" else PrintItem(gap, items[0]) + gap + Print(gap, items[1..])
  }

  function PrintItem(gap: string, it: Item): string
    decreases it
  {
    if it.Declare? then Written(it.decl) + ";"
    else Header(gap, it) + "{" + gap + Print(gap, it.body) + "}"
  }

  // ---------------------------------------------------------------- what may be written

  predicate Word(s: string) {
    s != "" && forall i :: 0 <= i < |s| ==> 'a' <= s[i] <= 'z' || s[i] == '-'
  }

  /** A value without blanks around it and without an escaped line break to drop. */
  predicate WritableValue(v: string) {
    Trimmed(v) && StripEscapedNewlines(NO_QUOTE, v) == v
  }

  /** `!important` stands nowhere in the value, in whatever case. */
  predicate NoImportant(v: string) {
    Find(Lower(v), IMPORTANT) == |v|
  }

  predicate WritableProperty(p: string) {
    && p != "" && Trimmed(p) && Plain(p) && p[0] != '@' && !OpensComment(p)
    && ':' !in p && '(' !in p && ')' !in p
  }

  predicate NoCapitals(p: string) {
    Lower(p) == p
  }

  predicate GoodProperty(p: string) {
    WritableProperty(p) && NoCapitals(p)
  }

  /** A declaration that is one statement to its reader, strings and parentheses closed where it ends. */
  predicate GoodDeclaration(d: Declaration) {
    GoodProperty(d.property) && WritableValue(d.value) && NoImportant(d.value) && Neutral(Statement, Written(d))
  }

  /** The at-rules with rules in them. */
  predicate GroupName(name: string) {
    name in ["media", "supports", "layer", "container", "scope", "starting-style"]
  }

  /** Those are the ones the reader enters. */
  lemma GroupNameIs(name: string)
    ensures GroupName(name) <==> Grouping(name)
  {
  }

  predicate GoodPrelude(name: string, p: string) {
    && Trimmed(p) && Plain(p) && Balanced(p, 0) && !OpensComment(p)
    && (name == "starting-style" ==> p == "")
  }

  predicate Good(top: bool, items: seq<Item>)
    decreases items
  {
    forall i :: 0 <= i < |items| ==> GoodItem(top, items[i])
  }

  /** Top-level text holds rules and grouping rules only. */
  predicate GoodItem(top: bool, it: Item)
    decreases it
  {
    match it
    case Declare(d) => !top && GoodDeclaration(d)
    case Style(sels, body) =>
      sels != [] && (forall i :: 0 <= i < |sels| ==> PlainSelector(sels[i])) && Good(false, body)
    case Group(name, prelude, body) => GroupName(name) && GoodPrelude(name, prelude) && Good(top, body)
  }

  /** Whether a body is read as top-level text. */
  function BodyTop(top: bool, it: Item): bool {
    top && it.Group?
  }

  /** The scanner that looks for the end of an item's block. */
  function Closer(top: bool, it: Item): Scanner {
    if !top then Block else if it.Style? then RuleBody else Braces
  }

  /** Every block is passed over by the scanner that looks for its end. */
  predicate Closed(gap: string, top: bool, items: seq<Item>)
    decreases items
  {
    forall i :: 0 <= i < |items| ==> ClosedItem(gap, top, items[i])
  }

  predicate ClosedItem(gap: string, top: bool, it: Item)
    decreases it
  {
    it.Declare? || (Passes(Closer(top, it), Print(gap, it.body)) && Closed(gap, BodyTop(top, it), it.body))
  }

  /** Every value is passed over by the scanner of each block around it, whatever stands in `around`. */
  predicate Clear(around: set<Scanner>, top: bool, items: seq<Item>)
    decreases items
  {
    forall i :: 0 <= i < |items| ==> ClearItem(around, top, items[i])
  }

  predicate ClearItem(around: set<Scanner>, top: bool, it: Item)
    decreases it
  {
    if it.Declare? then forall m :: m in around ==> Neutral(m, it.decl.value)
    else Clear(around + {Closer(top, it)}, BodyTop(top, it), it.body)
  }

  // ---------------------------------------------------------------- the flat rules meant

  /** The declarations standing directly in a body. */
  function Own(items: seq<Item>): seq<Declaration> {
    if items == [] then []
    else (if items[0].Declare? then [items[0].decl] else []) + Own(items[1..])
  }

  /** Top level, in order: every style rule, each followed by what is nested in it. */
  function SheetRules(cd: Conditions, cx: Context, n: nat, items: seq<Item>): (seq<Rule>, nat)
    decreases items
  {
    if items == [] then ([], n)
    else
      var first := TopRules(cd, cx, n, items[0]);
      var rest := SheetRules(cd, cx, first.1, items[1..]);
      (first.0 + rest.0, rest.1)
  }

  function TopRules(cd: Conditions, cx: Context, n: nat, it: Item): (seq<Rule>, nat)
    decreases it
  {
    match it
    case Declare(_) => ([], n)
    case Style(sels, body) =>
      var deeper := BodyRules(cd, cx, n, sels, body);
      ([Rule(sels, Own(body), cx, false)] + deeper.0, deeper.1)
    case Group(name, prelude, body) =>
      match EnteredAtTop(cd, cx, n, name, prelude)
      case None => ([], n)
      case Some((inside, m)) =>
        var inner := SheetRules(cd, inside, m, body);
        if name == "starting-style" then (Marked(inner.0), n) else inner
  }

  /** Inside a style rule whose selectors, all the way down, are `path`. */
  function BodyRules(cd: Conditions, cx: Context, n: nat, path: seq<string>, items: seq<Item>): (seq<Rule>, nat)
    decreases items
  {
    if items == [] then ([], n)
    else
      var first := NestedRules(cd, cx, n, path, items[0]);
      var rest := BodyRules(cd, cx, first.1, path, items[1..]);
      (first.0 + rest.0, rest.1)
  }

  function NestedRules(cd: Conditions, cx: Context, n: nat, path: seq<string>, it: Item): (seq<Rule>, nat)
    decreases it
  {
    match it
    case Declare(_) => ([], n)
    case Style(sels, body) =>
      var deeper := BodyRules(cd, cx, n, Cross(path, sels), body);
      (OwnRule(Cross(path, sels), Own(body), cx) + deeper.0, deeper.1)
    case Group(name, prelude, body) =>
      match Entered(cd, cx, n, name, prelude)
      case None => ([], n)
      case Some((inside, m)) =>
        var deeper := BodyRules(cd, inside, m, path, body);
        var all := OwnRule(path, Own(body), inside) + deeper.0;
        (if name == "starting-style" then Marked(all) else all, deeper.1)
  }

  // ---------------------------------------------------------------- trimming

  lemma {:induction false} TrimLeftBlank(pre: string, s: string)
    requires Blank(pre)
    ensures TrimLeft(pre + s) == TrimLeft(s)
    decreases |pre|
  {
    if pre == "" {
      assert pre + s == s;
    } else {
      assert IsBlank(pre[0]);
      assert (pre + s)[1..] == pre[1..] + s;
      TrimLeftBlank(pre[1..], s);
    }
  }

  lemma {:induction false} TrimRightBlank(s: string, post: string)
    requires Blank(post)
    ensures TrimRight(s + post) == TrimRight(s)
    decreases |post|
  {
    if post == "" {
      assert s + post == s;
    } else {
      var k := |post| - 1;
      assert IsBlank(post[k]) && (s + post)[|s| + k] == post[k];
      assert (s + post)[..|s| + k] == s + post[..k];
      TrimRightBlank(s, post[..k]);
    }
  }

  /** Trimming takes the blanks around trimmed text and nothing else. */
  lemma TrimGap(pre: string, s: string, post: string)
    requires Blank(pre) && Blank(post) && Trimmed(s)
    ensures Trim(pre + s + post) == s
  {
    if s == "" {
      assert pre + s + post == pre + post + "";
      assert Blank(pre + post);
      TrimLeftBlank(pre + post, "");
    } else {
      assert pre + s + post == pre + (s + post);
      TrimLeftBlank(pre, s + post);
      assert (s + post)[0] == s[0];
      TrimRightBlank(s, post);
    }
  }

  // ---------------------------------------------------------------- selector lists

  lemma {:induction false} CommaAppend(a: string, b: string, depth: nat)
    requires Balanced(a, depth) && Comma(a, depth) == |a|
    ensures Comma(a + b, depth) == |a| + Comma(b, 0)
    decreases |a|
  {
    if a == "" {
      assert a + b == b;
    } else {
      assert (a + b)[1..] == a[1..] + b;
      CommaAppend(a[1..], b, if a[0] == '(' then depth + 1 else if a[0] == ')' then depth - 1 else depth);
    }
  }

  lemma {:induction false} BlankIsPlain(g: string)
    requires Blank(g)
    ensures Plain(g) && Balanced(g, 0) && Comma(g, 0) == |g|
    decreases |g|
  {
    if g != "" {
      assert IsBlank(g[0]);
      BlankIsPlain(g[1..]);
      forall i | 0 <= i < |g| ensures PlainChar(g[i]) { assert IsBlank(g[i]); }
    }
  }

  /** The selectors with the gap left in front of each. */
  function Spaced(gap: string, sels: seq<string>): seq<string> {
    if sels == [] then [] else [gap + sels[0]] + Spaced(gap, sels[1..])
  }

  predicate PlainSelectors(sels: seq<string>) {
    sels != [] && forall i :: 0 <= i < |sels| ==> PlainSelector(sels[i])
  }

  lemma {:induction false} ListOfJoined(pre: string, gap: string, sels: seq<string>)
    requires Blank(pre) && Blank(gap) && PlainSelectors(sels)
    ensures SelectorList(pre + Joined(gap, sels)) == [pre + sels[0]] + Spaced(gap, sels[1..])
    decreases |sels|
  {
    hide PlainSelector, SelectorList;
    var s := sels[0];
    if |sels| == 1 {
      OneOfList(pre, s);
      assert sels[1..] == [];
    } else {
      assert pre + Joined(gap, sels) == pre + s + "," + (gap + Joined(gap, sels[1..]));
      HeadOfList(pre, s, gap + Joined(gap, sels[1..]));
      ListOfJoined(gap, gap, sels[1..]);
    }
  }

  lemma OneOfList(pre: string, s: string)
    requires Blank(pre) && PlainSelector(s)
    ensures SelectorList(pre + s) == [pre + s] && Balanced(pre + s, 0) && Comma(pre + s, 0) == |pre + s|
  {
    hide Trimmed, Plain;
    BlankIsPlain(pre);
    BalancedAppend(pre, s, 0);
    CommaAppend(pre, s, 0);
  }

  lemma HeadOfList(pre: string, s: string, rest: string)
    requires Blank(pre) && PlainSelector(s)
    ensures SelectorList(pre + s + "," + rest) == [pre + s] + SelectorList(rest)
  {
    hide Trimmed, Plain, PlainSelector, Blank;
    OneOfList(pre, s);
    var head := pre + s;
    var tail := "," + rest;
    CommaAppend(head, tail, 0);
    assert tail[0] == ',' && Comma(tail, 0) == 0;
    assert head + tail == pre + s + "," + rest;
    assert (head + tail)[..|head|] == head && (head + tail)[|head| + 1..] == rest;
  }

  /** A printed list is kept as the selectors it was printed from. */
  lemma {:induction false} SpacedKept(gap: string, sels: seq<string>)
    requires Blank(gap) && forall i :: 0 <= i < |sels| ==> PlainSelector(sels[i])
    ensures Kept(Spaced(gap, sels)) == sels
    decreases |sels|
  {
    hide Trim, PlainSelector;
    if sels != [] {
      PlainIsTrimmed(sels[0]);
      TrimGap(gap, sels[0], "");
      assert gap + sels[0] + "" == gap + sels[0];
      SpacedKept(gap, sels[1..]);
    }
  }

  lemma {:induction false} SpacedNested(parents: seq<string>, gap: string, sels: seq<string>)
    requires Blank(gap) && forall i :: 0 <= i < |sels| ==> PlainSelector(sels[i])
    ensures Nested(parents, Spaced(gap, sels)) == Nested(parents, sels)
    decreases |sels|
  {
    hide Trim, PlainSelector, WithParents;
    if sels != [] {
      PlainIsTrimmed(sels[0]);
      TrimGap(gap, sels[0], "");
      assert gap + sels[0] + "" == gap + sels[0];
      SpacedNested(parents, gap, sels[1..]);
    }
  }

  lemma {:induction false} JoinedEnds(gap: string, sels: seq<string>)
    requires Blank(gap) && PlainSelectors(sels)
    ensures var j := Joined(gap, sels);
            && j != "" && Trimmed(j) && Plain(j) && Balanced(j, 0) && j[0] == sels[0][0]
            && (|j| > 1 ==> j[1] == if |sels[0]| > 1 then sels[0][1] else ',')
    decreases |sels|
  {
    hide Plain;
    assert PlainSelector(sels[0]);
    if |sels| > 1 {
      JoinedEnds(gap, sels[1..]);
      BlankIsPlain(gap);
      CommaIsPlain();
      PlainAppend(sels[0], ",");
      PlainAppend(sels[0] + ",", gap);
      PlainAppend(sels[0] + "," + gap, Joined(gap, sels[1..]));
    }
  }

  lemma CommaIsPlain()
    ensures Plain(",") && Balanced(",", 0)
  {
    assert ","[1..] == "";
  }

  /** What a rule takes from a printed header. */
  lemma HeaderKept(gap: string, sels: seq<string>)
    requires Blank(gap) && PlainSelectors(sels)
    ensures Trim(Joined(gap, sels) + gap) == Joined(gap, sels)
    ensures Kept(SelectorList(Joined(gap, sels))) == sels
    ensures Held(sels)
  {
    hide Trim, PlainSelector, SelectorList;
    JoinedEnds(gap, sels);
    TrimGap("", Joined(gap, sels), gap);
    assert "" + Joined(gap, sels) + gap == Joined(gap, sels) + gap;
    ListOfJoined("", gap, sels);
    assert "" + Joined(gap, sels) == Joined(gap, sels) && "" + sels[0] == sels[0];
    SpacedKept(gap, sels[1..]);
    PlainIsTrimmed(sels[0]);
    assert ([sels[0]] + Spaced(gap, sels[1..]))[1..] == Spaced(gap, sels[1..]);
    forall i | 0 <= i < |sels| ensures sels[i] != "" && Trimmed(sels[i]) { PlainIsTrimmed(sels[i]); }
  }

  /** What a nested rule takes from a printed header: the cross product with its parents. */
  lemma HeaderNested(parents: seq<string>, gap: string, sels: seq<string>)
    requires Blank(gap) && PlainSelectors(sels) && parents != [] && Held(parents)
    ensures NestedSelectors(parents, SelectorList(Joined(gap, sels))) == Cross(parents, sels)
    ensures Cross(parents, sels) != [] && Held(Cross(parents, sels))
    ensures Kept(Cross(parents, sels)) == Cross(parents, sels)
  {
    hide Trim, PlainSelector, SelectorList, WithParents, Held, Combined;
    ListOfJoined("", gap, sels);
    assert "" + Joined(gap, sels) == Joined(gap, sels) && "" + sels[0] == sels[0];
    var list := [sels[0]] + Spaced(gap, sels[1..]);
    SpacedNested(parents, gap, sels[1..]);
    assert list[1..] == Spaced(gap, sels[1..]);
    assert Nested(parents, list) == Nested(parents, sels);
    NestedIsCross(parents, sels);
    HeaderKept(gap, sels);
    CrossHolds(parents, sels);
    CrossPlaces(parents, sels, 0, 0);
    HeldIsKept(Cross(parents, sels));
  }

  lemma {:induction false} HeldIsKept(sels: seq<string>)
    requires Held(sels)
    ensures Kept(sels) == sels
    decreases |sels|
  {
    hide Trim;
    if sels != [] {
      TrimmedTrim(sels[0]);
      HeldIsKept(sels[1..]);
    }
  }
}
