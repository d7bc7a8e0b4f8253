/** The brace matcher of top-level at-rules does not see strings: exactly when its cut is the right one. */
module CssBraces {
  import opened Options
  import opened Text
  import opened CssScan
  import opened CssDecls
  import opened CssSelectors
  import opened CssReading
  import opened CssTree
  import opened CssPrinted
  import opened CssRoundTrip

  /** The braces still open after a text, strings ignored; None when one closes that none has opened. */
  function OpenAfter(s: string, depth: nat): Option<nat> {
    if s == "" then Some(depth)
    else if s[0] == '{' then OpenAfter(s[1..], depth + 1)
    else if s[0] == '}' then (if depth == 0 then None else OpenAfter(s[1..], depth - 1))
    else OpenAfter(s[1..], depth)
  }

  /** The braces of a text match up, those in strings counted like any other. */
  predicate BracesMatch(s: string) {
    OpenAfter(s, 0) == Some(0)
  }

  function AtBraces(depth: nat): Lex {
    START.(braces := depth)
  }

  lemma {:induction false} BracesCounted(s: string, depth: nat)
    ensures var r, k := Scan(Braces, AtBraces(depth), s), OpenAfter(s, depth);
            if k.Some? then r == (|s|, AtBraces(k.value)) else r.0 < |s|
    decreases |s|
  {
    if s != "" && !Ends(Braces, AtBraces(depth), s[0]) {
      BracesCounted(s[1..], if s[0] == '{' then depth + 1 else if s[0] == '}' then depth - 1 else depth);
    }
  }

  /** The scanner of at-rule bodies passes over a text exactly when its braces match, strings ignored. */
  lemma PassesIffBracesMatch(b: string)
    ensures Passes(Braces, b) <==> BracesMatch(b)
  {
    BracesCounted(b, 0);
  }

  /**
   The body of a top-level at-rule ends where the string-aware scanner of nested blocks ends it exactly
   when its braces match with strings ignored.
   */
  lemma AtRuleBodyEndsRightIff(head: string, b: string, r: string)
    requires Passes(Block, b)
    ensures var t := head + "{" + b + "}" + r;
            var o := |head| + 1;
            && BlockEnd(t, o) == o + |b|
            && (BodyEnd(t, o) == BlockEnd(t, o) <==> BracesMatch(b))
  {
    hide Reach, Passes, BracesMatch;
    var t := head + "{" + b + "}" + r;
    assert t[|head| + 1..] == b + "}" + r;
    CutAtOwnBraceIff(Block, b, r);
    CutAtOwnBraceIff(Braces, b, r);
    PassesIffBracesMatch(b);
  }

  lemma DroppedToTheEnd(cd: Conditions, cx: Context, n: nat, t: string, h: nat, prelude: string)
    requires t != "" && h < |t| && KeywordOf(t) == "media" && OpeningOf("media", t).brace == h && t[h] == '{'
    requires PreludeOf("media", t, OpeningOf("media", t)) == prelude && !cd.media(prelude) && BodyEnd(t, h + 1) == |t|
    ensures ReadAtRule(cd, cx, n, t) == Reading(NOTHING, n, |t|)
  {
    hide KeywordOf, OpeningOf, PreludeOf, BodyEnd, ReadSheet;
    ConditionsAreNoKeywords("media");
    assert "media"[0] == 'm' && "font-face"[0] == 'f' && "scope"[0] == 's';
  }

  /** An unmatched opening brace in a dropped block takes the rest of the sheet with it. */
  lemma UnmatchedSwallows(cd: Conditions, cx: Context, n: nat, gap: string, it: Item, tail: string)
    requires Blank(gap) && it.Group? && GoodItem(true, it) && it.name == "media" && !cd.media(it.prelude)
    requires OpenAfter(tail, 0).Some?
    ensures ReadSheet(cd, cx, n, Header(gap, it) + ("{" + tail)).sheet == NOTHING
  {
    hide GoodItem, KeywordOf, OpeningOf, PreludeOf, Header, ReadAtRule, ReadRule, ReadSheet, OpenAfter, Starts, Scan;
    var t, h := Header(gap, it) + ("{" + tail), |Header(gap, it)|;
    KeywordRead(gap, it, "{" + tail);
    OpeningRead(gap, it, tail);
    assert t[h + 1..] == tail && t[h] == '{';
    BracesCounted(tail, 0);
    DroppedToTheEnd(cd, cx, n, t, h, it.prelude);
    HeaderBegins(gap, it, "{" + tail);
    SheetStep(cd, cx, n, t, |t|);
    assert t[|t|..] == "";
    NothingLeft(cd, cx, n, []);
  }

  lemma HeaderBegins(gap: string, it: Item, rest: string)
    requires it.Group?
    ensures var t := Header(gap, it) + rest; t != "" && t[0] == '@' && Starts(t)
  {
  }

  lemma StyleText(sel: string, d: Declaration)
    ensures PrintItem("", Style([sel], [Declare(d)])) == sel + ("{" + Written(d) + ";}")
    ensures Own([Declare(d)]) == [d]
  {
    hide Written;
    assert [Declare(d)][1..] == [];
    assert Print("", [Declare(d)]) == Written(d) + ";" + "" + Print("", []);
    assert Print("", []) == "";
    assert Header("", Style([sel], [Declare(d)])) == sel + "";
  }

  lemma TwoItemsText(one: Item, two: Item)
    ensures Print("", [one]) == PrintItem("", one)
    ensures Print("", [one, two]) == PrintItem("", one) + PrintItem("", two)
  {
    hide PrintItem;
    assert [one][1..] == [] && [two][1..] == [] && [one, two][1..] == [two];
    assert Print("", []) == "";
    assert PrintItem("", two) + "" + "" == PrintItem("", two) && PrintItem("", one) + "" == PrintItem("", one);
    assert Print("", [two]) == PrintItem("", two) + "" + Print("", []);
    assert Print("", [one, two]) == PrintItem("", one) + "" + Print("", [two]);
  }

  /** A sheet of a dropped block and a rule: only the rule is meant. */
  lemma DroppedThenRule(cd: Conditions, body: seq<Item>, sel: string, d: Declaration)
    requires !cd.media("x")
    ensures SheetRules(cd, TOP, 0, [CssTree.Group("media", "x", body), Style([sel], [Declare(d)])]).0
            == [Rule([sel], [d], TOP, false)]
  {
    var it, after := CssTree.Group("media", "x", body), Style([sel], [Declare(d)]);
    StyleText(sel, d);
    assert [it, after][1..] == [after] && [after][1..] == [] && [Declare(d)][1..] == [];
    assert "media"[0] == 'm' && "scope"[0] == 's';
    assert TopRules(cd, TOP, 0, it) == ([], 0);
    assert BodyRules(cd, TOP, 0, [sel], []) == ([], 0);
    assert BodyRules(cd, TOP, 0, [sel], [Declare(d)]).0 == [];
    assert TopRules(cd, TOP, 0, after).0 == [Rule([sel], [d], TOP, false)] + [];
    var m := TopRules(cd, TOP, 0, after).1;
    assert SheetRules(cd, TOP, m, []) == ([], m);
    assert SheetRules(cd, TOP, 0, [after]).0 == TopRules(cd, TOP, 0, after).0 + [];
    assert SheetRules(cd, TOP, 0, [it, after]).0 == [] + SheetRules(cd, TOP, 0, [after]).0;
  }

  /** `@media x{a{b:"{";}}c{d:e;}` on a screen where `x` is false: the rule for `c` is lost. */
  lemma QuotedBraceLosesRule(cd: Conditions)
    requires !cd.media("x")
    ensures var quoted := Style(["a"], [Declare(Declaration("b", "\"{\"", false))]);
            var after := Style(["c"], [Declare(Declaration("d", "e", false))]);
            var items := [CssTree.Group("media", "x", [quoted]), after];
            && Print("", items) == "@media x{a{b:\"{\";}}c{d:e;}"
            && ReadSheet(cd, TOP, 0, Print("", items)).sheet == NOTHING
            && SheetRules(cd, TOP, 0, items).0 == [Rule(["c"], [Declaration("d", "e", false)], TOP, false)]
  {
    hide ReadSheet, SheetRules, Print, OpenAfter, Header, GoodItem;
    var b, d := Declaration("b", "\"{\"", false), Declaration("d", "e", false);
    var quoted := Style(["a"], [Declare(b)]);
    var tail := "a{b:\"{\";}}c{d:e;}";
    QuotedText(b, d);
    BareMedia();
    TailStaysOpen();
    UnmatchedSwallows(cd, TOP, 0, "", CssTree.Group("media", "x", []), tail);
    DroppedThenRule(cd, [quoted], "c", d);
  }

  lemma QuotedText(b: Declaration, d: Declaration)
    requires b == Declaration("b", "\"{\"", false) && d == Declaration("d", "e", false)
    ensures Print("", [CssTree.Group("media", "x", [Style(["a"], [Declare(b)])]), Style(["c"], [Declare(d)])])
            == "@media x" + ("{" + "a{b:\"{\";}}c{d:e;}")
  {
    hide Print, PrintItem, Header, Written, Own;
    var quoted, after := Style(["a"], [Declare(b)]), Style(["c"], [Declare(d)]);
    var it := CssTree.Group("media", "x", [quoted]);
    StyleText("a", b);
    StyleText("c", d);
    WrittenText(b, d);
    TwoItemsText(quoted, quoted);
    TwoItemsText(it, after);
    GroupText(it);
    TextGlued();
  }

  lemma TextGlued()
    ensures "a" + ("{" + "b:\"{\"" + ";}") == "a{b:\"{\";}"
    ensures "c" + ("{" + "d:e" + ";}") == "c{d:e;}"
    ensures "@" + "media" + " " + "x" + "{" + "a{b:\"{\";}" + "}" == "@media x{a{b:\"{\";}}"
    ensures "@media x{a{b:\"{\";}}" + "c{d:e;}" == "@media x" + ("{" + "a{b:\"{\";}}c{d:e;}")
  {
  }

  lemma WrittenText(b: Declaration, d: Declaration)
    requires b == Declaration("b", "\"{\"", false) && d == Declaration("d", "e", false)
    ensures Written(b) == "b:\"{\"" && Written(d) == "d:e"
  {
  }

  lemma GroupText(it: Item)
    requires it.Group?
    ensures PrintItem("", it) == "@" + it.name + " " + it.prelude + "{" + Print("", it.body) + "}"
  {
    hide Print;
  }

  lemma BareMedia()
    ensures var bare := CssTree.Group("media", "x", []); GoodItem(true, bare) && Header("", bare) == "@media x"
  {
    assert "x"[1..] == "";
  }

  lemma {:induction false} OpenAppend(a: string, b: string, depth: nat)
    requires OpenAfter(a, depth).Some?
    ensures OpenAfter(a + b, depth) == OpenAfter(b, OpenAfter(a, depth).value)
    decreases |a|
  {
    if a == "" {
      assert a + b == b;
    } else {
      assert (a + b)[1..] == a[1..] + b;
      OpenAppend(a[1..], b, if a[0] == '{' then depth + 1 else if a[0] == '}' then depth - 1 else depth);
    }
  }

  lemma PiecesCounted()
    ensures OpenAfter("a{b:", 0) == Some(1) && OpenAfter("\"{\";", 1) == Some(2)
    ensures OpenAfter("}}c{", 2) == Some(1) && OpenAfter("d:e;}", 1) == Some(0)
  {
    assert "a{b:"[1..] == "{b:" && "{b:"[1..] == "b:" && "b:"[1..] == ":" && ":"[1..] == "";
    assert "\"{\";"[1..] == "{\";" && "{\";"[1..] == "\";" && "\";"[1..] == ";" && ";"[1..] == "";
    assert "}}c{"[1..] == "}c{" && "}c{"[1..] == "c{" && "c{"[1..] == "{" && "{"[1..] == "";
    assert "d:e;}"[1..] == ":e;}" && ":e;}"[1..] == "e;}" && "e;}"[1..] == ";}" && ";}"[1..] == "}" && "}"[1..] == "";
  }

  /** The quoted brace and the four others: nothing is left to close the block. */
  lemma TailStaysOpen()
    ensures OpenAfter("a{b:\"{\";}}c{d:e;}", 0) == Some(0)
  {
    hide OpenAfter;
    PiecesCounted();
    OpenAppend("}}c{", "d:e;}", 2);
    OpenAppend("\"{\";", "}}c{" + "d:e;}", 1);
    OpenAppend("a{b:", "\"{\";" + ("}}c{" + "d:e;}"), 0);
    assert "a{b:" + ("\"{\";" + ("}}c{" + "d:e;}")) == "a{b:\"{\";}}c{d:e;}";
  }
}
