/** Reading a printed tree gives its flat rules, whatever white space it was printed with. */
module CssRoundTrip {
  import opened Options
  import opened Text
  import opened CssScan
  import opened CssDecls
  import opened CssSelectors
  import opened CssReading
  import opened CssTree
  import opened CssPrinted

  /** A header, a braced body behind a gap, and what follows. */
  function Braced(h: string, gap: string, b: string, r: string): string {
    h + ("{" + (gap + (b + ("}" + r))))
  }

  /** Where the pieces of such a text lie. */
  lemma Parts(h: string, gap: string, b: string, r: string)
    ensures var t, o := Braced(h, gap, b, r), |h| + 1 + |gap|;
            && |t| == o + |b| + 1 + |r|
            && t[..|h|] == h && t[|h|] == '{' && t[|h| + 1..] == gap + (b + ("}" + r))
            && t[|h|..] == "{" + (gap + (b + ("}" + r)))
            && t[o..] == b + "}" + r && t[o..o + |b|] == b && t[|h| + 1..o + |b|] == gap + b
            && t[o + |b| + 1..] == r
  {
    var t, o := Braced(h, gap, b, r), |h| + 1 + |gap|;
    assert t[|h| + 1..] == gap + (b + ("}" + r));
    assert t[o..] == b + ("}" + r);
  }

  lemma PrintedIsBraced(gap: string, it: Item, r: string)
    requires !it.Declare?
    ensures PrintItem(gap, it) + r == Braced(Header(gap, it), gap, Print(gap, it.body), r)
  {
    hide Print, Header;
    Reassociate(Header(gap, it), gap, Print(gap, it.body), r);
  }

  lemma Reassociate(h: string, gap: string, b: string, r: string)
    ensures h + "{" + gap + b + "}" + r == Braced(h, gap, b, r)
  {
    assert "}" + r == "}" + r;
    assert b + "}" + r == b + ("}" + r);
    assert gap + b + "}" + r == gap + (b + ("}" + r));
  }

  /** A scan stops at the first brace or semicolon after neutral text. */
  lemma StopsAfter(m: Scanner, h: string, tail: string)
    requires Neutral(m, h) && tail != "" && Ends(m, START, tail[0])
    ensures Scan(m, START, h + tail) == (|h|, START) && Reach(m, h + tail) == |h|
  {
    hide Step, Ends;
    NeutralAppend(m, h, tail);
  }

  /** A body behind a gap is cut at its own brace exactly when the scanner passes over it. */
  lemma BodyEndsIff(m: Scanner, gap: string, b: string, r: string)
    requires Whole(m) && Blank(gap)
    ensures Reach(m, b + "}" + r) == |b| <==> Passes(m, b)
    ensures Reach(m, gap + (b + ("}" + r))) == |gap| + |b| <==> Passes(m, b)
  {
    hide Neutral, Reach, Passes;
    CutAtOwnBraceIff(m, b, r);
    BlankIsNeutral(m, gap);
    PassesBehind(m, gap, b);
    CutAtOwnBraceIff(m, gap + b, r);
    assert (gap + b) + "}" + r == gap + (b + ("}" + r));
  }

  lemma BraceStarts(r: string)
    ensures Starts("}" + r)
  {
  }

  lemma BodyStarts(top: bool, gap: string, body: seq<Item>, r: string)
    requires Blank(gap) && Good(top, body)
    ensures Starts(Print(gap, body) + ("}" + r))
    ensures Spaces(gap + (Print(gap, body) + ("}" + r))) == |gap|
  {
    hide Good, Print, Spaces, Starts;
    BraceStarts(r);
    PrintStarts(top, gap, body, "}" + r);
    BlanksThen(gap, Print(gap, body) + ("}" + r));
  }

  /** Where the pieces of a printed rule lie, with `r` after it. */
  lemma ItemParts(gap: string, it: Item, r: string)
    requires !it.Declare?
    ensures var t, b, h := PrintItem(gap, it) + r, Print(gap, it.body), |Header(gap, it)|;
            var o := h + 1 + |gap|;
            && |PrintItem(gap, it)| == o + |b| + 1 && |t| == o + |b| + 1 + |r|
            && t[..h] == Header(gap, it) && t[h] == '{' && t[h + 1..] == gap + (b + ("}" + r))
            && t[o..] == b + "}" + r && t[o..o + |b|] == b && t[h + 1..o + |b|] == gap + b
            && t == Header(gap, it) + ("{" + (gap + (b + ("}" + r))))
  {
    hide Header, Print, PrintItem;
    PrintedIsBraced(gap, it, r);
    Parts(Header(gap, it), gap, Print(gap, it.body), r);
  }

  lemma HeaderScanned(m: Scanner, top: bool, gap: string, it: Item, r: string)
    requires Blank(gap) && !it.Declare? && GoodItem(top, it) && (m.Selector? || m.Statement?)
    ensures Scan(m, START, PrintItem(gap, it) + r) == (|Header(gap, it)|, START)
    ensures Reach(m, PrintItem(gap, it) + r) == |Header(gap, it)|
  {
    hide Neutral, Reach, Scan, Print, PrintItem, Header, GoodItem, Ends, Step;
    ItemParts(gap, it, r);
    HeaderIsNeutral(m, top, gap, it);
    EndsAtBrace();
    StopsAfter(m, Header(gap, it), "{" + (gap + (Print(gap, it.body) + ("}" + r))));
  }

  lemma BlockScannedIff(gap: string, it: Item, r: string)
    requires Blank(gap) && !it.Declare?
    ensures var t, h := PrintItem(gap, it) + r, |Header(gap, it)|;
            h < |t|
            && (BlockEnd(t, h + 1) == h + 1 + |gap| + |Print(gap, it.body)| <==> Passes(Block, Print(gap, it.body)))
  {
    hide Passes, Reach, Scan, Print, PrintItem, Header;
    ItemParts(gap, it, r);
    BodyEndsIff(Block, gap, Print(gap, it.body), r);
  }

  // ---------------------------------------------------------------- style rules

  /** The pieces a top-level rule is cut into; its block ends at its own brace when its scanner passes over it. */
  lemma RuleOpens(gap: string, it: Item, r: string)
    requires Blank(gap) && it.Style? && GoodItem(true, it)
    ensures var t, b := PrintItem(gap, it) + r, Print(gap, it.body);
            var h := |Header(gap, it)|;
            var o := h + 1 + |gap|;
            && t != "" && t[0] != '@' && Reach(Selector, t) == h && h < |t| && o + |b| < |t|
            && Kept(SelectorList(Trim(t[..h]))) == it.selectors
            && Spaces(t[h + 1..]) == |gap| && (Reach(RuleBody, t[o..]) == |b| <==> Passes(RuleBody, b))
            && t[o..o + |b|] == b && |PrintItem(gap, it)| == o + |b| + 1
  {
    hide Passes, Reach, Scan, Print, PrintItem, Good, PlainSelector, Kept, SelectorList, Trim, Spaces;
    ItemParts(gap, it, r);
    HeaderScanned(Selector, true, gap, it, r);
    BodyStarts(false, gap, it.body, r);
    BodyEndsIff(RuleBody, gap, Print(gap, it.body), r);
    HeaderKept(gap, it.selectors);
    ItemStarts(true, gap, it, r);
  }

  lemma StyleReads(cd: Conditions, cx: Context, n: nat, gap: string, it: Item, r: string)
    requires Blank(gap) && it.Style? && GoodItem(true, it) && Passes(RuleBody, Print(gap, it.body))
    ensures var t := PrintItem(gap, it) + r;
            var b := ReadBlock(cd, cx, n, Print(gap, it.body), it.selectors);
            t != "" && ReadStatement(cd, cx, n, t)
            == Reading(NOTHING.(rules := [Rule(it.selectors, b.decls, cx, false)] + b.rules), b.anon,
                       |PrintItem(gap, it)|)
  {
    hide Reach, ReadBlock, Print, PrintItem, Header, Good, Kept, SelectorList, Trim, Spaces, Passes;
    RuleOpens(gap, it, r);
  }

  lemma EndsAtBrace()
    ensures Ends(Selector, START, '{') && Ends(Head, START, '{') && Ends(Prelude, START, '{')
    ensures Ends(Statement, START, '{') && Ends(Statement, START, ';')
  {
  }

  /** The pieces a nested rule is cut into. */
  lemma NestedRuleOpens(gap: string, it: Item, r: string, parents: seq<string>)
    requires Blank(gap) && it.Style? && GoodItem(false, it) && parents != [] && Held(parents)
    ensures var t, b := PrintItem(gap, it) + r, Print(gap, it.body);
            var h := |Header(gap, it)|;
            var e := h + 1 + |gap| + |b|;
            && t != "" && t[0] != '@' && !OpensComment(t) && Scan(Statement, START, t) == (h, START)
            && e < |t| && t[h] == '{'
            && NestedSelectors(parents, SelectorList(Trim(t[..h]))) == Cross(parents, it.selectors)
            && (BlockEnd(t, h + 1) == e <==> Passes(Block, b)) && t[h + 1..e] == gap + b
            && |PrintItem(gap, it)| == e + 1
  {
    hide Passes, Neutral, Reach, Scan, Print, PrintItem, Good, PlainSelector, Kept, SelectorList, Trim,
         NestedSelectors, Cross, Held, BlockEnd;
    ItemParts(gap, it, r);
    HeaderScanned(Statement, false, gap, it, r);
    BlockScannedIff(gap, it, r);
    HeaderKept(gap, it.selectors);
    HeaderNested(parents, gap, it.selectors);
    ItemStarts(false, gap, it, r);
  }

  lemma NestedStyleReads(cd: Conditions, cx: Context, n: nat, gap: string, it: Item, r: string, parents: seq<string>)
    requires Blank(gap) && it.Style? && GoodItem(false, it) && parents != [] && Held(parents)
    requires Passes(Block, Print(gap, it.body))
    ensures var t := PrintItem(gap, it) + r;
            var path := Cross(parents, it.selectors);
            var b := ReadBlock(cd, cx, n, Print(gap, it.body), path);
            path != [] && Held(path) && t != ""
            && ReadItem(cd, cx, n, t, parents)
               == BlockReading([], OwnRule(path, b.decls, cx) + b.rules, b.anon, |PrintItem(gap, it)|)
  {
    hide Scan, ReadBlock, Print, PrintItem, Header, Good, PlainSelector, Kept, SelectorList, Trim, NestedSelectors,
         Cross, Held, OwnRule, BlockEnd, Passes;
    NestedRuleOpens(gap, it, r, parents);
    HeaderNested(parents, gap, it.selectors);
    BodyStartsPlain(gap, it.body);
    GapSkippedInBlock(cd, cx, n, gap, Print(gap, it.body), Cross(parents, it.selectors));
  }

  lemma BodyStartsPlain(gap: string, body: seq<Item>)
    requires Blank(gap) && (Good(false, body) || Good(true, body))
    ensures Starts(Print(gap, body))
  {
    hide Good, Print;
    PrintStarts(!Good(false, body), gap, body, "");
    assert Print(gap, body) + "" == Print(gap, body);
  }

  // ---------------------------------------------------------------- declarations

  lemma DeclarationReads(cd: Conditions, cx: Context, n: nat, gap: string, it: Item, r: string, parents: seq<string>)
    requires Blank(gap) && it.Declare? && GoodItem(false, it)
    ensures ReadItem(cd, cx, n, PrintItem(gap, it) + r, parents)
            == BlockReading([it.decl], [], n, |PrintItem(gap, it)|)
  {
    hide Neutral, Reach, Scan, Trim, Ends, Step, Written, WritableValue, WritableProperty, NoCapitals, NoImportant,
         Declared;
    var w := Written(it.decl);
    WrittenReads(it.decl);
    WrittenTrimmed(it.decl);
    EndsAtBrace();
    StopsAfter(Statement, w, ";" + r);
    assert PrintItem(gap, it) + r == w + (";" + r);
    ItemStarts(false, gap, it, r);
  }

  // ---------------------------------------------------------------- at-rules

  lemma {:induction false} ReachWord(m: Scanner, w: string, tail: string)
    requires (m.Name? || m.BareName?) && Word(w) && tail != "" && tail[0] == ' '
    ensures Reach(m, w + tail) == |w|
    decreases |w|
  {
    hide Step, Ends, Scan;
    WordByte(m, w[0]);
    OneByte(m, START, w[0], w[1..] + tail);
    assert [w[0]] + (w[1..] + tail) == w + tail;
    if |w| > 1 {
      ReachWord(m, w[1..], tail);
    } else {
      assert w[1..] + tail == tail;
      StopsAtOnce(m, tail);
    }
  }

  lemma WordByte(m: Scanner, c: char)
    requires (m.Name? || m.BareName?) && ('a' <= c <= 'z' || c == '-')
    ensures !Ends(m, START, c) && Step(m, START, c) == START
  {
  }

  lemma StopsAtOnce(m: Scanner, tail: string)
    requires (m.Name? || m.BareName?) && tail != "" && tail[0] == ' '
    ensures Reach(m, tail) == 0
  {
  }

  /** An at-rule header with its parts in reading order. */
  lemma HeaderText(name: string, prelude: string, gap: string, rest: string)
    ensures var h := "@" + name + " " + prelude + gap;
            var t := h + rest;
            && |h| == |name| + 2 + |prelude| + |gap|
            && t[1..] == name + (" " + (prelude + (gap + rest))) && t[1..1 + |name|] == name
            && t[1 + |name|..] == " " + (prelude + (gap + rest)) && t[1 + |name|..|h|] == " " + prelude + gap
  {
    var t := "@" + name + " " + prelude + gap + rest;
    assert t[1 + |name|..] == " " + (prelude + (gap + rest));
  }

  /** The header of a grouping rule in pieces. */
  lemma GroupHeader(gap: string, it: Item, rest: string)
    requires Blank(gap) && it.Group? && (GoodItem(true, it) || GoodItem(false, it))
    ensures var t := Header(gap, it) + rest;
            && t[1..] == it.name + (" " + (it.prelude + (gap + rest)))
            && t[1..1 + |it.name|] == it.name && t[1 + |it.name|..] == " " + (it.prelude + (gap + rest))
            && |Header(gap, it)| == |it.name| + 2 + |it.prelude| + |gap|
            && t[1 + |it.name|..|Header(gap, it)|] == " " + it.prelude + gap
    ensures Word(it.name) && Lower(it.name) == it.name && Trim(" " + it.prelude + gap) == it.prelude
    ensures Reach(Name, it.name + (" " + (it.prelude + (gap + rest)))) == |it.name|
    ensures Reach(BareName, it.name + (" " + (it.prelude + (gap + rest)))) == |it.name|
    ensures Trim(it.name) == it.name
  {
    hide Plain, Balanced, Good, Lower, Trim, Reach, GroupName, Word, Trimmed;
    HeaderText(it.name, it.prelude, gap, rest);
    GroupingIsWord(it.name);
    WordIsPlain(it.name);
    TrimmedTrim(it.name);
    GoodPreludeTrims(gap, it);
    ReachWord(Name, it.name, " " + (it.prelude + (gap + rest)));
    ReachWord(BareName, it.name, " " + (it.prelude + (gap + rest)));
  }

  lemma GoodPreludeTrims(gap: string, it: Item)
    requires Blank(gap) && it.Group? && (GoodItem(true, it) || GoodItem(false, it))
    ensures Trim(" " + it.prelude + gap) == it.prelude
  {
    hide Good, Trim;
    TrimGap(" ", it.prelude, gap);
  }

  lemma KeywordRead(gap: string, it: Item, rest: string)
    requires Blank(gap) && it.Group? && (GoodItem(true, it) || GoodItem(false, it))
    ensures KeywordOf(Header(gap, it) + rest) == it.name
  {
    hide Good, GoodPrelude, Lower, Trim, Reach, GroupName, Word, Header;
    GroupHeader(gap, it, rest);
    assert (Header(gap, it) + rest)[1..][..|it.name|] == it.name;
  }

  /** The prelude is found between the keyword and the brace, and its blanks are trimmed. */
  lemma OpeningRead(gap: string, it: Item, tail: string)
    requires Blank(gap) && it.Group? && GoodItem(true, it)
    ensures var t := Header(gap, it) + ("{" + tail);
            var o := OpeningOf(it.name, t);
            o.brace == |Header(gap, it)| && PreludeOf(it.name, t, o) == it.prelude
  {
    if it.name == "media" || it.name == "supports" {
      ConditionOpens(gap, it, tail);
    } else {
      KeywordOpens(gap, it, tail);
    }
  }

  lemma ConditionOpens(gap: string, it: Item, tail: string)
    requires Blank(gap) && it.Group? && GoodItem(true, it) && (it.name == "media" || it.name == "supports")
    ensures var t := Header(gap, it) + ("{" + tail);
            var o := OpeningOf(it.name, t);
            o.brace == |Header(gap, it)| && PreludeOf(it.name, t, o) == it.prelude
  {
    hide Good, GoodPrelude, Lower, Trim, Reach, Word, Header, Spaces, Condition, Neutral;
    var t := Header(gap, it) + ("{" + tail);
    HeadReached(gap, it, tail);
    assert t[..|Header(gap, it)|] == Header(gap, it);
    ConditionRead(gap, it);
    ConditionsAreNoKeywords(it.name);
    assert "@" + "media" == "@media" && "@" + "supports" == "@supports";
  }

  lemma ConditionsAreNoKeywords(name: string)
    requires name == "media" || name == "supports"
    ensures !KeywordFirst(name) && !Bare(name)
  {
    assert "media"[0] == 'm' && "layer"[0] == 'l' && "scope"[0] == 's';
  }

  lemma KeywordPassed(gap: string, it: Item, tail: string)
    requires Blank(gap) && it.Group? && GoodItem(true, it)
    ensures AfterKeyword(it.name, Header(gap, it) + ("{" + tail))
            == 1 + |it.name| + if it.prelude == "" then 1 + |gap| else 1
  {
    hide Good, GoodItem, Lower, Trim, Reach, Word, Header, Spaces, Neutral, Bare;
    GroupHeader(gap, it, "{" + tail);
    PreludeReached(gap, it, tail);
  }

  /** Where the prelude and the brace are found. */
  lemma KeywordPlaces(gap: string, it: Item, tail: string)
    requires Blank(gap) && it.Group? && GoodItem(true, it) && (KeywordFirst(it.name) || Bare(it.name))
    ensures OpeningOf(it.name, Header(gap, it) + ("{" + tail))
            == Opening(if it.prelude == "" then |Header(gap, it)| else 2 + |it.name|, |Header(gap, it)|)
  {
    hide Good, Lower, Trim, Reach, Word, Header, Spaces, Neutral, Plain, Balanced, KeywordFirst, GroupName,
         AfterKeyword, Bare, OpensComment;
    var t := Header(gap, it) + ("{" + tail);
    GroupHeader(gap, it, "{" + tail);
    KeywordPassed(gap, it, tail);
    PreludeReached(gap, it, tail);
    var s := if it.prelude == "" then 1 + |gap| else 1;
    assert t[1 + |it.name|..][s..] == t[1 + |it.name| + s..];
  }

  lemma KeywordOpens(gap: string, it: Item, tail: string)
    requires Blank(gap) && it.Group? && GoodItem(true, it) && it.name != "media" && it.name != "supports"
    ensures var t := Header(gap, it) + ("{" + tail);
            var o := OpeningOf(it.name, t);
            o.brace == |Header(gap, it)| && PreludeOf(it.name, t, o) == it.prelude
  {
    hide Good, GoodPrelude, Trim, Header, OpeningOf;
    var t := Header(gap, it) + ("{" + tail);
    KeywordPlaces(gap, it, tail);
    if it.prelude == "" {
      assert t[|Header(gap, it)|..|Header(gap, it)|] == "";
      EmptyTrims();
    } else {
      PreludeTrims(gap, it, tail);
    }
  }

  lemma EmptyTrims()
    ensures Trim("") == ""
  {
  }

  lemma PreludeTrims(gap: string, it: Item, tail: string)
    requires Blank(gap) && it.Group? && GoodItem(true, it)
    ensures var t := Header(gap, it) + ("{" + tail); Trim(t[2 + |it.name|..|Header(gap, it)|]) == it.prelude
  {
    hide Good, Trim;
    var t := Header(gap, it) + ("{" + tail);
    TrimGap("", it.prelude, gap);
    assert t[2 + |it.name|..|Header(gap, it)|] == "" + it.prelude + gap;
  }

  /** The brace is the first after the keyword. */
  lemma HeadReached(gap: string, it: Item, tail: string)
    requires Blank(gap) && it.Group? && GoodItem(true, it)
    ensures var t := Header(gap, it) + ("{" + tail); 1 + Reach(Head, t[1..]) == |Header(gap, it)|
  {
    hide Good, Plain, Balanced, Neutral, Scan, Reach, Ends;
    var t := Header(gap, it) + ("{" + tail);
    HeaderIsPlain(true, gap, it);
    var h := Header(gap, it)[1..];
    RestIsPlain(Header(gap, it));
    PlainIsNeutral(Head, h);
    EndsAtBrace();
    StopsAfter(Head, h, "{" + tail);
    assert t[1..] == h + ("{" + tail);
  }

  lemma RestIsPlain(h: string)
    requires h != "" && Plain(h) && Balanced(h, 0) && h[0] == '@'
    ensures Plain(h[1..]) && Balanced(h[1..], 0)
  {
  }

  /** Spaces after the keyword, then the prelude up to the brace. */
  lemma PreludeReached(gap: string, it: Item, tail: string)
    requires Blank(gap) && it.Group? && GoodItem(true, it)
    ensures var rest := " " + (it.prelude + (gap + ("{" + tail)));
            var s := Spaces(rest);
            && s == (if it.prelude == "" then 1 + |gap| else 1)
            && s + Reach(Head, rest[s..]) == 1 + |it.prelude| + |gap|
  {
    hide Good, Plain, Balanced, Neutral, Scan, Reach, Ends, Spaces;
    EndsAtBrace();
    if it.prelude == "" {
      BlanksThen(" " + gap, "{" + tail);
      assert " " + (it.prelude + (gap + ("{" + tail))) == (" " + gap) + ("{" + tail);
      BlankIsNeutral(Head, "");
      StopsAfter(Head, "", "{" + tail);
      assert ((" " + gap) + ("{" + tail))[1 + |gap|..] == "" + ("{" + tail);
    } else {
      var body := it.prelude + (gap + ("{" + tail));
      PreludeStarts(gap, it, tail);
      BlanksThen(" ", body);
      assert (" " + body)[1..] == (it.prelude + gap) + ("{" + tail);
      BlankIsPlain(gap);
      PlainAppend(it.prelude, gap);
      PlainIsNeutral(Head, it.prelude + gap);
      StopsAfter(Head, it.prelude + gap, "{" + tail);
    }
  }

  lemma PreludeStarts(gap: string, it: Item, tail: string)
    requires Blank(gap) && it.Group? && GoodItem(true, it) && it.prelude != ""
    ensures Starts(it.prelude + (gap + ("{" + tail)))
  {
    hide Good;
    if |it.prelude| == 1 && gap != "" { assert IsBlank(gap[0]); }
  }

  lemma ConditionRead(gap: string, it: Item)
    requires Blank(gap) && it.Group? && GoodItem(true, it) && (it.name == "media" || it.name == "supports")
    ensures Condition(Header(gap, it), "@" + it.name) == it.prelude
  {
    hide Good, Plain, Balanced, Trim, Find;
    var key := "@" + it.name;
    GroupingIsWord(it.name);
    if it.prelude == "" {
      TrimGap("", key, " " + gap);
      assert Header(gap, it) == "" + key + (" " + gap);
      NoSpaceInWord(it.name);
      assert key[|key|..] == "";
      EmptyTrims();
    } else {
      var text := key + " " + it.prelude;
      TrimGap("", text, gap);
      assert Header(gap, it) == "" + text + gap;
      SpaceAfterWord(it.name, it.prelude);
      assert text[|key| + 1..] == it.prelude;
      TrimmedTrim(it.prelude);
    }
  }

  lemma NoSpaceInWord(w: string)
    requires Word(w)
    ensures Find("@" + w, " ") == |"@" + w|
  {
    var s := "@" + w;
    forall k | 0 <= k < |s| ensures !(" " <= s[k..]) { assert s[k..][0] == s[k]; }
    FindNowhere(s, " ");
  }

  lemma SpaceAfterWord(w: string, rest: string)
    requires Word(w)
    ensures Find("@" + w + " " + rest, " ") == |w| + 1
  {
    var s := "@" + w + " " + rest;
    assert s[|w| + 1..] == " " + rest;
    forall k | 0 <= k < |w| + 1 ensures !(" " <= s[k..]) { assert s[k..][0] == s[k]; }
    FindHere(s, " ", |w| + 1);
  }

  /** The pieces a top-level grouping rule is cut into. */
  lemma GroupOpens(gap: string, it: Item, r: string)
    requires Blank(gap) && it.Group? && GoodItem(true, it)
    ensures var t, b := PrintItem(gap, it) + r, Print(gap, it.body);
            var h := |Header(gap, it)|;
            var e := h + 1 + |gap| + |b|;
            && t != "" && t[0] == '@' && KeywordOf(t) == it.name && e < |t| && t[h] == '{'
            && OpeningOf(it.name, t).brace == h && PreludeOf(it.name, t, OpeningOf(it.name, t)) == it.prelude
            && (BodyEnd(t, h + 1) == e <==> Passes(Braces, b)) && t[h + 1..e] == gap + b
            && |PrintItem(gap, it)| == e + 1
  {
    hide Passes, Neutral, Reach, Scan, Print, PrintItem, Good, GoodItem, Header, KeywordOf, OpeningOf, PreludeOf;
    ItemParts(gap, it, r);
    var tail := gap + (Print(gap, it.body) + ("}" + r));
    KeywordRead(gap, it, "{" + tail);
    OpeningRead(gap, it, tail);
    BodyEndsIff(Braces, gap, Print(gap, it.body), r);
    ItemStarts(true, gap, it, r);
  }

  lemma GoodGroupBody(top: bool, it: Item)
    requires it.Group? && GoodItem(top, it)
    ensures Good(top, it.body) && Grouping(it.name)
  {
    GroupNameIs(it.name);
  }

  lemma GroupingNames(name: string)
    requires Grouping(name)
    ensures name != "font-face"
  {
    assert "container"[0] == 'c' && "font-face"[0] == 'f';
  }

  lemma GroupReads(cd: Conditions, cx: Context, n: nat, gap: string, it: Item, r: string)
    requires Blank(gap) && it.Group? && GoodItem(true, it) && Passes(Braces, Print(gap, it.body))
    ensures var t, b := PrintItem(gap, it) + r, Print(gap, it.body);
            t != "" && ReadStatement(cd, cx, n, t)
            == match EnteredAtTop(cd, cx, n, it.name, it.prelude)
               case None => Reading(NOTHING, n, |PrintItem(gap, it)|)
               case Some((inside, m)) =>
                 var inner := ReadSheet(cd, inside, m, b);
                 if it.name == "starting-style" then
                   Reading(NOTHING.(rules := Marked(inner.sheet.rules)), n, |PrintItem(gap, it)|)
                 else Reading(inner.sheet, inner.anon, |PrintItem(gap, it)|)
  {
    hide Print, PrintItem, Good, GoodItem, Header, KeywordOf, OpeningOf, PreludeOf, BodyEnd, EnteredAtTop, ReadSheet,
         Grouping, Bare, Passes;
    GroupOpens(gap, it, r);
    GoodGroupBody(true, it);
    GroupingNames(it.name);
    var b := Print(gap, it.body);
    BodyStartsPlain(gap, it.body);
    match EnteredAtTop(cd, cx, n, it.name, it.prelude)
    case None =>
    case Some((inside, m)) =>
      GapSkipped(cd, inside, m, gap, b);
  }

  /** The pieces a nested grouping rule is cut into. */
  lemma NestedGroupOpens(gap: string, it: Item, r: string)
    requires Blank(gap) && it.Group? && GoodItem(false, it)
    ensures var t, b := PrintItem(gap, it) + r, Print(gap, it.body);
            var h := |Header(gap, it)|;
            var e := h + 1 + |gap| + |b|;
            && t != "" && t[0] == '@' && !OpensComment(t) && e < |t| && t[h] == '{'
            && NestedOpeningOf(t) == NestedOpening(it.name, 1 + |it.name|, h) && 1 + |it.name| <= h
            && Trim(t[1 + |it.name|..h]) == it.prelude
            && (BlockEnd(t, h + 1) == e <==> Passes(Block, b)) && t[h + 1..e] == gap + b
            && |PrintItem(gap, it)| == e + 1
  {
    hide Passes, Neutral, Reach, Scan, Print, PrintItem, Good, GoodItem, Header, NestedOpeningOf, BlockEnd, Trim;
    ItemParts(gap, it, r);
    BlockScannedIff(gap, it, r);
    ItemStarts(false, gap, it, r);
    var tail := gap + (Print(gap, it.body) + ("}" + r));
    GroupHeader(gap, it, "{" + tail);
    NestedOpeningRead(gap, it, tail);
  }

  lemma NestedOpeningRead(gap: string, it: Item, tail: string)
    requires Blank(gap) && it.Group? && GoodItem(false, it)
    ensures var t := Header(gap, it) + ("{" + tail);
            t != "" && t[0] == '@' && NestedOpeningOf(t) == NestedOpening(it.name, 1 + |it.name|, |Header(gap, it)|)
  {
    hide Neutral, Scan, Good, GoodItem, Trim, Lower, Ends, Step, Plain, Balanced, Word;
    var t := Header(gap, it) + ("{" + tail);
    var after := " " + it.prelude + gap;
    GroupHeader(gap, it, "{" + tail);
    AtPasses(t);
    PreludeIsPlain(gap, it);
    PlainIsNeutral(Prelude, after);
    EndsAtBrace();
    StopsAfter(Prelude, after, "{" + tail);
    assert t[1 + |it.name|..] == after + ("{" + tail);
  }

  lemma PreludeIsPlain(gap: string, it: Item)
    requires Blank(gap) && it.Group? && GoodItem(false, it)
    ensures Plain(" " + it.prelude + gap) && Balanced(" " + it.prelude + gap, 0)
  {
    hide Plain, Balanced, Good;
    AtIsPlain();
    BlankIsPlain(gap);
    PlainAppend(" ", it.prelude);
    PlainAppend(" " + it.prelude, gap);
  }

  lemma AtPasses(t: string)
    requires t != "" && t[0] == '@'
    ensures Reach(Name, t) == 1 + Reach(Name, t[1..])
  {
    OneByte(Name, START, '@', t[1..]);
    assert ['@'] + t[1..] == t;
  }

  lemma NestedGroupReads(cd: Conditions, cx: Context, n: nat, gap: string, it: Item, r: string, parents: seq<string>)
    requires Blank(gap) && it.Group? && GoodItem(false, it) && Passes(Block, Print(gap, it.body))
    ensures var t, b := PrintItem(gap, it) + r, Print(gap, it.body);
            t != "" && ReadItem(cd, cx, n, t, parents)
            == match Entered(cd, cx, n, it.name, it.prelude)
               case None => BlockReading([], [], n, |PrintItem(gap, it)|)
               case Some((inside, m)) =>
                 var inner := ReadBlock(cd, inside, m, b, parents);
                 var all := OwnRule(parents, inner.decls, inside) + inner.rules;
                 BlockReading([], if it.name == "starting-style" then Marked(all) else all, inner.anon,
                              |PrintItem(gap, it)|)
  {
    hide Print, PrintItem, Good, GoodItem, Header, NestedOpeningOf, BlockEnd, Entered, ReadBlock, Trim, OwnRule,
         Passes;
    NestedGroupOpens(gap, it, r);
    GoodGroupBody(false, it);
    var b := Print(gap, it.body);
    BodyStartsPlain(gap, it.body);
    match Entered(cd, cx, n, it.name, it.prelude)
    case None =>
    case Some((inside, m)) =>
      GapSkippedInBlock(cd, inside, m, gap, b, parents);
  }

  // ---------------------------------------------------------------- the theorem

  lemma SheetStep(cd: Conditions, cx: Context, n: nat, text: string, k: nat)
    requires text != "" && Starts(text) && ReadStatement(cd, cx, n, text).used == k
    ensures var first := ReadStatement(cd, cx, n, text);
            var rest := ReadSheet(cd, cx, first.anon, text[k..]);
            ReadSheet(cd, cx, n, text) == Reading(Both(first.sheet, rest.sheet), rest.anon, |text|)
  {
    hide ReadStatement, Both;
    BlanksThen("", text);
    assert "" + text == text && text[0..] == text;
  }

  lemma BlockStep(cd: Conditions, cx: Context, n: nat, text: string, k: nat, parents: seq<string>)
    requires text != "" && Starts(text) && ReadItem(cd, cx, n, text, parents).used == k
    ensures var first := ReadItem(cd, cx, n, text, parents);
            var rest := ReadBlock(cd, cx, first.anon, text[k..], parents);
            ReadBlock(cd, cx, n, text, parents)
            == BlockReading(first.decls + rest.decls, first.rules + rest.rules, rest.anon, |text|)
  {
    hide ReadItem;
    BlanksThen("", text);
    assert "" + text == text && text[0..] == text;
  }

  lemma NothingLeft(cd: Conditions, cx: Context, n: nat, parents: seq<string>)
    ensures ReadSheet(cd, cx, n, "") == Reading(NOTHING, n, 0)
    ensures ReadBlock(cd, cx, n, "", parents) == BlockReading([], [], n, 0)
  {
  }

  lemma PrintSplits(gap: string, items: seq<Item>)
    requires items != []
    ensures Print(gap, items) == PrintItem(gap, items[0]) + (gap + Print(gap, items[1..]))
    ensures var p := PrintItem(gap, items[0]); Print(gap, items)[|p|..] == gap + Print(gap, items[1..])
  {
    hide PrintItem;
  }

  /**
   Reading the printed form of any tree of rules and grouping rules gives exactly its flat rules, in
   order, and the same count of anonymous layers.
   */
  lemma {:induction false} PrintedSheetReads(cd: Conditions, cx: Context, n: nat, gap: string, items: seq<Item>)
    requires Blank(gap) && Good(true, items) && Closed(gap, true, items)
    ensures var flat := SheetRules(cd, cx, n, items);
            ReadSheet(cd, cx, n, Print(gap, items))
            == Reading(NOTHING.(rules := flat.0), flat.1, |Print(gap, items)|)
    decreases items
  {
    hide Print, PrintItem, ReadSheet, ReadStatement, GoodItem, ClosedItem, TopRules, Starts;
    if items == [] {
      NothingLeft(cd, cx, n, []);
      PrintNothing(gap);
    } else {
      var it, rest := items[0], items[1..];
      var text := Print(gap, items);
      PrintSplits(gap, items);
      ItemStarts(true, gap, it, gap + Print(gap, rest));
      PrintedTopItemReads(cd, cx, n, gap, it, gap + Print(gap, rest));
      SheetStep(cd, cx, n, text, |PrintItem(gap, it)|);
      var m := TopRules(cd, cx, n, it).1;
      BodyStartsPlain(gap, rest);
      GapSkipped(cd, cx, m, gap, Print(gap, rest));
      PrintedSheetReads(cd, cx, m, gap, rest);
    }
  }

  lemma PrintNothing(gap: string)
    ensures Print(gap, []) == ""
  {
  }

  lemma {:induction false} PrintedTopItemReads(cd: Conditions, cx: Context, n: nat, gap: string, it: Item, r: string)
    requires Blank(gap) && GoodItem(true, it) && ClosedItem(gap, true, it)
    ensures var flat := TopRules(cd, cx, n, it);
            var t := PrintItem(gap, it) + r;
            t != "" && ReadStatement(cd, cx, n, t)
                       == Reading(NOTHING.(rules := flat.0), flat.1, |PrintItem(gap, it)|)
    decreases it
  {
    hide Print, PrintItem, ReadSheet, ReadBlock, ReadStatement, SheetRules, BodyRules, EnteredAtTop, Passes;
    if it.Style? {
      StyleReads(cd, cx, n, gap, it, r);
      HeaderKept(gap, it.selectors);
      PrintedBlockReads(cd, cx, n, gap, it.body, it.selectors);
    } else {
      GroupReads(cd, cx, n, gap, it, r);
      match EnteredAtTop(cd, cx, n, it.name, it.prelude)
      case None =>
      case Some((inside, m)) =>
        PrintedSheetReads(cd, inside, m, gap, it.body);
    }
  }

  /** The same inside a style rule whose selectors are `path`: its own declarations and the rules below. */
  lemma {:induction false} PrintedBlockReads(cd: Conditions, cx: Context, n: nat, gap: string, items: seq<Item>,
                                             path: seq<string>)
    requires Blank(gap) && Good(false, items) && Closed(gap, false, items) && path != [] && Held(path)
    ensures var flat := BodyRules(cd, cx, n, path, items);
            ReadBlock(cd, cx, n, Print(gap, items), path)
            == BlockReading(Own(items), flat.0, flat.1, |Print(gap, items)|)
    decreases items
  {
    hide Print, PrintItem, ReadBlock, ReadItem, GoodItem, ClosedItem, NestedRules, Starts, Held;
    if items == [] {
      NothingLeft(cd, cx, n, path);
      PrintNothing(gap);
    } else {
      var it, rest := items[0], items[1..];
      var text := Print(gap, items);
      PrintSplits(gap, items);
      ItemStarts(false, gap, it, gap + Print(gap, rest));
      PrintedNestedItemReads(cd, cx, n, gap, it, gap + Print(gap, rest), path);
      BlockStep(cd, cx, n, text, |PrintItem(gap, it)|, path);
      var m := NestedRules(cd, cx, n, path, it).1;
      BodyStartsPlain(gap, rest);
      GapSkippedInBlock(cd, cx, m, gap, Print(gap, rest), path);
      PrintedBlockReads(cd, cx, m, gap, rest, path);
    }
  }

  lemma {:induction false} PrintedNestedItemReads(cd: Conditions, cx: Context, n: nat, gap: string, it: Item, r: string,
                                                  path: seq<string>)
    requires Blank(gap) && GoodItem(false, it) && ClosedItem(gap, false, it) && path != [] && Held(path)
    ensures var flat := NestedRules(cd, cx, n, path, it);
            var t := PrintItem(gap, it) + r;
            t != "" && ReadItem(cd, cx, n, t, path)
                       == BlockReading(if it.Declare? then [it.decl] else [], flat.0, flat.1, |PrintItem(gap, it)|)
    decreases it
  {
    hide Print, PrintItem, ReadBlock, ReadItem, BodyRules, Entered, Cross, Held, OwnRule, Passes;
    match it
    case Declare(_) =>
      DeclarationReads(cd, cx, n, gap, it, r, path);
    case Style(sels, body) =>
      NestedStyleReads(cd, cx, n, gap, it, r, path);
      PrintedBlockReads(cd, cx, n, gap, body, Cross(path, sels));
    case Group(name, prelude, body) =>
      NestedGroupReads(cd, cx, n, gap, it, r, path);
      match Entered(cd, cx, n, name, prelude)
      case None =>
      case Some((inside, m)) =>
        PrintedBlockReads(cd, inside, m, gap, body, path);
  }
}
