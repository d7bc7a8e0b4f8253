/**
 The top-level statements that hold no rules: layer statements, font faces, at-rules the parser does not know,
 and comments.  What each is read as, whatever stands behind it.
 */
module CssStatements {
  import opened Options
  import opened Text
  import opened CssScan
  import opened CssDecls
  import opened CssSelectors
  import opened CssReading
  import opened CssTree
  import opened CssPrinted
  import opened CssRoundTrip
  import opened CssLostRules

  // ---------------------------------------------------------------- keywords

  predicate IsLetter(c: char) {
    'a' <= c <= 'z' || 'A' <= c <= 'Z' || c == '-'
  }

  predicate Letters(s: string) {
    s != "" && forall i :: 0 <= i < |s| ==> IsLetter(s[i])
  }

  /** What ends a keyword. */
  predicate AfterWord(tail: string) {
    tail != "" && (IsBlank(tail[0]) || tail[0] == '{' || tail[0] == ';')
  }

  lemma {:induction false} ReachLetters(w: string, tail: string)
    requires (forall i :: 0 <= i < |w| ==> IsLetter(w[i])) && AfterWord(tail)
    ensures Reach(Name, w + tail) == |w|
    decreases |w|
  {
    hide Scan, Step;
    if w == "" {
      assert w + tail == tail;
      StopsNow(tail);
    } else {
      OneByte(Name, START, w[0], w[1..] + tail);
      LetterStays(w[0]);
      assert [w[0]] + (w[1..] + tail) == w + tail;
      ReachLetters(w[1..], tail);
    }
  }

  lemma StopsNow(tail: string)
    requires AfterWord(tail)
    ensures Reach(Name, tail) == 0
  {
  }

  lemma LetterStays(c: char)
    requires IsLetter(c)
    ensures !Ends(Name, START, c) && Step(Name, START, c) == START
  {
  }

  /** A keyword is read in whatever case it is written. */
  lemma KeywordIsLowered(w: string, tail: string)
    requires Letters(w) && AfterWord(tail)
    ensures KeywordOf("@" + w + tail) == Lower(w)
  {
    hide Reach, Lower;
    var t := "@" + w + tail;
    ReachLetters(w, tail);
    assert t[1..] == w + tail && t[1..1 + |w|] == w;
  }

  // ---------------------------------------------------------------- layer statements

  /** A layer name as a statement holds it. */
  predicate LayerName(s: string) {
    s != "" && Trimmed(s) && Plain(s) && Balanced(s, 0) && ',' !in s && !OpensComment(s)
  }

  /** The names under the current layer. */
  function Dotted(layer: string, names: seq<string>): (r: seq<string>)
    ensures |r| == |names|
    ensures forall i :: 0 <= i < |names| ==> r[i] == if layer == "" then names[i] else layer + "." + names[i]
  {
    seq(|names|, i requires 0 <= i < |names| => if layer == "" then names[i] else layer + "." + names[i])
  }

  lemma NoComma(s: string, rest: string)
    requires ',' !in s
    ensures Find(s + ("," + rest), ",") == |s| && Find(s, ",") == |s|
  {
    var t := s + ("," + rest);
    assert t[|s|..] == "," + rest;
    forall k | 0 <= k < |s| ensures !("," <= t[k..]) && !("," <= s[k..]) {
      assert t[k..][0] == s[k] && s[k..][0] == s[k];
    }
    FindHere(t, ",", |s|);
    FindNowhere(s, ",");
  }

  lemma CommaStep(s: string, rest: string)
    requires ',' !in s
    ensures CommaList(s + ("," + rest)) == [s] + CommaList(rest) && CommaList(s) == [s]
  {
    hide Find;
    var all := s + ("," + rest);
    NoComma(s, rest);
    assert all[..|s|] == s && all[|s| + 1..] == rest;
  }

  lemma NamesStep(layer: string, part: string, rest: seq<string>, name: string)
    requires Trim(part) == name != ""
    ensures LayerNames(layer, [part] + rest)
            == [if layer == "" then name else layer + "." + name] + LayerNames(layer, rest)
  {
    hide Trim;
    assert ([part] + rest)[1..] == rest;
  }

  lemma DottedStep(layer: string, names: seq<string>)
    requires names != []
    ensures Dotted(layer, names)
            == [if layer == "" then names[0] else layer + "." + names[0]] + Dotted(layer, names[1..])
  {
  }

  /** Printed names, trimmed and put under the current layer, are the names. */
  lemma {:induction false} NamesRead(layer: string, pre: string, gap: string, names: seq<string>)
    requires Blank(pre) && Blank(gap) && names != [] && forall i :: 0 <= i < |names| ==> LayerName(names[i])
    ensures LayerNames(layer, CommaList(pre + Joined(gap, names))) == Dotted(layer, names)
    decreases |names|
  {
    hide Trim, Plain, CommaList, LayerNames, Dotted, Blank, Balanced;
    var s := names[0];
    assert LayerName(s);
    PartTrims(pre, s);
    DottedStep(layer, names);
    if |names| == 1 {
      CommaStep(pre + s, "");
      assert names[1..] == [];
      NamesStep(layer, pre + s, [], s);
      NoNames(layer);
      assert [pre + s] + [] == [pre + s];
    } else {
      var rest := gap + Joined(gap, names[1..]);
      CommaStep(pre + s, rest);
      assert pre + (s + "," + gap + Joined(gap, names[1..])) == (pre + s) + ("," + rest);
      NamesRead(layer, gap, gap, names[1..]);
      NamesStep(layer, pre + s, CommaList(rest), s);
    }
  }

  lemma PartTrims(pre: string, s: string)
    requires Blank(pre) && LayerName(s)
    ensures Trim(pre + s) == s && ',' !in pre + s
  {
    hide Trim, Plain, Balanced;
    BlankHasNoComma(pre);
    TrimGap(pre, s, "");
    assert pre + s + "" == pre + s;
  }

  lemma NoNames(layer: string)
    ensures LayerNames(layer, []) == [] && Dotted(layer, []) == []
  {
  }

  lemma BlankHasNoComma(g: string)
    requires Blank(g)
    ensures ',' !in g
  {
  }

  lemma {:induction false} NamesArePlain(gap: string, names: seq<string>)
    requires Blank(gap) && names != [] && forall i :: 0 <= i < |names| ==> LayerName(names[i])
    ensures var j := Joined(gap, names);
            j != "" && Trimmed(j) && Plain(j) && Balanced(j, 0) && !OpensComment(j)
    decreases |names|
  {
    hide Plain, Balanced;
    assert LayerName(names[0]);
    if |names| > 1 {
      NamesArePlain(gap, names[1..]);
      BlankIsPlain(gap);
      CommaIsPlain();
      PlainAppend(names[0], ",");
      PlainAppend(names[0] + ",", gap);
      PlainAppend(names[0] + "," + gap, Joined(gap, names[1..]));
    }
  }

  /** `@layer a, b;` declares its layers in order under the current one, and nothing more is read of it. */
  lemma LayerStatementReads(cd: Conditions, cx: Context, n: nat, gap: string, names: seq<string>, r: string)
    requires Blank(gap) && names != [] && forall i :: 0 <= i < |names| ==> LayerName(names[i])
    ensures var s := "@layer " + Joined(gap, names) + ";";
            ReadStatement(cd, cx, n, s + r) == Reading(NOTHING.(layers := Dotted(cx.layer, names)), n, |s|)
  {
    hide Trim, CommaList, LayerNames, Plain, Balanced, Joined, KeywordOf, OpeningOf, Dotted, LayerName, Trimmed;
    var list := Joined(gap, names);
    var t := "@layer " + list + ";" + r;
    NamesArePlain(gap, names);
    LayerOpens(list, r);
    assert "" + list == list;
    NamesRead(cx.layer, "", gap, names);
    TrimmedTrim(list);
    ListTaken(list, r);
    LayerIsLayer();
    assert ("@layer " + list + ";") + r == t;
  }

  lemma ListTaken(list: string, r: string)
    ensures ("@layer " + list + ";" + r)[7..7 + |list|] == list
  {
    LayerText(list, r);
    var t := "@layer " + list + ";" + r;
    assert t[7..7 + |list|] == t[7..][..|list|];
  }

  lemma LayerIsLayer()
    ensures "layer" != "media" && "layer" != "supports" && "layer" != ""
  {
    assert "layer"[0] == 'l' && "media"[0] == 'm' && "supports"[0] == 's';
  }

  lemma LayerOpens(list: string, r: string)
    requires list != "" && Trimmed(list) && Plain(list) && Balanced(list, 0) && !OpensComment(list)
    ensures var t := "@layer " + list + ";" + r;
            && KeywordOf(t) == "layer" && OpeningOf("layer", t) == Opening(7, 7 + |list|)
            && 7 + |list| < |t| && t[7 + |list|] == ';' && t[0] == '@'
  {
    hide Reach, Spaces, Plain, Balanced, Scan, Letters, AfterWord, KeywordFirst, Lower, KeywordOf, Blank, Trimmed;
    var t := "@layer " + list + ";" + r;
    var tail := " " + (list + (";" + r));
    LayerText(list, r);
    LayerIsLetters();
    SpaceAfter(list + (";" + r));
    KeywordIsLowered("layer", tail);
    ReachLetters("layer", tail);
    ListStarts(list, r);
    BlanksThen(" ", list + (";" + r));
    PlainIsNeutral(Head, list);
    StopsAtSemicolon();
    StopsAfter(Head, list, ";" + r);
  }

  lemma SpaceAfter(s: string)
    ensures AfterWord(" " + s)
  {
  }

  lemma LayerText(list: string, r: string)
    ensures var t, tail := "@layer " + list + ";" + r, " " + (list + (";" + r));
            && t == "@" + "layer" + tail && t[0] == '@' && |t| == 8 + |list| + |r| && t[7 + |list|] == ';'
            && t[1..] == "layer" + tail && t[6..] == tail && t[7..] == list + (";" + r)
  {
    assert "@layer " == "@" + "layer" + " ";
  }

  lemma StopsAtSemicolon()
    ensures Ends(Head, START, ';')
  {
  }

  lemma ListStarts(list: string, r: string)
    requires list != "" && Trimmed(list) && !OpensComment(list)
    ensures Starts(list + (";" + r)) && Blank(" ")
  {
  }

  lemma LayerIsLetters()
    ensures Letters("layer") && Lower("layer") == "layer" && KeywordFirst("layer") && !Bare("layer")
    ensures forall i :: 0 <= i < |"layer"| ==> IsLetter("layer"[i])
  {
    assert "layer"[0] == 'l' && "property"[0] == 'p' && "starting-style"[0] == 's' && "font-palette-values"[0] == 'f';
  }

  // ---------------------------------------------------------------- blocks without rules

  /** An at-rule whose block is no sheet of rules. */
  predicate Leaf(w: string) {
    Letters(w) && !GroupName(Lower(w)) && !Descriptive(Lower(w))
  }

  /** The at-rules of descriptors. */
  predicate Descriptive(name: string) {
    name == "property" || name == "font-palette-values"
  }

  lemma BareIs(name: string)
    ensures Bare(name) <==> Descriptive(name) || name == "starting-style"
    ensures GroupName(name) ==> (Bare(name) <==> name == "starting-style")
  {
    assert "property"[0] == 'p' && "font-palette-values"[0] == 'f' && "media"[0] == 'm' && "supports"[0] == 's'
           && "layer"[0] == 'l' && "container"[0] == 'c' && "scope"[0] == 's' && "starting-style"[0] == 's';
  }

  /** Where a leaf block opens and ends. */
  lemma LeafOpens(w: string, prelude: string, body: string, r: string)
    requires Leaf(w) && Plain(prelude) && Balanced(prelude, 0) && Passes(Braces, body)
    ensures var t := "@" + w + " " + prelude + "{" + body + "}" + r;
            var h := |w| + 2 + |prelude|;
            && t[0] == '@' && KeywordOf(t) == Lower(w) && OpeningOf(Lower(w), t).brace == h < |t| && t[h] == '{'
            && BodyEnd(t, h + 1) == h + 1 + |body| < |t| && t[h + 1..h + 1 + |body|] == body
  {
    hide Reach, Plain, Balanced, Scan, Lower, KeywordOf, Bare, KeywordFirst, GroupName, AfterWord, Passes;
    var t := "@" + w + " " + prelude + "{" + body + "}" + r;
    var rest := "{" + (body + "}" + r);
    var head := w + " " + prelude;
    LeafText(w, prelude, body, r);
    SpaceAfter(prelude + rest);
    KeywordIsLowered(w, " " + (prelude + rest));
    LettersPlain(w);
    AtIsPlain();
    PlainAppend(w, " ");
    PlainAppend(w + " ", prelude);
    PlainIsNeutral(Head, head);
    EndsAtBrace();
    StopsAfter(Head, head, rest);
    CutAtOwnBraceIff(Braces, body, r);
    NotFirst(w);
  }

  lemma LeafText(w: string, prelude: string, body: string, r: string)
    ensures var t, rest := "@" + w + " " + prelude + "{" + body + "}" + r, "{" + (body + "}" + r);
            var h := |w| + 2 + |prelude|;
            && t == "@" + w + (" " + (prelude + rest)) && t[0] == '@' && t[1..] == (w + " " + prelude) + rest
            && |t| == h + 2 + |body| + |r| && t[h] == '{' && t[h + 1..] == body + "}" + r
            && t[h + 1..h + 1 + |body|] == body
  {
    var t := "@" + w + " " + prelude + "{" + body + "}" + r;
    assert t == ("@" + w + " " + prelude) + ("{" + (body + "}" + r));
  }

  lemma NotFirst(w: string)
    requires Leaf(w)
    ensures !KeywordFirst(Lower(w)) && !Bare(Lower(w))
  {
    hide Bare;
    BareIs(Lower(w));
    GroupNameIs(Lower(w));
  }

  lemma LettersPlain(w: string)
    requires Letters(w)
    ensures Plain(w) && Balanced(w, 0)
  {
    NoParensBalanced(w);
    forall i | 0 <= i < |w| ensures PlainChar(w[i]) { assert IsLetter(w[i]); }
  }

  /**
   A block the parser has no use for is passed over to its closing brace; a font face is its declarations, in
   order, or nothing when there is none.
   */
  lemma LeafReads(cd: Conditions, cx: Context, n: nat, w: string, prelude: string, body: string, r: string)
    requires Leaf(w) && Plain(prelude) && Balanced(prelude, 0) && Passes(Braces, body)
    ensures var s := "@" + w + " " + prelude + "{" + body + "}";
            var faces := if Lower(w) == "font-face" && Declared(body) != [] then [Declared(body)] else [];
            ReadStatement(cd, cx, n, s + r) == Reading(NOTHING.(fonts := faces), n, |s|)
  {
    hide Declared, KeywordOf, OpeningOf, BodyEnd, Lower, Plain, Balanced, Passes, Bare;
    LeafOpens(w, prelude, body, r);
    LeafIsNoLayer(w);
  }

  lemma LeafIsNoLayer(w: string)
    requires Leaf(w)
    ensures !Grouping(Lower(w)) && !Bare(Lower(w)) && Lower(w) != "layer"
  {
    hide Bare;
    BareIs(Lower(w));
    GroupNameIs(Lower(w));
  }

  // ---------------------------------------------------------------- statements without a block

  /** Where such a statement ends. */
  lemma StatementOpens(w: string, prelude: string, r: string)
    requires Leaf(w) && Plain(prelude) && Balanced(prelude, 0)
    ensures var t := "@" + w + " " + prelude + ";" + r;
            var h := |w| + 2 + |prelude|;
            t[0] == '@' && KeywordOf(t) == Lower(w) && OpeningOf(Lower(w), t).brace == h < |t| && t[h] == ';'
  {
    hide Reach, Plain, Balanced, Scan, Lower, KeywordOf, Bare, KeywordFirst, GroupName, AfterWord;
    var head := w + " " + prelude;
    var rest := ";" + r;
    StatementText(w, prelude, r);
    SpaceAfter(prelude + rest);
    KeywordIsLowered(w, " " + (prelude + rest));
    LettersPlain(w);
    AtIsPlain();
    PlainAppend(w, " ");
    PlainAppend(w + " ", prelude);
    PlainIsNeutral(Head, head);
    StopsAtSemicolon();
    StopsAfter(Head, head, rest);
    NotFirst(w);
  }

  lemma StatementText(w: string, prelude: string, r: string)
    ensures var t := "@" + w + " " + prelude + ";" + r;
            && t == "@" + w + (" " + (prelude + (";" + r))) && t[0] == '@' && t[1..] == (w + " " + prelude) + (";" + r)
            && |t| == |w| + 3 + |prelude| + |r| && t[|w| + 2 + |prelude|] == ';'
  {
    var t := "@" + w + " " + prelude + ";" + r;
    assert t == ("@" + w + " " + prelude) + (";" + r);
  }

  /** A statement the parser has no use for, an import or a charset say, is passed over with its semicolon. */
  lemma StatementSkipped(cd: Conditions, cx: Context, n: nat, w: string, prelude: string, r: string)
    requires Leaf(w) && Plain(prelude) && Balanced(prelude, 0)
    ensures var s := "@" + w + " " + prelude + ";";
            ReadStatement(cd, cx, n, s + r) == Reading(NOTHING, n, |s|)
  {
    hide KeywordOf, OpeningOf, Lower, Plain, Balanced, Bare;
    StatementOpens(w, prelude, r);
    LeafIsNoLayer(w);
  }

  // ---------------------------------------------------------------- descriptors

  /** Descriptor rules read nothing: a closed block is passed over, a missing one leaves the semicolon unread. */
  lemma DescriptorsRead(cd: Conditions, cx: Context, n: nat, w: string, prelude: string, body: string, r: string)
    requires Letters(w) && Descriptive(Lower(w)) && Plain(prelude) && Balanced(prelude, 0) && Trimmed(prelude)
    requires prelude != "" && !OpensComment(prelude)
    ensures var s := "@" + w + " " + prelude + "{" + body + "}";
            Passes(Braces, body) ==> ReadStatement(cd, cx, n, s + r) == Reading(NOTHING, n, |s|)
    ensures var s := "@" + w + " " + prelude;
            ReadStatement(cd, cx, n, s + ";" + r) == Reading(NOTHING, n, |s|)
  {
    hide KeywordOf, OpeningOf, Lower, Plain, Balanced, Bare, Reach, Passes;
    BareIs(Lower(w));
    DescriptiveIsBare(Lower(w));
    var block := "{" + (body + "}" + r);
    DescriptorsOpen(w, prelude, block);
    DescriptorsOpen(w, prelude, ";" + r);
    CutAtOwnBraceIff(Braces, body, r);
    LeafText(w, prelude, body, r);
    StatementText(w, prelude, r);
    assert ("@" + w + " " + prelude + "{" + body + "}") + r == "@" + w + (" " + (prelude + block));
    assert ("@" + w + " " + prelude) + ";" + r == "@" + w + (" " + (prelude + (";" + r)));
  }

  lemma DescriptiveIsBare(name: string)
    requires Descriptive(name)
    ensures Bare(name) && !KeywordFirst(name) && !Grouping(name) && name != "font-face" && name != "starting-style"
    ensures name != "layer"
  {
    assert "property"[0] == 'p' && "font-palette-values"[5] == 'p' && "font-face"[5] == 'f' && "media"[0] == 'm'
           && "supports"[0] == 's' && "layer"[0] == 'l' && "container"[0] == 'c' && "scope"[0] == 's'
           && "starting-style"[0] == 's' && "font-palette-values"[0] == 'f';
  }

  lemma DescriptorsOpen(w: string, prelude: string, rest: string)
    requires Letters(w) && Descriptive(Lower(w)) && Plain(prelude) && Balanced(prelude, 0) && Trimmed(prelude)
    requires prelude != "" && !OpensComment(prelude) && rest != "" && (rest[0] == '{' || rest[0] == ';')
    ensures var t, p := "@" + w + (" " + (prelude + rest)), |w| + 2;
            t[0] == '@' && KeywordOf(t) == Lower(w) && OpeningOf(Lower(w), t) == Opening(p, p + |prelude|)
  {
    hide Plain, Balanced, Scan, Lower, KeywordOf, Spaces, Reach, Trimmed, OpeningOf, Letters, AfterWord, Bare,
         KeywordFirst;
    var t, tail := "@" + w + (" " + (prelude + rest)), " " + (prelude + rest);
    SpaceAfter(prelude + rest);
    KeywordIsLowered(w, tail);
    LettersAll(w);
    ReachBare(w, tail);
    DescriptiveIsBare(Lower(w));
    DescriptorText(w, prelude, rest);
    PreludeStartsHere(prelude, rest);
    BlanksThen(" ", prelude + rest);
    PlainIsNeutral(Head, prelude);
    EndsAtBrace();
    StopsAtSemicolon();
    StopsAfter(Head, prelude, rest);
    OpeningUnfolds(Lower(w), t, 1 + |w|, |prelude|);
  }

  lemma LettersAll(w: string)
    requires Letters(w)
    ensures forall i :: 0 <= i < |w| ==> IsLetter(w[i])
  {
  }

  lemma DescriptorText(w: string, prelude: string, rest: string)
    ensures var t, tail := "@" + w + (" " + (prelude + rest)), " " + (prelude + rest);
            && t[0] == '@' && t[1..] == w + tail && |w| + 2 <= |t| && t[1 + |w|..] == tail
            && t[2 + |w|..] == prelude + rest
  {
  }

  lemma OpeningUnfolds(name: string, t: string, a: nat, k: nat)
    requires t != "" && Bare(name) && !KeywordFirst(name) && name != "starting-style"
    requires a + 1 <= |t| && 1 + Reach(BareName, t[1..]) == a && Spaces(t[a..]) == 1 && Reach(Head, t[a + 1..]) == k
    ensures OpeningOf(name, t) == Opening(a + 1, a + 1 + k)
  {
    hide Bare, KeywordFirst, Spaces, Reach;
  }

  lemma PreludeStartsHere(prelude: string, rest: string)
    requires prelude != "" && Trimmed(prelude) && !OpensComment(prelude)
    requires rest != "" && (rest[0] == '{' || rest[0] == ';')
    ensures Starts(prelude + rest) && Blank(" ")
  {
  }

  lemma {:induction false} ReachBare(w: string, tail: string)
    requires (forall i :: 0 <= i < |w| ==> IsLetter(w[i])) && tail != "" && tail[0] == ' '
    ensures Reach(BareName, w + tail) == |w|
    decreases |w|
  {
    hide Scan, Step;
    if w == "" {
      assert w + tail == tail;
      StopsAtOnce(BareName, tail);
    } else {
      OneByte(BareName, START, w[0], w[1..] + tail);
      LetterStaysBare(w[0]);
      assert [w[0]] + (w[1..] + tail) == w + tail;
      ReachBare(w[1..], tail);
    }
  }

  lemma LetterStaysBare(c: char)
    requires IsLetter(c)
    ensures !Ends(BareName, START, c) && Step(BareName, START, c) == START
  {
  }

  // ---------------------------------------------------------------- blocks that may never end

  /**
   A grouping rule with any text behind its brace: its body is that text up to where the matcher finds the
   closing brace, all of it when there is none; an unclosed `@starting-style` is dropped.
   */
  lemma GroupRead(cd: Conditions, cx: Context, n: nat, gap: string, it: Item, tail: string)
    requires Blank(gap) && it.Group? && GoodItem(true, it)
    ensures var t, e := Header(gap, it) + ("{" + tail), Reach(Braces, tail);
            var used := |Header(gap, it)| + 1 + Past(tail, e);
            t != "" && ReadStatement(cd, cx, n, t)
            == if it.name == "starting-style" && e == |tail| then Reading(NOTHING, n, |t|)
               else
                 match EnteredAtTop(cd, cx, n, it.name, it.prelude)
                 case None => Reading(NOTHING, n, used)
                 case Some((inside, m)) =>
                   var inner := ReadSheet(cd, inside, m, tail[..e]);
                   if it.name == "starting-style" then
                     Reading(NOTHING.(rules := Marked(inner.sheet.rules)), n, used)
                   else Reading(inner.sheet, inner.anon, used)
  {
    hide Good, GoodItem, Header, KeywordOf, OpeningOf, PreludeOf, EnteredAtTop, ReadSheet, GroupName, Grouping, Bare,
         Reach;
    var h := Header(gap, it);
    var t := h + ("{" + tail);
    KeywordRead(gap, it, "{" + tail);
    OpeningRead(gap, it, tail);
    GoodGroupBody(true, it);
    GroupingNames(it.name);
    BareIs(it.name);
    GroupNameIs(it.name);
    HeaderThen(gap, it, tail);
    var e := Reach(Braces, tail);
    assert t[|h| + 1..|h| + 1 + e] == tail[..e];
  }

  lemma HeaderThen(gap: string, it: Item, tail: string)
    requires it.Group?
    ensures var h := Header(gap, it);
            var t := h + ("{" + tail);
            t[0] == '@' && |h| < |t| && t[|h|] == '{' && t[|h| + 1..] == tail && |t| == |h| + 1 + |tail|
  {
  }

  // ---------------------------------------------------------------- declarations of a face

  function Declares(ds: seq<Declaration>): seq<Item> {
    seq(|ds|, i requires 0 <= i < |ds| => Declare(ds[i]))
  }

  lemma {:induction false} DeclaredPrinted(gap: string, ds: seq<Declaration>)
    requires Blank(gap) && forall i :: 0 <= i < |ds| ==> GoodDeclaration(ds[i])
    ensures Declared(Print(gap, Declares(ds))) == ds
    decreases |ds|
  {
    DeclaredBehind("", gap, ds);
    assert "" + Print(gap, Declares(ds)) == Print(gap, Declares(ds));
  }

  /** The declarations of a printed body are those it was printed from. */
  lemma {:induction false} DeclaredBehind(pre: string, gap: string, ds: seq<Declaration>)
    requires Blank(pre) && Blank(gap) && forall i :: 0 <= i < |ds| ==> GoodDeclaration(ds[i])
    ensures Declared(pre + Print(gap, Declares(ds))) == ds
    decreases |ds|
  {
    hide Print, Declared, GoodDeclaration, Written;
    if ds == [] {
      assert Declares(ds) == [];
      PrintNothing(gap);
      BlankDeclares(pre);
      assert pre + "" == pre;
    } else {
      var d, rest := ds[0], ds[1..];
      var more := gap + Print(gap, Declares(rest));
      assert Declares(ds)[1..] == Declares(rest) && Declares(ds)[0] == Declare(d);
      PrintSplits(gap, Declares(ds));
      PieceCut(pre, d, more);
      assert pre + ((Written(d) + ";") + more) == pre + Written(d) + (";" + more);
      DeclaredBehind(gap, gap, rest);
      assert PrintItem(gap, Declare(d)) == Written(d) + ";" && [d] + rest == ds;
    }
  }

  lemma BlankDeclares(pre: string)
    requires Blank(pre)
    ensures Declared(pre) == []
  {
    hide Scan;
    BlankIsNeutral(Declarations, pre);
    BlankTrims(pre);
    if pre != "" {
      assert Pieces(pre) == [pre] && [pre][1..] == [];
      ReadNothing(pre);
      assert ReadAll([]) == [];
      assert ReadAll([pre]) == Read(pre) + ReadAll([pre][1..]);
    }
  }

  lemma ReadNothing(pre: string)
    requires Trim(pre) == ""
    ensures Read(pre) == []
  {
    hide Trim;
  }

  lemma BlankTrims(pre: string)
    requires Blank(pre)
    ensures Trim(pre) == ""
  {
    TrimGap(pre, "", "");
    assert pre + "" + "" == pre;
  }

  /** The first declaration is cut off at its semicolon. */
  lemma PieceCut(pre: string, d: Declaration, more: string)
    requires Blank(pre) && GoodDeclaration(d)
    ensures Declared(pre + Written(d) + (";" + more)) == [d] + Declared(more)
  {
    hide Scan, Pieces, Read, Written, Trim;
    var w := pre + Written(d);
    var s := w + (";" + more);
    WrittenReads(d);
    StatementNeutral(d);
    BlankIsNeutral(Declarations, pre);
    NeutralConcat(Declarations, pre, Written(d));
    SemicolonEnds();
    StopsAfter(Declarations, w, ";" + more);
    assert s[..|w|] == w && s[|w| + 1..] == more;
    PiecesStep(s);
    ReadBehind(pre, d);
    assert ([w] + Pieces(more))[1..] == Pieces(more);
  }

  lemma PiecesStep(s: string)
    requires Reach(Declarations, s) < |s|
    ensures var n := Reach(Declarations, s); Pieces(s) == [s[..n]] + Pieces(s[n + 1..])
  {
    hide Scan, Reach;
  }

  lemma SemicolonEnds()
    ensures Ends(Declarations, START, ';')
  {
  }

  lemma StatementNeutral(d: Declaration)
    requires GoodDeclaration(d)
    ensures Neutral(Declarations, Written(d))
  {
    hide Scan, Written, GoodProperty, WritableValue, NoImportant;
    ScansAlike(START, Written(d));
  }

  /** Blanks in front of a piece are trimmed. */
  lemma ReadBehind(pre: string, d: Declaration)
    requires Blank(pre) && GoodDeclaration(d)
    ensures Read(pre + Written(d)) == [d]
  {
    hide Read, Trim, Written, Neutral, NoCapitals, NoImportant, Pieces;
    WrittenTrimmed(d);
    WrittenIsRead(d);
    ReadsItself(d);
    TrimsAlike(pre, Written(d));
  }

  lemma ReadsItself(d: Declaration)
    requires GoodDeclaration(d)
    ensures ReadAs(d) == d
  {
    hide Neutral, WritableProperty, WritableValue;
  }

  lemma TrimsAlike(pre: string, w: string)
    requires Blank(pre) && w != "" && Trim(w) == w
    ensures Trim(pre + w) == w && Read(pre + w) == Read(w)
  {
    hide Find, Lower, StripEscapedNewlines;
    TrimLeftBlank(pre, w);
  }

  /** A printed font face becomes one face of exactly its declarations. */
  lemma FontFaceReads(cd: Conditions, cx: Context, n: nat, gap: string, ds: seq<Declaration>, r: string)
    requires Blank(gap) && ds != [] && (forall i :: 0 <= i < |ds| ==> GoodDeclaration(ds[i]))
    requires Passes(Braces, Print(gap, Declares(ds)))
    ensures var s := "@font-face {" + Print(gap, Declares(ds)) + "}";
            ReadStatement(cd, cx, n, s + r) == Reading(NOTHING.(fonts := [ds]), n, |s|)
  {
    hide Print, Declared, Passes, GoodDeclaration, ReadStatement, Lower;
    FontFaceIsLeaf();
    DeclaredPrinted(gap, ds);
    var body := Print(gap, Declares(ds));
    LeafReads(cd, cx, n, "font-face", "", body, r);
    assert "@" + "font-face" + " " + "" + "{" + body + "}" == "@font-face {" + body + "}";
  }

  lemma FontFaceIsLeaf()
    ensures Leaf("font-face") && Lower("font-face") == "font-face" && Plain("") && Balanced("", 0)
  {
    assert "font-face"[0] == 'f';
    assert "media"[0] == 'm' && "supports"[0] == 's' && "layer"[0] == 'l' && "container"[0] == 'c' && "scope"[0] == 's'
           && "starting-style"[0] == 's' && "property"[0] == 'p' && "font-palette-values"[5] == 'p'
           && "font-face"[5] == 'f';
  }

  // ---------------------------------------------------------------- comments

  /** Between the items of a block a comment leaves no trace. */
  lemma CommentSkippedInBlock(cd: Conditions, cx: Context, n: nat, c: string, rest: string, parents: seq<string>)
    requires Closes(c)
    ensures var b, s := ReadBlock(cd, cx, n, rest, parents), "/*" + c + "*/" + rest;
            ReadBlock(cd, cx, n, s, parents) == b.(used := |s|)
  {
    hide ReadBlock, Find, ReadNestedAtRule, ReadDeclarationOrRule;
    var s := "/*" + c + "*/" + rest;
    var k := |c| + 4;
    assert s[2..] == c + ("*/" + rest) && s[k..] == rest;
    CommentCloses(c, rest);
    assert CommentLength(s) == k;
    BlockSkips(cd, cx, n, s, k, parents);
  }

  lemma BlockSkips(cd: Conditions, cx: Context, n: nat, s: string, k: nat, parents: seq<string>)
    requires s != "" && !IsBlank(s[0]) && ReadItem(cd, cx, n, s, parents) == BlockReading([], [], n, k) && k <= |s|
    ensures ReadBlock(cd, cx, n, s, parents) == ReadBlock(cd, cx, n, s[k..], parents).(used := |s|)
  {
    hide ReadItem;
    assert s[0..] == s;
    var rest := ReadBlock(cd, cx, n, s[k..], parents);
    assert [] + rest.decls == rest.decls && [] + rest.rules == rest.rules;
  }

  // ---------------------------------------------------------------- statement after statement

  /** A sheet holds what its statements hold, each list in reading order. */
  lemma StatementThenSheet(cd: Conditions, cx: Context, n: nat, text: string)
    requires text != "" && Starts(text)
    ensures var first := ReadStatement(cd, cx, n, text);
            var rest := ReadSheet(cd, cx, first.anon, text[first.used..]);
            var all := ReadSheet(cd, cx, n, text);
            && all.sheet.rules == first.sheet.rules + rest.sheet.rules
            && all.sheet.layers == first.sheet.layers + rest.sheet.layers
            && all.sheet.fonts == first.sheet.fonts + rest.sheet.fonts
            && all.anon == rest.anon && all.used == |text|
  {
    hide ReadStatement, Starts;
    SheetStep(cd, cx, n, text, ReadStatement(cd, cx, n, text).used);
  }

  lemma CommentEndStep(x: char, s: string)
    requires s != ""
    ensures CommentEnd([x] + s) == if x == '*' && s[0] == '/' then 2 else 1 + CommentEnd(s)
  {
    assert ([x] + s)[1..] == s;
  }

  lemma {:induction false} CommentEndIs(c: string, rest: string)
    requires Closes(c)
    ensures CommentEnd(c + ("*/" + rest)) == |c| + 2
    decreases |c|
  {
    hide CommentEnd, Closes;
    var tail := "*/" + rest;
    if c == "" {
      CommentEndStep('*', "/" + rest);
      assert c + tail == ['*'] + ("/" + rest);
    } else {
      var s := c[1..] + tail;
      ClosesLater(c);
      CommentEndIs(c[1..], rest);
      CommentEndStep(c[0], s);
      assert c + tail == [c[0]] + s && s[0] == (c + "*/")[1];
    }
  }

  lemma ClosesLater(c: string)
    requires Closes(c) && c != ""
    ensures Closes(c[1..]) && !(c[0] == '*' && (c + "*/")[1] == '/')
  {
    var t := c + "*/";
    assert t[1..] == c[1..] + "*/";
    assert Find(t, "*/") == 1 + Find(t[1..], "*/");
    FindIsFirst(t, "*/", 0);
    assert t[0..] == t && t[0] == c[0];
  }

  /** Between top-level statements a comment leaves no trace. */
  lemma CommentSkipped(cd: Conditions, cx: Context, n: nat, c: string, rest: string)
    requires Closes(c)
    ensures var s := "/*" + c + "*/" + rest;
            ReadSheet(cd, cx, n, s) == ReadSheet(cd, cx, n, rest).(used := |s|)
  {
    hide ReadSheet, Spaces, CommentEnd, Closes;
    var s := "/*" + c + "*/" + rest;
    CommentEndIs(c, rest);
    assert s[2..] == c + ("*/" + rest) && s[0] == '/' && s[1] == '*' && s[|c| + 4..] == rest;
    SpacesSkip(s, |c| + 4);
    assert s[|c| + 4 + Spaces(rest)..] == rest[Spaces(rest)..];
    SameUnread(cd, cx, n, s, rest);
  }

  lemma SpacesSkip(s: string, k: nat)
    requires OpensComment(s) && 2 + CommentEnd(s[2..]) == k
    ensures Spaces(s) == k + Spaces(s[k..])
  {
    hide CommentEnd;
  }

  lemma SameUnread(cd: Conditions, cx: Context, n: nat, s: string, rest: string)
    requires s[Spaces(s)..] == rest[Spaces(rest)..]
    ensures ReadSheet(cd, cx, n, s) == ReadSheet(cd, cx, n, rest).(used := |s|)
  {
    hide ReadStatement, Spaces;
  }

  /** Of an unclosed one the last byte is left to be read as a statement. */
  lemma OpenCommentLeavesLast(c: string)
    requires Find(c, "*/") == |c| && c != ""
    ensures CommentEnd(c) == |c| - 1
  {
    if |c| > 1 {
      FindIsFirst(c, "*/", 0);
      assert c[0..] == c;
      assert Find(c, "*/") == 1 + Find(c[1..], "*/");
      OpenCommentLeavesLast(c[1..]);
    }
  }
}
