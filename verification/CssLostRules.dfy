/** Three short sheets the scanners of blocks and of declarations cut in the wrong place, and what is read of each. */
module CssLostRules {
  import opened Options
  import opened Text
  import opened CssScan
  import opened CssDecls
  import opened CssSelectors
  import opened CssReading
  import opened CssTree
  import opened CssPrinted
  import opened CssRoundTrip
  import opened CssBlocks

  // ---------------------------------------------------------------- one rule, whatever stands in it

  lemma PlainHeader(sel: string)
    requires PlainSelector(sel)
    ensures Neutral(Selector, sel) && Neutral(Statement, sel) && Trim(sel) == sel && SelectorList(sel) == [sel]
    ensures Kept([sel]) == [sel]
  {
    hide Neutral, SelectorList, Trim, Kept;
    PlainIsNeutral(Selector, sel);
    PlainIsNeutral(Statement, sel);
    TrimmedTrim(sel);
    OneOfList("", sel);
    assert "" + sel == sel;
    HeldIsKept([sel]);
  }

  /** The head of a rule with one selector. */
  lemma RuleHead(sel: string, tail: string)
    requires PlainSelector(sel) && Starts(tail)
    ensures var t := sel + ("{" + tail);
            && t != "" && t[0] != '@' && Starts(t) && Reach(Selector, t) == |sel| < |t| && Spaces(t[|sel| + 1..]) == 0
            && t[|sel| + 1..] == tail && Kept(SelectorList(Trim(t[..|sel|]))) == [sel]
  {
    hide Scan, Kept, SelectorList, Trim, Spaces, Plain, Balanced;
    var t := sel + ("{" + tail);
    PlainHeader(sel);
    EndsAtBrace();
    StopsAfter(Selector, sel, "{" + tail);
    assert t[..|sel|] == sel && t[|sel| + 1..] == tail;
    BlanksThen("", tail);
    assert "" + tail == tail;
  }

  lemma RuleUnfolds(cd: Conditions, cx: Context, n: nat, t: string, h: nat, sel: string)
    requires t != "" && t[0] != '@' && Reach(Selector, t) == h < |t| && Spaces(t[h + 1..]) == 0
    requires Kept(SelectorList(Trim(t[..h]))) == [sel]
    ensures var e := h + 1 + Reach(RuleBody, t[h + 1..]);
            var b := ReadBlock(cd, cx, n, t[h + 1..e], [sel]);
            ReadStatement(cd, cx, n, t)
            == Reading(NOTHING.(rules := [Rule([sel], b.decls, cx, false)] + b.rules), b.anon, Past(t, e))
  {
    hide Reach, ReadBlock, Kept, SelectorList, Trim, Spaces, Past, ReadAtRule;
  }

  /** A top-level rule with one selector, up to where the scanner finds the end of its block. */
  lemma RuleRead(cd: Conditions, cx: Context, n: nat, sel: string, tail: string)
    requires PlainSelector(sel) && Starts(tail)
    ensures var t, e := sel + ("{" + tail), Reach(RuleBody, tail);
            var b := ReadBlock(cd, cx, n, tail[..e], [sel]);
            && Starts(t) && t != ""
            && ReadStatement(cd, cx, n, t)
               == Reading(NOTHING.(rules := [Rule([sel], b.decls, cx, false)] + b.rules), b.anon,
                          |sel| + 1 + Past(tail, e))
  {
    hide Reach, ReadBlock, Kept, SelectorList, Trim, Spaces, PlainSelector, Starts, ReadStatement;
    var t := sel + ("{" + tail);
    RuleHead(sel, tail);
    RuleUnfolds(cd, cx, n, t, |sel|, sel);
    assert t[|sel| + 1..|sel| + 1 + Reach(RuleBody, tail)] == tail[..Reach(RuleBody, tail)];
  }

  /** A rule and the sheet behind the place where it is cut. */
  lemma RuleThenSheet(cd: Conditions, sel: string, tail: string, e: nat)
    requires PlainSelector(sel) && Starts(tail) && Reach(RuleBody, tail) == e < |tail|
    ensures var b := ReadBlock(cd, TOP, 0, tail[..e], [sel]);
            ReadSheet(cd, TOP, 0, sel + ("{" + tail)).sheet.rules
            == [Rule([sel], b.decls, TOP, false)] + b.rules + ReadSheet(cd, TOP, b.anon, tail[e + 1..]).sheet.rules
  {
    hide ReadSheet, ReadStatement, ReadBlock, Reach, PlainSelector, Starts;
    var t := sel + ("{" + tail);
    RuleRead(cd, TOP, 0, sel, tail);
    SheetStep(cd, TOP, 0, t, |sel| + 1 + e + 1);
    assert t[|sel| + 1 + e + 1..] == tail[e + 1..];
  }

  /** The same for a rule nested under one parent. */
  lemma NestedRead(cd: Conditions, cx: Context, n: nat, sel: string, tail: string, parent: string)
    requires PlainSelector(sel) && parent != "" && Trimmed(parent)
    ensures var t, e := sel + ("{" + tail), Reach(Block, tail);
            var own := Combined(parent, sel);
            var b := ReadBlock(cd, cx, n, tail[..e], [own]);
            && Starts(t) && t != ""
            && ReadItem(cd, cx, n, t, [parent])
               == BlockReading([], OwnRule([own], b.decls, cx) + b.rules, b.anon, |sel| + 1 + Past(tail, e))
  {
    hide Scan, ReadBlock, Kept, SelectorList, Trim, Plain, Balanced, NestedSelectors, Combined, OwnRule;
    var t := sel + ("{" + tail);
    PlainHeader(sel);
    EndsAtBrace();
    StopsAfter(Statement, sel, "{" + tail);
    assert t[..|sel|] == sel && t[|sel| + 1..] == tail;
    assert t[|sel| + 1..|sel| + 1 + Reach(Block, tail)] == tail[..Reach(Block, tail)];
    HeaderNested([parent], "", [sel]);
    CrossSingle(parent, sel);
    assert Joined("", [sel]) == sel;
  }

  lemma CrossSingle(parent: string, sel: string)
    ensures Cross([parent], [sel]) == [Combined(parent, sel)]
  {
    assert [sel][1..] == [];
    assert Cross([parent], []) == [];
  }

  /** A declaration at the end of a block, with nothing to end it. */
  lemma LastDeclaration(cd: Conditions, cx: Context, n: nat, d: Declaration, parents: seq<string>)
    requires GoodProperty(d.property) && WritableValue(d.value) && NoImportant(d.value)
    requires Scan(Statement, START, Written(d)).0 == |Written(d)| && !Scan(Statement, START, Written(d)).1.bad
    ensures ReadBlock(cd, cx, n, Written(d), parents) == BlockReading([d], [], n, |Written(d)|)
  {
    hide Scan, Trim, Written, WritableProperty, WritableValue, NoImportant, Declared, ReadBlock, NoCapitals;
    var w := Written(d);
    ScansAlike(START, w);
    WrittenReadsIff(d);
    WrittenTrimmed(d);
    DeclarationBegins(d, "");
    WrittenHasColon(d);
    assert w + "" == w && w[..|w|] == w && w[|w|..] == "";
    WrittenStarts(d);
    BlockStep(cd, cx, n, w, |w|, parents);
    NothingLeft(cd, cx, n, parents);
  }

  lemma WrittenHasColon(d: Declaration)
    ensures ':' in Written(d)
  {
    assert Written(d)[|d.property|] == ':';
  }

  lemma WrittenStarts(d: Declaration)
    requires GoodProperty(d.property)
    ensures Starts(Written(d))
  {
    hide NoCapitals;
    assert Written(d)[0] == d.property[0] && PlainChar(d.property[0]);
  }

  lemma NoBang(v: string)
    requires '!' !in v
    ensures NoImportant(v)
  {
    forall k | 0 <= k < |v| ensures !(IMPORTANT <= Lower(v)[k..]) {
      assert Lower(v)[k..][0] == LowerChar(v[k]);
    }
    FindNowhere(Lower(v), IMPORTANT);
  }

  /** The text of a rule with one selector, with what follows. */
  lemma StyleIs(sel: string, first: Item, body: seq<Item>, others: seq<Item>)
    ensures Print("", [Style([sel], [first] + body)] + others)
            == sel + ("{" + (PrintItem("", first) + (Print("", body) + ("}" + Print("", others)))))
  {
    hide PrintItem;
    var it := Style([sel], [first] + body);
    PrintSplits("", [it] + others);
    PrintSplits("", [first] + body);
    assert ([it] + others)[1..] == others && ([first] + body)[1..] == body;
    PrintedIsBraced("", it, "" + Print("", others));
    assert Header("", it) == sel;
    var b := Print("", body);
    assert Print("", [first] + body) == PrintItem("", first) + b;
    Shuffle(PrintItem("", first), b, "}" + Print("", others));
    assert "" + ((PrintItem("", first) + b) + ("}" + Print("", others)))
           == PrintItem("", first) + (b + ("}" + Print("", others)));
  }

  lemma Shuffle(a: string, b: string, c: string)
    ensures (a + b) + c == a + (b + c)
  {
  }

  // ---------------------------------------------------------------- a quoted brace inside parentheses

  /** The first part of a value, open parenthesis and all. */
  lemma OpenCall(m: Scanner, p: string, rest: string)
    requires GoodProperty(p) && (m.RuleBody? || m.Statement? || m.Block?)
    ensures Scan(m, START, p + ":url" + rest)
            == (|p| + 4 + Scan(m, START, rest).0, Scan(m, START, rest).1)
  {
    hide Scan, Plain, Balanced, GoodProperty, Step, Ends;
    PropertyIsPlain(p);
    UrlIsPlain();
    PlainAppend(p, ":url");
    PlainIsNeutral(m, p + ":url");
    NeutralAppend(m, p + ":url", rest);
  }

  lemma PropertyIsPlain(p: string)
    requires GoodProperty(p)
    ensures Plain(p) && Balanced(p, 0)
  {
    hide Plain, NoCapitals;
    NoParensBalanced(p);
  }

  lemma UrlIsPlain()
    ensures Plain(":url") && Balanced(":url", 0)
  {
    NoParensBalanced(":url");
  }

  lemma CallSteps()
    ensures Scan(RuleBody, START, "(\"") == Scan(Statement, START, "(\"") == (2, START.(parens := 1))
    ensures Scan(Statement, START, "(\"}\")") == (5, START)
  {
    assert "(\""[1..] == "\"" && "\""[1..] == "";
    assert "(\"}\")"[1..] == "\"}\")" && "\"}\")"[1..] == "}\")" && "}\")"[1..] == "\")" && "\")"[1..] == ")"
           && ")"[1..] == "";
  }

  lemma UrlText(p: string, value: string, arg: string)
    requires value == "url" + arg
    ensures Written(Declaration(p, value, false)) == p + ":url" + arg
  {
    assert ":" + "url" == ":url";
  }

  /** `p:url("}")` is one good declaration. */
  lemma QuotedBraceIsGood(p: string)
    requires GoodProperty(p)
    ensures GoodDeclaration(Declaration(p, "url(\"}\")", false))
  {
    hide Scan, WritableProperty, NoCapitals, NoImportant, WritableValue, Written;
    var v := "url(\"}\")";
    UrlBraceValue();
    UrlText(p, v, "(\"}\")");
    OpenCall(Statement, p, "(\"}\")");
    CallSteps();
  }

  lemma UrlBraceValue()
    ensures WritableValue("url(\"}\")") && NoImportant("url(\"}\")") && "url(\"}\")" == "url" + "(\"}\")"
  {
    hide NoImportant, StripEscapedNewlines;
    NothingToStrip(NO_QUOTE, "url(\"}\")");
    NoBang("url(\"}\")");
  }

  /** `p:url("` read alone. */
  lemma OpenUrlRead(cd: Conditions, p: string, parents: seq<string>)
    requires GoodProperty(p)
    ensures var cut := Declaration(p, "url(\"", false);
            Written(cut) == p + ":url(\""
            && ReadBlock(cd, TOP, 0, p + ":url(\"", parents) == BlockReading([cut], [], 0, |p| + 6)
  {
    hide ReadBlock, Scan, Find, StripEscapedNewlines, NoCapitals, NoImportant, WritableProperty, Written;
    var v := "url(\"";
    NothingToStrip(NO_QUOTE, v);
    NoBang(v);
    assert v == "url" + "(\"";
    UrlText(p, v, "(\"");
    OpenCall(Statement, p, "(\"");
    CallSteps();
    assert p + ":url" + "(\"" == p + ":url(\"";
    LastDeclaration(cd, TOP, 0, Declaration(p, v, false), parents);
  }

  /** A string that is never closed takes the rest of the sheet. */
  lemma OpenStringReads(cd: Conditions, s: string)
    requires '"' !in s && '\\' !in s && '\n' !in s
    ensures ReadSheet(cd, TOP, 0, "\"" + s) == Reading(NOTHING, 0, 1 + |s|)
  {
    hide ReadSheet, Scan, ReadBlock, SelectorList, Kept;
    var t := "\"" + s;
    assert t == ['"'] + s;
    StringRuns(Selector, '"', s);
    OneByte(Selector, START, '"', s);
    SheetStep(cd, TOP, 0, t, |t|);
    assert t[|t|..] == "";
    NothingLeft(cd, TOP, 0, []);
  }

  lemma QuotedBraceCutAt(p: string, s: string)
    requires GoodProperty(p)
    ensures var tail := p + ":url(\"" + ("}\"" + s); Reach(RuleBody, tail) == |p| + 6 && Starts(tail)
  {
    hide Scan, NoCapitals;
    var tail := p + ":url(\"" + ("}\"" + s);
    OpenCall(RuleBody, p, "(\"");
    CallSteps();
    assert p + ":url" + "(\"" == p + ":url(\"";
    ScanAppend(RuleBody, START, p + ":url(\"", "}\"" + s);
    StopsAtBrace("}\"" + s);
    WrittenStarts(Declaration(p, "", false));
    assert tail[0] == p[0] && PlainChar(p[0]) && tail[1] == if |p| > 1 then p[1] else ':';
  }

  lemma StopsAtBrace(rest: string)
    requires rest != "" && rest[0] == '}'
    ensures Scan(RuleBody, START.(parens := 1), rest).0 == 0
  {
  }

  /** What is read where a rule is cut at the brace in `url("}`. */
  lemma CutRuleReads(cd: Conditions, sel: string, p: string, s: string)
    requires PlainSelector(sel) && GoodProperty(p) && '"' !in s && '\\' !in s && '\n' !in s
    ensures ReadSheet(cd, TOP, 0, sel + ("{" + (p + ":url(\"" + ("}\"" + s)))).sheet.rules
            == [Rule([sel], [Declaration(p, "url(\"", false)], TOP, false)]
  {
    hide ReadSheet, ReadStatement, ReadBlock, Reach, PlainSelector, Starts, GoodProperty, Written;
    var head := p + ":url(\"";
    var tail := head + ("}\"" + s);
    QuotedBraceCutAt(p, s);
    assert tail[..|head|] == head && tail[|head| + 1..] == "\"" + s;
    OpenUrlRead(cd, p, [sel]);
    RuleThenSheet(cd, sel, tail, |head|);
    OpenStringReads(cd, s);
  }

  /**
   `a{b:url("}");...}...`: the block of the rule is cut at the quoted brace; what follows in it and every later
   rule are lost, unless another quote comes.
   */
  lemma QuotedBraceCutsRule(cd: Conditions, sel: string, p: string, body: seq<Item>, others: seq<Item>)
    requires PlainSelector(sel) && GoodProperty(p)
    requires var r := Print("", body) + ("}" + Print("", others)); '"' !in r && '\\' !in r && '\n' !in r
    ensures var d := Declaration(p, "url(\"}\")", false);
            && GoodDeclaration(d)
            && ReadSheet(cd, TOP, 0, Print("", [Style([sel], [Declare(d)] + body)] + others)).sheet.rules
               == [Rule([sel], [Declaration(p, "url(\"", false)], TOP, false)]
  {
    hide ReadSheet, Print, GoodProperty, GoodDeclaration, Written, PlainSelector;
    var d := Declaration(p, "url(\"}\")", false);
    var r := Print("", body) + ("}" + Print("", others));
    QuotedBraceIsGood(p);
    StyleIs(sel, Declare(d), body, others);
    assert d.value == "url" + "(\"}\")";
    UrlText(p, d.value, "(\"}\")");
    CutRuleReads(cd, sel, p, ");" + r);
    Shift(p, r);
  }

  lemma Shift(p: string, r: string)
    ensures (p + ":url" + "(\"}\")" + ";") + r == p + ":url(\"" + ("}\"" + (");" + r))
  {
  }

  // ---------------------------------------------------------------- a quoted parenthesis

  lemma ParenSteps()
    ensures Scan(RuleBody, START, "(')'") == Scan(Statement, START, "(')'") == (4, START.(quote := '\''))
    ensures Scan(Statement, START, "(')") == Scan(RuleBody, START, "(')") == (3, START)
    ensures Scan(Block, START, "('") == (2, START.(quote := '\''))
  {
    hide Scan;
    CountedSteps(RuleBody);
    CountedSteps(Statement);
    UncountedSteps();
  }

  lemma CountedSteps(m: Scanner)
    requires m.RuleBody? || m.Statement?
    ensures Scan(m, START, "(')'") == (4, START.(quote := '\''))
    ensures Scan(m, START, "(')") == (3, START)
  {
    assert "(')'"[1..] == "')'" && "')'"[1..] == ")'" && ")'"[1..] == "'" && "'"[1..] == "";
    assert "(')"[1..] == "')" && "')"[1..] == ")" && ")"[1..] == "";
  }

  lemma UncountedSteps()
    ensures Scan(Block, START, "('") == (2, START.(quote := '\''))
  {
    assert "('"[1..] == "'" && "'"[1..] == "";
  }

  /** A scan that enters a string behind `p:url` goes on to the end when the string is never closed. */
  lemma CallNeverCloses(m: Scanner, p: string, arg: string, s: string)
    requires GoodProperty(p) && (m.RuleBody? || m.Statement? || m.Block?)
    requires Scan(m, START, arg) == (|arg|, START.(quote := '\'')) && '\'' !in s && '\\' !in s && '\n' !in s
    ensures Scan(m, START, p + ":url" + (arg + s)) == (|p| + 4 + |arg| + |s|, START.(quote := '\''))
  {
    hide Scan, GoodProperty;
    OpenCall(m, p, arg + s);
    ScanAppend(m, START, arg, s);
    StringRuns(m, '\'', s);
  }

  /** A value that takes everything to the end of the sheet. */
  lemma SwallowedReads(cd: Conditions, sel: string, p: string, s: string)
    requires PlainSelector(sel) && GoodProperty(p) && '\'' !in s && '\\' !in s && '\n' !in s && '!' !in s
    requires s != "" && !IsSpace(s[|s| - 1])
    ensures ReadSheet(cd, TOP, 0, sel + ("{" + (p + ":url" + ("(')'" + s)))).sheet.rules
            == [Rule([sel], [Declaration(p, "url" + ("(')'" + s), false)], TOP, false)]
  {
    hide ReadSheet, ReadStatement, ReadBlock, Scan, PlainSelector, Starts, GoodProperty, Written, WritableValue,
         NoImportant;
    var arg := "(')'" + s;
    var d := Declaration(p, "url" + arg, false);
    var tail := p + ":url" + arg;
    var t := sel + ("{" + tail);
    ParenSteps();
    CallNeverCloses(RuleBody, p, "(')'", s);
    CallNeverCloses(Statement, p, "(')'", s);
    UrlText(p, d.value, arg);
    SwallowedValue(s);
    WrittenStarts(d);
    LastDeclaration(cd, TOP, 0, d, [sel]);
    RuleRead(cd, TOP, 0, sel, tail);
    assert tail[..|tail|] == tail;
    SheetStep(cd, TOP, 0, t, |t|);
    assert t[|t|..] == "";
    NothingLeft(cd, TOP, 0, []);
  }

  lemma SwallowedValue(s: string)
    requires '\\' !in s && '!' !in s && s != "" && !IsSpace(s[|s| - 1])
    ensures WritableValue("url" + ("(')'" + s)) && NoImportant("url" + ("(')'" + s))
  {
    hide NoImportant, StripEscapedNewlines;
    var v := "url" + ("(')'" + s);
    assert v == "url(')'" + s;
    NothingToStrip(NO_QUOTE, v);
    NoBang(v);
  }

  lemma {:induction false} PrintEnds(items: seq<Item>)
    ensures var s := "}" + Print("", items); !IsSpace(s[|s| - 1])
    decreases |items|
  {
    hide Print, PrintItem;
    PrintNothing("");
    if items != [] {
      PrintEnds(items[1..]);
      PrintSplits("", items);
      ItemEnds(items[0]);
      var first, rest := PrintItem("", items[0]), Print("", items[1..]);
      assert Print("", items) == first + rest;
      LastOf(first, rest);
    }
  }

  lemma ItemEnds(it: Item)
    ensures var s := PrintItem("", it); s != "" && (s[|s| - 1] == ';' || s[|s| - 1] == '}')
  {
    hide Print, Written, Header;
  }

  lemma LastOf(a: string, b: string)
    requires a != "" && !IsSpace(a[|a| - 1]) && !IsSpace(("}" + b)[|b|])
    ensures var s := "}" + (a + b); !IsSpace(s[|s| - 1])
  {
    if b != "" { assert ("}" + b)[|b|] == b[|b| - 1]; }
  }

  /**
   `a{b:url(')');...}...`: the string opened behind the parenthesis is never closed, and the value of `b` takes
   the rest of the sheet.
   */
  lemma QuotedParenthesisSwallows(cd: Conditions, sel: string, p: string, body: seq<Item>, others: seq<Item>)
    requires PlainSelector(sel) && GoodProperty(p)
    requires var r := Print("", body) + ("}" + Print("", others));
             '\'' !in r && '\\' !in r && '\n' !in r && '!' !in r
    ensures var d := Declaration(p, "url(')')", false);
            var r := Print("", body) + ("}" + Print("", others));
            ReadSheet(cd, TOP, 0, Print("", [Style([sel], [Declare(d)] + body)] + others)).sheet.rules
            == [Rule([sel], [Declaration(p, "url" + ("(')'" + (");" + r)), false)], TOP, false)]
  {
    hide ReadSheet, Print, GoodProperty, Written, PlainSelector;
    var d := Declaration(p, "url(')')", false);
    var r := Print("", body) + ("}" + Print("", others));
    StyleIs(sel, Declare(d), body, others);
    assert d.value == "url" + "(')')";
    UrlText(p, d.value, "(')')");
    PrintEnds(others);
    SwallowedReads(cd, sel, p, ");" + r);
    ShiftParen(p, r);
  }

  lemma ShiftParen(p: string, r: string)
    ensures (p + ":url" + "(')')" + ";") + r == p + ":url" + ("(')'" + (");" + r))
  {
  }

  // ---------------------------------------------------------------- a quote inside parentheses

  /** A declaration behind a stray brace. */
  lemma StrayReads(cd: Conditions, e: Declaration, parents: seq<string>)
    requires GoodDeclaration(e) && !e.important
    ensures var s := "}" + Written(e) + ";";
            ReadBlock(cd, TOP, 0, s, parents)
            == BlockReading([Declaration("}" + e.property, e.value, false)], [], 0, |s|)
  {
    hide ReadBlock, Scan, Written, GoodDeclaration, Declared, Trim;
    var w := "}" + Written(e);
    var s := w + ";";
    assert s == w + ([';'] + "");
    StrayIsStatement(e);
    StatementStops(w, ';', "");
    StrayDeclared(e);
    assert s[..|w|] == w && s[|s|..] == "";
    BlockStep(cd, TOP, 0, s, |s|, parents);
    NothingLeft(cd, TOP, 0, parents);
  }

  lemma StrayIsStatement(e: Declaration)
    requires GoodDeclaration(e)
    ensures Neutral(Statement, "}" + Written(e))
  {
    hide Scan, Written, GoodProperty, WritableValue, NoImportant;
    OneByte(Statement, START, '}', Written(e));
    assert ['}'] + Written(e) == "}" + Written(e);
  }

  lemma StrayDeclared(e: Declaration)
    requires GoodDeclaration(e) && !e.important
    ensures var w := "}" + Written(e);
            Trim(w) == w && Declared(w) == [Declaration("}" + e.property, e.value, false)]
  {
    hide Neutral, Trim, Read, Pieces, Find, Lower, StripEscapedNewlines, WholePiece;
    var w, p := "}" + Written(e), "}" + e.property;
    assert w == p + ":" + e.value;
    StrayIsStatement(e);
    StatementIsPiece(w);
    OnePiece(w);
    assert w[|w| - 1] == if e.value == "" then ':' else e.value[|e.value| - 1];
    TrimmedTrim(w);
    LowerStray(e.property);
    PartRead(p, e.value);
    assert ReadAll([w]) == Read(w) + ReadAll([w][1..]);
  }

  lemma LowerStray(p: string)
    requires Lower(p) == p
    ensures Lower("}" + p) == "}" + p
  {
    var s := "}" + p;
    forall i | 0 <= i < |s| ensures LowerChar(s[i]) == s[i] {
      if i > 0 { assert s[i] == p[i - 1] && Lower(p)[i - 1] == p[i - 1]; }
    }
  }

  /** `p:url(')` is one good declaration. */
  lemma QuoteIsGood(p: string)
    requires GoodProperty(p)
    ensures var d := Declaration(p, "url(')", false);
            GoodDeclaration(d) && Neutral(RuleBody, Written(d)) && Written(d) == p + ":url" + "(')"
  {
    hide Scan, WritableProperty, NoCapitals, NoImportant, WritableValue, Written;
    QuoteValue();
    UrlText(p, "url(')", "(')");
    OpenCall(Statement, p, "(')");
    OpenCall(RuleBody, p, "(')");
    ParenSteps();
  }

  lemma QuoteValue()
    ensures WritableValue("url(')") && NoImportant("url(')") && "url(')" == "url" + "(')"
  {
    hide NoImportant, StripEscapedNewlines;
    NothingToStrip(NO_QUOTE, "url(')");
    NoBang("url(')");
  }

  /** The nested block takes the declaration behind it. */
  lemma NestedTakes(cd: Conditions, sel: string, inner: string, p: string, e: Declaration)
    requires PlainSelector(sel) && PlainSelector(inner) && GoodProperty(p) && GoodDeclaration(e) && !e.important
    requires '\'' !in Written(e) && '\\' !in Written(e) && '\n' !in Written(e)
    ensures var d, own := Declaration(p, "url(')", false), Combined(sel, inner);
            var s := inner + ("{" + (Written(d) + ";" + ("}" + Written(e) + ";")));
            ReadBlock(cd, TOP, 0, s, [sel])
            == BlockReading([], [Rule([own], [d, Declaration("}" + e.property, e.value, false)], TOP, false)], 0, |s|)
  {
    hide ReadBlock, ReadItem, Scan, PlainSelector, GoodProperty, GoodDeclaration, Written, Combined, Starts;
    var d := Declaration(p, "url(')", false);
    var tail := Written(d) + ";" + ("}" + Written(e) + ";");
    var s := inner + ("{" + tail);
    QuoteIsGood(p);
    BlockTail(cd, d, e, [Combined(sel, inner)]);
    ParenSteps();
    CallNeverCloses(Block, p, "('", ");}" + Written(e) + ";");
    ShiftQuote(p, Written(e));
    assert tail[..|tail|] == tail;
    SelectorTrims(sel);
    NestedRead(cd, TOP, 0, inner, tail, sel);
    BlockStep(cd, TOP, 0, s, |s|, [sel]);
    assert s[|s|..] == "";
    NothingLeft(cd, TOP, 0, [sel]);
  }

  lemma SelectorTrims(sel: string)
    requires PlainSelector(sel)
    ensures sel != "" && Trimmed(sel)
  {
  }

  lemma ShiftQuote(p: string, w: string)
    ensures p + ":url" + "(')" + ";" + ("}" + w + ";") == p + ":url" + ("('" + (");}" + w + ";"))
  {
  }

  lemma BlockTail(cd: Conditions, d: Declaration, e: Declaration, parents: seq<string>)
    requires GoodDeclaration(d) && GoodDeclaration(e) && !e.important
    ensures var s := Written(d) + ";" + ("}" + Written(e) + ";");
            ReadBlock(cd, TOP, 0, s, parents)
            == BlockReading([d, Declaration("}" + e.property, e.value, false)], [], 0, |s|)
  {
    hide ReadBlock, ReadItem, Scan, GoodDeclaration, Written, Starts;
    var r := "}" + Written(e) + ";";
    var s := Written(d) + ";" + r;
    assert GoodItem(false, Declare(d)) && PrintItem("", Declare(d)) == Written(d) + ";";
    DeclarationReads(cd, TOP, 0, "", Declare(d), r, parents);
    ItemStarts(false, "", Declare(d), r);
    BlockStep(cd, TOP, 0, s, |Written(d)| + 1, parents);
    assert s[|Written(d)| + 1..] == r;
    StrayReads(cd, e, parents);
  }

  /** The scanner of top-level blocks passes over a rule holding such a value. */
  lemma QuotePassed(inner: string, p: string, e: Declaration)
    requires PlainSelector(inner) && GoodProperty(p) && GoodDeclaration(e) && Neutral(RuleBody, Written(e))
    ensures var d := Declaration(p, "url(')", false);
            var s := inner + ("{" + (Written(d) + ";" + ("}" + Written(e) + ";")));
            Neutral(RuleBody, s)
  {
    hide Neutral, PlainSelector, GoodProperty, GoodDeclaration, Written, WritableValue;
    var d := Declaration(p, "url(')", false);
    QuoteIsGood(p);
    SemicolonIsNeutral(RuleBody);
    NeutralConcat(RuleBody, Written(d), ";");
    NeutralBraced(RuleBody, Written(d) + ";");
    PlainHead(inner);
    var block := "{" + (Written(d) + ";") + "}";
    NeutralConcat(RuleBody, inner, block);
    NeutralConcat(RuleBody, Written(e), ";");
    NeutralConcat(RuleBody, inner + block, Written(e) + ";");
    assert inner + block + (Written(e) + ";") == inner + ("{" + (Written(d) + ";" + ("}" + Written(e) + ";")));
  }

  lemma PlainHead(sel: string)
    requires PlainSelector(sel)
    ensures Neutral(RuleBody, sel)
  {
    PlainIsNeutral(RuleBody, sel);
  }

  lemma HeadStarts(sel: string, r: string)
    requires PlainSelector(sel)
    ensures Starts(sel + ("{" + r))
  {
  }

  /** The block of the outer rule, and what is read behind it. */
  lemma OuterReads(cd: Conditions, sel: string, b: string, r: string, rules: seq<Rule>)
    requires PlainSelector(sel) && Neutral(RuleBody, b) && Starts(b + "}" + r) && Starts(r)
    requires ReadBlock(cd, TOP, 0, b, [sel]) == BlockReading([], rules, 0, |b|)
    ensures ReadSheet(cd, TOP, 0, sel + ("{" + (b + "}" + r))).sheet.rules
            == [Rule([sel], [], TOP, false)] + rules + ReadSheet(cd, TOP, 0, r).sheet.rules
  {
    hide ReadSheet, ReadBlock, Scan, PlainSelector, Starts, Reach;
    var tail := b + "}" + r;
    NeutralPasses(RuleBody, b);
    CutAtOwnBraceIff(RuleBody, b, r);
    assert tail[..|b|] == b && tail[|b| + 1..] == r;
    RuleThenSheet(cd, sel, tail, |b|);
  }

  /**
   `a{b{c:url(');}d:e;}...`: the string the nested scanner opens inside the parentheses takes the rest of the
   outer block, so the declaration of `a` lands, behind a stray brace, in the rule for `a b`.
   */
  lemma QuoteTakesDeclaration(cd: Conditions, sel: string, inner: string, p: string, e: Declaration,
                              others: seq<Item>)
    requires PlainSelector(sel) && PlainSelector(inner) && GoodProperty(p)
    requires GoodDeclaration(e) && !e.important && Neutral(RuleBody, Written(e))
    requires '\'' !in Written(e) && '\\' !in Written(e) && '\n' !in Written(e)
    requires Good(true, others) && Closed("", true, others)
    ensures var d, own := Declaration(p, "url(')", false), Combined(sel, inner);
            && GoodItem(true, Style([sel], [Style([inner], [Declare(d)]), Declare(e)]))
            && ReadSheet(cd, TOP, 0,
                         Print("", [Style([sel], [Style([inner], [Declare(d)]), Declare(e)])] + others)).sheet.rules
               == [Rule([sel], [], TOP, false),
                   Rule([own], [d, Declaration("}" + e.property, e.value, false)], TOP, false)]
                  + SheetRules(cd, TOP, 0, others).0
  {
    hide ReadSheet, ReadBlock, Print, GoodProperty, GoodDeclaration, Written, PlainSelector, SheetRules, Combined,
         Closed, Good, Scan, Starts;
    var d := Declaration(p, "url(')", false);
    var nested := Style([inner], [Declare(d)]);
    var b := inner + ("{" + (Written(d) + ";" + ("}" + Written(e) + ";")));
    var r := Print("", others);
    QuoteIsGood(p);
    TakingIsGood(sel, inner, d, e);
    QuotePassed(inner, p, e);
    NestedTakes(cd, sel, inner, p, e);
    TakingText(sel, inner, d, e, others);
    BodyStartsPlain("", others);
    HeadStarts(inner, Written(d) + ";" + ("}" + Written(e) + ";") + ("}" + r));
    assert b + "}" + r == inner + ("{" + (Written(d) + ";" + ("}" + Written(e) + ";") + ("}" + r)));
    var stray := Declaration("}" + e.property, e.value, false);
    OuterReads(cd, sel, b, r, [Rule([Combined(sel, inner)], [d, stray], TOP, false)]);
    PrintedSheetReads(cd, TOP, 0, "", others);
  }

  lemma TakingIsGood(sel: string, inner: string, d: Declaration, e: Declaration)
    requires PlainSelector(sel) && PlainSelector(inner) && GoodDeclaration(d) && GoodDeclaration(e)
    ensures GoodItem(true, Style([sel], [Style([inner], [Declare(d)]), Declare(e)]))
  {
    hide PlainSelector, GoodDeclaration;
    assert Good(false, [Declare(d)]);
    assert GoodItem(false, Style([inner], [Declare(d)])) && GoodItem(false, Declare(e));
    assert Good(false, [Style([inner], [Declare(d)]), Declare(e)]);
  }

  lemma TakingText(sel: string, inner: string, d: Declaration, e: Declaration, others: seq<Item>)
    ensures Print("", [Style([sel], [Style([inner], [Declare(d)]), Declare(e)])] + others)
            == sel + ("{" + (inner + ("{" + (Written(d) + ";" + ("}" + Written(e) + ";"))) + "}" + Print("", others)))
  {
    hide Print, PrintItem, Written;
    var nested := Style([inner], [Declare(d)]);
    assert [nested, Declare(e)] == [nested] + [Declare(e)];
    StyleIs(sel, nested, [Declare(e)], others);
    OneDeclare(d);
    OneDeclare(e);
    PrintedIsBraced("", nested, "");
    assert Header("", nested) == inner && PrintItem("", nested) + "" == PrintItem("", nested);
    assert "}" + (Written(e) + ";") == "}" + Written(e) + ";";
    Regroup(inner, Written(d) + ";", Written(e) + ";", Print("", others));
  }

  lemma OneDeclare(d: Declaration)
    ensures Print("", [Declare(d)]) == Written(d) + ";"
  {
    hide Written;
    PrintSplits("", [Declare(d)]);
    assert [Declare(d)][1..] == [];
  }

  lemma Regroup(inner: string, d: string, e: string, r: string)
    ensures inner + ("{" + ("" + (d + ("}" + "")))) + (e + ("}" + r)) == inner + ("{" + (d + ("}" + e))) + "}" + r
  {
  }
}
