/** The readings of stylesheet text seen from a position in a larger text, as a moving cursor meets them. */
module CssPositions {
  import opened Options
  import opened Text
  import opened CssScan
  import opened CssLoops
  import opened CssDecls
  import opened CssSelectors
  import opened CssReading

  // ---------------------------------------------------------------- ends

  /** Where a scan from `i` stops. */
  function ReachFrom(m: Scanner, s: string, i: nat): (e: nat)
    requires i <= |s|
    ensures i <= e <= |s|
  {
    i + Reach(m, s[i..])
  }

  /** Past the blanks and comments from `i` on. */
  function SpacesFrom(s: string, i: nat): (e: nat)
    requires i <= |s|
    ensures i <= e <= |s|
  {
    i + Spaces(s[i..])
  }

  function BlanksFrom(s: string, i: nat): (e: nat)
    requires i <= |s|
    ensures i <= e <= |s|
  {
    i + Blanks(s[i..])
  }

  function CommentEndFrom(s: string, i: nat): (e: nat)
    requires i <= |s|
    ensures i <= e <= |s|
  {
    i + CommentEnd(s[i..])
  }

  /** The end of a statement and whether a string in it went bad. */
  function StatementFrom(s: string, i: nat): (r: (nat, bool))
    requires i <= |s|
    ensures i <= r.0 <= |s|
    ensures r.0 < |s| ==> s[r.0] == '{' || s[r.0] == ';'
  {
    var r := Scan(Statement, START, s[i..]);
    (i + r.0, r.1.bad)
  }

  lemma HeadStops(s: string, i: nat)
    requires i <= |s| && ReachFrom(Head, s, i) < |s|
    ensures var e := ReachFrom(Head, s, i); s[e] == '{' || s[e] == ';'
  {
    hide Scan;
  }

  lemma PreludeStops(s: string, i: nat)
    requires i <= |s| && ReachFrom(Prelude, s, i) < |s|
    ensures var e := ReachFrom(Prelude, s, i); s[e] == '{' || s[e] == ';'
  {
    hide Scan;
  }

  lemma Slice(s: string, at: nat, i: nat, j: nat)
    requires at <= i <= j <= |s|
    ensures s[at..][i - at..j - at] == s[i..j]
  {
  }

  lemma Prefix(s: string, at: nat, j: nat)
    requires at <= j <= |s|
    ensures s[at..][..j - at] == s[at..j]
  {
  }

  lemma Suffix(s: string, at: nat, i: nat)
    requires at <= i <= |s|
    ensures s[at..][i - at..] == s[i..]
  {
  }

  /** Ends seen from inside a suffix. */
  lemma ShiftReach(m: Scanner, s: string, at: nat, i: nat)
    requires at <= i <= |s|
    ensures ReachFrom(m, s[at..], i - at) == ReachFrom(m, s, i) - at
  {
    hide Reach;
    Suffix(s, at, i);
  }

  lemma ShiftSpaces(s: string, at: nat, i: nat)
    requires at <= i <= |s|
    ensures SpacesFrom(s[at..], i - at) == SpacesFrom(s, i) - at
  {
    hide Spaces;
    Suffix(s, at, i);
  }

  lemma ShiftStatement(s: string, at: nat, i: nat)
    requires at <= i <= |s|
    ensures StatementFrom(s[at..], i - at) == (StatementFrom(s, i).0 - at, StatementFrom(s, i).1)
  {
    hide Scan;
    Suffix(s, at, i);
  }

  lemma PastFrom(s: string, at: nat, e: nat)
    requires at <= e <= |s|
    ensures Past(s[at..], e - at) == Past(s, e) - at
  {
  }

  // ---------------------------------------------------------------- loops over positions

  lemma SpacesStep(s: string, i: nat)
    requires i <= |s|
    ensures i == |s| ==> SpacesFrom(s, i) == i
    ensures i < |s| ==>
              SpacesFrom(s, i)
              == if IsBlank(s[i]) then SpacesFrom(s, i + 1)
                 else if i + 1 < |s| && s[i] == '/' && s[i + 1] == '*' then SpacesFrom(s, CommentEndFrom(s, i + 2))
                 else i
  {
    if i < |s| {
      assert s[i..][1..] == s[i + 1..];
      if i + 1 < |s| {
        assert s[i..][2..] == s[i + 2..];
        var n := 2 + CommentEnd(s[i + 2..]);
        assert s[i..][n..] == s[i + n..];
      }
    }
  }

  lemma CommentStep(s: string, i: nat)
    requires i <= |s|
    ensures i + 1 >= |s| ==> CommentEndFrom(s, i) == i
    ensures i + 1 < |s| ==>
              CommentEndFrom(s, i) == if s[i] == '*' && s[i + 1] == '/' then i + 2 else CommentEndFrom(s, i + 1)
  {
    if i < |s| { assert s[i..][1..] == s[i + 1..]; }
  }

  lemma BlanksStep(s: string, i: nat)
    requires i <= |s|
    ensures BlanksFrom(s, i) == if i < |s| && IsBlank(s[i]) then BlanksFrom(s, i + 1) else i
  {
    if i < |s| { assert s[i..][1..] == s[i + 1..]; }
  }

  /** A literal scan, byte by byte. */
  lemma ReachStep(m: Scanner, s: string, i: nat)
    requires i <= |s| && (m.Name? || m.BareName? || m.Head?)
    ensures ReachFrom(m, s, i) == if i < |s| && !Ends(m, START, s[i]) then ReachFrom(m, s, i + 1) else i
  {
    AheadBegins(m, s, i);
    LiteralStep(m, 0, s, i);
    if i < |s| { AheadBegins(m, s, i + 1); }
  }

  /** Where the body of an at-rule ends, `depth` braces deeper. */
  function BraceFrom(depth: nat, s: string, i: nat): (e: nat)
    requires i <= |s|
  {
    i + Ahead(Braces, NO_QUOTE, 0, depth, false, s, i).0
  }

  lemma BraceStep(depth: nat, s: string, i: nat)
    requires i <= |s|
    ensures i == |s| ==> BraceFrom(depth, s, i) == i
    ensures i < |s| ==>
              BraceFrom(depth, s, i)
              == if s[i] == '{' then BraceFrom(depth + 1, s, i + 1)
                 else if s[i] == '}' then (if depth == 0 then i else BraceFrom(depth - 1, s, i + 1))
                 else BraceFrom(depth, s, i + 1)
    ensures BodyEnd(s, i) == BraceFrom(0, s, i)
  {
    LiteralStep(Braces, depth, s, i);
    AheadBegins(Braces, s, i);
  }

  /** What a lexing scan still has ahead, as a position. */
  function LexFrom(m: Scanner, quote: char, parens: nat, braces: nat, bad: bool, s: string, i: nat): (nat, bool)
    requires i <= |s|
  {
    Plus(i, Ahead(m, quote, parens, braces, bad, s, i))
  }

  /** One byte of a lexing loop: two when it is an escape. */
  function LexOn(m: Scanner, quote: char, parens: nat, braces: nat, bad: bool, s: string, i: nat): (nat, bool)
    requires i < |s|
  {
    var c := s[i];
    if c == '\\' then LexFrom(m, quote, parens, braces, bad, s, if i + 1 < |s| then i + 2 else i + 1)
    else if quote != NO_QUOTE then
      if c == quote then LexFrom(m, NO_QUOTE, parens, braces, bad, s, i + 1)
      else if c == '\n' && m.NewlineEndsString() then LexFrom(m, NO_QUOTE, parens, braces, true, s, i + 1)
      else LexFrom(m, quote, parens, braces, bad, s, i + 1)
    else if StopsHere(m, parens, braces, c) then (i, bad)
    else if IsQuote(c) && parens == 0 then LexFrom(m, c, parens, braces, bad, s, i + 1)
    else if m.CountsParens() && c == '(' then LexFrom(m, quote, parens + 1, braces, bad, s, i + 1)
    else if m.CountsParens() && c == ')' then
      LexFrom(m, quote, if parens > 0 then parens - 1 else 0, braces, bad, s, i + 1)
    else if m.CountsBraces() && c == '{' then LexFrom(m, quote, parens, braces + 1, bad, s, i + 1)
    else if m.CountsBraces() && c == '}' && braces > 0 then LexFrom(m, quote, parens, braces - 1, bad, s, i + 1)
    else LexFrom(m, quote, parens, braces, bad, s, i + 1)
  }

  lemma LexStepFrom(m: Scanner, quote: char, parens: nat, braces: nat, bad: bool, s: string, i: nat)
    requires i < |s| && (quote == NO_QUOTE || IsQuote(quote)) && !m.Literal()
    ensures LexFrom(m, quote, parens, braces, bad, s, i) == LexOn(m, quote, parens, braces, bad, s, i)
  {
    hide Ahead;
    LexStep(m, quote, parens, braces, bad, s, i);
  }

  lemma LexEnds(m: Scanner, quote: char, parens: nat, braces: nat, bad: bool, s: string)
    ensures LexFrom(m, quote, parens, braces, bad, s, |s|) == (|s|, bad)
  {
    hide Ahead;
    AheadAtEnd(m, quote, parens, braces, bad, s);
  }

  lemma LexBegins(m: Scanner, s: string, i: nat)
    requires i <= |s|
    ensures LexFrom(m, NO_QUOTE, 0, 0, false, s, i).0 == ReachFrom(m, s, i)
    ensures m.Block? ==> BlockEnd(s, i) == ReachFrom(m, s, i)
    ensures m.Statement? ==> LexFrom(m, NO_QUOTE, 0, 0, false, s, i) == StatementFrom(s, i)
  {
    hide Scan;
    AheadBegins(m, s, i);
  }

  // ---------------------------------------------------------------- at-rules from a position

  function KeywordFrom(s: string, at: nat): string
    requires at < |s|
  {
    KeywordOf(s[at..])
  }

  lemma KeywordIsRead(s: string, at: nat)
    requires at < |s|
    ensures KeywordFrom(s, at) == Lower(s[at + 1..ReachFrom(Name, s, at + 1)])
  {
    hide Lower, Reach;
    Suffix(s, at, at + 1);
    Slice(s, at, at + 1, ReachFrom(Name, s, at + 1));
  }

  /** Where the prelude starts after a keyword and blanks. */
  function PreludeFrom(bare: bool, s: string, at: nat): (p: nat)
    requires at < |s|
    ensures at < p <= |s|
  {
    SpacesFrom(s, ReachFrom(if bare then BareName else Name, s, at + 1))
  }

  function AtRuleFrom(cd: Conditions, cx: Context, n: nat, s: string, at: nat): (r: Reading)
    requires at < |s|
    ensures 0 < r.used <= |s| - at
  {
    ReadAtRule(cd, cx, n, s[at..])
  }

  lemma AfterKeywordFrom(name: string, s: string, at: nat)
    requires at < |s|
    ensures at + AfterKeyword(name, s[at..]) == PreludeFrom(Bare(name), s, at)
  {
    hide Reach, Spaces, Bare;
    Suffix(s, at, at + 1);
    var a := ReachFrom(if Bare(name) then BareName else Name, s, at + 1);
    Suffix(s, at, a);
  }

  lemma BodyFrom(s: string, at: nat, o: nat)
    requires at <= o <= |s|
    ensures var t := s[at..];
            var e := BodyEnd(s, o);
            BodyEnd(t, o - at) == e - at && t[o - at..e - at] == s[o..e] && Past(t, e - at) == Past(s, e) - at
  {
    hide Reach;
    Suffix(s, at, o);
  }

  /** A grouping rule in its opened form: the reading once prelude and brace are known. */
  function Opened(cd: Conditions, cx: Context, n: nat, s: string, at: nat, name: string, prelude: string,
                  brace: nat): Reading
    requires at < brace <= |s|
  {
    if brace == |s| then Reading(NOTHING, n, |s| - at)
    else if s[brace] != '{' then
      Reading(if name == "layer" then NOTHING.(layers := LayerStatement(cx, prelude)) else NOTHING, n, brace + 1 - at)
    else
      var e := BodyEnd(s, brace + 1);
      match EnteredAtTop(cd, cx, n, name, prelude)
      case None => Reading(NOTHING, n, Past(s, e) - at)
      case Some((inside, m)) =>
        var inner := ReadSheet(cd, inside, m, s[brace + 1..e]);
        Reading(inner.sheet, inner.anon, Past(s, e) - at)
  }

  lemma GroupOpened(cd: Conditions, cx: Context, n: nat, s: string, at: nat, name: string, start: nat, brace: nat)
    requires at <= start <= brace <= |s| && at < brace && KeywordFrom(s, at) == name
    requires OpeningOf(name, s[at..]) == Opening(start - at, brace - at)
    requires Grouping(name) && name != "starting-style"
    ensures AtRuleFrom(cd, cx, n, s, at)
            == Opened(cd, cx, n, s, at, name, PreludeOf(name, s[at..], Opening(start - at, brace - at)), brace)
  {
    hide ReadSheet, EnteredAtTop, PreludeOf, OpeningOf, BodyEnd, KeywordOf, LayerStatement;
    GroupingIsNotBare(name);
    if brace < |s| {
      assert s[at..][brace - at] == s[brace];
      BodyFrom(s, at, brace + 1);
    }
  }

  lemma GroupingIsNotBare(name: string)
    requires Grouping(name) && name != "starting-style"
    ensures !Bare(name) && name != "font-face"
  {
    assert "supports"[0] == 's' && "property"[0] == 'p' && "font-face"[0] == 'f' && "container"[0] == 'c';
  }

  /** `@media` and `@supports`, whose condition is cut from the whole head. */
  lemma ConditionalOpened(cd: Conditions, cx: Context, n: nat, s: string, at: nat, name: string)
    requires at < |s| && KeywordFrom(s, at) == name && (name == "media" || name == "supports")
    ensures var brace := ReachFrom(Head, s, at + 1);
            var cond := Condition(s[at..brace], "@" + name);
            && (brace < |s| ==> s[brace] == '{' || s[brace] == ';')
            && AtRuleFrom(cd, cx, n, s, at) == Opened(cd, cx, n, s, at, name, cond, brace)
            && EnteredAtTop(cd, cx, n, name, cond)
               == if (if name == "media" then cd.media(cond) else cd.supports(cond)) then Some((cx, n)) else None
    ensures "@" + "media" == "@media" && "@" + "supports" == "@supports" && "media" != "layer" && "supports" != "layer"
  {
    hide ReadSheet, BodyEnd, Condition, KeywordFrom, Opened, AtRuleFrom, Reach;
    assert "media"[0] == 'm' && "layer"[0] == 'l' && "scope"[0] == 's' && "supports"[0] == 's';
    assert "@" + "media" == "@media" && "@" + "supports" == "@supports";
    var brace := ReachFrom(Head, s, at + 1);
    Suffix(s, at, at + 1);
    Prefix(s, at, brace);
    assert OpeningOf(name, s[at..]) == Opening(0, brace - at);
    GroupOpened(cd, cx, n, s, at, name, at, brace);
    if brace < |s| { HeadStops(s, at + 1); }
  }

  /** `@layer`, `@container` and `@scope`, whose prelude follows the keyword. */
  lemma KeywordOpened(cd: Conditions, cx: Context, n: nat, s: string, at: nat, name: string)
    requires at < |s| && KeywordFrom(s, at) == name && KeywordFirst(name)
    ensures var start := PreludeFrom(false, s, at);
            var brace := ReachFrom(Head, s, start);
            && (brace < |s| ==> s[brace] == '{' || s[brace] == ';')
            && AtRuleFrom(cd, cx, n, s, at) == Opened(cd, cx, n, s, at, name, Trim(s[start..brace]), brace)
  {
    hide ReadSheet, BodyEnd, KeywordFrom, Opened, AtRuleFrom, Reach, AfterKeyword, PreludeFrom, Trim;
    KeywordNames(name);
    AfterKeywordFrom(name, s, at);
    var start := PreludeFrom(false, s, at);
    var brace := ReachFrom(Head, s, start);
    Suffix(s, at, start);
    Slice(s, at, start, brace);
    assert OpeningOf(name, s[at..]) == Opening(start - at, brace - at);
    GroupOpened(cd, cx, n, s, at, name, start, brace);
    if brace < |s| { HeadStops(s, start); }
  }

  lemma KeywordNames(name: string)
    requires KeywordFirst(name)
    ensures !Bare(name) && Grouping(name) && name != "starting-style" && name != "media" && name != "supports"
  {
    assert "layer"[0] == 'l' && "scope"[0] == 's' && "property"[0] == 'p' && "media"[0] == 'm' && "container"[0] == 'c';
  }

  /** What the preludes of layers, containers and scopes do to the context. */
  lemma EnteredLayer(cd: Conditions, cx: Context, n: nat, prelude: string)
    ensures EnteredAtTop(cd, cx, n, "layer", prelude)
            == Some(if prelude == "" then (cx.(layer := Anonymous(n + 1)), n + 1)
                    else (cx.(layer := if cx.layer != "" then cx.layer + "." + prelude else prelude), n))
  {
    hide Anonymous;
    assert "media"[0] == 'm' && "layer"[0] == 'l' && "scope"[0] == 's';
  }

  lemma EnteredContainer(cd: Conditions, cx: Context, n: nat, prelude: string)
    ensures EnteredAtTop(cd, cx, n, "container", prelude)
            == Some((cx.(container := if cx.container != "" then cx.container + " and " + prelude else prelude), n))
  {
  }

  lemma EnteredScope(cd: Conditions, cx: Context, n: nat, prelude: string)
    ensures EnteredAtTop(cd, cx, n, "scope", prelude)
            == Some((cx.(root := ScopeBounds(prelude).0, limit := ScopeBounds(prelude).1), n))
  {
    hide ScopeBounds;
  }

  lemma KeywordsFirst()
    ensures KeywordFirst("layer") && KeywordFirst("container") && KeywordFirst("scope")
    ensures "container" != "layer" && "scope" != "layer"
  {
    assert "layer"[0] == 'l' && "scope"[0] == 's';
  }

  /** At-rules read for their extent only. */
  predicate Skipped(name: string) {
    !Grouping(name) && !Bare(name) && name != "font-face"
  }

  lemma SkippedFrom(cd: Conditions, cx: Context, n: nat, s: string, at: nat)
    requires at < |s| && Skipped(KeywordFrom(s, at))
    ensures var brace := ReachFrom(Head, s, at + 1);
            AtRuleFrom(cd, cx, n, s, at)
            == Reading(NOTHING, n,
                       (if brace == |s| then |s| else if s[brace] != '{' then brace + 1
                        else Past(s, BodyEnd(s, brace + 1))) - at)
  {
    hide ReadSheet, BodyEnd, KeywordOf, Reach;
    var brace := ReachFrom(Head, s, at + 1);
    Suffix(s, at, at + 1);
    if brace < |s| {
      assert s[at..][brace - at] == s[brace];
      BodyFrom(s, at, brace + 1);
    }
  }

  lemma FontFaceFrom(cd: Conditions, cx: Context, n: nat, s: string, at: nat)
    requires at < |s| && KeywordFrom(s, at) == "font-face"
    ensures var brace := ReachFrom(Head, s, at + 1);
            && (brace < |s| ==> s[brace] == '{' || s[brace] == ';')
            && AtRuleFrom(cd, cx, n, s, at)
               == if brace == |s| then Reading(NOTHING, n, |s| - at)
                  else if s[brace] != '{' then Reading(NOTHING, n, brace + 1 - at)
                  else
                    var e := BodyEnd(s, brace + 1);
                    var decls := Declared(s[brace + 1..e]);
                    Reading(NOTHING.(fonts := if decls == [] then [] else [decls]), n, Past(s, e) - at)
  {
    hide ReadAtRule, BodyEnd, KeywordOf, Reach, Declared;
    var brace := ReachFrom(Head, s, at + 1);
    Suffix(s, at, at + 1);
    FontFaceRead(cd, cx, n, s[at..]);
    if brace < |s| {
      HeadStops(s, at + 1);
      assert s[at..][brace - at] == s[brace];
      BodyFrom(s, at, brace + 1);
    }
  }

  lemma FontFaceRead(cd: Conditions, cx: Context, n: nat, t: string)
    requires t != "" && KeywordOf(t) == "font-face"
    ensures var brace := 1 + Reach(Head, t[1..]);
            ReadAtRule(cd, cx, n, t)
            == if brace == |t| then Reading(NOTHING, n, |t|)
               else if t[brace] != '{' then Reading(NOTHING, n, brace + 1)
               else
                 var e := BodyEnd(t, brace + 1);
                 var decls := Declared(t[brace + 1..e]);
                 Reading(NOTHING.(fonts := if decls == [] then [] else [decls]), n, Past(t, e))
  {
    hide ReadSheet, BodyEnd, KeywordOf, Reach, Declared;
    assert "font-face"[0] == 'f' && "container"[0] == 'c';
  }

  predicate Descriptors(name: string) {
    name == "property" || name == "font-palette-values"
  }

  lemma DescriptorsFrom(cd: Conditions, cx: Context, n: nat, s: string, at: nat)
    requires at < |s| && Descriptors(KeywordFrom(s, at))
    ensures var brace := ReachFrom(Head, s, PreludeFrom(true, s, at));
            AtRuleFrom(cd, cx, n, s, at)
            == Reading(NOTHING, n,
                       (if brace == |s| || s[brace] != '{' then brace else Past(s, BodyEnd(s, brace + 1))) - at)
  {
    hide ReadAtRule, OpeningOf, BodyEnd, KeywordOf, Reach, AfterKeyword, PreludeFrom, Descriptors;
    var name := KeywordFrom(s, at);
    DescriptorNames(name);
    var start := PreludeFrom(true, s, at);
    var brace := ReachFrom(Head, s, start);
    DescriptorsOpening(s, at, name);
    DescriptorsRead(cd, cx, n, s[at..], start - at, brace - at);
    if brace < |s| {
      assert s[at..][brace - at] == s[brace];
      BodyFrom(s, at, brace + 1);
    }
  }

  lemma DescriptorsOpening(s: string, at: nat, name: string)
    requires at < |s| && Bare(name) && name != "starting-style"
    ensures var start := PreludeFrom(true, s, at);
            OpeningOf(name, s[at..]) == Opening(start - at, ReachFrom(Head, s, start) - at)
  {
    hide Reach, AfterKeyword, PreludeFrom, Bare;
    AfterKeywordFrom(name, s, at);
    Suffix(s, at, PreludeFrom(true, s, at));
  }

  lemma DescriptorsRead(cd: Conditions, cx: Context, n: nat, t: string, start: nat, brace: nat)
    requires t != "" && Descriptors(KeywordOf(t)) && start <= brace <= |t|
    requires OpeningOf(KeywordOf(t), t) == Opening(start, brace)
    ensures ReadAtRule(cd, cx, n, t)
            == Reading(NOTHING, n, if brace == |t| || t[brace] != '{' then brace else Past(t, BodyEnd(t, brace + 1)))
  {
    hide OpeningOf, BodyEnd, KeywordOf, Grouping, ReadSheet;
    DescriptorNames(KeywordOf(t));
  }

  lemma DescriptorNames(name: string)
    requires Descriptors(name)
    ensures Bare(name) && !KeywordFirst(name) && !Grouping(name) && name != "font-face" && name != "starting-style"
  {
    assert "property"[0] == 'p' && "supports"[0] == 's';
  }

  lemma StartingFrom(cd: Conditions, cx: Context, n: nat, s: string, at: nat)
    requires at < |s| && KeywordFrom(s, at) == "starting-style"
    ensures var brace := PreludeFrom(true, s, at);
            AtRuleFrom(cd, cx, n, s, at)
            == if brace == |s| || s[brace] != '{' then Reading(NOTHING, n, brace - at)
               else
                 var e := BodyEnd(s, brace + 1);
                 var inner := ReadSheet(cd, cx, n, s[brace + 1..e]);
                 Reading(if e == |s| then NOTHING else NOTHING.(rules := Marked(inner.sheet.rules)), n, Past(s, e) - at)
  {
    hide ReadSheet, BodyEnd, KeywordOf, Reach, AfterKeyword, PreludeFrom, Marked, PreludeOf;
    StartingName();
    AfterKeywordFrom("starting-style", s, at);
    var brace := PreludeFrom(true, s, at);
    EnteredStarting(cd, cx, n, PreludeOf("starting-style", s[at..], Opening(brace - at, brace - at)));
    if brace < |s| {
      assert s[at..][brace - at] == s[brace];
      BodyFrom(s, at, brace + 1);
    }
  }

  lemma StartingName()
    ensures Bare("starting-style") && !KeywordFirst("starting-style") && Grouping("starting-style")
    ensures "starting-style" != "font-face" && "starting-style" != "layer"
  {
  }

  lemma EnteredStarting(cd: Conditions, cx: Context, n: nat, prelude: string)
    ensures EnteredAtTop(cd, cx, n, "starting-style", prelude) == Some((cx, n))
  {
  }

  // ---------------------------------------------------------------- rules and sheets from a position

  function RuleFrom(cd: Conditions, cx: Context, n: nat, s: string, at: nat): (r: Reading)
    requires at < |s|
    ensures 0 < r.used <= |s| - at
  {
    ReadRule(cd, cx, n, s[at..])
  }

  lemma RuleUnfolds(cd: Conditions, cx: Context, n: nat, s: string, at: nat)
    requires at < |s|
    ensures var sel := ReachFrom(Selector, s, at);
            RuleFrom(cd, cx, n, s, at)
            == if sel == |s| then Reading(NOTHING, n, |s| - at)
               else
                 var o := SpacesFrom(s, sel + 1);
                 var e := ReachFrom(RuleBody, s, o);
                 var sels := Kept(SelectorList(Trim(s[at..sel])));
                 var b := ReadBlock(cd, cx, n, s[o..e], sels);
                 Reading(NOTHING.(rules := (if sels == [] then [] else [Rule(sels, b.decls, cx, false)]) + b.rules),
                         b.anon, Past(s, e) - at)
  {
    hide ReadBlock, ReadRule, ReachFrom, SpacesFrom, Kept, SelectorList, Trim, Past;
    var sel := ReachFrom(Selector, s, at);
    ShiftReach(Selector, s, at, at);
    RuleRead(cd, cx, n, s[at..]);
    if sel < |s| {
      var o := SpacesFrom(s, sel + 1);
      var e := ReachFrom(RuleBody, s, o);
      ShiftSpaces(s, at, sel + 1);
      ShiftReach(RuleBody, s, at, o);
      Prefix(s, at, sel);
      Slice(s, at, o, e);
      PastFrom(s, at, e);
    }
  }

  lemma RuleRead(cd: Conditions, cx: Context, n: nat, t: string)
    requires t != ""
    ensures var sel := ReachFrom(Selector, t, 0);
            ReadRule(cd, cx, n, t)
            == if sel == |t| then Reading(NOTHING, n, |t|)
               else
                 var o := SpacesFrom(t, sel + 1);
                 var e := ReachFrom(RuleBody, t, o);
                 var sels := Kept(SelectorList(Trim(t[..sel])));
                 var b := ReadBlock(cd, cx, n, t[o..e], sels);
                 Reading(NOTHING.(rules := (if sels == [] then [] else [Rule(sels, b.decls, cx, false)]) + b.rules),
                         b.anon, Past(t, e))
  {
    hide Reach, ReadBlock, Kept, SelectorList, Trim, Spaces, Past;
    assert t[0..] == t;
  }

  function StatementReading(cd: Conditions, cx: Context, n: nat, s: string, at: nat): (r: Reading)
    requires at < |s|
    ensures 0 < r.used <= |s| - at
  {
    if s[at] == '@' then AtRuleFrom(cd, cx, n, s, at) else RuleFrom(cd, cx, n, s, at)
  }

  /** The sheet read from a position on. */
  function SheetFrom(cd: Conditions, cx: Context, n: nat, s: string, at: nat): Reading
    requires at <= |s|
  {
    ReadSheet(cd, cx, n, s[at..])
  }

  lemma SheetUnfolds(cd: Conditions, cx: Context, n: nat, s: string, at: nat)
    requires at <= |s|
    ensures var p := SpacesFrom(s, at);
            var whole := SheetFrom(cd, cx, n, s, at);
            if p == |s| then whole.sheet == NOTHING && whole.anon == n
            else
              var first := StatementReading(cd, cx, n, s, p);
              var rest := SheetFrom(cd, cx, first.anon, s, p + first.used);
              whole.sheet == Both(first.sheet, rest.sheet) && whole.anon == rest.anon
  {
    hide ReadAtRule, ReadRule, Spaces, Both;
    var p := SpacesFrom(s, at);
    Suffix(s, at, p);
    if p < |s| {
      var first := StatementReading(cd, cx, n, s, p);
      Suffix(s, p, p + first.used);
      assert s[p..][0] == s[p];
      assert first == ReadStatement(cd, cx, n, s[p..]);
    }
  }

  lemma SheetWhole(cd: Conditions, cx: Context, n: nat, s: string)
    ensures SheetFrom(cd, cx, n, s, 0) == ReadSheet(cd, cx, n, s)
  {
    hide ReadSheet;
    assert s[0..] == s;
  }

  // ---------------------------------------------------------------- blocks from a position

  function BlockFrom(cd: Conditions, cx: Context, n: nat, s: string, at: nat, parents: seq<string>): BlockReading
    requires at <= |s|
  {
    ReadBlock(cd, cx, n, s[at..], parents)
  }

  function ItemFrom(cd: Conditions, cx: Context, n: nat, s: string, at: nat, parents: seq<string>): (r: BlockReading)
    requires at < |s|
    ensures 0 < r.used <= |s| - at
  {
    ReadItem(cd, cx, n, s[at..], parents)
  }

  lemma BlockWhole(cd: Conditions, cx: Context, n: nat, s: string, parents: seq<string>)
    ensures BlockFrom(cd, cx, n, s, 0, parents) == ReadBlock(cd, cx, n, s, parents)
  {
    hide ReadBlock;
    assert s[0..] == s;
  }

  lemma BlockUnfolds(cd: Conditions, cx: Context, n: nat, s: string, at: nat, parents: seq<string>)
    requires at <= |s|
    ensures var p := BlanksFrom(s, at);
            var whole := BlockFrom(cd, cx, n, s, at, parents);
            if p == |s| then whole.decls == [] && whole.rules == [] && whole.anon == n
            else
              var first := ItemFrom(cd, cx, n, s, p, parents);
              var rest := BlockFrom(cd, cx, first.anon, s, p + first.used, parents);
              && whole.decls == first.decls + rest.decls && whole.rules == first.rules + rest.rules
              && whole.anon == rest.anon
  {
    hide ReadItem, Blanks;
    var p := BlanksFrom(s, at);
    Suffix(s, at, p);
    if p < |s| {
      var first := ItemFrom(cd, cx, n, s, p, parents);
      Suffix(s, p, p + first.used);
    }
  }

  lemma NestedBodyFrom(s: string, at: nat, o: nat)
    requires at <= o <= |s|
    ensures var t := s[at..];
            var e := BlockEnd(s, o);
            BlockEnd(t, o - at) == e - at && t[o - at..e - at] == s[o..e] && Past(t, e - at) == Past(s, e) - at
  {
    hide Reach;
    Suffix(s, at, o);
  }

  /** A comment left in a block. */
  lemma CommentItem(cd: Conditions, cx: Context, n: nat, s: string, at: nat, parents: seq<string>)
    requires at + 1 < |s| && s[at] == '/' && s[at + 1] == '*'
    ensures var end := Find(s[at + 2..], "*/");
            ItemFrom(cd, cx, n, s, at, parents)
            == BlockReading([], [], n, if end == |s| - at - 2 then |s| - at else end + 4)
  {
    hide Find;
    Suffix(s, at, at + 2);
  }

  /** What a nested at-rule contributes once its parts are known. */
  function NestedReading(cd: Conditions, cx: Context, n: nat, name: string, prelude: string, inner: string,
                         parents: seq<string>): (seq<Rule>, nat) {
    match Entered(cd, cx, n, name, prelude)
    case None => ([], n)
    case Some((inside, m)) =>
      var b := ReadBlock(cd, inside, m, inner, parents);
      var all := OwnRule(parents, b.decls, inside) + b.rules;
      (if name == "starting-style" then Marked(all) else all, b.anon)
  }

  lemma NestedAtRuleItem(cd: Conditions, cx: Context, n: nat, s: string, at: nat, parents: seq<string>)
    requires at < |s| && s[at] == '@'
    ensures var word := ReachFrom(Name, s, at);
            var brace := ReachFrom(Prelude, s, word);
            && at < word && (brace < |s| ==> s[brace] == '{' || s[brace] == ';')
            && ItemFrom(cd, cx, n, s, at, parents)
               == if brace == |s| then BlockReading([], [], n, |s| - at)
                  else if s[brace] == ';' then BlockReading([], [], n, brace + 1 - at)
                  else
                    var e := BlockEnd(s, brace + 1);
                    var r := NestedReading(cd, cx, n, Lower(Trim(s[at + 1..word])), Trim(s[word..brace]),
                                           s[brace + 1..e], parents);
                    BlockReading([], r.0, r.1, Past(s, e) - at)
  {
    hide ReadItem, BlockEnd, Trim, Lower, NestedReading, ReachFrom, Past;
    ReachFromAt(s, at);
    var word := ReachFrom(Name, s, at);
    var brace := ReachFrom(Prelude, s, word);
    assert s[at..][0] == '@';
    ShiftReach(Name, s, at, at);
    ShiftReach(Prelude, s, at, word);
    NestedAtRuleRead(cd, cx, n, s[at..], parents);
    Slice(s, at, word, brace);
    Slice(s, at, at + 1, word);
    if brace < |s| {
      PreludeStops(s, word);
      assert s[at..][brace - at] == s[brace];
      NestedBodyFrom(s, at, brace + 1);
    }
  }

  lemma NestedAtRuleRead(cd: Conditions, cx: Context, n: nat, t: string, parents: seq<string>)
    requires t != "" && t[0] == '@' && 0 < ReachFrom(Name, t, 0)
    ensures var word := ReachFrom(Name, t, 0);
            var brace := ReachFrom(Prelude, t, word);
            ReadItem(cd, cx, n, t, parents)
            == if brace == |t| then BlockReading([], [], n, |t|)
               else if t[brace] == ';' then BlockReading([], [], n, brace + 1)
               else
                 var e := BlockEnd(t, brace + 1);
                 var r := NestedReading(cd, cx, n, Lower(Trim(t[1..word])), Trim(t[word..brace]), t[brace + 1..e],
                                        parents);
                 BlockReading([], r.0, r.1, Past(t, e))
  {
    hide ReadBlock, BlockEnd, Trim, Lower, Entered, OwnRule, Reach, Marked, Past;
    assert t[0..] == t;
    var word := ReachFrom(Name, t, 0);
    assert NestedOpeningOf(t) == NestedOpening(Lower(Trim(t[1..word])), word, ReachFrom(Prelude, t, word));
  }

  lemma ReachFromAt(s: string, at: nat)
    requires at < |s| && s[at] == '@'
    ensures at < ReachFrom(Name, s, at)
  {
    ReachStep(Name, s, at);
  }

  lemma StatementItem(cd: Conditions, cx: Context, n: nat, s: string, at: nat, parents: seq<string>)
    requires at < |s| && s[at] != '@' && !(at + 1 < |s| && s[at] == '/' && s[at + 1] == '*')
    ensures var (k, bad) := StatementFrom(s, at);
            var text := Trim(s[at..k]);
            ItemFrom(cd, cx, n, s, at, parents)
            == if k == |s| then BlockReading(if ':' in text then Stated(text, bad) else [], [], n, |s| - at)
               else if s[k] == ';' then BlockReading(Stated(text, bad), [], n, k + 1 - at)
               else
                 var e := BlockEnd(s, k + 1);
                 var expanded := NestedSelectors(parents, SelectorList(text));
                 if expanded == [] then BlockReading([], [], n, Past(s, e) - at)
                 else
                   var b := ReadBlock(cd, cx, n, s[k + 1..e], expanded);
                   BlockReading([], OwnRule(Kept(expanded), b.decls, cx) + b.rules, b.anon, Past(s, e) - at)
  {
    hide ReadItem, ReadBlock, BlockEnd, Trim, NestedSelectors, SelectorList, OwnRule, Stated, Kept, StatementFrom, Past;
    var k := StatementFrom(s, at).0;
    assert s[at..][0] == s[at] && (at + 1 < |s| ==> s[at..][1] == s[at + 1]);
    StatementRead(cd, cx, n, s[at..], parents);
    ShiftStatement(s, at, at);
    Prefix(s, at, k);
    if k < |s| {
      assert s[at..][k - at] == s[k];
      NestedBodyFrom(s, at, k + 1);
    }
  }

  lemma StatementRead(cd: Conditions, cx: Context, n: nat, t: string, parents: seq<string>)
    requires t != "" && t[0] != '@' && !OpensComment(t)
    ensures var (k, bad) := StatementFrom(t, 0);
            var text := Trim(t[..k]);
            ReadItem(cd, cx, n, t, parents)
            == if k == |t| then BlockReading(if ':' in text then Stated(text, bad) else [], [], n, |t|)
               else if t[k] == ';' then BlockReading(Stated(text, bad), [], n, k + 1)
               else
                 var e := BlockEnd(t, k + 1);
                 var expanded := NestedSelectors(parents, SelectorList(text));
                 if expanded == [] then BlockReading([], [], n, Past(t, e))
                 else
                   var b := ReadBlock(cd, cx, n, t[k + 1..e], expanded);
                   BlockReading([], OwnRule(Kept(expanded), b.decls, cx) + b.rules, b.anon, Past(t, e))
  {
    hide ReadBlock, BlockEnd, Trim, NestedSelectors, SelectorList, OwnRule, Stated, Kept, Scan, Past;
    assert t[0..] == t;
  }

  // ---------------------------------------------------------------- sheets joined

  lemma NothingAdded(before: Sheet)
    ensures Both(before, NOTHING) == before && Both(NOTHING, before) == before
  {
  }

  lemma BothAssociates(a: Sheet, b: Sheet, c: Sheet)
    ensures Both(Both(a, b), c) == Both(a, Both(b, c))
  {
  }
}
