/**
 Where the blocks of a printed tree are cut: exactly when each at its own brace, where the scanners of
 top-level and nested blocks part, and a sheet each of the two cuts in the wrong place.
 */
module CssBlocks {
  import opened Options
  import opened Text
  import opened CssScan
  import opened CssDecls
  import opened CssSelectors
  import opened CssReading
  import opened CssTree
  import opened CssPrinted
  import opened CssRoundTrip

  // ---------------------------------------------------------------- exactly when an item is read to its end

  lemma RuleUsed(cd: Conditions, cx: Context, n: nat, gap: string, it: Item, r: string)
    requires Blank(gap) && it.Style? && GoodItem(true, it)
    ensures var t, o := PrintItem(gap, it) + r, |Header(gap, it)| + 1 + |gap|;
            o <= |t| && t != "" && ReadStatement(cd, cx, n, t).used == Past(t, o + Reach(RuleBody, t[o..]))
  {
    hide Reach, ReadBlock, Print, PrintItem, Header, Good, Kept, SelectorList, Trim, Spaces, Passes, Past;
    RuleOpens(gap, it, r);
  }

  lemma GroupUsed(cd: Conditions, cx: Context, n: nat, gap: string, it: Item, r: string)
    requires Blank(gap) && it.Group? && GoodItem(true, it)
    ensures var t, h := PrintItem(gap, it) + r, |Header(gap, it)|;
            h < |t| && ReadStatement(cd, cx, n, t).used == Past(t, BodyEnd(t, h + 1))
  {
    hide Print, PrintItem, Good, GoodItem, Header, KeywordOf, OpeningOf, PreludeOf, BodyEnd, EnteredAtTop, ReadSheet,
         Grouping, Bare, Passes;
    GroupOpens(gap, it, r);
    GoodGroupBody(true, it);
    GroupingNames(it.name);
  }

  /** A printed top-level rule or grouping rule is read to its own end exactly when its scanner passes over its body. */
  lemma TopItemEndsRightIff(cd: Conditions, cx: Context, n: nat, gap: string, it: Item, r: string)
    requires Blank(gap) && GoodItem(true, it) && r != ""
    ensures var t := PrintItem(gap, it) + r;
            t != "" && (ReadStatement(cd, cx, n, t).used == |PrintItem(gap, it)|
                        <==> Passes(Closer(true, it), Print(gap, it.body)))
  {
    hide ReadStatement, Passes, Reach, Scan, Print, PrintItem, Header, Good, Kept, SelectorList, Trim, Spaces,
         KeywordOf, OpeningOf, PreludeOf, GoodPrelude, GroupName, PlainSelector;
    if it.Style? {
      RuleOpens(gap, it, r);
      RuleUsed(cd, cx, n, gap, it, r);
    } else {
      GroupOpens(gap, it, r);
      GroupUsed(cd, cx, n, gap, it, r);
    }
  }

  lemma NestedUsed(cd: Conditions, cx: Context, n: nat, gap: string, it: Item, r: string, parents: seq<string>)
    requires Blank(gap) && !it.Declare? && GoodItem(false, it)
    ensures var t, h := PrintItem(gap, it) + r, |Header(gap, it)|;
            h < |t| && ReadItem(cd, cx, n, t, parents).used == Past(t, BlockEnd(t, h + 1))
  {
    hide Reach, Scan, ReadBlock, Print, PrintItem, Good, Kept, SelectorList, Trim, NestedSelectors, NestedOpeningOf,
         Past, BlockEnd, Entered, Passes, OwnRule, Header;
    if it.Style? {
      ItemParts(gap, it, r);
      HeaderScanned(Statement, false, gap, it, r);
      ItemStarts(false, gap, it, r);
    } else {
      NestedGroupOpens(gap, it, r);
    }
  }

  /** A printed nested rule or at-rule is read to its own end exactly when the scanner of nested blocks passes. */
  lemma NestedItemEndsRightIff(cd: Conditions, cx: Context, n: nat, gap: string, it: Item, r: string,
                               parents: seq<string>)
    requires Blank(gap) && !it.Declare? && GoodItem(false, it) && r != ""
    ensures var t := PrintItem(gap, it) + r;
            t != "" && (ReadItem(cd, cx, n, t, parents).used == |PrintItem(gap, it)|
                        <==> Passes(Block, Print(gap, it.body)))
  {
    hide ReadItem, Passes, Reach, Scan, Print, PrintItem, Header, Good, GoodItem;
    BlockScannedIff(gap, it, r);
    ItemParts(gap, it, r);
    NestedUsed(cd, cx, n, gap, it, r, parents);
  }

  // ---------------------------------------------------------------- exactly when a declaration is read as itself

  /** A scan of statements never counts braces, and every string and parenthesis is closed where it stops. */
  lemma {:induction false} StatementState(st: Lex, s: string)
    requires st.braces == 0
    ensures Scan(Statement, st, s).1.braces == 0
    decreases |s|
  {
    hide Ends;
    if s != "" && !Ends(Statement, st, s[0]) { StatementState(Step(Statement, st, s[0]), s[1..]); }
  }

  lemma StatementStops(s: string, c: char, r: string)
    requires c == ';'
    ensures var (k, st) := Scan(Statement, START, s + ([c] + r)); k == |s| && !st.bad <==> Neutral(Statement, s)
  {
    hide Step, Scan;
    StatementState(START, s);
    if Scan(Statement, START, s).0 == |s| {
      ScanAppend(Statement, START, s, [c] + r);
      StopsHere(Scan(Statement, START, s).1, [c] + r);
    } else {
      ScanPrefix(Statement, START, s, [c] + r);
    }
  }

  lemma StopsHere(st: Lex, tail: string)
    requires tail != "" && tail[0] == ';'
    ensures Scan(Statement, st, tail).0 == 0 <==> !st.escaped && st.quote == NO_QUOTE && st.parens == 0
    ensures Scan(Statement, st, tail).0 == 0 ==> Scan(Statement, st, tail).1 == st
  {
  }

  /**
   A printed declaration is read as itself, and nothing more than it, exactly when it is one statement to the
   scanner of statements, its name has no capitals and its value no `!important`.
   */
  lemma DeclarationReadsIff(cd: Conditions, cx: Context, n: nat, d: Declaration, r: string, parents: seq<string>)
    requires WritableProperty(d.property) && WritableValue(d.value) && r != ""
    ensures var got := ReadItem(cd, cx, n, PrintItem("", Declare(d)) + r, parents);
            got == BlockReading([d], [], n, |Written(d)| + 1) <==> GoodDeclaration(d)
  {
    hide Scan, Trim, Ends, Step, Written, WritableValue, NoCapitals, NoImportant, Declared, NestedSelectors,
         SelectorList, ReadBlock, BlockEnd, OwnRule, Kept, Neutral, Past, Stated, GoodDeclaration;
    var w := Written(d);
    var t := w + ([';'] + r);
    assert PrintItem("", Declare(d)) + r == t;
    WrittenTrimmed(d);
    DeclarationBegins(d, [';'] + r);
    StatementStops(w, ';', r);
    GoodIff(d);
    var (k, st) := Scan(Statement, START, t);
    if k == |w| {
      assert t[..k] == w;
      StatedIs(w, st.bad, d);
    }
  }

  lemma DeclarationBegins(d: Declaration, tail: string)
    requires WritableProperty(d.property)
    ensures var t := Written(d) + tail; t != "" && t[0] != '@' && !OpensComment(t)
  {
  }

  lemma StatedIs(w: string, bad: bool, d: Declaration)
    requires w != ""
    ensures Stated(w, bad) == [d] <==> !bad && Declared(w) == [d]
  {
  }

  lemma GoodIff(d: Declaration)
    requires WritableProperty(d.property) && WritableValue(d.value)
    ensures GoodDeclaration(d) <==> Neutral(Statement, Written(d)) && Declared(Written(d)) == [d]
  {
    hide Neutral, Written, WritableValue, WritableProperty, NoCapitals, NoImportant, Declared, WholePiece;
    WrittenReadsIff(d);
    if Neutral(Statement, Written(d)) { StatementIsPiece(Written(d)); }
  }

  // ---------------------------------------------------------------- where the two block scanners part

  /** What a scanner carries after a text, stopping for nothing. */
  function Run(m: Scanner, st: Lex, s: string): Lex
    decreases |s|
  {
    if s == "" then st else Run(m, Step(m, st, s[0]), s[1..])
  }

  /** A quote inside parentheses, or a line break inside a string. */
  predicate PartsHere(st: Lex, c: char) {
    !st.escaped && if st.quote == NO_QUOTE then IsQuote(c) && st.parens > 0 else c == '\n'
  }

  /** The same string, escape and open braces. */
  predicate SameLex(a: Lex, b: Lex) {
    a.quote == b.quote && a.escaped == b.escaped && a.braces == b.braces
  }

  /** What the scanner of nested blocks carries: no parentheses, and a quote that is one. */
  predicate Side(a: Lex, b: Lex) {
    SameLex(a, b) && b.parens == 0 && (b.quote == NO_QUOTE || IsQuote(b.quote))
  }

  lemma StepsPartIff(a: Lex, b: Lex, c: char)
    requires Side(a, b)
    ensures SameLex(Step(RuleBody, a, c), Step(Block, b, c)) <==> !PartsHere(a, c)
    ensures !PartsHere(a, c) ==> Side(Step(RuleBody, a, c), Step(Block, b, c))
    ensures Ends(RuleBody, a, c) <==> Ends(Block, b, c)
  {
  }

  lemma {:induction false} RunStep(m: Scanner, st: Lex, s: string, k: nat)
    requires k < |s|
    ensures Run(m, st, s[..k + 1]) == Step(m, Run(m, st, s[..k]), s[k])
    decreases |s|
  {
    hide Step;
    if k == 0 {
      assert s[..1][1..] == "";
    } else {
      RunStep(m, Step(m, st, s[0]), s[1..], k - 1);
      assert s[..k + 1][1..] == s[1..][..k] && s[..k][1..] == s[1..][..k - 1];
    }
  }

  /** No byte of the text is one at which the scanners part. */
  predicate NeverParts(s: string) {
    forall k :: 0 <= k < |s| ==> !PartsHere(Run(RuleBody, START, s[..k]), s[k])
  }

  lemma {:induction false} SideUpTo(s: string, k: nat)
    requires k <= |s| && forall i :: 0 <= i < k ==> !PartsHere(Run(RuleBody, START, s[..i]), s[i])
    ensures Side(Run(RuleBody, START, s[..k]), Run(Block, START, s[..k]))
  {
    hide Step, PartsHere, Side;
    if k == 0 {
      assert s[..0] == "";
      SideAtStart();
    } else {
      SideUpTo(s, k - 1);
      RunStep(RuleBody, START, s, k - 1);
      RunStep(Block, START, s, k - 1);
      StepsPartIff(Run(RuleBody, START, s[..k - 1]), Run(Block, START, s[..k - 1]), s[k - 1]);
    }
  }

  lemma SideAtStart()
    ensures Side(START, START)
  {
  }

  /**
   The scanners of top-level and of nested blocks see the same strings and braces all through a text exactly
   when no quote stands inside parentheses and no line break inside a string.
   */
  lemma ScannersAgreeIff(s: string)
    ensures (forall k :: 0 <= k <= |s| ==> SameLex(Run(RuleBody, START, s[..k]), Run(Block, START, s[..k])))
            <==> NeverParts(s)
  {
    hide Step, PartsHere, Run;
    if NeverParts(s) {
      forall k | 0 <= k <= |s| ensures SameLex(Run(RuleBody, START, s[..k]), Run(Block, START, s[..k])) {
        SideUpTo(s, k);
      }
    } else {
      var k := FirstParting(s);
      SideUpTo(s, k);
      RunStep(RuleBody, START, s, k);
      RunStep(Block, START, s, k);
      StepsPartIff(Run(RuleBody, START, s[..k]), Run(Block, START, s[..k]), s[k]);
    }
  }

  /** The first byte at which the scanners part. */
  function FirstParting(s: string): (k: nat)
    requires !NeverParts(s)
    ensures k < |s| && PartsHere(Run(RuleBody, START, s[..k]), s[k])
    ensures forall i :: 0 <= i < k ==> !PartsHere(Run(RuleBody, START, s[..i]), s[i])
  {
    PartingFrom(s, 0)
  }

  function PartingFrom(s: string, from: nat): (k: nat)
    requires !NeverParts(s) && from <= |s|
    requires forall i :: 0 <= i < from ==> !PartsHere(Run(RuleBody, START, s[..i]), s[i])
    ensures k < |s| && PartsHere(Run(RuleBody, START, s[..k]), s[k])
    ensures forall i :: 0 <= i < k ==> !PartsHere(Run(RuleBody, START, s[..i]), s[i])
    decreases |s| - from
  {
    if PartsHere(Run(RuleBody, START, s[..from]), s[from]) then from else PartingFrom(s, from + 1)
  }

  /** There both find the same end. */
  lemma AgreeingEnds(s: string)
    requires NeverParts(s)
    ensures Reach(RuleBody, s) == Reach(Block, s)
  {
    hide Step, PartsHere, Run, Scan, Side;
    assert s[0..] == s && s[..0] == "";
    RunsNowhere();
    EndsFrom(s, 0);
  }

  lemma RunsNowhere()
    ensures Run(RuleBody, START, "") == START && Run(Block, START, "") == START
  {
  }

  lemma {:induction false} EndsFrom(s: string, k: nat)
    requires NeverParts(s) && k <= |s|
    ensures Scan(RuleBody, Run(RuleBody, START, s[..k]), s[k..]).0 == Scan(Block, Run(Block, START, s[..k]), s[k..]).0
    decreases |s| - k
  {
    hide Step, Ends, PartsHere, Run, Side;
    if k < |s| {
      SideUpTo(s, k);
      StepsPartIff(Run(RuleBody, START, s[..k]), Run(Block, START, s[..k]), s[k]);
      RunStep(RuleBody, START, s, k);
      RunStep(Block, START, s, k);
      assert s[k..][0] == s[k] && s[k..][1..] == s[k + 1..];
      EndsFrom(s, k + 1);
    }
  }

  // ---------------------------------------------------------------- what every scanner sees alike

  /** An escaped byte is passed over, whatever it is, by all scanners that know strings. */
  lemma EscapePassed(m: Scanner, c: char, rest: string)
    requires !m.Literal()
    ensures var s := ['\\', c] + rest;
            Scan(m, START, s) == (2 + Scan(m, START, rest).0, Scan(m, START, rest).1)
  {
    hide Scan;
    var st := START.(escaped := true);
    OneByte(m, START, '\\', [c] + rest);
    OneByte(m, st, c, rest);
    assert ['\\', c] + rest == ['\\'] + ([c] + rest);
  }

  /** So is a string of either quote. */
  lemma StringPassed(m: Scanner, q: char, t: string, rest: string)
    requires !m.Literal() && IsQuote(q) && q !in t && '\\' !in t && (m.NewlineEndsString() ==> '\n' !in t)
    ensures var s := [q] + t + [q] + rest;
            Scan(m, START, s) == (|t| + 2 + Scan(m, START, rest).0, Scan(m, START, rest).1)
  {
    hide Scan;
    var st := START.(quote := q);
    StringOpened(m, q);
    OneByte(m, START, q, t + ([q] + rest));
    StringRuns(m, q, t);
    ScanAppend(m, st, t, [q] + rest);
    OneByte(m, st, q, rest);
    assert [q] + t + [q] + rest == [q] + (t + ([q] + rest));
  }

  lemma StringOpened(m: Scanner, q: char)
    requires !m.Literal() && IsQuote(q)
    ensures !Ends(m, START, q) && Step(m, START, q) == START.(quote := q)
    ensures !Ends(m, START.(quote := q), q) && Step(m, START.(quote := q), q) == START
  {
  }

  lemma {:induction false} StringRuns(m: Scanner, q: char, t: string)
    requires !m.Literal() && IsQuote(q) && q !in t && '\\' !in t && (m.NewlineEndsString() ==> '\n' !in t)
    ensures Scan(m, START.(quote := q), t) == (|t|, START.(quote := q))
    decreases |t|
  {
    if t != "" { StringRuns(m, q, t[1..]); }
  }

  /** In selectors, rule bodies and statements a line break ends a string and marks it bad. */
  lemma LineBreakEndsString(m: Scanner, q: char, t: string, rest: string)
    requires m.Selector? || m.RuleBody? || m.Statement?
    requires IsQuote(q) && q !in t && '\\' !in t && '\n' !in t
    ensures var s, bad := [q] + t + "\n" + rest, START.(bad := true);
            Scan(m, START, s) == (|t| + 2 + Scan(m, bad, rest).0, Scan(m, bad, rest).1)
  {
    hide Scan;
    var st := START.(quote := q);
    StringOpened(m, q);
    OneByte(m, START, q, t + (['\n'] + rest));
    StringRuns(m, q, t);
    ScanAppend(m, st, t, ['\n'] + rest);
    OneByte(m, st, '\n', rest);
    assert [q] + t + "\n" + rest == [q] + (t + (['\n'] + rest));
  }
}
