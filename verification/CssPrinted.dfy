/** Printed trees under the scanners: what they pass over, where reading resumes, and declarations read back. */
module CssPrinted {
  import opened Options
  import opened Text
  import opened CssScan
  import opened CssDecls
  import opened CssSelectors
  import opened CssReading
  import opened CssTree

  // ---------------------------------------------------------------- printed text under the scanners

  /** The scanners that pass over whole blocks. */
  predicate Whole(m: Scanner) {
    m.Braces? || m.RuleBody? || m.Block?
  }

  lemma GroupingIsWord(name: string)
    requires GroupName(name)
    ensures Word(name)
  {
    if name == "media" { assert Word("media"); }
    else if name == "supports" { assert Word("supports"); }
    else if name == "starting-style" { assert Word("starting-style"); }
    else if name == "layer" { assert Word("layer"); }
    else if name == "container" { assert Word("container"); }
    else { assert Word("scope"); }
  }

  lemma WordIsPlain(w: string)
    requires Word(w)
    ensures Plain(w) && Balanced(w, 0) && Lower(w) == w && Trimmed(w)
  {
    NoParensBalanced(w);
    forall i | 0 <= i < |w| ensures PlainChar(w[i]) && LowerChar(w[i]) == w[i] {}
  }

  lemma AtIsPlain()
    ensures Plain("@") && Balanced("@", 0) && Plain(" ") && Balanced(" ", 0) && Blank(" ")
  {
    assert "@"[1..] == "" && " "[1..] == "";
  }

  lemma HeaderIsPlain(top: bool, gap: string, it: Item)
    requires Blank(gap) && !it.Declare? && GoodItem(top, it)
    ensures Plain(Header(gap, it)) && Balanced(Header(gap, it), 0)
  {
    hide Plain, Balanced, PlainSelector, Good, GroupName;
    BlankIsPlain(gap);
    if it.Style? {
      JoinedEnds(gap, it.selectors);
      PlainAppend(Joined(gap, it.selectors), gap);
    } else {
      GroupingIsWord(it.name);
      WordIsPlain(it.name);
      AtIsPlain();
      PlainAppend("@", it.name);
      PlainAppend("@" + it.name, " ");
      PlainAppend("@" + it.name + " ", it.prelude);
      PlainAppend("@" + it.name + " " + it.prelude, gap);
    }
  }

  lemma HeaderIsNeutral(m: Scanner, top: bool, gap: string, it: Item)
    requires Blank(gap) && !it.Declare? && GoodItem(top, it) && !m.Name? && !m.BareName?
    ensures Neutral(m, Header(gap, it))
  {
    hide Neutral, Good, GoodItem;
    HeaderIsPlain(top, gap, it);
    PlainIsNeutral(m, Header(gap, it));
  }

  predicate InBlocks(m: Scanner) {
    Whole(m) || m.Statement? || m.Declarations?
  }

  /** What passes over the value passes over the declaration. */
  lemma WrittenIsNeutral(m: Scanner, d: Declaration)
    requires WritableProperty(d.property) && Neutral(m, d.value) && InBlocks(m)
    ensures Neutral(m, Written(d))
  {
    hide Neutral, Scan, Find, Lower;
    NoParensBalanced(d.property);
    PlainIsNeutral(m, d.property);
    ColonIsPlain();
    PlainIsNeutral(m, ":");
    NeutralConcat(m, d.property, ":");
    NeutralConcat(m, d.property + ":", d.value);
    if d.important {
      PlainIsNeutral(m, IMPORTANT);
      NeutralConcat(m, d.property + ":" + d.value, IMPORTANT);
    } else {
      assert d.property + ":" + d.value + "" == d.property + ":" + d.value;
    }
  }

  lemma ColonIsPlain()
    ensures Plain(":") && Balanced(":", 0) && Plain(IMPORTANT) && Balanced(IMPORTANT, 0)
  {
    assert ":"[1..] == "";
    NoParensBalanced(IMPORTANT);
  }

  lemma NeutralConcat(m: Scanner, a: string, b: string)
    requires Neutral(m, a) && Neutral(m, b)
    ensures Neutral(m, a + b)
  {
    NeutralAppend(m, a, b);
  }

  lemma SemicolonIsNeutral(m: Scanner)
    requires Whole(m)
    ensures Neutral(m, ";")
  {
    assert ";"[1..] == "";
  }

  lemma BlankIsNeutral(m: Scanner, g: string)
    requires Blank(g) && !m.Name? && !m.BareName?
    ensures Neutral(m, g)
  {
    hide Neutral;
    BlankIsPlain(g);
    PlainIsNeutral(m, g);
  }

  /** Where every value is passed over by the scanners around it, so is every block. */
  lemma {:induction false} ClearIsClosed(around: set<Scanner>, top: bool, gap: string, items: seq<Item>)
    requires Blank(gap) && Good(top, items) && Clear(around, top, items) && forall m :: m in around ==> Whole(m)
    ensures Closed(gap, top, items)
    ensures forall m :: m in around ==> Neutral(m, Print(gap, items))
    decreases items
  {
    hide Neutral, GoodItem, ClearItem, ClosedItem, Print;
    if items != [] {
      var it, rest := items[0], items[1..];
      assert GoodItem(top, it) && ClearItem(around, top, it);
      ClearItemIsClosed(around, top, gap, it);
      ClearIsClosed(around, top, gap, rest);
      forall m | m in around ensures Neutral(m, Print(gap, items)) { PrintIsNeutral(m, gap, items); }
      forall i | 0 <= i < |items| ensures ClosedItem(gap, top, items[i]) {
        if i > 0 { assert items[i] == rest[i - 1]; }
      }
    } else {
      forall m | m in around ensures Neutral(m, Print(gap, items)) { NothingIsNeutral(m, gap); }
    }
  }

  lemma NothingIsNeutral(m: Scanner, gap: string)
    ensures Neutral(m, Print(gap, []))
  {
  }

  lemma PrintIsNeutral(m: Scanner, gap: string, items: seq<Item>)
    requires Whole(m) && Blank(gap) && items != []
    requires Neutral(m, PrintItem(gap, items[0])) && Neutral(m, Print(gap, items[1..]))
    ensures Neutral(m, Print(gap, items))
  {
    hide Neutral, PrintItem;
    BlankIsNeutral(m, gap);
    NeutralConcat(m, PrintItem(gap, items[0]), gap);
    NeutralConcat(m, PrintItem(gap, items[0]) + gap, Print(gap, items[1..]));
  }

  lemma {:induction false} ClearItemIsClosed(around: set<Scanner>, top: bool, gap: string, it: Item)
    requires Blank(gap) && GoodItem(top, it) && ClearItem(around, top, it) && forall m :: m in around ==> Whole(m)
    ensures ClosedItem(gap, top, it)
    ensures forall m :: m in around ==> Neutral(m, PrintItem(gap, it))
    decreases it
  {
    hide Neutral, Passes, Header, GoodDeclaration, PlainSelector, GroupName, Plain, Good, Clear, Closed, Print,
         PrintItem;
    if it.Declare? {
      forall m | m in around ensures Neutral(m, PrintItem(gap, it)) { DeclareIsNeutral(m, gap, it); }
    } else {
      var closer := Closer(top, it);
      ClearIsClosed(around + {closer}, BodyTop(top, it), gap, it.body);
      NeutralPasses(closer, Print(gap, it.body));
      forall m | m in around ensures Neutral(m, PrintItem(gap, it)) { BlockIsNeutral(m, top, gap, it); }
    }
  }

  lemma DeclareIsNeutral(m: Scanner, gap: string, it: Item)
    requires Whole(m) && it.Declare? && GoodItem(false, it) && Neutral(m, it.decl.value)
    ensures Neutral(m, PrintItem(gap, it))
  {
    hide Neutral, Written, WritableValue, WritableProperty, NoCapitals, NoImportant;
    WrittenIsNeutral(m, it.decl);
    SemicolonIsNeutral(m);
    NeutralConcat(m, Written(it.decl), ";");
  }

  lemma BlockIsNeutral(m: Scanner, top: bool, gap: string, it: Item)
    requires Whole(m) && Blank(gap) && !it.Declare? && GoodItem(top, it) && Neutral(m, Print(gap, it.body))
    ensures Neutral(m, PrintItem(gap, it))
  {
    hide Neutral, Header, Good, PlainSelector, GroupName, Plain, Print;
    HeaderIsNeutral(m, top, gap, it);
    GapBodyIsNeutral(m, gap, Print(gap, it.body));
    NeutralBraced(m, gap + Print(gap, it.body));
    NeutralConcat(m, Header(gap, it), "{" + (gap + Print(gap, it.body)) + "}");
    assert PrintItem(gap, it) == Header(gap, it) + ("{" + (gap + Print(gap, it.body)) + "}");
  }

  lemma GapBodyIsNeutral(m: Scanner, gap: string, body: string)
    requires Whole(m) && Blank(gap) && Neutral(m, body)
    ensures Neutral(m, gap + body)
  {
    hide Neutral;
    BlankIsNeutral(m, gap);
    NeutralConcat(m, gap, body);
  }

  // ---------------------------------------------------------------- where reading resumes

  lemma ItemStarts(top: bool, gap: string, it: Item, rest: string)
    requires Blank(gap) && GoodItem(top, it)
    ensures Starts(PrintItem(gap, it) + rest)
    ensures |PrintItem(gap, it)| > 1
    ensures (PrintItem(gap, it)[0] == '@') == it.Group?
  {
    hide Good, WritableValue, NoImportant, Neutral, Print;
    if it.Style? {
      assert PlainSelector(it.selectors[0]);
      JoinedEnds(gap, it.selectors);
      if |Joined(gap, it.selectors)| == 1 && gap != "" { assert IsBlank(gap[0]); }
    }
  }

  lemma PrintStarts(top: bool, gap: string, items: seq<Item>, rest: string)
    requires Blank(gap) && Good(top, items) && Starts(rest)
    ensures Starts(Print(gap, items) + rest)
  {
    hide GoodItem, PrintItem;
    if items != [] {
      ItemStarts(top, gap, items[0], gap + Print(gap, items[1..]) + rest);
      assert Print(gap, items) + rest == PrintItem(gap, items[0]) + (gap + Print(gap, items[1..]) + rest);
    } else {
      assert Print(gap, items) + rest == rest;
    }
  }

  lemma GapSkipped(cd: Conditions, cx: Context, n: nat, gap: string, s: string)
    requires Blank(gap) && Starts(s)
    ensures ReadSheet(cd, cx, n, gap + s) == ReadSheet(cd, cx, n, s).(used := |gap| + |s|)
  {
    hide ReadStatement, Spaces, Blanks;
    BlanksThen(gap, s);
    BlanksThen("", s);
    assert "" + s == s && (gap + s)[|gap|..] == s && s[0..] == s;
  }

  lemma GapSkippedInBlock(cd: Conditions, cx: Context, n: nat, gap: string, s: string, parents: seq<string>)
    requires Blank(gap) && Starts(s)
    ensures ReadBlock(cd, cx, n, gap + s, parents) == ReadBlock(cd, cx, n, s, parents).(used := |gap| + |s|)
  {
    hide ReadItem, Spaces, Blanks;
    BlanksThen(gap, s);
    BlanksThen("", s);
    assert "" + s == s && (gap + s)[|gap|..] == s && s[0..] == s;
  }

  // ---------------------------------------------------------------- declarations

  lemma NoImportantAcross(v: string, k: nat)
    requires k < Find(Lower(v), IMPORTANT)
    ensures !(IMPORTANT <= Lower(v + IMPORTANT)[k..])
  {
    hide Find, Lower;
    var all := Lower(v + IMPORTANT);
    LowerAppend(v, IMPORTANT);
    var off := |v| - k;
    if off < |IMPORTANT| {
      assert all[k..][off] == '!' && IMPORTANT[off] != '!';
    } else {
      FindIsFirst(Lower(v), IMPORTANT, k);
      assert all[k..][..|IMPORTANT|] == Lower(v)[k..][..|IMPORTANT|];
    }
  }

  lemma LowerAppend(a: string, b: string)
    ensures Lower(a + b) == Lower(a) + Lower(b)
    ensures Lower(IMPORTANT) == IMPORTANT
  {
    hide LowerChar;
    LowerImportant();
  }

  lemma LowerImportant()
    ensures Lower(IMPORTANT) == IMPORTANT
  {
  }

  /** What the reader makes of `value` or `value!important`. */
  lemma ValueRead(v: string, important: bool)
    requires WritableValue(v)
    ensures var text, at := v + if important then IMPORTANT else "", Find(Lower(v), IMPORTANT);
            && Trimmed(text) && StripEscapedNewlines(NO_QUOTE, text) == text
            && Find(Lower(text), IMPORTANT) == at
  {
    hide Neutral, Lower, LowerChar, Find, StripEscapedNewlines;
    if important {
      ImportantEnds(v);
      StripAppend(NO_QUOTE, v, IMPORTANT);
      ImportantFound(v);
    } else {
      assert v + "" == v;
    }
  }

  lemma ImportantEnds(v: string)
    requires Trimmed(v)
    ensures Trimmed(v + IMPORTANT)
  {
    var text := v + IMPORTANT;
    assert text[|text| - 1] == 't';
    assert text[0] == if v == "" then '!' else v[0];
  }

  /** The first `!important` is the value's own, or the one written behind it. */
  lemma ImportantFound(v: string)
    ensures Find(Lower(v + IMPORTANT), IMPORTANT) == Find(Lower(v), IMPORTANT)
  {
    hide Find, Lower;
    LowerAppend(v, IMPORTANT);
    var all, at := Lower(v + IMPORTANT), Find(Lower(v), IMPORTANT);
    if at == |v| {
      assert all[at..] == IMPORTANT;
    } else {
      assert all[at..] == Lower(v)[at..] + IMPORTANT;
      assert IMPORTANT <= Lower(v)[at..] <= all[at..];
    }
    forall k | 0 <= k < at ensures !(IMPORTANT <= all[k..]) { NoImportantAcross(v, k); }
    FindHere(all, IMPORTANT, at);
  }

  /** Stripping reaches an appended word without backslashes unchanged. */
  lemma {:induction false} StripAppend(quote: char, v: string, w: string)
    requires StripEscapedNewlines(quote, v) == v && forall i :: 0 <= i < |w| ==> w[i] != '\\'
    requires w != "" && w[0] != '\n' && w[0] != '\r'
    ensures StripEscapedNewlines(quote, v + w) == v + w
    decreases |v|
  {
    hide StripEscapedNewlines, IsQuote;
    if v == "" {
      NothingToStrip(quote, w);
      assert v + w == w;
    } else {
      KeptByte(quote, v);
      KeptByteAppended(quote, v, w);
      assert (v + w)[1..] == v[1..] + w;
      StripAppend(NextQuote(quote, v[0]), v[1..], w);
    }
  }

  function NextQuote(quote: char, c: char): char {
    if quote == NO_QUOTE && IsQuote(c) then c else if c == quote then NO_QUOTE else quote
  }

  predicate StripsHere(quote: char, v: string) {
    quote != NO_QUOTE && |v| > 1 && v[0] == '\\' && (v[1] == '\n' || v[1] == '\r')
  }

  /** Text that is left alone starts with a byte that is kept. */
  lemma KeptByte(quote: char, v: string)
    requires v != "" && StripEscapedNewlines(quote, v) == v
    ensures !StripsHere(quote, v) && StripEscapedNewlines(NextQuote(quote, v[0]), v[1..]) == v[1..]
  {
    StripShrinks(quote, v);
    assert StripEscapedNewlines(quote, v)[1..] == v[1..];
  }

  lemma KeptByteAppended(quote: char, v: string, w: string)
    requires v != "" && !StripsHere(quote, v) && w != "" && w[0] != '\n' && w[0] != '\r'
    ensures StripEscapedNewlines(quote, v + w)
            == [v[0]] + StripEscapedNewlines(NextQuote(quote, v[0]), (v + w)[1..])
  {
    hide IsQuote;
    assert (v + w)[0] == v[0] && (v + w)[1] == if |v| > 1 then v[1] else w[0];
  }

  /** Text stripping leaves alone holds no pair to strip, so it is left alone byte by byte. */
  lemma {:induction false} StripShrinks(quote: char, v: string)
    ensures |StripEscapedNewlines(quote, v)| <= |v|
    ensures v != "" && quote != NO_QUOTE && v[0] == '\\' && |v| > 1 && (v[1] == '\n' || v[1] == '\r') ==>
              |StripEscapedNewlines(quote, v)| < |v|
    decreases |v|
  {
    if v != "" {
      if quote != NO_QUOTE && v[0] == '\\' && |v| > 1 && (v[1] == '\n' || v[1] == '\r') {
        StripShrinks(quote, if v[1] == '\r' && |v| > 2 && v[2] == '\n' then v[3..] else v[2..]);
      } else {
        StripShrinks(if quote == NO_QUOTE && IsQuote(v[0]) then v[0]
                     else if v[0] == quote then NO_QUOTE else quote, v[1..]);
      }
    }
  }

  /** A declaration as it comes back: the name in lower case, the value cut before its first `!important`. */
  function ReadAs(d: Declaration): Declaration {
    var at := Find(Lower(d.value), IMPORTANT);
    Declaration(Lower(d.property), if at < |d.value| then Trim(d.value[..at]) else d.value,
                d.important || at < |d.value|)
  }

  /** The whole text is one piece of a list. */
  predicate WholePiece(s: string) {
    Reach(Declarations, s) == |s|
  }

  /** A written declaration that is one piece of a list is one declaration. */
  lemma WrittenReadsAs(d: Declaration)
    requires WritableProperty(d.property) && WritableValue(d.value) && WholePiece(Written(d))
    ensures Trim(Written(d)) == Written(d) && Declared(Written(d)) == [ReadAs(d)]
  {
    hide Reach, Trim, WritableValue, WritableProperty, Pieces, Read, Written, ReadAs;
    WrittenTrimmed(d);
    OnePiece(Written(d));
    WrittenIsRead(d);
    assert ReadAll([Written(d)]) == Read(Written(d)) + ReadAll([Written(d)][1..]);
  }

  /**
   A written declaration reads back as itself exactly when it is one piece of a list, its name has no capitals
   and its value holds no `!important`, not even in a string.
   */
  lemma WrittenReadsIff(d: Declaration)
    requires WritableProperty(d.property) && WritableValue(d.value)
    ensures Declared(Written(d)) == [d]
            <==> WholePiece(Written(d)) && NoCapitals(d.property) && NoImportant(d.value)
  {
    hide Declared, Written, Find, Lower, WritableValue, WritableProperty, WholePiece;
    if WholePiece(Written(d)) {
      WrittenReadsAs(d);
      var at := Find(Lower(d.value), IMPORTANT);
      if at < |d.value| { TrimShortens(d.value[..at]); }
    } else {
      CutReadsShorter(d);
    }
  }

  lemma TrimShortens(s: string)
    ensures |Trim(s)| <= |s|
  {
  }

  lemma FirstPiece(s: string)
    requires !WholePiece(s)
    ensures var k := Reach(Declarations, s);
            k < |s| && s[k] == ';' && Declared(s) == Read(s[..k]) + Declared(s[k + 1..])
  {
    hide Scan, Read;
    var k := Reach(Declarations, s);
    assert Pieces(s) == [s[..k]] + Pieces(s[k + 1..]);
    assert ([s[..k]] + Pieces(s[k + 1..]))[1..] == Pieces(s[k + 1..]);
  }

  /** A declaration cut inside its value is read with less. */
  lemma CutReadsShorter(d: Declaration)
    requires WritableProperty(d.property) && !WholePiece(Written(d))
    ensures Declared(Written(d)) != [d]
  {
    hide Declared, Read, Scan, Find, Trim, WholePiece;
    var w, p := Written(d), d.property;
    FirstPiece(w);
    var k := Reach(Declarations, w);
    CutBehindColon(d, k);
    var head := w[..k];
    assert head == p + ":" + head[|p| + 1..];
    ReadLength(p, head[|p| + 1..]);
    assert Read(head)[0] == Declared(w)[0];
  }

  lemma CutBehindColon(d: Declaration, k: nat)
    requires WritableProperty(d.property) && k < |Written(d)| && Written(d)[k] == ';'
    ensures |d.property| < k < |d.property| + 1 + |d.value|
    ensures Written(d)[..|d.property| + 1] == d.property + ":"
  {
    var w, p := Written(d), d.property;
    forall i | 0 <= i < |p| ensures w[i] != ';' { assert PlainChar(p[i]); }
    forall i | |p| + |d.value| < i < |w| ensures w[i] != ';' { assert w[i] == IMPORTANT[i - |p| - 1 - |d.value|]; }
  }

  /** A value is read with no more bytes than stand behind the colon. */
  lemma ReadLength(p: string, rest: string)
    requires ':' !in p && p != "" && Trimmed(p)
    ensures var r := Read(p + ":" + rest); |r| == 1 && |r[0].value| <= |rest|
  {
    hide Find, Lower, StripEscapedNewlines, TrimRight;
    var s := p + ":" + rest;
    TrimRightKeeps(s, |p|);
    var t := Trim(s);
    var left := t[|p| + 1..];
    assert t == s[..|t|] == p + ":" + left;
    FindColon(p, left);
    TrimShortens(left);
    StripShrinks(NO_QUOTE, Trim(left));
    var val := StripEscapedNewlines(NO_QUOTE, Trim(left));
    TrimShortens(val[..Find(Lower(val), IMPORTANT)]);
  }

  lemma {:induction false} TrimRightKeeps(s: string, k: nat)
    requires k < |s| && !IsSpace(s[k])
    ensures k < |TrimRight(s)|
    decreases |s|
  {
    if IsSpace(s[|s| - 1]) { TrimRightKeeps(s[..|s| - 1], k); }
  }

  lemma WrittenReads(d: Declaration)
    requires GoodDeclaration(d)
    ensures Trim(Written(d)) == Written(d) && Declared(Written(d)) == [d]
  {
    hide Declared, Written, WritableValue, WritableProperty, NoCapitals, NoImportant, Neutral;
    StatementIsPiece(Written(d));
    WrittenReadsAs(d);
    WrittenReadsIff(d);
  }

  lemma StatementByte(st: Lex, c: char)
    ensures !Ends(Statement, st, c) ==> !Ends(Declarations, st, c)
    ensures st.bad ==> Step(Statement, st, c).bad
    ensures !Step(Statement, st, c).bad ==> Step(Statement, st, c) == Step(Declarations, st, c)
  {
  }

  lemma {:induction false} BadStays(s: string, st: Lex)
    requires st.bad
    ensures Scan(Statement, st, s).1.bad
    decreases |s|
  {
    hide Step, Ends;
    if s != "" && !Ends(Statement, st, s[0]) {
      StatementByte(st, s[0]);
      BadStays(s[1..], Step(Statement, st, s[0]));
    }
  }

  lemma {:induction false} ScansAlike(st: Lex, s: string)
    requires Scan(Statement, st, s).0 == |s| && !Scan(Statement, st, s).1.bad
    ensures Scan(Declarations, st, s) == Scan(Statement, st, s)
    decreases |s|
  {
    hide Step, Ends;
    if s != "" {
      var next := Step(Statement, st, s[0]);
      StatementByte(st, s[0]);
      if next.bad { BadStays(s[1..], next); }
      ScansAlike(next, s[1..]);
    }
  }

  /** What is one statement is one piece of a list. */
  lemma StatementIsPiece(s: string)
    requires Neutral(Statement, s)
    ensures WholePiece(s)
  {
    hide Scan;
    ScansAlike(START, s);
  }

  /** Every scanner of values passes over this one. */
  predicate PassedByAll(v: string) {
    forall m: Scanner :: InBlocks(m) ==> Neutral(m, v)
  }

  /** Text without strings, escapes, braces or semicolons, its parentheses closed, may stand anywhere. */
  lemma PlainIsWritable(v: string)
    requires Trimmed(v) && Plain(v) && Balanced(v, 0)
    ensures WritableValue(v) && PassedByAll(v)
  {
    hide Neutral, Balanced;
    forall m: Scanner | InBlocks(m) ensures Neutral(m, v) { PlainIsNeutral(m, v); }
    forall i | 0 <= i < |v| ensures v[i] != '\\' { assert PlainChar(v[i]); }
    NothingToStrip(NO_QUOTE, v);
  }

  /** A quoted text without quotes, escapes, line breaks, braces and semicolons may stand anywhere. */
  lemma QuotedIsWritable(body: string)
    requires Plain(body) && '\n' !in body
    ensures WritableValue("\"" + body + "\"") && PassedByAll("\"" + body + "\"")
  {
    hide Neutral, StripEscapedNewlines, Plain;
    var v := "\"" + body + "\"";
    QuotedHasNone(body);
    NoBracesNeutral(v);
    forall m: Scanner | InBlocks(m) ensures Neutral(m, v) {
      if !m.Braces? { QuotedIsNeutral(m, body); }
    }
    NothingToStrip(NO_QUOTE, v);
    assert v[0] == '"' && v[|v| - 1] == '"';
  }

  /** So may a function of one quoted argument, such as `url("a.png")`, when the parentheses in it match. */
  lemma QuotedArgumentIsWritable(name: string, body: string)
    requires Word(name) && Plain(body) && Balanced(body, 0) && '\n' !in body
    ensures var v := name + "(\"" + body + "\")"; WritableValue(v) && PassedByAll(v)
  {
    hide Neutral, StripEscapedNewlines, Plain, Balanced;
    var v := name + "(\"" + body + "\")";
    WordIsPlain(name);
    forall i | 0 <= i < |v| ensures v[i] != '\\' && v[i] != '{' && v[i] != '}' { ArgumentHasNone(name, body, i); }
    NoBracesNeutral(v);
    forall m: Scanner | InBlocks(m) ensures Neutral(m, v) {
      if !m.Braces? {
        PlainIsNeutral(m, name);
        ArgumentIsNeutral(m, body);
        NeutralConcat(m, name, "(\"" + body + "\")");
        assert name + ("(\"" + body + "\")") == v;
      }
    }
    NothingToStrip(NO_QUOTE, v);
    assert v[0] == name[0] && v[|v| - 1] == ')';
  }

  lemma ArgumentHasNone(name: string, body: string, i: nat)
    requires Plain(name) && Plain(body) && i < |name| + |body| + 4
    ensures var c := (name + "(\"" + body + "\")")[i]; c != '\\' && c != '{' && c != '}'
  {
    if i < |name| {
      assert PlainChar(name[i]);
    } else if |name| + 2 <= i < |name| + 2 + |body| {
      assert PlainChar(body[i - |name| - 2]);
    }
  }

  lemma ArgumentIsNeutral(m: Scanner, body: string)
    requires InBlocks(m) && !m.Braces? && Plain(body) && Balanced(body, 0) && '\n' !in body
    ensures Neutral(m, "(\"" + body + "\")")
  {
    hide Plain, Balanced, Scan, PassedByAll;
    var open := AtDepth(m, 1);
    assert ['('] + ("\"" + body + "\")") == "(\"" + body + "\")";
    ArgumentSteps(m);
    OneByte(m, START, '(', "\"" + body + "\")");
    if m.CountsParens() {
      OneByte(m, open, '"', body + "\")");
      assert ['"'] + (body + "\")") == "\"" + body + "\")";
      DeeperPlain(m, body);
      ScanAppend(m, open, body, "\")");
      OneByte(m, open, '"', ")");
      assert ['"'] + ")" == "\")" && [')'] + "" == ")";
      OneByte(m, open, ')', "");
      NothingScanned(m, START);
    } else {
      QuotedIsNeutral(m, body);
      NeutralAppend(m, "\"" + body + "\"", ")");
      assert "\"" + body + "\"" + ")" == "\"" + body + "\")" && [')'] + "" == ")";
      OneByte(m, START, ')', "");
      NothingScanned(m, START);
    }
  }

  lemma NothingScanned(m: Scanner, st: Lex)
    ensures Scan(m, st, "") == (0, st)
  {
  }

  lemma ArgumentSteps(m: Scanner)
    requires InBlocks(m) && !m.Braces?
    ensures !Ends(m, START, '(') && Step(m, START, '(') == AtDepth(m, 1)
    ensures var st := AtDepth(m, 1); !Ends(m, st, ')') && Step(m, st, ')') == START
    ensures m.CountsParens() ==> !Ends(m, AtDepth(m, 1), '"') && Step(m, AtDepth(m, 1), '"') == AtDepth(m, 1)
  {
  }

  /** Plain text inside parentheses leaves them as they are. */
  lemma {:induction false} DeeperPlain(m: Scanner, s: string)
    requires Plain(s) && Balanced(s, 0) && m.CountsParens()
    ensures Scan(m, AtDepth(m, 1), s) == (|s|, AtDepth(m, 1))
  {
    DeeperPlainFrom(m, 0, s);
  }

  lemma {:induction false} DeeperPlainFrom(m: Scanner, depth: nat, s: string)
    requires Plain(s) && Balanced(s, depth) && m.CountsParens()
    ensures Scan(m, AtDepth(m, depth + 1), s) == (|s|, AtDepth(m, 1))
    decreases |s|
  {
    hide Step, Ends;
    if s != "" {
      PlainStep(m, depth + 1, s[0]);
      DeeperPlainFrom(m, if s[0] == '(' then depth + 1 else if s[0] == ')' then depth - 1 else depth, s[1..]);
    }
  }

  lemma QuotedHasNone(body: string)
    requires Plain(body)
    ensures var v := "\"" + body + "\""; forall i :: 0 <= i < |v| ==> v[i] != '\\' && v[i] != '{' && v[i] != '}'
  {
    var v := "\"" + body + "\"";
    forall i | 0 <= i < |v| ensures v[i] != '\\' && v[i] != '{' && v[i] != '}' {
      if 0 < i <= |body| { assert v[i] == body[i - 1] && PlainChar(body[i - 1]); }
    }
  }

  lemma {:induction false} NoBracesNeutral(s: string)
    requires forall i :: 0 <= i < |s| ==> s[i] != '{' && s[i] != '}'
    ensures Neutral(Braces, s)
    decreases |s|
  {
    if s != "" { NoBracesNeutral(s[1..]); }
  }

  lemma {:induction false} InsideString(m: Scanner, s: string)
    requires InBlocks(m) && !m.Braces? && Plain(s) && '\n' !in s
    ensures Scan(m, START.(quote := '"'), s) == (|s|, START.(quote := '"'))
    decreases |s|
  {
    if s != "" {
      assert PlainChar(s[0]);
      InsideString(m, s[1..]);
    }
  }

  lemma QuotedIsNeutral(m: Scanner, body: string)
    requires InBlocks(m) && !m.Braces? && Plain(body) && '\n' !in body
    ensures Neutral(m, "\"" + body + "\"")
  {
    hide Plain, Scan;
    var inside := START.(quote := '"');
    InsideString(m, body);
    OneByte(m, inside, '"', "");
    NothingScanned(m, START);
    assert ['"'] + "" == "\"";
    ScanAppend(m, inside, body, "\"");
    OneByte(m, START, '"', body + "\"");
    assert ['"'] + (body + "\"") == "\"" + body + "\"";
  }

  /** `--Main:x` comes back under another name. */
  lemma CapitalsAreLost()
    ensures Declared(Written(Declaration("--Main", "x", false))) == [Declaration("--main", "x", false)]
  {
    hide Declared, Written, Neutral, StripEscapedNewlines, Find;
    var d := Declaration("--Main", "x", false);
    assert "x"[1..] == "";
    PlainIsWritable("x");
    PassedIsPiece(d);
    WrittenReadsAs(d);
    ImportantIsLong("x");
    assert Lower("--Main") == "--main";
  }

  lemma PassedIsPiece(d: Declaration)
    requires WritableProperty(d.property) && PassedByAll(d.value)
    ensures WholePiece(Written(d)) && Neutral(Statement, Written(d))
  {
    hide Written, WritableProperty, Scan;
    assert InBlocks(Statement) && InBlocks(Declarations);
    WrittenIsNeutral(Statement, d);
    WrittenIsNeutral(Declarations, d);
  }

  lemma ImportantIsLong(v: string)
    requires |v| < |IMPORTANT|
    ensures Find(Lower(v), IMPORTANT) == |v|
  {
    hide Find;
    assert Find(Lower(v), IMPORTANT) <= |v|;
  }

  /** `content:"!important"` comes back as an important declaration of one quote. */
  lemma QuotedImportantCuts()
    ensures Declared(Written(Declaration("content", "\"!important\"", false))) == [Declaration("content", "\"", true)]
  {
    hide Declared, Written, Neutral, WritableValue, WritableProperty, Find, Lower, Plain, Trim;
    var d := Declaration("content", "\"!important\"", false);
    ContentIsWritable();
    assert "\"" + "!important" + "\"" == d.value;
    QuotedIsWritable("!important");
    PassedIsPiece(d);
    WrittenReadsAs(d);
    FindQuoted();
    assert d.value[..1] == "\"";
    TrimmedTrim("\"");
  }

  lemma ContentIsWritable()
    ensures WritableProperty("content") && Lower("content") == "content" && Plain("!important")
  {
  }

  lemma FindQuoted()
    ensures Find(Lower("\"!important\""), IMPORTANT) == 1
  {
    hide Find;
    var v := "\"!important\"";
    assert Lower(v) == v;
    assert v[1..] == IMPORTANT + "\"";
    assert v[0..][0] == '"';
    FindHere(v, IMPORTANT, 1);
  }

  lemma WrittenTrimmed(d: Declaration)
    requires WritableProperty(d.property) && WritableValue(d.value)
    ensures Written(d) != "" && Trim(Written(d)) == Written(d)
  {
    hide Neutral, Trim, Find, Lower, StripEscapedNewlines, Plain;
    var text := d.value + if d.important then IMPORTANT else "";
    var w := Written(d);
    assert w == d.property + ":" + text;
    ValueRead(d.value, d.important);
    assert w[0] == d.property[0] && w[|w| - 1] == (if text == "" then ':' else text[|text| - 1]);
    TrimmedTrim(w);
  }

  /** A name and a trimmed text around the first colon. */
  lemma PartRead(p: string, text: string)
    requires ':' !in p && Trimmed(p) && p != "" && Trimmed(text)
    requires StripEscapedNewlines(NO_QUOTE, text) == text && Trim(p + ":" + text) == p + ":" + text
    ensures var at := Find(Lower(text), IMPORTANT);
            Read(p + ":" + text)
            == [Declaration(Lower(p), if at < |text| then Trim(text[..at]) else text, at < |text|)]
  {
    hide Trim, Find, Lower, StripEscapedNewlines;
    var w := p + ":" + text;
    FindColon(p, text);
    TrimmedTrim(text);
    TrimmedTrim(p);
    assert w[|p| + 1..] == text && w[..|p|] == p;
  }

  lemma WrittenIsRead(d: Declaration)
    requires WritableProperty(d.property) && WritableValue(d.value)
    ensures Read(Written(d)) == [ReadAs(d)]
  {
    hide Neutral, Trim, Find, Lower, StripEscapedNewlines, Plain, WritableValue, OpensComment;
    WrittenTrimmed(d);
    var text := d.value + if d.important then IMPORTANT else "";
    assert Written(d) == d.property + ":" + text;
    ValueRead(d.value, d.important);
    PartRead(d.property, text);
    ValueTrims(d.value);
    var at := Find(Lower(text), IMPORTANT);
    if at < |d.value| {
      assert text[..at] == d.value[..at];
    } else if d.important {
      assert text[..at] == d.value;
    } else {
      assert text == d.value;
    }
  }

  lemma ValueTrims(v: string)
    requires WritableValue(v)
    ensures Trim(v) == v
  {
    hide Neutral, Trim;
    TrimmedTrim(v);
  }

  lemma OnePiece(w: string)
    requires w != "" && WholePiece(w)
    ensures Pieces(w) == [w]
  {
    hide Scan;
  }
}
