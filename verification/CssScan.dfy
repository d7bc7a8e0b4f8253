/**
 The byte scanners of the stylesheet parser.  Each loop of parser.go that hunts for a brace, a semicolon
 or the end of a word is one setting of the same machine: what it treats as a string or an escape, which
 brackets it counts and where it stops.
 */
module CssScan {
  import opened Text

  datatype Scanner =
    | Name          // an at-rule keyword
    | BareName      // the keyword of @property, @starting-style and @font-palette-values
    | Head          // a top-level prelude
    | Braces        // the body of a top-level at-rule: counts braces, blind to strings
    | Selector      // the selectors of a top-level rule
    | RuleBody      // the block of a top-level rule
    | Prelude       // the prelude of a nested at-rule
    | Block         // the block of a nested at-rule or rule
    | Statement     // a declaration or the selectors of a nested rule
    | Declarations  // one declaration of a list
  {
    predicate Literal() {
      Name? || BareName? || Head? || Braces?
    }

    predicate NewlineEndsString() {
      Selector? || RuleBody? || Statement?
    }

    predicate CountsParens() {
      RuleBody? || Statement? || Declarations?
    }

    predicate CountsBraces() {
      Braces? || RuleBody? || Block?
    }
  }

  /** What a scan carries from byte to byte; `bad` records a string that a line break ended. */
  datatype Lex = Lex(quote: char, escaped: bool, parens: nat, braces: nat, bad: bool)

  const NO_QUOTE := '\0'
  const START := Lex(NO_QUOTE, false, 0, 0, false)

  predicate IsQuote(c: char) {
    c == '\'' || c == '"'
  }

  function Step(m: Scanner, st: Lex, c: char): Lex {
    if m.Literal() then
      if m.CountsBraces() then Brace(st, c) else st
    else if st.escaped then st.(escaped := false)
    else if c == '\\' then st.(escaped := true)
    else if st.quote != NO_QUOTE then
      if c == st.quote then st.(quote := NO_QUOTE)
      else if c == '\n' && m.NewlineEndsString() then st.(quote := NO_QUOTE, bad := true)
      else st
    else if IsQuote(c) && st.parens == 0 then st.(quote := c)
    else if m.CountsParens() && c == '(' then st.(parens := st.parens + 1)
    else if m.CountsParens() && c == ')' then st.(parens := if st.parens > 0 then st.parens - 1 else 0)
    else if m.CountsBraces() then Brace(st, c)
    else st
  }

  function Brace(st: Lex, c: char): Lex {
    if c == '{' then st.(braces := st.braces + 1)
    else if c == '}' && st.braces > 0 then st.(braces := st.braces - 1)
    else st
  }

  /** Whether the scan stops in front of this byte. */
  predicate Ends(m: Scanner, st: Lex, c: char) {
    match m
    case Name => IsBlank(c) || c == '{' || c == ';'
    case BareName => IsBlank(c) || c == '{'
    case Head => c == '{' || c == ';'
    case Braces => c == '}' && st.braces == 0
    case Selector => Open(st, c) && c == '{'
    case RuleBody => Open(st, c) && c == '}' && st.braces == 0
    case Prelude => Open(st, c) && (c == '{' || c == ';')
    case Block => Open(st, c) && c == '}' && st.braces == 0
    case Statement => Open(st, c) && st.parens == 0 && (c == '{' || c == ';')
    case Declarations => Open(st, c) && st.parens == 0 && c == ';'
  }

  /** Neither inside a string nor escaped. */
  predicate Open(st: Lex, c: char) {
    !st.escaped && st.quote == NO_QUOTE
  }

  /** How far a scan gets, and its state there. */
  function Scan(m: Scanner, st: Lex, s: string): (r: (nat, Lex))
    ensures r.0 <= |s|
    ensures r.0 < |s| ==> Ends(m, r.1, s[r.0])
    decreases |s|
  {
    if s == "" || Ends(m, st, s[0]) then (0, st)
    else
      var rest := Scan(m, Step(m, st, s[0]), s[1..]);
      (1 + rest.0, rest.1)
  }

  function Reach(m: Scanner, s: string): (n: nat)
    ensures n <= |s|
    ensures n < |s| ==> Ends(m, Scan(m, START, s).1, s[n])
  {
    Scan(m, START, s).0
  }

  /** Text a scan passes over whole and unmoved. */
  predicate Neutral(m: Scanner, s: string) {
    Scan(m, START, s) == (|s|, START)
  }

  // ---------------------------------------------------------------- scans compose

  lemma ScanHead(m: Scanner, st: Lex, s: string)
    ensures Scan(m, st, "") == (0, st)
    ensures s != "" && Ends(m, st, s[0]) ==> Scan(m, st, s) == (0, st)
    ensures s != "" && !Ends(m, st, s[0]) ==>
              var rest := Scan(m, Step(m, st, s[0]), s[1..]);
              Scan(m, st, s) == (1 + rest.0, rest.1)
  {
    hide Step, Ends;
  }

  lemma {:induction false} ScanAppend(m: Scanner, st: Lex, a: string, b: string)
    requires Scan(m, st, a).0 == |a|
    ensures Scan(m, st, a + b) == (|a| + Scan(m, Scan(m, st, a).1, b).0, Scan(m, Scan(m, st, a).1, b).1)
    decreases |a|
  {
    hide Step, Ends, Scan;
    ScanHead(m, st, a);
    if a == "" {
      assert a + b == b;
    } else {
      assert (a + b)[1..] == a[1..] + b && (a + b)[0] == a[0];
      ScanHead(m, st, a + b);
      ScanAppend(m, Step(m, st, a[0]), a[1..], b);
    }
  }

  lemma {:induction false} ScanPrefix(m: Scanner, st: Lex, a: string, b: string)
    requires Scan(m, st, a).0 < |a|
    ensures Scan(m, st, a + b) == Scan(m, st, a)
    decreases |a|
  {
    hide Step, Ends, Scan;
    ScanHead(m, st, a);
    assert (a + b)[1..] == a[1..] + b && (a + b)[0] == a[0];
    ScanHead(m, st, a + b);
    if !Ends(m, st, a[0]) { ScanPrefix(m, Step(m, st, a[0]), a[1..], b); }
  }

  lemma NeutralAppend(m: Scanner, a: string, b: string)
    requires Neutral(m, a)
    ensures Scan(m, START, a + b) == (|a| + Scan(m, START, b).0, Scan(m, START, b).1)
    ensures Neutral(m, b) ==> Neutral(m, a + b)
  {
    hide Scan, Step, Ends;
    ScanAppend(m, START, a, b);
  }

  function Inside(st: Lex): Lex {
    st.(braces := st.braces + 1)
  }

  lemma InsideStep(m: Scanner, st: Lex, c: char)
    requires m.CountsBraces() && !Ends(m, st, c)
    ensures !Ends(m, Inside(st), c) && Step(m, Inside(st), c) == Inside(Step(m, st, c))
  {
  }

  /** A scan that stays inside goes the same way one brace deeper. */
  lemma {:induction false} Deeper(m: Scanner, st: Lex, s: string)
    requires m.CountsBraces() && Scan(m, st, s).0 == |s|
    ensures Scan(m, Inside(st), s) == (|s|, Inside(Scan(m, st, s).1))
    decreases |s|
  {
    hide Step, Ends, Inside;
    if s != "" {
      InsideStep(m, st, s[0]);
      Deeper(m, Step(m, st, s[0]), s[1..]);
    }
  }

  lemma OneByte(m: Scanner, st: Lex, c: char, s: string)
    requires !Ends(m, st, c)
    ensures Scan(m, st, [c] + s) == (1 + Scan(m, Step(m, st, c), s).0, Scan(m, Step(m, st, c), s).1)
  {
    hide Step, Ends;
    assert ([c] + s)[1..] == s;
  }

  lemma BraceSteps(m: Scanner)
    requires m.CountsBraces()
    ensures !Ends(m, START, '{') && Step(m, START, '{') == Inside(START)
    ensures !Ends(m, Inside(START), '}') && Step(m, Inside(START), '}') == START
  {
  }

  /** A braced block is passed over when its inside is. */
  lemma NeutralBraced(m: Scanner, s: string)
    requires m.CountsBraces() && Neutral(m, s)
    ensures Neutral(m, "{" + s + "}")
  {
    hide Step, Ends, Inside;
    BraceSteps(m);
    Deeper(m, START, s);
    ScanAppend(m, Inside(START), s, "}");
    OneByte(m, Inside(START), '}', "");
    assert ['}'] + "" == "}";
    OneByte(m, START, '{', s + "}");
    assert ['{'] + (s + "}") == "{" + s + "}";
  }

  /** The scan passes over the whole text and would stop in front of a closing brace after it. */
  predicate Passes(m: Scanner, s: string) {
    Scan(m, START, s).0 == |s| && Ends(m, Scan(m, START, s).1, '}')
  }

  lemma NeutralPasses(m: Scanner, s: string)
    requires m.CountsBraces() && Neutral(m, s)
    ensures Passes(m, s)
  {
    hide Scan;
  }

  /** A block is cut at its own closing brace exactly when its scanner passes over its body. */
  lemma CutAtOwnBraceIff(m: Scanner, s: string, rest: string)
    ensures Reach(m, s + "}" + rest) == |s| <==> Passes(m, s)
  {
    hide Step, Ends;
    assert s + "}" + rest == s + ("}" + rest) && ("}" + rest)[0] == '}';
    if Scan(m, START, s).0 == |s| {
      ScanAppend(m, START, s, "}" + rest);
    } else {
      ScanPrefix(m, START, s, "}" + rest);
    }
  }

  /** Neutral text in front changes nothing. */
  lemma PassesBehind(m: Scanner, a: string, s: string)
    requires Neutral(m, a)
    ensures Passes(m, a + s) <==> Passes(m, s)
  {
    hide Step, Ends;
    NeutralAppend(m, a, s);
  }

  // ---------------------------------------------------------------- plain text

  predicate PlainChar(c: char) {
    !IsQuote(c) && c != '\\' && c != '{' && c != '}' && c != ';'
  }

  predicate Plain(s: string) {
    forall i :: 0 <= i < |s| ==> PlainChar(s[i])
  }

  /** Plain balanced text is passed over by every scanner but the keyword ones. */
  lemma PlainIsNeutral(m: Scanner, s: string)
    requires Plain(s) && Balanced(s, 0) && !m.Name? && !m.BareName?
    ensures Neutral(m, s)
  {
    PlainScan(m, 0, s);
  }

  lemma {:induction false} PlainScan(m: Scanner, depth: nat, s: string)
    requires Plain(s) && Balanced(s, depth) && !m.Name? && !m.BareName?
    ensures Scan(m, AtDepth(m, depth), s) == (|s|, START)
    decreases |s|
  {
    hide Step, Ends;
    if s != "" {
      PlainStep(m, depth, s[0]);
      PlainScan(m, if s[0] == '(' then depth + 1 else if s[0] == ')' then depth - 1 else depth, s[1..]);
    }
  }

  function AtDepth(m: Scanner, depth: nat): Lex {
    START.(parens := if m.CountsParens() then depth else 0)
  }

  lemma PlainStep(m: Scanner, depth: nat, c: char)
    requires PlainChar(c) && !m.Name? && !m.BareName? && (c == ')' ==> depth > 0)
    ensures !Ends(m, AtDepth(m, depth), c)
    ensures Step(m, AtDepth(m, depth), c)
            == AtDepth(m, if c == '(' then depth + 1 else if c == ')' then depth - 1 else depth)
  {
  }

  lemma {:induction false} BalancedAppend(a: string, b: string, depth: nat)
    requires Balanced(a, depth) && Balanced(b, 0)
    ensures Balanced(a + b, depth)
    decreases |a|
  {
    if a == "" {
      assert a + b == b;
    } else {
      assert (a + b)[1..] == a[1..] + b;
      BalancedAppend(a[1..], b, if a[0] == '(' then depth + 1 else if a[0] == ')' then depth - 1 else depth);
    }
  }

  lemma {:induction false} NoParensBalanced(s: string)
    requires forall i :: 0 <= i < |s| ==> s[i] != '(' && s[i] != ')'
    ensures Balanced(s, 0)
    decreases |s|
  {
    if s != "" { NoParensBalanced(s[1..]); }
  }

  lemma PlainAppend(a: string, b: string)
    requires Plain(a) && Plain(b) && Balanced(a, 0) && Balanced(b, 0)
    ensures Plain(a + b) && Balanced(a + b, 0)
  {
    BalancedAppend(a, b, 0);
    forall i | 0 <= i < |a + b| ensures PlainChar((a + b)[i]) {
      assert (a + b)[i] == if i < |a| then a[i] else b[i - |a|];
    }
  }

  // ---------------------------------------------------------------- white space

  /** A run of blanks. */
  function Blanks(s: string): (n: nat)
    ensures n <= |s|
    ensures n < |s| ==> !IsBlank(s[n])
    ensures forall i :: 0 <= i < n ==> IsBlank(s[i])
  {
    if s == "" || !IsBlank(s[0]) then 0 else 1 + Blanks(s[1..])
  }

  predicate OpensComment(s: string) {
    |s| > 1 && s[0] == '/' && s[1] == '*'
  }

  /** Where the first comment end finishes; failing one, the last byte, which is left unread. */
  function CommentEnd(s: string): (n: nat)
    ensures n <= |s|
  {
    if |s| < 2 then 0
    else if s[0] == '*' && s[1] == '/' then 2
    else 1 + CommentEnd(s[1..])
  }

  /** A comment with these insides ends where it is closed. */
  predicate Closes(c: string) {
    Find(c + "*/", "*/") == |c|
  }

  lemma CommentCloses(c: string, rest: string)
    requires Closes(c)
    ensures Find(c + ("*/" + rest), "*/") == |c|
  {
    FindAhead(c, "*/", rest);
  }

  /** Blanks and comments. */
  function Spaces(s: string): (n: nat)
    ensures n <= |s|
    ensures n < |s| ==> !IsBlank(s[n])
  {
    if s == "" then 0
    else if IsBlank(s[0]) then 1 + Spaces(s[1..])
    else if OpensComment(s) then
      var n := 2 + CommentEnd(s[2..]);
      n + Spaces(s[n..])
    else 0
  }

  predicate Blank(s: string) {
    forall i :: 0 <= i < |s| ==> IsBlank(s[i])
  }

  /** Text that starts where reading resumes: nothing to skip in front of it. */
  predicate Starts(s: string) {
    s == "" || (!IsBlank(s[0]) && !OpensComment(s))
  }

  lemma {:induction false} BlanksThen(g: string, s: string)
    requires Blank(g) && Starts(s)
    ensures Blanks(g + s) == |g| && Spaces(g + s) == |g|
    decreases |g|
  {
    if g == "" {
      assert g + s == s;
    } else {
      assert (g + s)[1..] == g[1..] + s;
      BlanksThen(g[1..], s);
    }
  }
}
