/** A block without nesting: the nesting-aware reader and the flat declaration parser agree. */
module CssFlat {
  import opened Options
  import opened Text
  import opened CssScan
  import opened CssDecls
  import opened CssSelectors
  import opened CssReading

  /** No raw line break inside a string and no brace outside strings and parentheses, from a lexical state on. */
  predicate Calm(st: Lex, s: string)
    decreases |s|
  {
    s != "" ==>
      && (s[0] == '\n' ==> st.escaped || st.quote == NO_QUOTE)
      && (s[0] == '{' ==> st.escaped || st.quote != NO_QUOTE || st.parens > 0)
      && Calm(Step(Declarations, st, s[0]), s[1..])
  }

  /** What a statement starts with once blanks are skipped. */
  predicate OpensStatement(piece: string) {
    var t := piece[Blanks(piece)..];
    t == "" || (t[0] != '@' && !OpensComment(t))
  }

  /** No statement of the body is an at-rule or opens a comment. */
  predicate Statements(s: string)
    decreases |s|
  {
    OpensStatement(s) && var n := Reach(Declarations, s); n < |s| ==> Statements(s[n + 1..])
  }

  lemma SameStep(st: Lex, c: char)
    requires c == '\n' ==> st.escaped || st.quote == NO_QUOTE
    requires c == '{' ==> st.escaped || st.quote != NO_QUOTE || st.parens > 0
    ensures Step(Statement, st, c) == Step(Declarations, st, c)
    ensures Ends(Statement, st, c) <==> Ends(Declarations, st, c)
  {
  }

  /** On calm text a statement ends where a declaration does. */
  lemma {:induction false} SameScan(st: Lex, s: string)
    requires Calm(st, s)
    ensures Scan(Statement, st, s) == Scan(Declarations, st, s)
    decreases |s|
  {
    hide Step, Ends;
    if s != "" {
      SameStep(st, s[0]);
      SameScan(Step(Declarations, st, s[0]), s[1..]);
    }
  }

  /** Calm text is calm again behind a cut. */
  lemma {:induction false} CalmOn(st: Lex, s: string, k: nat)
    requires Calm(st, s) && k <= Scan(Declarations, st, s).0
    ensures Calm(After(st, s[..k]), s[k..])
    decreases |s|
  {
    hide Step, Ends;
    if k > 0 {
      CalmOn(Step(Declarations, st, s[0]), s[1..], k - 1);
      assert s[..k][1..] == s[1..][..k - 1] && s[1..][k - 1..] == s[k..];
    } else {
      assert s[..k] == "" && s[k..] == s;
    }
  }

  lemma BlanksNeutral(s: string)
    ensures var t := s[Blanks(s)..];
            Scan(Declarations, START, s) == (Blanks(s) + Scan(Declarations, START, t).0, Scan(Declarations, START, t).1)
  {
    hide Step, Ends, Scan;
    var g, t := s[..Blanks(s)], s[Blanks(s)..];
    assert Blank(g) && g + t == s;
    BlankPasses(g, t);
  }

  lemma {:induction false} BlankPasses(g: string, t: string)
    requires forall i :: 0 <= i < |g| ==> IsSpace(g[i])
    ensures Scan(Declarations, START, g + t)
            == (|g| + Scan(Declarations, START, t).0, Scan(Declarations, START, t).1)
    decreases |g|
  {
    hide Step, Ends;
    if g == "" {
      assert g + t == t;
    } else {
      SpaceStep(g[0]);
      BlankPasses(g[1..], t);
      OneByte(Declarations, START, g[0], g[1..] + t);
      assert [g[0]] + (g[1..] + t) == g + t;
    }
  }

  lemma SpaceStep(c: char)
    requires IsSpace(c)
    ensures !Ends(Declarations, START, c) && Step(Declarations, START, c) == START
  {
  }

  lemma {:induction false} TrimLeftSplits(s: string)
    ensures |TrimLeft(s)| <= |s| && s == s[..|s| - |TrimLeft(s)|] + TrimLeft(s)
    ensures forall i :: 0 <= i < |s| - |TrimLeft(s)| ==> IsSpace(s[i])
    decreases |s|
  {
    if s != "" && IsSpace(s[0]) { TrimLeftSplits(s[1..]); }
  }

  /** Trimming a piece does not bring a cut into it. */
  lemma TrimStaysWhole(s: string)
    requires Reach(Declarations, s) == |s|
    ensures Reach(Declarations, Trim(s)) == |Trim(s)|
  {
    hide Step, Ends, Scan, TrimLeft, TrimRight;
    TrimLeftSplits(s);
    var l := TrimLeft(s);
    BlankPasses(s[..|s| - |l|], l);
    var r := TrimRight(l);
    ScanTake(Declarations, START, l, |r|);
    assert l[..|r|] == r;
  }

  lemma TrimTwice(s: string)
    ensures Trim(Trim(s)) == Trim(s)
  {
    var l := TrimLeft(s);
    var r := TrimRight(l);
    assert Trimmed(r);
    TrimmedTrim(r);
  }

  /** A whole piece, trimmed, declares what the flat parser reads from it. */
  lemma PieceDeclares(p: string)
    requires Reach(Declarations, p) == |p|
    ensures (if Trim(p) == "" then [] else Declared(Trim(p))) == Read(p)
    ensures ':' !in Trim(p) ==> Read(p) == []
  {
    hide Step, Ends, Scan, Reach, Trim, Find;
    TrimStaysWhole(p);
    TrimTwice(p);
    var t := Trim(p);
    if t != "" {
      assert Pieces(t) == [t] && ReadAll([t]) == Read(t) + ReadAll([t][1..]);
    }
    if ':' !in t { NoColon(t); }
  }

  lemma NoColon(t: string)
    requires ':' !in t
    ensures Find(t, ":") == |t|
  {
    hide Find;
    forall k | 0 <= k < |t| ensures !(":" <= t[k..]) { assert t[k..][0] == t[k]; }
    assert Find(t, ":") == |t|;
  }

  /**
   On a body with no brace outside strings and parentheses, no statement that is an at-rule or a comment
   and no raw line break inside a string, the block reader finds exactly the declarations the flat parser
   finds, and no rules.
   */
  lemma {:induction false} FlatBodyReadsFlat(cd: Conditions, cx: Context, n: nat, s: string, parents: seq<string>)
    requires Calm(START, s) && Statements(s)
    ensures ReadBlock(cd, cx, n, s, parents) == BlockReading(Declared(s), [], n, |s|)
    decreases |s|
  {
    hide Step, Ends, Scan, ReadBlock, ReadItem, Trim, Read, Calm, Blanks, Declared, Reach, OpensStatement;
    var k := Reach(Declarations, s);
    if s[Blanks(s)..] == "" {
      BlankBlock(cd, cx, n, s, parents);
    } else if k < |s| {
      CutIsCalm(s);
      FlatBodyReadsFlat(cd, cx, n, s[k + 1..], parents);
      FlatCut(cd, cx, n, s, parents);
    } else {
      FlatLast(cd, cx, n, s, parents);
    }
  }

  lemma FlatCut(cd: Conditions, cx: Context, n: nat, s: string, parents: seq<string>)
    requires Calm(START, s) && OpensStatement(s) && s[Blanks(s)..] != "" && Reach(Declarations, s) < |s|
    requires var rest := s[Reach(Declarations, s) + 1..];
             ReadBlock(cd, cx, n, rest, parents) == BlockReading(Declared(rest), [], n, |rest|)
    ensures ReadBlock(cd, cx, n, s, parents) == BlockReading(Declared(s), [], n, |s|)
  {
    hide Step, Ends, Scan, ReadBlock, ReadItem, Trim, Read, Calm, Blanks, Declared, Reach, OpensStatement;
    var k := Reach(Declarations, s);
    StatementRead(cd, cx, n, s, parents);
    CutDeclares(s, k);
    BlockRest(cd, cx, n, s, k + 1 - Blanks(s), parents);
    SuffixOfSuffix(s, Blanks(s), k + 1);
  }

  lemma SuffixOfSuffix(s: string, i: nat, j: nat)
    requires i <= j <= |s|
    ensures s[i..][j - i..] == s[j..]
  {
  }

  lemma FlatLast(cd: Conditions, cx: Context, n: nat, s: string, parents: seq<string>)
    requires Calm(START, s) && OpensStatement(s) && s[Blanks(s)..] != "" && Reach(Declarations, s) == |s|
    ensures ReadBlock(cd, cx, n, s, parents) == BlockReading(Declared(s), [], n, |s|)
  {
    hide Step, Ends, Scan, ReadBlock, ReadItem, Trim, Read, Calm, Blanks, Declared, Reach, OpensStatement;
    var t := s[Blanks(s)..];
    StatementRead(cd, cx, n, s, parents);
    WholeDeclares(s);
    assert s[..|s|] == s;
    BlockRest(cd, cx, n, s, |t|, parents);
    EmptyBlock(cd, cx, n, parents);
    assert t[|t|..] == "";
  }

  lemma EmptyBlock(cd: Conditions, cx: Context, n: nat, parents: seq<string>)
    ensures ReadBlock(cd, cx, n, "", parents) == BlockReading([], [], n, 0)
  {
  }

  lemma BlankBlock(cd: Conditions, cx: Context, n: nat, s: string, parents: seq<string>)
    requires s[Blanks(s)..] == ""
    ensures ReadBlock(cd, cx, n, s, parents) == BlockReading(Declared(s), [], n, |s|)
  {
    hide Step, Ends, Scan, Blanks, Trim;
    BlanksNeutral(s);
    EmptyScan();
    forall i | 0 <= i < |s| ensures IsSpace(s[i]) { assert IsBlank(s[i]); }
    WholeDeclares(s);
    SpacesTrim(s);
    PieceDeclares(s);
  }

  lemma EmptyScan()
    ensures Scan(Declarations, START, "") == (0, START)
  {
  }

  lemma {:induction false} SpacesTrim(s: string)
    requires forall i :: 0 <= i < |s| ==> IsSpace(s[i])
    ensures Trim(s) == "" && TrimLeft(s) == ""
    decreases |s|
  {
    if s != "" { SpacesTrim(s[1..]); }
  }

  lemma WholeDeclares(s: string)
    requires Reach(Declarations, s) == |s|
    ensures Declared(s) == if s == "" then [] else Read(s)
  {
    hide Step, Ends, Scan, Reach, Read;
    if s != "" { assert ReadAll([s]) == Read(s) + ReadAll([s][1..]); }
  }

  lemma CutDeclares(s: string, k: nat)
    requires k == Reach(Declarations, s) < |s|
    ensures Declared(s) == Read(s[..k]) + Declared(s[k + 1..])
  {
    hide Step, Ends, Scan, Reach, Read;
    assert ([s[..k]] + Pieces(s[k + 1..]))[1..] == Pieces(s[k + 1..]);
  }

  lemma CutIsCalm(s: string)
    requires Calm(START, s) && Reach(Declarations, s) < |s|
    ensures Calm(START, s[Reach(Declarations, s) + 1..])
  {
    hide Step, Ends, Scan;
    var k := Reach(Declarations, s);
    CalmOn(START, s, k);
    ScanIsAfter(START, s, k);
    QuoteStateOnly(START, s);
    EndsAt(START, s[k]);
    SemicolonStep();
    assert s[k..][1..] == s[k + 1..];
  }

  lemma SemicolonStep()
    ensures Step(Declarations, START, ';') == START
  {
  }

  lemma BlockRest(cd: Conditions, cx: Context, n: nat, s: string, used: nat, parents: seq<string>)
    requires var t := s[Blanks(s)..];
             t != "" && used <= |t| && ReadItem(cd, cx, n, t, parents).used == used
             && ReadItem(cd, cx, n, t, parents).anon == n
    ensures var t := s[Blanks(s)..];
            var rest := ReadBlock(cd, cx, n, t[used..], parents);
            var first := ReadItem(cd, cx, n, t, parents);
            ReadBlock(cd, cx, n, s, parents)
            == BlockReading(first.decls + rest.decls, first.rules + rest.rules, rest.anon, |s|)
  {
    hide ReadItem, Blanks;
  }

  /** The first statement of a calm body. */
  lemma StatementRead(cd: Conditions, cx: Context, n: nat, s: string, parents: seq<string>)
    requires Calm(START, s) && OpensStatement(s) && s[Blanks(s)..] != ""
    ensures var t, k := s[Blanks(s)..], Reach(Declarations, s);
            Blanks(s) <= k
            && ReadItem(cd, cx, n, t, parents)
               == BlockReading(Read(s[..k]), [], n, if k == |s| then |t| else k + 1 - Blanks(s))
  {
    hide Step, Ends, Scan, Trim, Read, Declared, Blanks;
    var b := Blanks(s);
    var t, k := s[b..], Reach(Declarations, s);
    BlanksNeutral(s);
    CalmBlanks(s);
    SameScan(START, t);
    QuoteStateOnly(START, t);
    assert s[..k] == s[..b] + t[..k - b];
    SamePiece(s[..b], t[..k - b]);
    if k < |s| { EndsAt(Scan(Declarations, START, t).1, t[k - b]); }
    ScanTake(Declarations, START, s, k);
    PieceDeclares(s[..k]);
  }

  lemma CalmBlanks(s: string)
    requires Calm(START, s)
    ensures Calm(START, s[Blanks(s)..])
  {
    hide Step, Ends, Scan, Calm;
    var b := Blanks(s);
    BlanksNeutral(s);
    CalmOn(START, s, b);
    var g := s[..b];
    BlankPasses(g, "");
    assert g + "" == g;
    EmptyScan();
    ScanIsAfter(START, g, b);
    assert g[..b] == g;
  }

  /** Blanks in front do not change a trimmed piece. */
  lemma {:induction false} SamePiece(g: string, p: string)
    requires forall i :: 0 <= i < |g| ==> IsBlank(g[i])
    ensures Trim(g + p) == Trim(p)
    decreases |g|
  {
    if g == "" {
      assert g + p == p;
    } else {
      assert IsSpace(g[0]) && (g + p)[1..] == g[1..] + p;
      SamePiece(g[1..], p);
    }
  }
}
