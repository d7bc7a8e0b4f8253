/** Declaration lists: cutting them on top-level semicolons and reading each piece. */
module CssDecls {
  import opened Options
  import opened Text
  import opened CssScan
  import opened CssLoops

  datatype Declaration = Declaration(property: string, value: string, important: bool)

  // ---------------------------------------------------------------- cutting

  function Pieces(s: string): seq<string>
    decreases |s|
  {
    var n := Reach(Declarations, s);
    if n < |s| then [s[..n]] + Pieces(s[n + 1..])
    else if s == "" then []
    else [s]
  }

  /** The pieces from a position on, and the end of the first of them. */
  function PiecesFrom(s: string, start: nat): seq<string>
    requires start <= |s|
  {
    Pieces(s[start..])
  }

  function CutFrom(s: string, start: nat): nat
    requires start <= |s|
  {
    start + Reach(Declarations, s[start..])
  }

  /** Cuts a declaration block on its top-level semicolons. */
  method SplitDeclarations(s: string) returns (parts: seq<string>)
    ensures parts == Pieces(s)
  {
    hide Ahead, PiecesFrom, CutFrom, Pieces;
    parts := [];
    var depth: nat, quote, start, i := 0, NO_QUOTE, 0, 0;
    PiecesWhole(s);
    CutBegins(s, 0);
    while i < |s|
      invariant 0 <= start <= i <= |s|
      invariant quote == NO_QUOTE || IsQuote(quote)
      invariant parts + PiecesFrom(s, start) == Pieces(s)
      invariant CutFrom(s, start) == i + Ahead(Declarations, quote, depth, 0, false, s, i).0
    {
      var c := s[i];
      LexStep(Declarations, quote, depth, 0, false, s, i);
      if c == '\\' && i + 1 < |s| {
        i := i + 2;
        continue;
      }
      if quote != NO_QUOTE {
        if c == quote { quote := NO_QUOTE; }
      } else if IsQuote(c) {
        if depth == 0 { quote := c; }
      } else if c == '(' {
        depth := depth + 1;
      } else if c == ')' {
        if depth > 0 { depth := depth - 1; }
      } else if c == ';' && depth == 0 {
        PiecesCut(s, start, i);
        parts := parts + [s[start..i]];
        start := i + 1;
        CutBegins(s, start);
      }
      i := i + 1;
    }
    AheadAtEnd(Declarations, quote, depth, 0, false, s);
    PiecesLast(s, start);
    if start < |s| {
      parts := parts + [s[start..]];
    }
  }

  lemma PiecesWhole(s: string)
    ensures PiecesFrom(s, 0) == Pieces(s)
  {
    hide Pieces;
    assert s[0..] == s;
  }

  lemma CutBegins(s: string, start: nat)
    requires start <= |s|
    ensures CutFrom(s, start) == start + Ahead(Declarations, NO_QUOTE, 0, 0, false, s, start).0
  {
    AheadBegins(Declarations, s, start);
  }

  lemma PiecesCut(s: string, start: nat, i: nat)
    requires start <= i < |s| && CutFrom(s, start) == i
    ensures PiecesFrom(s, start) == [s[start..i]] + PiecesFrom(s, i + 1)
  {
    hide Step, Ends, Scan, Reach;
    assert s[start..][..i - start] == s[start..i] && s[start..][i - start + 1..] == s[i + 1..];
  }

  lemma PiecesLast(s: string, start: nat)
    requires start <= |s| && CutFrom(s, start) == |s|
    ensures PiecesFrom(s, start) == if start < |s| then [s[start..]] else []
  {
    hide Scan, Reach;
  }

  function JoinedWithSemicolons(parts: seq<string>): string {
    if parts == [] then ""
    else if |parts| == 1 then parts[0]
    else parts[0] + ";" + JoinedWithSemicolons(parts[1..])
  }

  /** Nothing is lost but one trailing semicolon, and there is none exactly when the last byte is no cut. */
  lemma {:induction false} SplitIsLossless(s: string)
    ensures var joined := JoinedWithSemicolons(Pieces(s));
            s == if s != "" && IsCut(s, |s| - 1) then joined + ";" else joined
    decreases |s|
  {
    hide Step, Ends, Scan, Reach, Pieces, IsCut, JoinedWithSemicolons;
    var n := Reach(Declarations, s);
    if n < |s| {
      EndsAt(Scan(Declarations, START, s).1, s[n]);
      SplitIsLossless(s[n + 1..]);
      LosslessStep(s);
    } else {
      LosslessLast(s);
    }
  }

  lemma LosslessLast(s: string)
    requires Reach(Declarations, s) == |s|
    ensures JoinedWithSemicolons(Pieces(s)) == s && (s != "" ==> !IsCut(s, |s| - 1))
  {
    hide Reach, Scan;
  }

  lemma LosslessStep(s: string)
    requires Reach(Declarations, s) < |s|
    ensures var n := Reach(Declarations, s);
            var rest := s[n + 1..];
            && IsCut(s, |s| - 1) == (rest == "" || IsCut(rest, |rest| - 1))
            && JoinedWithSemicolons(Pieces(s))
               == if rest == "" then s[..n] else s[..n] + ";" + JoinedWithSemicolons(Pieces(rest))
  {
    hide Reach, Scan;
    var n := Reach(Declarations, s);
    var rest := s[n + 1..];
    assert Pieces(s)[1..] == Pieces(rest);
    assert rest == "" <==> Pieces(rest) == [];
  }

  /** A semicolon the cutter cuts at. */
  predicate IsCut(s: string, i: nat)
    requires i < |s|
    decreases |s|
  {
    var n := Reach(Declarations, s);
    n < |s| && (i == n || (i > n && IsCut(s[n + 1..], i - n - 1)))
  }

  /** The lexical state after reading text from the very beginning, stopping for nothing. */
  function After(st: Lex, s: string): Lex
    decreases |s|
  {
    if s == "" then st else After(Step(Declarations, st, s[0]), s[1..])
  }

  predicate TopLevelSemicolon(s: string, i: nat)
    requires i < |s|
  {
    var st := After(START, s[..i]);
    s[i] == ';' && !st.escaped && st.quote == NO_QUOTE && st.parens == 0
  }

  /** The cuts are exactly the semicolons outside strings, escapes and parentheses. */
  lemma {:induction false} CutsAreTopLevelSemicolons(s: string, i: nat)
    requires i < |s|
    ensures IsCut(s, i) <==> TopLevelSemicolon(s, i)
    decreases |s|
  {
    hide Step, Ends, After, Scan;
    var n := Reach(Declarations, s);
    EndsAt(After(START, s[..i]), s[i]);
    if i <= n {
      ScanIsAfter(START, s, i);
    } else {
      var rest := s[n + 1..];
      CutsAreTopLevelSemicolons(rest, i - n - 1);
      AfterCut(s, n, i);
      assert rest[..i - n - 1] == s[n + 1..i];
    }
  }

  /** After a cut the state is the initial one again. */
  lemma AfterCut(s: string, n: nat, i: nat)
    requires n == Reach(Declarations, s) < i <= |s|
    ensures After(START, s[..i]) == After(START, s[n + 1..i])
  {
    hide Step, Ends;
    ScanIsAfter(START, s, n);
    QuoteStateOnly(START, s);
    EndsAt(START, s[n]);
    AfterAppend(START, s[..n], [s[n]]);
    SemicolonKeepsStart(START);
    assert s[..n] + [s[n]] == s[..n + 1];
    AfterAppend(START, s[..n + 1], s[n + 1..i]);
    assert s[..n + 1] + s[n + 1..i] == s[..i];
  }

  lemma EndsAt(st: Lex, c: char)
    ensures Ends(Declarations, st, c) <==> c == ';' && !st.escaped && st.quote == NO_QUOTE && st.parens == 0
  {
  }

  lemma SemicolonKeepsStart(st: Lex)
    requires Ends(Declarations, st, ';')
    ensures After(st, ";") == st
  {
    assert ";"[1..] == "";
  }

  lemma {:induction false} AfterAppend(st: Lex, a: string, b: string)
    ensures After(st, a + b) == After(After(st, a), b)
    decreases |a|
  {
    hide Step;
    if a == "" {
      assert a + b == b;
    } else {
      assert (a + b)[1..] == a[1..] + b;
      AfterAppend(Step(Declarations, st, a[0]), a[1..], b);
    }
  }

  /** As far as a scan gets it has read the text and stopped for nothing. */
  lemma {:induction false} ScanIsAfter(st: Lex, s: string, k: nat)
    requires k <= Scan(Declarations, st, s).0
    ensures k == Scan(Declarations, st, s).0 ==> Scan(Declarations, st, s).1 == After(st, s[..k])
    ensures k < Scan(Declarations, st, s).0 ==> !Ends(Declarations, After(st, s[..k]), s[k])
    decreases |s|
  {
    hide Step, Ends;
    if k > 0 {
      ScanIsAfter(Step(Declarations, st, s[0]), s[1..], k - 1);
      assert s[..k][1..] == s[1..][..k - 1] && s[..k][0] == s[0];
    }
  }

  /** Where a cut is possible the state is the initial one: a list never counts braces or bad strings. */
  lemma {:induction false} QuoteStateOnly(st: Lex, s: string)
    requires st.braces == 0 && !st.bad
    ensures var end := Scan(Declarations, st, s).1; end.braces == 0 && !end.bad
    ensures Scan(Declarations, st, s).0 < |s| ==> Scan(Declarations, st, s).1 == START
    decreases |s|
  {
    if s != "" && !Ends(Declarations, st, s[0]) {
      QuoteStateOnly(Step(Declarations, st, s[0]), s[1..]);
    }
  }

  /** The first bytes of a scanned stretch are scanned whole. */
  lemma {:induction false} ScanTake(m: Scanner, st: Lex, s: string, k: nat)
    requires k <= Scan(m, st, s).0
    ensures Scan(m, st, s[..k]).0 == k
    decreases |s|
  {
    hide Step, Ends;
    if k > 0 {
      ScanTake(m, Step(m, st, s[0]), s[1..], k - 1);
      assert s[..k][1..] == s[1..][..k - 1] && s[..k][0] == s[0];
    }
  }

  /** Cutting a non-empty piece again gives just that piece. */
  lemma {:induction false} PiecesAreWhole(s: string, k: nat)
    requires k < |Pieces(s)|
    ensures var p := Pieces(s)[k]; Reach(Declarations, p) == |p| && (p != "" ==> Pieces(p) == [p])
    decreases |s|
  {
    hide Step, Ends;
    var n := Reach(Declarations, s);
    if k == 0 {
      if n < |s| { ScanTake(Declarations, START, s, n); }
    } else {
      PiecesAreWhole(s[n + 1..], k - 1);
    }
  }

  // ---------------------------------------------------------------- reading a piece

  /** Drops each backslash and line break pair inside a string. */
  function StripEscapedNewlines(quote: char, s: string): string
    decreases |s|
  {
    if s == "" then ""
    else if quote != NO_QUOTE && s[0] == '\\' && |s| > 1 && (s[1] == '\n' || s[1] == '\r') then
      StripEscapedNewlines(quote, if s[1] == '\r' && |s| > 2 && s[2] == '\n' then s[3..] else s[2..])
    else
      [s[0]] + StripEscapedNewlines(
        if quote == NO_QUOTE && IsQuote(s[0]) then s[0] else if s[0] == quote then NO_QUOTE else quote, s[1..])
  }

  lemma {:induction false} NothingToStrip(quote: char, s: string)
    requires forall i :: 0 <= i < |s| ==> s[i] != '\\'
    ensures StripEscapedNewlines(quote, s) == s
    decreases |s|
  {
    if s != "" {
      NothingToStrip(if quote == NO_QUOTE && IsQuote(s[0]) then s[0]
                     else if s[0] == quote then NO_QUOTE else quote, s[1..]);
    }
  }

  /** Outside strings nothing is dropped. */
  lemma {:induction false} NothingDroppedOutside(s: string, rest: string)
    requires forall i :: 0 <= i < |s| ==> !IsQuote(s[i])
    ensures StripEscapedNewlines(NO_QUOTE, s + rest) == s + StripEscapedNewlines(NO_QUOTE, rest)
    decreases |s|
  {
    if s == "" {
      assert s + rest == rest;
    } else {
      assert (s + rest)[1..] == s[1..] + rest && s == [s[0]] + s[1..];
      NothingDroppedOutside(s[1..], rest);
    }
  }

  /** In a string a backslash goes with the line break behind it, of either kind or both. */
  lemma LineBreakDropped(q: char, rest: string)
    requires IsQuote(q)
    ensures StripEscapedNewlines(q, "\\\n" + rest) == StripEscapedNewlines(q, rest)
    ensures StripEscapedNewlines(q, "\\\r\n" + rest) == StripEscapedNewlines(q, rest)
    ensures (rest == "" || rest[0] != '\n') ==>
              StripEscapedNewlines(q, "\\\r" + rest) == StripEscapedNewlines(q, rest)
  {
    assert ("\\\n" + rest)[2..] == rest && ("\\\r\n" + rest)[3..] == rest && ("\\\r" + rest)[2..] == rest;
  }

  /** Every other byte of a string stays, and its quote ends it. */
  lemma ByteKept(q: char, c: char, rest: string)
    requires IsQuote(q) && (c == '\\' ==> rest == "" || (rest[0] != '\n' && rest[0] != '\r'))
    ensures StripEscapedNewlines(q, [c] + rest) == [c] + StripEscapedNewlines(if c == q then NO_QUOTE else q, rest)
    ensures StripEscapedNewlines(NO_QUOTE, [q] + rest) == [q] + StripEscapedNewlines(q, rest)
  {
    assert ([c] + rest)[1..] == rest && ([q] + rest)[1..] == rest;
  }

  const IMPORTANT := "!important"

  function Read(part: string): seq<Declaration> {
    var p := Trim(part);
    var colon := Find(p, ":");
    if colon == |p| then []
    else
      var val := StripEscapedNewlines(NO_QUOTE, Trim(p[colon + 1..]));
      var at := Find(Lower(val), IMPORTANT);
      [Declaration(Lower(Trim(p[..colon])), if at < |val| then Trim(val[..at]) else val, at < |val|)]
  }

  /** A piece without a colon declares nothing. */
  lemma NoColonNothing(part: string)
    requires ':' !in part
    ensures Read(part) == []
  {
    hide Find;
    var p := Trim(part);
    TrimHasNone(part, ':');
    forall k | 0 <= k < |p| ensures !(":" <= p[k..]) { assert p[k..][0] == p[k]; }
    FindNowhere(p, ":");
  }

  lemma TrimHasNone(s: string, c: char)
    requires c !in s
    ensures c !in Trim(s)
  {
    LeftHasNone(s, c);
  }

  lemma {:induction false} LeftHasNone(s: string, c: char)
    requires c !in s
    ensures c !in TrimLeft(s)
  {
    if s != "" { LeftHasNone(s[1..], c); }
  }

  function ReadAll(parts: seq<string>): seq<Declaration> {
    if parts == [] then [] else Read(parts[0]) + ReadAll(parts[1..])
  }

  /** The declarations of a list, without any nesting. */
  function Declared(s: string): seq<Declaration> {
    ReadAll(Pieces(s))
  }

  method ParseDeclarations(s: string) returns (decls: seq<Declaration>)
    ensures decls == Declared(s)
  {
    hide Pieces, Read;
    var parts := SplitDeclarations(s);
    decls := [];
    var k := 0;
    while k < |parts|
      invariant k <= |parts| && decls + ReadAll(parts[k..]) == ReadAll(parts)
    {
      var one := ReadPiece(parts[k]);
      assert parts[k..][1..] == parts[k + 1..];
      decls := decls + one;
      k := k + 1;
    }
    assert parts[k..] == [];
  }

  method ReadPiece(part: string) returns (decls: seq<Declaration>)
    ensures decls == Read(part)
  {
    var p := Trim(part);
    if p == "" { return []; }
    var colon := Find(p, ":");
    if colon == |p| { return []; }
    var val := DropEscapedNewlines(Trim(p[colon + 1..]));
    var important := false;
    var at := Find(Lower(val), IMPORTANT);
    if at < |val| {
      important := true;
      val := Trim(val[..at]);
    }
    return [Declaration(Lower(Trim(p[..colon])), val, important)];
  }

  method DropEscapedNewlines(s: string) returns (b: string)
    ensures b == StripEscapedNewlines(NO_QUOTE, s)
  {
    b := "";
    var quote, i := NO_QUOTE, 0;
    while i < |s|
      invariant i <= |s| && (quote == NO_QUOTE || IsQuote(quote))
      invariant b + StripEscapedNewlines(quote, s[i..]) == StripEscapedNewlines(NO_QUOTE, s)
    {
      var c := s[i];
      assert s[i..][1..] == s[i + 1..];
      if quote != NO_QUOTE {
        if c == '\\' && i + 1 < |s| && (s[i + 1] == '\n' || s[i + 1] == '\r') {
          assert s[i..][2..] == s[i + 2..];
          i := i + 1;
          if s[i] == '\r' && i + 1 < |s| && s[i + 1] == '\n' {
            assert s[i - 1..][3..] == s[i + 2..];
            i := i + 1;
          }
          i := i + 1;
          continue;
        }
        if c == quote { quote := NO_QUOTE; }
      } else if IsQuote(c) {
        quote := c;
      }
      b := b + [c];
      i := i + 1;
    }
  }
}
