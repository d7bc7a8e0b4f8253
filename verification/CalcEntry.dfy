/** `calc()` from its text: what a property value written with it evaluates to. */
module CalcEntry {
  import opened Options
  import opened Text
  import opened CalcTokens
  import opened CalcMeaning
  import opened CalcLaws
  import opened CalcCursor
  import opened CalcCorrect
  import opened CalcExprs

  lemma {:induction false} SplitSkips(s: string, start: nat, i: nat, n: nat, depth: int)
    requires start <= i && i + n <= |s|
    requires forall k :: i <= k < i + n ==> s[k] != '(' && s[k] != ')' && s[k] != ','
    ensures SplitArgs(s, start, i, depth) == SplitArgs(s, start, i + n, depth)
    decreases n
  {
    if n > 0 { SplitSkips(s, start, i + 1, n - 1, depth); }
  }

  /** A text whose tokens close what they open, with no bare comma, is one argument. */
  lemma {:induction false} OneArgument(s: string, start: nat, i: nat, depth: nat)
    requires start <= i <= |s| && Nest(Tokens(s[i..]), depth).Some?
    ensures SplitArgs(s, start, i, depth) == [s[start..]]
    decreases |s| - i
  {
    hide WordLength;
    if i < |s| {
      var rest := s[i..];
      if IsBlank(rest[0]) {
        assert rest[1..] == s[i + 1..];
        OneArgument(s, start, i + 1, depth);
      } else if IsPunct(rest[0]) {
        assert rest[1..] == s[i + 1..] && rest[..1] == [s[i]];
        var t := Tokens(rest)[0];
        assert t == [s[i]] && Tokens(rest)[1..] == Tokens(s[i + 1..]);
        OneArgument(s, start, i + 1, if t == "(" then depth + 1 else if t == ")" then depth - 1 else depth);
      } else {
        var n := WordLength(rest);
        assert rest[n..] == s[i + n..];
        assert Tokens(rest)[1..] == Tokens(s[i + n..]);
        assert forall k :: i <= k < i + n ==> s[k] == rest[k - i];
        SplitSkips(s, start, i, n, depth);
        assert Tokens(rest)[0][0] == s[i];
        OneArgument(s, start, i + n, depth);
      }
    }
  }

  // ---------------------------------------------------------------- the arguments of any function

  function TokensOfAll(texts: seq<string>): (parts: seq<seq<Token>>)
    ensures |parts| == |texts|
    ensures forall i :: 0 <= i < |texts| ==> parts[i] == Tokens(texts[i])
  {
    seq(|texts|, i requires 0 <= i < |texts| => Tokens(texts[i]))
  }

  /** Punctuation ends whatever token stands before it. */
  lemma {:induction false} TokensBeforePunct(a: string, b: string)
    requires b != "" && IsPunct(b[0])
    ensures Tokens(a + b) == Tokens(a) + Tokens(b)
    decreases |a|
  {
    hide WordLength, Tokens, IsBlank, IsPunct;
    if a == "" {
      assert a + b == b;
      NoTokens();
    } else if IsBlank(a[0]) {
      TokensBeforePunct(a[1..], b);
      FirstIs(a);
      FirstIs(a + b);
      assert (a + b)[1..] == a[1..] + b;
    } else if IsPunct(a[0]) {
      TokensBeforePunct(a[1..], b);
      PunctKept(a, b);
    } else {
      WordStarts(a);
      TokensBeforePunct(a[WordLength(a)..], b);
      WordKept(a, b);
    }
  }

  lemma NoTokens()
    ensures Tokens("") == []
  {
  }

  lemma FirstIs(s: string)
    requires s != ""
    ensures IsBlank(s[0]) ==> Tokens(s) == Tokens(s[1..])
    ensures !IsBlank(s[0]) && IsPunct(s[0]) ==> Tokens(s) == [s[..1]] + Tokens(s[1..])
    ensures !IsBlank(s[0]) && !IsPunct(s[0]) ==> Tokens(s) == [s[..WordLength(s)]] + Tokens(s[WordLength(s)..])
  {
    hide WordLength, IsBlank, IsPunct, AllTokens;
  }

  lemma PunctKept(a: string, b: string)
    requires a != "" && !IsBlank(a[0]) && IsPunct(a[0]) && Tokens(a[1..] + b) == Tokens(a[1..]) + Tokens(b)
    ensures Tokens(a + b) == Tokens(a) + Tokens(b)
  {
    hide Tokens, IsBlank, IsPunct, AllTokens;
    FirstIs(a);
    FirstIs(a + b);
    assert (a + b)[1..] == a[1..] + b && (a + b)[..1] == a[..1];
  }

  lemma WordKept(a: string, b: string)
    requires a != "" && b != "" && !IsBlank(a[0]) && !IsPunct(a[0]) && IsPunct(b[0])
    requires var n := WordLength(a); Tokens(a[n..] + b) == Tokens(a[n..]) + Tokens(b)
    ensures Tokens(a + b) == Tokens(a) + Tokens(b)
  {
    hide Tokens, IsBlank, IsPunct, AllTokens, IsWord, WordLength, EndsWord;
    var n := WordLength(a);
    FirstIs(a);
    WordStarts(a);
    WordEnds(a, b);
    var w, rest := a[..n], a[n..] + b;
    WordThen(w, rest);
    assert a + b == w + rest;
  }

  lemma WordEnds(a: string, b: string)
    requires b != "" && IsPunct(b[0])
    ensures (a[WordLength(a)..] + b) != "" && EndsWord((a[WordLength(a)..] + b)[0])
  {
  }

  lemma WordStarts(a: string)
    requires a != "" && !IsBlank(a[0]) && !IsPunct(a[0])
    ensures IsWord(a[..WordLength(a)]) && WordLength(a) > 0
  {
  }

  /** The tokens of a text are those of its arguments with commas between. */
  lemma {:induction false} TokensOfSplit(s: string, start: nat, i: nat, depth: int)
    requires start <= i <= |s|
    ensures Tokens(s[start..]) == Commas(TokensOfAll(SplitArgs(s, start, i, depth)))
    decreases |s| - i
  {
    hide Tokens, Commas, TokensOfAll;
    if i == |s| {
      OnlyArgument(s[start..]);
    } else if s[i] == ',' && depth == 0 {
      TokensOfSplit(s, i + 1, i + 1, depth);
      CommaJoins(s[start..i], SplitArgs(s, i + 1, i + 1, depth));
      assert s[start..] == s[start..i] + ("," + s[i + 1..]);
      TokensBeforePunct(s[start..i], "," + s[i + 1..]);
      CommaFirst(s[i + 1..]);
    } else if i < |s| {
      TokensOfSplit(s, start, i + 1, if s[i] == '(' then depth + 1 else if s[i] == ')' then depth - 1 else depth);
    }
  }

  lemma OnlyArgument(text: string)
    ensures Commas(TokensOfAll([text])) == Tokens(text)
  {
    hide Tokens;
  }

  lemma CommaJoins(text: string, rest: seq<string>)
    requires rest != []
    ensures Commas(TokensOfAll([text] + rest)) == Tokens(text) + ([","] + Commas(TokensOfAll(rest)))
  {
    hide Tokens;
    assert TokensOfAll([text] + rest)[1..] == TokensOfAll(rest);
  }

  lemma CommaFirst(s: string)
    ensures Tokens("," + s) == [","] + Tokens(s)
  {
    assert ("," + s)[1..] == s && ("," + s)[..1] == ",";
  }

  function Following(rest: seq<seq<Token>>): seq<Token> {
    if rest == [] then [] else [","] + Commas(rest)
  }

  /** Where the argument with these tokens ends. */
  predicate CutsAt(s: string, start: nat, i: nat, depth: int, p: seq<Token>, rest: seq<seq<Token>>, k: nat)
    requires start <= i <= |s|
  {
    && i <= k <= |s| && Tokens(s[i..k]) == p
    && if rest == [] then k == |s| && SplitArgs(s, start, i, depth) == [s[start..]]
       else k < |s| && Tokens(s[k + 1..]) == Commas(rest)
            && SplitArgs(s, start, i, depth) == [s[start..k]] + SplitArgs(s, k + 1, k + 1, 0)
  }

  /** The first token of the text, and where the next one starts to be looked for. */
  lemma FirstToken(s: string, i: nat, p: seq<Token>, rest: seq<seq<Token>>)
    requires i < |s| && Tokens(s[i..]) == p + Following(rest)
    ensures IsBlank(s[i]) ==> Tokens(s[i + 1..]) == p + Following(rest)
    ensures IsPunct(s[i]) && p == [] ==> rest != [] && s[i] == ',' && Tokens(s[i + 1..]) == Commas(rest)
    ensures IsPunct(s[i]) && p != [] ==> p[0] == [s[i]] && Tokens(s[i + 1..]) == p[1..] + Following(rest)
    ensures var n := WordLength(s[i..]);
            !IsBlank(s[i]) && !IsPunct(s[i]) ==>
              p != [] && p[0] == s[i..i + n] && IsWord(p[0]) && Tokens(s[i + n..]) == p[1..] + Following(rest)
  {
    hide WordLength, Commas;
    var t := s[i..];
    var all := p + Following(rest);
    if IsBlank(t[0]) {
      assert t[1..] == s[i + 1..];
    } else if IsPunct(t[0]) {
      assert t[1..] == s[i + 1..] && t[..1] == [s[i]];
      assert all == [[s[i]]] + Tokens(s[i + 1..]);
      RestOf(all, p, rest);
    } else {
      var n := WordLength(t);
      WordStarts(t);
      assert t[n..] == s[i + n..] && t[..n] == s[i..i + n];
      assert all == [t[..n]] + Tokens(s[i + n..]);
      RestOf(all, p, rest);
    }
  }

  lemma RestOf(all: seq<Token>, p: seq<Token>, rest: seq<seq<Token>>)
    requires all == p + Following(rest) && all != []
    ensures p != [] ==> p[0] == all[0] && all[1..] == p[1..] + Following(rest)
    ensures p == [] ==> rest != [] && all[0] == "," && all[1..] == Commas(rest)
  {
    hide Commas;
  }

  /** A token read in front of an argument is a token of the argument. */
  lemma CutBack(s: string, start: nat, i: nat, n: nat, before: nat, depth: nat, p: seq<Token>, rest: seq<seq<Token>>,
                k: nat)
    requires start <= i && n > 0 && i + n <= |s| && p != [] && p[0] == s[i..i + n] && IsToken(p[0])
    requires IsWord(p[0]) && i + n < |s| ==> EndsWord(s[i + n])
    requires CutsAt(s, start, i + n, depth, p[1..], rest, k)
    requires SplitArgs(s, start, i, before) == SplitArgs(s, start, i + n, depth)
    ensures CutsAt(s, start, i, before, p, rest, k)
  {
    hide SplitArgs, Commas;
    var inner := s[i + n..k];
    Sliced(s, i, i + n, k);
    if IsWord(p[0]) {
      WordThen(p[0], inner);
    } else {
      assert (p[0] + inner)[1..] == inner && (p[0] + inner)[..1] == p[0];
    }
    assert p == [p[0]] + p[1..];
  }

  lemma Sliced(s: string, i: nat, j: nat, k: nat)
    requires i <= j <= k <= |s|
    ensures s[i..k] == s[i..j] + s[j..k]
  {
  }

  lemma BlankBack(s: string, start: nat, i: nat, depth: nat, p: seq<Token>, rest: seq<seq<Token>>, k: nat)
    requires start <= i < |s| && IsBlank(s[i]) && CutsAt(s, start, i + 1, depth, p, rest, k)
    ensures CutsAt(s, start, i, depth, p, rest, k)
  {
    hide Commas;
    assert s[i..k][1..] == s[i + 1..k];
  }

  function Deeper(t: Token, depth: nat): nat {
    if t == "(" then depth + 1 else if t == ")" && depth > 0 then depth - 1 else depth
  }

  lemma PunctSplits(s: string, start: nat, i: nat, depth: nat, p: seq<Token>)
    requires start <= i < |s| && p != [] && p[0] == [s[i]] && Nest(p, depth) == Some(0)
    ensures SplitArgs(s, start, i, depth) == SplitArgs(s, start, i + 1, Deeper(p[0], depth))
    ensures Nest(p[1..], Deeper(p[0], depth)) == Some(0)
  {
  }

  /** Tokens that close what they open are cut off at the comma behind them. */
  lemma {:induction false} ArgumentCut(s: string, start: nat, i: nat, depth: nat, p: seq<Token>, rest: seq<seq<Token>>)
    returns (k: nat)
    requires start <= i <= |s| && Nest(p, depth) == Some(0) && Tokens(s[i..]) == p + Following(rest)
    ensures CutsAt(s, start, i, depth, p, rest, k)
    decreases |s| - i
  {
    hide WordLength, Commas, CutsAt, Tokens, Following, Nest, Deeper, SplitArgs;
    if i == |s| {
      k := NothingToCut(s, start, depth, p, rest);
    } else {
      FirstToken(s, i, p, rest);
      if IsBlank(s[i]) {
        k := ArgumentCut(s, start, i + 1, depth, p, rest);
        BlankBack(s, start, i, depth, p, rest, k);
      } else if IsPunct(s[i]) {
        if p == [] {
          CommaCut(s, start, i, depth, rest);
          k := i;
        } else {
          PunctSplits(s, start, i, depth, p);
          k := ArgumentCut(s, start, i + 1, Deeper(p[0], depth), p[1..], rest);
          PunctIsNoWord(p[0], s[i]);
          assert [s[i]] == s[i..i + 1];
          CutBack(s, start, i, 1, depth, Deeper(p[0], depth), p, rest, k);
        }
      } else {
        var n := WordLength(s[i..]);
        WordRuns(s, i);
        SplitSkips(s, start, i, n, depth);
        WordNests(p, depth);
        k := ArgumentCut(s, start, i + n, depth, p[1..], rest);
        CutBack(s, start, i, n, depth, depth, p, rest, k);
      }
    }
  }

  lemma NothingToCut(s: string, start: nat, depth: nat, p: seq<Token>, rest: seq<seq<Token>>) returns (k: nat)
    requires start <= |s| && Tokens(s[|s|..]) == p + Following(rest)
    ensures CutsAt(s, start, |s|, depth, p, rest, k)
  {
    hide Commas;
    k := |s|;
    assert s[|s|..] == "" && s[|s|..|s|] == "";
  }

  lemma CommaCut(s: string, start: nat, i: nat, depth: nat, rest: seq<seq<Token>>)
    requires start <= i < |s| && s[i] == ',' && rest != [] && Tokens(s[i + 1..]) == Commas(rest)
    requires Nest([], depth) == Some(0)
    ensures CutsAt(s, start, i, depth, [], rest, i)
  {
    hide Commas;
    assert s[i..i] == "";
  }

  lemma PunctIsNoWord(t: Token, c: char)
    requires t == [c] && IsPunct(c)
    ensures !IsWord(t) && IsToken(t)
  {
    assert t[0] == c;
  }

  lemma WordRuns(s: string, i: nat)
    requires i < |s| && !IsBlank(s[i]) && !IsPunct(s[i])
    ensures var n := WordLength(s[i..]);
            && 0 < n && i + n <= |s| && (i + n < |s| ==> EndsWord(s[i + n]))
            && forall j :: i <= j < i + n ==> s[j] != '(' && s[j] != ')' && s[j] != ','
  {
    var n := WordLength(s[i..]);
    assert forall j :: i <= j < i + n ==> s[j] == s[i..][j - i];
    WordStarts(s[i..]);
  }

  lemma WordNests(p: seq<Token>, depth: nat)
    requires p != [] && IsWord(p[0]) && Nest(p, depth) == Some(0)
    ensures Nest(p[1..], depth) == Some(0)
  {
  }

  /** Arguments that close what they open are found again. */
  lemma {:induction false} ArgumentsFound(s: string, start: nat, parts: seq<seq<Token>>)
    requires start <= |s| && parts != [] && Tokens(s[start..]) == Commas(parts)
    requires forall i :: 0 <= i < |parts| ==> Nest(parts[i], 0) == Some(0)
    ensures TokensOfAll(SplitArgs(s, start, start, 0)) == parts
    decreases |parts|
  {
    hide Tokens, Nest;
    var rest := parts[1..];
    assert Commas(parts) == parts[0] + Following(rest);
    var k := ArgumentCut(s, start, start, 0, parts[0], rest);
    if rest != [] {
      ArgumentsFound(s, k + 1, rest);
      var all := [s[start..k]] + SplitArgs(s, k + 1, k + 1, 0);
      assert TokensOfAll(all) == [Tokens(s[start..k])] + TokensOfAll(SplitArgs(s, k + 1, k + 1, 0));
      assert parts == [parts[0]] + rest;
    } else {
      assert s[start..k] == s[start..] && parts == [parts[0]];
      assert TokensOfAll([s[start..]]) == [Tokens(s[start..])];
    }
  }

  // ---------------------------------------------------------------- evaluation looks at tokens only

  lemma EvalByTokens(c: Ctx, text: string)
    ensures Eval(c, Join(Tokens(text))) == Eval(c, text)
  {
    hide Tokens, Sum;
    TokensOfJoin(Tokens(text));
  }

  lemma {:induction false} EvalAllByTokens(c: Ctx, texts: seq<string>)
    ensures EvalAll(c, JoinAll(TokensOfAll(texts))) == EvalAll(c, texts)
    decreases |texts|
  {
    hide Eval, Tokens, Weight;
    if texts != [] {
      EvalByTokens(c, texts[0]);
      EvalAllByTokens(c, texts[1..]);
      assert JoinAll(TokensOfAll(texts))[1..] == JoinAll(TokensOfAll(texts[1..]));
    }
  }

  /** But for the strategy of `round`, which is recognised on the text. */
  predicate SameStrategy(name: Token, texts: seq<string>) {
    Lower(name) == "round" && texts != [] ==> StrategyOf(texts[0]) == StrategyOf(Join(Tokens(texts[0])))
  }

  lemma CombineByTokens(c: Ctx, name: Token, texts: seq<string>)
    requires SameStrategy(name, texts)
    ensures Combine(c, name, JoinAll(TokensOfAll(texts))) == Combine(c, name, texts)
  {
    hide EvalAll, Tokens, Weight, StrategyOf, Apply, RoundVals;
    EvalAllByTokens(c, texts);
    if texts != [] {
      EvalAllByTokens(c, texts[1..]);
      assert JoinAll(TokensOfAll(texts))[1..] == JoinAll(TokensOfAll(texts[1..]));
    }
  }

  predicate OnlySpaces(t: string) {
    forall i :: 0 <= i < |t| && IsBlank(t[i]) ==> t[i] == ' '
  }

  lemma {:induction false} GluedIsText(t: string)
    requires OnlySpaces(t)
    ensures Glued(Tokens(t)) == Without(t, ' ')
    decreases |t|
  {
    hide WordLength, AllTokens;
    if t != "" {
      if IsBlank(t[0]) {
        GluedIsText(t[1..]);
        assert "" + Without(t[1..], ' ') == Without(t[1..], ' ');
      } else {
        var n := if IsPunct(t[0]) then 1 else WordLength(t);
        if !IsPunct(t[0]) { WordStarts(t); }
        GluedIsText(t[n..]);
        assert Tokens(t) == [t[..n]] + Tokens(t[n..]);
        assert Tokens(t)[1..] == Tokens(t[n..]);
        WithoutAppend(t[..n], t[n..]);
        NoSpaces(t[..n]);
        assert t == t[..n] + t[n..];
      }
    }
  }

  /** Blanks that are spaces change nothing. */
  lemma SpacesAreTheSame(name: Token, texts: seq<string>)
    requires texts != [] ==> OnlySpaces(texts[0])
    ensures SameStrategy(name, texts)
  {
    hide Keyword, Without, TrimLeft, TrimRight, Lower, Tokens;
    if texts != [] {
      var t := texts[0];
      GluedIsText(t);
      StrategyIsSpelled(Tokens(t));
      WithoutLower(Trim(t));
      WithoutTrimRight(TrimLeft(t));
      WithoutTrimLeft(t);
    }
  }

  /** A tab does: no strategy as text, one as tokens. */
  lemma TabBreaksStrategy()
    ensures Tokens("u\tp") == ["u", "p"] && StrategyOf("u\tp").None? && StrategyOf(Join(["u", "p"])) == Some(Up)
  {
    hide Tokens, StrategyOf, Join;
    SplitKeywordIsAStrategy();
    TabbedTokens();
    TabIsNoKeyword();
    JoinTwo("u", "p");
    assert "u" + " " + "p" == "u p";
  }

  /**
   So `SameStrategy` is needed: `round(u<tab>p, 5, 4)` has no value, though the call prints a tree that means 8.
   */
  lemma TabbedRoundHasNoValue(c: Ctx)
    ensures var text, e := "u\tp,5,4", Fn("round", Some(["u", "p"]), [Lit("5"), Lit("4")]);
            && Combine(c, "round", SplitArgs(text, 0, 0, 0)).None?
            && Writes(e, "round", text) && Denote(c, e) == Some(8.0)
  {
    hide *;
    TabbedArguments();
    TabbedCallFails(c, "5", "4");
    TabbedCallMeans(c);
    TabbedCallIsWritten();
  }

  lemma TabbedArguments()
    ensures SplitArgs("u\tp,5,4", 0, 0, 0) == ["u\tp", "5", "4"]
  {
    var s := "u\tp,5,4";
    assert s[0..3] == "u\tp" && s[4..5] == "5" && s[6..] == "4";
    assert SplitArgs(s, 6, 6, 0) == [s[6..]];
    assert SplitArgs(s, 4, 4, 0) == SplitArgs(s, 4, 5, 0) == [s[4..5]] + SplitArgs(s, 6, 6, 0);
    SplitSkips(s, 0, 0, 3, 0);
    assert SplitArgs(s, 0, 3, 0) == [s[0..3]] + SplitArgs(s, 4, 4, 0);
  }

  lemma TabbedCallFails(c: Ctx, a: string, b: string)
    ensures Combine(c, "round", ["u\tp", a, b]).None?
  {
    hide StrategyOf, Eval, Apply, RoundVals, Weight;
    TabBreaksStrategy();
    TabbedTextFails(c);
    assert Lower("round") == "round";
  }

  lemma TabbedTextFails(c: Ctx)
    ensures Eval(c, "u\tp").None?
  {
    hide Tokens, Length;
    TabbedTokens();
    LetterIsNoLength(c);
    assert Atom(c, ["u", "p"], 0) == Fail;
    assert Factor(c, ["u", "p"], 0) == Fail;
    assert Product(c, ["u", "p"], 0) == Fail;
    assert Sum(c, ["u", "p"], 0) == Fail;
  }

  lemma LetterIsNoLength(c: Ctx)
    ensures Length(c, "u").None?
  {
    assert Lower("u") == "u";
  }

  lemma TabbedCallMeans(c: Ctx)
    ensures Denote(c, Fn("round", Some(["u", "p"]), [Lit("5"), Lit("4")])) == Some(8.0)
  {
    hide StrategyOf, Length, RoundVals;
    TabBreaksStrategy();
    DigitsAreLengths(c);
    BothDenoted(c, Lit("5"), Lit("4"), 5.0, 4.0);
    UpToFours();
  }

  lemma BothDenoted(c: Ctx, a: Expr, b: Expr, x: real, y: real)
    requires Denote(c, a) == Some(x) && Denote(c, b) == Some(y)
    ensures DenoteAll(c, [a, b]) == Some([x, y])
  {
    hide Denote;
    assert [a, b][1..] == [b] && [b][1..] == [];
    var none: seq<Expr> := [];
    assert DenoteAll(c, none) == Some([]);
    assert [y] + [] == [y] && [x] + [y] == [x, y];
    assert DenoteAll(c, [b]) == Some([y]);
  }

  lemma UpToFours()
    ensures RoundVals(Up, [5.0, 4.0]) == Some(8.0)
  {
    assert 5.0 / 4.0 == 1.25 && (-1.25).Floor == -2;
  }

  lemma DigitsAreLengths(c: Ctx)
    ensures Length(c, "5") == Some(5.0) && Length(c, "4") == Some(4.0)
  {
    DigitIsLength(c, '5', 5.0);
    DigitIsLength(c, '4', 4.0);
  }

  lemma DigitIsLength(c: Ctx, d: char, v: real)
    requires IsDigit(d) && v == (d as int - '0' as int) as real
    ensures Length(c, [d]) == Some(v)
  {
    hide InUnit;
    var t := [d];
    assert t[1..] == "" && t[..1] == t && t[..0] == "";
    assert NumberRun(t) == 1 + NumberRun(t[1..]) == 1;
    assert DigitRun(t) == 1 + DigitRun(t[1..]) == 1;
    assert Digits(t) == 10 * Digits(t[..0]) + (d as int - '0' as int);
    assert Lower(t)[0] == d && Lower("") == "";
    NoUnit(c, v);
  }

  lemma TabbedCallIsWritten()
    ensures Writes(Fn("round", Some(["u", "p"]), [Lit("5"), Lit("4")]), "round", "u\tp,5,4")
  {
    hide StrategyOf, Tokens, WellFormed;
    TabbedCallTokens();
    TabbedCallPrints();
    TabbedCallIsFormed();
  }

  lemma TabbedCallPrints()
    ensures Print(Fn("round", Some(["u", "p"]), [Lit("5"), Lit("4")]))
            == ["round", "("] + ["u", "p", ",", "5", ",", "4"] + [")"]
  {
    var args := [Lit("5"), Lit("4")];
    assert args[1..] == [Lit("4")] && args[1..][1..] == [];
    assert PrintAll([]) == [];
    assert PrintAll([Lit("4")]) == [["4"]] + [];
    assert PrintAll(args) == [["5"]] + [["4"]];
    var parts := [["u", "p"], ["5"], ["4"]];
    assert Parts(Some(["u", "p"]), PrintAll(args)) == parts;
    assert parts[1..] == [["5"], ["4"]] && parts[1..][1..] == [["4"]];
    assert Commas([["5"], ["4"]]) == ["5"] + [","] + ["4"];
    assert Commas(parts) == ["u", "p"] + [","] + Commas([["5"], ["4"]]);
    assert Commas(parts) == ["u", "p", ",", "5", ",", "4"];
  }

  lemma TabbedCallIsFormed()
    ensures WellFormed(Fn("round", Some(["u", "p"]), [Lit("5"), Lit("4")]))
  {
    hide StrategyOf, IsWord, Tokens, Join;
    TabBreaksStrategy();
    RoundWords();
    assert WellFormed(Lit("5")) && WellFormed(Lit("4"));
  }

  lemma RoundWords()
    ensures IsWord("round") && IsWord("5") && IsWord("4") && IsWord("u") && IsWord("p") && Lower("round") == "round"
  {
  }

  lemma TabbedCallTokens()
    ensures Tokens("u\tp,5,4") == ["u", "p", ",", "5", ",", "4"]
  {
    hide Tokens;
    TabbedTokens();
    DigitTokens();
    TokensBeforePunct("5", ",4");
    CommaFirst("4");
    assert "5" + ",4" == "5,4" && "," + "4" == ",4";
    TokensBeforePunct("u\tp", ",5,4");
    CommaFirst("5,4");
    assert "u\tp" + ",5,4" == "u\tp,5,4" && "," + "5,4" == ",5,4";
  }

  lemma DigitTokens()
    ensures Tokens("5") == ["5"] && Tokens("4") == ["4"]
  {
    hide Tokens;
    WordThen("5", "");
    WordThen("4", "");
    NoTokens();
    assert "5" + "" == "5" && "4" + "" == "4";
  }

  lemma JoinTwo(a: Token, b: Token)
    ensures Join([a, b]) == a + " " + b
  {
    assert [a, b][1..] == [b];
  }

  lemma TabIsNoKeyword()
    ensures StrategyOf("u\tp").None?
  {
    hide Without, TrimLeft, TrimRight;
    TrimmedTrim("u\tp");
    assert Lower("u\tp")[1] == '\t' && |Lower("u\tp")| == 3;
    NoSpaces(Lower("u\tp"));
  }

  lemma TabbedTokens()
    ensures Tokens("u\tp") == ["u", "p"]
  {
    hide Tokens;
    WordThen("u", "\tp");
    WordThen("p", "");
    assert "u" + "\tp" == "u\tp" && "p" + "" == "p" && "\tp"[1..] == "p";
    TokensUnfold("\tp");
    TokensUnfold("");
    assert ["p"] + [] == ["p"];
    assert ["u"] + ["p"] == ["u", "p"];
  }

  /** The printed call with this argument text. */
  predicate Writes(e: Expr, name: Token, text: string) {
    WellFormed(e) && e.Fn? && e.name == name && Print(e) == [name, "("] + Tokens(text) + [")"]
  }

  /**
   A math function applied to its argument text evaluates to `v` exactly when the call is the print of an
   expression tree whose meaning is `v`, whatever the function; `round` only when its strategy is spelled
   the same in the text and in its tokens.
   */
  lemma FunctionEvaluatesItsMeaning(c: Ctx, name: Token, text: string, v: real)
    requires IsWord(name) && !IsNumeric(name) && SameStrategy(name, SplitArgs(text, 0, 0, 0))
    ensures Combine(c, name, SplitArgs(text, 0, 0, 0)) == Some(v)
            <==> exists e :: Writes(e, name, text) && Denote(c, e) == Some(v)
  {
    hide Combine, Tokens, Denote, WellFormed, Print, IsWord, IsNumeric, SameStrategy, SplitArgs, Commas;
    var texts := SplitArgs(text, 0, 0, 0);
    var parts := TokensOfAll(texts);
    assert text[0..] == text;
    TokensOfSplit(text, 0, 0, 0);
    CombineByTokens(c, name, texts);
    if Combine(c, name, texts) == Some(v) {
      var e := CallFinds(c, name, parts, MostTokens(parts) + 1);
      CallIsNamed(e, name, parts);
      assert Writes(e, name, text);
    }
    if e :| Writes(e, name, text) && Denote(c, e) == Some(v) {
      var own := Parts(e.strategy, PrintAll(e.args));
      PartsNest(e, 0);
      CallIsNamed(e, name, parts);
      CombineDenotes(c, e);
      CallPrints(e, name, text);
      ArgumentsFound(text, 0, own);
    }
  }

  function MostTokens(parts: seq<seq<Token>>): (n: nat)
    ensures forall i :: 0 <= i < |parts| ==> |parts[i]| <= n
  {
    if parts == [] then 0
    else
      var m := MostTokens(parts[1..]);
      assert forall i :: 1 <= i < |parts| ==> parts[i] == parts[1..][i - 1];
      if |parts[0]| > m then |parts[0]| else m
  }

  lemma CallIsNamed(e: Expr, name: Token, parts: seq<seq<Token>>)
    requires e.Fn? && Print(e) == [name, "("] + Commas(parts) + [")"]
    ensures e.name == name
  {
    hide Commas;
    assert Print(e)[0] == e.name;
  }

  lemma CallPrints(e: Expr, name: Token, text: string)
    requires Writes(e, name, text)
    ensures Tokens(text) == Commas(Parts(e.strategy, PrintAll(e.args)))
  {
    hide Commas, Tokens, WellFormed;
    var inner := Commas(Parts(e.strategy, PrintAll(e.args)));
    var all := Print(e);
    assert all == [name, "("] + inner + [")"];
    assert all[2..|all| - 1] == inner && all[2..|all| - 1] == Tokens(text);
  }

  /**
   `calc(text)` evaluates to `v` exactly when the text is the print of an expression tree whose
   meaning is `v`; in particular every printed tree evaluates to its meaning and nothing else is
   accepted.
   */
  lemma CalcEvaluatesItsMeaning(c: Ctx, text: string, v: real)
    ensures Combine(c, "calc", SplitArgs(text, 0, 0, 0)) == Some(v)
            <==> exists e :: WellFormed(e) && Print(e) == Tokens(text) && Denote(c, e) == Some(v)
  {
    var parts := SplitArgs(text, 0, 0, 0);
    assert Lower("calc") == "calc";
    EvalAllIndex(c, parts);
    EvalAcceptsExactly(c, text, v);
    if |parts| == 1 { SplitWhole(text, 0, 0, 0); }
    if e :| WellFormed(e) && Print(e) == Tokens(text) && Denote(c, e) == Some(v) {
      PrintNests(e, 0);
      assert text[0..] == text;
      OneArgument(text, 0, 0, 0);
    }
  }

  lemma {:induction false} SplitWhole(s: string, start: nat, i: nat, depth: int)
    requires start <= i <= |s| && |SplitArgs(s, start, i, depth)| == 1
    ensures SplitArgs(s, start, i, depth) == [s[start..]]
    decreases |s| - i
  {
    if i < |s| {
      if !(s[i] == ',' && depth == 0) {
        SplitWhole(s, start, i + 1, if s[i] == '(' then depth + 1 else if s[i] == ')' then depth - 1 else depth);
      }
    }
  }
}
