/**
 The tokens of a `calc()` expression.  Tokens are strings; an expression's arguments are re-joined
 with spaces and tokenised again, so the round trip below is what makes evaluation by text agree
 with evaluation in place.
 */
module CalcTokens {
  import opened Text

  type Token = string

  predicate IsPunct(c: char) {
    c == '(' || c == ')' || c == '+' || c == '-' || c == '*' || c == '/' || c == ','
  }

  /** What ends a word.  A carriage return separates tokens but does not end one. */
  predicate EndsWord(c: char) {
    c == ' ' || c == '\t' || c == '\n' || IsPunct(c)
  }

  predicate IsWord(t: Token) {
    t != "" && t[0] != '\r' && forall i :: 0 <= i < |t| ==> !EndsWord(t[i])
  }

  predicate IsToken(t: Token) {
    IsWord(t) || (|t| == 1 && IsPunct(t[0]))
  }

  predicate AllTokens(toks: seq<Token>) {
    forall i :: 0 <= i < |toks| ==> IsToken(toks[i])
  }

  function WordLength(s: string): (n: nat)
    ensures n <= |s|
    ensures forall i :: 0 <= i < n ==> !EndsWord(s[i])
    ensures n < |s| ==> EndsWord(s[n])
  {
    if s == "" || EndsWord(s[0]) then 0 else 1 + WordLength(s[1..])
  }

  function Tokens(s: string): (toks: seq<Token>)
    ensures AllTokens(toks)
    decreases |s|
  {
    if s == "" then []
    else if IsBlank(s[0]) then Tokens(s[1..])
    else if IsPunct(s[0]) then [s[..1]] + Tokens(s[1..])
    else [s[..WordLength(s)]] + Tokens(s[WordLength(s)..])
  }

  /** The tokeniser's inner loop: where the word that starts here ends. */
  method WordEnd(s: string, i: nat) returns (j: nat)
    requires i <= |s|
    ensures j == i + WordLength(s[i..])
  {
    j := i;
    while j < |s| && !EndsWord(s[j])
      invariant i <= j <= |s|
      invariant WordLength(s[i..]) == j - i + WordLength(s[j..])
    {
      assert s[j..][1..] == s[j + 1..];
      j := j + 1;
    }
  }

  /** The tokeniser's loop. */
  method CalcTokens(s: string) returns (out: seq<Token>)
    ensures out == Tokens(s)
  {
    hide Tokens, TokensFrom, WordLength;
    out := [];
    var i := 0;
    TokensAt(s, 0);
    while i < |s|
      invariant 0 <= i <= |s|
      invariant out + TokensFrom(s, i) == Tokens(s)
    {
      var c := s[i];
      TokensAt(s, i);
      if IsBlank(c) {
        i := i + 1;
        continue;
      }
      if IsPunct(c) {
        out := out + [[c]];
        i := i + 1;
        continue;
      }
      var j := WordEnd(s, i);
      out := out + [s[i..j]];
      i := j;
    }
    TokensAt(s, i);
  }

  function TokensFrom(s: string, i: nat): seq<Token>
    requires i <= |s|
  {
    Tokens(s[i..])
  }

  /** The next token from a position on. */
  lemma TokensAt(s: string, i: nat)
    requires i <= |s|
    ensures TokensFrom(s, 0) == Tokens(s)
    ensures i == |s| ==> TokensFrom(s, i) == []
    ensures i < |s| ==>
              TokensFrom(s, i)
              == if IsBlank(s[i]) then TokensFrom(s, i + 1)
                 else if IsPunct(s[i]) then [[s[i]]] + TokensFrom(s, i + 1)
                 else [s[i..i + WordLength(s[i..])]] + TokensFrom(s, i + WordLength(s[i..]))
  {
    hide WordLength, AllTokens, Tokens;
    assert s[0..] == s;
    if i < |s| {
      var rest, n := s[i..], WordLength(s[i..]);
      TokensUnfold(rest);
      assert rest[1..] == s[i + 1..] && rest[..1] == [s[i]];
      assert rest[..n] == s[i..i + n] && rest[n..] == s[i + n..];
    } else {
      TokensUnfold("");
      assert s[i..] == "";
    }
  }

  lemma TokensUnfold(s: string)
    ensures s == "" ==> Tokens(s) == []
    ensures s != "" ==>
              Tokens(s)
              == if IsBlank(s[0]) then Tokens(s[1..])
                 else if IsPunct(s[0]) then [s[..1]] + Tokens(s[1..])
                 else [s[..WordLength(s)]] + Tokens(s[WordLength(s)..])
  {
    hide WordLength, AllTokens;
  }

  /** Tokens joined by single spaces. */
  function Join(toks: seq<Token>): string {
    if toks == [] then ""
    else if |toks| == 1 then toks[0]
    else toks[0] + " " + Join(toks[1..])
  }

  lemma {:induction false} WordThen(w: Token, rest: string)
    requires IsWord(w)
    requires rest != "" ==> EndsWord(rest[0])
    ensures Tokens(w + rest) == [w] + Tokens(rest)
  {
    WordLengthOf(w, rest);
    assert (w + rest)[..|w|] == w && (w + rest)[|w|..] == rest;
    assert !IsBlank((w + rest)[0]) && !IsPunct((w + rest)[0]);
  }

  lemma {:induction false} WordLengthOf(w: string, rest: string)
    requires forall i :: 0 <= i < |w| ==> !EndsWord(w[i])
    requires rest != "" ==> EndsWord(rest[0])
    ensures WordLength(w + rest) == |w|
  {
    if w == "" {
      assert w + rest == rest;
    } else {
      WordLengthOf(w[1..], rest);
      assert (w + rest)[1..] == w[1..] + rest;
    }
  }

  /** Joining tokens with spaces and tokenising again gives the same tokens. */
  lemma {:induction false} TokensOfJoin(toks: seq<Token>)
    requires AllTokens(toks)
    ensures Tokens(Join(toks)) == toks
  {
    if toks != [] {
      var t := toks[0];
      var rest := if |toks| == 1 then "" else " " + Join(toks[1..]);
      assert Join(toks) == t + rest;
      if |toks| > 1 {
        TokensOfJoin(toks[1..]);
        assert rest[1..] == Join(toks[1..]);
      } else {
        assert toks[1..] == [];
      }
      assert Tokens(rest) == toks[1..];
      if IsWord(t) {
        WordThen(t, rest);
      } else {
        assert (t + rest)[..1] == t && (t + rest)[1..] == rest;
      }
      assert toks == [t] + toks[1..];
    }
  }
}
