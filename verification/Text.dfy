/** The pieces of Go's `strings` package the parsers use, on strings of single-byte characters. */
module Text {
  import opened Options

  function LowerChar(c: char): char {
    if 'A' <= c <= 'Z' then c - 'A' + 'a' else c
  }

  function Lower(s: string): (r: string)
    ensures |r| == |s|
    ensures forall i :: 0 <= i < |s| ==> r[i] == LowerChar(s[i])
  {
    seq(|s|, i requires 0 <= i < |s| => LowerChar(s[i]))
  }

  /** White space as `strings.TrimSpace` sees it. */
  predicate IsSpace(c: char) {
    c == ' ' || c == '\t' || c == '\n' || c == '\r' || c as int == 11 || c as int == 12
  }

  /** White space between tokens. */
  predicate IsBlank(c: char) {
    c == ' ' || c == '\t' || c == '\n' || c == '\r'
  }

  function TrimLeft(s: string): (r: string)
    ensures r == "" || !IsSpace(r[0])
    ensures |r| <= |s|
  {
    if s != "" && IsSpace(s[0]) then TrimLeft(s[1..]) else s
  }

  function TrimRight(s: string): (r: string)
    ensures r == "" || !IsSpace(r[|r| - 1])
    ensures r <= s
  {
    if s != "" && IsSpace(s[|s| - 1]) then TrimRight(s[..|s| - 1]) else s
  }

  function Trim(s: string): string {
    TrimRight(TrimLeft(s))
  }

  predicate Trimmed(s: string) {
    s == "" || (!IsSpace(s[0]) && !IsSpace(s[|s| - 1]))
  }

  lemma TrimmedTrim(s: string)
    requires Trimmed(s)
    ensures Trim(s) == s
  {
  }

  /** The first place a word occurs, the length of the text when nowhere. */
  function Find(s: string, w: string): (n: nat)
    ensures n <= |s|
    ensures n < |s| ==> w <= s[n..]
    ensures forall i :: 0 <= i < n ==> !(w <= s[i..])
    decreases |s|
  {
    if s == "" || w <= s then 0
    else
      assert forall i :: 1 <= i < |s| ==> s[i..] == s[1..][i - 1..];
      1 + Find(s[1..], w)
  }

  lemma FindIsFirst(s: string, w: string, k: nat)
    requires k < Find(s, w)
    ensures !(w <= s[k..])
  {
  }

  lemma FindHere(s: string, w: string, at: nat)
    requires at < |s| && w <= s[at..] && forall k :: 0 <= k < at ==> !(w <= s[k..])
    ensures Find(s, w) == at
  {
    hide Find;
    var n := Find(s, w);
    if n > at { FindIsFirst(s, w, at); }
  }

  lemma FindNowhere(s: string, w: string)
    requires forall k :: 0 <= k < |s| ==> !(w <= s[k..])
    ensures Find(s, w) == |s|
  {
    hide Find;
    var n := Find(s, w);
    assert n == |s|;
  }

  lemma FindNotBefore(a: string, w: string, rest: string, k: nat)
    requires w != "" && Find(a + w, w) == |a| && k < |a|
    ensures !(w <= (a + (w + rest))[k..])
  {
    hide Find;
    var s, t := a + (w + rest), a + w;
    FindIsFirst(t, w, k);
    assert s[k..][..|w|] == t[k..][..|w|];
  }

  /** What is found at the end of a text is found there whatever follows. */
  lemma FindAhead(a: string, w: string, rest: string)
    requires w != "" && Find(a + w, w) == |a|
    ensures Find(a + (w + rest), w) == |a|
  {
    hide Find;
    var s := a + (w + rest);
    assert s[|a|..] == w + rest;
    forall k | 0 <= k < |a| ensures !(w <= s[k..]) { FindNotBefore(a, w, rest, k); }
    FindHere(s, w, |a|);
  }

  lemma FindColon(p: string, rest: string)
    requires ':' !in p
    ensures Find(p + ":" + rest, ":") == |p|
  {
    var s := p + ":" + rest;
    assert s[|p|..] == ":" + rest;
    forall k | 0 <= k < |p| ensures !(":" <= s[k..]) { assert s[k..][0] == p[k]; }
    FindHere(s, ":", |p|);
  }

  /** Parentheses match up, from a given depth down to zero. */
  predicate Balanced(s: string, depth: nat) {
    if s == "" then depth == 0
    else if s[0] == '(' then Balanced(s[1..], depth + 1)
    else if s[0] == ')' then depth > 0 && Balanced(s[1..], depth - 1)
    else Balanced(s[1..], depth)
  }

  function Without(s: string, c: char): string {
    if s == "" then "" else (if s[0] == c then "" else s[..1]) + Without(s[1..], c)
  }

  predicate IsDigit(c: char) {
    '0' <= c <= '9'
  }

  function Digits(s: string): nat
    requires forall i :: 0 <= i < |s| ==> IsDigit(s[i])
  {
    if s == "" then 0 else
      assert IsDigit(s[|s| - 1]);
      10 * Digits(s[..|s| - 1]) + (s[|s| - 1] as int - '0' as int)
  }

  function DigitRun(s: string): (n: nat)
    ensures n <= |s|
    ensures forall i :: 0 <= i < n ==> IsDigit(s[i])
    ensures n < |s| ==> !IsDigit(s[n])
  {
    if s == "" || !IsDigit(s[0]) then 0 else 1 + DigitRun(s[1..])
  }

  function Tenth(x: real, places: nat): real {
    if places == 0 then x else Tenth(x, places - 1) / 10.0
  }

  /** The exact value of an unsigned decimal numeral, or None when the text is not one. */
  function Decimal(s: string): Option<real> {
    var n := DigitRun(s);
    if n == |s| then
      (if n == 0 then None else Some(Digits(s) as real))
    else if s[n] != '.' then None
    else
      var frac := s[n + 1..];
      if DigitRun(frac) != |frac| || n + |frac| == 0 then None
      else Some(Digits(s[..n]) as real + Tenth(Digits(frac) as real, |frac|))
  }
}
