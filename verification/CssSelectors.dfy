/** Selector lists and the combination of a nested selector with its parents. */
module CssSelectors {
  import opened Options
  import opened Text
  import opened CssScan

  // ---------------------------------------------------------------- lists

  /** The first comma outside parentheses; the depth may drop below zero and then no comma counts. */
  function Comma(s: string, depth: int): (n: nat)
    ensures n <= |s|
    ensures n < |s| ==> s[n] == ','
    decreases |s|
  {
    if s == "" || (s[0] == ',' && depth == 0) then 0
    else 1 + Comma(s[1..], if s[0] == '(' then depth + 1 else if s[0] == ')' then depth - 1 else depth)
  }

  function SelectorList(s: string): (r: seq<string>)
    ensures r != []
    decreases |s|
  {
    var n := Comma(s, 0);
    if n < |s| then [s[..n]] + SelectorList(s[n + 1..]) else [s]
  }

  method SplitSelectors(s: string) returns (parts: seq<string>)
    ensures parts == SelectorList(s)
  {
    hide SelectorList, Comma;
    parts := [];
    var depth, start, i := 0, 0, 0;
    assert s[0..] == s;
    while i < |s|
      invariant 0 <= start <= i <= |s|
      invariant parts + SelectorList(s[start..]) == SelectorList(s)
      invariant Comma(s[start..], 0) == i - start + Comma(s[i..], depth)
    {
      CommaStep(s, i, depth);
      if s[i] == '(' {
        depth := depth + 1;
      } else if s[i] == ')' {
        depth := depth - 1;
      } else if s[i] == ',' {
        if depth == 0 {
          ListCut(s, start, i);
          parts := parts + [s[start..i]];
          start := i + 1;
        }
      }
      i := i + 1;
    }
    CommaStep(s, i, depth);
    ListLast(s, start);
    parts := parts + [s[start..]];
  }

  lemma CommaStep(s: string, i: nat, depth: int)
    requires i <= |s|
    ensures i == |s| ==> Comma(s[i..], depth) == 0
    ensures i < |s| ==>
              Comma(s[i..], depth)
              == if s[i] == ',' && depth == 0 then 0
                 else 1 + Comma(s[i + 1..], if s[i] == '(' then depth + 1 else if s[i] == ')' then depth - 1 else depth)
  {
    if i < |s| { assert s[i..][1..] == s[i + 1..]; }
  }

  lemma ListCut(s: string, start: nat, i: nat)
    requires start <= i < |s| && Comma(s[start..], 0) == i - start
    ensures SelectorList(s[start..]) == [s[start..i]] + SelectorList(s[i + 1..])
  {
    hide Comma;
    assert s[start..][..i - start] == s[start..i] && s[start..][i - start + 1..] == s[i + 1..];
  }

  lemma ListLast(s: string, start: nat)
    requires start <= |s| && Comma(s[start..], 0) == |s| - start
    ensures SelectorList(s[start..]) == [s[start..]]
  {
    hide Comma;
  }

  /** How deep in parentheses a text ends, below zero when it closes more than it opens. */
  function DepthOf(s: string): int {
    if s == "" then 0
    else DepthOf(s[..|s| - 1]) + if s[|s| - 1] == '(' then 1 else if s[|s| - 1] == ')' then -1 else 0
  }

  function JoinedWithCommas(parts: seq<string>): string {
    if parts == [] then "" else if |parts| == 1 then parts[0] else parts[0] + "," + JoinedWithCommas(parts[1..])
  }

  /** The pieces joined with commas are the text. */
  lemma {:induction false} ListIsLossless(s: string)
    ensures JoinedWithCommas(SelectorList(s)) == s
    decreases |s|
  {
    hide Comma;
    var n := Comma(s, 0);
    if n < |s| {
      ListIsLossless(s[n + 1..]);
      assert SelectorList(s)[1..] == SelectorList(s[n + 1..]);
      assert s == s[..n] + "," + s[n + 1..];
    }
  }

  /** The first cut is the first comma at depth zero. */
  lemma FirstCutIs(s: string)
    ensures var n := Comma(s, 0);
            && (n < |s| ==> DepthOf(s[..n]) == 0)
            && forall i :: 0 <= i < n && s[i] == ',' ==> DepthOf(s[..i]) != 0
  {
    var n := Comma(s, 0);
    assert s[0..] == s && s[..0] == "";
    CommaFrom(s, 0);
    forall i | 0 <= i < n && s[i] == ',' ensures DepthOf(s[..i]) != 0 { NoCutBefore(s, 0, i); }
  }

  lemma DepthStep(s: string, k: nat)
    requires k < |s|
    ensures DepthOf(s[..k + 1]) == DepthOf(s[..k]) + if s[k] == '(' then 1 else if s[k] == ')' then -1 else 0
  {
    assert s[..k + 1][..k] == s[..k];
  }

  lemma {:induction false} CommaFrom(s: string, k: nat)
    requires k <= |s|
    ensures var n := k + Comma(s[k..], DepthOf(s[..k])); n < |s| ==> DepthOf(s[..n]) == 0
    decreases |s| - k
  {
    if k < |s| && !(s[k] == ',' && DepthOf(s[..k]) == 0) {
      DepthStep(s, k);
      assert s[k..][1..] == s[k + 1..];
      CommaFrom(s, k + 1);
    }
  }

  lemma {:induction false} NoCutBefore(s: string, k: nat, i: nat)
    requires k <= i < |s| && i < k + Comma(s[k..], DepthOf(s[..k])) && s[i] == ','
    ensures DepthOf(s[..i]) != 0
    decreases i - k
  {
    if i > k {
      DepthStep(s, k);
      assert s[k..][1..] == s[k + 1..];
      NoCutBefore(s, k + 1, i);
    }
  }

  /** The pieces that hold anything, trimmed. */
  function Kept(parts: seq<string>): seq<string> {
    if parts == [] then []
    else (if Trim(parts[0]) == "" then [] else [Trim(parts[0])]) + Kept(parts[1..])
  }

  // ---------------------------------------------------------------- nesting, as the code does it

  /** An ampersand outside strings and escapes. */
  predicate HasAmpersand(quote: char, s: string)
    decreases |s|
  {
    s != "" &&
    if s[0] == '\\' && |s| > 1 then HasAmpersand(quote, s[2..])
    else if quote != NO_QUOTE then HasAmpersand(if s[0] == quote then NO_QUOTE else quote, s[1..])
    else if IsQuote(s[0]) then HasAmpersand(s[0], s[1..])
    else s[0] == '&' || HasAmpersand(quote, s[1..])
  }

  /** What the code writes: each ampersand becomes the parent, and an escape pair disappears. */
  function Filled(parent: string, quote: char, s: string): string
    decreases |s|
  {
    if s == "" then ""
    else if s[0] == '\\' && |s| > 1 then Filled(parent, quote, s[2..])
    else if quote != NO_QUOTE then [s[0]] + Filled(parent, if s[0] == quote then NO_QUOTE else quote, s[1..])
    else if IsQuote(s[0]) then [s[0]] + Filled(parent, s[0], s[1..])
    else (if s[0] == '&' then parent else [s[0]]) + Filled(parent, quote, s[1..])
  }

  function Expanded(parent: string, nested: string): string {
    if HasAmpersand(NO_QUOTE, nested) then Filled(parent, NO_QUOTE, nested)
    else
      var trimmed := nested[Blanks(nested)..];
      if trimmed != "" && trimmed[0] == ':' then parent + trimmed else parent + " " + trimmed
  }

  method ExpandSingleNestedSelector(parent: string, nested: string) returns (r: string)
    ensures r == Expanded(parent, nested)
  {
    var hasAmpersand := false;
    var quote, i := NO_QUOTE, 0;
    while i < |nested|
      invariant i <= |nested| && (quote == NO_QUOTE || IsQuote(quote)) && !hasAmpersand
      invariant HasAmpersand(quote, nested[i..]) == HasAmpersand(NO_QUOTE, nested)
    {
      var c := nested[i];
      assert nested[i..][1..] == nested[i + 1..];
      if c == '\\' && i + 1 < |nested| {
        assert nested[i..][2..] == nested[i + 2..];
        i := i + 2;
        continue;
      }
      if quote != NO_QUOTE {
        if c == quote { quote := NO_QUOTE; }
      } else if IsQuote(c) {
        quote := c;
      } else if c == '&' {
        hasAmpersand := true;
        break;
      }
      i := i + 1;
    }
    assert hasAmpersand == HasAmpersand(NO_QUOTE, nested);
    if hasAmpersand {
      r := Fill(parent, nested);
    } else {
      var trimmed := nested[Blanks(nested)..];
      if |trimmed| > 0 && (trimmed[0] == '>' || trimmed[0] == '+' || trimmed[0] == '~') {
        r := parent + " " + trimmed;
      } else if |trimmed| > 0 && trimmed[0] == ':' {
        r := parent + trimmed;
      } else {
        r := parent + " " + trimmed;
      }
    }
  }

  method Fill(parent: string, nested: string) returns (b: string)
    ensures b == Filled(parent, NO_QUOTE, nested)
  {
    hide Filled, FilledFrom;
    b := "";
    var quote, i := NO_QUOTE, 0;
    FilledStep(parent, quote, nested, 0);
    while i < |nested|
      invariant i <= |nested| && (quote == NO_QUOTE || IsQuote(quote))
      invariant b + FilledFrom(parent, quote, nested, i) == Filled(parent, NO_QUOTE, nested)
    {
      var c := nested[i];
      FilledStep(parent, quote, nested, i);
      if c == '\\' && i + 1 < |nested| {
        i := i + 2;
        continue;
      }
      if quote != NO_QUOTE {
        if c == quote { quote := NO_QUOTE; }
        b := b + [c];
      } else if IsQuote(c) {
        quote := c;
        b := b + [c];
      } else if c == '&' {
        b := b + parent;
      } else {
        b := b + [c];
      }
      i := i + 1;
    }
    FilledStep(parent, quote, nested, i);
  }

  function FilledFrom(parent: string, quote: char, s: string, i: nat): string
    requires i <= |s|
  {
    Filled(parent, quote, s[i..])
  }

  /** What is still to be written from a position on. */
  lemma FilledStep(parent: string, quote: char, s: string, i: nat)
    requires i <= |s| && (quote == NO_QUOTE || IsQuote(quote))
    ensures FilledFrom(parent, quote, s, 0) == Filled(parent, quote, s)
    ensures i == |s| ==> FilledFrom(parent, quote, s, i) == ""
    ensures i < |s| ==>
              FilledFrom(parent, quote, s, i)
              == (if s[i] == '\\' && i + 1 < |s| then FilledFrom(parent, quote, s, i + 2)
                  else if quote != NO_QUOTE then
                    [s[i]] + FilledFrom(parent, if s[i] == quote then NO_QUOTE else quote, s, i + 1)
                  else if IsQuote(s[i]) then [s[i]] + FilledFrom(parent, s[i], s, i + 1)
                  else (if s[i] == '&' then parent else [s[i]]) + FilledFrom(parent, quote, s, i + 1))
  {
    assert s[0..] == s;
    if i < |s| {
      assert s[i..][1..] == s[i + 1..];
      if i + 1 < |s| { assert s[i..][2..] == s[i + 2..]; }
    }
  }

  function WithParents(parents: seq<string>, nested: string): seq<string> {
    if parents == [] then []
    else
      (if Trim(parents[0]) == "" || Expanded(Trim(parents[0]), nested) == "" then []
       else [Expanded(Trim(parents[0]), nested)])
      + WithParents(parents[1..], nested)
  }

  function Nested(parents: seq<string>, nested: seq<string>): seq<string> {
    if nested == [] then []
    else
      (if Trim(nested[0]) == "" then [] else WithParents(parents, Trim(nested[0])))
      + Nested(parents, nested[1..])
  }

  function NestedSelectors(parents: seq<string>, nested: seq<string>): seq<string> {
    if parents == [] then nested else Nested(parents, nested)
  }

  method ExpandNestedSelectors(parents: seq<string>, nested: seq<string>) returns (result: seq<string>)
    ensures result == NestedSelectors(parents, nested)
  {
    hide Trim, WithParents;
    if |parents| == 0 {
      return nested;
    }
    result := [];
    var k := 0;
    while k < |nested|
      invariant k <= |nested| && result + Nested(parents, nested[k..]) == Nested(parents, nested)
    {
      var one := Trim(nested[k]);
      assert nested[k..][1..] == nested[k + 1..];
      if one != "" {
        var under := ExpandUnderParents(parents, one);
        result := result + under;
      }
      k := k + 1;
    }
    assert nested[k..] == [];
  }

  method ExpandUnderParents(parents: seq<string>, nested: string) returns (result: seq<string>)
    ensures result == WithParents(parents, nested)
  {
    hide Trim, Expanded, WithParents;
    result := [];
    var j := 0;
    assert parents[0..] == parents;
    while j < |parents|
      invariant j <= |parents|
      invariant result + WithParents(parents[j..], nested) == WithParents(parents, nested)
    {
      var parent := Trim(parents[j]);
      WithParentsStep(parents, nested, j);
      if parent != "" {
        var exp := ExpandSingleNestedSelector(parent, nested);
        if exp != "" {
          result := result + [exp];
        }
      }
      j := j + 1;
    }
    WithParentsStep(parents, nested, j);
  }

  lemma WithParentsStep(parents: seq<string>, nested: string, j: nat)
    requires j <= |parents|
    ensures j == |parents| ==> WithParents(parents[j..], nested) == []
    ensures j < |parents| ==>
              WithParents(parents[j..], nested)
              == (var parent := Trim(parents[j]);
                  if parent == "" || Expanded(parent, nested) == "" then [] else [Expanded(parent, nested)])
                 + WithParents(parents[j + 1..], nested)
  {
    hide Trim, Expanded;
    if j < |parents| { assert parents[j..][1..] == parents[j + 1..]; }
  }

  // ---------------------------------------------------------------- nesting, as it is meant

  /** Every ampersand outside strings and escapes replaced, all else kept. */
  function Substituted(parent: string, quote: char, s: string): string
    decreases |s|
  {
    if s == "" then ""
    else if s[0] == '\\' && |s| > 1 then s[..2] + Substituted(parent, quote, s[2..])
    else if quote != NO_QUOTE then [s[0]] + Substituted(parent, if s[0] == quote then NO_QUOTE else quote, s[1..])
    else if IsQuote(s[0]) then [s[0]] + Substituted(parent, s[0], s[1..])
    else (if s[0] == '&' then parent else [s[0]]) + Substituted(parent, quote, s[1..])
  }

  predicate HasEscapePair(s: string) {
    exists i :: 0 <= i < |s| - 1 && s[i] == '\\'
  }

  lemma EscapePairHead(s: string)
    ensures |s| > 1 && s[0] == '\\' ==> HasEscapePair(s)
    ensures s != "" && !(|s| > 1 && s[0] == '\\') ==> HasEscapePair(s) == HasEscapePair(s[1..])
  {
    if s != "" && HasEscapePair(s) && !(|s| > 1 && s[0] == '\\') {
      var i :| 0 <= i < |s| - 1 && s[i] == '\\';
      assert s[1..][i - 1] == '\\';
    }
    if s != "" && HasEscapePair(s[1..]) {
      var i :| 0 <= i < |s[1..]| - 1 && s[1..][i] == '\\';
      assert s[i + 1] == '\\';
    }
  }

  /** The code substitutes the parent faithfully exactly when the nested selector holds no escape pair. */
  lemma AmpersandKeepsEscapesIff(parent: string, nested: string)
    requires HasAmpersand(NO_QUOTE, nested)
    ensures Expanded(parent, nested) == Substituted(parent, NO_QUOTE, nested) <==> !HasEscapePair(nested)
  {
    FilledLoses(parent, NO_QUOTE, nested);
  }

  lemma {:induction false} FilledLoses(parent: string, quote: char, s: string)
    ensures |Filled(parent, quote, s)| <= |Substituted(parent, quote, s)|
    ensures HasEscapePair(s) ==> |Filled(parent, quote, s)| < |Substituted(parent, quote, s)|
    ensures !HasEscapePair(s) ==> Filled(parent, quote, s) == Substituted(parent, quote, s)
    decreases |s|
  {
    hide HasEscapePair;
    if s == "" {
      EmptyHasNoPair();
    } else {
      EscapePairHead(s);
      if s[0] == '\\' && |s| > 1 {
        FilledLoses(parent, quote, s[2..]);
      } else if quote != NO_QUOTE {
        FilledLoses(parent, if s[0] == quote then NO_QUOTE else quote, s[1..]);
      } else {
        FilledLoses(parent, if IsQuote(s[0]) then s[0] else quote, s[1..]);
      }
    }
  }

  lemma EmptyHasNoPair()
    ensures !HasEscapePair("")
  {
  }

  /** An escaped character of a nested selector with an ampersand is lost. */
  lemma EscapeIsDropped()
    ensures Expanded("a", "&.\\31") == "a.1"
    ensures Substituted("a", NO_QUOTE, "&.\\31") == "a.\\31"
  {
    var n := "&.\\31";
    assert n[1..] == ".\\31" && n[1..][1..] == "\\31" && "\\31"[2..] == "1" && "1"[1..] == "" && "\\31"[..2] == "\\3";
    assert Filled("a", NO_QUOTE, "1") == "1" && Substituted("a", NO_QUOTE, "1") == "1";
    assert Filled("a", NO_QUOTE, "\\31") == "1" && Substituted("a", NO_QUOTE, "\\31") == "\\31";
    assert Filled("a", NO_QUOTE, ".\\31") == ".1" && Substituted("a", NO_QUOTE, ".\\31") == ".\\31";
  }

  /** A selector without strings, escapes, braces or top-level commas. */
  predicate PlainSelector(s: string) {
    s != "" && Trimmed(s) && Plain(s) && Balanced(s, 0) && Comma(s, 0) == |s| && s[0] != '@' && !OpensComment(s)
  }

  function Replaced(s: string, parent: string): string {
    if s == "" then "" else (if s[0] == '&' then parent else [s[0]]) + Replaced(s[1..], parent)
  }

  /** A nested selector seen from its parent: substituted for `&`, glued to a pseudo-class, else a descendant. */
  function Combined(parent: string, nested: string): string {
    if '&' in nested then Replaced(nested, parent)
    else if nested != "" && nested[0] == ':' then parent + nested
    else parent + " " + nested
  }

  /** The cross product of two selector lists, nested selector by nested selector. */
  function Cross(parents: seq<string>, nested: seq<string>): seq<string> {
    if nested == [] then [] else CrossOne(parents, nested[0]) + Cross(parents, nested[1..])
  }

  function CrossOne(parents: seq<string>, nested: string): (r: seq<string>)
    ensures |r| == |parents|
    ensures forall j :: 0 <= j < |parents| ==> r[j] == Combined(parents[j], nested)
  {
    seq(|parents|, j requires 0 <= j < |parents| => Combined(parents[j], nested))
  }

  /** Every pair once: nested selector i under parent j stands at place i * parents + j. */
  lemma {:induction false} CrossPlaces(parents: seq<string>, nested: seq<string>, i: nat, j: nat)
    requires i < |nested| && j < |parents|
    ensures |Cross(parents, nested)| == |nested| * |parents|
    ensures 0 <= i * |parents| + j < |nested| * |parents|
    ensures Cross(parents, nested)[i * |parents| + j] == Combined(parents[j], nested[i])
    decreases |nested|
  {
    hide Combined;
    CrossLength(parents, nested);
    CrossLength(parents, nested[1..]);
    assert |nested| * |parents| == |parents| + |nested[1..]| * |parents|;
    if i > 0 {
      CrossPlaces(parents, nested[1..], i - 1, j);
      assert i * |parents| == |parents| + (i - 1) * |parents|;
    }
  }

  lemma {:induction false} CrossLength(parents: seq<string>, nested: seq<string>)
    ensures |Cross(parents, nested)| == |nested| * |parents|
  {
    if nested != [] {
      CrossLength(parents, nested[1..]);
      assert |nested| * |parents| == |parents| + |nested[1..]| * |parents|;
    }
  }

  /** Without strings and escapes the code combines exactly as meant. */
  lemma PlainExpanded(parent: string, nested: string)
    requires PlainSelector(nested)
    ensures Expanded(parent, nested) == Combined(parent, nested)
  {
    PlainAmpersand(parent, nested);
  }

  lemma {:induction false} PlainAmpersand(parent: string, s: string)
    requires Plain(s)
    ensures HasAmpersand(NO_QUOTE, s) <==> '&' in s
    ensures Filled(parent, NO_QUOTE, s) == Replaced(s, parent)
    decreases |s|
  {
    if s != "" {
      assert PlainChar(s[0]);
      PlainAmpersand(parent, s[1..]);
      assert s == [s[0]] + s[1..];
    }
  }

  lemma {:induction false} ReplacedEnds(s: string, parent: string)
    requires s != "" && Trimmed(s) && parent != "" && Trimmed(parent)
    ensures var r := Replaced(s, parent); r != "" && Trimmed(r)
  {
    ReplacedFirst(s, parent);
    ReplacedLast(s, parent);
  }

  lemma ReplacedFirst(s: string, parent: string)
    requires s != "" && !IsSpace(s[0]) && parent != "" && !IsSpace(parent[0])
    ensures var r := Replaced(s, parent); r != "" && !IsSpace(r[0])
  {
  }

  lemma {:induction false} ReplacedLast(s: string, parent: string)
    requires s != "" && !IsSpace(s[|s| - 1]) && parent != "" && !IsSpace(parent[|parent| - 1])
    ensures var r := Replaced(s, parent); r != "" && !IsSpace(r[|r| - 1])
    decreases |s|
  {
    if |s| > 1 {
      ReplacedLast(s[1..], parent);
    } else {
      assert Replaced(s[1..], parent) == "";
    }
  }

  /** Selectors as a rule holds them. */
  predicate Held(sels: seq<string>) {
    forall i :: 0 <= i < |sels| ==> sels[i] != "" && Trimmed(sels[i])
  }

  lemma CombinedHolds(parent: string, nested: string)
    requires parent != "" && Trimmed(parent) && nested != "" && Trimmed(nested)
    ensures var r := Combined(parent, nested); r != "" && Trimmed(r)
  {
    ReplacedEnds(nested, parent);
  }

  lemma {:induction false} CrossHolds(parents: seq<string>, nested: seq<string>)
    requires Held(parents) && Held(nested)
    ensures Held(Cross(parents, nested))
    decreases |nested|
  {
    hide Combined, Trimmed;
    if nested != [] {
      CrossHolds(parents, nested[1..]);
      var one := CrossOne(parents, nested[0]);
      forall j | 0 <= j < |one| ensures one[j] != "" && Trimmed(one[j]) { CombinedHolds(parents[j], nested[0]); }
    }
  }

  /** Under held parents the code's expansion of plain selectors is the cross product. */
  lemma {:induction false} NestedIsCross(parents: seq<string>, nested: seq<string>)
    requires Held(parents) && forall i :: 0 <= i < |nested| ==> PlainSelector(nested[i])
    ensures Nested(parents, nested) == Cross(parents, nested)
    decreases |nested|
  {
    hide Expanded, Combined, PlainSelector, Trim;
    if nested != [] {
      NestedIsCross(parents, nested[1..]);
      PlainIsTrimmed(nested[0]);
      WithParentsIsCross(parents, nested[0]);
    }
  }

  lemma PlainIsTrimmed(s: string)
    requires PlainSelector(s)
    ensures Trim(s) == s && s != "" && Trimmed(s)
  {
  }

  lemma {:induction false} WithParentsIsCross(parents: seq<string>, nested: string)
    requires Held(parents) && PlainSelector(nested)
    ensures WithParents(parents, nested) == CrossOne(parents, nested)
    decreases |parents|
  {
    hide Expanded, Combined, PlainSelector, Trimmed, Trim;
    if parents != [] {
      TrimmedTrim(parents[0]);
      PlainExpanded(parents[0], nested);
      PlainIsTrimmed(nested);
      CombinedHolds(parents[0], nested);
      WithParentsIsCross(parents[1..], nested);
    }
  }
}
