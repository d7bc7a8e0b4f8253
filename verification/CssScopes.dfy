/** The two bounds of an `@scope` prelude: what they are in any text, and exactly when written bounds are read back. */
module CssScopes {
  import opened Options
  import opened Text
  import opened CssScan
  import opened CssSelectors
  import opened CssReading
  import opened CssTree

  // ---------------------------------------------------------------- the bounds of any prelude

  /** The text in front of the first such byte, all of it when there is none. */
  function Before(s: string, c: char): (r: string)
    ensures r <= s && c !in r
    ensures c in s ==> |r| < |s| && s[|r|] == c
    ensures c !in s ==> r == s
  {
    if s == "" || s[0] == c then "" else [s[0]] + Before(s[1..], c)
  }

  /** The text behind it. */
  function Behind(s: string, c: char): string {
    if c in s then s[|Before(s, c)| + 1..] else ""
  }

  /** An opening parenthesis and a closing one behind it. */
  predicate HasGroup(s: string) {
    '(' in s && ')' in Behind(s, '(')
  }

  function Inside(s: string): string {
    Trim(Before(Behind(s, '('), ')'))
  }

  function RootOf(prelude: string): string {
    if HasGroup(prelude) && Trim(Before(prelude, '(')) != "to" then Inside(prelude) else ""
  }

  function LimitOf(prelude: string): string {
    var rest := Trim(Behind(Behind(prelude, '('), ')'));
    if !HasGroup(prelude) then ""
    else if Trim(Before(prelude, '(')) == "to" then Inside(prelude)
    else if "to" <= rest && HasGroup(Trim(rest[2..])) then Inside(Trim(rest[2..]))
    else ""
  }

  lemma FindByte(s: string, c: char)
    ensures Find(s, [c]) == |Before(s, c)|
  {
    hide Find;
    var n := |Before(s, c)|;
    forall k | 0 <= k < n ensures !([c] <= s[k..]) { assert s[k..][0] == Before(s, c)[k]; }
    if c in s {
      assert s[n..][0] == c;
      FindHere(s, [c], n);
    } else {
      FindNowhere(s, [c]);
    }
  }

  lemma ClosingFound(s: string)
    requires '(' in s
    ensures var open, tail := |Before(s, '(')|, Behind(s, '(');
            && s[open..] == "(" + tail && Find(s[open..], ")") == 1 + |Before(tail, ')')|
            && s[open + 1..open + 1 + |Before(tail, ')')|] == Before(tail, ')')
  {
    hide Find, Before;
    var open, tail := |Before(s, '(')|, Behind(s, '(');
    assert s[open..] == "(" + tail && s[open + 1..] == tail;
    FindByte("(" + tail, ')');
    BeforeBehind(tail);
    assert s[open + 1..open + 1 + |Before(tail, ')')|] == tail[..|Before(tail, ')')|];
  }

  lemma BeforeBehind(tail: string)
    ensures Before("(" + tail, ')') == "(" + Before(tail, ')')
  {
    assert ("(" + tail)[1..] == tail;
  }

  lemma GroupFound(s: string)
    ensures CssReading.Group(s) == if HasGroup(s) then
                          Some((Trim(Before(s, '(')), Inside(s), Behind(Behind(s, '('), ')')))
                        else None
  {
    hide Find, Trim, Before;
    var open := |Before(s, '(')|;
    FindByte(s, '(');
    if '(' in s {
      var tail := Behind(s, '(');
      var inner := |Before(tail, ')')|;
      ClosingFound(s);
      assert s[..open] == Before(s, '(');
      if ')' in tail { assert s[open + 1 + inner + 1..] == tail[inner + 1..]; }
    }
  }

  /** The bounds the reader finds, for every prelude. */
  lemma BoundsAre(prelude: string)
    ensures ScopeBounds(prelude) == (RootOf(prelude), LimitOf(prelude))
  {
    hide CssReading.Group, Trim, Before, Behind, HasGroup, Inside;
    GroupFound(prelude);
    var rest := Trim(Behind(Behind(prelude, '('), ')'));
    if "to" <= rest {
      assert rest[..2] == "to";
      GroupFound(Trim(rest[2..]));
    }
  }

  // ---------------------------------------------------------------- written bounds

  /** A group between gaps, with what follows. */
  lemma WrittenGroup(g: string, r: string, after: string)
    requires '(' !in g
    ensures var s := g + "(" + r + ")" + after;
            && HasGroup(s) && Before(s, '(') == g
            && (')' !in r ==> Inside(s) == Trim(r) && Behind(Behind(s, '('), ')') == after)
            && (')' in r ==> Inside(s) == Trim(Before(r, ')')))
  {
    hide Trim, Before, Behind;
    var s := g + "(" + r + ")" + after;
    var tail := r + (")" + after);
    assert s == g + ("(" + tail) && ("(" + tail)[1..] == tail;
    BeforeAppend(g, "(" + tail, '(');
    assert tail[|r|] == ')' && (")" + after)[1..] == after;
    if ')' in r {
      BeforeWithin(r, ")" + after, ')');
    } else {
      BeforeAppend(r, ")" + after, ')');
    }
  }

  lemma {:induction false} BeforeAppend(a: string, b: string, c: char)
    requires c !in a && b != "" && b[0] == c
    ensures Before(a + b, c) == a && c in a + b && Behind(a + b, c) == b[1..]
    decreases |a|
  {
    if a == "" {
      assert a + b == b;
    } else {
      assert (a + b)[1..] == a[1..] + b;
      BeforeAppend(a[1..], b, c);
    }
    assert (a + b)[|a|] == c;
  }

  lemma {:induction false} BeforeWithin(a: string, b: string, c: char)
    requires c in a
    ensures Before(a + b, c) == Before(a, c)
    decreases |a|
  {
    if a[0] != c {
      assert (a + b)[1..] == a[1..] + b;
      BeforeWithin(a[1..], b, c);
    }
  }

  /** A bound as an author writes it. */
  predicate Bound(s: string) {
    s != "" && Trimmed(s)
  }

  /** A text cut before its end, and trimmed, is another text. */
  lemma CutIsShorter(s: string)
    requires ')' in s
    ensures Trim(Before(s, ')')) != s
  {
    TrimIsNoLonger(Before(s, ')'));
  }

  lemma TrimIsNoLonger(s: string)
    ensures |Trim(s)| <= |s|
  {
  }

  lemma NotTo(g: string)
    requires Blank(g)
    ensures Trim(g) == "" && "" != "to"
  {
    TrimGap(g, "", "");
    assert g + "" + "" == g;
  }

  /** `to (limit)` behind a gap, once trimmed. */
  lemma TailTrims(g: string, h: string, limit: string, after: string)
    requires Blank(g) && Blank(h) && Blank(after)
    ensures var rest := Trim(g + "to" + h + "(" + limit + ")" + after);
            "to" <= rest && Trim(rest[2..]) == "(" + limit + ")"
  {
    var core := "to" + h + "(" + limit + ")";
    assert core[0] == 't' && core[|core| - 1] == ')';
    TrimGap(g, core, after);
    assert g + core + after == g + "to" + h + "(" + limit + ")" + after;
    var group := "(" + limit + ")";
    assert core[2..] == h + group + "" && group[0] == '(' && group[|group| - 1] == ')';
    TrimGap(h, group, "");
  }

  /**
   `(root) to (limit)`, with any blanks between, is read as its two bounds exactly when neither holds a closing
   parenthesis: a bound with parentheses of its own is cut at the first one.
   */
  lemma BothBoundsReadIff(g: string, root: string, h: string, k: string, limit: string, l: string)
    requires Blank(g) && Blank(h) && Blank(k) && Blank(l) && Bound(root) && Bound(limit)
    ensures var prelude := g + "(" + root + ")" + (h + "to" + k + "(" + limit + ")" + l);
            ScopeBounds(prelude) == (root, limit) <==> ')' !in root && ')' !in limit
  {
    hide Trim, Before, Behind, HasGroup, Inside, ScopeBounds;
    var after := h + "to" + k + "(" + limit + ")" + l;
    var prelude := g + "(" + root + ")" + after;
    BoundsAre(prelude);
    BlankHasNoParen(g);
    WrittenGroup(g, root, after);
    NotTo(g);
    TrimmedTrim(root);
    TrimmedTrim(limit);
    TailTrims(h, k, limit, l);
    WrittenGroup("", limit, "");
    assert "" + "(" + limit + ")" + "" == "(" + limit + ")";
    if ')' in root { CutIsShorter(root); }
    if ')' in limit { CutIsShorter(limit); }
  }

  lemma BlankHasNoParen(g: string)
    requires Blank(g)
    ensures '(' !in g
  {
  }

  /** `(root)` alone. */
  lemma RootReadsIff(g: string, root: string, l: string)
    requires Blank(g) && Blank(l) && Bound(root)
    ensures ScopeBounds(g + "(" + root + ")" + l) == (root, "") <==> ')' !in root
  {
    hide Trim, Before, Behind, HasGroup, Inside, ScopeBounds;
    var prelude := g + "(" + root + ")" + l;
    BoundsAre(prelude);
    BlankHasNoParen(g);
    WrittenGroup(g, root, l);
    NotTo(g);
    NotTo(l);
    TrimmedTrim(root);
    if ')' in root { CutIsShorter(root); }
  }

  /** `to (limit)` alone. */
  lemma LimitReadsIff(g: string, k: string, limit: string, l: string)
    requires Blank(g) && Blank(k) && Blank(l) && Bound(limit)
    ensures ScopeBounds(g + "to" + k + "(" + limit + ")" + l) == ("", limit) <==> ')' !in limit
  {
    hide Trim, Before, Behind, HasGroup, Inside, ScopeBounds;
    var head := g + "to" + k;
    var prelude := head + "(" + limit + ")" + l;
    BoundsAre(prelude);
    BlankHasNoParen(g);
    BlankHasNoParen(k);
    WrittenGroup(head, limit, l);
    TrimGap(g, "to", k);
    TrimmedTrim(limit);
    if ')' in limit { CutIsShorter(limit); }
  }

  lemma GroupHasBoth(s: string)
    requires HasGroup(s)
    ensures exists i, j :: 0 <= i < j < |s| && s[i] == '(' && s[j] == ')'
  {
    hide Before;
    var open, tail := |Before(s, '(')|, Behind(s, '(');
    assert s[open] == '(' && s[open + 1 + |Before(tail, ')')|] == ')';
  }

  /** Without a closed group there are no bounds. */
  lemma NoBounds(prelude: string)
    requires forall i, j :: 0 <= i < j < |prelude| ==> prelude[i] != '(' || prelude[j] != ')'
    ensures ScopeBounds(prelude) == ("", "")
  {
    hide Trim, ScopeBounds, HasGroup;
    BoundsAre(prelude);
    if HasGroup(prelude) { GroupHasBoth(prelude); }
  }

  /** A prelude as written from its bounds, an empty one left out. */
  function ScopePrelude(root: string, limit: string): string {
    if limit == "" then (if root == "" then "" else "(" + root + ")")
    else if root == "" then "to" + " " + "(" + limit + ")"
    else "(" + root + ")" + (" " + "to" + " " + "(" + limit + ")")
  }

  /** A written prelude stands for its two bounds exactly when neither holds a closing parenthesis. */
  lemma WrittenBoundsIff(root: string, limit: string)
    requires Trimmed(root) && Trimmed(limit)
    ensures RootOf(ScopePrelude(root, limit)) == root && LimitOf(ScopePrelude(root, limit)) == limit
            <==> ')' !in root && ')' !in limit
  {
    hide Trimmed, RootOf, LimitOf, ScopeBounds;
    var prelude := ScopePrelude(root, limit);
    BoundsAre(prelude);
    assert Blank("") && Blank(" ");
    if limit == "" && root == "" {
      NoBounds("");
    } else if limit == "" {
      RootReadsIff("", root, "");
      assert "" + "(" + root + ")" + "" == prelude;
    } else if root == "" {
      LimitReadsIff("", " ", limit, "");
      assert "" + "to" + " " + "(" + limit + ")" + "" == prelude;
    } else {
      BothBoundsReadIff("", root, " ", " ", limit, "");
      assert "" + "(" + root + ")" + (" " + "to" + " " + "(" + limit + ")" + "") == prelude;
    }
  }

  /** `(.a:not(.b)) to (.c)`: the root is cut at the inner parenthesis and the limit is lost. */
  lemma NestedParenthesisLosesLimit()
    ensures ScopeBounds("(.a:not(.b)) to (.c)") == (".a:not(.b", "")
  {
    hide Trim, Before, Behind, HasGroup, Inside, ScopeBounds;
    var r, after := ".a:not(.b", ") to (.c)";
    var s := "(.a:not(.b)) to (.c)";
    assert "" + "(" + r + ")" + after == s;
    BoundsAre(s);
    WrittenGroup("", r, after);
    NotTo("");
    TrimmedTrim(r);
    TrimmedTrim(after);
    assert after[0] == ')';
  }
}
