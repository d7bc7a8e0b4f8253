/** Nested selectors told apart into their pieces, and what nesting makes of each piece: strings included. */
module CssNesting {
  import opened Options
  import opened Text
  import opened CssScan
  import opened CssSelectors

  /** A stretch without quotes and escapes, an escape pair, or a closed string. */
  datatype Part = Bare(text: string) | Escape(c: char) | Quoted(quote: char, text: string) {
    predicate Good() {
      match this
      case Bare(t) => '\\' !in t && '"' !in t && '\'' !in t
      case Escape(_) => true
      case Quoted(q, t) => IsQuote(q) && q !in t && '\\' !in t
    }

    function Text(): string {
      match this
      case Bare(t) => t
      case Escape(c) => ['\\', c]
      case Quoted(q, t) => [q] + t + [q]
    }

    /** The nesting selector stands in this piece: in no string and in no escape. */
    predicate Nests() {
      Bare? && '&' in text
    }

    /** Around a nesting selector: replaced where it stands, strings byte for byte, escapes dropped. */
    function Under(parent: string): string {
      match this
      case Bare(t) => Replaced(t, parent)
      case Escape(_) => ""
      case Quoted(q, t) => [q] + t + [q]
    }
  }

  predicate GoodParts(parts: seq<Part>) {
    forall i :: 0 <= i < |parts| ==> parts[i].Good()
  }

  function TextOf(parts: seq<Part>): string {
    if parts == [] then "" else parts[0].Text() + TextOf(parts[1..])
  }

  predicate AnyNests(parts: seq<Part>) {
    exists i :: 0 <= i < |parts| && parts[i].Nests()
  }

  function AllUnder(parent: string, parts: seq<Part>): string {
    if parts == [] then "" else parts[0].Under(parent) + AllUnder(parent, parts[1..])
  }

  /** A nested selector seen from its parent, by its pieces. */
  function Seen(parent: string, parts: seq<Part>): string {
    var s := TextOf(parts);
    if AnyNests(parts) then AllUnder(parent, parts)
    else if s != "" && s[0] == ':' then parent + s
    else parent + " " + s
  }

  // ---------------------------------------------------------------- piece by piece

  lemma BareByte(parent: string, c: char, s: string)
    requires c != '\\' && !IsQuote(c)
    ensures HasAmpersand(NO_QUOTE, [c] + s) <==> c == '&' || HasAmpersand(NO_QUOTE, s)
    ensures Filled(parent, NO_QUOTE, [c] + s) == (if c == '&' then parent else [c]) + Filled(parent, NO_QUOTE, s)
  {
    assert ([c] + s)[1..] == s;
  }

  lemma ReplacedByte(c: char, s: string, parent: string)
    ensures Replaced([c] + s, parent) == (if c == '&' then parent else [c]) + Replaced(s, parent)
    ensures Replaced("", parent) == ""
  {
    assert ([c] + s)[1..] == s;
  }

  lemma {:induction false} BareThen(parent: string, t: string, rest: string)
    requires Bare(t).Good()
    ensures HasAmpersand(NO_QUOTE, t + rest) <==> '&' in t || HasAmpersand(NO_QUOTE, rest)
    ensures Filled(parent, NO_QUOTE, t + rest) == Replaced(t, parent) + Filled(parent, NO_QUOTE, rest)
    decreases |t|
  {
    hide HasAmpersand, Filled, Replaced;
    if t == "" {
      ReplacedByte('&', "", parent);
      assert t + rest == rest;
    } else {
      var u := t[1..];
      assert t == [t[0]] + u && t + rest == [t[0]] + (u + rest);
      assert Bare(u).Good();
      BareThen(parent, u, rest);
      BareByte(parent, t[0], u + rest);
      ReplacedByte(t[0], u, parent);
    }
  }

  lemma StringByte(parent: string, q: char, c: char, s: string)
    requires IsQuote(q) && c != '\\'
    ensures var next := if c == q then NO_QUOTE else q;
            && (HasAmpersand(q, [c] + s) <==> HasAmpersand(next, s))
            && Filled(parent, q, [c] + s) == [c] + Filled(parent, next, s)
  {
    assert ([c] + s)[1..] == s;
  }

  lemma {:induction false} InString(parent: string, q: char, t: string, rest: string)
    requires IsQuote(q) && q !in t && '\\' !in t
    ensures HasAmpersand(q, t + ([q] + rest)) <==> HasAmpersand(NO_QUOTE, rest)
    ensures Filled(parent, q, t + ([q] + rest)) == t + ([q] + Filled(parent, NO_QUOTE, rest))
    decreases |t|
  {
    hide HasAmpersand, Filled;
    if t == "" {
      StringByte(parent, q, q, rest);
      assert t + ([q] + rest) == [q] + rest;
      assert t + ([q] + Filled(parent, NO_QUOTE, rest)) == [q] + Filled(parent, NO_QUOTE, rest);
    } else {
      var u := t[1..];
      assert t == [t[0]] + u && t + ([q] + rest) == [t[0]] + (u + ([q] + rest));
      InString(parent, q, u, rest);
      StringByte(parent, q, t[0], u + ([q] + rest));
      assert [t[0]] + (u + ([q] + Filled(parent, NO_QUOTE, rest))) == t + ([q] + Filled(parent, NO_QUOTE, rest));
    }
  }

  lemma OpensString(parent: string, q: char, s: string)
    requires IsQuote(q)
    ensures HasAmpersand(NO_QUOTE, [q] + s) <==> HasAmpersand(q, s)
    ensures Filled(parent, NO_QUOTE, [q] + s) == [q] + Filled(parent, q, s)
  {
    assert ([q] + s)[1..] == s;
  }

  lemma QuotedThen(parent: string, q: char, t: string, rest: string)
    requires Quoted(q, t).Good()
    ensures var s := [q] + t + [q] + rest;
            && (HasAmpersand(NO_QUOTE, s) <==> HasAmpersand(NO_QUOTE, rest))
            && Filled(parent, NO_QUOTE, s) == [q] + t + [q] + Filled(parent, NO_QUOTE, rest)
  {
    hide HasAmpersand, Filled;
    OpensString(parent, q, t + ([q] + rest));
    InString(parent, q, t, rest);
    assert [q] + t + [q] + rest == [q] + (t + ([q] + rest));
  }

  lemma EscapeThen(parent: string, c: char, rest: string)
    ensures var s := ['\\', c] + rest;
            && (HasAmpersand(NO_QUOTE, s) <==> HasAmpersand(NO_QUOTE, rest))
            && Filled(parent, NO_QUOTE, s) == Filled(parent, NO_QUOTE, rest)
  {
    assert (['\\', c] + rest)[2..] == rest;
  }

  lemma PartThen(parent: string, part: Part, rest: string)
    requires part.Good()
    ensures HasAmpersand(NO_QUOTE, part.Text() + rest) <==> part.Nests() || HasAmpersand(NO_QUOTE, rest)
    ensures Filled(parent, NO_QUOTE, part.Text() + rest) == part.Under(parent) + Filled(parent, NO_QUOTE, rest)
  {
    hide HasAmpersand, Filled, Replaced;
    match part
    case Bare(t) => BareThen(parent, t, rest);
    case Escape(c) => EscapeThen(parent, c, rest);
    case Quoted(q, t) => QuotedThen(parent, q, t, rest);
  }

  lemma {:induction false} PartsFilled(parent: string, parts: seq<Part>)
    requires GoodParts(parts)
    ensures HasAmpersand(NO_QUOTE, TextOf(parts)) <==> AnyNests(parts)
    ensures Filled(parent, NO_QUOTE, TextOf(parts)) == AllUnder(parent, parts)
    decreases |parts|
  {
    hide HasAmpersand, Filled, AnyNests, Part.Text, Part.Under, Part.Nests, Part.Good;
    if parts == [] {
      NothingNests();
      NothingFilled(parent);
    } else {
      var rest := TextOf(parts[1..]);
      PartsFilled(parent, parts[1..]);
      NestsHead(parts);
      assert parts[0].Good();
      PartThen(parent, parts[0], rest);
    }
  }

  lemma NothingFilled(parent: string)
    ensures !HasAmpersand(NO_QUOTE, "") && Filled(parent, NO_QUOTE, "") == ""
  {
  }

  lemma NestsHead(parts: seq<Part>)
    requires parts != []
    ensures AnyNests(parts) <==> parts[0].Nests() || AnyNests(parts[1..])
  {
    if i :| 0 <= i < |parts| && parts[i].Nests() {
      if i > 0 { assert parts[1..][i - 1].Nests(); }
    }
    if i :| 0 <= i < |parts[1..]| && parts[1..][i].Nests() { assert parts[i + 1].Nests(); }
  }

  /**
   Nesting by the pieces of any selector made of plain stretches, escapes and closed strings: an ampersand in a
   string or an escape is no nesting selector, and where there is one every string is kept.
   */
  lemma PiecesExpand(parent: string, parts: seq<Part>)
    requires GoodParts(parts) && Trimmed(TextOf(parts))
    ensures Expanded(parent, TextOf(parts)) == Seen(parent, parts)
  {
    hide HasAmpersand, Filled, AnyNests, AllUnder, TextOf;
    PartsFilled(parent, parts);
    var s := TextOf(parts);
    assert Blanks(s) == 0 && s[0..] == s;
  }

  /** Replacing takes out every nesting selector there is, and nothing else. */
  lemma ReplacedIs(a: string, b: string, parent: string)
    requires '&' !in a
    ensures Replaced(a, parent) == a && Replaced(a + ("&" + b), parent) == a + (parent + Replaced(b, parent))
  {
    hide Replaced;
    Untouched(a, "", parent);
    Untouched(a, "&" + b, parent);
    ReplacedByte('&', b, parent);
    assert a + "" == a && ['&'] + b == "&" + b;
  }

  lemma {:induction false} Untouched(a: string, b: string, parent: string)
    requires '&' !in a
    ensures Replaced(a + b, parent) == a + Replaced(b, parent) && Replaced("", parent) == ""
    decreases |a|
  {
    hide Replaced;
    ReplacedByte('&', "", parent);
    if a == "" {
      assert a + b == b;
    } else {
      Untouched(a[1..], b, parent);
      ReplacedByte(a[0], a[1..] + b, parent);
      assert a + b == [a[0]] + (a[1..] + b);
    }
  }

  // ---------------------------------------------------------------- lists

  function Texts(lists: seq<seq<Part>>): (r: seq<string>)
    ensures |r| == |lists|
    ensures forall i :: 0 <= i < |lists| ==> r[i] == TextOf(lists[i])
  {
    seq(|lists|, i requires 0 <= i < |lists| => TextOf(lists[i]))
  }

  predicate Nestable(parts: seq<Part>) {
    GoodParts(parts) && TextOf(parts) != "" && Trimmed(TextOf(parts))
  }

  lemma SeenIsText(parent: string, parts: seq<Part>)
    requires parent != ""
    ensures Seen(parent, parts) != ""
  {
    if AnyNests(parts) { UnderKeepsParent(parent, parts); }
  }

  lemma {:induction false} UnderKeepsParent(parent: string, parts: seq<Part>)
    requires parent != "" && AnyNests(parts)
    ensures AllUnder(parent, parts) != ""
    decreases |parts|
  {
    hide AnyNests, Replaced;
    if parts == [] {
      NothingNests();
    } else {
      NestsHead(parts);
      if parts[0].Nests() { ReplacedNotEmpty(parts[0].text, parent); } else { UnderKeepsParent(parent, parts[1..]); }
    }
  }

  lemma NothingNests()
    ensures !AnyNests([])
  {
  }

  lemma ReplacedNotEmpty(s: string, parent: string)
    requires s != "" && parent != ""
    ensures Replaced(s, parent) != ""
  {
  }

  function SeenFromAll(parents: seq<string>, parts: seq<Part>): (r: seq<string>)
    ensures |r| == |parents|
    ensures forall j :: 0 <= j < |parents| ==> r[j] == Seen(parents[j], parts)
  {
    seq(|parents|, j requires 0 <= j < |parents| => Seen(parents[j], parts))
  }

  lemma {:induction false} UnderEachParent(parents: seq<string>, parts: seq<Part>)
    requires Held(parents) && Nestable(parts)
    ensures WithParents(parents, TextOf(parts)) == SeenFromAll(parents, parts)
    decreases |parents|
  {
    hide Expanded, Trim, Seen, TextOf;
    if parents != [] {
      UnderEachParent(parents[1..], parts);
      assert Held(parents[1..]);
      TrimmedTrim(parents[0]);
      PiecesExpand(parents[0], parts);
      SeenIsText(parents[0], parts);
    }
  }

  /** Every pair of a parent and a nested selector once, nested by nested and parent by parent. */
  lemma {:induction false} NestedBySeen(parents: seq<string>, lists: seq<seq<Part>>, i: nat, j: nat)
    requires Held(parents) && (forall k :: 0 <= k < |lists| ==> Nestable(lists[k])) && i < |lists| && j < |parents|
    ensures var r := NestedSelectors(parents, Texts(lists));
            && |r| == |lists| * |parents| && 0 <= i * |parents| + j < |r|
            && r[i * |parents| + j] == Seen(parents[j], lists[i])
    decreases |lists|
  {
    hide WithParents, Trim, Seen, TextOf;
    NestedLength(parents, lists);
    NestedStep(parents, lists);
    var n := |parents|;
    NestedLength(parents, lists[1..]);
    assert |lists| * n == n + |lists[1..]| * n;
    if i > 0 {
      NestedBySeen(parents, lists[1..], i - 1, j);
      assert i * n == n + (i - 1) * n;
    }
  }

  lemma NestedStep(parents: seq<string>, lists: seq<seq<Part>>)
    requires Held(parents) && (forall k :: 0 <= k < |lists| ==> Nestable(lists[k])) && lists != []
    ensures Nested(parents, Texts(lists))
            == SeenFromAll(parents, lists[0]) + Nested(parents, Texts(lists[1..]))
  {
    hide WithParents, Trim, Seen, TextOf;
    assert Nestable(lists[0]);
    TrimmedTrim(TextOf(lists[0]));
    UnderEachParent(parents, lists[0]);
    assert Texts(lists)[1..] == Texts(lists[1..]);
  }

  lemma NothingNested(parents: seq<string>)
    ensures Nested(parents, []) == []
  {
  }

  lemma {:induction false} NestedLength(parents: seq<string>, lists: seq<seq<Part>>)
    requires Held(parents) && forall k :: 0 <= k < |lists| ==> Nestable(lists[k])
    ensures |Nested(parents, Texts(lists))| == |lists| * |parents|
    decreases |lists|
  {
    hide WithParents, Trim, Seen, TextOf, Nestable, Nested, Held;
    if lists != [] {
      NestedStep(parents, lists);
      NestedLength(parents, lists[1..]);
      assert |lists| * |parents| == |parents| + |lists[1..]| * |parents|;
    } else {
      assert Nested(parents, []) == [] && Texts(lists) == [] by { NothingNested(parents); }
      assert 0 * |parents| == 0;
    }
  }
}
