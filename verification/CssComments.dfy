/** Taking the comments out of a stylesheet before it is read. */
module CssComments {
  import opened Text
  import opened CssScan

  /** Where a string ends, past its closing quote or at the end of the text; a line break does not end it. */
  function StringEnd(quote: char, s: string): (n: nat)
    ensures n <= |s|
    ensures s != "" ==> n > 0
    decreases |s|
  {
    if s == "" then 0
    else if s[0] == '\\' && |s| > 1 then 2 + StringEnd(quote, s[2..])
    else if s[0] == quote then 1
    else 1 + StringEnd(quote, s[1..])
  }

  /** The length of the string that starts here. */
  function StringLength(s: string): (n: nat)
    requires s != ""
    ensures 0 < n <= |s|
  {
    1 + StringEnd(s[0], s[1..])
  }

  /** The length of the comment that starts here, 0 when nothing closes it. */
  function ClosedLength(s: string): (n: nat)
    requires OpensComment(s)
    ensures n <= |s|
  {
    var end := Find(s[2..], "*/");
    if end == |s| - 2 then 0
    else
      assert "*/" <= s[2..][end..];
      end + 4
  }

  /** The text of a stylesheet in pieces: strings, comments and the bytes between. */
  datatype Piece =
    | Quoted(text: string)
    | Comment(text: string)
    | Unclosed(text: string)
    | Byte(c: char)
  {
    function Text(): string {
      if Byte? then [c] else text
    }

    /** What is left of it: a closed comment becomes one space. */
    function Kept(): string {
      match this
      case Quoted(t) => t
      case Comment(_) => " "
      case Unclosed(_) => ""
      case Byte(b) => [b]
    }
  }

  function Pieced(s: string): seq<Piece>
    decreases |s|
  {
    if s == "" then []
    else if IsQuote(s[0]) then
      var n := StringLength(s);
      [Quoted(s[..n])] + Pieced(s[n..])
    else if OpensComment(s) then
      var n := ClosedLength(s);
      if n == 0 then [Unclosed(s)] else [Comment(s[..n])] + Pieced(s[n..])
    else [Byte(s[0])] + Pieced(s[1..])
  }

  function Texts(ps: seq<Piece>): string {
    if ps == [] then "" else ps[0].Text() + Texts(ps[1..])
  }

  function Kepts(ps: seq<Piece>): string {
    if ps == [] then "" else ps[0].Kept() + Kepts(ps[1..])
  }

  function Strings(ps: seq<Piece>): seq<string> {
    if ps == [] then [] else (if ps[0].Quoted? then [ps[0].text] else []) + Strings(ps[1..])
  }

  function Stripped(s: string): string {
    Kepts(Pieced(s))
  }

  /** The pieces are the whole text. */
  lemma {:induction false} PiecesAreTheText(s: string)
    ensures Texts(Pieced(s)) == s
    decreases |s|
  {
    if s != "" {
      if IsQuote(s[0]) {
        PiecesAreTheText(s[StringLength(s)..]);
      } else if OpensComment(s) {
        if ClosedLength(s) > 0 {
          PiecesAreTheText(s[ClosedLength(s)..]);
        } else {
          assert [Unclosed(s)][1..] == [];
        }
      } else {
        PiecesAreTheText(s[1..]);
      }
    }
  }

  /** Replaces each closed comment by a space; an unclosed one takes the rest of the sheet. */
  method StripComments(s: string) returns (b: string)
    ensures b == Stripped(s)
  {
    hide Pieced, Find, Stripped, StringLength, StringEnd, Kepts, ClosedLength;
    if Find(s, "/*") == |s| {
      NoMarker(s);
      NoCommentStays(s);
      return s;
    }
    b := "";
    var i := 0;
    assert s[0..] == s;
    while i < |s|
      invariant 0 <= i <= |s| && b + Stripped(s[i..]) == Stripped(s)
      decreases |s| - i
    {
      var c := s[i];
      StrippedAt(s, i);
      if c == '\'' || c == '"' {
        var n := CopyString(s, i);
        b := b + s[i..n];
        i := n;
        continue;
      }
      if c == '/' && i + 1 < |s| && s[i + 1] == '*' {
        var n := ClosedLength(s[i..]);
        if n == 0 {
          return b;
        }
        i := i + n;
        b := b + " ";
        continue;
      }
      b := b + [c];
      i := i + 1;
    }
    assert s[i..] == "";
    NothingStripped();
  }

  lemma NoMarker(s: string)
    requires Find(s, "/*") == |s|
    ensures forall k :: 0 <= k < |s| ==> !OpensComment(s[k..])
  {
    hide Find;
    forall k | 0 <= k < |s| ensures !OpensComment(s[k..]) { assert !("/*" <= s[k..]); }
  }

  lemma StrippedAt(s: string, i: nat)
    requires i < |s|
    ensures IsQuote(s[i]) ==>
              var n := i + StringLength(s[i..]); n <= |s| && Stripped(s[i..]) == s[i..n] + Stripped(s[n..])
    ensures !IsQuote(s[i]) && OpensComment(s[i..]) ==>
              var n := ClosedLength(s[i..]);
              i + n <= |s| && Stripped(s[i..]) == if n == 0 then "" else " " + Stripped(s[i + n..])
    ensures !IsQuote(s[i]) && !OpensComment(s[i..]) ==> Stripped(s[i..]) == [s[i]] + Stripped(s[i + 1..])
  {
    hide Find, Pieced, Stripped, StringLength, ClosedLength;
    StrippedStep(s[i..]);
    assert s[i..][1..] == s[i + 1..];
    if IsQuote(s[i]) {
      var n := StringLength(s[i..]);
      assert s[i..][..n] == s[i..i + n] && s[i..][n..] == s[i + n..];
    } else if OpensComment(s[i..]) {
      assert s[i..][ClosedLength(s[i..])..] == s[i + ClosedLength(s[i..])..];
    }
  }

  lemma NothingStripped()
    ensures Stripped("") == ""
  {
  }

  lemma StrippedStep(s: string)
    requires s != ""
    ensures IsQuote(s[0]) ==> Stripped(s) == s[..StringLength(s)] + Stripped(s[StringLength(s)..])
    ensures !IsQuote(s[0]) && OpensComment(s) ==>
              Stripped(s) == if ClosedLength(s) == 0 then "" else " " + Stripped(s[ClosedLength(s)..])
    ensures !IsQuote(s[0]) && !OpensComment(s) ==> Stripped(s) == [s[0]] + Stripped(s[1..])
  {
    hide StringLength, ClosedLength, Kepts;
    if IsQuote(s[0]) {
      KeptsCons(Quoted(s[..StringLength(s)]), Pieced(s[StringLength(s)..]));
    } else if OpensComment(s) {
      var n := ClosedLength(s);
      if n == 0 {
        KeptsCons(Unclosed(s), []);
        NothingStripped();
        assert [Unclosed(s)] + [] == Pieced(s);
      } else {
        KeptsCons(Comment(s[..n]), Pieced(s[n..]));
      }
    } else {
      KeptsCons(Byte(s[0]), Pieced(s[1..]));
    }
  }

  lemma KeptsCons(p: Piece, ps: seq<Piece>)
    ensures Kepts([p] + ps) == p.Kept() + Kepts(ps)
  {
    assert ([p] + ps)[1..] == ps;
  }

  /** Steps over the string that starts at `i`. */
  method CopyString(s: string, i: nat) returns (n: nat)
    requires i < |s|
    ensures n == i + StringLength(s[i..]) && i < n <= |s|
  {
    var quote := s[i];
    n := i + 1;
    assert s[i..][1..] == s[i + 1..];
    while n < |s|
      invariant i < n <= |s|
      invariant i + StringLength(s[i..]) == n + StringEnd(quote, s[n..])
    {
      assert s[n..][1..] == s[n + 1..];
      if s[n] == '\\' && n + 1 < |s| {
        assert s[n..][2..] == s[n + 2..];
        n := n + 2;
        continue;
      }
      if s[n] == quote {
        return n + 1;
      }
      n := n + 1;
    }
  }

  /** No comment opens outside the strings. */
  predicate Clean(s: string)
    decreases |s|
  {
    s != "" ==> if IsQuote(s[0]) then Clean(s[StringLength(s)..]) else !OpensComment(s) && Clean(s[1..])
  }

  lemma {:induction false} NoCommentStays(s: string)
    requires forall k :: 0 <= k < |s| ==> !OpensComment(s[k..])
    ensures Clean(s) && Stripped(s) == s
  {
    NoCommentIsClean(s);
    CleanStays(s);
  }

  lemma {:induction false} NoCommentIsClean(s: string)
    requires forall k :: 0 <= k < |s| ==> !OpensComment(s[k..])
    ensures Clean(s)
    decreases |s|
  {
    hide OpensComment;
    if s != "" {
      assert s[0..] == s;
      var n := if IsQuote(s[0]) then StringLength(s) else 1;
      forall k | 0 <= k < |s[n..]| ensures !OpensComment(s[n..][k..]) { assert s[n..][k..] == s[n + k..]; }
      NoCommentIsClean(s[n..]);
    }
  }

  lemma {:induction false} CleanStays(s: string)
    requires Clean(s)
    ensures Stripped(s) == s
    decreases |s|
  {
    hide OpensComment, Find, Pieced;
    if s == "" {
      NothingStripped();
    } else {
      StrippedStep(s);
      CleanStays(s[if IsQuote(s[0]) then StringLength(s) else 1..]);
    }
  }

  /** What is left starts as the text did, or with a space, or is empty. */
  lemma StrippedFirst(s: string)
    requires Stripped(s) != ""
    ensures s != "" && (Stripped(s)[0] == s[0] || Stripped(s)[0] == ' ')
  {
    hide Find, Pieced, ClosedLength;
    NothingStripped();
    if s != "" { StrippedStep(s); }
  }

  /** A string keeps its length whatever follows it, unless it ran to the end of the text. */
  lemma {:induction false} StringKeepsEnd(quote: char, s: string, x: string)
    requires StringEnd(quote, s) < |s| || x == ""
    ensures var n := StringEnd(quote, s); StringEnd(quote, s[..n] + x) == n
    decreases |s|
  {
    var n := StringEnd(quote, s);
    if n == |s| && x == "" {
      assert s[..n] + x == s;
    } else if s[0] == '\\' && |s| > 1 {
      StringKeepsEnd(quote, s[2..], x);
      assert (s[..n] + x)[2..] == s[2..][..n - 2] + x;
    } else if s[0] != quote {
      StringKeepsEnd(quote, s[1..], x);
      assert (s[..n] + x)[1..] == s[1..][..n - 1] + x;
      SecondByte(quote, s, n, x);
    }
  }

  lemma SecondByte(quote: char, s: string, n: nat, x: string)
    requires s != "" && n == StringEnd(quote, s) && n < |s| && s[0] != quote && !(s[0] == '\\' && |s| > 1)
    ensures n > 0 && (s[..n] + x)[0] == s[0] && s[0] != '\\'
  {
  }

  /** The result holds no comment opener outside strings. */
  lemma {:induction false} StrippedIsClean(s: string)
    ensures Clean(Stripped(s))
    decreases |s|
  {
    hide Find, Pieced, ClosedLength;
    if s == "" {
      NothingStripped();
    } else {
      StrippedStep(s);
      if IsQuote(s[0]) {
        var n := StringLength(s);
        StrippedIsClean(s[n..]);
        NothingStripped();
        QuotedThen(s, Stripped(s[n..]));
      } else if OpensComment(s) {
        var n := ClosedLength(s);
        if n > 0 {
          StrippedIsClean(s[n..]);
          assert (" " + Stripped(s[n..]))[1..] == Stripped(s[n..]);
        }
      } else {
        StrippedIsClean(s[1..]);
        var rest := Stripped(s[1..]);
        assert ([s[0]] + rest)[1..] == rest;
        if rest != "" { StrippedFirst(s[1..]); }
      }
    }
  }

  /** Behind a copied string the same string is read again. */
  lemma QuotedThen(s: string, x: string)
    requires s != "" && IsQuote(s[0]) && (StringLength(s) < |s| || x == "")
    ensures var n := StringLength(s); StringLength(s[..n] + x) == n && (s[..n] + x)[n..] == x && (s[..n] + x)[0] == s[0]
  {
    var n := StringLength(s);
    StringKeepsEnd(s[0], s[1..], x);
    assert (s[..n] + x)[1..] == s[1..][..n - 1] + x;
  }

  /** Stripping twice is stripping once. */
  lemma StripTwice(s: string)
    ensures Stripped(Stripped(s)) == Stripped(s)
  {
    StrippedIsClean(s);
    CleanStays(Stripped(s));
  }

  /** Every string outside comments is copied byte for byte, in order, and no other string appears. */
  lemma {:induction false} StringsSurvive(s: string)
    ensures Strings(Pieced(Stripped(s))) == Strings(Pieced(s))
    decreases |s|
  {
    hide ClosedLength;
    if s == "" {
      NothingStripped();
    } else {
      StrippedStep(s);
      StrippedIsClean(s);
      if IsQuote(s[0]) {
        var n := StringLength(s);
        StringsSurvive(s[n..]);
        NothingStripped();
        QuotedThen(s, Stripped(s[n..]));
        assert (s[..n] + Stripped(s[n..]))[..n] == s[..n];
      } else if OpensComment(s) {
        var n := ClosedLength(s);
        if n > 0 {
          StringsSurvive(s[n..]);
          assert (" " + Stripped(s[n..]))[1..] == Stripped(s[n..]);
        }
      } else {
        StringsSurvive(s[1..]);
        assert ([s[0]] + Stripped(s[1..]))[1..] == Stripped(s[1..]);
      }
    }
  }

  // ---------------------------------------------------------------- piece by piece

  /** Bytes that open neither a string nor a comment stay. */
  lemma ByteStays(b: char, rest: string)
    requires !IsQuote(b) && !OpensComment([b] + rest)
    ensures Stripped([b] + rest) == [b] + Stripped(rest)
  {
    assert ([b] + rest)[1..] == rest;
    var ps := Pieced([b] + rest);
    assert ps[1..] == Pieced(rest);
  }

  /** A closed comment is one space, an unclosed one takes the rest. */
  lemma CommentIsSpace(c: string, rest: string)
    requires Closes(c)
    ensures Stripped("/*" + c + "*/" + rest) == " " + Stripped(rest)
  {
    hide Find;
    var s := "/*" + c + "*/" + rest;
    assert s[2..] == c + ("*/" + rest) && s[0] == '/' && s[1] == '*';
    CommentCloses(c, rest);
    var n := |c| + 4;
    assert ClosedLength(s) == n && s[n..] == rest;
    var ps := Pieced(s);
    assert ps == [Comment(s[..n])] + Pieced(rest);
    assert ps[1..] == Pieced(rest);
  }

  lemma OpenCommentTakesRest(c: string)
    requires Find(c, "*/") == |c|
    ensures Stripped("/*" + c) == ""
  {
    hide Find;
    var s := "/*" + c;
    assert s[2..] == c && s[0] == '/' && s[1] == '*';
    assert ClosedLength(s) == 0;
    assert Pieced(s) == [Unclosed(s)] && [Unclosed(s)][1..] == [];
    assert Kepts([Unclosed(s)]) == "" + Kepts([]);
  }

  /** A string without escapes stays, comments in it and all. */
  lemma StringStays(q: char, t: string, rest: string)
    requires IsQuote(q) && q !in t && '\\' !in t
    ensures Stripped([q] + t + [q] + rest) == [q] + t + [q] + Stripped(rest)
  {
    var s := [q] + t + [q] + rest;
    assert s[1..] == t + ([q] + rest);
    EndOfString(q, t, rest);
    var n := |t| + 2;
    assert s[..n] == [q] + t + [q] && s[n..] == rest;
    var ps := Pieced(s);
    assert ps == [Quoted(s[..n])] + Pieced(rest);
    assert ps[1..] == Pieced(rest);
  }

  lemma {:induction false} EndOfString(q: char, t: string, rest: string)
    requires q !in t && '\\' !in t && q != '\\'
    ensures StringEnd(q, t + ([q] + rest)) == |t| + 1
    decreases |t|
  {
    var s := t + ([q] + rest);
    if t == "" {
      assert s[0] == q;
    } else {
      assert s[1..] == t[1..] + ([q] + rest) && s[0] == t[0];
      EndOfString(q, t[1..], rest);
    }
  }

  /** An escaped byte ends no string. */
  lemma EscapeInString(q: char, c: char, rest: string)
    requires IsQuote(q)
    ensures StringEnd(q, ['\\', c] + rest) == 2 + StringEnd(q, rest)
  {
    assert (['\\', c] + rest)[2..] == rest;
  }
}
