/** What a scanning loop of the parser still has ahead of it, byte by byte. */
module CssLoops {
  import opened CssScan

  /** What a scanning loop still does from byte `i` on: how far it goes and whether a string went bad. */
  function Ahead(m: Scanner, quote: char, parens: nat, braces: nat, bad: bool, s: string, i: nat): (nat, bool)
    requires i <= |s|
  {
    var r := Scan(m, Lex(quote, false, parens, braces, bad), s[i..]);
    (r.0, r.1.bad)
  }

  function Plus(k: nat, r: (nat, bool)): (nat, bool) {
    (k + r.0, r.1)
  }

  /** The byte a scan stops at when it is outside strings. */
  predicate StopsHere(m: Scanner, parens: nat, braces: nat, c: char) {
    match m
    case Selector => c == '{'
    case RuleBody => c == '}' && braces == 0
    case Prelude => c == '{' || c == ';'
    case Block => c == '}' && braces == 0
    case Statement => parens == 0 && (c == '{' || c == ';')
    case Declarations => parens == 0 && c == ';'
    case _ => false
  }

  function Stepped(m: Scanner, quote: char, parens: nat, braces: nat, bad: bool, s: string, i: nat): (nat, bool)
    requires i < |s|
  {
    var c := s[i];
    if c == '\\' then
      if i + 1 < |s| then Plus(2, Ahead(m, quote, parens, braces, bad, s, i + 2))
      else Plus(1, Ahead(m, quote, parens, braces, bad, s, i + 1))
    else if quote != NO_QUOTE then
      if c == quote then Plus(1, Ahead(m, NO_QUOTE, parens, braces, bad, s, i + 1))
      else if c == '\n' && m.NewlineEndsString() then Plus(1, Ahead(m, NO_QUOTE, parens, braces, true, s, i + 1))
      else Plus(1, Ahead(m, quote, parens, braces, bad, s, i + 1))
    else if StopsHere(m, parens, braces, c) then (0, bad)
    else if IsQuote(c) && parens == 0 then Plus(1, Ahead(m, c, parens, braces, bad, s, i + 1))
    else if m.CountsParens() && c == '(' then Plus(1, Ahead(m, quote, parens + 1, braces, bad, s, i + 1))
    else if m.CountsParens() && c == ')' then
      Plus(1, Ahead(m, quote, if parens > 0 then parens - 1 else 0, braces, bad, s, i + 1))
    else if m.CountsBraces() && c == '{' then Plus(1, Ahead(m, quote, parens, braces + 1, bad, s, i + 1))
    else if m.CountsBraces() && c == '}' && braces > 0 then
      Plus(1, Ahead(m, quote, parens, braces - 1, bad, s, i + 1))
    else Plus(1, Ahead(m, quote, parens, braces, bad, s, i + 1))
  }

  lemma LexStep(m: Scanner, quote: char, parens: nat, braces: nat, bad: bool, s: string, i: nat)
    requires i < |s| && (quote == NO_QUOTE || IsQuote(quote)) && !m.Literal()
    ensures Ahead(m, quote, parens, braces, bad, s, i) == Stepped(m, quote, parens, braces, bad, s, i)
  {
    hide Scan, Step, Ends;
    var st := Lex(quote, false, parens, braces, bad);
    ScanOn(m, st, s, i);
    OpenByte(m, quote, parens, braces, bad, s[i]);
    if s[i] == '\\' {
      var next := st.(escaped := true);
      if i + 1 < |s| {
        ScanOn(m, next, s, i + 1);
        EscapedByte(m, next, s[i + 1]);
      } else {
        NothingScanned(m, st, s);
        NothingScanned(m, next, s);
      }
    }
  }

  lemma NothingScanned(m: Scanner, st: Lex, s: string)
    ensures Scan(m, st, s[|s|..]) == (0, st)
  {
    hide Step, Ends;
    assert s[|s|..] == "";
  }

  lemma OpenByte(m: Scanner, quote: char, parens: nat, braces: nat, bad: bool, c: char)
    requires (quote == NO_QUOTE || IsQuote(quote)) && !m.Literal()
    ensures var st := Lex(quote, false, parens, braces, bad);
            && Ends(m, st, c) == (c != '\\' && quote == NO_QUOTE && StopsHere(m, parens, braces, c))
            && (!Ends(m, st, c) ==>
                  Step(m, st, c)
                  == if c == '\\' then st.(escaped := true)
                     else if quote != NO_QUOTE then
                       (if c == quote then st.(quote := NO_QUOTE)
                        else if c == '\n' && m.NewlineEndsString() then st.(quote := NO_QUOTE, bad := true) else st)
                     else if IsQuote(c) && parens == 0 then st.(quote := c)
                     else if m.CountsParens() && c == '(' then st.(parens := parens + 1)
                     else if m.CountsParens() && c == ')' then st.(parens := if parens > 0 then parens - 1 else 0)
                     else if m.CountsBraces() && c == '{' then st.(braces := braces + 1)
                     else if m.CountsBraces() && c == '}' && braces > 0 then st.(braces := braces - 1)
                     else st)
  {
  }

  lemma EscapedByte(m: Scanner, st: Lex, c: char)
    requires st.escaped && !m.Literal()
    ensures Step(m, st, c) == st.(escaped := false) && !Ends(m, st, c)
  {
  }

  lemma AheadBegins(m: Scanner, s: string, i: nat)
    requires i <= |s|
    ensures Ahead(m, NO_QUOTE, 0, 0, false, s, i).0 == Reach(m, s[i..])
    ensures Ahead(m, NO_QUOTE, 0, 0, false, s, i) == (Scan(m, START, s[i..]).0, Scan(m, START, s[i..]).1.bad)
  {
  }

  lemma AheadAtEnd(m: Scanner, quote: char, parens: nat, braces: nat, bad: bool, s: string)
    ensures Ahead(m, quote, parens, braces, bad, s, |s|) == (0, bad)
  {
    NothingScanned(m, Lex(quote, false, parens, braces, bad), s);
  }

  /** A literal scan, byte by byte. */
  lemma LiteralStep(m: Scanner, braces: nat, s: string, i: nat)
    requires m.Literal() && i <= |s|
    ensures i == |s| ==> Ahead(m, NO_QUOTE, 0, braces, false, s, i).0 == 0
    ensures i < |s| ==>
              Ahead(m, NO_QUOTE, 0, braces, false, s, i).0
              == if Ends(m, START.(braces := braces), s[i]) then 0
                 else if m.Braces? && s[i] == '{' then 1 + Ahead(m, NO_QUOTE, 0, braces + 1, false, s, i + 1).0
                 else if m.Braces? && s[i] == '}' then
                   1 + Ahead(m, NO_QUOTE, 0, if braces > 0 then braces - 1 else 0, false, s, i + 1).0
                 else 1 + Ahead(m, NO_QUOTE, 0, braces, false, s, i + 1).0
  {
    var st := START.(braces := braces);
    if i < |s| {
      ScanOn(m, st, s, i);
    } else {
      NothingScanned(m, st, s);
    }
  }

  lemma ScanOn(m: Scanner, st: Lex, s: string, i: nat)
    requires i < |s|
    ensures Ends(m, st, s[i]) ==> Scan(m, st, s[i..]) == (0, st)
    ensures !Ends(m, st, s[i]) ==>
              Scan(m, st, s[i..])
              == (1 + Scan(m, Step(m, st, s[i]), s[i + 1..]).0, Scan(m, Step(m, st, s[i]), s[i + 1..]).1)
  {
    hide Step, Ends;
    assert s[i..][1..] == s[i + 1..];
  }
}
