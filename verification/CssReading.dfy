/**
 What stylesheet text reads as: the recursive descent of parser.go as functions of the unread text.
 Each function says how many bytes it consumes; every one of them consumes at least one, and every block
 read inside another is strictly shorter, so reading ends on all input.
 */
module CssReading {
  import opened Options
  import opened Text
  import opened CssScan
  import opened CssDecls
  import opened CssSelectors

  /** What the surrounding at-rules attach to a rule. */
  datatype Context = Context(layer: string, container: string, root: string, limit: string)

  datatype Rule = Rule(selectors: seq<string>, decls: seq<Declaration>, context: Context, starting: bool)

  datatype Sheet = Sheet(rules: seq<Rule>, layers: seq<string>, fonts: seq<seq<Declaration>>)

  /** How `@media` and `@supports` conditions come out. */
  datatype Conditions = Conditions(media: string -> bool, supports: string -> bool)

  const TOP := Context("", "", "", "")
  const NOTHING := Sheet([], [], [])

  function Both(a: Sheet, b: Sheet): Sheet {
    Sheet(a.rules + b.rules, a.layers + b.layers, a.fonts + b.fonts)
  }

  /** A sheet, the count of anonymous layers so far and the bytes consumed. */
  datatype Reading = Reading(sheet: Sheet, anon: nat, used: nat)

  /** The same inside a rule's block, with the rule's own declarations apart. */
  datatype BlockReading = BlockReading(decls: seq<Declaration>, rules: seq<Rule>, anon: nat, used: nat)

  // ---------------------------------------------------------------- contexts

  function Numeral(n: nat): (s: string)
    ensures s != "" && forall i :: 0 <= i < |s| ==> IsDigit(s[i])
    ensures Digits(s) == n
  {
    if n < 10 then
      var s := [n as char + '0'];
      assert s[..0] == "";
      s
    else
      var s := Numeral(n / 10) + [(n % 10) as char + '0'];
      assert s[..|s| - 1] == Numeral(n / 10);
      s
  }

  function Anonymous(n: nat): string {
    "anon#" + Numeral(n)
  }

  /** The context inside a grouping rule and the anonymous-layer count, or None when its body is dropped. */
  function Entered(cd: Conditions, cx: Context, n: nat, name: string, prelude: string): Option<(Context, nat)> {
    if name == "media" then (if cd.media(prelude) then Some((cx, n)) else None)
    else if name == "supports" then (if cd.supports(prelude) then Some((cx, n)) else None)
    else if name == "layer" then
      if prelude == "" then Some((cx.(layer := Anonymous(n + 1)), n + 1))
      else Some((cx.(layer := if cx.layer != "" then cx.layer + "." + prelude else prelude), n))
    else if name == "container" then
      Some((cx.(container := if cx.container != "" then cx.container + " and " + prelude else prelude), n))
    else if name == "starting-style" then Some((cx, n))
    else None
  }

  /** A parenthesised group of a text: its inside and what follows it. */
  function Group(s: string): Option<(string, string, string)> {
    var open := Find(s, "(");
    if open == |s| then None
    else
      var close := Find(s[open..], ")");
      if close == |s| - open then None
      else
        assert s[open] == '(' && s[open..][0] == '(';
        assert close > 0;
        Some((Trim(s[..open]), Trim(s[open + 1..open + close]), s[open + close + 1..]))
  }

  /** The scoping root and limit of an `@scope` prelude. */
  function ScopeBounds(prelude: string): (string, string) {
    match Group(prelude)
    case None => ("", "")
    case Some((before, inside, after)) =>
      if before == "to" then ("", inside)
      else
        var rest := Trim(after);
        if |rest| > 1 && rest[..2] == "to" then
          match Group(Trim(rest[2..]))
          case None => (inside, "")
          case Some((_, limit, _)) => (inside, limit)
        else (inside, "")
  }

  function EnteredAtTop(cd: Conditions, cx: Context, n: nat, name: string, prelude: string): Option<(Context, nat)> {
    if name == "scope" then
      Some((cx.(root := ScopeBounds(prelude).0, limit := ScopeBounds(prelude).1), n))
    else Entered(cd, cx, n, name, prelude)
  }

  function Marked(rules: seq<Rule>): (r: seq<Rule>)
    ensures |r| == |rules|
    ensures forall i :: 0 <= i < |rules| ==> r[i] == rules[i].(starting := true)
  {
    seq(|rules|, i requires 0 <= i < |rules| => rules[i].(starting := true))
  }

  // ---------------------------------------------------------------- at-rules

  /** At-rules whose statement form is not consumed and whose unclosed block is dropped. */
  predicate Bare(name: string) {
    name == "property" || name == "starting-style" || name == "font-palette-values"
  }

  predicate KeywordFirst(name: string) {
    name == "layer" || name == "container" || name == "scope"
  }

  function KeywordOf(t: string): string
    requires t != ""
  {
    Lower(t[1..1 + Reach(Name, t[1..])])
  }

  /** Where the prelude of an at-rule starts and the byte that ends it. */
  datatype Opening = Opening(prelude: nat, brace: nat)

  function AfterKeyword(name: string, t: string): (b: nat)
    requires t != ""
    ensures 0 < b <= |t|
  {
    var a := 1 + Reach(if Bare(name) then BareName else Name, t[1..]);
    a + Spaces(t[a..])
  }

  function OpeningOf(name: string, t: string): (o: Opening)
    requires t != ""
    ensures 0 < o.brace <= |t| && o.prelude <= o.brace
  {
    if KeywordFirst(name) || Bare(name) then
      var b := AfterKeyword(name, t);
      Opening(b, if name == "starting-style" then b else b + Reach(Head, t[b..]))
    else Opening(0, 1 + Reach(Head, t[1..]))
  }

  /** The condition of an `@media` or `@supports` rule: what follows the first space. */
  function Condition(head: string, keyword: string): string {
    var cond := Trim(head);
    var sp := Find(cond, " ");
    if sp < |cond| then Trim(cond[sp + 1..])
    else if keyword <= cond then Trim(cond[|keyword|..])
    else Trim(cond)
  }

  function PreludeOf(name: string, t: string, o: Opening): string
    requires o.prelude <= o.brace <= |t|
  {
    if name == "media" then Condition(t[..o.brace], "@media")
    else if name == "supports" then Condition(t[..o.brace], "@supports")
    else Trim(t[o.prelude..o.brace])
  }

  function CommaList(s: string): (r: seq<string>)
    ensures r != []
    decreases |s|
  {
    var n := Find(s, ",");
    if n < |s| then [s[..n]] + CommaList(s[n + 1..]) else [s]
  }

  /** The names a layer statement declares. */
  function LayerNames(layer: string, parts: seq<string>): seq<string> {
    if parts == [] then []
    else
      var name := Trim(parts[0]);
      (if name == "" then [] else [if layer != "" then layer + "." + name else name]) + LayerNames(layer, parts[1..])
  }

  function LayerStatement(cx: Context, prelude: string): seq<string> {
    if prelude == "" then [] else LayerNames(cx.layer, CommaList(prelude))
  }

  /** The end of the braced body that starts at `o`. */
  function BodyEnd(t: string, o: nat): (e: nat)
    requires o <= |t|
    ensures o <= e <= |t|
  {
    o + Reach(Braces, t[o..])
  }

  function Past(t: string, e: nat): nat {
    if e < |t| then e + 1 else e
  }

  predicate Grouping(name: string) {
    name == "media" || name == "supports" || name == "starting-style" || KeywordFirst(name)
  }

  function ReadAtRule(cd: Conditions, cx: Context, n: nat, t: string): (r: Reading)
    requires t != ""
    ensures 0 < r.used <= |t|
    decreases |t|, 1
  {
    var name := KeywordOf(t);
    var h := OpeningOf(name, t);
    if h.brace == |t| then Reading(NOTHING, n, |t|)
    else if t[h.brace] != '{' then
      if name == "layer" then
        Reading(NOTHING.(layers := LayerStatement(cx, PreludeOf(name, t, h))), n, h.brace + 1)
      else Reading(NOTHING, n, if Bare(name) then h.brace else h.brace + 1)
    else
      var e := BodyEnd(t, h.brace + 1);
      var body := t[h.brace + 1..e];
      if Bare(name) && e == |t| then Reading(NOTHING, n, |t|)
      else if name == "font-face" then
        var decls := Declared(body);
        Reading(NOTHING.(fonts := if decls == [] then [] else [decls]), n, Past(t, e))
      else if Grouping(name) then
        match EnteredAtTop(cd, cx, n, name, PreludeOf(name, t, h))
        case None => Reading(NOTHING, n, Past(t, e))
        case Some((inside, m)) =>
          var inner := ReadSheet(cd, inside, m, body);
          if name == "starting-style" then Reading(NOTHING.(rules := Marked(inner.sheet.rules)), n, Past(t, e))
          else Reading(inner.sheet, inner.anon, Past(t, e))
      else Reading(NOTHING, n, Past(t, e))
  }

  // ---------------------------------------------------------------- rules

  function ReadRule(cd: Conditions, cx: Context, n: nat, t: string): (r: Reading)
    requires t != ""
    ensures 0 < r.used <= |t|
    decreases |t|, 1
  {
    hide Scan, Step, Ends, Spaces, SelectorList, Kept;
    var sel := Reach(Selector, t);
    if sel == |t| then Reading(NOTHING, n, |t|)
    else
      var o := sel + 1 + Spaces(t[sel + 1..]);
      var e := o + Reach(RuleBody, t[o..]);
      var sels := Kept(SelectorList(Trim(t[..sel])));
      var b := ReadBlock(cd, cx, n, t[o..e], sels);
      var own := if sels == [] then [] else [Rule(sels, b.decls, cx, false)];
      Reading(NOTHING.(rules := own + b.rules), b.anon, Past(t, e))
  }

  /** A stretch of top-level text from white space on. */
  function ReadSheet(cd: Conditions, cx: Context, n: nat, s: string): (r: Reading)
    ensures r.used == |s|
    decreases |s|, 3
  {
    var t := s[Spaces(s)..];
    if t == "" then Reading(NOTHING, n, |s|)
    else
      var first := ReadStatement(cd, cx, n, t);
      var rest := ReadSheet(cd, cx, first.anon, t[first.used..]);
      Reading(Both(first.sheet, rest.sheet), rest.anon, |s|)
  }

  function ReadStatement(cd: Conditions, cx: Context, n: nat, t: string): (r: Reading)
    requires t != ""
    ensures 0 < r.used <= |t|
    decreases |t|, 2
  {
    if t[0] == '@' then ReadAtRule(cd, cx, n, t) else ReadRule(cd, cx, n, t)
  }

  // ---------------------------------------------------------------- blocks

  /** A declaration as a block takes it: a line break inside a string spoils it. */
  function Stated(text: string, bad: bool): seq<Declaration> {
    if text == "" || bad then [] else Declared(text)
  }

  /** A nested at-rule: where its keyword, prelude and body end. */
  datatype NestedOpening = NestedOpening(name: string, word: nat, brace: nat)

  function NestedOpeningOf(t: string): (o: NestedOpening)
    requires t != "" && t[0] == '@'
    ensures 0 < o.word <= o.brace <= |t|
  {
    var a := Reach(Name, t);
    assert a > 0;
    NestedOpening(Lower(Trim(t[1..a])), a, a + Reach(Prelude, t[a..]))
  }

  function BlockEnd(t: string, o: nat): (e: nat)
    requires o <= |t|
    ensures o <= e <= |t|
  {
    o + Reach(Block, t[o..])
  }

  function ReadBlock(cd: Conditions, cx: Context, n: nat, s: string, parents: seq<string>): (r: BlockReading)
    ensures r.used == |s|
    decreases |s|, 3
  {
    var t := s[Blanks(s)..];
    if t == "" then BlockReading([], [], n, |s|)
    else
      var first := ReadItem(cd, cx, n, t, parents);
      var rest := ReadBlock(cd, cx, first.anon, t[first.used..], parents);
      BlockReading(first.decls + rest.decls, first.rules + rest.rules, rest.anon, |s|)
  }

  function ReadItem(cd: Conditions, cx: Context, n: nat, t: string, parents: seq<string>): (r: BlockReading)
    requires t != ""
    ensures 0 < r.used <= |t|
    decreases |t|, 2
  {
    if OpensComment(t) then BlockReading([], [], n, CommentLength(t))
    else if t[0] == '@' then ReadNestedAtRule(cd, cx, n, t, parents)
    else ReadDeclarationOrRule(cd, cx, n, t, parents)
  }

  /** A comment left in a block; an unclosed one takes the rest. */
  function CommentLength(t: string): (k: nat)
    requires OpensComment(t)
    ensures 0 < k <= |t|
  {
    var end := Find(t[2..], "*/");
    if end == |t| - 2 then |t|
    else
      assert "*/" <= t[2..][end..];
      end + 4
  }

  /** A nested at-rule: its own declarations make a rule with the parent selectors. */
  function ReadNestedAtRule(cd: Conditions, cx: Context, n: nat, t: string, parents: seq<string>): (r: BlockReading)
    requires t != "" && t[0] == '@'
    ensures 0 < r.used <= |t|
    decreases |t|, 1
  {
    var h := NestedOpeningOf(t);
    if h.brace == |t| then BlockReading([], [], n, |t|)
    else if t[h.brace] == ';' then BlockReading([], [], n, h.brace + 1)
    else
      var e := BlockEnd(t, h.brace + 1);
      match Entered(cd, cx, n, h.name, Trim(t[h.word..h.brace]))
      case None => BlockReading([], [], n, Past(t, e))
      case Some((inside, m)) =>
        var b := ReadBlock(cd, inside, m, t[h.brace + 1..e], parents);
        var all := OwnRule(parents, b.decls, inside) + b.rules;
        BlockReading([], if h.name == "starting-style" then Marked(all) else all, b.anon, Past(t, e))
  }

  /** Nested rules are kept only when they declare something themselves. */
  function OwnRule(sels: seq<string>, decls: seq<Declaration>, cx: Context): seq<Rule> {
    if decls != [] && sels != [] then [Rule(sels, decls, cx, false)] else []
  }

  /** Up to a semicolon a declaration, up to a brace a nested style rule. */
  function ReadDeclarationOrRule(cd: Conditions, cx: Context, n: nat, t: string,
                                 parents: seq<string>): (r: BlockReading)
    requires t != ""
    ensures 0 < r.used <= |t|
    decreases |t|, 1
  {
    var (k, st) := Scan(Statement, START, t);
    var text := Trim(t[..k]);
    if k == |t| then BlockReading(if ':' in text then Stated(text, st.bad) else [], [], n, |t|)
    else if t[k] == ';' then BlockReading(Stated(text, st.bad), [], n, k + 1)
    else
      var e := BlockEnd(t, k + 1);
      var expanded := NestedSelectors(parents, SelectorList(text));
      if expanded == [] then BlockReading([], [], n, Past(t, e))
      else
        var b := ReadBlock(cd, cx, n, t[k + 1..e], expanded);
        BlockReading([], OwnRule(Kept(expanded), b.decls, cx) + b.rules, b.anon, Past(t, e))
  }
}
