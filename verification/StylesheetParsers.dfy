/**
 The stylesheet parser as it runs: a cursor into the text, a sheet that rules are appended to, and a new
 parser for every body.  Every method is tied to the reading of the unread text; each statement advances
 the cursor, which never passes the end, and every body is shorter than the text it was cut from.
 */
module StylesheetParsers {
  import opened Options
  import opened Text
  import opened CssScan
  import opened CssLoops
  import opened CssDecls
  import opened CssSelectors
  import opened CssReading
  import opened CssPositions

  class Stylesheet {
    var rules: seq<Rule>
    var layers: seq<string>
    var fonts: seq<seq<Declaration>>

    constructor ()
      ensures Contents() == NOTHING
    {
      rules, layers, fonts := [], [], [];
    }

    function Contents(): Sheet
      reads this
    {
      Sheet(rules, layers, fonts)
    }
  }

  class Parser {
    const cd: Conditions
    const input: string
    const context: Context
    var pos: nat
    var anon: nat

    constructor (cd: Conditions, input: string, context: Context, anon: nat)
      ensures this.cd == cd && this.input == input && this.context == context && this.anon == anon && pos == 0
    {
      this.cd, this.input, this.context, this.anon, pos := cd, input, context, anon, 0;
    }

    // -------------------------------------------------------------- the cursor

    /** Skips blanks and comments. */
    method SkipWhitespace()
      requires pos <= |input|
      modifies this`pos
      ensures pos == SpacesFrom(input, old(pos))
    {
      hide SpacesFrom, CommentEndFrom;
      SpacesStep(input, pos);
      while pos < |input|
        invariant pos <= |input| && SpacesFrom(input, old(pos)) == SpacesFrom(input, pos)
        decreases |input| - pos
      {
        SpacesStep(input, pos);
        if IsBlank(input[pos]) {
          pos := pos + 1;
          continue;
        }
        if pos + 1 < |input| && input[pos] == '/' && input[pos + 1] == '*' {
          pos := pos + 2;
          SkipComment();
          continue;
        }
        return;
      }
      SpacesStep(input, pos);
    }

    method SkipComment()
      requires pos <= |input|
      modifies this`pos
      ensures pos == CommentEndFrom(input, old(pos))
    {
      hide CommentEndFrom;
      while pos + 1 < |input|
        invariant pos <= |input| && CommentEndFrom(input, old(pos)) == CommentEndFrom(input, pos)
      {
        CommentStep(input, pos);
        if input[pos] == '*' && input[pos + 1] == '/' {
          pos := pos + 2;
          return;
        }
        pos := pos + 1;
      }
      CommentStep(input, pos);
    }

    /** Advances to the first byte that ends a keyword or a prelude. */
    method Advance(m: Scanner)
      requires pos <= |input| && (m.Name? || m.BareName? || m.Head?)
      modifies this`pos
      ensures pos == ReachFrom(m, input, old(pos))
    {
      hide ReachFrom;
      while pos < |input| && !Ends(m, START, input[pos])
        invariant pos <= |input| && ReachFrom(m, input, old(pos)) == ReachFrom(m, input, pos)
      {
        ReachStep(m, input, pos);
        pos := pos + 1;
      }
      ReachStep(m, input, pos);
    }

    /** To the brace that closes the body of a top-level at-rule. */
    method MatchBrace()
      requires pos <= |input|
      modifies this`pos
      ensures pos == BodyEnd(input, old(pos))
    {
      hide BraceFrom, BodyEnd;
      var depth := 1;
      BraceStep(0, input, pos);
      while pos < |input| && depth > 0
        invariant pos <= |input| && depth > 0 && BodyEnd(input, old(pos)) == BraceFrom(depth - 1, input, pos)
      {
        BraceStep(depth - 1, input, pos);
        if input[pos] == '{' {
          depth := depth + 1;
        } else if input[pos] == '}' {
          if depth == 1 { return; }
          depth := depth - 1;
        }
        pos := pos + 1;
      }
      BraceStep(depth - 1, input, pos);
    }

    /** The keyword of the at-rule at the cursor, which stays where it is. */
    method AtRuleName() returns (name: string)
      requires pos < |input|
      modifies this`pos
      ensures pos == old(pos) && name == KeywordFrom(input, pos)
    {
      hide ReachFrom, KeywordFrom, Lower;
      var save := pos;
      KeywordIsRead(input, pos);
      pos := pos + 1;
      Advance(Name);
      name := Lower(input[save + 1..pos]);
      pos := save;
    }

    /** Past the keyword of an at-rule and the blanks behind it. */
    method ReadKeyword(bare: bool) returns (preludeStart: nat)
      requires pos < |input|
      modifies this`pos
      ensures preludeStart == pos == PreludeFrom(bare, input, old(pos))
    {
      hide ReachFrom, SpacesFrom;
      pos := pos + 1;
      Advance(if bare then BareName else Name);
      SkipWhitespace();
      preludeStart := pos;
    }

    /** The body behind the brace at the cursor, which moves past its end. */
    method TakeBody() returns (body: string)
      requires pos < |input|
      modifies this`pos
      ensures var e := BodyEnd(input, old(pos) + 1);
              body == input[old(pos) + 1..e] && pos == Past(input, e)
    {
      hide BodyEnd;
      pos := pos + 1;
      var bodyStart := pos;
      MatchBrace();
      body := input[bodyStart..pos];
      if pos < |input| {
        pos := pos + 1;
      }
    }

    /** The parser has done what the reading `r` of the text from `from` on says. */
    ghost predicate Did(r: Reading, from: nat, before: Sheet, sheet: Stylesheet)
      reads this, sheet
    {
      pos == from + r.used && anon == r.anon && sheet.Contents() == Both(before, r.sheet)
    }

    // -------------------------------------------------------------- at-rules

    /** Parses a body with a parser of its own and takes over its count. */
    method EnterBody(sheet: Stylesheet, body: string, inside: Context, count: nat)
      modifies this`anon, sheet
      ensures var r := ReadSheet(cd, inside, count, body);
              anon == r.anon && sheet.Contents() == Both(old(sheet.Contents()), r.sheet)
      decreases |body|, 5
    {
      hide ReadSheet, SheetFrom;
      var inner := new Parser(cd, body, inside, count);
      SheetWhole(cd, inside, count, body);
      inner.ParseInto(sheet);
      anon := inner.anon;
    }

    method ParseMediaRule(sheet: Stylesheet)
      requires pos < |input| && KeywordFrom(input, pos) == "media"
      modifies this`pos, this`anon, sheet
      ensures Did(AtRuleFrom(cd, context, old(anon), input, old(pos)), old(pos), old(sheet.Contents()), sheet)
      decreases |input| - pos, 2
    {
      hide ReadSheet, AtRuleFrom, EnteredAtTop, BodyEnd, ReachFrom, Condition, KeywordFrom;
      var at := pos;
      ConditionalOpened(cd, context, anon, input, at, "media");
      pos := pos + 1;
      Advance(Head);
      NothingAdded(sheet.Contents());
      if pos >= |input| {
        return;
      }
      if input[pos] == ';' {
        pos := pos + 1;
        return;
      }
      var cond := Condition(input[at..pos], "@media");
      var body := TakeBody();
      if cd.media(cond) {
        EnterBody(sheet, body, context, anon);
      }
    }

    method ParseSupportsRule(sheet: Stylesheet)
      requires pos < |input| && KeywordFrom(input, pos) == "supports"
      modifies this`pos, this`anon, sheet
      ensures Did(AtRuleFrom(cd, context, old(anon), input, old(pos)), old(pos), old(sheet.Contents()), sheet)
      decreases |input| - pos, 2
    {
      hide ReadSheet, AtRuleFrom, EnteredAtTop, BodyEnd, ReachFrom, Condition, KeywordFrom;
      var at := pos;
      ConditionalOpened(cd, context, anon, input, at, "supports");
      pos := pos + 1;
      Advance(Head);
      NothingAdded(sheet.Contents());
      if pos >= |input| {
        return;
      }
      if input[pos] == ';' {
        pos := pos + 1;
        return;
      }
      var cond := Condition(input[at..pos], "@supports");
      var body := TakeBody();
      if cd.supports(cond) {
        EnterBody(sheet, body, context, anon);
      }
    }

    /** A layer block, named or anonymous, or a statement that only declares names. */
    method ParseLayerRule(sheet: Stylesheet)
      requires pos < |input| && KeywordFrom(input, pos) == "layer"
      modifies this`pos, this`anon, sheet
      ensures Did(AtRuleFrom(cd, context, old(anon), input, old(pos)), old(pos), old(sheet.Contents()), sheet)
      decreases |input| - pos, 2
    {
      hide ReadSheet, AtRuleFrom, EnteredAtTop, BodyEnd, ReachFrom, KeywordFrom, PreludeFrom, Trim, Anonymous,
           CommaList, LayerNames, KeywordFirst;
      ghost var at := pos;
      KeywordsFirst();
      KeywordOpened(cd, context, anon, input, at, "layer");
      var preludeStart := ReadKeyword(false);
      Advance(Head);
      NothingAdded(sheet.Contents());
      if pos >= |input| {
        return;
      }
      var prelude := Trim(input[preludeStart..pos]);
      if input[pos] == ';' {
        pos := pos + 1;
        if prelude != "" {
          var names := DeclaredLayers(prelude);
          sheet.layers := sheet.layers + names;
        }
        return;
      }
      EnteredLayer(cd, context, anon, prelude);
      var layerName := prelude;
      if layerName == "" {
        anon := anon + 1;
        layerName := Anonymous(anon);
      } else if context.layer != "" {
        layerName := context.layer + "." + layerName;
      }
      var body := TakeBody();
      EnterBody(sheet, body, context.(layer := layerName), anon);
    }

    method DeclaredLayers(prelude: string) returns (names: seq<string>)
      ensures names == LayerNames(context.layer, CommaList(prelude))
    {
      hide CommaList, Trim, LayerNames;
      var parts := CommaList(prelude);
      names := [];
      var k := 0;
      assert parts[0..] == parts;
      while k < |parts|
        invariant k <= |parts| && names + LayerNames(context.layer, parts[k..]) == LayerNames(context.layer, parts)
      {
        var name := Trim(parts[k]);
        LayerNamesStep(context.layer, parts, k);
        if name != "" {
          if context.layer != "" {
            name := context.layer + "." + name;
          }
          names := names + [name];
        }
        k := k + 1;
      }
      LayerNamesStep(context.layer, parts, k);
    }

    method ParseContainerRule(sheet: Stylesheet)
      requires pos < |input| && KeywordFrom(input, pos) == "container"
      modifies this`pos, this`anon, sheet
      ensures Did(AtRuleFrom(cd, context, old(anon), input, old(pos)), old(pos), old(sheet.Contents()), sheet)
      decreases |input| - pos, 2
    {
      hide ReadSheet, AtRuleFrom, EnteredAtTop, BodyEnd, ReachFrom, KeywordFrom, PreludeFrom, Trim, KeywordFirst;
      ghost var at := pos;
      KeywordsFirst();
      KeywordOpened(cd, context, anon, input, at, "container");
      var preludeStart := ReadKeyword(false);
      Advance(Head);
      NothingAdded(sheet.Contents());
      if pos >= |input| {
        return;
      }
      if input[pos] == ';' {
        pos := pos + 1;
        return;
      }
      var prelude := Trim(input[preludeStart..pos]);
      EnteredContainer(cd, context, anon, prelude);
      var body := TakeBody();
      var cq := prelude;
      if context.container != "" {
        cq := context.container + " and " + prelude;
      }
      EnterBody(sheet, body, context.(container := cq), anon);
    }

    method ParseScopeRule(sheet: Stylesheet)
      requires pos < |input| && KeywordFrom(input, pos) == "scope"
      modifies this`pos, this`anon, sheet
      ensures Did(AtRuleFrom(cd, context, old(anon), input, old(pos)), old(pos), old(sheet.Contents()), sheet)
      decreases |input| - pos, 2
    {
      hide ReadSheet, AtRuleFrom, EnteredAtTop, BodyEnd, ReachFrom, KeywordFrom, PreludeFrom, Trim, KeywordFirst,
           ScopeBounds;
      ghost var at := pos;
      KeywordsFirst();
      KeywordOpened(cd, context, anon, input, at, "scope");
      var preludeStart := ReadKeyword(false);
      Advance(Head);
      NothingAdded(sheet.Contents());
      if pos >= |input| {
        return;
      }
      if input[pos] == ';' {
        pos := pos + 1;
        return;
      }
      var prelude := Trim(input[preludeStart..pos]);
      EnteredScope(cd, context, anon, prelude);
      var body := TakeBody();
      var (root, limit) := ScopeBounds(prelude);
      EnterBody(sheet, body, context.(root := root, limit := limit), anon);
    }

    method ParseFontFaceRule(sheet: Stylesheet)
      requires pos < |input| && KeywordFrom(input, pos) == "font-face"
      modifies this`pos, sheet
      ensures Did(AtRuleFrom(cd, context, old(anon), input, old(pos)), old(pos), old(sheet.Contents()), sheet)
    {
      hide ReadSheet, AtRuleFrom, BodyEnd, ReachFrom, KeywordFrom, Declared;
      FontFaceFrom(cd, context, anon, input, pos);
      pos := pos + 1;
      Advance(Head);
      NothingAdded(sheet.Contents());
      if pos >= |input| {
        return;
      }
      if input[pos] == ';' {
        pos := pos + 1;
        return;
      }
      var body := TakeBody();
      var decls := ParseDeclarations(body);
      if |decls| > 0 {
        sheet.fonts := sheet.fonts + [decls];
      }
    }

    /** An at-rule read for its extent only: unknown ones, and keyframes, whose stops are not modelled. */
    method SkipAtRule(ghost sheet: Stylesheet)
      requires pos < |input| && Skipped(KeywordFrom(input, pos))
      modifies this`pos
      ensures Did(AtRuleFrom(cd, context, old(anon), input, old(pos)), old(pos), old(sheet.Contents()), sheet)
    {
      hide ReadSheet, AtRuleFrom, BodyEnd, ReachFrom, KeywordFrom, Skipped;
      SkippedFrom(cd, context, anon, input, pos);
      pos := pos + 1;
      Advance(Head);
      NothingAdded(sheet.Contents());
      if pos < |input| && input[pos] == '{' {
        var _ := TakeBody();
      } else if pos < |input| {
        pos := pos + 1;
      }
    }

    /** An at-rule whose descriptors are not modelled: without a closed block nothing behind it is taken. */
    method ParseDescriptors(ghost sheet: Stylesheet)
      requires pos < |input| && Descriptors(KeywordFrom(input, pos))
      modifies this`pos
      ensures Did(AtRuleFrom(cd, context, old(anon), input, old(pos)), old(pos), old(sheet.Contents()), sheet)
    {
      hide ReadSheet, AtRuleFrom, BodyEnd, ReachFrom, KeywordFrom, PreludeFrom, Descriptors;
      DescriptorsFrom(cd, context, anon, input, pos);
      var _ := ReadKeyword(true);
      Advance(Head);
      NothingAdded(sheet.Contents());
      if pos >= |input| || input[pos] != '{' {
        return;
      }
      var _ := TakeBody();
    }

    /** Rules that hold for the starting style; the count of anonymous layers inside is not taken over. */
    method ParseStartingStyleRule(sheet: Stylesheet)
      requires pos < |input| && KeywordFrom(input, pos) == "starting-style"
      modifies this`pos, sheet
      ensures Did(AtRuleFrom(cd, context, old(anon), input, old(pos)), old(pos), old(sheet.Contents()), sheet)
      decreases |input| - pos, 2
    {
      hide ReadSheet, AtRuleFrom, BodyEnd, ReachFrom, KeywordFrom, PreludeFrom, Marked;
      StartingFrom(cd, context, anon, input, pos);
      var _ := ReadKeyword(true);
      NothingAdded(sheet.Contents());
      if pos >= |input| || input[pos] != '{' {
        return;
      }
      var brace := pos;
      var body := TakeBody();
      if pos == brace + 1 + |body| {
        return;
      }
      var rules := StartingRules(body);
      AppendMarked(sheet, rules);
    }

    /** The rules of a body read into a sheet of its own. */
    method StartingRules(body: string) returns (rules: seq<Rule>)
      ensures rules == ReadSheet(cd, context, anon, body).sheet.rules
      decreases |body|, 5
    {
      hide ReadSheet, SheetFrom;
      var inner := new Parser(cd, body, context, anon);
      var innerSheet := new Stylesheet();
      SheetWhole(cd, context, anon, body);
      inner.ParseInto(innerSheet);
      NothingAdded(ReadSheet(cd, context, anon, body).sheet);
      rules := innerSheet.rules;
    }

    method AppendMarked(sheet: Stylesheet, rules: seq<Rule>)
      modifies sheet
      ensures sheet.Contents() == Both(old(sheet.Contents()), NOTHING.(rules := Marked(rules)))
    {
      var i := 0;
      while i < |rules|
        invariant i <= |rules| && sheet.rules == old(sheet.rules) + Marked(rules)[..i]
        invariant sheet.layers == old(sheet.layers) && sheet.fonts == old(sheet.fonts)
      {
        sheet.rules := sheet.rules + [rules[i].(starting := true)];
        assert Marked(rules)[..i + 1] == Marked(rules)[..i] + [Marked(rules)[i]];
        i := i + 1;
      }
      assert Marked(rules)[..i] == Marked(rules);
    }

    // -------------------------------------------------------------- the top-level loop

    /** Reads statement after statement; each one advances the cursor, which ends at the end of the text. */
    method ParseInto(sheet: Stylesheet)
      requires pos <= |input|
      modifies this`pos, this`anon, sheet
      ensures pos == |input|
      ensures var r := SheetFrom(cd, context, old(anon), input, old(pos));
              anon == r.anon && sheet.Contents() == Both(old(sheet.Contents()), r.sheet)
      decreases |input| - pos, 4
    {
      hide SheetFrom, StatementReading, SpacesFrom, Both;
      ghost var all := SheetFrom(cd, context, anon, input, pos);
      ghost var before := sheet.Contents();
      NothingAdded(all.sheet);
      NothingAdded(before);
      ghost var done := NOTHING;
      while pos < |input|
        invariant old(pos) <= pos <= |input| && sheet.Contents() == Both(before, done)
        invariant var rest := SheetFrom(cd, context, anon, input, pos);
                  all.sheet == Both(done, rest.sheet) && all.anon == rest.anon
        decreases |input| - pos
      {
        SheetUnfolds(cd, context, anon, input, pos);
        SkipWhitespace();
        if pos >= |input| {
          NothingAdded(done);
          return;
        }
        ghost var r := StatementReading(cd, context, anon, input, pos);
        ParseStatement(sheet);
        BothAssociates(before, done, r.sheet);
        BothAssociates(done, r.sheet, SheetFrom(cd, context, anon, input, pos).sheet);
        done := Both(done, r.sheet);
      }
      SheetUnfolds(cd, context, anon, input, pos);
      SpacesStep(input, pos);
      NothingAdded(done);
    }

    method ParseStatement(sheet: Stylesheet)
      requires pos < |input|
      modifies this`pos, this`anon, sheet
      ensures Did(StatementReading(cd, context, old(anon), input, old(pos)), old(pos), old(sheet.Contents()), sheet)
      ensures old(pos) < pos <= |input|
      decreases |input| - pos, 3, 1
    {
      hide AtRuleFrom, RuleFrom, KeywordFrom;
      if input[pos] == '@' {
        ParseAtRule(sheet);
      } else {
        var rule, nestedRules := ParseRule();
        if |rule.selectors| > 0 {
          var cx := rule.context;
          if context.layer != "" && cx.layer == "" {
            cx := cx.(layer := context.layer);
          }
          if context.container != "" && cx.container == "" {
            cx := cx.(container := context.container);
          }
          if context.root != "" && cx.root == "" {
            cx := cx.(root := context.root);
          }
          if context.limit != "" && cx.limit == "" {
            cx := cx.(limit := context.limit);
          }
          sheet.rules := sheet.rules + [rule.(context := cx)];
        }
        sheet.rules := sheet.rules + nestedRules;
      }
    }

    method ParseAtRule(sheet: Stylesheet)
      requires pos < |input|
      modifies this`pos, this`anon, sheet
      ensures Did(AtRuleFrom(cd, context, old(anon), input, old(pos)), old(pos), old(sheet.Contents()), sheet)
      decreases |input| - pos, 3, 0
    {
      hide AtRuleFrom, KeywordFrom;
      var name := AtRuleName();
      if name == "media" {
        ParseMediaRule(sheet);
      } else if name == "supports" {
        ParseSupportsRule(sheet);
      } else if name == "layer" {
        ParseLayerRule(sheet);
      } else if name == "container" {
        ParseContainerRule(sheet);
      } else if name == "scope" {
        ParseScopeRule(sheet);
      } else if name == "font-face" {
        ParseFontFaceRule(sheet);
      } else if name == "property" || name == "font-palette-values" {
        ParseDescriptors(sheet);
      } else if name == "starting-style" {
        ParseStartingStyleRule(sheet);
      } else {
        SkipAtRule(sheet);
      }
    }

    // -------------------------------------------------------------- rules

    /** To the brace that opens a rule. */
    method SelectorEnd()
      requires pos <= |input|
      modifies this`pos
      ensures pos == ReachFrom(Selector, input, old(pos))
    {
      hide LexFrom, ReachFrom;
      var quote := NO_QUOTE;
      ghost var bad := false;
      LexBegins(Selector, input, pos);
      while pos < |input|
        invariant pos <= |input| && (quote == NO_QUOTE || IsQuote(quote))
        invariant ReachFrom(Selector, input, old(pos)) == LexFrom(Selector, quote, 0, 0, bad, input, pos).0
      {
        var c := input[pos];
        LexStepFrom(Selector, quote, 0, 0, bad, input, pos);
        if c == '\\' && pos + 1 < |input| {
          pos := pos + 2;
          continue;
        }
        if quote != NO_QUOTE {
          if c == quote || c == '\n' {
            bad := bad || c != quote;
            quote := NO_QUOTE;
          }
        } else if IsQuote(c) {
          quote := c;
        } else if c == '{' {
          return;
        }
        pos := pos + 1;
      }
      LexEnds(Selector, quote, 0, 0, bad, input);
    }

    /** To the brace that closes a rule. */
    method RuleBodyEnd()
      requires pos <= |input|
      modifies this`pos
      ensures pos == ReachFrom(RuleBody, input, old(pos))
    {
      hide LexFrom, ReachFrom;
      var quote := NO_QUOTE;
      var depth: nat, parens: nat := 0, 0;
      ghost var bad := false;
      LexBegins(RuleBody, input, pos);
      while pos < |input|
        invariant pos <= |input| && (quote == NO_QUOTE || IsQuote(quote))
        invariant ReachFrom(RuleBody, input, old(pos)) == LexFrom(RuleBody, quote, parens, depth, bad, input, pos).0
      {
        var c := input[pos];
        LexStepFrom(RuleBody, quote, parens, depth, bad, input, pos);
        if c == '\\' && pos + 1 < |input| {
          pos := pos + 2;
          continue;
        }
        if quote != NO_QUOTE {
          if c == quote || c == '\n' {
            bad := bad || c != quote;
            quote := NO_QUOTE;
          }
        } else if IsQuote(c) && parens == 0 {
          quote := c;
        } else if c == '(' {
          parens := parens + 1;
        } else if c == ')' {
          if parens > 0 { parens := parens - 1; }
        } else if c == '{' {
          depth := depth + 1;
        } else if c == '}' {
          if depth == 0 { return; }
          depth := depth - 1;
        }
        pos := pos + 1;
      }
      LexEnds(RuleBody, quote, parens, depth, bad, input);
    }

    /** One top-level rule, without a context yet, and the rules nested in it. */
    method ParseRule() returns (rule: Rule, nestedRules: seq<Rule>)
      requires pos < |input|
      modifies this`pos, this`anon
      ensures var r := RuleFrom(cd, context, old(anon), input, old(pos));
              && pos == old(pos) + r.used && anon == r.anon && rule.context == TOP && !rule.starting
              && r.sheet
                 == Sheet((if rule.selectors == [] then [] else [rule.(context := context)]) + nestedRules, [], [])
      decreases |input| - pos, 1
    {
      hide ReadBlock, RuleFrom, ReachFrom, SpacesFrom, Kept, SelectorList, Trim;
      rule := Rule([], [], TOP, false);
      nestedRules := [];
      var selectorStart := pos;
      RuleUnfolds(cd, context, anon, input, pos);
      SelectorEnd();
      var selectorText := Trim(input[selectorStart..pos]);
      if pos >= |input| {
        return;
      }
      pos := pos + 1;
      SkipWhitespace();
      var declStart := pos;
      RuleBodyEnd();
      var declText := input[declStart..pos];
      if pos < |input| {
        pos := pos + 1;
      }
      var parts := SplitSelectors(selectorText);
      var sels := KeepSelectors(parts);
      var decls;
      decls, nestedRules := ParseBlockWithRules(declText, sels);
      rule := Rule(sels, decls, TOP, false);
    }

    /** The non-empty selectors of a list, trimmed. */
    method KeepSelectors(parts: seq<string>) returns (sels: seq<string>)
      ensures sels == Kept(parts)
    {
      hide Trim, Kept;
      sels := [];
      var k := 0;
      assert parts[0..] == parts;
      while k < |parts|
        invariant k <= |parts| && sels + Kept(parts[k..]) == Kept(parts)
      {
        var sel := Trim(parts[k]);
        KeptStep(parts, k);
        if sel != "" {
          sels := sels + [sel];
        }
        k := k + 1;
      }
      KeptStep(parts, k);
    }

    // -------------------------------------------------------------- blocks

    /** The declarations of a block and the rules nested in it. */
    method ParseBlockWithRules(body: string, parents: seq<string>)
      returns (decls: seq<Declaration>, nestedRules: seq<Rule>)
      modifies this`anon
      ensures var b := ReadBlock(cd, context, old(anon), body, parents);
              decls == b.decls && nestedRules == b.rules && anon == b.anon
      decreases |body|, 3
    {
      hide ReadBlock, BlockFrom, ItemFrom, BlanksFrom;
      decls, nestedRules := [], [];
      var i := 0;
      ghost var all := BlockFrom(cd, context, anon, body, 0, parents);
      BlockWhole(cd, context, anon, body, parents);
      while i < |body|
        invariant i <= |body|
        invariant var rest := BlockFrom(cd, context, anon, body, i, parents);
                  all.decls == decls + rest.decls && all.rules == nestedRules + rest.rules && all.anon == rest.anon
        decreases |body| - i
      {
        BlockUnfolds(cd, context, anon, body, i, parents);
        i := SkipBlanks(body, i);
        if i >= |body| {
          return;
        }
        var next, d, rules := ParseItem(body, i, parents);
        ghost var rest := BlockFrom(cd, context, anon, body, next, parents);
        assert decls + (d + rest.decls) == decls + d + rest.decls;
        assert nestedRules + (rules + rest.rules) == nestedRules + rules + rest.rules;
        decls := decls + d;
        nestedRules := nestedRules + rules;
        i := next;
      }
      BlockUnfolds(cd, context, anon, body, i, parents);
      BlanksStep(body, i);
    }

    /** A comment, an at-rule, a declaration or a nested rule at `i`. */
    method ParseItem(body: string, i: nat, parents: seq<string>)
      returns (next: nat, decls: seq<Declaration>, rules: seq<Rule>)
      requires i < |body|
      modifies this`anon
      ensures var r := ItemFrom(cd, context, old(anon), body, i, parents);
              next == i + r.used && decls == r.decls && rules == r.rules && anon == r.anon
      decreases |body|, 2
    {
      hide ItemFrom, Find;
      decls, rules := [], [];
      if i + 1 < |body| && body[i] == '/' && body[i + 1] == '*' {
        CommentItem(cd, context, anon, body, i, parents);
        var end := Find(body[i + 2..], "*/");
        if end == |body| - i - 2 {
          next := |body|;
        } else {
          next := i + end + 4;
        }
      } else if body[i] == '@' {
        next, rules := ParseNestedAtRule(body, i, parents);
      } else {
        next, decls, rules := ParseDeclarationOrRule(body, i, parents);
      }
    }

    method ParseNestedAtRule(body: string, start: nat, parents: seq<string>) returns (i: nat, rules: seq<Rule>)
      requires start < |body| && body[start] == '@'
      modifies this`anon
      ensures var r := ItemFrom(cd, context, old(anon), body, start, parents);
              i == start + r.used && r.decls == [] && rules == r.rules && anon == r.anon
      decreases |body|, 1
    {
      hide ItemFrom, BlockEnd, ReachFrom, Trim, Lower, NestedReading;
      NestedAtRuleItem(cd, context, anon, body, start, parents);
      rules := [];
      i := KeywordEnd(body, start);
      var atName := Lower(Trim(body[start + 1..i]));
      var preludeStart := i;
      i := PreludeEnd(body, preludeStart);
      var prelude := Trim(body[preludeStart..i]);
      if i < |body| && body[i] == ';' {
        i := i + 1;
        return;
      }
      if i >= |body| {
        return;
      }
      i := i + 1;
      var innerBodyStart := i;
      i := NestedBlockEnd(body, innerBodyStart);
      var innerBody := body[innerBodyStart..i];
      if i < |body| {
        i := i + 1;
      }
      rules := HandleNestedAtRule(atName, prelude, innerBody, parents);
    }

    /** What a nested grouping rule contributes; its own declarations go to the parent selectors. */
    method HandleNestedAtRule(atName: string, prelude: string, innerBody: string, parents: seq<string>)
      returns (rules: seq<Rule>)
      modifies this`anon
      ensures (rules, anon) == NestedReading(cd, context, old(anon), atName, prelude, innerBody, parents)
      decreases |innerBody|, 4
    {
      hide ReadBlock, OwnRule, Anonymous, Marked;
      rules := [];
      var inside, starting := context, false;
      NestedNames(atName);
      if atName == "media" {
        if !cd.media(prelude) {
          return;
        }
      } else if atName == "container" {
        var cq := prelude;
        if context.container != "" {
          cq := context.container + " and " + cq;
        }
        inside := context.(container := cq);
      } else if atName == "layer" {
        var layerName := prelude;
        if layerName == "" {
          anon := anon + 1;
          layerName := Anonymous(anon);
        } else if context.layer != "" {
          layerName := context.layer + "." + layerName;
        }
        inside := context.(layer := layerName);
      } else if atName == "supports" {
        if !cd.supports(prelude) {
          return;
        }
      } else if atName == "starting-style" {
        starting := true;
      } else {
        return;
      }
      var inner := new Parser(cd, innerBody, inside, anon);
      var decls, nested := inner.ParseBlockWithRules(innerBody, parents);
      rules := MakeRule(parents, decls, inside);
      rules := rules + nested;
      if starting {
        rules := Marked(rules);
      }
      anon := inner.anon;
    }

    /** A rule with the given selectors, if it declares anything. */
    method MakeRule(sels: seq<string>, decls: seq<Declaration>, cx: Context) returns (rules: seq<Rule>)
      ensures rules == OwnRule(sels, decls, cx)
    {
      rules := [];
      if |decls| > 0 && |sels| > 0 {
        rules := [Rule(sels, decls, cx, false)];
      }
    }

    method ParseDeclarationOrRule(body: string, start: nat, parents: seq<string>)
      returns (i: nat, decls: seq<Declaration>, rules: seq<Rule>)
      requires start < |body| && body[start] != '@'
      requires !(start + 1 < |body| && body[start] == '/' && body[start + 1] == '*')
      modifies this`anon
      ensures var r := ItemFrom(cd, context, old(anon), body, start, parents);
              i == start + r.used && decls == r.decls && rules == r.rules && anon == r.anon
      decreases |body|, 1
    {
      hide ReadBlock, ItemFrom, BlockEnd, StatementFrom, Trim, NestedSelectors, SelectorList, OwnRule, Declared, Kept;
      StatementItem(cd, context, anon, body, start, parents);
      decls, rules := [], [];
      var hit, bad := StatementEnd(body, start);
      var text := Trim(body[start..hit]);
      if hit < |body| && body[hit] == ';' {
        i := hit + 1;
        if text != "" && !bad {
          decls := ParseDeclarations(text);
        }
      } else if hit < |body| {
        i := hit + 1;
        var innerBodyStart := i;
        i := NestedBlockEnd(body, innerBodyStart);
        var innerBody := body[innerBodyStart..i];
        if i < |body| {
          i := i + 1;
        }
        var nested := SplitSelectors(text);
        var expanded := ExpandNestedSelectors(parents, nested);
        if |expanded| > 0 {
          rules := ParseNestedStyleRule(expanded, innerBody);
        }
      } else {
        i := |body|;
        if text != "" && ':' in text && !bad {
          decls := ParseDeclarations(text);
        }
      }
    }

    method ParseNestedStyleRule(expanded: seq<string>, innerBody: string) returns (rules: seq<Rule>)
      modifies this`anon
      ensures var b := ReadBlock(cd, context, old(anon), innerBody, expanded);
              rules == OwnRule(Kept(expanded), b.decls, context) + b.rules && anon == b.anon
      decreases |innerBody|, 4
    {
      hide ReadBlock, OwnRule, Kept;
      var sels := KeepSelectors(expanded);
      var decls, deeper := ParseBlockWithRules(innerBody, expanded);
      rules := MakeRule(sels, decls, context);
      rules := rules + deeper;
    }
  }

  // ---------------------------------------------------------------- scanning loops inside a block

  method SkipBlanks(body: string, start: nat) returns (i: nat)
    requires start <= |body|
    ensures i == BlanksFrom(body, start)
  {
    hide BlanksFrom;
    i := start;
    while i < |body| && IsBlank(body[i])
      invariant i <= |body| && BlanksFrom(body, start) == BlanksFrom(body, i)
    {
      BlanksStep(body, i);
      i := i + 1;
    }
    BlanksStep(body, i);
  }

  method KeywordEnd(body: string, start: nat) returns (i: nat)
    requires start < |body|
    ensures i == ReachFrom(Name, body, start)
  {
    hide ReachFrom;
    i := start;
    while i < |body| && !Ends(Name, START, body[i])
      invariant i <= |body| && ReachFrom(Name, body, start) == ReachFrom(Name, body, i)
    {
      ReachStep(Name, body, i);
      i := i + 1;
    }
    ReachStep(Name, body, i);
  }

  /** Past the prelude of a nested at-rule. */
  method PreludeEnd(body: string, start: nat) returns (i: nat)
    requires start <= |body|
    ensures i == ReachFrom(Prelude, body, start)
  {
    hide LexFrom, ReachFrom;
    var quote := NO_QUOTE;
    i := start;
    LexBegins(Prelude, body, start);
    while i < |body|
      invariant i <= |body| && (quote == NO_QUOTE || IsQuote(quote))
      invariant ReachFrom(Prelude, body, start) == LexFrom(Prelude, quote, 0, 0, false, body, i).0
    {
      var c := body[i];
      LexStepFrom(Prelude, quote, 0, 0, false, body, i);
      if c == '\\' && i + 1 < |body| {
        i := i + 2;
        continue;
      }
      if quote != NO_QUOTE {
        if c == quote { quote := NO_QUOTE; }
      } else if IsQuote(c) {
        quote := c;
      } else if c == '{' || c == ';' {
        return;
      }
      i := i + 1;
    }
    LexEnds(Prelude, quote, 0, 0, false, body);
  }

  /** To the brace that closes a nested block. */
  method NestedBlockEnd(body: string, start: nat) returns (i: nat)
    requires start <= |body|
    ensures i == BlockEnd(body, start)
  {
    hide LexFrom, ReachFrom, BlockEnd;
    var quote, depth := NO_QUOTE, 1;
    i := start;
    LexBegins(Block, body, start);
    while i < |body| && depth > 0
      invariant i <= |body| && depth > 0 && (quote == NO_QUOTE || IsQuote(quote))
      invariant BlockEnd(body, start) == LexFrom(Block, quote, 0, depth - 1, false, body, i).0
    {
      var c := body[i];
      LexStepFrom(Block, quote, 0, depth - 1, false, body, i);
      if c == '\\' && i + 1 < |body| {
        i := i + 2;
        continue;
      }
      if quote != NO_QUOTE {
        if c == quote { quote := NO_QUOTE; }
      } else if IsQuote(c) {
        quote := c;
      } else if c == '{' {
        depth := depth + 1;
      } else if c == '}' {
        if depth == 1 { return; }
        depth := depth - 1;
      }
      i := i + 1;
    }
    LexEnds(Block, quote, 0, depth - 1, false, body);
  }

  /** To the semicolon or brace that ends a statement, and whether a string in it went bad. */
  method StatementEnd(body: string, start: nat) returns (i: nat, bad: bool)
    requires start <= |body|
    ensures (i, bad) == StatementFrom(body, start)
  {
    hide LexFrom, StatementFrom;
    var quote, depth: nat := NO_QUOTE, 0;
    i, bad := start, false;
    LexBegins(Statement, body, start);
    while i < |body|
      invariant i <= |body| && (quote == NO_QUOTE || IsQuote(quote))
      invariant StatementFrom(body, start) == LexFrom(Statement, quote, depth, 0, bad, body, i)
    {
      var c := body[i];
      LexStepFrom(Statement, quote, depth, 0, bad, body, i);
      if c == '\\' && i + 1 < |body| {
        i := i + 2;
        continue;
      }
      if quote != NO_QUOTE {
        if c == quote {
          quote := NO_QUOTE;
        } else if c == '\n' {
          quote := NO_QUOTE;
          bad := true;
        }
      } else if IsQuote(c) && depth == 0 {
        quote := c;
      } else if c == '(' {
        depth := depth + 1;
      } else if c == ')' {
        if depth > 0 { depth := depth - 1; }
      } else if depth == 0 {
        if c == ';' || c == '{' { return; }
      }
      i := i + 1;
    }
    LexEnds(Statement, quote, depth, 0, bad, body);
  }

  // ---------------------------------------------------------------- loops over lists

  lemma LayerNamesStep(layer: string, parts: seq<string>, k: nat)
    requires k <= |parts|
    ensures k == |parts| ==> LayerNames(layer, parts[k..]) == []
    ensures k < |parts| ==>
              var name := Trim(parts[k]);
              LayerNames(layer, parts[k..])
              == (if name == "" then [] else [if layer != "" then layer + "." + name else name])
                 + LayerNames(layer, parts[k + 1..])
  {
    hide Trim;
    if k < |parts| { assert parts[k..][1..] == parts[k + 1..]; }
  }

  lemma KeptStep(parts: seq<string>, k: nat)
    requires k <= |parts|
    ensures k == |parts| ==> Kept(parts[k..]) == []
    ensures k < |parts| ==>
              Kept(parts[k..]) == (if Trim(parts[k]) == "" then [] else [Trim(parts[k])]) + Kept(parts[k + 1..])
  {
    hide Trim;
    if k < |parts| { assert parts[k..][1..] == parts[k + 1..]; }
  }

  lemma NestedNames(name: string)
    ensures "media" != "layer" && "supports" != "container"
  {
    assert "media"[0] == 'm' && "layer"[0] == 'l';
  }
}
