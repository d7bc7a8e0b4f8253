/** A stylesheet from its text: markers and comments taken out, then parsed into a new sheet. */
module CssEntry {
  import opened Options
  import opened Text
  import opened CssScan
  import opened CssDecls
  import opened CssSelectors
  import opened CssReading
  import opened CssTree
  import opened CssRoundTrip
  import opened CssPlaces
  import opened CssPositions
  import opened CssComments
  import opened StylesheetParsers
  import MediaQueries

  const CDATA := "<![CDATA["
  const CDATA_END := "]]>"

  /** Every occurrence of a word, left to right, replaced by a space. */
  function Blanked(s: string, w: string): string
    requires w != ""
    decreases |s|
  {
    var n := Find(s, w);
    if n == |s| then s
    else
      assert w <= s[n..];
      s[..n] + " " + Blanked(s[n + |w|..], w)
  }

  function WithoutCdata(s: string): string {
    if Find(s, CDATA) == |s| then s else Blanked(Blanked(s, CDATA), CDATA_END)
  }

  /** A word that occurs once is blanked, and nothing else. */
  lemma OneBlanked(a: string, w: string, rest: string)
    requires w != "" && Find(a + w, w) == |a| && Find(rest, w) == |rest|
    ensures Blanked(a + w + rest, w) == a + " " + rest && Find(a + w + rest, w) == |a|
  {
    hide Find, Blanked;
    var s := a + w + rest;
    FindAhead(a, w, rest);
    assert s == a + (w + rest) && s[..|a|] == a && s[|a| + |w|..] == rest;
    BlankedStep(s, w);
    BlankedNone(rest, w);
  }

  /** The two markers around a stretch are each blanked, and nothing else. */
  lemma MarkersBlanked(a: string, b: string, c: string)
    requires Find(a + CDATA, CDATA) == |a| && Find(b + CDATA_END + c, CDATA) == |b + CDATA_END + c|
    requires Find(a + " " + b + CDATA_END, CDATA_END) == |a + " " + b| && Find(c, CDATA_END) == |c|
    ensures WithoutCdata(a + CDATA + (b + CDATA_END + c)) == a + " " + b + " " + c
  {
    hide Find, Blanked;
    var rest := b + CDATA_END + c;
    OneBlanked(a, CDATA, rest);
    Regrouped(a, b, CDATA_END, c);
    OneBlanked(a + " " + b, CDATA_END, c);
  }

  lemma Regrouped(a: string, b: string, w: string, c: string)
    ensures a + " " + (b + w + c) == a + " " + b + w + c
  {
  }

  lemma BlankedStep(s: string, w: string)
    requires w != "" && Find(s, w) + |w| <= |s|
    ensures Find(s, w) < |s| && Blanked(s, w) == s[..Find(s, w)] + " " + Blanked(s[Find(s, w) + |w|..], w)
  {
    hide Find;
  }

  lemma BlankedNone(s: string, w: string)
    requires w != "" && Find(s, w) == |s|
    ensures Blanked(s, w) == s
  {
    hide Find;
  }

  method ParseStylesheet(text: string, cd: Conditions) returns (sheet: Stylesheet)
    ensures fresh(sheet)
    ensures sheet.Contents() == ReadSheet(cd, TOP, 0, Stripped(WithoutCdata(text))).sheet
  {
    hide ReadSheet, SheetFrom, Stripped, WithoutCdata;
    var input := StripComments(WithoutCdata(text));
    var p := new Parser(cd, input, TOP, 0);
    sheet := new Stylesheet();
    SheetWhole(cd, TOP, 0, input);
    p.ParseInto(sheet);
    NothingAdded(ReadSheet(cd, TOP, 0, input).sheet);
  }

  /**
   Parsing the printed form of a tree of rules gives exactly the flat rules the tree stands for; comment
   openers may stand in its strings.
   */
  lemma PrintedTreeParses(cd: Conditions, gap: string, items: seq<Item>)
    requires Blank(gap) && Good(true, items) && Closed(gap, true, items)
    requires var text := Print(gap, items); Clean(text) && Find(text, CDATA) == |text|
    ensures ReadSheet(cd, TOP, 0, Stripped(WithoutCdata(Print(gap, items)))).sheet
            == Sheet(SheetRules(cd, TOP, 0, items).0, [], [])
  {
    hide ReadSheet, Stripped, Find, Print, Good, Closed, Clean;
    CleanStays(Print(gap, items));
    PrintedSheetReads(cd, TOP, 0, gap, items);
  }

  /** The parsed rules are those of the blocks that bear one, each from what stands around its block. */
  lemma ParsedRulesByPlace(cd: Conditions, gap: string, items: seq<Item>)
    requires Blank(gap) && Good(true, items) && Closed(gap, true, items)
    requires var text := Print(gap, items); Clean(text) && Find(text, CDATA) == |text|
    ensures var rules := ReadSheet(cd, TOP, 0, Stripped(WithoutCdata(Print(gap, items)))).sheet.rules;
            var ps := RulePlaces(cd, items);
            |rules| == |ps| && forall i :: 0 <= i < |ps| ==> Fits(cd, [], 0, items, rules[i], ps[i])
  {
    hide ReadSheet, Stripped, Find, Print, Good, Closed, Clean, SheetRules, RulePlaces, Fits, Ordered, Gives;
    PrintedTreeParses(cd, gap, items);
    FlatRulesByPlace(cd, items);
  }

  /** Media conditions judged at a viewport. */
  function AtViewport(vp: MediaQueries.Viewport, supports: string -> bool): Conditions {
    Conditions(c => MediaQueries.ConditionTrue(vp, c), supports)
  }

  /** A block under a printed width query counts at exactly the widths the query stands for, else it vanishes. */
  lemma QueryBlockApplies(vp: MediaQueries.Viewport, supports: string -> bool, cx: Context, n: nat,
                          q: seq<MediaQueries.Group>, body: seq<Item>)
    requires MediaQueries.GoodQuery(vp, q)
    ensures var cd := AtViewport(vp, supports);
            TopRules(cd, cx, n, CssTree.Group("media", MediaQueries.PrintQuery(q), body))
            == if MediaQueries.QueryHolds(vp, q) then SheetRules(cd, cx, n, body) else ([], n)
  {
    hide SheetRules, MediaQueries.QueryHolds, MediaQueries.ConditionTrue, MediaQueries.PrintQuery;
    MediaQueries.QueryMeansItsTests(vp, q);
    assert "media"[0] == 'm' && "scope"[0] == 's';
  }
}
