# The browser's hard core, modelled and proved

A Dafny model of the parts of the goosie browser whose correctness is hardest to see from the code, with
proofs over every input, every run or every interleaving.  `dafny verify dfyconfig.toml` checks all of it.

## What is modelled

* **Navigation of a tab** (`Nav*.dfy`, `FramePaths.dfy`).  Tabs, loads in flight, queued results and engine
  sessions as a transition system; every handler is one atomic step.  `FramePath` is the object the handlers
  update in place, proved to take exactly the steps of the system.  Over every interleaving each session built
  is in one place or was lost by one identified step; results of superseded loads never show; and what a command
  shows in the end, and what becomes of the trail, is told from the command on.
* **The stylesheet parser** (`Css*.dfy`).  `CssReading` says what unread text reads as; `StylesheetParsers` is the
  parser object with its cursor, sheet and layer count, proved to do that.  Every scanning loop is one setting
  of the machine in `CssScan`.  `CssTree` prints trees of nested rules and flattens them independently;
  `CssRoundTrip` connects the two.  `CssPlaces` describes the flat rules once more, block by block from the
  path to each, and `CssLayers` numbers the anonymous layers.  Around it: comment stripping, declaration
  splitting, selector nesting, the flat-body comparison, and where blocks are cut (`CssBlocks`, `CssBraces`,
  `CssLostRules`).
* **Media conditions** (`MediaQueries.dfy`): the evaluator on text and what a query of every kind of test stands for.
* **`calc()`** (`Calc*.dfy`, `ColorCalc.dfy`).  A denotational semantics over expression trees, and the two cursor
  evaluators proved equal to it and to each other.  `CalcLaws` says what each math function computes, apart from
  how, and where it departs from section 10 of CSS Values and Units Level 4.
* **The retained window image** (`Bitmaps.dfy`, `WindowModel.dfy`, `ChromeWindows.dfy`): byte arrays with an
  explicit stride, the damage-only blit, and whole runs of `Present`.
* **The screenshot driver** (`SteadyDrivers.dfy`), **the filter parser and printer** (`Filters.dfy`) and **hue
  interpolation** (`HueMixing.dfy`, section 12.4 of CSS Color Level 4).

Numbers are exact reals.  Engine sessions, fonts, painting, clocks and the network appear as parameters: a load
is one step that returns a session, an error or a download; painted chrome and popups are pixel grids; clock
readings come with each vsync.

## Where the code departs from what one would expect

Each is stated as an exact condition or a concrete case, with the code kept as it is.

* A page, an internal page or an error page whose painting or tile budget fails is given up after its session was
  built, and that session is never closed (`NavOwnership.NoLeakIffClean`, `NavOwnership.LoadLeaks`,
  `NavOwnership.ErrorPageLeaks`).
* A back/forward load in flight while a crashed session is restored over its tab displays without its step exactly
  when the restore does not load that tab itself and the saved trail does not have the step
  (`NavRestore.RestoreDropsStepIff`, `NavRestore.RestoreDropsTraversal`); only such a restore can drop a step
  (`NavProtocol.NoTrailReplaced`).
* A popup drawn into the retained image outlives itself (`WindowModel.PopupOutlivesItself`) until its pixels are
  copied again, and all of them must be (`WindowModel.WindowedIsRightIff`); closing one in fullscreen is missing
  from the damage list unless the page damages the pixels it had (`WindowModel.FullscreenReportsIff`,
  `WindowModel.FullscreenMissesClosedMenu`); the fullscreen copy is wrong for padded rows
  (`ChromeWindows.FlatCopyRightIff`).
* A trail restored without a cursor keeps all its entries in front of the next page (`NavTrails.CutBehindCursorIff`).
* A bound of `@scope` with parentheses of its own is cut at the first closing one, and the limit behind it is lost
  (`CssScopes.BothBoundsReadIff`, `CssScopes.NestedParenthesisLosesLimit`).
* A media feature whose length cannot be measured holds, although the comment at parser.go:985-988 says it must not
  (`MediaQueries.TestJudged`).
* A nested selector with `&` loses every escape pair (`CssSelectors.AmpersandKeepsEscapesIff`).
* An anonymous layer inside a named one forgets the outer name (`CssPlaces.RuleCarriesItsPath`), and its number is
  taken again after a top-level `@starting-style` (`CssLayers.StartingStyleRepeatsNumbers`).
* The brace matcher of top-level at-rules does not see strings (`CssBraces.AtRuleBodyEndsRightIff`); a quoted brace
  can lose rules behind the block (`CssBraces.QuotedBraceLosesRule`).
* Inside parentheses a quote opens no string for the scanner of rule bodies, so a brace quoted there cuts the rule
  (`CssLostRules.QuotedBraceCutsRule`), and a parenthesis quoted there starts a string behind it that may never end
  (`CssLostRules.QuotedParenthesisSwallows`); for the scanner of nested blocks it does open one, although the comment
  at parser.go:1311 rules that out, so a lone quote there takes what follows the block
  (`CssLostRules.QuoteTakesDeclaration`).  A block is cut in the right place exactly when its scanner passes over it
  (`CssBlocks.TopItemEndsRightIff`, `CssBlocks.NestedItemEndsRightIff`).
* A custom property loses its capitals (`CssPrinted.CapitalsAreLost`) and a value is cut at an `!important` inside
  a string (`CssPrinted.QuotedImportantCuts`); a declaration that is one statement loses nothing else
  (`CssBlocks.DeclarationReadsIff`).
* The strict range comparisons of media queries are strict, although the comment at parser.go:1083-1085 calls
  them inclusive (`MediaQueries.TestJudged`).
* A negative value half way between two multiples is rounded away from zero, where section 10 of CSS Values and
  Units Level 4 has the upper multiple (`CalcLaws.NearestAgreesIff`, `CalcLaws.NearestDepartsBelowZero`), and zero
  divisors and steps are refused, where it has infinities and NaN (`CalcLaws.ZerosAreRefused`).
* `round(u p, 3px)` is accepted, because the strategy keyword is recognised with its spaces dropped
  (`CalcLaws.StrategyIsSpelled`, `CalcLaws.SplitKeywordIsAStrategy`), though a tab there breaks it
  (`CalcEntry.TabbedRoundHasNoValue`); and the colour evaluator takes repeated signs
  (`ColorCalc.EvaluatorsDifferOnlyInRepeatedSigns`).
* A filter with an empty or unclosed argument does not survive formatting (`Filters.StableIff`).
* A hue mixed with a missing one is not brought into range (`HueMixing.InRangeIff`), and the longer way between
  equal hues always goes forward (`HueMixing.LongerSwapAgreesIff`).

## Model

| member | source | states |
|---|---|---|
| NavOwnership.StepConserves | cmd/goosie/navigation.go:208-320 | one handler run, session by session: what a step builds is what the session's places gain plus what the step loses; places are a live tab, an undelivered result, or the log of `Close` calls |
| NavOwnership.RunConserves | cmd/goosie/navigation.go:208-320 | the same law summed over any interleaving, from any state in which every session is in at most one place |
| NavOwnership.EverySessionAccounted | cmd/goosie/navigation.go:208-320 | from the empty browser, over every interleaving: each session built is in exactly one place or was lost by exactly one step; one never built is nowhere |
| NavOwnership.CleanLosesNothing | cmd/goosie/navigation.go:235-290 | a run loses no session exactly when no load gives up a session it has built, no applied error or download carries one and no error page is given up after its session was built |
| NavOwnership.NoLeakIffClean | cmd/goosie/document_loader.go:587-600 | the exact leak condition over whole runs: every session built is shown, queued or closed if and only if every delivery was clean; a paint or tile-budget failure after the session of a load, an internal page or an error page is built is the leak |
| NavOwnership.ErrorPageLeaks | cmd/goosie/error_page.go:136-176 | a concrete run of four steps: a load fails, its error page is given up after its session was built, and that session is in no tab, in no result and not closed |
| NavOwnership.LoadLeaks | cmd/goosie/document_loader.go:587-600 | a concrete run of four steps: a load builds its session, its painting fails, and the session is in no tab, in no result and not closed |
| NavOwnership.NoSharingNoReuse | cmd/goosie/navigation.go:208-320 | over every run no session is shown by two tabs, none shown has been closed, and none is closed twice |
| NavOwnership.ImagesReachOpenSessions | cmd/goosie/navigation.go:425-441 | a repaint for landed images never reaches a session that was closed |
| NavProtocol.StepKeepsInv | cmd/goosie/navigation.go:104-161 | every step of every interleaving keeps the protocol invariant: serials bounded, one outstanding load per loading tab, superseded loads canceled, traversal bases still at the cursor |
| NavProtocol.RunKeepsInv | cmd/goosie/navigation.go:208-320 | the invariant over whole runs |
| NavProtocol.LoadingIffOneOutstanding | cmd/goosie/navigation.go:118-131 | in every reachable state a live tab is loading exactly when one load of its current serial is outstanding, and not loading exactly when none is |
| NavProtocol.SupersededLoadsAreCanceled | cmd/goosie/navigation.go:555-568 | in every reachable state the loads whose context was canceled are exactly those whose tab is closed or whose serial was passed |
| NavProtocol.StaleForever | cmd/goosie/navigation.go:221-230 | once a result can no longer be the newest of its tab it stays so for the rest of every run |
| NavProtocol.SupersedingMakesStale | cmd/goosie/navigation.go:543-568 | a navigation, traversal, reload or stop makes everything the active tab had outstanding stale |
| NavProtocol.ClosingMakesStale | cmd/goosie/interaction.go:1075-1091 | closing a tab makes every result for it stale although its serial does not move |
| NavProtocol.StaleResultOnlyCloses | cmd/goosie/navigation.go:208-230 | applying a stale result leaves every tab as it was and only closes the session it carries |
| NavProtocol.SupersededResultNeverShows | cmd/goosie/navigation.go:208-232 | after a newer navigation, a stop or a close, an earlier load's result never changes any tab's session, URL, loading flag or history, however the run goes on |
| NavProtocol.TraversalCommits | cmd/goosie/navigation.go:324-330 | when the page of a back/forward step displays, over every run: the cursor moves by one, with only the entry landed on rewritten, exactly when the trail it finds still has the step that was peeked, and otherwise the trail stays as it is; it has the step unless a restored trail took the place of the tab's own since the load began |
| NavProtocol.NoTrailReplaced | cmd/goosie/navigation.go:722-748 | in every run without the restore of a crashed session no trail is younger than a load, so every displayed traversal commits |
| NavRestore.RestoreDropsStepIff | cmd/goosie/navigation.go:722-748 | a restore over the prompt while a back/forward load of its tab is in flight: some continuation displays that page and drops its step if and only if the restore does not itself load the tab (another saved tab is chosen, or the first one's URL is empty or a restore page) and the saved trail does not have the step |
| NavRestore.RestoredTrailFound | cmd/goosie/navigation.go:722-748 | after such a restore, however the run goes on: a result that was outstanding before it counts only if the restore does not load that tab, and then it finds the saved trail |
| NavRestore.RestoreDropsTraversal | cmd/goosie/navigation.go:722-748 | a run built from the restore's own steps: the restore link is followed and overtaken by going back, its load then restores two tabs and selects the second, the page gone back to displays and its step is dropped |
| NavProtocol.FailedTraversalKeepsHistory | cmd/goosie/navigation.go:235-290 | a traversal that fails, is canceled or turns into a download leaves the trail alone |
| NavTrails.NavigationShows | cmd/goosie/navigation.go:104-161 | from the command to the page, over every run with anything in between but a restore: the page of a navigation shows under the URL navigated to or one its loads ended at, and the trail is the one the tab had at the command, up to the cursor, with that URL behind it |
| NavTrails.ReloadShows | cmd/goosie/navigation.go:535-541 | the same for a reload: the trail is the one the tab had at the command |
| NavTrails.TraversalShows | cmd/goosie/navigation.go:459-523 | the same for back and forward: the page is that of the entry beside the cursor, the cursor stands on it, the entry is rewritten when the load ended elsewhere and all others stay |
| NavTrails.TraverseBeginsIff | cmd/goosie/navigation.go:459-476 | back and forward begin a load exactly when an entry that is not empty stands on that side of the cursor, and it is the load of that entry; else nothing changes |
| NavTrails.PageDisplays | cmd/goosie/navigation.go:292-330 | over every run, what applying a page does: its tab takes the session and URL of the result and stops loading; without the no-history mark the trail is extended, with it the trail stays or the cursor turns by one; every other tab, load and result stays |
| NavTrails.NoPageApplied | cmd/goosie/navigation.go:235-290 | a download or a canceled load only ends the loading; a failed one shows its error page when one was built; the trail stays and nothing else is touched |
| NavTrails.CutBehindCursorIff | internal/toolbar/history.go:18-26 | the extended trail is the old one cut behind the cursor with the page added, exactly when there was a cursor or no entry: a trail restored without a cursor keeps all its entries in front of the page |
| NavTrails.BackAndForth | internal/toolbar/history.go:50-82 | a step and the step back leave the trail as it was when neither page ended elsewhere |
| NavTabs.OpenedTab | internal/tabs/manager.go:148-180 | a new tab stands where it was put, the others keep their order, and the active tab stays so unless the new one is selected or the first |
| NavTabs.MovedTab | internal/tabs/manager.go:494-536 | a moved tab stands at the clamped position, the others keep their order, and the same tab is active |
| NavTabs.ClosedTab | internal/tabs/manager.go:111-146 | one tab is gone and its session closed; another tab that was active stays so, else the tab behind the closed one becomes active, or the one before it when it was last |
| NavTabs.SwitchedTab | internal/tabs/manager.go:414-428 | the tab with the id is active and nothing else changes |
| NavTabs.StoppedTab | cmd/goosie/navigation.go:546-574 | only a loading tab: its serial advances and its loading ends, and what it shows stays |
| NavTabs.ImagesRepaintIff | cmd/goosie/navigation.go:425-441 | landed images repaint exactly when their tab is live, still shows their session and has not moved on |
| NavTabs.RestoredOverPrompt | cmd/goosie/navigation.go:723-748 | the saved tabs are all there is, in order, with their URLs and trails, and the chosen one, failing it the first, is active |
| NavTabs.RestoredBehind | cmd/goosie/navigation.go:723-748 | elsewhere they stand behind the tabs there are, and the chosen one, failing it the one that was, is active |
| NavTabs.RestoreLoads | cmd/goosie/navigation.go:743-748 | then the active tab loads its URL unless that is empty or a restore page |
| NavModel.IndexOf | internal/tabs/manager.go:457-466 | the first tab with an id, or none |
| FramePaths.FramePath.TabByID | internal/tabs/manager.go:457-466 | the lookup loop finds the tab with the id, or nothing exactly when no live tab has it |
| FramePaths.FramePath.Open | internal/tabs/manager.go:148-180 | a new tab with a fresh id comes in at a position and is selected or not; the tab that was selected otherwise stays so, and the other tabs, loads and results are untouched |
| FramePaths.FramePath.MoveTab | internal/tabs/manager.go:494-536 | takes a tab out and puts it back at the clamped position; the selected tab is found again by its id |
| FramePaths.FramePath.RestoreCrashedSession | cmd/goosie/navigation.go:723-748 | the saved tabs come in over the restore prompt when that is the only tab, else behind the tabs there are; the chosen one is selected and the selected one loads: exactly a run of the protocol's steps |
| FramePaths.FramePath.SwitchTo | internal/tabs/manager.go:414-428 | selects the tab with the id and changes nothing else |
| FramePaths.FramePath.NavigateTab | cmd/goosie/navigation.go:105-161 | updates the tab object and the loads exactly as the protocol step does: cancel, next serial, loading, one new load |
| FramePaths.FramePath.TraverseTab | cmd/goosie/navigation.go:459-476 | peeks the trail and starts a traversal load, or does nothing when there is no target |
| FramePaths.FramePath.ReloadTab | cmd/goosie/navigation.go:535-541 | reloads the active tab's URL without a history entry |
| FramePaths.FramePath.StopTab | cmd/goosie/navigation.go:546-574 | only while loading: serial on, loading off, the stored load canceled |
| FramePaths.FramePath.CloseTab | cmd/goosie/interaction.go:1075-1091 | cancels the stored load, closes the session shown and removes the tab, in one step and without a new serial |
| FramePaths.FramePath.RemoveAt | internal/tabs/manager.go:111-146 | takes one tab out and picks the next active index |
| FramePaths.FramePath.Deliver | cmd/goosie/navigation.go:143-160 | a load ends and its result joins the channel with its tab, serial and traversal data |
| FramePaths.FramePath.ApplyNavResult | cmd/goosie/navigation.go:208-230 | takes the head of the channel: a vanished tab or an old serial only releases the session |
| FramePaths.FramePath.ApplyToTab | cmd/goosie/navigation.go:231-330 | applies the newest result to its tab: download, error page, or document with history |
| FramePaths.FramePath.CommitHistory | cmd/goosie/navigation.go:321-330 | pushes the URL unless the load asked not to, and commits a traversal that is still valid |
| FramePaths.FramePath.ReplaceSession | cmd/goosie/navigation.go:300-320 | shows the new session and closes the replaced one unless it is the same |
| FramePaths.FramePath.ShowErrorPage | cmd/goosie/navigation.go:262-290 | shows an error page that was built, closing the session it replaces |
| FramePaths.FramePath.ApplyImageResult | cmd/goosie/navigation.go:425-441 | images repaint their tab exactly when it still shows that session under that serial |
| CssRoundTrip.PrintedSheetReads | internal/css/parser.go:199-250 | reading the printed form of any tree of nested rules and @media, @supports, @layer, @container, @scope and @starting-style blocks, printed with any white space, gives exactly the flat rules the tree stands for and the same count of anonymous layers, whenever each block is passed over by the scanner that looks for its end and each declaration is one statement |
| CssRoundTrip.PrintedBlockReads | internal/css/parser.go:1350-1531 | the same inside a style rule: the declarations found are the rule's own, the rules found are those nested in it, selectors combined along the path |
| CssRoundTrip.PrintedTopItemReads | internal/css/parser.go:254-552 | one printed top-level item, whatever text follows it: read to its end and to its own flat rules |
| CssRoundTrip.PrintedNestedItemReads | internal/css/parser.go:1558-1726 | one printed declaration, nested rule or nested at-rule, whatever follows it |
| CssEntry.PrintedTreeParses | internal/css/parser.go:82-94 | the whole entry path, markers and comments stripped first: the sheet parsed from a printed tree holds exactly its flat rules |
| CssEntry.ParseStylesheet | internal/css/parser.go:82-94 | builds a new sheet that holds what the stripped text reads as |
| CssEntry.MarkersBlanked | internal/css/parser.go:82-94 | the two CDATA markers around a stretch are each replaced by a space, and nothing else |
| CssEntry.QueryBlockApplies | internal/css/parser.go:496-552 | a block under a printed media query contributes its rules in exactly the windows the query stands for, and vanishes in the others |
| CssEntry.ParsedRulesByPlace | internal/css/parser.go:82-94 | the rules of the sheet parsed from a printed tree are, one for one and in reading order, those of the blocks that bear a rule, each made from what stands around its block |
| CssPlaces.FlatRulesByPlace | internal/css/parser.go:199-250 | in any tree: as many rules as blocks that are entered all the way down and bear one; the i-th rule is that of the i-th such block in reading order, selectors crossed along its path, own declarations, dotted layers, joined queries, scope and starting mark |
| CssPlaces.RuleCarriesItsPath | internal/css/parser.go:254-552 | the rule of any block, wherever it stands: its selectors, its own declarations, the layer names since the last anonymous layer joined with dots, the queries joined with " and ", the innermost scope, and whether a @starting-style stands around it |
| CssScopes.BothBoundsReadIff | internal/css/parser.go:412-437 | `(root) to (limit)`, with any blanks between, is read as its root and its limit if and only if neither holds a closing parenthesis |
| CssScopes.RootReadsIff | internal/css/parser.go:412-437 | `(root)` alone is read as that root and no limit if and only if it holds no closing parenthesis |
| CssScopes.LimitReadsIff | internal/css/parser.go:412-437 | `to (limit)` alone is read as no root and that limit, under the same condition |
| CssScopes.NoBounds | internal/css/parser.go:412-437 | a prelude without a closed group has neither |
| CssScopes.BoundsAre | internal/css/parser.go:412-437 | for every prelude the bounds read are those told from the text around its first groups, which are what `CssPlaces.RuleCarriesItsPath` puts on a scoped rule |
| CssScopes.WrittenBoundsIff | internal/css/parser.go:412-437 | a prelude written from two bounds, an empty one left out, stands for exactly those bounds if and only if neither holds a closing parenthesis |
| CssScopes.NestedParenthesisLosesLimit | internal/css/parser.go:412-437 | `(.a:not(.b)) to (.c)` has its root cut at the inner parenthesis and no limit |
| CssLayers.NumbersGrow | internal/css/parser.go:290-296 | of two anonymous layers entered anywhere in any tree the one read later has the larger number, unless the earlier one lies in a top-level @starting-style and the later one outside it |
| CssLayers.NumbersDiffer | internal/css/parser.go:290-296 | without top-level @starting-style, any two anonymous layers entered at different places take different numbers |
| CssLayers.InsideLiesUnder | internal/css/parser.go:290-326 | every rule inside an anonymous layer, down to the next anonymous layer, at the top level or nested in style rules, lies under that layer's number |
| CssLayers.AnonymousLayersApart | internal/css/parser.go:290-326 | rules of two different anonymous layers never share a layer, whether the layers stand side by side, in different blocks, in style rules or one inside the other |
| CssLayers.UnderOnlyOne | internal/css/parser.go:290-296 | a layer path lies under at most one anonymous layer number |
| CssLayers.StartingStyleRepeatsNumbers | internal/css/property.go:158-175 | a concrete tree in which a layer inside a top-level @starting-style and one after it take the same number |
| CssFlat.FlatBodyReadsFlat | internal/css/parser.go:1350-1531 | on a body with no brace outside strings and parentheses, no statement that is an at-rule or comment, and no raw line break in a string, the nesting-aware reader returns exactly what the flat declaration parser returns and no rules |
| CssReading.ReadStatement | internal/css/parser.go:199-250 | every top-level statement consumes at least one byte and never passes the end, malformed and unterminated ones included |
| CssReading.ReadSheet | internal/css/parser.go:199-250 | reading a sheet consumes all of it; bodies are read as strictly shorter texts |
| CssReading.ReadBlock | internal/css/parser.go:1350-1531 | reading a block consumes all of it |
| StylesheetParsers.Parser.ParseInto | internal/css/parser.go:199-250 | the cursor loop: ends exactly at the end of the text, appends to the caller's sheet what the unread text reads as, and leaves the count of anonymous layers it should |
| StylesheetParsers.Parser.ParseStatement | internal/css/parser.go:205-249 | one turn of the loop strictly advances the cursor, never past the end, and stamps the surrounding context on a rule |
| StylesheetParsers.Parser.ParseMediaRule | internal/css/parser.go:496-552 | the body joins the sheet when the condition holds, else only the cursor moves |
| StylesheetParsers.Parser.ParseSupportsRule | internal/css/parser.go:559-615 | likewise for @supports |
| StylesheetParsers.Parser.ParseLayerRule | internal/css/parser.go:254-326 | layer statements record dotted names; blocks are parsed under the dotted or a freshly numbered layer |
| StylesheetParsers.Parser.DeclaredLayers | internal/css/parser.go:274-286 | the names of a layer statement, trimmed, empties dropped, prefixed by the current layer |
| StylesheetParsers.Parser.ParseContainerRule | internal/css/parser.go:330-387 | the body is parsed under the query joined to the current one |
| StylesheetParsers.Parser.ParseScopeRule | internal/css/parser.go:391-472 | the body is parsed under the root and limit of the prelude |
| StylesheetParsers.Parser.ParseFontFaceRule | internal/css/parser.go:620-659 | a block with declarations becomes one font face |
| StylesheetParsers.Parser.ParseStartingStyleRule | internal/css/property.go:130-176 | the rules of a closed block are appended marked; its inner count, layer names and font faces are dropped |
| StylesheetParsers.Parser.ParseDescriptors | internal/css/property.go:33-58 | the cursor of @property and @font-palette-values: a missing brace leaves it in front of the byte found, an unclosed block takes the rest |
| StylesheetParsers.Parser.SkipAtRule | internal/css/parser.go:1198-1217 | an unknown at-rule is passed over to its semicolon or closing brace |
| StylesheetParsers.Parser.AtRuleName | internal/css/parser.go:476-490 | reads the keyword and puts the cursor back |
| StylesheetParsers.Parser.SkipWhitespace | internal/css/parser.go:1176-1196 | passes blanks and comments; of an unclosed comment the last byte stays unread |
| StylesheetParsers.Parser.MatchBrace | internal/css/parser.go:300-316 | stops at the brace that closes the body, counting braces and blind to strings |
| StylesheetParsers.Parser.SelectorEnd | internal/css/parser.go:1269-1287 | stops at the first brace outside strings and escapes, a line break ending a string |
| StylesheetParsers.Parser.RuleBodyEnd | internal/css/parser.go:1295-1332 | stops at the brace that closes the rule; quotes inside parentheses are no strings |
| StylesheetParsers.Parser.ParseRule | internal/css/parser.go:1266-1348 | one top-level rule and the rules nested in it, without a context yet |
| StylesheetParsers.Parser.ParseBlockWithRules | internal/css/parser.go:1350-1531 | the block loop returns the declarations and nested rules the body reads as, and moves only the count |
| StylesheetParsers.Parser.ParseNestedAtRule | internal/css/parser.go:1375-1440 | a nested at-rule: keyword, prelude and body cut out string-aware |
| StylesheetParsers.Parser.HandleNestedAtRule | internal/css/parser.go:1558-1726 | its own declarations make a rule with the parent selectors under the inner context, followed by the nested rules; a false condition or an unknown name gives nothing |
| StylesheetParsers.Parser.ParseDeclarationOrRule | internal/css/parser.go:1442-1529 | up to a semicolon a declaration, up to a brace a nested rule, to the end a declaration only with a colon |
| StylesheetParsers.Parser.ParseNestedStyleRule | internal/css/parser.go:1533-1556 | kept only when it declares something itself; deeper rules follow |
| StylesheetParsers.PreludeEnd | internal/css/parser.go:1381-1399 | stops at the brace or semicolon that ends a nested prelude |
| StylesheetParsers.NestedBlockEnd | internal/css/parser.go:1410-1432 | stops at the brace that closes a nested block, outside strings and escapes |
| StylesheetParsers.StatementEnd | internal/css/parser.go:1442-1478 | stops at the semicolon or brace that ends a statement and tells whether a line break broke a string in it |
| CssBraces.AtRuleBodyEndsRightIff | internal/css/parser.go:515-531 | the body of a top-level at-rule ends where the string-aware scanner of nested blocks ends it exactly when its braces match, those in strings counted like any other |
| CssBraces.UnmatchedSwallows | internal/css/parser.go:496-552 | an @media block whose condition is false and whose braces, strings ignored, do not close takes the whole rest of the sheet with it |
| CssBraces.QuotedBraceLosesRule | internal/css/parser.go:496-552 | the sheet `@media x{a{b:"{";}}c{d:e;}` where x is false: nothing is read, although the rule for c is meant |
| CssBraces.PassesIffBracesMatch | internal/css/parser.go:300-316 | the scanner of at-rule bodies passes over a text exactly when its braces match, those in strings counted like any other |
| CssBlocks.TopItemEndsRightIff | internal/css/parser.go:1295-1332 | a printed top-level rule or grouping rule with anything behind it is read to its own closing brace if and only if its scanner passes over its body: the one of rule bodies for a rule, the one of at-rules for a block |
| CssBlocks.NestedItemEndsRightIff | internal/css/parser.go:1410-1432 | a printed nested rule or at-rule is read to its own closing brace if and only if the scanner of nested blocks passes over its body |
| CssBlocks.DeclarationReadsIff | internal/css/parser.go:1442-1529 | a printed declaration with anything behind it is read as itself and nothing more if and only if it is one statement (no semicolon or opening brace outside strings and parentheses, both closed, no line break in a string), its name has no capitals and its value no `!important` |
| CssBlocks.ScannersAgreeIff | internal/css/parser.go:1295-1332 | the scanners of top-level and of nested blocks see the same strings and braces at every byte of a text if and only if no quote stands inside parentheses and no line break inside a string |
| CssBlocks.AgreeingEnds | internal/css/parser.go:1410-1432 | on such a text both find the same end |
| CssBlocks.EscapePassed | internal/css/parser.go:1273-1276 | an escaped byte, whatever it is, is passed over by every scanner that knows strings |
| CssBlocks.StringPassed | internal/css/parser.go:1277-1287 | so is a string of either quote |
| CssBlocks.LineBreakEndsString | internal/css/parser.go:1442-1478 | in selectors, rule bodies and statements a line break ends a string and marks it bad |
| CssLostRules.QuotedBraceCutsRule | internal/css/parser.go:1295-1332 | `a{b:url("}");...}...`, for any plain selector and name and any items behind it without double quotes, backslashes and line breaks: the block is cut at the quoted brace, the rest of it and every later rule are lost |
| CssLostRules.QuotedParenthesisSwallows | internal/css/parser.go:1295-1332 | `a{b:url(')');...}...`, for any plain selector and name and any items behind it without single quotes, backslashes, line breaks and `!`: the value of b takes the whole rest of the sheet |
| CssLostRules.QuoteTakesDeclaration | internal/css/parser.go:1410-1432 | `a{b{c:url(');}d:e;}...`, for any plain selectors and names, any good declaration behind the nested block without quotes and backslashes, and any later items that read right: the nested block takes the declaration behind it, which lands in the rule for `a b` under a name with a stray brace; the later rules are read right |
| CssPrinted.ClearIsClosed | internal/css/parser.go:1295-1332 | a tree is such that every block is passed over whenever each value is passed over by the scanners of the blocks around it |
| CssPrinted.PlainIsWritable | internal/css/parser.go:1871-1910 | any trimmed text without strings, escapes, braces and semicolons and with closed parentheses is passed over by every scanner that meets values |
| CssPrinted.QuotedArgumentIsWritable | internal/css/parser.go:1871-1910 | so is a function of one quoted argument, as in `url("a.png")`, when the parentheses in it match |
| CssSelectors.SplitSelectors | internal/css/parser.go:1811-1830 | splits on commas at parenthesis depth exactly zero |
| CssSelectors.ListIsLossless | internal/css/parser.go:1811-1830 | the pieces joined with commas are the text |
| CssSelectors.FirstCutIs | internal/css/parser.go:1811-1830 | the first cut is the first comma at depth exactly zero, depths counted below zero |
| CssSelectors.ExpandSingleNestedSelector | internal/css/parser.go:1754-1809 | ampersands become the parent; without one, pseudo-classes are glued and all else is a descendant |
| CssSelectors.ExpandNestedSelectors | internal/css/parser.go:1729-1751 | nested selector by nested selector, parent by parent, empties dropped |
| CssSelectors.AmpersandKeepsEscapesIff | internal/css/parser.go:1776-1800 | with an ampersand present, the expansion is the faithful substitution exactly when the nested selector holds no escape pair |
| CssSelectors.EscapeIsDropped | internal/css/parser.go:1780-1783 | a concrete nested selector whose escape is lost |
| CssSelectors.NestedIsCross | internal/css/parser.go:1729-1751 | without strings and escapes the expansion is the cross product of the two lists |
| CssSelectors.CrossPlaces | internal/css/parser.go:1729-1751 | every pair of a parent and a nested selector stands once in the cross product, at a known place |
| CssNesting.PiecesExpand | internal/css/parser.go:1754-1809 | any nested selector made of plain stretches, escapes and closed strings: with an ampersand in a plain stretch, the parent replaces each of those and every string is kept byte for byte; with none, strings and escapes included, it is glued to a leading colon or a descendant of its parent |
| CssNesting.NestedBySeen | internal/css/parser.go:1729-1751 | lists of such selectors: every pair of a parent and a nested selector stands once, at a known place, nested as above |
| CssNesting.ReplacedIs | internal/css/parser.go:1789-1800 | replacing takes out every ampersand and nothing else |
| CssDecls.SplitDeclarations | internal/css/parser.go:1871-1910 | the cutting loop returns the pieces between the cuts |
| CssDecls.SplitIsLossless | internal/css/parser.go:1871-1910 | the pieces joined with semicolons give the text back, up to one trailing semicolon, which is missing exactly when the last byte is a cut |
| CssDecls.CutsAreTopLevelSemicolons | internal/css/parser.go:1871-1910 | a byte is cut at exactly when it is a semicolon outside strings, escapes and parentheses in the text read from its beginning |
| CssDecls.PiecesAreWhole | internal/css/parser.go:1871-1910 | cutting any non-empty piece again gives just that piece |
| CssDecls.ParseDeclarations | internal/css/parser.go:1832-1861 | reads each piece: lower-cased name, trimmed value, `!important` cut off |
| CssDecls.NoColonNothing | internal/css/parser.go:1832-1861 | a piece without a colon declares nothing |
| CssDecls.DropEscapedNewlines | internal/css/parser.go:1242-1264 | drops backslash and line-break pairs inside strings only |
| CssDecls.LineBreakDropped | internal/css/parser.go:1242-1264 | in a string a backslash goes with the line feed, carriage return or both behind it |
| CssDecls.ByteKept | internal/css/parser.go:1242-1264 | every other byte of a string stays, and its own quote ends it |
| CssDecls.NothingDroppedOutside | internal/css/parser.go:1242-1264 | outside strings nothing is dropped |
| CssPrinted.WrittenReadsAs | internal/css/parser.go:1832-1861 | a written declaration that is one piece of a list comes back with its name in lower case and its value cut before its first `!important` |
| CssPrinted.WrittenReadsIff | internal/css/parser.go:1832-1861 | a declaration list of one written declaration is read back as that declaration exactly when it is not cut, the name has no capitals and the value holds no `!important`, not even in a string |
| CssPrinted.CapitalsAreLost | internal/css/parser.go:1854-1856 | the custom property `--Main` comes back as `--main` |
| CssPrinted.QuotedImportantCuts | internal/css/parser.go:1849-1852 | `content:"!important"` comes back as an important declaration of one quote |
| CssPrinted.QuotedIsWritable | internal/css/parser.go:1871-1910 | a quoted text without quotes, escapes, line breaks, braces and semicolons is passed over whole by every scanner that meets values |
| CssComments.StripComments | internal/css/parser.go:123-165 | the scan keeps strings and bytes, makes a closed comment one space and drops an unclosed one with the rest |
| CssComments.StripTwice | internal/css/parser.go:123-165 | stripping is idempotent |
| CssComments.StrippedIsClean | internal/css/parser.go:123-165 | no comment opener is left outside strings |
| CssComments.StringsSurvive | internal/css/parser.go:123-165 | the strings of the result are those of the input outside comments, byte for byte and in order |
| CssComments.PiecesAreTheText | internal/css/parser.go:123-165 | the strings, comments and bytes the scan tells apart are the whole text |
| CssComments.CommentIsSpace | internal/css/parser.go:123-165 | a closed comment, whatever stands in it, is one space, and stripping goes on behind it |
| CssComments.OpenCommentTakesRest | internal/css/parser.go:123-165 | an unclosed one takes the rest |
| CssComments.StringStays | internal/css/parser.go:123-165 | a string stays, comments in it and all, and stripping goes on behind it |
| CssComments.EscapeInString | internal/css/parser.go:123-165 | an escaped byte ends no string |
| CssComments.ByteStays | internal/css/parser.go:123-165 | a byte that opens neither stays |
| CssStatements.KeywordIsLowered | internal/css/parser.go:476-490 | the keyword of an at-rule is read in whatever case it is written |
| CssStatements.LayerStatementReads | internal/css/parser.go:274-286 | `@layer a, b;` with any white space and anything behind it declares exactly its layers, in order, each under the current one |
| CssStatements.LeafReads | internal/css/parser.go:1198-1217 | a block of an at-rule without rules, in any case and with any prelude, is passed over to its own closing brace; a font face is its declarations, or nothing when it has none |
| CssStatements.StatementSkipped | internal/css/parser.go:1198-1217 | an at-rule without a block, in any case and with any prelude, is passed over with its semicolon |
| CssStatements.DescriptorsRead | internal/css/property.go:33-58 | @property and @font-palette-values add no rule: a closed block is passed over, and without one the semicolon is left unread |
| CssStatements.GroupRead | internal/css/parser.go:496-552 | a grouping rule with any text behind its brace: the body is that text up to the closing brace the matcher finds, all of it when there is none; an unclosed @starting-style is dropped |
| CssLostRules.RuleRead | internal/css/parser.go:1266-1348 | a rule with any text behind its brace: the block is that text up to where the scanner of rule bodies stops, all of it when it does not |
| CssLostRules.NestedRead | internal/css/parser.go:1442-1556 | the same for a nested rule under its parent |
| CssStatements.FontFaceReads | internal/css/parser.go:620-659 | a printed font face becomes one face of exactly the declarations it was printed from |
| CssStatements.DeclaredPrinted | internal/css/parser.go:1832-1910 | a printed list of declarations, with any white space, is read as exactly those, in order |
| CssStatements.CommentSkippedInBlock | internal/css/parser.go:1358-1373 | a comment between the items of a block leaves no trace |
| CssStatements.CommentSkipped | internal/css/parser.go:1176-1196 | nor does one between top-level statements |
| CssStatements.OpenCommentLeavesLast | internal/css/parser.go:1176-1196 | an unclosed one leaves its last byte to be read |
| CssStatements.StatementThenSheet | internal/css/parser.go:199-250 | a sheet holds the rules, layer names and font faces of its statements, each list in reading order |
| MediaQueries.SplitOutsideParens | internal/css/parser.go:794-818 | splits on ` or ` outside parentheses, trimming the pieces |
| MediaQueries.SplitTopLevel | internal/css/parser.go:1154-1174 | splits on a separator outside parentheses and brackets |
| MediaQueries.FirstSeparatorIs | internal/css/parser.go:1154-1174 | the first cut is the first separator outside parentheses and brackets, whatever the text |
| MediaQueries.TopLevelIsLossless | internal/css/parser.go:1154-1174 | the pieces joined with the separator are the text |
| MediaQueries.FirstOrIs | internal/css/parser.go:794-818 | the first alternative ends at the first ` or ` outside parentheses |
| MediaQueries.TestJudged | internal/css/parser.go:880-951 | each written test is judged by what it stands for: widths and device widths in every form and comparison, dark or light, portrait (never) or landscape (always), reduced motion (never), contrast, pixel ratio, media types with or without `only` (all but print), and features the parser does not know, cannot measure or is only asked for (always) |
| MediaQueries.AlternativeJudged | internal/css/parser.go:880-951 | tests joined by `and` are true together |
| MediaQueries.AlternativesJudged | internal/css/parser.go:870-880 | alternatives joined by `or` are true when one is |
| MediaQueries.GroupJudged | internal/css/parser.go:853-868 | a group with or without a leading `not` |
| MediaQueries.QueryMeansItsTests | internal/css/parser.go:844-951 | a printed query that mixes any of these tests with `and`, `or`, `not` and commas is judged true in exactly the windows it stands for (Media Queries Level 4, sections 2 and 3), lengths and ratios read by parameters |
| MediaQueries.CapitalsIgnored | internal/css/parser.go:853-868 | capitals make no difference |
| CalcTokens.CalcTokens | internal/css/calc.go:228-249 | the tokeniser loop returns the tokens of the text, all of them words or single punctuation bytes |
| CalcTokens.TokensOfJoin | internal/css/calc.go:652-654 | joining tokens with spaces and tokenising again gives the same tokens |
| CalcCursor.PartsWeight | internal/css/calc.go:360-383 | every argument of a call, joined to text and tokenised again, has strictly fewer tokens than the text the call stands in, so evaluation ends |
| CalcCorrect.SumReads | internal/css/calc.go:263-355 | wherever the tokens of a tree stand, the cursor reads that tree with its meaning, left to right |
| CalcCorrect.SumFinds | internal/css/calc.go:263-355 | whatever stretch the cursor accepts is the print of some tree with the value found |
| CalcCorrect.ScanReads | internal/css/calc.go:360-383 | the argument scan of a printed call finds exactly its arguments |
| CalcLaws.ExtremesAre | internal/css/calc.go:191-203 | min and max accept every list but the empty one, with exactly the value that is in the list and bounds it |
| CalcLaws.ClampIs | internal/css/calc.go:402-418 | clamp gives exactly the value of [lo, hi] nearest to its middle argument, and lo when lo > hi |
| CalcLaws.AbsAndSignAre | internal/css/calc.go:549-575 | abs gives exactly the non-negative one of v and -v; sign tells the three signs apart |
| CalcLaws.ElementaryIs | internal/css/calc.go:419-548 | the functions of the math package are themselves on the number of arguments and the range each is defined for, and refuse everything else |
| CalcLaws.ModIs | internal/css/calc.go:604-616 | mod accepts every non-zero divisor, with exactly the value from zero up to the divisor that is a whole number of divisors away |
| CalcLaws.RemIs | internal/css/calc.go:617-631 | rem accepts every non-zero divisor, with exactly the value smaller than the divisor, signed like the dividend, a whole number of divisors away |
| CalcLaws.RoundIs | internal/css/calc.go:634-651 | each strategy gives exactly the multiple of the step it stands for: the next above, the next below, the next toward zero, the nearest with ties away from zero |
| CalcLaws.NearestUpwardIs | internal/css/calc.go:646-648 | the nearest multiple as section 10 of CSS Values and Units Level 4 has it, ties to the upper one: the computed form is exactly that value |
| CalcLaws.NearestAgreesIff | internal/css/calc.go:646-648 | the code rounds to the nearest multiple as the section does exactly when the value is not negative and half way between two multiples |
| CalcLaws.NearestDepartsBelowZero | internal/css/calc.go:646-648 | round(-2.5) is -3, where the section has -2 |
| CalcLaws.ZerosAreRefused | internal/css/calc.go:601-631 | mod, rem, round and division refuse a zero divisor or step, where the section has infinities and NaN, and refuse nothing else |
| CalcLaws.StrategyIsSpelled | internal/css/calc.go:576-585 | a first argument of round is a strategy exactly when its tokens, with nothing between them, spell a keyword |
| CalcLaws.StrategyIff | internal/css/calc.go:576-585 | a text is one of the four strategies exactly when it is its name, in any case and with any spaces in and around it |
| CalcLaws.SplitKeywordIsAStrategy | internal/css/calc.go:576-585 | the two tokens of `u p` are the strategy up, where the section takes one identifier only |
| CalcCorrect.CombineDenotes | internal/css/calc.go:385-631 | calc, min, max, clamp, abs, sign, mod, rem and round applied to argument texts give the meaning of the argument trees |
| CalcCorrect.EvalMeansDenote | internal/css/calc.go:210-631 | every printed tree over + - * / parentheses and the math functions evaluates to its meaning, errors included |
| CalcCorrect.EvalAcceptsExactly | internal/css/calc.go:210-631 | a text is accepted with a value exactly when its tokens are the print of a tree with that meaning |
| CalcEntry.CalcEvaluatesItsMeaning | internal/css/calc.go:51-66 | the same for `calc()` from its text, arguments split off first |
| CalcEntry.FunctionEvaluatesItsMeaning | internal/css/calc.go:51-66 | the same for every math function: applied to its argument text it has value v exactly when the call is the print of a tree with meaning v; for round, when its strategy is spelled the same in the text and in its tokens |
| CalcEntry.SpacesAreTheSame | internal/css/calc.go:576-585 | the strategy is spelled the same whenever the blanks of the first argument are spaces |
| CalcEntry.TabBreaksStrategy | internal/css/calc.go:576-585 | with a tab between u and p the text is no strategy, although its tokens are |
| CalcEntry.TabbedRoundHasNoValue | internal/css/calc.go:576-603 | `round(u<tab>p, 5, 4)` has no value, though the call is the print of a tree that means 8 |
| CalcUnits.LiteralIsWorth | internal/css/calc.go:660-743 | what every numeral with a unit, in any case, is worth to the evaluator: so many times one of the unit, where an inch is 96 pixels, 72 points, 6 picas, 2.54 centimetres and 25.4 millimetres, an em or ex the font size and two ch, a rem the root size or 16, a hundred vw, vh, vmin and vmax with their kin the width, height, smaller and larger of them, a turn 360 degrees, 400 gradians and twice pi, and a hundred percent the base where percentages are allowed |
| CalcUnits.ConstantsAre | internal/css/calc.go:660-676 | pi and e, in any case, are the two constants |
| CalcUnits.RefusedIff | internal/css/calc.go:660-743 | a word is refused if and only if it is neither of these and no numeral with such a unit |
| CalcUnits.PlacesShift | internal/css/calc.go:668-686 | a numeral with k places, times ten to the k, is the whole number its digits spell |
| CalcUnits.NumeralsOnly | internal/css/calc.go:668-686 | nothing but digits with at most one point among them is a numeral |
| CalcUnits.DefaultsAre | internal/css/calc.go:51-66 | a font, root or viewport size that is not positive counts as 16, 16, 1440 and 900 |
| CalcExprs.CalcExpr.Sum | internal/css/calc.go:263-284 | the sum loop moves its cursor to where the sum ends with the sum's value |
| CalcExprs.CalcExpr.Product | internal/css/calc.go:287-310 | the product loop, division by zero refused |
| CalcExprs.CalcExpr.Factor | internal/css/calc.go:313-327 | signs and atoms |
| CalcExprs.CalcExpr.Atom | internal/css/calc.go:327-355 | a parenthesis, a call, or a number with its unit |
| CalcExprs.CalcExpr.Call | internal/css/calc.go:360-383 | collects the arguments and applies the function |
| CalcExprs.CalcExpr.CollectArgs | internal/css/calc.go:360-380 | cuts the argument texts at commas of depth one |
| CalcExprs.CalcExpr.FoldOne | internal/css/calc.go:191-203 | the smallest or largest of the argument values: it is one of them and bounds them all |
| CalcExprs.CalcExpr.CombineClamp | internal/css/calc.go:402-418 | capped, then floored |
| CalcExprs.CalcExpr.CombineRound | internal/css/calc.go:576-603 | the multiple of the step that the strategy keyword, recognised on the joined text, asks for |
| CalcExprs.CalcExpr.CombineMod | internal/css/calc.go:604-631 | mod lies between zero and the divisor, rem is smaller than it and signed like the dividend, both a whole number of divisors away; a zero divisor is refused |
| CalcExprs.SplitArgsLoop | internal/css/value.go:162-181 | the property function's text split on commas outside parentheses |
| CalcExprs.EvalFunc | internal/css/calc.go:51-66 | defaults filled in, arguments split, function applied |
| ColorCalc.CalcParser.ParseExpr | internal/css/color5.go:858-880 | the second parser's sums |
| ColorCalc.CalcParser.ParseTerm | internal/css/color5.go:882-907 | its products |
| ColorCalc.CalcParser.ParseFactor | internal/css/color5.go:909-951 | its signs, parentheses, variables and numbers |
| ColorCalc.EvaluatorsDifferOnlyInRepeatedSigns | internal/css/color5.go:858-951 | on plain decimal arithmetic calc.go accepts with a value exactly when color5.go accepts with that value and no sign before a factor is followed by another sign |
| ColorCalc.LiteralIs | internal/css/color5.go:930-951 | the second evaluator's literals: a variable is its value, and a number counts for itself with or without `%` or `deg` |
| Bitmaps.Bitmap.constructor | internal/frame/bitmap.go:105-112 | a zeroed bitmap with tight rows; no area, no pixels |
| Bitmaps.CopyBitmapRegion | cmd/goosie/toolbar_window.go:480-516 | pixel by pixel: the source's pixel where the clipped rectangle lands, the old one elsewhere, and no byte outside it is written, padding included; a missing bitmap leaves everything alone |
| Bitmaps.BitmapRegionEqual | cmd/goosie/toolbar_window.go:461-476 | true exactly when both bitmaps exist, agree in width, hold the rows and show the same pixels in them |
| WindowModel.BlitIsRightIff | cmd/goosie/toolbar_window.go:394-438 | the damage-only blit equals full recomposition exactly when the damage covers every pixel the retained image no longer has right; a full copy always does |
| WindowModel.PresentedIsRecomposed | cmd/goosie/toolbar_window.go:348-456 | over every run of calls, windowed and fullscreen mixed, whose damage is complete, the presented image is chrome over content after every call with no popup drawn since the last full copy |
| WindowModel.PixelIsRecomposed | cmd/goosie/toolbar_window.go:348-456 | the same pixel by pixel and with popups: over every such run a pixel shows what full recomposition shows there, unless a popup was drawn over it since it was last copied |
| WindowModel.PopupOutlivesItself | cmd/goosie/toolbar_window.go:440-453 | a concrete windowed run with complete damage whose last image, drawn without popups, shows the colour of one that is gone |
| WindowModel.WindowedIsRightIff | cmd/goosie/toolbar_window.go:394-453 | after a call that showed popups with given rectangles over a right image, a windowed call without popups presents the full recomposition, however the popups were painted, if and only if it copies again each of their pixels: a full copy, the chrome, or the damage |
| WindowModel.MergedDamageCovers | cmd/goosie/toolbar_window.go:402-453 | over every such run the damage handed to the platform covers every pixel that differs between consecutive images of one size, unless the later call is fullscreen and a popup was drawn over the pixel since it was last copied |
| WindowModel.FullscreenReportsIff | cmd/goosie/toolbar_window.go:350-367 | after a call that showed popups with given rectangles over a right image, a fullscreen call reports every pixel it changes, however the popups were painted, exactly when each pixel of those rectangles is damaged or under a new popup |
| WindowModel.WindowedDamageCovers | cmd/goosie/toolbar_window.go:402-453 | a windowed call reports every pixel it changes, whatever was retained before |
| WindowModel.MergedCoversIff | cmd/goosie/toolbar_window.go:402-453 | the list handed to the platform covers a pixel exactly when a popup lies over it, the content under it is damaged, it is the toolbar's and the toolbar changed, or everything was copied anew |
| WindowModel.TopmostShows | cmd/goosie/toolbar_window.go:440-453 | of the popups over a pixel the last one shows |
| WindowModel.FullscreenMissesClosedMenu | cmd/goosie/toolbar_window.go:350-367 | a concrete fullscreen run whose damage list misses the pixel a closed menu had covered |
| ChromeWindows.ChromeWindow.Present | cmd/goosie/toolbar_window.go:348-456 | updates the retained bitmaps to the model's next image and returns the model's damage list, for the two copy modes |
| ChromeWindows.ChromeWindow.ComposeOut | cmd/goosie/toolbar_window.go:394-438 | chrome rows where they changed, then all content or only the damaged part |
| ChromeWindows.ChromeWindow.PresentBare | cmd/goosie/toolbar_window.go:350-367 | the fullscreen copy, right when rows carry no padding or there is one row |
| ChromeWindows.ChromeHeightIs | cmd/goosie/toolbar_window.go:337-346 | the chrome is 76 rows at scale 1, 104 with the bookmarks bar, and none in fullscreen or standalone |
| ChromeWindows.FlatCopyRightIff | cmd/goosie/toolbar_window.go:350-367 | the flat fullscreen copy is right for every picture exactly when the stride is tight or there is a single row |
| SteadyDrivers.SteadyDriver.Pump | cmd/goosie/drive.go:270-312 | one vsync: the turn's change resets the settle count, the frame is counted, then readiness is decided |
| SteadyDrivers.SteadyDriver.Decide | cmd/goosie/drive.go:322-362 | the readiness decision on the driver's fields |
| SteadyDrivers.RunEndsIff | cmd/goosie/drive.go:270-362 | a run ends at a vsync exactly when the floor is met and the watchers are missing, the deadline passed, work on order has stalled beyond the budget, or none is on order and the ceiling is reached or this is the second idle answer since the page last changed or was busy |
| SteadyDrivers.DriverEndsIff | cmd/goosie/drive.go:206-222 | the same for the driver as it is made for a number of frames: never before them, and then at 25 seconds, at work that stands still for more than 5, at 8 times the frames, or settled |
| SteadyDrivers.SettledCountsIdles | cmd/goosie/drive.go:353-361 | the settle field says whether one, or two, idle answers were given with no page change or busy answer since |
| SteadyDrivers.ClockTellsLatestMove | cmd/goosie/drive.go:338-349 | the stall clock stands at the latest reading at which work had landed |
| SteadyDrivers.IdleAnswersNeedNotBeAdjacent | cmd/goosie/drive.go:338-361 | a concrete run that ends on two idle answers with outstanding work seen between them |
| Filters.ParseFilter | internal/css/filter.go:41-93 | the index loop returns the functions of the trimmed text |
| Filters.FormatFilter | internal/css/filter.go:16-34 | the printed list |
| Filters.ParseUndoesFormat | internal/css/filter.go:16-93 | parsing undoes printing for every list whose names hold no parenthesis and whose raw arguments are non-empty, trimmed and balanced |
| Filters.StableIff | internal/css/filter.go:16-93 | format-then-parse is stable on a text exactly when every argument it holds was given and closed |
| Filters.FunctionsShape | internal/css/filter.go:41-93 | what parsing yields: trimmed names and arguments, every argument balanced but perhaps the last |
| HueMixing.ArcsGoTheirWay | internal/css/color5.go:305-328 | at most 180 degrees for shorter, at least 180 for longer, forward only for increasing, backward only for decreasing |
| HueMixing.ShorterIsShortest | internal/css/color5.go:320-328 | no way between the two hues is shorter, whatever turns are added |
| HueMixing.LongerCompletesTheTurn | internal/css/color5.go:305-312 | the longer and the shorter way make one full turn |
| HueMixing.LiesOnTheArc | internal/css/color5.go:288-335 | with weights summing to one the result is in [0, 360) and lies the second weight's share along the chosen arc |
| HueMixing.HitsTheEndpoints | internal/css/color5.go:288-335 | weights 1 and 0 give the first hue, 0 and 1 the second, modulo 360 |
| HueMixing.Swapped | internal/css/color5.go:304-335 | shorter is symmetric under swapping both ends, and increasing swapped is decreasing |
| HueMixing.LongerSwapAgreesIff | internal/css/color5.go:305-335 | swapping both ends of the longer way gives the same hue exactly when the hues differ or an end or the middle is asked for |
| HueMixing.LongerSwappedIff | internal/css/color5.go:305-312 | the angle travelled the longer way turns round under swapping exactly when the hues differ |
| HueMixing.InRangeIff | internal/css/color5.go:288-294 | a hue mixed with a missing one is handed on as it is, in range exactly when it was |
| HueMixing.PercentagesGiveWeights | internal/css/color5.go:126-152 | percentages from 0 to 100 give weights summing to one, unless both are zero: in their proportion when both are given, the given one its own hundredth and the missing one the rest, half each when neither is; together below 100 they scale the alpha |
| HueMixing.MixStaysBetween | internal/css/color5.go:278-286 | a premultiplied channel stays between its two values |
| HueMixing.MixIsWeighted | internal/css/color5.go:278-286 | its distances to them are in the opposite proportion of weight times alpha, and a colour with next to no alpha leaves the other's value |

## Left out

- ChromeWindows.ChromeWindow.Present: asks for a buffer with at least one pixel and distinct pixel arrays; the copy of an empty buffer, and 32-bit overflow of damage coordinates, are not modelled.
- FramePaths.FramePath.Open: stands for every way a tab appears (new, incognito, duplicated, reopened, restored); the archive of closed tabs, incognito and pinned marks, titles and scroll offsets are not modelled.
- FramePaths.FramePath.RestoreCrashedSession: the journal files and the restored scroll offset are not modelled; the call runs inside a load, so it may come between any two steps.
- FramePaths.FramePath.CloseTab: the plan and viewport republished for the next tab are not modelled.
- FramePaths.FramePath.ApplyToTab: titles, favicons, manifests, scroll restoration and the published plan are not modelled.
- CssRoundTrip.PrintedSheetReads: selectors and preludes of printed trees hold no quotes, backslashes or braces, though `CssNesting` nests selectors with strings; a value may be any text that is one statement, as long as the scanner of each block passes over the block (`CssBlocks` says what is read otherwise); unknown at-rules, @font-face and layer statements are not part of a tree, and `CssStatements` says what each is read as; @property and @keyframes are read by the parser methods only.
- StylesheetParsers.Parser.SkipAtRule: also stands for @keyframes, whose cursor it shares; the stops of keyframes are not modelled.
- StylesheetParsers.Parser.ParseDescriptors: the descriptors of @property and @font-palette-values, and so those two lists of the sheet, are not modelled; only the cursor is.
- StylesheetParsers.Parser.ParseStartingStyleRule: the @property definitions inside the block, which the source appends, are not modelled, like all of that list.
- CssLayers.AnonymousLayersApart: asks for no top-level @starting-style, whose count of anonymous layers is not taken over, so that numbers can repeat; `NumbersGrow` covers the trees that have some.
- MediaQueries.QueryMeansItsTests: lengths and ratios are read by parameters and written without spaces, so `calc()` lengths are outside it; `=` ranges are not split by the code and are excluded, as are ranges of a length that cannot be measured.
- HueMixing.LiesOnTheArc: real arithmetic; rounding of floating-point hues near 360 is not modelled.
- CalcUnits.RefusedIff: the words for infinity, which the source accepts, are refused here, and numerals are exact decimals.
- CalcCorrect.EvalAcceptsExactly: numbers are exact decimals; exponent forms, the infinity and NaN tokens of the source and floating-point rounding are not modelled, and the transcendental functions are one uninterpreted parameter.
- The serial of a tab is unbounded; the wrap-around of a 64-bit counter is not modelled.
- WindowModel.Overlay: a popup is assumed to paint inside the rectangle it reports; the text of a context menu is clipped to the whole image only (context_menu.go:210-224), so a text wider than its menu is not modelled.
- ColorCalc.CalcParser.ParseFactor: the exponent, hexadecimal and infinity literals that the source's number reader accepts are rejected.
- Sessions a load builds and closes itself before it returns, shutdown order, and races between two unlocked statements of one handler.
- Address normalisation, autocomplete, downloads list, accessibility publishing, scheduling and tiles.
- `CloseOtherTabs` and `CloseTabsToRight` of the tab manager, which the browser does not call.
- Text is a sequence of single-byte characters: Unicode lower-casing and trimming, and the two non-ASCII white-space characters Go trims, are not modelled.
- `ParseSelector`, `ParseValue` and `ParseColor`: a rule keeps its selectors and values as text.
- `supportsConditionTrue`: how an @supports condition comes out is a parameter.
- Vsync forwarding and the other surface events of the screenshot driver; only its decision is modelled.
- The number a filter argument stands for, and how numbers are printed, are parameters.
- Colour-space conversions, gamma curves, number formatting and the regular-expression rewriting of viewport and container units.
