/**
 Where the blocks of a tree stand, what stands around each, and the rule it gives.  A place is the path of
 indices that leads to a block; nothing here follows the reader, so the flat rules have a second
 description: the blocks that give a rule, in the order they stand in.
 */
module CssPlaces {
  import opened Options
  import opened Text
  import opened CssScan
  import opened CssDecls
  import opened CssSelectors
  import opened CssReading
  import opened CssTree
  import opened CssScopes

  type Place = seq<nat>

  // ---------------------------------------------------------------- places

  /** The place of a block; declarations have none. */
  predicate Stands(items: seq<Item>, p: Place)
    decreases |p|
  {
    p != [] && p[0] < |items| && !items[p[0]].Declare? && (|p| > 1 ==> Stands(items[p[0]].body, p[1..]))
  }

  function BlockAt(items: seq<Item>, p: Place): (it: Item)
    requires Stands(items, p)
    ensures !it.Declare?
    decreases |p|
  {
    if |p| == 1 then items[p[0]] else BlockAt(items[p[0]].body, p[1..])
  }

  /** Reading order: a block comes before what is inside it and before its later siblings. */
  predicate Precedes(p: Place, q: Place)
    decreases |p|
  {
    q != [] && (p == [] || p[0] < q[0] || (p[0] == q[0] && Precedes(p[1..], q[1..])))
  }

  predicate AnonymousLayer(it: Item) {
    it.Group? && it.name == "layer" && it.prelude == ""
  }

  /** Whether a block's body is read; a nested `@scope` is not. */
  predicate Enters(cd: Conditions, top: bool, it: Item) {
    match it
    case Declare(_) => false
    case Style(_, _) => true
    case Group(name, prelude, _) =>
      if name == "media" then cd.media(prelude)
      else if name == "supports" then cd.supports(prelude)
      else if name == "scope" then top
      else name == "layer" || name == "container" || name == "starting-style"
  }

  /** Every block on the way, and the block itself, is entered. */
  predicate Live(cd: Conditions, top: bool, items: seq<Item>, p: Place)
    requires Stands(items, p)
    decreases |p|
  {
    var it := items[p[0]];
    Enters(cd, top, it) && (|p| > 1 ==> Live(cd, top && it.Group?, it.body, p[1..]))
  }

  // ---------------------------------------------------------------- the numbers of anonymous layers

  function Taken(it: Item): nat {
    if AnonymousLayer(it) then 1 else 0
  }

  /** How far the first `k` items move the count: dropped blocks and top-level `@starting-style` not at all. */
  function Passed(cd: Conditions, top: bool, items: seq<Item>, k: nat): nat
    requires k <= |items|
    decreases items, k
  {
    if k == 0 then 0 else Passed(cd, top, items, k - 1) + PassedIn(cd, top, items[k - 1])
  }

  function PassedIn(cd: Conditions, top: bool, it: Item): nat
    decreases it
  {
    if !Enters(cd, top, it) || (top && it.Group? && it.name == "starting-style") then 0
    else Taken(it) + Passed(cd, top && it.Group?, it.body, |it.body|)
  }

  // ---------------------------------------------------------------- what stands around a block

  datatype Level =
    | Nest(selectors: seq<string>)
    | Numbered(number: nat)
    | Named(layer: string)
    | Query(query: string)
    | Bounds(root: string, limit: string)
    | Starting
    | Other

  function LevelOf(n: nat, it: Item): Level
    requires !it.Declare?
  {
    if it.Style? then Nest(it.selectors)
    else if it.name == "layer" then (if it.prelude == "" then Numbered(n + 1) else Named(it.prelude))
    else if it.name == "container" then Query(it.prelude)
    else if it.name == "scope" then Bounds(RootOf(it.prelude), LimitOf(it.prelude))
    else if it.name == "starting-style" then Starting
    else Other
  }

  /** The blocks from the outermost down to the one at a place, anonymous layers numbered from `n` on. */
  function Trail(cd: Conditions, top: bool, n: nat, items: seq<Item>, p: Place): (levels: seq<Level>)
    requires Stands(items, p)
    ensures |levels| == |p|
    decreases |p|
  {
    var it, m := items[p[0]], n + Passed(cd, top, items, p[0]);
    [LevelOf(m, it)] + if |p| == 1 then [] else Trail(cd, top && it.Group?, m + Taken(it), it.body, p[1..])
  }

  predicate InStyle(levels: seq<Level>) {
    exists i :: 0 <= i < |levels| && levels[i].Nest?
  }

  predicate InStarting(levels: seq<Level>) {
    exists i :: 0 <= i < |levels| && levels[i].Starting?
  }

  /** The selectors of the style rules, crossed from the outside in. */
  function SelectorsAlong(levels: seq<Level>): seq<string> {
    if levels == [] then []
    else
      var outer, l := levels[..|levels| - 1], levels[|levels| - 1];
      if !l.Nest? then SelectorsAlong(outer)
      else if InStyle(outer) then Cross(SelectorsAlong(outer), l.selectors)
      else l.selectors
  }

  /** Leading empty names leave no trace. */
  function Extended(names: seq<string>, name: string): seq<string> {
    if names == [] && name == "" then [] else names + [name]
  }

  /** The layer names: an anonymous layer forgets those around it. */
  function LayersAlong(levels: seq<Level>): (names: seq<string>)
    ensures names != [] ==> names[0] != ""
  {
    if levels == [] then []
    else
      var outer, l := LayersAlong(levels[..|levels| - 1]), levels[|levels| - 1];
      match l
      case Numbered(m) => [Anonymous(m)]
      case Named(name) => Extended(outer, name)
      case _ => outer
  }

  function QueriesAlong(levels: seq<Level>): (queries: seq<string>)
    ensures queries != [] ==> queries[0] != ""
  {
    if levels == [] then []
    else
      var outer, l := QueriesAlong(levels[..|levels| - 1]), levels[|levels| - 1];
      if l.Query? then Extended(outer, l.query) else outer
  }

  /** The innermost scope counts. */
  function BoundsAlong(levels: seq<Level>): (string, string) {
    if levels == [] then ("", "")
    else
      var l := levels[|levels| - 1];
      if l.Bounds? then (l.root, l.limit) else BoundsAlong(levels[..|levels| - 1])
  }

  function JoinedBy(sep: string, parts: seq<string>): string {
    if parts == [] then ""
    else if |parts| == 1 then parts[0]
    else JoinedBy(sep, parts[..|parts| - 1]) + sep + parts[|parts| - 1]
  }

  function ContextOf(levels: seq<Level>): Context {
    Context(JoinedBy(".", LayersAlong(levels)), JoinedBy(" and ", QueriesAlong(levels)), BoundsAlong(levels).0,
            BoundsAlong(levels).1)
  }

  /** A top-level style rule gives a rule; any other block inside one does when it declares something itself. */
  predicate Bears(around: seq<Level>, l: Level, it: Item)
    requires !it.Declare?
  {
    || (it.Style? && !InStyle(around))
    || (InStyle(around + [l]) && Own(it.body) != [] && SelectorsAlong(around + [l]) != [])
  }

  /** The block at a place gives a rule. */
  predicate Gives(cd: Conditions, around: seq<Level>, n: nat, items: seq<Item>, p: Place) {
    && Stands(items, p) && Live(cd, !InStyle(around), items, p)
    && var trail := Trail(cd, !InStyle(around), n, items, p);
       Bears(around + trail[..|p| - 1], trail[|p| - 1], BlockAt(items, p))
  }

  /** The rule it gives, from what stands around it and its own declarations. */
  function RuleAt(cd: Conditions, around: seq<Level>, n: nat, items: seq<Item>, p: Place): Rule
    requires Stands(items, p)
  {
    var trail := Trail(cd, !InStyle(around), n, items, p);
    Rule(SelectorsAlong(around + trail), Own(BlockAt(items, p).body), ContextOf(around + trail), InStarting(trail))
  }

  // ---------------------------------------------------------------- the places of the rules, in reading order

  function Below(k: nat, ps: seq<Place>): (r: seq<Place>)
    ensures |r| == |ps|
    ensures forall i :: 0 <= i < |ps| ==> r[i] == [k] + ps[i]
  {
    seq(|ps|, i requires 0 <= i < |ps| => [k] + ps[i])
  }

  /** The places of the rules among the items from the k-th on. */
  function PlacesFrom(cd: Conditions, around: seq<Level>, n: nat, items: seq<Item>, k: nat): seq<Place>
    requires k <= |items|
    decreases items, |items| - k
  {
    if k == |items| then []
    else
      var m := n + Passed(cd, !InStyle(around), items, k);
      Below(k, PlacesIn(cd, around, m, items[k])) + PlacesFrom(cd, around, n, items, k + 1)
  }

  /** The same in one item, whose own place is the empty one. */
  function PlacesIn(cd: Conditions, around: seq<Level>, n: nat, it: Item): seq<Place>
    decreases it
  {
    if !Enters(cd, !InStyle(around), it) then []
    else
      var l := LevelOf(n, it);
      (if Bears(around, l, it) then [[]] else []) + PlacesFrom(cd, around + [l], n + Taken(it), it.body, 0)
  }

  // ---------------------------------------------------------------- one level deeper

  lemma StyleGrows(around: seq<Level>, l: Level)
    ensures InStyle(around + [l]) <==> InStyle(around) || l.Nest?
    ensures InStarting([l] + around) <==> l.Starting? || InStarting(around)
  {
    if i :| 0 <= i < |around| && around[i].Nest? { assert (around + [l])[i].Nest?; }
    if l.Nest? { assert (around + [l])[|around|].Nest?; }
    if i :| 0 <= i < |around| && around[i].Starting? { assert ([l] + around)[i + 1].Starting?; }
    if l.Starting? { assert ([l] + around)[0].Starting?; }
  }

  lemma JoinGrows(sep: string, names: seq<string>, name: string)
    requires sep != "" && (names != [] ==> names[0] != "")
    ensures JoinedBy(sep, names) == "" <==> names == []
    ensures JoinedBy(sep, Extended(names, name))
            == if JoinedBy(sep, names) != "" then JoinedBy(sep, names) + sep + name else name
  {
    assert (names + [name])[..|names|] == names;
  }

  lemma ContextGrows(around: seq<Level>, l: Level)
    ensures var cx := ContextOf(around);
            ContextOf(around + [l])
            == match l
               case Numbered(m) => cx.(layer := Anonymous(m))
               case Named(name) => cx.(layer := if cx.layer != "" then cx.layer + "." + name else name)
               case Query(q) => cx.(container := if cx.container != "" then cx.container + " and " + q else q)
               case Bounds(root, limit) => cx.(root := root, limit := limit)
               case _ => cx
  {
    hide JoinedBy, Anonymous, Extended;
    assert (around + [l])[..|around|] == around;
    match l
    case Numbered(m) => JoinOne(".", Anonymous(m));
    case Named(name) => JoinGrows(".", LayersAlong(around), name);
    case Query(q) => JoinGrows(" and ", QueriesAlong(around), q);
    case _ =>
  }

  lemma JoinOne(sep: string, name: string)
    ensures JoinedBy(sep, [name]) == name
  {
  }

  /** Entering a block is putting its level around what is inside. */
  lemma EnteringIsALevel(cd: Conditions, around: seq<Level>, n: nat, it: Item)
    requires it.Group?
    ensures EnteredAtTop(cd, ContextOf(around), n, it.name, it.prelude)
            == if Enters(cd, true, it) then Some((ContextOf(around + [LevelOf(n, it)]), n + Taken(it))) else None
    ensures Entered(cd, ContextOf(around), n, it.name, it.prelude)
            == if Enters(cd, false, it) then Some((ContextOf(around + [LevelOf(n, it)]), n + Taken(it))) else None
  {
    hide ContextOf, Anonymous, ScopeBounds, RootOf, LimitOf;
    ContextGrows(around, LevelOf(n, it));
    BoundsAre(it.prelude);
    assert "media"[0] == 'm' && "layer"[0] == 'l' && "scope"[0] == 's' && "supports"[1] == 'u';
  }

  /** What a block inside the k-th item gives, seen from around that item. */
  lemma GivesDeeper(cd: Conditions, around: seq<Level>, n: nat, items: seq<Item>, k: nat, p: Place)
    requires k < |items| && p != []
    ensures var it, m := items[k], n + Passed(cd, !InStyle(around), items, k);
            && (Gives(cd, around, n, items, [k] + p)
                <==> !it.Declare? && Enters(cd, !InStyle(around), it)
                     && Gives(cd, around + [LevelOf(m, it)], m + Taken(it), it.body, p))
            && (Gives(cd, around, n, items, [k] + p) ==>
                  var r := RuleAt(cd, around + [LevelOf(m, it)], m + Taken(it), it.body, p);
                  RuleAt(cd, around, n, items, [k] + p)
                  == if LevelOf(m, it).Starting? then r.(starting := true) else r)
  {
    hide Passed, Enters, Bears, ContextOf, SelectorsAlong, InStyle, InStarting, Taken, Own;
    var it := items[k];
    assert ([k] + p)[1..] == p;
    if !it.Declare? && Stands(it.body, p) {
      var m := n + Passed(cd, !InStyle(around), items, k);
      var l := LevelOf(m, it);
      StyleGrows(around, l);
      var trail := Trail(cd, !InStyle(around + [l]), m + Taken(it), it.body, p);
      StyleGrows(trail, l);
      assert around + [l] + trail == around + ([l] + trail);
      assert around + [l] + trail[..|p| - 1] == around + ([l] + trail)[..|p|];
    }
  }

  lemma GivesHere(cd: Conditions, around: seq<Level>, n: nat, items: seq<Item>, k: nat)
    requires k < |items|
    ensures var it, m := items[k], n + Passed(cd, !InStyle(around), items, k);
            && (Gives(cd, around, n, items, [k])
                <==> !it.Declare? && Enters(cd, !InStyle(around), it) && Bears(around, LevelOf(m, it), it))
            && (!it.Declare? ==>
                  var l := LevelOf(m, it);
                  RuleAt(cd, around, n, items, [k])
                  == Rule(SelectorsAlong(around + [l]), Own(it.body), ContextOf(around + [l]), l.Starting?))
  {
    hide Passed, Enters, Bears, ContextOf, SelectorsAlong, InStyle, Own;
    var it := items[k];
    if !it.Declare? {
      var l := LevelOf(n + Passed(cd, !InStyle(around), items, k), it);
      assert around + [l][..0] == around;
      StyleGrows([], l);
      assert [l] + [] == [l];
    }
  }

  // ---------------------------------------------------------------- every place once, in order

  lemma {:induction false} PlacesAreThose(cd: Conditions, around: seq<Level>, n: nat, items: seq<Item>, k: nat,
                                          p: Place)
    requires k <= |items|
    ensures p in PlacesFrom(cd, around, n, items, k) <==> Gives(cd, around, n, items, p) && k <= p[0]
    decreases items, |items| - k
  {
    hide Passed, Enters, Bears, PlacesIn, Gives;
    if k < |items| {
      PlacesAreThose(cd, around, n, items, k + 1, p);
      var m := n + Passed(cd, !InStyle(around), items, k);
      var here := PlacesIn(cd, around, m, items[k]);
      InBelow(k, here, p);
      if p != [] && p[0] == k {
        PlacesInAreThose(cd, around, n, items, k, p[1..]);
        assert [k] + p[1..] == p;
      }
    }
    GivesIsBounded(cd, around, n, items, p);
  }

  lemma GivesIsBounded(cd: Conditions, around: seq<Level>, n: nat, items: seq<Item>, p: Place)
    ensures Gives(cd, around, n, items, p) ==> Stands(items, p) && p != [] && p[0] < |items|
  {
    hide Live, Trail, Bears;
  }

  lemma InBelow(k: nat, ps: seq<Place>, p: Place)
    ensures p in Below(k, ps) <==> p != [] && p[0] == k && p[1..] in ps
  {
    if p in Below(k, ps) {
      var i :| 0 <= i < |ps| && p == [k] + ps[i];
      assert p[1..] == ps[i];
    }
    if p != [] && p[0] == k && p[1..] in ps {
      var i :| 0 <= i < |ps| && ps[i] == p[1..];
      assert p == [k] + ps[i] == Below(k, ps)[i];
    }
  }

  lemma {:induction false} PlacesInAreThose(cd: Conditions, around: seq<Level>, n: nat, items: seq<Item>, k: nat,
                                            q: Place)
    requires k < |items|
    ensures q in PlacesIn(cd, around, n + Passed(cd, !InStyle(around), items, k), items[k])
            <==> Gives(cd, around, n, items, [k] + q)
    decreases items[k]
  {
    hide Passed, Bears, Gives, InStyle, PlacesFrom, LevelOf, Taken, RuleAt, Own, SelectorsAlong, ContextOf;
    var it, m := items[k], n + Passed(cd, !InStyle(around), items, k);
    if q == [] {
      GivesHere(cd, around, n, items, k);
      assert [k] + q == [k];
      if Enters(cd, !InStyle(around), it) {
        PlacesAreThose(cd, around + [LevelOf(m, it)], m + Taken(it), it.body, 0, []);
        GivesIsBounded(cd, around + [LevelOf(m, it)], m + Taken(it), it.body, []);
      }
    } else {
      GivesDeeper(cd, around, n, items, k, q);
      if Enters(cd, !InStyle(around), it) {
        PlacesAreThose(cd, around + [LevelOf(m, it)], m + Taken(it), it.body, 0, q);
      }
    }
  }

  ghost predicate Ordered(ps: seq<Place>) {
    forall i, j :: 0 <= i < j < |ps| ==> Precedes(ps[i], ps[j])
  }

  lemma {:induction false} PlacesInOrder(cd: Conditions, around: seq<Level>, n: nat, items: seq<Item>, k: nat)
    requires k <= |items|
    ensures Ordered(PlacesFrom(cd, around, n, items, k))
    decreases items, |items| - k
  {
    hide Passed, PlacesIn, Gives;
    if k < |items| {
      var m := n + Passed(cd, !InStyle(around), items, k);
      var here, rest := PlacesIn(cd, around, m, items[k]), PlacesFrom(cd, around, n, items, k + 1);
      PlacesInOrderIn(cd, around, m, items[k]);
      PlacesInOrder(cd, around, n, items, k + 1);
      var all := Below(k, here) + rest;
      forall i, j | 0 <= i < j < |all| ensures Precedes(all[i], all[j]) {
        if j < |here| {
          assert Precedes(here[i], here[j]);
          assert all[i][1..] == here[i] && all[j][1..] == here[j];
        } else {
          PlacesAreThose(cd, around, n, items, k + 1, rest[j - |here|]);
          GivesIsBounded(cd, around, n, items, rest[j - |here|]);
        }
      }
    }
  }

  lemma {:induction false} PlacesInOrderIn(cd: Conditions, around: seq<Level>, n: nat, it: Item)
    ensures Ordered(PlacesIn(cd, around, n, it))
    decreases it
  {
    hide Passed, PlacesFrom, Bears, Gives;
    if Enters(cd, !InStyle(around), it) {
      var l := LevelOf(n, it);
      PlacesInOrder(cd, around + [l], n + Taken(it), it.body, 0);
      var inner := PlacesFrom(cd, around + [l], n + Taken(it), it.body, 0);
      forall i | 0 <= i < |inner| ensures Precedes([], inner[i]) {
        PlacesAreThose(cd, around + [l], n + Taken(it), it.body, 0, inner[i]);
        GivesIsBounded(cd, around + [l], n + Taken(it), it.body, inner[i]);
      }
    }
  }

  // ---------------------------------------------------------------- the flat rules are those of the places

  /** This rule is the one given at this place. */
  predicate Fits(cd: Conditions, around: seq<Level>, n: nat, items: seq<Item>, r: Rule, p: Place) {
    Gives(cd, around, n, items, p) && r == RuleAt(cd, around, n, items, p)
  }

  ghost predicate Listed(cd: Conditions, around: seq<Level>, n: nat, items: seq<Item>, rules: seq<Rule>,
                         ps: seq<Place>) {
    && |rules| == |ps|
    && forall i :: 0 <= i < |ps| ==> Fits(cd, around, n, items, rules[i], ps[i])
  }

  lemma ListedJoins(cd: Conditions, around: seq<Level>, n: nat, items: seq<Item>, a: seq<Rule>, p: seq<Place>,
                    b: seq<Rule>, q: seq<Place>)
    requires Listed(cd, around, n, items, a, p) && Listed(cd, around, n, items, b, q)
    ensures Listed(cd, around, n, items, a + b, p + q)
  {
    hide Fits;
  }

  /** One rule of a body, seen from around it. */
  lemma RuleDeeper(cd: Conditions, around: seq<Level>, n: nat, items: seq<Item>, k: nat, r: Rule, p: Place)
    requires k < |items| && !items[k].Declare? && Enters(cd, !InStyle(around), items[k])
    requires var it, m := items[k], n + Passed(cd, !InStyle(around), items, k);
             Fits(cd, around + [LevelOf(m, it)], m + Taken(it), it.body, r, p)
    ensures var l := LevelOf(n + Passed(cd, !InStyle(around), items, k), items[k]);
            Fits(cd, around, n, items, if l.Starting? then r.(starting := true) else r, [k] + p)
  {
    hide Gives, RuleAt, Passed, Enters, LevelOf, Taken;
    var it, m := items[k], n + Passed(cd, !InStyle(around), items, k);
    GivesIsBounded(cd, around + [LevelOf(m, it)], m + Taken(it), it.body, p);
    GivesDeeper(cd, around, n, items, k, p);
    GivesIsBounded(cd, around, n, items, [k] + p);
  }

  function MarkedUnder(l: Level, rules: seq<Rule>): (r: seq<Rule>)
    ensures |r| == |rules|
    ensures forall i :: 0 <= i < |rules| ==> r[i] == if l.Starting? then rules[i].(starting := true) else rules[i]
  {
    if l.Starting? then Marked(rules) else rules
  }

  /** The rules of a body, once more marked under `@starting-style`, are rules of the tree around it. */
  lemma ListedDeeper(cd: Conditions, around: seq<Level>, n: nat, items: seq<Item>, k: nat, rules: seq<Rule>,
                     ps: seq<Place>)
    requires k < |items| && !items[k].Declare? && Enters(cd, !InStyle(around), items[k])
    requires var it, m := items[k], n + Passed(cd, !InStyle(around), items, k);
             Listed(cd, around + [LevelOf(m, it)], m + Taken(it), it.body, rules, ps)
    ensures var l := LevelOf(n + Passed(cd, !InStyle(around), items, k), items[k]);
            Listed(cd, around, n, items, MarkedUnder(l, rules), Below(k, ps))
  {
    hide Fits, Passed, Enters, LevelOf, Taken, MarkedUnder;
    var l := LevelOf(n + Passed(cd, !InStyle(around), items, k), items[k]);
    var all, marked := Below(k, ps), MarkedUnder(l, rules);
    forall i | 0 <= i < |ps|
      ensures Fits(cd, around, n, items, marked[i], all[i])
    {
      RuleDeeper(cd, around, n, items, k, rules[i], ps[i]);
    }
  }

  /** The rule a block gives itself. */
  function OwnAt(around: seq<Level>, l: Level, it: Item): seq<Rule>
    requires !it.Declare?
  {
    if Bears(around, l, it) then
      [Rule(SelectorsAlong(around + [l]), Own(it.body), ContextOf(around + [l]), l.Starting?)]
    else []
  }

  lemma OwnListed(cd: Conditions, around: seq<Level>, n: nat, items: seq<Item>, k: nat)
    requires k < |items| && !items[k].Declare? && Enters(cd, !InStyle(around), items[k])
    ensures var it, m := items[k], n + Passed(cd, !InStyle(around), items, k);
            var l := LevelOf(m, it);
            Listed(cd, around, n, items, OwnAt(around, l, it), Below(k, if Bears(around, l, it) then [[]] else []))
  {
    hide Gives, RuleAt, Passed, Enters, Bears, ContextOf, SelectorsAlong, Own, LevelOf;
    GivesHere(cd, around, n, items, k);
    assert [k] + [] == [k];
  }

  /** A block's own rule, then those of its body. */
  lemma BlockListed(cd: Conditions, around: seq<Level>, n: nat, items: seq<Item>, k: nat, rules: seq<Rule>)
    requires k < |items| && !items[k].Declare? && Enters(cd, !InStyle(around), items[k])
    requires var it, m := items[k], n + Passed(cd, !InStyle(around), items, k);
             var inner := around + [LevelOf(m, it)];
             Listed(cd, inner, m + Taken(it), it.body, rules, PlacesFrom(cd, inner, m + Taken(it), it.body, 0))
    ensures var it, m := items[k], n + Passed(cd, !InStyle(around), items, k);
            var l := LevelOf(m, it);
            Listed(cd, around, n, items, OwnAt(around, l, it) + MarkedUnder(l, rules),
                   Below(k, PlacesIn(cd, around, m, it)))
  {
    hide Listed, Passed, Enters, Bears, PlacesFrom, OwnAt, MarkedUnder, LevelOf, Taken, InStyle;
    var it, m := items[k], n + Passed(cd, !InStyle(around), items, k);
    var l := LevelOf(m, it);
    var ps := PlacesFrom(cd, around + [l], m + Taken(it), it.body, 0);
    var here: seq<Place> := if Bears(around, l, it) then [[]] else [];
    ListedDeeper(cd, around, n, items, k, rules, ps);
    OwnListed(cd, around, n, items, k);
    ListedJoins(cd, around, n, items, OwnAt(around, l, it), Below(k, here), MarkedUnder(l, rules), Below(k, ps));
    assert Below(k, here + ps) == Below(k, here) + Below(k, ps);
  }

  lemma Nothing(cd: Conditions, around: seq<Level>, n: nat, items: seq<Item>)
    ensures Listed(cd, around, n, items, [], []) && Below(n, []) == []
  {
  }

  lemma SheetSplits(cd: Conditions, cx: Context, n: nat, items: seq<Item>, k: nat)
    requires k < |items|
    ensures var first := TopRules(cd, cx, n, items[k]);
            var rest := SheetRules(cd, cx, first.1, items[k + 1..]);
            SheetRules(cd, cx, n, items[k..]) == (first.0 + rest.0, rest.1)
  {
    hide TopRules;
    assert items[k..][1..] == items[k + 1..];
  }

  lemma BodySplits(cd: Conditions, cx: Context, n: nat, path: seq<string>, items: seq<Item>, k: nat)
    requires k < |items|
    ensures var first := NestedRules(cd, cx, n, path, items[k]);
            var rest := BodyRules(cd, cx, first.1, path, items[k + 1..]);
            BodyRules(cd, cx, n, path, items[k..]) == (first.0 + rest.0, rest.1)
  {
    hide NestedRules;
    assert items[k..][1..] == items[k + 1..];
  }

  /** At the top level, from the k-th item on. */
  lemma {:induction false} SheetListed(cd: Conditions, around: seq<Level>, n: nat, items: seq<Item>, k: nat)
    requires !InStyle(around) && k <= |items|
    ensures var flat := SheetRules(cd, ContextOf(around), n + Passed(cd, true, items, k), items[k..]);
            && Listed(cd, around, n, items, flat.0, PlacesFrom(cd, around, n, items, k))
            && flat.1 == n + Passed(cd, true, items, |items|)
    decreases items, |items| - k
  {
    hide TopRules, PlacesIn, Listed, ContextOf, InStyle, PassedIn;
    if k == |items| {
      assert items[k..] == [];
      Nothing(cd, around, n, items);
    } else {
      var cx, m := ContextOf(around), n + Passed(cd, true, items, k);
      TopListed(cd, around, n, items, k);
      SheetListed(cd, around, n, items, k + 1);
      SheetSplits(cd, cx, m, items, k);
      ListedJoins(cd, around, n, items, TopRules(cd, cx, m, items[k]).0, Below(k, PlacesIn(cd, around, m, items[k])),
                  SheetRules(cd, cx, n + Passed(cd, true, items, k + 1), items[k + 1..]).0,
                  PlacesFrom(cd, around, n, items, k + 1));
    }
  }

  /** A top-level block in terms of its level. */
  lemma TopUnfolds(cd: Conditions, around: seq<Level>, n: nat, it: Item)
    requires !InStyle(around) && !it.Declare?
    ensures var cx, l := ContextOf(around), LevelOf(n, it);
            var inner := around + [l];
            TopRules(cd, cx, n, it)
            == if it.Style? then
                 var deeper := BodyRules(cd, ContextOf(inner), n, SelectorsAlong(inner), it.body);
                 (OwnAt(around, l, it) + MarkedUnder(l, deeper.0), deeper.1)
               else if Enters(cd, true, it) then
                 var deeper := SheetRules(cd, ContextOf(inner), n + Taken(it), it.body);
                 (OwnAt(around, l, it) + MarkedUnder(l, deeper.0), if l.Starting? then n else deeper.1)
               else ([], n)
  {
    hide SheetRules, BodyRules, EnteredAtTop, ContextOf, OwnAt, InStyle, SelectorsAlong, Own;
    var l := LevelOf(n, it);
    OwnAtTop(around, l, it);
    if it.Style? {
    } else {
      EnteringIsALevel(cd, around, n, it);
      if Enters(cd, true, it) {
        var deeper := SheetRules(cd, ContextOf(around + [l]), n + Taken(it), it.body);
        MarkedIs(l, it, n, deeper.0);
        assert [] + MarkedUnder(l, deeper.0) == MarkedUnder(l, deeper.0);
      }
    }
  }

  lemma {:induction false} TopListed(cd: Conditions, around: seq<Level>, n: nat, items: seq<Item>, k: nat)
    requires !InStyle(around) && k < |items|
    ensures var m := n + Passed(cd, true, items, k);
            var flat := TopRules(cd, ContextOf(around), m, items[k]);
            && Listed(cd, around, n, items, flat.0, Below(k, PlacesIn(cd, around, m, items[k])))
            && flat.1 == m + PassedIn(cd, true, items[k])
    decreases items[k]
  {
    hide TopRules, SheetRules, BodyRules, PlacesFrom, Listed, ContextOf, Passed, OwnAt, InStyle, SelectorsAlong,
         MarkedUnder;
    var it, m := items[k], n + Passed(cd, true, items, k);
    if it.Declare? {
      Nothing(cd, around, n, items);
      DeclarationGivesNone(cd, ContextOf(around), m, [], it);
    } else {
      var l := LevelOf(m, it);
      var inner := around + [l];
      TopUnfolds(cd, around, m, it);
      StyleGrows(around, l);
      if it.Style? {
        BodyAllListed(cd, inner, m, it.body);
        BlockListed(cd, around, n, items, k, BodyRules(cd, ContextOf(inner), m, SelectorsAlong(inner), it.body).0);
      } else if Enters(cd, true, it) {
        SheetAllListed(cd, inner, m + Taken(it), it.body);
        BlockListed(cd, around, n, items, k, SheetRules(cd, ContextOf(inner), m + Taken(it), it.body).0);
      } else {
        Nothing(cd, around, n, items);
      }
    }
  }

  lemma DeclarationGivesNone(cd: Conditions, cx: Context, n: nat, path: seq<string>, it: Item)
    requires it.Declare?
    ensures TopRules(cd, cx, n, it) == ([], n) && NestedRules(cd, cx, n, path, it) == ([], n)
  {
  }

  lemma {:induction false} SheetAllListed(cd: Conditions, around: seq<Level>, n: nat, items: seq<Item>)
    requires !InStyle(around)
    ensures var flat := SheetRules(cd, ContextOf(around), n, items);
            && Listed(cd, around, n, items, flat.0, PlacesFrom(cd, around, n, items, 0))
            && flat.1 == n + Passed(cd, true, items, |items|)
    decreases items, |items| + 1
  {
    hide SheetRules, PlacesFrom, Listed, ContextOf, InStyle;
    SheetListed(cd, around, n, items, 0);
    assert items[0..] == items;
  }

  lemma {:induction false} BodyAllListed(cd: Conditions, around: seq<Level>, n: nat, items: seq<Item>)
    requires InStyle(around)
    ensures var flat := BodyRules(cd, ContextOf(around), n, SelectorsAlong(around), items);
            && Listed(cd, around, n, items, flat.0, PlacesFrom(cd, around, n, items, 0))
            && flat.1 == n + Passed(cd, false, items, |items|)
    decreases items, |items| + 1
  {
    hide BodyRules, PlacesFrom, Listed, ContextOf, InStyle, SelectorsAlong;
    BodyListed(cd, around, n, items, 0);
    assert items[0..] == items;
  }

  /** What a top-level block gives itself. */
  lemma OwnAtTop(around: seq<Level>, l: Level, it: Item)
    requires !InStyle(around) && !it.Declare? && (it.Style? <==> l.Nest?) && (it.Style? ==> l.selectors == it.selectors)
    ensures InStyle(around + [l]) <==> it.Style?
    ensures OwnAt(around, l, it)
            == if it.Style? then [Rule(it.selectors, Own(it.body), ContextOf(around), false)] else []
    ensures it.Style? ==> SelectorsAlong(around + [l]) == it.selectors && ContextOf(around + [l]) == ContextOf(around)
  {
    hide ContextOf, Own;
    StyleGrows(around, l);
    ContextGrows(around, l);
    assert (around + [l])[..|around|] == around;
  }

  /** What a block inside a style rule gives itself. */
  lemma OwnNested(around: seq<Level>, l: Level, it: Item)
    requires InStyle(around) && !it.Declare? && (it.Style? <==> l.Nest?) && (it.Style? ==> l.selectors == it.selectors)
    ensures InStyle(around + [l])
    ensures var path := if it.Style? then Cross(SelectorsAlong(around), it.selectors) else SelectorsAlong(around);
            && SelectorsAlong(around + [l]) == path
            && OwnAt(around, l, it) == MarkedUnder(l, OwnRule(path, Own(it.body), ContextOf(around + [l])))
    ensures it.Style? ==> ContextOf(around + [l]) == ContextOf(around)
  {
    hide ContextOf, Own, Cross;
    StyleGrows(around, l);
    ContextGrows(around, l);
    assert (around + [l])[..|around|] == around;
  }

  lemma MarkedJoins(l: Level, a: seq<Rule>, b: seq<Rule>)
    ensures MarkedUnder(l, a + b) == MarkedUnder(l, a) + MarkedUnder(l, b)
  {
  }

  /** Inside a style rule, from the k-th item on. */
  lemma {:induction false} BodyListed(cd: Conditions, around: seq<Level>, n: nat, items: seq<Item>, k: nat)
    requires InStyle(around) && k <= |items|
    ensures var m := n + Passed(cd, false, items, k);
            var flat := BodyRules(cd, ContextOf(around), m, SelectorsAlong(around), items[k..]);
            && Listed(cd, around, n, items, flat.0, PlacesFrom(cd, around, n, items, k))
            && flat.1 == n + Passed(cd, false, items, |items|)
    decreases items, |items| - k
  {
    hide NestedRules, PlacesIn, Listed, ContextOf, InStyle, PassedIn, SelectorsAlong;
    if k == |items| {
      assert items[k..] == [];
      Nothing(cd, around, n, items);
    } else {
      var cx, m, path := ContextOf(around), n + Passed(cd, false, items, k), SelectorsAlong(around);
      NestedListed(cd, around, n, items, k);
      BodyListed(cd, around, n, items, k + 1);
      BodySplits(cd, cx, m, path, items, k);
      ListedJoins(cd, around, n, items, NestedRules(cd, cx, m, path, items[k]).0,
                  Below(k, PlacesIn(cd, around, m, items[k])),
                  BodyRules(cd, cx, n + Passed(cd, false, items, k + 1), path, items[k + 1..]).0,
                  PlacesFrom(cd, around, n, items, k + 1));
    }
  }

  /** A block inside a style rule in terms of its level. */
  lemma NestedUnfolds(cd: Conditions, around: seq<Level>, n: nat, it: Item)
    requires InStyle(around) && !it.Declare?
    ensures var l := LevelOf(n, it);
            var inner := around + [l];
            NestedRules(cd, ContextOf(around), n, SelectorsAlong(around), it)
            == if Enters(cd, false, it) then
                 var deeper := BodyRules(cd, ContextOf(inner), n + Taken(it), SelectorsAlong(inner), it.body);
                 (OwnAt(around, l, it) + MarkedUnder(l, deeper.0), deeper.1)
               else ([], n)
  {
    hide BodyRules, Entered, ContextOf, OwnAt, InStyle, SelectorsAlong, Own, OwnRule, MarkedUnder;
    var l := LevelOf(n, it);
    var inner := around + [l];
    OwnNested(around, l, it);
    var own := OwnRule(SelectorsAlong(inner), Own(it.body), ContextOf(inner));
    if it.Style? {
      NotMarked(l, BodyRules(cd, ContextOf(around), n, SelectorsAlong(inner), it.body).0);
      NotMarked(l, own);
    } else {
      EnteringIsALevel(cd, around, n, it);
      if Enters(cd, false, it) {
        var deeper := BodyRules(cd, ContextOf(inner), n + Taken(it), SelectorsAlong(inner), it.body).0;
        MarkedJoins(l, own, deeper);
        MarkedIs(l, it, n, own + deeper);
      }
    }
  }

  lemma {:induction false} NestedListed(cd: Conditions, around: seq<Level>, n: nat, items: seq<Item>, k: nat)
    requires InStyle(around) && k < |items|
    ensures var m := n + Passed(cd, false, items, k);
            var flat := NestedRules(cd, ContextOf(around), m, SelectorsAlong(around), items[k]);
            && Listed(cd, around, n, items, flat.0, Below(k, PlacesIn(cd, around, m, items[k])))
            && flat.1 == m + PassedIn(cd, false, items[k])
    decreases items[k]
  {
    hide NestedRules, BodyRules, PlacesFrom, Listed, ContextOf, Passed, OwnAt, InStyle, SelectorsAlong, MarkedUnder,
         LevelOf, Taken;
    var it, m := items[k], n + Passed(cd, false, items, k);
    if it.Declare? {
      Nothing(cd, around, n, items);
      DeclarationGivesNone(cd, ContextOf(around), m, SelectorsAlong(around), it);
    } else {
      var l := LevelOf(m, it);
      var inner := around + [l];
      NestedUnfolds(cd, around, m, it);
      StyleGrows(around, l);
      if Enters(cd, false, it) {
        BodyAllListed(cd, inner, m + Taken(it), it.body);
        BlockListed(cd, around, n, items, k,
                    BodyRules(cd, ContextOf(inner), m + Taken(it), SelectorsAlong(inner), it.body).0);
      } else {
        Nothing(cd, around, n, items);
      }
    }
  }

  lemma NotMarked(l: Level, rules: seq<Rule>)
    requires l.Nest?
    ensures MarkedUnder(l, rules) == rules
  {
  }

  lemma MarkedIs(l: Level, it: Item, n: nat, rules: seq<Rule>)
    requires it.Group? && l == LevelOf(n, it)
    ensures MarkedUnder(l, rules) == if it.name == "starting-style" then Marked(rules) else rules
  {
    assert "layer"[0] == 'l' && "scope"[1] == 'c' && "container"[0] == 'c' && "starting-style"[1] == 't';
  }

  // ---------------------------------------------------------------- the theorem

  /** The places of the blocks that give a rule, in reading order. */
  function RulePlaces(cd: Conditions, items: seq<Item>): seq<Place> {
    PlacesFrom(cd, [], 0, items, 0)
  }

  /**
   The flat rules of a tree, one for one: the i-th is the rule of the i-th place, the places are exactly
   those of the blocks that are entered all the way down and bear a rule, and they stand in reading order.
   */
  lemma FlatRulesByPlace(cd: Conditions, items: seq<Item>)
    ensures var flat, ps := SheetRules(cd, TOP, 0, items).0, RulePlaces(cd, items);
            && |flat| == |ps|
            && (forall i :: 0 <= i < |ps| ==> Fits(cd, [], 0, items, flat[i], ps[i]))
            && Ordered(ps)
    ensures forall p :: p in RulePlaces(cd, items) <==> Gives(cd, [], 0, items, p)
  {
    hide SheetRules, PlacesFrom, Fits, Gives, Ordered;
    SheetAllListed(cd, [], 0, items);
    PlacesInOrder(cd, [], 0, items, 0);
    forall p ensures p in PlacesFrom(cd, [], 0, items, 0) <==> Gives(cd, [], 0, items, p) {
      PlacesAreThose(cd, [], 0, items, 0, p);
      GivesIsBounded(cd, [], 0, items, p);
    }
  }

  /**
   Every block that bears a rule, anywhere in a tree: its rule carries the selectors crossed along its path,
   exactly its own declarations, the dotted layers since the last anonymous one, the queries joined with
   " and ", the innermost scope, and whether a `@starting-style` stands around it.
   */
  lemma RuleCarriesItsPath(cd: Conditions, items: seq<Item>, p: Place)
    requires Gives(cd, [], 0, items, p)
    ensures var path := Trail(cd, true, 0, items, p);
            Rule(SelectorsAlong(path), Own(BlockAt(items, p).body),
                 Context(JoinedBy(".", LayersAlong(path)), JoinedBy(" and ", QueriesAlong(path)),
                         BoundsAlong(path).0, BoundsAlong(path).1),
                 InStarting(path)) in SheetRules(cd, TOP, 0, items).0
  {
    hide SheetRules, RulePlaces, Live, Bears, SelectorsAlong, LayersAlong, QueriesAlong, BoundsAlong, Ordered;
    FlatRulesByPlace(cd, items);
    var ps := RulePlaces(cd, items);
    var i :| 0 <= i < |ps| && ps[i] == p;
    assert Fits(cd, [], 0, items, SheetRules(cd, TOP, 0, items).0[i], p);
    assert [] + Trail(cd, true, 0, items, p) == Trail(cd, true, 0, items, p);
  }
}
