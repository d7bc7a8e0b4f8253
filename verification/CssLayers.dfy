/** Anonymous layers: the numbers they take in reading order, and why no two share a name. */
module CssLayers {
  import opened Options
  import opened Text
  import opened CssScan
  import opened CssDecls
  import opened CssSelectors
  import opened CssReading
  import opened CssTree
  import opened CssPlaces

  /** The place of an anonymous layer that is entered. */
  predicate Layered(cd: Conditions, top: bool, items: seq<Item>, p: Place) {
    Stands(items, p) && Live(cd, top, items, p) && AnonymousLayer(BlockAt(items, p))
  }

  /** The number it takes. */
  function NumberAt(cd: Conditions, top: bool, n: nat, items: seq<Item>, p: Place): nat
    requires Layered(cd, top, items, p)
    decreases |p|
  {
    var it, m := items[p[0]], n + Passed(cd, top, items, p[0]);
    if |p| == 1 then m + 1 else NumberAt(cd, top && it.Group?, m + Taken(it), it.body, p[1..])
  }

  /** A top-level `@starting-style` on the way, whose count is thrown away. */
  predicate Forgotten(top: bool, items: seq<Item>, p: Place)
    requires Stands(items, p)
    decreases |p|
  {
    var it := items[p[0]];
    top && it.Group? && (it.name == "starting-style" || (|p| > 1 && Forgotten(top, it.body, p[1..])))
  }

  /** The first of two places lies in a top-level `@starting-style` that the second does not lie in. */
  predicate ForgottenBetween(top: bool, items: seq<Item>, p: Place, q: Place)
    requires Stands(items, p) && Stands(items, q)
    decreases |p|
  {
    if p[0] != q[0] then Forgotten(top, items, p)
    else |p| > 1 && |q| > 1 && ForgottenBetween(top && items[p[0]].Group?, items[p[0]].body, p[1..], q[1..])
  }

  // ---------------------------------------------------------------- numbers grow in reading order

  lemma {:induction false} PassedGrows(cd: Conditions, top: bool, items: seq<Item>, i: nat, k: nat)
    requires i <= k <= |items|
    ensures Passed(cd, top, items, i) <= Passed(cd, top, items, k)
    ensures i < k ==> Passed(cd, top, items, i) + PassedIn(cd, top, items[i]) <= Passed(cd, top, items, k)
    decreases k - i
  {
    hide PassedIn;
    if i < k { PassedGrows(cd, top, items, i, k - 1); }
  }

  /** A layer's number lies among those its list passes, unless they are thrown away. */
  lemma {:induction false} NumberIsPassed(cd: Conditions, top: bool, n: nat, items: seq<Item>, p: Place)
    requires Layered(cd, top, items, p)
    ensures n + Passed(cd, top, items, p[0]) < NumberAt(cd, top, n, items, p)
    ensures !Forgotten(top, items, p) ==>
              NumberAt(cd, top, n, items, p)
              <= n + Passed(cd, top, items, p[0]) + PassedIn(cd, top, items[p[0]])
    decreases |p|
  {
    hide Enters;
    var it := items[p[0]];
    var deeper := top && it.Group?;
    if |p| == 1 {
      EntersLayer(cd, top, it);
    } else {
      var m := n + Passed(cd, top, items, p[0]) + Taken(it);
      NumberIsPassed(cd, deeper, m, it.body, p[1..]);
      PassedGrows(cd, deeper, it.body, p[1], |it.body|);
    }
  }

  lemma EntersLayer(cd: Conditions, top: bool, it: Item)
    requires AnonymousLayer(it)
    ensures Enters(cd, top, it) && it.name != "starting-style"
  {
    assert "media"[0] == 'm' && "layer"[0] == 'l' && "scope"[0] == 's' && "supports"[0] == 's';
  }

  /**
   Of two anonymous layers in any tree the one that is read later has the larger number, unless the
   earlier one lies in a top-level `@starting-style` and the later one outside it.
   */
  lemma {:induction false} NumbersGrow(cd: Conditions, top: bool, n: nat, items: seq<Item>, p: Place, q: Place)
    requires Layered(cd, top, items, p) && Layered(cd, top, items, q) && Precedes(p, q)
    requires !ForgottenBetween(top, items, p, q)
    ensures NumberAt(cd, top, n, items, p) < NumberAt(cd, top, n, items, q)
    decreases |p|
  {
    hide Enters, Passed;
    var it := items[p[0]];
    if p[0] != q[0] {
      NumberIsPassed(cd, top, n, items, p);
      NumberIsPassed(cd, top, n, items, q);
      PassedGrows(cd, top, items, p[0], q[0]);
    } else {
      var m := n + Passed(cd, top, items, p[0]) + Taken(it);
      if |p| == 1 {
        NumberIsPassed(cd, top && it.Group?, m, it.body, q[1..]);
      } else {
        NumbersGrow(cd, top && it.Group?, m, it.body, p[1..], q[1..]);
      }
    }
  }

  lemma {:induction false} OneFirst(p: Place, q: Place)
    requires p != q
    ensures Precedes(p, q) || Precedes(q, p)
    decreases |p|
  {
    if p != [] && q != [] && p[0] == q[0] {
      assert p == [p[0]] + p[1..] && q == [q[0]] + q[1..];
      OneFirst(p[1..], q[1..]);
    }
  }

  /** No `@starting-style` at the top level. */
  predicate Counted(items: seq<Item>)
    decreases items
  {
    forall i :: 0 <= i < |items| ==> CountedItem(items[i])
  }

  predicate CountedItem(it: Item)
    decreases it
  {
    it.Group? ==> it.name != "starting-style" && Counted(it.body)
  }

  lemma {:induction false} NoneForgotten(top: bool, items: seq<Item>, p: Place)
    requires Stands(items, p) && (top ==> Counted(items))
    ensures !Forgotten(top, items, p)
    decreases |p|
  {
    assert top ==> CountedItem(items[p[0]]);
    if |p| > 1 && top && items[p[0]].Group? { NoneForgotten(top, items[p[0]].body, p[1..]); }
  }

  lemma {:induction false} NoneForgottenBetween(top: bool, items: seq<Item>, p: Place, q: Place)
    requires Stands(items, p) && Stands(items, q) && (top ==> Counted(items))
    ensures !ForgottenBetween(top, items, p, q)
    decreases |p|
  {
    assert top ==> CountedItem(items[p[0]]);
    if p[0] != q[0] {
      NoneForgotten(top, items, p);
    } else if |p| > 1 && |q| > 1 {
      NoneForgottenBetween(top && items[p[0]].Group?, items[p[0]].body, p[1..], q[1..]);
    }
  }

  /** Any two anonymous layers entered at different places take different numbers. */
  lemma NumbersDiffer(cd: Conditions, items: seq<Item>, p: Place, q: Place)
    requires Counted(items) && Layered(cd, true, items, p) && Layered(cd, true, items, q) && p != q
    ensures NumberAt(cd, true, 0, items, p) != NumberAt(cd, true, 0, items, q)
  {
    hide Layered, Precedes, NumberAt;
    OneFirst(p, q);
    LayeredStands(cd, items, p);
    LayeredStands(cd, items, q);
    NoneForgottenBetween(true, items, p, q);
    NoneForgottenBetween(true, items, q, p);
    if Precedes(p, q) { NumbersGrow(cd, true, 0, items, p, q); } else { NumbersGrow(cd, true, 0, items, q, p); }
  }

  lemma LayeredStands(cd: Conditions, items: seq<Item>, p: Place)
    requires Layered(cd, true, items, p)
    ensures Stands(items, p)
  {
  }

  /** After a top-level `@starting-style` the number of a layer inside it is taken again. */
  lemma StartingStyleRepeatsNumbers(cd: Conditions)
    ensures var layer := CssTree.Group("layer", "", []);
            var items := [CssTree.Group("starting-style", "", [layer]), layer];
            && Layered(cd, true, items, [0, 0]) && Layered(cd, true, items, [1])
            && NumberAt(cd, true, 0, items, [0, 0]) == NumberAt(cd, true, 0, items, [1]) == 1
  {
    var layer := CssTree.Group("layer", "", []);
    var items := [CssTree.Group("starting-style", "", [layer]), layer];
    assert "media"[0] == 'm' && "layer"[0] == 'l' && "scope"[1] == 'c' && "supports"[1] == 'u';
    assert "starting-style"[1] == 't';
    assert [0, 0][1..] == [0];
    assert Passed(cd, true, items, 1) == Passed(cd, true, items, 0) + PassedIn(cd, true, items[0]) == 0;
  }

  // ---------------------------------------------------------------- rules of a layer

  /** The layer is anonymous layer `m` or one named inside it. */
  predicate Under(layer: string, m: nat) {
    layer == Anonymous(m) || Anonymous(m) + "." <= layer
  }

  /** A layer path lies under at most one anonymous layer. */
  lemma UnderOnlyOne(layer: string, m: nat, k: nat)
    requires Under(layer, m) && Under(layer, k)
    ensures m == k
  {
    hide Numeral;
    UnderDigits(layer, m);
    UnderDigits(layer, k);
  }

  lemma UnderDigits(layer: string, m: nat)
    requires Under(layer, m)
    ensures |layer| >= 5 && layer[5..][..DigitRun(layer[5..])] == Numeral(m)
  {
    hide Numeral;
    var rest := layer[5..];
    var d := Numeral(m);
    assert |d| <= |rest| && rest[..|d|] == d;
    if layer != Anonymous(m) { assert layer[|Anonymous(m)|] == '.' && rest[|d|] == '.'; }
    RunOf(rest, |d|);
  }

  lemma {:induction false} RunOf(s: string, k: nat)
    requires k <= |s| && (forall i :: 0 <= i < k ==> IsDigit(s[i])) && (k < |s| ==> !IsDigit(s[k]))
    ensures DigitRun(s) == k
    decreases k
  {
    if k > 0 { RunOf(s[1..], k - 1); }
  }

  /** No block on the way below the d-th step, the last one included, is an anonymous layer. */
  predicate NoneBelow(items: seq<Item>, q: Place, d: nat) {
    forall e :: d < e <= |q| && Stands(items, q[..e]) ==> !AnonymousLayer(BlockAt(items, q[..e]))
  }

  lemma {:induction false} StandsAlong(cd: Conditions, top: bool, items: seq<Item>, q: Place, e: nat)
    requires Stands(items, q) && Live(cd, top, items, q) && 0 < e <= |q|
    ensures Stands(items, q[..e]) && Live(cd, top, items, q[..e])
    decreases |q|
  {
    hide Enters;
    if e > 1 {
      StandsAlong(cd, top && items[q[0]].Group?, items[q[0]].body, q[1..], e - 1);
      assert q[..e][1..] == q[1..][..e - 1];
    }
  }

  /** The levels of a trail are those of the blocks along the place. */
  lemma {:induction false} TrailAt(cd: Conditions, top: bool, n: nat, items: seq<Item>, q: Place, e: nat)
    requires Stands(items, q) && Live(cd, top, items, q) && 0 < e <= |q| && Stands(items, q[..e])
    ensures Trail(cd, top, n, items, q)[e - 1].Numbered? <==> AnonymousLayer(BlockAt(items, q[..e]))
    ensures Layered(cd, top, items, q[..e]) ==>
              Trail(cd, top, n, items, q)[e - 1] == Numbered(NumberAt(cd, top, n, items, q[..e]))
    decreases |q|
  {
    hide Passed, Enters, AnonymousLayer, LevelOf, Taken;
    var it, m := items[q[0]], n + Passed(cd, top, items, q[0]);
    if e > 1 {
      assert q[..e][1..] == q[1..][..e - 1];
      TrailAt(cd, top && it.Group?, m + Taken(it), it.body, q[1..], e - 1);
    } else {
      LevelIsNumbered(m, it);
    }
  }

  lemma LevelIsNumbered(n: nat, it: Item)
    requires !it.Declare?
    ensures LevelOf(n, it).Numbered? <==> AnonymousLayer(it)
    ensures AnonymousLayer(it) ==> LevelOf(n, it) == Numbered(n + 1)
  {
  }

  /** Behind an anonymous layer, and no other, the names start with its own. */
  lemma {:induction false} NamesStart(levels: seq<Level>, d: nat, m: nat)
    requires d < |levels| && levels[d] == Numbered(m)
    requires forall e :: d < e < |levels| ==> !levels[e].Numbered?
    ensures LayersAlong(levels) != [] && LayersAlong(levels)[0] == Anonymous(m)
    decreases |levels|
  {
    hide Anonymous;
    if d < |levels| - 1 { NamesStart(levels[..|levels| - 1], d, m); }
  }

  lemma {:induction false} JoinStarts(names: seq<string>)
    requires names != []
    ensures JoinedBy(".", names) == names[0] || names[0] + "." <= JoinedBy(".", names)
    decreases |names|
  {
    if |names| > 1 {
      JoinStarts(names[..|names| - 1]);
      var before := JoinedBy(".", names[..|names| - 1]);
      assert names[0] + "." <= before + "." + names[|names| - 1];
    }
  }

  /**
   Every rule inside an anonymous layer, down to the next anonymous layer, at the top level or nested in
   style rules, lies under the layer's number.
   */
  lemma InsideLiesUnder(cd: Conditions, items: seq<Item>, p: Place, q: Place)
    requires Gives(cd, [], 0, items, q) && p <= q && Layered(cd, true, items, p) && NoneBelow(items, q, |p|)
    ensures Under(RuleAt(cd, [], 0, items, q).context.layer, NumberAt(cd, true, 0, items, p))
  {
    hide Bears, Own, SelectorsAlong, QueriesAlong, BoundsAlong, JoinedBy, Anonymous, Live, NumberAt;
    var trail, m := Trail(cd, true, 0, items, q), NumberAt(cd, true, 0, items, p);
    assert [] + trail == trail;
    LayeredStands(cd, items, p);
    assert q[..|p|] == p;
    TrailAt(cd, true, 0, items, q, |p|);
    forall e | |p| - 1 < e < |trail| ensures !trail[e].Numbered? {
      StandsAlong(cd, true, items, q, e + 1);
      TrailAt(cd, true, 0, items, q, e + 1);
    }
    NamesStart(trail, |p| - 1, m);
    JoinStarts(LayersAlong(trail));
  }

  /**
   Rules of two different anonymous layers, wherever in a tree the layers stand, never share a layer: side
   by side, in different blocks, nested in style rules or one inside the other.
   */
  lemma AnonymousLayersApart(cd: Conditions, items: seq<Item>, p: Place, q: Place, one: Place, two: Place)
    requires Counted(items) && Layered(cd, true, items, p) && Layered(cd, true, items, q) && p != q
    requires Gives(cd, [], 0, items, one) && p <= one && NoneBelow(items, one, |p|)
    requires Gives(cd, [], 0, items, two) && q <= two && NoneBelow(items, two, |q|)
    ensures RuleAt(cd, [], 0, items, one).context.layer != RuleAt(cd, [], 0, items, two).context.layer
  {
    hide Layered, Gives, NoneBelow, Under, NumberAt, RuleAt;
    InsideLiesUnder(cd, items, p, one);
    InsideLiesUnder(cd, items, q, two);
    NumbersDiffer(cd, items, p, q);
    GivesIsBounded(cd, [], 0, items, one);
    GivesIsBounded(cd, [], 0, items, two);
    var a, b := RuleAt(cd, [], 0, items, one).context.layer, RuleAt(cd, [], 0, items, two).context.layer;
    if a == b { UnderOnlyOne(a, NumberAt(cd, true, 0, items, p), NumberAt(cd, true, 0, items, q)); }
  }
}
