/**
 The retained window image as a value: what one Present call makes of it, and what holds over whole
 runs of calls, windowed and fullscreen mixed.
 */
module WindowModel {
  import opened Options
  import opened Bitmaps

  /** The pixels a bitmap shows, row by row. */
  datatype Frame = Frame(w: nat, rows: seq<seq<Pixel>>) {
    predicate Valid() {
      forall y :: 0 <= y < |rows| ==> |rows[y]| == w
    }

    predicate Has(x: int, y: int) {
      0 <= x < w && 0 <= y < |rows|
    }

    function At(x: nat, y: nat): Pixel
      requires Valid() && Has(x, y)
    {
      rows[y][x]
    }

    predicate SameSize(other: Frame) {
      w == other.w && |rows| == |other.rows|
    }
  }

  /** A popup painted straight into the image: only pixels of its rectangle change. */
  datatype Overlay = Overlay(rect: Rect, paint: Frame)

  /** One call: the mode, what the toolbar paints now, the content buffer and its damage. */
  datatype Call = Call(bare: bool, chrome: Frame, buf: Frame, damage: seq<Rect>, overlays: seq<Overlay>)

  datatype Retained = Retained(out: Option<Frame>, lastChromeH: int)

  predicate ValidCall(c: Call) {
    && c.buf.Valid() && c.buf.w > 0 && |c.buf.rows| > 0
    && c.chrome.Valid() && (!c.bare ==> c.chrome.w == c.buf.w && |c.chrome.rows| > 0)
    && (forall i :: 0 <= i < |c.overlays| ==> c.overlays[i].paint.Valid())
  }

  predicate ValidRetained(s: Retained) {
    s.out.Some? ==> s.out.value.Valid()
  }

  predicate Covered(rects: seq<Rect>, x: int, y: int) {
    exists i :: 0 <= i < |rects| && rects[i].Contains(x, y)
  }

  /** The reference: chrome rows over content rows, or the content alone without chrome. */
  function Compose(c: Call): (f: Frame)
    requires ValidCall(c)
    ensures f.Valid()
  {
    if c.bare then c.buf else Frame(c.buf.w, c.chrome.rows + c.buf.rows)
  }

  // ---------------------------------------------------------------- one call

  function OutHeight(c: Call): nat {
    |c.chrome.rows| + |c.buf.rows|
  }

  predicate Resized(s: Retained, c: Call) {
    s.out.None? || s.out.value.w != c.buf.w || |s.out.value.rows| != OutHeight(c)
  }

  predicate FullCopy(s: Retained, c: Call) {
    c.bare || Resized(s, c) || s.lastChromeH != |c.chrome.rows|
  }

  /** A windowed pixel: chrome on top; below it the buffer where copied, else what was retained. */
  function WindowedPixel(s: Retained, c: Call, x: nat, y: nat): Pixel
    requires ValidRetained(s) && ValidCall(c) && !c.bare && x < c.buf.w && y < OutHeight(c)
  {
    var h := |c.chrome.rows|;
    if y < h then c.chrome.At(x, y)
    else if FullCopy(s, c) || Covered(c.damage, x, y - h) then c.buf.At(x, y - h)
    else s.out.value.At(x, y)
  }

  function Composed(s: Retained, c: Call): (f: Frame)
    requires ValidRetained(s) && ValidCall(c)
    ensures f.Valid()
  {
    if c.bare then c.buf else
      Frame(c.buf.w, seq(OutHeight(c), y requires 0 <= y < OutHeight(c) =>
                         seq(c.buf.w, x requires 0 <= x < c.buf.w => WindowedPixel(s, c, x, y))))
  }

  function PaintOne(f: Frame, o: Overlay): (g: Frame)
    requires f.Valid() && o.paint.Valid()
    ensures g.Valid() && g.SameSize(f)
  {
    Frame(f.w, seq(|f.rows|, y requires 0 <= y < |f.rows| =>
                   seq(f.w, x requires 0 <= x < f.w =>
                       if o.rect.Contains(x, y) && o.paint.Has(x, y) then o.paint.At(x, y) else f.At(x, y))))
  }

  function Paint(f: Frame, overlays: seq<Overlay>): (g: Frame)
    requires f.Valid() && forall i :: 0 <= i < |overlays| ==> overlays[i].paint.Valid()
    ensures g.Valid() && g.SameSize(f)
    decreases |overlays|
  {
    if overlays == [] then f else Paint(PaintOne(f, overlays[0]), overlays[1..])
  }

  function After(s: Retained, c: Call): (t: Retained)
    requires ValidRetained(s) && ValidCall(c)
    ensures ValidRetained(t) && t.out.Some?
  {
    Retained(Some(Paint(Composed(s, c), c.overlays)), if c.bare then s.lastChromeH else |c.chrome.rows|)
  }

  predicate ChromeSame(s: Retained, c: Call)
    requires ValidRetained(s) && ValidCall(c) && !c.bare && !Resized(s, c)
  {
    forall x: nat, y: nat :: x < c.buf.w && y < |c.chrome.rows| ==> s.out.value.At(x, y) == c.chrome.At(x, y)
  }

  function Shifted(damage: seq<Rect>, dy: int): seq<Rect> {
    if damage == [] then []
    else (if damage[0].Empty() then []
          else [Rect(damage[0].X0, damage[0].Y0 + dy, damage[0].X1, damage[0].Y1 + dy)])
         + Shifted(damage[1..], dy)
  }

  function PopupRects(overlays: seq<Overlay>): seq<Rect> {
    if overlays == [] then []
    else (if overlays[0].rect.Empty() then [] else [overlays[0].rect]) + PopupRects(overlays[1..])
  }

  /** The damage handed to the platform. */
  function Merged(s: Retained, c: Call): seq<Rect>
    requires ValidRetained(s) && ValidCall(c)
  {
    (if c.bare then c.damage
     else if FullCopy(s, c) then [Rect(0, 0, c.buf.w, OutHeight(c))]
     else (if ChromeSame(s, c) then [] else [Rect(0, 0, c.buf.w, |c.chrome.rows|)])
          + Shifted(c.damage, |c.chrome.rows|))
    + PopupRects(c.overlays)
  }

  // ---------------------------------------------------------------- the image is right exactly when

  /** Content pixels the retained image no longer has right. */
  predicate StalePixel(s: Retained, c: Call, x: nat, y: nat)
    requires ValidRetained(s) && ValidCall(c) && !c.bare && !Resized(s, c) && c.buf.Has(x, y)
  {
    s.out.value.At(x, y + |c.chrome.rows|) != c.buf.At(x, y)
  }

  /**
   The damage-only blit equals full recomposition exactly when the damage covers every stale pixel;
   a full copy always does.
   */
  lemma BlitIsRightIff(s: Retained, c: Call)
    requires ValidRetained(s) && ValidCall(c)
    ensures FullCopy(s, c) ==> Composed(s, c) == Compose(c)
    ensures !FullCopy(s, c) ==>
              (Composed(s, c) == Compose(c)
               <==> forall x: nat, y: nat :: c.buf.Has(x, y) && StalePixel(s, c, x, y) ==> Covered(c.damage, x, y))
  {
    if c.bare { return; }
    if FullCopy(s, c)
       || (forall x: nat, y: nat :: c.buf.Has(x, y) && StalePixel(s, c, x, y) ==> Covered(c.damage, x, y)) {
      BlitSuffices(s, c);
    } else {
      var x: nat, y: nat :| c.buf.Has(x, y) && StalePixel(s, c, x, y) && !Covered(c.damage, x, y);
      BlitMisses(s, c, x, y);
    }
  }

  lemma BlitSuffices(s: Retained, c: Call)
    requires ValidRetained(s) && ValidCall(c) && !c.bare
    requires !FullCopy(s, c) ==>
               forall x: nat, y: nat :: c.buf.Has(x, y) && StalePixel(s, c, x, y) ==> Covered(c.damage, x, y)
    ensures Composed(s, c) == Compose(c)
  {
    hide Covered;
    var got, want := Composed(s, c), Compose(c);
    var h := |c.chrome.rows|;
    forall y | 0 <= y < OutHeight(c) ensures got.rows[y] == want.rows[y] {
      forall x | 0 <= x < c.buf.w ensures got.rows[y][x] == want.rows[y][x] {
        assert got.rows[y][x] == WindowedPixel(s, c, x, y);
        if y >= h && !FullCopy(s, c) {
          assert c.buf.Has(x, y - h);
          assert StalePixel(s, c, x, y - h) ==> Covered(c.damage, x, y - h);
        }
      }
    }
  }

  lemma BlitMisses(s: Retained, c: Call, x: nat, y: nat)
    requires ValidRetained(s) && ValidCall(c) && !FullCopy(s, c)
    requires c.buf.Has(x, y) && StalePixel(s, c, x, y) && !Covered(c.damage, x, y)
    ensures Composed(s, c) != Compose(c)
  {
    hide Covered;
    var h := |c.chrome.rows|;
    assert Composed(s, c).rows[y + h][x] == WindowedPixel(s, c, x, y + h);
    assert Compose(c).rows[y + h][x] == c.buf.At(x, y);
  }

  // ---------------------------------------------------------------- whole runs

  /** The damage covers what changed since the previous buffer, everything if its size changed. */
  ghost predicate DamageComplete(before: Option<Frame>, c: Call)
    requires before.Some? ==> before.value.Valid()
    requires ValidCall(c)
  {
    forall x: nat, y: nat :: c.buf.Has(x, y) && !Covered(c.damage, x, y) ==>
      before.Some? && before.value.SameSize(c.buf) && before.value.At(x, y) == c.buf.At(x, y)
  }

  /** The buffer of the call before this one. */
  function PreviousBuffer(calls: seq<Call>, i: nat): Option<Frame>
    requires i < |calls|
  {
    if i == 0 then None else Some(calls[i - 1].buf)
  }

  ghost predicate ValidRun(calls: seq<Call>) {
    && (forall i :: 0 <= i < |calls| ==> ValidCall(calls[i]))
    && (forall i :: 0 <= i < |calls| ==> DamageComplete(PreviousBuffer(calls, i), calls[i]))
  }

  lemma ValidBefore(calls: seq<Call>)
    requires calls != [] && ValidRun(calls)
    ensures ValidRun(calls[..|calls| - 1])
    ensures |calls| > 1 ==> DamageComplete(Some(calls[|calls| - 2].buf), calls[|calls| - 1])
  {
    var before := calls[..|calls| - 1];
    forall i | 0 <= i < |before| ensures DamageComplete(PreviousBuffer(before, i), before[i]) {
      assert DamageComplete(PreviousBuffer(calls, i), calls[i]);
    }
    assert DamageComplete(PreviousBuffer(calls, |calls| - 1), calls[|calls| - 1]);
  }

  const FRESH := Retained(None, 0)

  function State(calls: seq<Call>): (s: Retained)
    requires forall i :: 0 <= i < |calls| ==> ValidCall(calls[i])
    ensures ValidRetained(s)
  {
    if calls == [] then FRESH else After(State(calls[..|calls| - 1]), calls[|calls| - 1])
  }

  /** No popup was drawn since the last full copy. */
  predicate Untouched(calls: seq<Call>)
    requires forall i :: 0 <= i < |calls| ==> ValidCall(calls[i])
  {
    calls != [] &&
    var before, last := calls[..|calls| - 1], calls[|calls| - 1];
    last.overlays == [] && (FullCopy(State(before), last) || Untouched(before))
  }

  /** The chrome height on record is the one of the last windowed call. */
  lemma ChromeHeightRecorded(calls: seq<Call>)
    requires calls != [] && forall i :: 0 <= i < |calls| ==> ValidCall(calls[i])
    ensures !calls[|calls| - 1].bare ==> State(calls).lastChromeH == |calls[|calls| - 1].chrome.rows|
  {
  }

  /**
   Over every run whose damage is complete, the presented image is the full recomposition after
   every call with no popup drawn since the last full copy.
   */
  lemma {:induction false} PresentedIsRecomposed(calls: seq<Call>)
    requires ValidRun(calls) && Untouched(calls)
    ensures State(calls).out == Some(Compose(calls[|calls| - 1]))
    decreases |calls|
  {
    hide Composed, Compose, DamageComplete, StalePixel, Covered, ValidCall;
    var before, last := calls[..|calls| - 1], calls[|calls| - 1];
    var s := State(before);
    BlitIsRightIff(s, last);
    NoPopups(Composed(s, last));
    if !FullCopy(s, last) {
      ValidBefore(calls);
      PresentedIsRecomposed(before);
      ChromeHeightRecorded(before);
      var prev := before[|before| - 1];
      assert prev == calls[|calls| - 2];
      StaleAreDamaged(s, prev, last);
    }
  }

  lemma NoPopups(f: Frame)
    requires f.Valid()
    ensures Paint(f, []) == f
  {
  }

  /** When the retained image shows the previous call, complete damage covers every stale pixel. */
  lemma StaleAreDamaged(s: Retained, prev: Call, c: Call)
    requires ValidRetained(s) && ValidCall(prev) && ValidCall(c) && !FullCopy(s, c)
    requires s.out == Some(Compose(prev))
    requires !prev.bare ==> s.lastChromeH == |prev.chrome.rows|
    requires DamageComplete(Some(prev.buf), c)
    ensures forall x: nat, y: nat :: c.buf.Has(x, y) && StalePixel(s, c, x, y) ==> Covered(c.damage, x, y)
  {
    forall x: nat, y: nat | c.buf.Has(x, y) && !Covered(c.damage, x, y)
      ensures !StalePixel(s, c, x, y)
    {
      assert prev.buf.SameSize(c.buf) && prev.buf.At(x, y) == c.buf.At(x, y);
      assert !prev.bare;
    }
  }

  // ---------------------------------------------------------------- the damage list

  lemma {:induction false} ShiftedCovers(damage: seq<Rect>, dy: int, x: int, y: int)
    ensures Covered(Shifted(damage, dy), x, y) <==> Covered(damage, x, y - dy)
  {
    if damage != [] {
      ShiftedCovers(damage[1..], dy, x, y);
      var r := damage[0];
      var head := if r.Empty() then [] else [Rect(r.X0, r.Y0 + dy, r.X1, r.Y1 + dy)];
      CoveredConcat(head, Shifted(damage[1..], dy), x, y);
      CoveredConcat([damage[0]], damage[1..], x, y - dy);
      assert damage == [damage[0]] + damage[1..];
      CoveredOne(damage[0], x, y - dy);
      if head != [] { CoveredOne(head[0], x, y); }
    }
  }

  lemma CoveredOne(r: Rect, x: int, y: int)
    ensures Covered([r], x, y) <==> r.Contains(x, y)
  {
    if r.Contains(x, y) { assert [r][0].Contains(x, y); }
  }

  lemma CoveredConcat(a: seq<Rect>, b: seq<Rect>, x: int, y: int)
    ensures Covered(a + b, x, y) <==> Covered(a, x, y) || Covered(b, x, y)
  {
    if i :| 0 <= i < |a| && a[i].Contains(x, y) { assert (a + b)[i].Contains(x, y); }
    if i :| 0 <= i < |b| && b[i].Contains(x, y) { assert (a + b)[|a| + i].Contains(x, y); }
    if i :| 0 <= i < |a + b| && (a + b)[i].Contains(x, y) {
      if i < |a| { assert a[i].Contains(x, y); } else { assert b[i - |a|].Contains(x, y); }
    }
  }

  /** Painting popups changes only pixels of the rectangles reported for them. */
  lemma {:induction false} PaintCovered(f: Frame, overlays: seq<Overlay>, x: nat, y: nat)
    requires f.Valid() && f.Has(x, y) && forall i :: 0 <= i < |overlays| ==> overlays[i].paint.Valid()
    ensures Paint(f, overlays).At(x, y) != f.At(x, y) ==> Covered(PopupRects(overlays), x, y)
    decreases |overlays|
  {
    if overlays != [] {
      PaintCovered(PaintOne(f, overlays[0]), overlays[1..], x, y);
      var head := if overlays[0].rect.Empty() then [] else [overlays[0].rect];
      CoveredConcat(head, PopupRects(overlays[1..]), x, y);
      if head != [] { CoveredOne(head[0], x, y); }
    }
  }

  // ---------------------------------------------------------------- pixel by pixel, popups included

  /** The call writes this pixel of the image from its own pictures. */
  predicate Copied(s: Retained, c: Call, x: int, y: int)
    requires ValidRetained(s) && ValidCall(c)
  {
    FullCopy(s, c) || y < |c.chrome.rows| || Covered(c.damage, x, y - |c.chrome.rows|)
  }

  /** No popup was drawn over this pixel since it was last copied. */
  predicate Clean(calls: seq<Call>, x: int, y: int)
    requires forall i :: 0 <= i < |calls| ==> ValidCall(calls[i])
  {
    calls != [] &&
    var before, last := calls[..|calls| - 1], calls[|calls| - 1];
    !Covered(PopupRects(last.overlays), x, y) && (Copied(State(before), last, x, y) || Clean(before, x, y))
  }

  lemma ImageHasTheSize(calls: seq<Call>)
    requires calls != [] && forall i :: 0 <= i < |calls| ==> ValidCall(calls[i])
    ensures State(calls).out.Some? && State(calls).out.value.SameSize(Compose(calls[|calls| - 1]))
  {
  }

  /**
   Over every run whose damage is complete, popups or not: a pixel of the presented image shows what full
   recomposition shows there, unless a popup was drawn over it since it was last copied.
   */
  lemma {:induction false} PixelIsRecomposed(calls: seq<Call>, x: nat, y: nat)
    requires ValidRun(calls) && Clean(calls, x, y) && Compose(calls[|calls| - 1]).Has(x, y)
    ensures State(calls).out.Some? && State(calls).out.value.Has(x, y)
    ensures State(calls).out.value.At(x, y) == Compose(calls[|calls| - 1]).At(x, y)
    decreases |calls|
  {
    hide DamageComplete, Covered, ValidCall, ChromeSame, Paint, Composed;
    var before, last := calls[..|calls| - 1], calls[|calls| - 1];
    var s := State(before);
    ImageHasTheSize(calls);
    PixelPresented(s, last, x, y);
    if !Copied(s, last, x, y) {
      ValidBefore(calls);
      ImageHasTheSize(before);
      var prev := before[|before| - 1];
      assert prev == calls[|calls| - 2];
      PixelIsRecomposed(before, x, y);
      ChromeHeightRecorded(before);
      PixelKept(s, prev, last, x, y);
    }
  }

  /** What a call without popups over a pixel shows there. */
  lemma PixelPresented(s: Retained, c: Call, x: nat, y: nat)
    requires ValidRetained(s) && ValidCall(c) && Compose(c).Has(x, y) && !Covered(PopupRects(c.overlays), x, y)
    ensures After(s, c).out.value.Has(x, y)
    ensures Copied(s, c, x, y) ==> After(s, c).out.value.At(x, y) == Compose(c).At(x, y)
    ensures !Copied(s, c, x, y) ==> s.out.Some? && s.out.value.Has(x, y)
                                    && After(s, c).out.value.At(x, y) == s.out.value.At(x, y)
  {
    hide Covered, PopupRects, Paint;
    PaintCovered(Composed(s, c), c.overlays, x, y);
    if !c.bare { assert Composed(s, c).At(x, y) == WindowedPixel(s, c, x, y); }
  }

  /** A pixel that was right and is not damaged is right. */
  lemma PixelKept(s: Retained, prev: Call, c: Call, x: nat, y: nat)
    requires ValidRetained(s) && ValidCall(prev) && ValidCall(c) && Compose(c).Has(x, y) && !Copied(s, c, x, y)
    requires s.out.value.SameSize(Compose(prev)) && (!prev.bare ==> s.lastChromeH == |prev.chrome.rows|)
    requires s.out.value.At(x, y) == Compose(prev).At(x, y) && DamageComplete(Some(prev.buf), c)
    ensures s.out.value.At(x, y) == Compose(c).At(x, y)
  {
    hide Covered;
    var h := |c.chrome.rows|;
    assert c.buf.Has(x, y - h);
    assert prev.buf.SameSize(c.buf) && prev.buf.At(x, y - h) == c.buf.At(x, y - h);
    assert !prev.bare;
  }

  lemma {:induction false} UntouchedIsClean(calls: seq<Call>, x: int, y: int)
    requires (forall i :: 0 <= i < |calls| ==> ValidCall(calls[i])) && Untouched(calls)
    ensures Clean(calls, x, y)
    decreases |calls|
  {
    hide State, ValidCall, Covered;
    var before, last := calls[..|calls| - 1], calls[|calls| - 1];
    NothingCovers(x, y);
    if !FullCopy(State(before), last) { UntouchedIsClean(before, x, y); }
  }

  lemma NothingCovers(x: int, y: int)
    ensures !Covered(PopupRects([]), x, y)
  {
  }

  /** A windowed run whose damage is complete and whose image is wrong where a popup was that is gone. */
  lemma PopupOutlivesItself()
    ensures exists calls: seq<Call>, x: nat, y: nat ::
              && |calls| == 2 && ValidRun(calls) && !calls[0].bare && !calls[1].bare && calls[1].overlays == []
              && State(calls).out.value.Has(x, y) && Compose(calls[1]).Has(x, y)
              && State(calls).out.value.At(x, y) != Compose(calls[1]).At(x, y)
  {
    var dark, light: Pixel := [0, 0, 0, 255], [255, 255, 255, 255];
    var page, bar, menu := Frame(1, [[dark]]), Frame(1, [[dark]]), Frame(1, [[light], [light]]);
    var spot := Rect(0, 0, 1, 1);
    var first := Call(false, bar, page, [spot], [Overlay(Rect(0, 1, 1, 2), menu)]);
    var second := Call(false, bar, page, [], []);
    var calls := [first, second];
    CoveredOne(spot, 0, 0);
    forall i | 0 <= i < |calls| ensures DamageComplete(PreviousBuffer(calls, i), calls[i]) {}
    AfterWindowedMenu(first, second, 0, 1);
    assert ValidRun(calls) && Compose(second).Has(0, 1) && Compose(second).At(0, 1) == dark;
    hide State;
    assert State(calls).out.value.At(0, 1) == light;
  }

  /** After a windowed call with one popup and one without damage, the popup's pixels stay. */
  lemma AfterWindowedMenu(first: Call, second: Call, x: nat, y: nat)
    requires ValidCall(first) && ValidCall(second) && !first.bare && !second.bare && |first.overlays| == 1
    requires |first.chrome.rows| == |second.chrome.rows| <= y && first.buf.SameSize(second.buf)
    requires second.overlays == [] && second.damage == [] && Compose(second).Has(x, y)
    requires first.overlays[0].rect.Contains(x, y) && first.overlays[0].paint.Has(x, y)
    ensures State([first, second]).out.value.Has(x, y)
    ensures State([first, second]).out.value.At(x, y) == first.overlays[0].paint.At(x, y)
  {
    hide Composed, Merged;
    assert [first][..0] == [] && [first, second][..1] == [first];
    var s := After(FRESH, first);
    assert State([first]) == After(State([]), first) == s;
    assert State([first, second]) == After(s, second);
    PaintSingle(Composed(FRESH, first), first.overlays);
    NothingCovers(x, y);
    ImageHasTheSize([first]);
    assert !Copied(s, second, x, y);
    PixelPresented(s, second, x, y);
  }

  /** A windowed call reports every pixel it changes, whatever was retained before. */
  lemma WindowedDamageCovers(s: Retained, c: Call, x: nat, y: nat)
    requires ValidRetained(s) && ValidCall(c) && !c.bare
    requires s.out.Some? && s.out.value.SameSize(After(s, c).out.value) && s.out.value.Has(x, y)
    requires s.out.value.At(x, y) != After(s, c).out.value.At(x, y)
    ensures Covered(Merged(s, c), x, y)
  {
    var base := Composed(s, c);
    PaintCovered(base, c.overlays, x, y);
    var h := |c.chrome.rows|;
    var whole := if FullCopy(s, c) then [Rect(0, 0, c.buf.w, OutHeight(c))]
                 else (if ChromeSame(s, c) then [] else [Rect(0, 0, c.buf.w, h)]) + Shifted(c.damage, h);
    CoveredConcat(whole, PopupRects(c.overlays), x, y);
    if base.At(x, y) != s.out.value.At(x, y) {
      if FullCopy(s, c) {
        CoveredOne(whole[0], x, y);
      } else {
        var top := if ChromeSame(s, c) then [] else [Rect(0, 0, c.buf.w, h)];
        CoveredConcat(top, Shifted(c.damage, h), x, y);
        ShiftedCovers(c.damage, h, x, y);
        if y < h { CoveredOne(Rect(0, 0, c.buf.w, h), x, y); }
      }
    }
  }

  /** A call without chrome reports a pixel it changes when the image showed the previous call there. */
  lemma BareDamageCovers(s: Retained, prev: Call, c: Call, x: nat, y: nat)
    requires ValidRetained(s) && ValidCall(prev) && ValidCall(c) && c.bare
    requires s.out.Some? && s.out.value.SameSize(Compose(prev)) && DamageComplete(Some(prev.buf), c)
    requires s.out.value.SameSize(After(s, c).out.value) && s.out.value.Has(x, y)
    requires s.out.value.At(x, y) == Compose(prev).At(x, y) && s.out.value.At(x, y) != After(s, c).out.value.At(x, y)
    ensures Covered(Merged(s, c), x, y)
  {
    PaintCovered(c.buf, c.overlays, x, y);
    CoveredConcat(c.damage, PopupRects(c.overlays), x, y);
  }

  /**
   Over every run whose damage is complete: the list handed to the platform covers every pixel that
   differs between two consecutive images of one size, unless the later call is fullscreen and a popup was
   drawn over the pixel since it was last copied.
   */
  lemma MergedDamageCovers(calls: seq<Call>, x: nat, y: nat)
    requires |calls| > 1 && ValidRun(calls)
    requires var before, last := calls[..|calls| - 1], calls[|calls| - 1];
             && (last.bare ==> Clean(before, x, y))
             && State(before).out.value.SameSize(State(calls).out.value)
             && State(before).out.value.Has(x, y)
             && State(before).out.value.At(x, y) != State(calls).out.value.At(x, y)
    ensures Covered(Merged(State(calls[..|calls| - 1]), calls[|calls| - 1]), x, y)
  {
    var before, last := calls[..|calls| - 1], calls[|calls| - 1];
    if last.bare {
      ValidBefore(calls);
      ImageHasTheSize(before);
      PixelIsRecomposed(before, x, y);
      var prev := before[|before| - 1];
      assert prev == calls[|calls| - 2];
      BareDamageCovers(State(before), prev, last, x, y);
    } else {
      WindowedDamageCovers(State(before), last, x, y);
    }
  }

  // ---------------------------------------------------------------- fullscreen and the popup before

  /** The same popups painted otherwise. */
  function Repainted(overlays: seq<Overlay>, paints: seq<Frame>): (r: seq<Overlay>)
    requires |paints| == |overlays|
    ensures |r| == |overlays|
    ensures forall i :: 0 <= i < |r| ==> r[i] == Overlay(overlays[i].rect, paints[i])
  {
    seq(|overlays|, i requires 0 <= i < |overlays| => Overlay(overlays[i].rect, paints[i]))
  }

  predicate Paints(overlays: seq<Overlay>, paints: seq<Frame>) {
    |paints| == |overlays| && forall i :: 0 <= i < |paints| ==> paints[i].Valid()
  }

  predicate Changes(s: Retained, c: Call, x: nat, y: nat)
    requires ValidRetained(s) && ValidCall(c)
  {
    && s.out.Some? && s.out.value.Has(x, y) && After(s, c).out.value.Has(x, y)
    && s.out.value.At(x, y) != After(s, c).out.value.At(x, y)
  }

  /** Every pixel the call changes is in its list. */
  ghost predicate ReportsAll(s: Retained, c: Call)
    requires ValidRetained(s) && ValidCall(c)
  {
    forall x: nat, y: nat ::
      Changes(s, c, x, y) ==> Covered(Merged(s, c), x, y)
  }

  /** What a call leaves when its popups are painted so. */
  function AfterPaints(s: Retained, c: Call, paints: seq<Frame>): (t: Retained)
    requires ValidRetained(s) && ValidCall(c) && Paints(c.overlays, paints)
    ensures ValidRetained(t)
  {
    After(s, c.(overlays := Repainted(c.overlays, paints)))
  }

  lemma AfterPaintsIs(s: Retained, c: Call, paints: seq<Frame>)
    requires ValidRetained(s) && ValidCall(c) && Paints(c.overlays, paints)
    ensures AfterPaints(s, c, paints).out == Some(Paint(Composed(s, c), Repainted(c.overlays, paints)))
  {
    hide Paint;
    var d := c.(overlays := Repainted(c.overlays, paints));
    var a, b := Composed(s, c), Composed(s, d);
    if !c.bare {
      forall y | 0 <= y < OutHeight(c) ensures a.rows[y] == b.rows[y] {
        forall x | 0 <= x < c.buf.w ensures a.rows[y][x] == b.rows[y][x] {
          assert a.rows[y][x] == WindowedPixel(s, c, x, y) && b.rows[y][x] == WindowedPixel(s, d, x, y);
        }
      }
    }
    assert a == b;
  }

  lemma {:induction false} SameRects(overlays: seq<Overlay>, paints: seq<Frame>)
    requires |paints| == |overlays|
    ensures PopupRects(Repainted(overlays, paints)) == PopupRects(overlays)
    decreases |overlays|
  {
    if overlays != [] {
      SameRects(overlays[1..], paints[1..]);
      assert Repainted(overlays, paints)[1..] == Repainted(overlays[1..], paints[1..]);
    }
  }

  function Solid(f: Frame, q: Pixel): (g: Frame)
    ensures g.Valid() && g.SameSize(f)
  {
    Frame(f.w, seq(|f.rows|, y => seq(f.w, x => q)))
  }

  /** Where popups of one colour lie, the image has that colour. */
  lemma {:induction false} SolidShows(f: Frame, overlays: seq<Overlay>, q: Pixel, x: nat, y: nat)
    requires f.Valid() && f.Has(x, y)
    requires forall i :: 0 <= i < |overlays| ==> overlays[i].paint.Valid() && overlays[i].paint == Solid(f, q)
    requires f.At(x, y) == q || Covered(PopupRects(overlays), x, y)
    ensures Paint(f, overlays).At(x, y) == q
    decreases |overlays|
  {
    if overlays == [] {
      NothingCovers(x, y);
    } else {
      var g := PaintOne(f, overlays[0]);
      var head := if overlays[0].rect.Empty() then [] else [overlays[0].rect];
      CoveredConcat(head, PopupRects(overlays[1..]), x, y);
      if head != [] { CoveredOne(head[0], x, y); }
      assert Solid(g, q) == Solid(f, q);
      SolidShows(g, overlays[1..], q, x, y);
    }
  }

  /**
   After a call that showed popups with these rectangles over a right image, a fullscreen call reports every
   pixel it changes, however the popups were painted, exactly when each pixel of those rectangles is damaged
   or under a new popup.
   */
  lemma FullscreenReportsIff(s: Retained, prev: Call, c: Call)
    requires ValidRetained(s) && ValidCall(prev) && ValidCall(c) && c.bare
    requires Composed(s, prev) == Compose(prev) && Compose(prev).SameSize(c.buf) && DamageComplete(Some(prev.buf), c)
    ensures (forall paints :: Paints(prev.overlays, paints) ==> ReportsAll(AfterPaints(s, prev, paints), c))
            <==> (forall x: nat, y: nat :: c.buf.Has(x, y) && Covered(PopupRects(prev.overlays), x, y) ==>
                    Covered(c.damage, x, y) || Covered(PopupRects(c.overlays), x, y))
  {
    hide Covered, DamageComplete, ReportsAll, AfterPaints, Composed, Compose, PopupRects;
    if forall x: nat, y: nat :: c.buf.Has(x, y) && Covered(PopupRects(prev.overlays), x, y) ==>
         Covered(c.damage, x, y) || Covered(PopupRects(c.overlays), x, y) {
      forall paints | Paints(prev.overlays, paints) ensures ReportsAll(AfterPaints(s, prev, paints), c) {
        FullscreenReports(s, prev, c, paints);
      }
    } else {
      var x: nat, y: nat :| c.buf.Has(x, y) && Covered(PopupRects(prev.overlays), x, y)
                            && !Covered(c.damage, x, y) && !Covered(PopupRects(c.overlays), x, y);
      FullscreenMisses(s, prev, c, x, y);
    }
  }

  lemma FullscreenReports(s: Retained, prev: Call, c: Call, paints: seq<Frame>)
    requires ValidRetained(s) && ValidCall(prev) && ValidCall(c) && c.bare && Paints(prev.overlays, paints)
    requires Composed(s, prev) == Compose(prev) && Compose(prev).SameSize(c.buf) && DamageComplete(Some(prev.buf), c)
    requires forall x: nat, y: nat :: c.buf.Has(x, y) && Covered(PopupRects(prev.overlays), x, y) ==>
               Covered(c.damage, x, y) || Covered(PopupRects(c.overlays), x, y)
    ensures ReportsAll(AfterPaints(s, prev, paints), c)
  {
    hide Covered, DamageComplete, AfterPaints, Composed, Compose, PopupRects, Paint, Merged;
    var t := AfterPaints(s, prev, paints);
    AfterPaintsIs(s, prev, paints);
    SameRects(prev.overlays, paints);
    BareIsBuffer(t, c);
    forall x: nat, y: nat | Changes(t, c, x, y) ensures Covered(Merged(t, c), x, y) {
      PaintCovered(Compose(prev), Repainted(prev.overlays, paints), x, y);
      BareMergedIs(t, c, x, y);
      if !Covered(PopupRects(prev.overlays), x, y) { BareDamageCovers(t, prev, c, x, y); }
    }
  }

  lemma BareMergedIs(s: Retained, c: Call, x: int, y: int)
    requires ValidRetained(s) && ValidCall(c) && c.bare
    ensures Covered(Merged(s, c), x, y) <==> Covered(c.damage, x, y) || Covered(PopupRects(c.overlays), x, y)
  {
    CoveredConcat(c.damage, PopupRects(c.overlays), x, y);
  }

  lemma FullscreenMisses(s: Retained, prev: Call, c: Call, x: nat, y: nat)
    requires ValidRetained(s) && ValidCall(prev) && ValidCall(c) && c.bare && c.buf.Has(x, y)
    requires Composed(s, prev) == Compose(prev) && Compose(prev).SameSize(c.buf)
    requires Covered(PopupRects(prev.overlays), x, y)
    requires !Covered(c.damage, x, y) && !Covered(PopupRects(c.overlays), x, y)
    ensures exists paints :: Paints(prev.overlays, paints) && !ReportsAll(AfterPaints(s, prev, paints), c)
  {
    hide Covered, AfterPaints, Composed, PopupRects, Paint, Merged;
    var q := OtherColour(c.buf.At(x, y));
    var paints := seq(|prev.overlays|, i => Solid(Compose(prev), q));
    var t := AfterPaints(s, prev, paints);
    AfterPaintsIs(s, prev, paints);
    SameRects(prev.overlays, paints);
    SolidShows(Compose(prev), Repainted(prev.overlays, paints), q, x, y);
    BareIsBuffer(t, c);
    PaintCovered(c.buf, c.overlays, x, y);
    BareMergedIs(t, c, x, y);
    assert Changes(t, c, x, y);
    assert !ReportsAll(t, c);
  }

  function OtherColour(p: Pixel): (q: Pixel)
    ensures q != p
  {
    if p == [0, 0, 0, 0] then [255, 255, 255, 255] else [0, 0, 0, 0]
  }

  /** The image after two fullscreen calls, a menu open during the first only. */
  lemma AfterMenu(first: Call, second: Call)
    requires ValidCall(first) && ValidCall(second) && first.bare && second.bare
    requires |first.overlays| == 1 && second.overlays == [] && second.damage == []
    ensures State([first]).out == Some(PaintOne(first.buf, first.overlays[0]))
    ensures State([first, second]).out == Some(second.buf)
    ensures Merged(State([first]), second) == []
  {
    hide PaintOne, Composed, Merged;
    assert [first][..0] == [] && [first, second][..1] == [first];
    BareIsBuffer(FRESH, first);
    assert State([]) == FRESH;
    assert State([first]) == After(FRESH, first);
    assert first.overlays[1..] == [];
    PaintSingle(first.buf, first.overlays);
    BareIsBuffer(State([first]), second);
    assert State([first, second]) == After(State([first]), second);
    BareMerged(State([first]), second);
  }

  lemma PaintSingle(f: Frame, overlays: seq<Overlay>)
    requires f.Valid() && |overlays| == 1 && overlays[0].paint.Valid()
    ensures Paint(f, overlays) == PaintOne(f, overlays[0])
  {
    hide PaintOne;
    assert overlays[1..] == [];
    assert Paint(PaintOne(f, overlays[0]), []) == PaintOne(f, overlays[0]);
  }

  lemma BareMerged(s: Retained, c: Call)
    requires ValidRetained(s) && ValidCall(c) && c.bare && c.damage == [] && c.overlays == []
    ensures Merged(s, c) == []
  {
  }

  lemma BareIsBuffer(s: Retained, c: Call)
    requires ValidRetained(s) && ValidCall(c) && c.bare
    ensures Composed(s, c) == c.buf
  {
  }

  /** Without that condition a fullscreen call can miss a pixel: the one a closed menu had covered. */
  lemma FullscreenMissesClosedMenu()
    ensures exists calls: seq<Call>, x: nat, y: nat ::
              && |calls| == 2 && ValidRun(calls)
              && State(calls[..1]).out.value.SameSize(State(calls).out.value)
              && State(calls).out.value.Has(x, y)
              && State(calls[..1]).out.value.At(x, y) != State(calls).out.value.At(x, y)
              && !Covered(Merged(State(calls[..1]), calls[1]), x, y)
  {
    var dark, light: Pixel := [0, 0, 0, 255], [255, 255, 255, 255];
    var page, menu := Frame(1, [[dark]]), Frame(1, [[light]]);
    var spot := Rect(0, 0, 1, 1);
    var first := Call(true, Frame(0, []), page, [spot], [Overlay(spot, menu)]);
    var second := Call(true, Frame(0, []), page, [], []);
    var calls := [first, second];
    CoveredOne(spot, 0, 0);
    forall i | 0 <= i < |calls| ensures DamageComplete(PreviousBuffer(calls, i), calls[i]) {}
    AfterMenu(first, second);
    hide State, Merged;
    assert calls[..1] == [first];
    assert PaintOne(page, first.overlays[0]).At(0, 0) == light && page.At(0, 0) == dark;
  }

  // ---------------------------------------------------------------- windowed and the popup before

  /** Which pixels a call copies depends on the size and chrome height on record only. */
  lemma CopiedAlike(s: Retained, prev: Call, paints: seq<Frame>, c: Call, x: int, y: int)
    requires ValidRetained(s) && ValidCall(prev) && ValidCall(c) && Paints(prev.overlays, paints)
    ensures Copied(AfterPaints(s, prev, paints), c, x, y) == Copied(After(s, prev), c, x, y)
  {
    hide Paint, Covered;
  }

  /** Right at every pixel is right. */
  lemma SameFrame(a: Frame, b: Frame)
    requires a.Valid() && b.Valid() && a.SameSize(b)
    requires forall x: nat, y: nat :: a.Has(x, y) ==> a.At(x, y) == b.At(x, y)
    ensures a == b
  {
    forall y | 0 <= y < |a.rows| ensures a.rows[y] == b.rows[y] {
      forall x | 0 <= x < a.w ensures a.rows[y][x] == b.rows[y][x] { assert a.At(x, y) == b.At(x, y); }
    }
  }

  /**
   After a call that showed popups with these rectangles over a right image, a windowed call without popups
   presents the full recomposition, however the popups were painted, exactly when it copies each of their
   pixels again.
   */
  lemma WindowedIsRightIff(s: Retained, prev: Call, c: Call)
    requires ValidRetained(s) && ValidCall(prev) && ValidCall(c) && !c.bare && c.overlays == []
    requires Composed(s, prev) == Compose(prev) && DamageComplete(Some(prev.buf), c)
    ensures (forall paints :: Paints(prev.overlays, paints) ==>
               After(AfterPaints(s, prev, paints), c).out == Some(Compose(c)))
            <==> (forall x: nat, y: nat :: Compose(c).Has(x, y) && Covered(PopupRects(prev.overlays), x, y) ==>
                    Copied(After(s, prev), c, x, y))
  {
    hide Covered, DamageComplete, After, AfterPaints, Composed, Compose, PopupRects, Copied;
    if forall x: nat, y: nat :: Compose(c).Has(x, y) && Covered(PopupRects(prev.overlays), x, y) ==>
         Copied(After(s, prev), c, x, y) {
      forall paints | Paints(prev.overlays, paints)
        ensures After(AfterPaints(s, prev, paints), c).out == Some(Compose(c))
      {
        WindowedRight(s, prev, c, paints);
      }
    } else {
      var x: nat, y: nat :| Compose(c).Has(x, y) && Covered(PopupRects(prev.overlays), x, y)
                            && !Copied(After(s, prev), c, x, y);
      WindowedWrong(s, prev, c, x, y);
    }
  }

  lemma PresentedSize(s: Retained, c: Call)
    requires ValidRetained(s) && ValidCall(c)
    ensures After(s, c).out.Some? && After(s, c).out.value.SameSize(Compose(c))
  {
  }

  /** What is on record after a call whose popups were painted so. */
  lemma AfterPaintsRecord(s: Retained, prev: Call, paints: seq<Frame>)
    requires ValidRetained(s) && ValidCall(prev) && Paints(prev.overlays, paints)
    ensures AfterPaints(s, prev, paints).out.Some? && AfterPaints(s, prev, paints).out.value.SameSize(Compose(prev))
    ensures !prev.bare ==> AfterPaints(s, prev, paints).lastChromeH == |prev.chrome.rows|
  {
    hide Paint;
  }

  lemma WindowedRight(s: Retained, prev: Call, c: Call, paints: seq<Frame>)
    requires ValidRetained(s) && ValidCall(prev) && ValidCall(c) && !c.bare && c.overlays == []
    requires Composed(s, prev) == Compose(prev) && DamageComplete(Some(prev.buf), c) && Paints(prev.overlays, paints)
    requires forall x: nat, y: nat :: Compose(c).Has(x, y) && Covered(PopupRects(prev.overlays), x, y) ==>
               Copied(After(s, prev), c, x, y)
    ensures After(AfterPaints(s, prev, paints), c).out == Some(Compose(c))
  {
    hide Covered, DamageComplete, After, AfterPaints, Composed, Compose, PopupRects, Copied, Paint;
    var t := AfterPaints(s, prev, paints);
    AfterPaintsIs(s, prev, paints);
    AfterPaintsRecord(s, prev, paints);
    SameRects(prev.overlays, paints);
    PresentedSize(t, c);
    var got, want := After(t, c).out.value, Compose(c);
    forall x: nat, y: nat | got.Has(x, y) ensures got.At(x, y) == want.At(x, y) {
      NothingCovers(x, y);
      PixelPresented(t, c, x, y);
      CopiedAlike(s, prev, paints, c, x, y);
      if !Copied(t, c, x, y) {
        PaintCovered(Compose(prev), Repainted(prev.overlays, paints), x, y);
        PixelKept(t, prev, c, x, y);
      }
    }
    SameFrame(got, want);
  }

  lemma WindowedWrong(s: Retained, prev: Call, c: Call, x: nat, y: nat)
    requires ValidRetained(s) && ValidCall(prev) && ValidCall(c) && !c.bare && c.overlays == []
    requires Composed(s, prev) == Compose(prev)
    requires Compose(c).Has(x, y) && Covered(PopupRects(prev.overlays), x, y) && !Copied(After(s, prev), c, x, y)
    ensures exists paints :: Paints(prev.overlays, paints)
                             && After(AfterPaints(s, prev, paints), c).out != Some(Compose(c))
  {
    hide Covered, After, AfterPaints, Composed, Compose, PopupRects, Copied, Paint;
    var q := OtherColour(Compose(c).At(x, y));
    var paints := seq(|prev.overlays|, i => Solid(Compose(prev), q));
    var t := AfterPaints(s, prev, paints);
    AfterPaintsIs(s, prev, paints);
    AfterPaintsRecord(s, prev, paints);
    SameRects(prev.overlays, paints);
    CopiedAlike(s, prev, paints, c, x, y);
    NothingCovers(x, y);
    PixelPresented(t, c, x, y);
    assert Compose(prev).Has(x, y);
    SolidShows(Compose(prev), Repainted(prev.overlays, paints), q, x, y);
    assert After(t, c).out.value.At(x, y) == q;
  }

  // ---------------------------------------------------------------- what is reported and what is on top

  /** The toolbar's rows of the image are not what it paints now. */
  ghost predicate ChromeDiffers(s: Retained, c: Call)
    requires ValidRetained(s) && ValidCall(c) && !c.bare && !Resized(s, c)
  {
    exists x: nat, y: nat :: x < c.buf.w && y < |c.chrome.rows| && s.out.value.At(x, y) != c.chrome.At(x, y)
  }

  /**
   The list handed on covers a pixel exactly when a popup lies over it, the content under it is damaged, the
   toolbar changed and it is the toolbar's, or everything was copied anew.
   */
  lemma MergedCoversIff(s: Retained, c: Call, x: nat, y: nat)
    requires ValidRetained(s) && ValidCall(c)
    ensures Covered(Merged(s, c), x, y)
            <==> || Covered(PopupRects(c.overlays), x, y)
                 || (c.bare && Covered(c.damage, x, y))
                 || (!c.bare && FullCopy(s, c) && x < c.buf.w && y < OutHeight(c))
                 || (!c.bare && !FullCopy(s, c)
                     && (Covered(c.damage, x, y - |c.chrome.rows|)
                         || (ChromeDiffers(s, c) && x < c.buf.w && y < |c.chrome.rows|)))
  {
    hide Covered, PopupRects, Shifted, FullCopy;
    var h := |c.chrome.rows|;
    if c.bare {
      CoveredConcat(c.damage, PopupRects(c.overlays), x, y);
    } else if FullCopy(s, c) {
      var all := Rect(0, 0, c.buf.w, OutHeight(c));
      CoveredConcat([all], PopupRects(c.overlays), x, y);
      CoveredOne(all, x, y);
    } else {
      NotResized(s, c);
      var bar := Rect(0, 0, c.buf.w, h);
      var top := if ChromeSame(s, c) then [] else [bar];
      CoveredConcat(top + Shifted(c.damage, h), PopupRects(c.overlays), x, y);
      CoveredConcat(top, Shifted(c.damage, h), x, y);
      ShiftedCovers(c.damage, h, x, y);
      CoveredOne(bar, x, y);
      NoneCovers(x, y);
    }
  }

  lemma NotResized(s: Retained, c: Call)
    requires !FullCopy(s, c)
    ensures !Resized(s, c)
  {
  }

  lemma NoneCovers(x: int, y: int)
    ensures !Covered([], x, y)
  {
  }

  /** A popup shows where it is painted and no later one is, in front of everything. */
  lemma {:induction false} TopmostShows(f: Frame, overlays: seq<Overlay>, k: nat, x: nat, y: nat)
    requires f.Valid() && f.Has(x, y) && forall i :: 0 <= i < |overlays| ==> overlays[i].paint.Valid()
    requires k < |overlays| && overlays[k].rect.Contains(x, y) && overlays[k].paint.Has(x, y)
    requires forall i :: k < i < |overlays| ==> !overlays[i].rect.Contains(x, y)
    ensures Paint(f, overlays).At(x, y) == overlays[k].paint.At(x, y)
    decreases |overlays|
  {
    var g, rest := PaintOne(f, overlays[0]), overlays[1..];
    if k == 0 {
      forall i | 0 <= i < |rest| ensures !rest[i].rect.Contains(x, y) { assert rest[i] == overlays[i + 1]; }
      UnderNone(rest, x, y);
      PaintCovered(g, rest, x, y);
    } else {
      TopmostShows(g, rest, k - 1, x, y);
    }
  }

  lemma {:induction false} UnderNone(overlays: seq<Overlay>, x: int, y: int)
    requires forall i :: 0 <= i < |overlays| ==> !overlays[i].rect.Contains(x, y)
    ensures !Covered(PopupRects(overlays), x, y)
    decreases |overlays|
  {
    if overlays != [] {
      UnderNone(overlays[1..], x, y);
      var head := if overlays[0].rect.Empty() then [] else [overlays[0].rect];
      CoveredConcat(head, PopupRects(overlays[1..]), x, y);
      if head != [] { CoveredOne(head[0], x, y); }
    }
  }
}
