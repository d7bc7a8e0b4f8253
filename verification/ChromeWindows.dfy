/**
 The window that composes browser chrome over the page, updating its retained bitmap in place.
 Present is proved equal to one call of `WindowModel`.
 */
module ChromeWindows {
  import opened Options
  import opened Bitmaps
  import opened WindowModel

  const TAB_BAR_HEIGHT := 36
  const TOOLBAR_HEIGHT := 40
  const TOTAL_CHROME_HEIGHT := TAB_BAR_HEIGHT + TOOLBAR_HEIGHT
  const BOOKMARKS_BAR_HEIGHT := 28

  ghost function Shows(b: Bitmap): (f: Frame)
    requires b.Valid()
    reads b.RGBA
    ensures f.Valid() && f.w == b.W && |f.rows| == b.H
    ensures forall x: nat, y: nat :: x < b.W && y < b.H ==> f.At(x, y) == b.Pix(x, y)
  {
    Frame(b.W, seq(b.H, y requires 0 <= y < b.H reads b.RGBA =>
                   seq(b.W, x requires 0 <= x < b.W reads b.RGBA => b.Pix(x, y))))
  }

  /** A bitmap shows a frame when their sizes and all their pixels agree. */
  lemma ShowsFrame(b: Bitmap, f: Frame)
    requires b.Valid() && f.Valid() && f.w == b.W && |f.rows| == b.H
    requires forall x: nat, y: nat :: x < b.W && y < b.H ==> b.Pix(x, y) == f.At(x, y)
    ensures Shows(b) == f
  {
    var g := Shows(b);
    forall y | 0 <= y < b.H ensures g.rows[y] == f.rows[y] {
      forall x | 0 <= x < b.W ensures g.rows[y][x] == f.rows[y][x] {
        assert g.At(x, y) == f.At(x, y);
      }
    }
  }

  method SetPixel(b: Bitmap, x: nat, y: nat, p: Pixel)
    requires b.Valid() && x < b.W && y < b.H
    modifies b.RGBA
    ensures forall u: nat, v: nat :: u < b.W && v < b.H ==>
              b.Pix(u, v) == if u == x && v == y then p else old(b.Pix(u, v))
  {
    b.PixelFits(x, y);
    var o := y * b.Stride + 4 * x;
    assert o == Offset(b.Stride, x, y);
    b.RGBA[o], b.RGBA[o + 1], b.RGBA[o + 2], b.RGBA[o + 3] := p[0], p[1], p[2], p[3];
    OffsetInRow(b.Stride, x, y);
    hide Offset;
    forall u: nat, v: nat | u < b.W && v < b.H
      ensures b.Pix(u, v) == if u == x && v == y then p else old(b.Pix(u, v))
    {
      b.PixelFits(u, v);
      OffsetInRow(b.Stride, u, v);
      if v < y { RowsApart(b.Stride, v, y); }
      if v > y { RowsApart(b.Stride, y, v); }
    }
  }

  predicate Paints(o: Overlay, x: int, y: int) {
    o.rect.Contains(x, y) && o.paint.Has(x, y)
  }

  /** Paints a popup, or the whole chrome, straight into a bitmap. */
  method DrawOverlay(b: Bitmap, o: Overlay)
    requires b.Valid() && o.paint.Valid()
    modifies b.RGBA
    ensures forall x: nat, y: nat :: x < b.W && y < b.H ==>
              b.Pix(x, y) == if Paints(o, x, y) then o.paint.At(x, y) else old(b.Pix(x, y))
  {
    var y := 0;
    while y < b.H
      invariant 0 <= y <= b.H
      invariant forall u: nat, v: nat :: u < b.W && v < b.H ==>
                  b.Pix(u, v) == if v < y && Paints(o, u, v) then o.paint.At(u, v) else old(b.Pix(u, v))
    {
      var x := 0;
      while x < b.W
        invariant 0 <= x <= b.W
        invariant forall u: nat, v: nat :: u < b.W && v < b.H ==>
                    b.Pix(u, v) == if (v < y || (v == y && u < x)) && Paints(o, u, v) then o.paint.At(u, v)
                                   else old(b.Pix(u, v))
      {
        if Paints(o, x, y) { SetPixel(b, x, y, o.paint.At(x, y)); }
        x := x + 1;
      }
      y := y + 1;
    }
  }

  /** The damage rectangles the copy loop has not merged yet. */
  method AppendShifted(merged: seq<Rect>, damage: seq<Rect>, dy: int) returns (r: seq<Rect>)
    ensures r == merged + Shifted(damage, dy)
  {
    r := merged;
    var i := 0;
    while i < |damage|
      invariant 0 <= i <= |damage|
      invariant r + Shifted(damage[i..], dy) == merged + Shifted(damage, dy)
    {
      assert damage[i..][1..] == damage[i + 1..];
      if !damage[i].Empty() {
        var d := Rect(damage[i].X0, damage[i].Y0 + dy, damage[i].X1, damage[i].Y1 + dy);
        assert r + ([d] + Shifted(damage[i + 1..], dy)) == r + [d] + Shifted(damage[i + 1..], dy);
        r := r + [d];
      }
      i := i + 1;
    }
  }

  /** Draws the popups in order and reports their rectangles. */
  method DrawPopups(out: Bitmap, overlays: seq<Overlay>, merged: seq<Rect>) returns (r: seq<Rect>)
    requires out.Valid() && forall i :: 0 <= i < |overlays| ==> overlays[i].paint.Valid()
    modifies out.RGBA
    ensures Shows(out) == Paint(old(Shows(out)), overlays)
    ensures r == merged + PopupRects(overlays)
  {
    r := merged;
    var i := 0;
    while i < |overlays|
      invariant 0 <= i <= |overlays|
      invariant Paint(Shows(out), overlays[i..]) == Paint(old(Shows(out)), overlays)
      invariant r + PopupRects(overlays[i..]) == merged + PopupRects(overlays)
    {
      var o := overlays[i];
      ghost var before := Shows(out);
      DrawOverlay(out, o);
      ShowsFrame(out, PaintOne(before, o));
      assert overlays[i..][1..] == overlays[i + 1..];
      if !o.rect.Empty() {
        assert r + ([o.rect] + PopupRects(overlays[i + 1..])) == r + [o.rect] + PopupRects(overlays[i + 1..]);
        r := r + [o.rect];
      }
      i := i + 1;
    }
  }

  /** Copies every damaged content pixel below the chrome. */
  method CopyDamage(out: Bitmap, buf: Bitmap, damage: seq<Rect>, dy: nat)
    requires out.Valid() && buf.Valid() && out.RGBA != buf.RGBA
    requires out.W == buf.W && out.H == buf.H + dy
    modifies out.RGBA
    ensures forall x: nat, y: nat :: x < out.W && y < out.H ==>
              out.Pix(x, y) == if y >= dy && Covered(damage, x, y - dy) then buf.Pix(x, y - dy) else old(out.Pix(x, y))
  {
    var i := 0;
    while i < |damage|
      invariant 0 <= i <= |damage|
      invariant forall x: nat, y: nat :: x < out.W && y < out.H ==>
                  out.Pix(x, y) == if y >= dy && Covered(damage[..i], x, y - dy) then buf.Pix(x, y - dy)
                                   else old(out.Pix(x, y))
    {
      CopyBitmapRegion(out, buf, damage[i], dy);
      forall x: int, y: int
        ensures Covered(damage[..i + 1], x, y) <==> Covered(damage[..i], x, y) || damage[i].Contains(x, y)
      {
        assert damage[..i + 1] == damage[..i] + [damage[i]];
        CoveredConcat(damage[..i], [damage[i]], x, y);
        CoveredOne(damage[i], x, y);
      }
      i := i + 1;
    }
    assert damage[..|damage|] == damage;
  }

  /** Copies the chrome rows over the top of the image. */
  method CopyChrome(out: Bitmap, chrome: Bitmap)
    requires out.Valid() && chrome.Valid() && out.RGBA != chrome.RGBA
    requires out.W == chrome.W > 0 && chrome.H <= out.H
    modifies out.RGBA
    ensures forall x: nat, y: nat :: x < out.W && y < out.H ==>
              out.Pix(x, y) == if y < chrome.H then chrome.Pix(x, y) else old(out.Pix(x, y))
  {
    var y := 0;
    while y < chrome.H
      invariant 0 <= y <= chrome.H
      invariant forall x: nat, z: nat :: x < out.W && z < out.H ==>
                  out.Pix(x, z) == if z < y then chrome.Pix(x, z) else old(out.Pix(x, z))
    {
      CopyRow(out, chrome, 0, out.W, y, y);
      y := y + 1;
    }
  }

  /** The buffers whose pixels a copy from the first byte on leaves in place. */
  predicate CopiesFlat(w: nat, h: nat, stride: nat) {
    stride == 4 * w || h == 1
  }

  /** The whole buffer copied from its first byte, rows taken to follow one another. */
  method CopyFlat(out: Bitmap, buf: Bitmap)
    requires out.Tight() && buf.Valid() && out.RGBA != buf.RGBA && out.W == buf.W && out.H == buf.H
    modifies out.RGBA
    ensures CopiesFlat(buf.W, buf.H, buf.Stride) ==> Shows(out) == Shows(buf)
  {
    CopyBytes(out.RGBA, 0, buf.RGBA, 0, Min(out.RGBA.Length, buf.RGBA.Length));
    if CopiesFlat(buf.W, buf.H, buf.Stride) {
      forall x: nat, y: nat | x < out.W && y < out.H ensures out.Pix(x, y) == buf.Pix(x, y) {
        out.PixelFits(x, y);
        buf.PixelFits(x, y);
        assert Offset(out.Stride, x, y) == Offset(buf.Stride, x, y);
      }
      hide Offset;
      ShowsFrame(out, Shows(buf));
    }
  }

  /** The pixel at (x, y) of bytes laid out with this stride. */
  function PixelAt(bytes: seq<Byte>, stride: nat, x: nat, y: nat): seq<Byte>
    requires Offset(stride, x, y) + 4 <= |bytes|
  {
    bytes[Offset(stride, x, y)..Offset(stride, x, y) + 4]
  }

  /** Reading these bytes as tight rows gives every pixel the padded rows have. */
  ghost predicate FlatRight(bytes: seq<Byte>, w: nat, h: nat, stride: nat) {
    forall x: nat, y: nat ::
      x < w && y < h && Offset(stride, x, y) + 4 <= |bytes| && Offset(4 * w, x, y) + 4 <= |bytes| ==>
        PixelAt(bytes, 4 * w, x, y) == PixelAt(bytes, stride, x, y)
  }

  /**
   The fullscreen copy is right for every picture exactly when the rows carry no padding or there is
   only one row.
   */
  lemma FlatCopyRightIff(w: nat, h: nat, stride: nat)
    requires w > 0 && h > 0 && stride >= 4 * w
    ensures (forall bytes: seq<Byte> :: |bytes| == stride * h ==> FlatRight(bytes, w, h, stride))
            <==> CopiesFlat(w, h, stride)
  {
    if CopiesFlat(w, h, stride) {
      forall bytes: seq<Byte> | |bytes| == stride * h ensures FlatRight(bytes, w, h, stride) {
        forall x: nat, y: nat | x < w && y < h ensures Offset(stride, x, y) == Offset(4 * w, x, y) {}
      }
    } else {
      var n := stride * h;
      assert n >= 2 * stride;
      var bytes: seq<Byte> := seq(n, k => if k == stride then 1 else 0);
      assert Offset(stride, 0, 1) == stride && Offset(4 * w, 0, 1) == 4 * w;
      assert PixelAt(bytes, 4 * w, 0, 1)[0] == 0 && PixelAt(bytes, stride, 0, 1)[0] == 1;
      assert !FlatRight(bytes, w, h, stride);
    }
  }

  /** 76 rows of chrome at scale 1, 104 with the bookmarks bar, none in fullscreen or standalone. */
  lemma ChromeHeightIs(w: ChromeWindow)
    requires w.scale >= 1
    ensures w.ChromeHeight() == if w.fullscreen || w.standalone then 0
                                else if w.showBookmarksBar then 104 * w.scale else 76 * w.scale
  {
  }

  class ChromeWindow {
    const scale: int
    var fullscreen: bool
    var standalone: bool
    var showBookmarksBar: bool
    var chromeBitmap: Bitmap?
    var outBitmap: Bitmap?
    var lastChromeH: int

    constructor (scale: int)
      ensures Valid() && Abs() == WindowModel.FRESH
    {
      this.scale := if scale < 1 then 1 else scale;
      fullscreen, standalone, showBookmarksBar := false, false, false;
      chromeBitmap, outBitmap, lastChromeH := null, null, 0;
    }

    ghost predicate Valid()
      reads this
    {
      && scale >= 1
      && (chromeBitmap != null ==> chromeBitmap.Tight())
      && (outBitmap != null ==> outBitmap.Tight())
      && (chromeBitmap != null && outBitmap != null ==> chromeBitmap.RGBA != outBitmap.RGBA)
    }

    ghost function Abs(): (s: Retained)
      requires Valid()
      reads this, if outBitmap == null then {} else {outBitmap.RGBA}
      ensures ValidRetained(s)
    {
      Retained(if outBitmap == null then None else Some(Shows(outBitmap)), lastChromeH)
    }

    /** Tab bar and toolbar, and the bookmarks bar when it is shown; nothing without chrome. */
    function ChromeHeight(): (h: nat)
      requires scale >= 1
      reads this
      ensures h > 0 <==> !fullscreen && !standalone
    {
      if fullscreen || standalone then 0
      else (TOTAL_CHROME_HEIGHT + if showBookmarksBar then BOOKMARKS_BAR_HEIGHT else 0) * scale
    }

    /** The call this state, buffer and painted chrome amount to. */
    ghost function CallOf(buf: Bitmap, damage: seq<Rect>, chrome: Frame, overlays: seq<Overlay>): Call
      requires buf.Valid()
      reads this, buf.RGBA
    {
      Call(fullscreen || standalone, chrome, Shows(buf), damage, overlays)
    }

    /** `chrome` is what the toolbar paints this time, `overlays` the popups that are open. */
    method Present(buf: Bitmap, damage: seq<Rect>, chrome: Frame, overlays: seq<Overlay>)
      returns (out: Bitmap, merged: seq<Rect>)
      requires Valid() && buf.Valid() && buf.W > 0 && buf.H > 0
      requires outBitmap != null ==> outBitmap.RGBA != buf.RGBA
      requires chromeBitmap != null ==> chromeBitmap.RGBA != buf.RGBA
      requires chrome.Valid() && (!fullscreen && !standalone ==> chrome.w == buf.W && |chrome.rows| == ChromeHeight())
      requires forall i :: 0 <= i < |overlays| ==> overlays[i].paint.Valid()
      modifies this`outBitmap, this`chromeBitmap, this`lastChromeH
      modifies if outBitmap == null then {} else {outBitmap.RGBA}
      modifies if chromeBitmap == null then {} else {chromeBitmap.RGBA}
      ensures Valid() && out == outBitmap && out.W == buf.W && out.H == buf.H + ChromeHeight()
      ensures merged == Merged(old(Abs()), CallOf(buf, damage, chrome, overlays))
      ensures (fullscreen || standalone ==> CopiesFlat(buf.W, buf.H, buf.Stride)) ==>
                Abs() == After(old(Abs()), CallOf(buf, damage, chrome, overlays))
    {
      var chromeH := ChromeHeight();
      if fullscreen || standalone {
        out, merged := PresentBare(buf, damage, chrome, overlays);
        return;
      }
      PrepareChrome(buf.W, chromeH, chrome);
      out, merged := PresentWindowed(buf, damage, chrome, overlays, chromeH);
    }

    /** Redraws the chrome bitmap, replacing it when its size is wrong. */
    method PrepareChrome(w: nat, chromeH: nat, chrome: Frame)
      requires Valid() && w > 0 && chromeH > 0 && chrome.Valid() && chrome.w == w && |chrome.rows| == chromeH
      modifies this`chromeBitmap
      modifies if chromeBitmap == null then {} else {chromeBitmap.RGBA}
      ensures Valid() && chromeBitmap != null && chromeBitmap.W == w && chromeBitmap.H == chromeH
      ensures Shows(chromeBitmap) == chrome
      ensures chromeBitmap == old(chromeBitmap) || fresh(chromeBitmap.RGBA)
    {
      if chromeBitmap == null || chromeBitmap.W != w || chromeBitmap.H != chromeH {
        chromeBitmap := new Bitmap(w, chromeH);
      }
      DrawOverlay(chromeBitmap, Overlay(Rect(0, 0, w, chromeH), chrome));
      ShowsFrame(chromeBitmap, chrome);
    }

    method PresentWindowed(buf: Bitmap, damage: seq<Rect>, ghost chrome: Frame, overlays: seq<Overlay>, chromeH: nat)
      returns (out: Bitmap, merged: seq<Rect>)
      requires Valid() && buf.Valid() && buf.W > 0 && buf.H > 0 && chromeH > 0
      requires outBitmap != null ==> outBitmap.RGBA != buf.RGBA
      requires chromeBitmap != null && chromeBitmap.RGBA != buf.RGBA
      requires chromeBitmap.W == buf.W && chromeBitmap.H == chromeH && Shows(chromeBitmap) == chrome
      requires !fullscreen && !standalone
      requires forall i :: 0 <= i < |overlays| ==> overlays[i].paint.Valid()
      modifies this`outBitmap, this`lastChromeH
      modifies if outBitmap == null then {} else {outBitmap.RGBA}
      ensures Valid() && out == outBitmap && out.W == buf.W && out.H == buf.H + chromeH
      ensures merged == Merged(old(Abs()), CallOf(buf, damage, chrome, overlays))
      ensures Abs() == After(old(Abs()), CallOf(buf, damage, chrome, overlays))
    {
      hide Composed, Paint;
      ghost var s, c := Abs(), CallOf(buf, damage, chrome, overlays);
      var fullCopy, chromeChanged := Refresh(buf, damage, chrome, overlays, chromeH);
      out := outBitmap;
      merged := MergeDamage(s, c, damage, chromeH, fullCopy, chromeChanged);
      merged := DrawPopups(out, overlays, merged);
      lastChromeH := chromeH;
    }

    /** The damage list before the popups' rectangles. */
    method MergeDamage(ghost s: Retained, ghost c: Call, damage: seq<Rect>, chromeH: nat, fullCopy: bool,
                       chromeChanged: bool)
      returns (merged: seq<Rect>)
      requires outBitmap != null && ValidRetained(s) && ValidCall(c) && !c.bare && c.damage == damage
      requires outBitmap.W == c.buf.w && outBitmap.H == OutHeight(c) && |c.chrome.rows| == chromeH
      requires fullCopy == FullCopy(s, c) && (!fullCopy ==> chromeChanged == !ChromeSame(s, c))
      ensures merged + PopupRects(c.overlays) == Merged(s, c)
    {
      hide Shifted, ChromeSame;
      merged := [];
      if fullCopy {
        merged := [Rect(0, 0, outBitmap.W, outBitmap.H)];
      } else {
        if chromeChanged { merged := [Rect(0, 0, outBitmap.W, chromeH)]; }
        merged := AppendShifted(merged, damage, chromeH);
      }
    }

    /** Replaces the retained image when its size is wrong. */
    method PrepareOut(w: nat, h: nat) returns (resized: bool)
      requires Valid() && w > 0 && h > 0
      modifies this`outBitmap
      ensures Valid() && outBitmap != null && outBitmap.W == w && outBitmap.H == h
      ensures resized <==> old(outBitmap == null || outBitmap.W != w || outBitmap.H != h)
      ensures if resized then fresh(outBitmap.RGBA) else outBitmap == old(outBitmap)
    {
      resized := outBitmap == null || outBitmap.W != w || outBitmap.H != h;
      if resized {
        outBitmap := new Bitmap(w, h);
      }
    }

    /** Resizes the retained image if it must, and brings chrome and content up to date in it. */
    method Refresh(buf: Bitmap, damage: seq<Rect>, ghost chrome: Frame, ghost overlays: seq<Overlay>, chromeH: nat)
      returns (fullCopy: bool, chromeChanged: bool)
      requires Valid() && buf.Valid() && buf.W > 0 && buf.H > 0 && chromeH > 0
      requires outBitmap != null ==> outBitmap.RGBA != buf.RGBA
      requires chromeBitmap != null && chromeBitmap.RGBA != buf.RGBA
      requires chromeBitmap.W == buf.W && chromeBitmap.H == chromeH && Shows(chromeBitmap) == chrome
      requires !fullscreen && !standalone
      requires forall i :: 0 <= i < |overlays| ==> overlays[i].paint.Valid()
      modifies this`outBitmap
      modifies if outBitmap == null then {} else {outBitmap.RGBA}
      ensures Valid() && outBitmap != null && outBitmap.W == buf.W && outBitmap.H == buf.H + chromeH
      ensures outBitmap == old(outBitmap) || fresh(outBitmap.RGBA)
      ensures var s, c := old(Abs()), CallOf(buf, damage, chrome, overlays);
              && Shows(outBitmap) == Composed(s, c)
              && fullCopy == FullCopy(s, c)
              && (!fullCopy ==> chromeChanged == !ChromeSame(s, c))
    {
      hide Composed, ChromeSame, Compose, Covered, WindowedPixel, Offset;
      ghost var s, c := Abs(), CallOf(buf, damage, chrome, overlays);
      var outResized := PrepareOut(buf.W, buf.H + chromeH);
      assert outResized == Resized(s, c);
      fullCopy := outResized || lastChromeH != chromeH;
      var same := BitmapRegionEqual(chromeBitmap, outBitmap, chromeH);
      chromeChanged := fullCopy || !same;
      if !fullCopy { SameMeansEqual(s, c, same); }
      ComposeInto(outBitmap, buf, damage, chromeH, fullCopy, chromeChanged, s, c);
    }

    method ComposeInto(out: Bitmap, buf: Bitmap, damage: seq<Rect>, chromeH: nat, fullCopy: bool, chromeChanged: bool,
                       ghost s: Retained, ghost c: Call)
      requires Valid() && out.Valid() && buf.Valid() && chromeBitmap != null
      requires out.RGBA != buf.RGBA && out.RGBA != chromeBitmap.RGBA
      requires ValidRetained(s) && ValidCall(c) && !c.bare && fullCopy == FullCopy(s, c)
      requires c.buf == Shows(buf) && c.chrome == Shows(chromeBitmap) && c.damage == damage
      requires out.W == buf.W == chromeBitmap.W && chromeBitmap.H == chromeH && out.H == OutHeight(c)
      requires !fullCopy ==> s.out == Some(Shows(out)) && chromeChanged == !ChromeSame(s, c)
      requires fullCopy ==> chromeChanged
      modifies out.RGBA
      ensures Shows(out) == Composed(s, c)
    {
      hide Composed, Compose, Covered, WindowedPixel, Offset;
      ghost var retained := Shows(out);
      if !chromeChanged {
        forall x: nat, y: nat | x < out.W && y < chromeH ensures out.Pix(x, y) == chromeBitmap.Pix(x, y) {
          assert c.chrome.At(x, y) == chromeBitmap.Pix(x, y);
          assert retained.At(x, y) == out.Pix(x, y);
        }
      }
      ComposeOut(out, buf, damage, chromeH, fullCopy, chromeChanged);
      ComposedShown(s, c, out, buf, retained);
    }

    lemma SameMeansEqual(s: Retained, c: Call, same: bool)
      requires Valid() && chromeBitmap != null && outBitmap != null
      requires ValidRetained(s) && ValidCall(c) && !c.bare && !Resized(s, c)
      requires s.out == Some(Shows(outBitmap)) && c.chrome == Shows(chromeBitmap)
      requires c.buf.w == outBitmap.W == chromeBitmap.W
      requires chromeBitmap.H == |c.chrome.rows| <= outBitmap.H
      requires same <==> forall x: nat, y: nat :: x < chromeBitmap.W && y < |c.chrome.rows| ==>
                           chromeBitmap.Pix(x, y) == outBitmap.Pix(x, y)
      ensures same <==> ChromeSame(s, c)
    {
      assert forall x: nat, y: nat :: x < c.buf.w && y < |c.chrome.rows| ==>
        (s.out.value.At(x, y) == outBitmap.Pix(x, y) && c.chrome.At(x, y) == chromeBitmap.Pix(x, y));
    }

    /** Chrome rows where they changed, then the content: all of it, or only what is damaged. */
    method ComposeOut(out: Bitmap, buf: Bitmap, damage: seq<Rect>, chromeH: nat, fullCopy: bool, chromeChanged: bool)
      requires out.Valid() && buf.Valid() && chromeBitmap != null && chromeBitmap.Valid()
      requires out.RGBA != buf.RGBA && out.RGBA != chromeBitmap.RGBA
      requires out.W == buf.W == chromeBitmap.W > 0 && chromeBitmap.H == chromeH && out.H == buf.H + chromeH
      requires !chromeChanged ==> !fullCopy && forall x: nat, y: nat :: x < out.W && y < chromeH ==>
                                                 out.Pix(x, y) == chromeBitmap.Pix(x, y)
      modifies out.RGBA
      ensures forall x: nat, y: nat :: x < out.W && y < out.H ==>
                out.Pix(x, y) == if y < chromeH then chromeBitmap.Pix(x, y)
                                 else if fullCopy || Covered(damage, x, y - chromeH) then buf.Pix(x, y - chromeH)
                                 else old(out.Pix(x, y))
    {
      if chromeChanged { CopyChrome(out, chromeBitmap); }
      if fullCopy {
        CopyBitmapRegion(out, buf, Rect(0, 0, buf.W, buf.H), chromeH);
      } else {
        CopyDamage(out, buf, damage, chromeH);
      }
    }

    lemma ComposedShown(s: Retained, c: Call, out: Bitmap, buf: Bitmap, retained: Frame)
      requires Valid() && chromeBitmap != null && out.Valid() && buf.Valid() && retained.Valid()
      requires ValidRetained(s) && ValidCall(c) && !c.bare
      requires c.buf == Shows(buf) && c.chrome == Shows(chromeBitmap) && out.W == buf.W && out.H == OutHeight(c)
      requires retained.w == out.W && |retained.rows| == out.H && (!FullCopy(s, c) ==> s.out == Some(retained))
      requires forall x: nat, y: nat :: x < out.W && y < out.H ==>
                 var h := |c.chrome.rows|;
                 out.Pix(x, y) == if y < h then chromeBitmap.Pix(x, y)
                                  else if FullCopy(s, c) || Covered(c.damage, x, y - h) then buf.Pix(x, y - h)
                                  else retained.At(x, y)
      ensures Shows(out) == Composed(s, c)
    {
      forall x: nat, y: nat | x < out.W && y < out.H ensures out.Pix(x, y) == Composed(s, c).At(x, y) {
        assert Composed(s, c).rows[y][x] == WindowedPixel(s, c, x, y);
        if y < |c.chrome.rows| {
          assert c.chrome.At(x, y) == chromeBitmap.Pix(x, y);
        } else {
          assert c.buf.At(x, y - |c.chrome.rows|) == buf.Pix(x, y - |c.chrome.rows|);
        }
      }
      ShowsFrame(out, Composed(s, c));
    }

    /** Without chrome the buffer is copied whole, byte for byte from the start. */
    method PresentBare(buf: Bitmap, damage: seq<Rect>, ghost chrome: Frame, overlays: seq<Overlay>)
      returns (out: Bitmap, merged: seq<Rect>)
      requires Valid() && buf.Valid() && buf.W > 0 && buf.H > 0 && (fullscreen || standalone) && chrome.Valid()
      requires outBitmap != null ==> outBitmap.RGBA != buf.RGBA
      requires forall i :: 0 <= i < |overlays| ==> overlays[i].paint.Valid()
      modifies this`outBitmap
      modifies if outBitmap == null then {} else {outBitmap.RGBA}
      ensures Valid() && out == outBitmap && out.W == buf.W && out.H == buf.H
      ensures merged == Merged(old(Abs()), CallOf(buf, damage, chrome, overlays))
      ensures CopiesFlat(buf.W, buf.H, buf.Stride) ==> Abs() == After(old(Abs()), CallOf(buf, damage, chrome, overlays))
    {
      var resized := PrepareOut(buf.W, buf.H);
      out := outBitmap;
      CopyFlat(out, buf);
      merged := DrawPopups(out, overlays, damage);
    }
  }
}
