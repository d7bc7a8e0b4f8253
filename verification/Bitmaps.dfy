/** Owned RGBA buffers with an explicit stride, and the clipped copy between them. */
module Bitmaps {
  type Byte = x: int | 0 <= x < 256

  /** The four bytes of one pixel. */
  type Pixel = p: seq<Byte> | |p| == 4 witness [0, 0, 0, 0]

  /** Half open: the far edges are outside. */
  datatype Rect = Rect(X0: int, Y0: int, X1: int, Y1: int) {
    predicate Empty() {
      X1 <= X0 || Y1 <= Y0
    }

    predicate Contains(x: int, y: int) {
      X0 <= x < X1 && Y0 <= y < Y1
    }
  }

  /** Where pixel (x, y) begins. */
  function Offset(stride: nat, x: nat, y: nat): nat {
    y * stride + 4 * x
  }

  lemma NextRow(stride: nat, y: nat)
    ensures Offset(stride, 0, y + 1) == Offset(stride, 0, y) + stride
  {
  }

  /** Rows do not overlap: every row begins after the one above it ends. */
  lemma {:induction false} RowsApart(stride: nat, y: nat, z: nat)
    requires y < z
    ensures Offset(stride, 0, y) + stride <= Offset(stride, 0, z)
    decreases z
  {
    NextRow(stride, z - 1);
    hide Offset;
    if y < z - 1 { RowsApart(stride, y, z - 1); }
  }

  lemma OffsetInRow(stride: nat, x: nat, y: nat)
    ensures Offset(stride, x, y) == Offset(stride, 0, y) + 4 * x
  {
  }

  class Bitmap {
    const W: nat
    const H: nat
    const Stride: nat
    const RGBA: array<Byte>

    ghost predicate Valid() {
      4 * W <= Stride && (H > 0 ==> Offset(Stride, W, H - 1) <= RGBA.Length)
    }

    /** Rows follow one another without padding, as NewBitmap lays them out. */
    ghost predicate Tight() {
      Valid() && Stride == 4 * W && RGBA.Length == Stride * H
    }

    lemma PixelFits(x: nat, y: nat)
      requires Valid() && x < W && y < H
      ensures Offset(Stride, x, y) + 4 <= Offset(Stride, 0, y) + 4 * W
      ensures Offset(Stride, 0, y) + 4 * W <= RGBA.Length
    {
      if y < H - 1 { RowsApart(Stride, y, H - 1); }
      OffsetInRow(Stride, W, H - 1);
    }

    ghost function Pix(x: nat, y: nat): (p: Pixel)
      requires Valid() && x < W && y < H
      reads RGBA
    {
      PixelFits(x, y);
      RGBA[Offset(Stride, x, y)..Offset(Stride, x, y) + 4]
    }

    /** A zeroed bitmap; without area it has no pixels at all. */
    constructor (w: int, h: int)
      ensures Tight() && fresh(RGBA)
      ensures w > 0 && h > 0 ==> W == w && H == h
      ensures w <= 0 || h <= 0 ==> W == 0 && H == 0
      ensures forall k :: 0 <= k < RGBA.Length ==> RGBA[k] == 0
    {
      var area := w > 0 && h > 0;
      W := if area then w else 0;
      H := if area then h else 0;
      Stride := if area then 4 * w else 0;
      RGBA := new Byte[if area then AreaBytes(w, h) else 0](_ => 0);
    }

    static function AreaBytes(w: int, h: int): (n: nat)
      requires w > 0 && h > 0
      ensures n == 4 * w * h
    {
      4 * w * h
    }
  }

  // ---------------------------------------------------------------- copying

  /** Go's copy between two distinct buffers. */
  method CopyBytes(dst: array<Byte>, d: nat, src: array<Byte>, s: nat, n: nat)
    requires d + n <= dst.Length && s + n <= src.Length && dst != src
    modifies dst
    ensures forall k :: 0 <= k < dst.Length ==> dst[k] == if d <= k < d + n then src[s + k - d] else old(dst[k])
  {
    var i := 0;
    while i < n
      invariant 0 <= i <= n
      invariant forall k :: 0 <= k < dst.Length ==> dst[k] == if d <= k < d + i then src[s + k - d] else old(dst[k])
    {
      dst[d + i] := src[s + i];
      i := i + 1;
    }
  }

  function Min(a: int, b: int): int {
    if a < b then a else b
  }

  function Max(a: int, b: int): int {
    if a < b then b else a
  }

  /** A pixel of the source that the rectangle selects and that lands inside the destination. */
  predicate Lands(r: Rect, dy: int, srcW: nat, srcH: nat, dstW: nat, dstH: nat, x: int, y: int) {
    r.Contains(x, y) && 0 <= x < srcW && 0 <= y < srcH && x < dstW && 0 <= y + dy < dstH
  }

  /** The clipped rectangle, edge by edge as the copy computes it. */
  function Clip(r: Rect, dy: int, srcW: nat, srcH: nat, dstW: nat, dstH: nat): (c: Rect)
    ensures !r.Empty() ==>
              forall x, y :: c.Contains(x, y) <==> Lands(r, dy, srcW, srcH, dstW, dstH, x, y)
  {
    var x0, y0 := Max(r.X0, 0), Max(r.Y0, 0);
    var x1, y1 := Min(Min(r.X1, srcW), dstW), Min(r.Y1, srcH);
    Rect(x0, if y0 + dy < 0 then -dy else y0, x1, if y1 + dy > dstH then dstH - dy else y1)
  }

  /** A byte of the destination that belongs to these rows between these columns. */
  ghost predicate InRows(stride: nat, k: int, lo: int, hi: int, x0: nat, x1: nat) {
    exists y: nat :: lo <= y < hi && Offset(stride, x0, y) <= k < Offset(stride, x1, y)
  }

  /**
   The clipped copy: a pixel of the destination takes the source's pixel exactly when the rectangle
   selects one that lands there, every other pixel keeps its bytes, and no byte outside the clipped
   rectangle is written, padding included.  A missing bitmap is left alone.
   */
  method CopyBitmapRegion(dst: Bitmap?, src: Bitmap?, r: Rect, dy: int)
    requires dst != null ==> dst.Valid()
    requires src != null ==> src.Valid()
    requires dst != null && src != null ==> dst.RGBA != src.RGBA
    modifies if dst != null && src != null then {dst.RGBA} else {}
    ensures dst != null && src != null ==>
              forall x: nat, y: nat :: x < dst.W && y < dst.H ==>
                dst.Pix(x, y) == if Lands(r, dy, src.W, src.H, dst.W, dst.H, x, y - dy)
                                 then src.Pix(x, y - dy) else old(dst.Pix(x, y))
    ensures dst != null && src != null ==>
              var c := Clip(r, dy, src.W, src.H, dst.W, dst.H);
              forall k :: 0 <= k < dst.RGBA.Length
                          && !(0 <= c.X0 <= c.X1 && InRows(dst.Stride, k, c.Y0 + dy, c.Y1 + dy, c.X0, c.X1))
                          ==> dst.RGBA[k] == old(dst.RGBA[k])
  {
    if dst == null || src == null || r.Empty() { return; }
    var c := Clip(r, dy, src.W, src.H, dst.W, dst.H);
    if c.Empty() { return; }
    CopyRows(dst, src, c, dy);
  }

  method CopyRows(dst: Bitmap, src: Bitmap, c: Rect, dy: int)
    requires dst.Valid() && src.Valid() && dst.RGBA != src.RGBA && !c.Empty()
    requires 0 <= c.X0 && c.X1 <= src.W && c.X1 <= dst.W
    requires 0 <= c.Y0 && c.Y1 <= src.H && 0 <= c.Y0 + dy && c.Y1 + dy <= dst.H
    modifies dst.RGBA
    ensures forall x: nat, y: nat :: x < dst.W && y < dst.H ==>
              dst.Pix(x, y) == if c.Contains(x, y - dy) then src.Pix(x, y - dy) else old(dst.Pix(x, y))
    ensures forall k :: 0 <= k < dst.RGBA.Length && !InRows(dst.Stride, k, c.Y0 + dy, c.Y1 + dy, c.X0, c.X1)
                        ==> dst.RGBA[k] == old(dst.RGBA[k])
  {
    hide Offset;
    var y := c.Y0;
    while y < c.Y1
      invariant c.Y0 <= y <= c.Y1
      invariant forall x: nat, z: nat :: x < dst.W && z < dst.H ==>
                  dst.Pix(x, z)
                  == if c.Contains(x, z - dy) && z - dy < y then src.Pix(x, z - dy) else old(dst.Pix(x, z))
      invariant forall k :: 0 <= k < dst.RGBA.Length && !InRows(dst.Stride, k, c.Y0 + dy, y + dy, c.X0, c.X1)
                            ==> dst.RGBA[k] == old(dst.RGBA[k])
    {
      CopyRow(dst, src, c.X0, c.X1, y, y + dy);
      y := y + 1;
    }
  }

  /** One row of pixels, from row `y` of the source to row `z` of the destination. */
  method CopyRow(dst: Bitmap, src: Bitmap, x0: nat, x1: nat, y: nat, z: nat)
    requires dst.Valid() && src.Valid() && dst.RGBA != src.RGBA
    requires x0 < x1 <= src.W && x1 <= dst.W && y < src.H && z < dst.H
    modifies dst.RGBA
    ensures forall x: nat, w: nat :: x < dst.W && w < dst.H ==>
              dst.Pix(x, w) == if w == z && x0 <= x < x1 then src.Pix(x, y) else old(dst.Pix(x, w))
    ensures forall k :: 0 <= k < dst.RGBA.Length && !(Offset(dst.Stride, x0, z) <= k < Offset(dst.Stride, x1, z))
                        ==> dst.RGBA[k] == old(dst.RGBA[k])
  {
    src.PixelFits(x1 - 1, y);
    dst.PixelFits(x1 - 1, z);
    OffsetInRow(src.Stride, x0, y);
    OffsetInRow(dst.Stride, x0, z);
    OffsetInRow(src.Stride, x1 - 1, y);
    OffsetInRow(dst.Stride, x1 - 1, z);
    OffsetInRow(dst.Stride, x1, z);
    hide Offset;
    CopyBytes(dst.RGBA, Offset(dst.Stride, x0, z), src.RGBA, Offset(src.Stride, x0, y), 4 * (x1 - x0));
    forall x: nat, w: nat | x < dst.W && w < dst.H
      ensures dst.Pix(x, w) == if w == z && x0 <= x < x1 then src.Pix(x, y) else old(dst.Pix(x, w))
    {
      dst.PixelFits(x, w);
      OffsetInRow(dst.Stride, x, w);
      if w < z { RowsApart(dst.Stride, w, z); }
      if w > z { RowsApart(dst.Stride, z, w); }
      if w == z && x0 <= x < x1 {
        src.PixelFits(x, y);
        OffsetInRow(src.Stride, x, y);
      }
    }
  }

  /** Whether the first `rows` rows of two bitmaps show the same pixels. */
  method BitmapRegionEqual(a: Bitmap?, b: Bitmap?, rows: int) returns (same: bool)
    requires a != null ==> a.Valid()
    requires b != null ==> b.Valid()
    ensures a != null && b != null && a.W == b.W && 0 <= rows <= a.H && rows <= b.H ==>
              (same <==> forall x: nat, y: nat :: x < a.W && y < rows ==> a.Pix(x, y) == b.Pix(x, y))
    ensures !(a != null && b != null && a.W == b.W && 0 <= rows <= a.H && rows <= b.H) ==> !same
  {
    if a == null || b == null || a.W != b.W || rows < 0 || rows > a.H || rows > b.H { return false; }
    var y := 0;
    while y < rows
      invariant 0 <= y <= rows
      invariant forall x: nat, z: nat :: x < a.W && z < y ==> a.Pix(x, z) == b.Pix(x, z)
    {
      var rowSame := RowEqual(a, b, y);
      if !rowSame { return false; }
      y := y + 1;
    }
    return true;
  }

  method RowEqual(a: Bitmap, b: Bitmap, y: nat) returns (same: bool)
    requires a.Valid() && b.Valid() && a.W == b.W && y < a.H && y < b.H
    ensures same <==> forall x: nat :: x < a.W ==> a.Pix(x, y) == b.Pix(x, y)
  {
    if a.W == 0 { return true; }
    var aStart, bStart := y * a.Stride, y * b.Stride;
    assert aStart == Offset(a.Stride, 0, y) && bStart == Offset(b.Stride, 0, y);
    a.PixelFits(0, y);
    b.PixelFits(0, y);
    hide Offset;
    var i := 0;
    while i < a.W
      invariant 0 <= i <= a.W
      invariant forall x: nat :: x < i ==> a.Pix(x, y) == b.Pix(x, y)
    {
      a.PixelFits(i, y);
      b.PixelFits(i, y);
      OffsetInRow(a.Stride, i, y);
      OffsetInRow(b.Stride, i, y);
      if a.RGBA[aStart + 4 * i..aStart + 4 * i + 4] != b.RGBA[bStart + 4 * i..bStart + 4 * i + 4] {
        assert a.Pix(i, y) != b.Pix(i, y);
        return false;
      }
      i := i + 1;
    }
    return true;
  }
}
