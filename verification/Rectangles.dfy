/** Rectangles, and polygon outlines as closed rings of lines. */
module Rectangles {
  import opened Common
  import opened Framebuffer
  import opened Spans
  import opened Lines
  import PolygonMath

  // The outermost pixels of a rectangle.
  ghost function Border(r: Rect): Region {
    iset p: (int, int) | r.Contains(p.0, p.1)
                         && (p.0 == r.xLeft || p.0 == r.xRight - 1 || p.1 == r.yTop || p.1 == r.yBottom - 1)
  }

  // The four sides as the outline routines draw them.
  ghost function Sides(r: Rect): Region {
    HSpan(r.yTop, r.xLeft, r.xRight) + VSpan(r.xLeft, r.yTop, r.yBottom)
    + HSpan(r.yBottom - 1, r.xLeft, r.xRight) + VSpan(r.xRight - 1, r.yTop, r.yBottom)
  }

  /** The sides are the border exactly when the rectangle is empty both ways or
      neither: one that is empty one way only is still drawn as two lines. */
  lemma SidesAreBorder(r: Rect)
    ensures Sides(r) == Border(r) <==> (r.xLeft < r.xRight <==> r.yTop < r.yBottom)
  {
    if r.xLeft < r.xRight && r.yTop >= r.yBottom {
      assert (r.xLeft, r.yTop) in Sides(r) && (r.xLeft, r.yTop) !in Border(r);
    } else if r.xLeft >= r.xRight && r.yTop < r.yBottom {
      assert (r.xLeft, r.yTop) in Sides(r) && (r.xLeft, r.yTop) !in Border(r);
    } else {
      assert Sides(r) == Border(r);
    }
  }

  method DrawOutlineRectangleClipped(buffer: array<bv8>, clip: Rect, r: Rect, shade: Shade)
    requires buffer.Length == BUFFER_SIZE && clip.WithinScreen()
    modifies buffer
    ensures Painted(old(buffer[..]), buffer[..], Sides(r) * clip.Pixels(), shade)
    ensures r.xLeft < r.xRight && r.yTop < r.yBottom ==>
              Painted(old(buffer[..]), buffer[..], Border(r) * clip.Pixels(), shade)
  {
    ghost var b0, c := buffer[..], clip.Pixels();
    ghost var top, left := HSpan(r.yTop, r.xLeft, r.xRight) * c, VSpan(r.xLeft, r.yTop, r.yBottom) * c;
    ghost var bottom, right := HSpan(r.yBottom - 1, r.xLeft, r.xRight) * c, VSpan(r.xRight - 1, r.yTop, r.yBottom) * c;
    SidesAreBorder(r);
    assert top + left + bottom + right == Sides(r) * c;
    hide Pixel, Painted, HSpan, VSpan, Sides, Border;
    DrawLineHorizClipped(buffer, clip, r.yTop, r.xLeft, r.xRight, shade);
    ghost var b1 := buffer[..];
    DrawLineVertClipped(buffer, clip, r.xLeft, r.yTop, r.yBottom, shade);
    PaintedThen(b0, b1, buffer[..], top, left, shade);
    ghost var b2 := buffer[..];
    DrawLineHorizClipped(buffer, clip, r.yBottom - 1, r.xLeft, r.xRight, shade);
    PaintedThen(b0, b2, buffer[..], top + left, bottom, shade);
    ghost var b3 := buffer[..];
    DrawLineVertClipped(buffer, clip, r.xRight - 1, r.yTop, r.yBottom, shade);
    PaintedThen(b0, b3, buffer[..], top + left + bottom, right, shade);
  }

  // Row y of the rectangle done, and all rows above it.
  ghost function RowsTo(x: int, width: int, yTop: int, y: int): Region {
    Rect(x, yTop, x + width, y).Pixels()
  }

  // How many columns are drawn: a left half byte comes before the width is looked at.
  function SolidWidth(xLeft: int, xWidth: int): nat {
    if xWidth >= 1 then xWidth else if xLeft % 2 == 1 then 1 else 0
  }

  /** A request without columns or rows draws nothing exactly when it starts in an even column or has no rows. */
  lemma SolidIsExact(xLeft: int, yTop: int, xWidth: int, yHeight: int)
    ensures Rect(xLeft, yTop, xLeft + SolidWidth(xLeft, xWidth), yTop + yHeight).Pixels()
            == Rect(xLeft, yTop, xLeft + xWidth, yTop + yHeight).Pixels()
            <==> xWidth >= 1 || xLeft % 2 == 0 || yHeight < 1
  {
    var drawn, asked := Rect(xLeft, yTop, xLeft + SolidWidth(xLeft, xWidth), yTop + yHeight),
                        Rect(xLeft, yTop, xLeft + xWidth, yTop + yHeight);
    assert (xLeft, yTop) in drawn.Pixels() <==> SolidWidth(xLeft, xWidth) >= 1 && yHeight >= 1;
    assert (xLeft, yTop) in asked.Pixels() <==> xWidth >= 1 && yHeight >= 1;
    assert SolidWidth(xLeft, xWidth) == 0 || yHeight < 1 ==> drawn.Pixels() == asked.Pixels() == iset{};
  }

  method DrawSolidRectangleUnclipped(buffer: array<bv8>, xLeft: int, yTop: int, xWidth: int, yHeight: int, shade: Shade)
    requires buffer.Length == BUFFER_SIZE
    requires yHeight >= 1 && SolidWidth(xLeft, xWidth) >= 1 ==>
               OnScreen(xLeft, yTop) && OnScreen(xLeft + SolidWidth(xLeft, xWidth) - 1, yTop + yHeight - 1)
    modifies buffer
    ensures Painted(old(buffer[..]), buffer[..],
                    Rect(xLeft, yTop, xLeft + SolidWidth(xLeft, xWidth), yTop + yHeight).Pixels(), shade)
  {
    ghost var b0, y, width := buffer[..], yTop, SolidWidth(xLeft, xWidth);
    var lineStart, rows := BYTES_PER_SCANLINE * yTop + xLeft / 2, yHeight;
    PaintedNothing(b0, shade);
    assert RowsTo(xLeft, width, yTop, yTop) == iset{};
    assert yHeight <= 0 ==> Rect(xLeft, yTop, xLeft + width, yTop + yHeight).Pixels() == iset{};
    hide Pixel, Painted, SolidWidth;
    while rows > 0
      invariant yHeight <= 0 ==> rows == yHeight && y == yTop
      invariant yHeight > 0 ==> 0 <= rows && y + rows == yTop + yHeight
      invariant lineStart == BYTES_PER_SCANLINE * y + xLeft / 2 && yTop <= y
      invariant Painted(b0, buffer[..], RowsTo(xLeft, width, yTop, y), shade)
    {
      ghost var before := buffer[..];
      SolidRow(buffer, lineStart, xLeft, xWidth, shade, y);
      PaintedThen(b0, before, buffer[..], RowsTo(xLeft, width, yTop, y), HSpan(y, xLeft, xLeft + width), shade);
      assert RowsTo(xLeft, width, yTop, y) + HSpan(y, xLeft, xLeft + width) == RowsTo(xLeft, width, yTop, y + 1);
      lineStart, rows, y := lineStart + BYTES_PER_SCANLINE, rows - 1, y + 1;
    }
  }

  // One row: a left half byte, whole bytes, a right half byte.
  method SolidRow(buffer: array<bv8>, lineStart: int, xLeft: int, xWidth: int, shade: Shade, ghost y: int)
    requires buffer.Length == BUFFER_SIZE
    requires SolidWidth(xLeft, xWidth) >= 1 ==>
               OnScreen(xLeft, y) && OnScreen(xLeft + SolidWidth(xLeft, xWidth) - 1, y)
    requires lineStart == BYTES_PER_SCANLINE * y + xLeft / 2
    modifies buffer
    ensures Painted(old(buffer[..]), buffer[..], HSpan(y, xLeft, xLeft + SolidWidth(xLeft, xWidth)), shade)
  {
    ghost var b0, x, h := buffer[..], xLeft, xLeft / 2;
    var p, left := lineStart, xWidth;
    PaintedNothing(b0, shade);
    assert HSpan(y, xLeft, xLeft) == iset{};
    hide Pixel, Painted, HSpan;
    if xLeft % 2 == 1 {
      SetHi(buffer, p, shade, h, y, b0, HSpan(y, xLeft, x));
      HSpanGrows(y, xLeft, x);
      left, p, h, x := left - 1, p + 1, h + 1, x + 1;
    }
    WholeBytes(buffer, p, left, shade, b0, xLeft, x, h, y);
  }

  // The rest of a row, from an even column on.
  method WholeBytes(buffer: array<bv8>, pStart: int, width: int, shade: Shade,
                    ghost b0: seq<bv8>, ghost xLeft: int, ghost xStart: int, ghost hStart: int, ghost y: int)
    requires buffer.Length == BUFFER_SIZE
    requires width >= 1 ==> OnScreen(xStart, y) && OnScreen(xStart + width - 1, y)
    requires xStart == 2 * hStart && pStart == BYTES_PER_SCANLINE * y + hStart && xLeft <= xStart
    requires Painted(b0, buffer[..], HSpan(y, xLeft, xStart), shade)
    modifies buffer
    ensures Painted(b0, buffer[..], HSpan(y, xLeft, xStart + Max(width, 0)), shade)
  {
    ghost var x, h := xStart, hStart;
    var p, left := pStart, width;
    hide Pixel, Painted, HSpan;
    while left > 1
      invariant x + left == xStart + width && xStart <= x && (width >= 0 ==> left >= 0) && (width < 0 ==> x == xStart)
      invariant x == 2 * h && p == BYTES_PER_SCANLINE * y + h
      invariant Painted(b0, buffer[..], HSpan(y, xLeft, x), shade)
    {
      SetBoth(buffer, p, shade, h, y, b0, HSpan(y, xLeft, x));
      HSpanGrows(y, xLeft, x);
      left, p, h, x := left - 2, p + 1, h + 1, x + 2;
    }
    if left > 0 {
      SetLo(buffer, p, shade, h, y, b0, HSpan(y, xLeft, x));
      HSpanGrows(y, xLeft, x);
    }
  }

  method DrawSolidRectangleClipped(buffer: array<bv8>, clip: Rect, r: Rect, shade: Shade)
    requires buffer.Length == BUFFER_SIZE && clip.WithinScreen()
    modifies buffer
    ensures Painted(old(buffer[..]), buffer[..], r.Pixels() * clip.Pixels(), shade)
  {
    var xLeft := if r.xLeft < clip.xLeft then clip.xLeft else r.xLeft;
    var yTop := if r.yTop < clip.yTop then clip.yTop else r.yTop;
    var xRight := if r.xRight > clip.xRight then clip.xRight else r.xRight;
    var yBottom := if r.yBottom > clip.yBottom then clip.yBottom else r.yBottom;
    var width, height := xRight - xLeft, yBottom - yTop;
    assert Rect(xLeft, yTop, xRight, yBottom).Pixels() == r.Pixels() * clip.Pixels();
    if width < 1 || height < 1 {
      assert r.Pixels() * clip.Pixels() == iset{};
      return;
    }
    DrawSolidRectangleUnclipped(buffer, xLeft, yTop, width, height, shade);
  }

  // The lines into the first n points of a closed polygon.
  ghost function Ring(points: seq<PolygonMath.Point>, n: nat): Region
    requires n <= |points|
  {
    if n == 0 then iset{}
    else
      var p, q := PolygonMath.Previous(points, n - 1), points[n - 1];
      Ring(points, n - 1) + LinePixels(p.0, p.1, q.0, q.1)
  }

  // What the clipped line routine draws of them.
  ghost function RingDrawn(clip: Rect, points: seq<PolygonMath.Point>, n: nat): Region
    requires n <= |points|
  {
    if n == 0 then iset{}
    else
      var p, q := PolygonMath.Previous(points, n - 1), points[n - 1];
      RingDrawn(clip, points, n - 1) + Drawn(clip, p.0, p.1, q.0, q.1)
  }

  /** The ring is the lines between successive points, and one from the last point to the first. */
  lemma {:induction false} RingIsLines(points: seq<PolygonMath.Point>, n: nat, p: (int, int))
    requires 0 < n <= |points|
    ensures p in Ring(points, n) <==>
            || p in LinePixels(points[|points| - 1].0, points[|points| - 1].1, points[0].0, points[0].1)
            || exists i :: 0 < i < n && p in LinePixels(points[i - 1].0, points[i - 1].1, points[i].0, points[i].1)
  {
    hide LinePixels;
    if n > 1 { RingIsLines(points, n - 1, p); }
  }

  lemma {:induction false} RingIsVisible(clip: Rect, points: seq<PolygonMath.Point>, n: nat)
    requires n <= |points| && clip.BothOrNeither()
    ensures RingDrawn(clip, points, n) == Ring(points, n) * clip.Pixels()
  {
    hide Drawn, LinePixels;
    if n > 0 {
      RingIsVisible(clip, points, n - 1);
      ClippingIsExact(clip);
    }
  }

  lemma {:induction false} RingPart(clip: Rect, points: seq<PolygonMath.Point>, i: nat, n: nat)
    requires i < n <= |points|
    ensures var p, q := PolygonMath.Previous(points, i), points[i];
            Drawn(clip, p.0, p.1, q.0, q.1) <= RingDrawn(clip, points, n)
    decreases n
  {
    hide Drawn;
    if i < n - 1 { RingPart(clip, points, i, n - 1); }
  }

  /** The outline joins the points in order and the last one to the first, each line cut to the clip. */
  method DrawOutlinePolygonClipped(buffer: array<bv8>, clip: Rect, points: seq<PolygonMath.Point>, shade: Shade)
    requires buffer.Length == BUFFER_SIZE && 0 < |points|
    requires (clip.WithinScreen() && clip.BothOrNeither()) || AllOnScreen(RingDrawn(clip, points, |points|))
    modifies buffer
    ensures Painted(old(buffer[..]), buffer[..], RingDrawn(clip, points, |points|), shade)
    ensures clip.BothOrNeither() ==>
              Painted(old(buffer[..]), buffer[..], Ring(points, |points|) * clip.Pixels(), shade)
  {
    ghost var b0 := buffer[..];
    var prev, i := points[|points| - 1], 0;
    PaintedNothing(b0, shade);
    hide Pixel, Painted, LinePixels, Drawn;
    while i < |points|
      invariant 0 <= i <= |points|
      invariant prev == if i == 0 then points[|points| - 1] else points[i - 1]
      invariant Painted(b0, buffer[..], RingDrawn(clip, points, i), shade)
    {
      ghost var before := buffer[..];
      var next := points[i];
      RingPart(clip, points, i, |points|);
      DrawLineClipped(buffer, clip, prev.0, prev.1, next.0, next.1, shade);
      PaintedThen(b0, before, buffer[..], RingDrawn(clip, points, i),
                  Drawn(clip, prev.0, prev.1, next.0, next.1), shade);
      prev, i := next, i + 1;
    }
    if clip.BothOrNeither() { RingIsVisible(clip, points, |points|); }
  }

  method DrawOutlinePolygonUnclipped(buffer: array<bv8>, points: seq<PolygonMath.Point>, shade: Shade)
    requires buffer.Length == BUFFER_SIZE && 0 < |points|
    requires forall i :: 0 <= i < |points| ==> OnScreen(points[i].0, points[i].1)
    modifies buffer
    ensures Painted(old(buffer[..]), buffer[..], Ring(points, |points|), shade)
  {
    ghost var b0 := buffer[..];
    var prev, i := points[|points| - 1], 0;
    PaintedNothing(b0, shade);
    hide Pixel, Painted, LinePixels;
    while i < |points|
      invariant 0 <= i <= |points|
      invariant prev == if i == 0 then points[|points| - 1] else points[i - 1]
      invariant Painted(b0, buffer[..], Ring(points, i), shade)
    {
      ghost var before := buffer[..];
      var next := points[i];
      DrawLineUnclipped(buffer, prev.0, prev.1, next.0, next.1, shade);
      PaintedThen(b0, before, buffer[..], Ring(points, i), LinePixels(prev.0, prev.1, next.0, next.1), shade);
      prev, i := next, i + 1;
    }
  }
}
