/**
 The clip rectangle, and the drawing routines every shape is built from: points, horizontal and
 vertical runs and solid rectangles.
 */
module Spans {
  import opened Framebuffer

  /** The half-open clip rectangle held in vfdlib's four globals. */
  datatype Rect = Rect(xLeft: int, yTop: int, xRight: int, yBottom: int) {

    predicate Contains(x: int, y: int) {
      xLeft <= x < xRight && yTop <= y < yBottom
    }

    predicate WithinScreen() {
      0 <= xLeft && xRight <= WIDTH && 0 <= yTop && yBottom <= HEIGHT
    }

    /** A clip that lies on the screen and contains a pixel. */
    predicate Valid() {
      WithinScreen() && xLeft < xRight && yTop < yBottom
    }

    /** Extent along both axes or along neither. */
    predicate BothOrNeither() {
      xLeft < xRight <==> yTop < yBottom
    }

    ghost function Pixels(): Region {
      iset p: (int, int) | Contains(p.0, p.1)
    }
  }

  class ClipArea {
    var rect: Rect

    constructor ()
      ensures rect == Rect(0, 0, WIDTH, HEIGHT) && rect.Valid()
    {
      rect := Rect(0, 0, WIDTH, HEIGHT);
    }

    /** An inverted request is ignored; any other is cut to the screen. */
    method SetClipArea(xLeft: int, yTop: int, xRight: int, yBottom: int)
      requires rect.WithinScreen()
      modifies this
      ensures rect.WithinScreen()
      ensures yTop > yBottom || xLeft > xRight ==> rect == old(rect)
      ensures yTop <= yBottom && xLeft <= xRight ==>
                forall x, y :: rect.Contains(x, y) <==>
                  Rect(xLeft, yTop, xRight, yBottom).Contains(x, y) && OnScreen(x, y)
    {
      if yTop > yBottom || xLeft > xRight { return; }
      var l := if xLeft < 0 then 0 else xLeft;
      var t := if yTop < 0 then 0 else yTop;
      var r := if xRight > WIDTH then WIDTH else xRight;
      var b := if yBottom > HEIGHT then HEIGHT else yBottom;
      rect := Rect(l, t, r, b);
    }
  }

  ghost function HSpan(y: int, xLeft: int, xRight: int): Region {
    iset p: (int, int) | xLeft <= p.0 < xRight && p.1 == y
  }

  ghost function VSpan(x: int, yTop: int, yBottom: int): Region {
    iset p: (int, int) | p.0 == x && yTop <= p.1 < yBottom
  }

  method DrawPointUnclipped(buffer: array<bv8>, xPos: int, yPos: int, shade: Shade)
    requires buffer.Length == BUFFER_SIZE && OnScreen(xPos, yPos)
    modifies buffer
    ensures Painted(old(buffer[..]), buffer[..], iset{(xPos, yPos)}, shade)
  {
    ghost var b0, none: Region := buffer[..], iset{};
    var byteOffset := BYTES_PER_SCANLINE * yPos + xPos / 2;
    if xPos % 2 == 1 {
      SetHi(buffer, byteOffset, shade, xPos / 2, yPos, b0, none);
    } else {
      SetLo(buffer, byteOffset, shade, xPos / 2, yPos, b0, none);
    }
    assert none + iset{(xPos, yPos)} == iset{(xPos, yPos)};
  }

  method DrawPointClipped(buffer: array<bv8>, clip: Rect, xPos: int, yPos: int, shade: Shade)
    requires buffer.Length == BUFFER_SIZE && clip.WithinScreen()
    modifies buffer
    ensures Painted(old(buffer[..]), buffer[..], iset{(xPos, yPos)} * clip.Pixels(), shade)
  {
    if clip.xLeft <= xPos < clip.xRight && clip.yTop <= yPos < clip.yBottom {
      DrawPointUnclipped(buffer, xPos, yPos, shade);
    }
  }

  method DrawLineHorizUnclipped(buffer: array<bv8>, yPos: int, xLeft: int, length: int, shade: Shade)
    requires buffer.Length == BUFFER_SIZE
    requires length >= 1 ==> OnScreen(xLeft, yPos) && OnScreen(xLeft + length - 1, yPos)
    modifies buffer
    ensures Painted(old(buffer[..]), buffer[..], HSpan(yPos, xLeft, xLeft + length), shade)
  {
    hide Pixel, Painted, HSpan;
    ghost var b0, x := buffer[..], xLeft;
    PaintedNothing(b0, shade);
    HSpanEmpty(yPos, xLeft, length);
    HSpanEmpty(yPos, xLeft, 0);
    if length < 1 { return; }
    var p := BYTES_PER_SCANLINE * yPos + xLeft / 2;
    ghost var h := xLeft / 2;
    var left := length;
    if xLeft % 2 == 1 {
      SetHi(buffer, p, shade, h, yPos, b0, HSpan(yPos, xLeft, x));
      HSpanGrows(yPos, xLeft, x);
      left, p, h, x := left - 1, p + 1, h + 1, x + 1;
    }
    while left > 1
      invariant 0 <= left && x + left == xLeft + length && xLeft <= x
      invariant x == 2 * h && p == BYTES_PER_SCANLINE * yPos + h
      invariant Painted(b0, buffer[..], HSpan(yPos, xLeft, x), shade)
    {
      SetBoth(buffer, p, shade, h, yPos, b0, HSpan(yPos, xLeft, x));
      HSpanGrows(yPos, xLeft, x);
      left, p, h, x := left - 2, p + 1, h + 1, x + 2;
    }
    if left > 0 {
      SetLo(buffer, p, shade, h, yPos, b0, HSpan(yPos, xLeft, x));
      HSpanGrows(yPos, xLeft, x);
    }
  }

  lemma HSpanEmpty(y: int, xLeft: int, length: int)
    ensures length <= 0 ==> HSpan(y, xLeft, xLeft + length) == iset{}
  {
  }

  lemma HSpanGrows(y: int, xLeft: int, x: int)
    requires xLeft <= x
    ensures HSpan(y, xLeft, x) + iset{(x, y)} == HSpan(y, xLeft, x + 1)
    ensures HSpan(y, xLeft, x) + iset{(x, y), (x + 1, y)} == HSpan(y, xLeft, x + 2)
  {
  }

  method DrawLineHorizClipped(buffer: array<bv8>, clip: Rect, yPos: int, xLeft: int, xRight: int, shade: Shade)
    requires buffer.Length == BUFFER_SIZE && clip.WithinScreen()
    modifies buffer
    ensures Painted(old(buffer[..]), buffer[..], HSpan(yPos, xLeft, xRight) * clip.Pixels(), shade)
  {
    if xLeft < xRight && xRight >= clip.xLeft && xLeft < clip.xRight && clip.yTop <= yPos < clip.yBottom {
      ghost var b0 := buffer[..];
      var left := if xLeft > clip.xLeft then xLeft else clip.xLeft;
      var right := if xRight < clip.xRight then xRight else clip.xRight;
      DrawLineHorizUnclipped(buffer, yPos, left, right - left, shade);
      PaintedSame(b0, buffer[..], HSpan(yPos, left, right), HSpan(yPos, xLeft, xRight) * clip.Pixels(), shade);
    }
  }

  method DrawLineVertUnclipped(buffer: array<bv8>, xPos: int, yTop: int, length: int, shade: Shade)
    requires buffer.Length == BUFFER_SIZE
    requires length >= 1 ==> OnScreen(xPos, yTop) && OnScreen(xPos, yTop + length - 1)
    modifies buffer
    ensures Painted(old(buffer[..]), buffer[..], VSpan(xPos, yTop, yTop + length), shade)
  {
    ghost var b0, y := buffer[..], yTop;
    PaintedNothing(b0, shade);
    assert length <= 0 ==> VSpan(xPos, yTop, yTop + length) == iset{};
    assert VSpan(xPos, yTop, yTop) == iset{};
    hide Pixel, Painted;
    if length < 1 { return; }
    var p := BYTES_PER_SCANLINE * yTop + xPos / 2;
    var left := length;
    while left > 0
      invariant 0 <= left <= length && y + left == yTop + length
      invariant p == BYTES_PER_SCANLINE * y + xPos / 2
      invariant Painted(b0, buffer[..], VSpan(xPos, yTop, y), shade)
    {
      if xPos % 2 == 1 {
        SetHi(buffer, p, shade, xPos / 2, y, b0, VSpan(xPos, yTop, y));
      } else {
        SetLo(buffer, p, shade, xPos / 2, y, b0, VSpan(xPos, yTop, y));
      }
      assert VSpan(xPos, yTop, y) + iset{(xPos, y)} == VSpan(xPos, yTop, y + 1);
      left, p, y := left - 1, p + BYTES_PER_SCANLINE, y + 1;
    }
  }

  method DrawLineVertClipped(buffer: array<bv8>, clip: Rect, xPos: int, yTop: int, yBottom: int, shade: Shade)
    requires buffer.Length == BUFFER_SIZE && clip.WithinScreen()
    modifies buffer
    ensures Painted(old(buffer[..]), buffer[..], VSpan(xPos, yTop, yBottom) * clip.Pixels(), shade)
  {
    if yTop < yBottom && clip.xLeft <= xPos < clip.xRight && yBottom >= clip.yTop && yTop < clip.yBottom {
      ghost var b0 := buffer[..];
      var top := if yTop > clip.yTop then yTop else clip.yTop;
      var bottom := if yBottom < clip.yBottom then yBottom else clip.yBottom;
      DrawLineVertUnclipped(buffer, xPos, top, bottom - top, shade);
      PaintedSame(b0, buffer[..], VSpan(xPos, top, bottom), VSpan(xPos, yTop, yBottom) * clip.Pixels(), shade);
    }
  }
}
