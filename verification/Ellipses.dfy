/**
 vfdlib's ellipses. The reference picture follows the exact midpoint rule; the four routines, which
 only ever add precomputed differences, are proved to draw it.
 */
module Ellipses {
  import opened Framebuffer
  import opened Spans
  import opened EllipseMath
  import opened EllipseEnds

  /** The four mirror images of one offset. */
  ghost function Quad(cX: int, cY: int, x: int, y: int): Region {
    iset{(cX + x, cY + y), (cX + x, cY - y), (cX - x, cY + y), (cX - x, cY - y)}
  }

  /** The two rows of a solid ellipse at one offset; the right-hand column is left out. */
  ghost function Bars(cX: int, cY: int, x: int, y: int): Region {
    HSpan(cY + y, cX - x, cX + x) + HSpan(cY - y, cX - x, cX + x)
  }

  // What is still to be drawn from a pixel on: region 2, then region 1.

  ghost function OutlineSteep(cX: int, cY: int, a: int, b: int, x: int, y: int): Region
    requires 0 <= y
    decreases y
  {
    if y > 0 then
      var (nx, ny) := NextSteep(a * a, b * b, x, y);
      Quad(cX, cY, nx, ny) + OutlineSteep(cX, cY, a, b, nx, ny)
    else iset{}
  }

  ghost function OutlineFlat(cX: int, cY: int, a: int, b: int, x: int, y: int): Region
    requires 0 <= a && FlatInvariant(a, b, x, y)
    decreases a - x
  {
    if Flat(a * a, b * b, x, y) then
      FlatInvariantStep(a, b, x, y);
      var (nx, ny) := NextFlat(a * a, b * b, x, y);
      Quad(cX, cY, nx, ny) + OutlineFlat(cX, cY, a, b, nx, ny)
    else OutlineSteep(cX, cY, a, b, x, y)
  }

  ghost function Outline(cX: int, cY: int, a: int, b: int): Region
    requires 0 <= a && 0 <= b
  {
    FlatInvariantStart(a, b);
    Quad(cX, cY, 0, b) + OutlineFlat(cX, cY, a, b, 0, b)
  }

  ghost function SolidSteep(cX: int, cY: int, a: int, b: int, x: int, y: int): Region
    requires 0 <= y
    decreases y
  {
    if y > 0 then
      var (nx, ny) := NextSteep(a * a, b * b, x, y);
      Bars(cX, cY, nx, y) + SolidSteep(cX, cY, a, b, nx, ny)
    else HSpan(cY, cX - x, cX + x)
  }

  ghost function SolidFlat(cX: int, cY: int, a: int, b: int, x: int, y: int): Region
    requires 0 <= a && FlatInvariant(a, b, x, y)
    decreases a - x
  {
    if Flat(a * a, b * b, x, y) then
      FlatInvariantStep(a, b, x, y);
      var (nx, ny) := NextFlat(a * a, b * b, x, y);
      if ny < y then Bars(cX, cY, x, y) + SolidFlat(cX, cY, a, b, nx, ny) else SolidFlat(cX, cY, a, b, nx, ny)
    else SolidSteep(cX, cY, a, b, x, y)
  }

  ghost function Solid(cX: int, cY: int, a: int, b: int): Region
    requires 0 <= a && 0 <= b
  {
    FlatInvariantStart(a, b);
    SolidFlat(cX, cY, a, b, 0, b)
  }

  // ---- The bounding box ----

  ghost function Box(cX: int, cY: int, a: int, b: int): Region {
    iset p: (int, int) | cX - a <= p.0 <= cX + a && cY - b <= p.1 <= cY + b
  }

  lemma {:induction false} SteepInBox(cX: int, cY: int, a: int, b: int, x: int, y: int)
    requires 0 <= x <= a && 0 <= y <= b
    ensures OutlineSteep(cX, cY, a, b, x, y) <= Box(cX, cY, a, b)
    ensures SolidSteep(cX, cY, a, b, x, y) <= Box(cX, cY, a, b)
    decreases y
  {
    if y > 0 {
      SteepStepInBox(a, b, x, y);
      var (nx, ny) := NextSteep(a * a, b * b, x, y);
      SteepInBox(cX, cY, a, b, nx, ny);
    }
  }

  lemma {:induction false} FlatInBox(cX: int, cY: int, a: int, b: int, x: int, y: int)
    requires 0 <= a && FlatInvariant(a, b, x, y)
    ensures OutlineFlat(cX, cY, a, b, x, y) <= Box(cX, cY, a, b)
    ensures SolidFlat(cX, cY, a, b, x, y) <= Box(cX, cY, a, b)
    decreases a - x
  {
    if Flat(a * a, b * b, x, y) {
      FlatInvariantStep(a, b, x, y);
      var (nx, ny) := NextFlat(a * a, b * b, x, y);
      FlatInBox(cX, cY, a, b, nx, ny);
    } else {
      SteepInBox(cX, cY, a, b, x, y);
    }
  }

  /** No pixel of an ellipse leaves its bounding box, so the fast path of the clipped routines is safe. */
  lemma EllipseInBox(cX: int, cY: int, a: int, b: int)
    requires 0 <= a && 0 <= b
    ensures Outline(cX, cY, a, b) <= Box(cX, cY, a, b)
    ensures Solid(cX, cY, a, b) <= Box(cX, cY, a, b)
  {
    FlatInvariantStart(a, b);
    FlatInBox(cX, cY, a, b, 0, b);
  }

  /** The fast path's test puts the whole ellipse inside the clip. */
  lemma BoxInClip(clip: Rect, cX: int, cY: int, a: int, b: int)
    requires 0 <= a && 0 <= b
    requires cX - a > clip.xLeft && cX + a < clip.xRight && cY - b > clip.yTop && cY + b < clip.yBottom
    ensures Outline(cX, cY, a, b) * clip.Pixels() == Outline(cX, cY, a, b)
    ensures Solid(cX, cY, a, b) * clip.Pixels() == Solid(cX, cY, a, b)
  {
    EllipseInBox(cX, cY, a, b);
    hide Outline, Solid;
    assert Box(cX, cY, a, b) <= clip.Pixels();
  }

  // ---- Whether the outline closes ----

  lemma {:induction false} SteepMeetsAxis(cX: int, cY: int, a: int, b: int, x: int, y: int)
    requires 0 <= x <= a && 0 <= y <= b
    ensures (cX + a, cY) in OutlineSteep(cX, cY, a, b, x, y) <==> y > 0 && SteepEnd(a * a, b * b, x, y) == a
    decreases y
  {
    if y > 0 {
      SteepStepInBox(a, b, x, y);
      var (nx, ny) := NextSteep(a * a, b * b, x, y);
      SteepMeetsAxis(cX, cY, a, b, nx, ny);
      OnAxis(cX, cY, a, nx, ny);
      hide NextSteep, Quad;
    }
  }

  lemma {:induction false} FlatMeetsAxis(cX: int, cY: int, a: int, b: int, x: int, y: int)
    requires 0 <= a && FlatInvariant(a, b, x, y)
    ensures var (hx, hy) := HandOver(a, b, x, y);
            (cX + a, cY) in OutlineFlat(cX, cY, a, b, x, y) <==> y > 0 && SteepEnd(a * a, b * b, hx, hy) == a
    decreases a - x
  {
    if Flat(a * a, b * b, x, y) {
      FlatMeansHigh(a, b, x, y);
      FlatInvariantStep(a, b, x, y);
      var (nx, ny) := NextFlat(a * a, b * b, x, y);
      FlatMeetsAxis(cX, cY, a, b, nx, ny);
      OnAxis(cX, cY, a, nx, ny);
      if ny == 0 { NotFlatOnAxis(a, b, nx); }
      hide NextFlat, Quad;
    } else {
      SteepMeetsAxis(cX, cY, a, b, x, y);
    }
  }

  lemma NotFlatOnAxis(a: int, b: int, x: int)
    requires 0 <= x
    ensures !Flat(a * a, b * b, x, 0)
  {
    if Flat(a * a, b * b, x, 0) { FlatMeansHigh(a, b, x, 0); }
  }

  lemma OnAxis(cX: int, cY: int, a: int, x: int, y: int)
    requires 0 <= x <= a
    ensures (cX + a, cY) in Quad(cX, cY, x, y) <==> x == a && y == 0
  {
  }

  /** The outline has its rightmost pixel exactly unless the half sizes make the walk stop short. */
  lemma OutlineClosesExactly(cX: int, cY: int, a: int, b: int)
    requires 0 <= a && 0 <= b
    ensures (cX + a, cY) in Outline(cX, cY, a, b) <==> !StopsShort(a, b)
  {
    FlatInvariantStart(a, b);
    StopsShortExactly(a, b);
    FlatMeetsAxis(cX, cY, a, b, 0, b);
    OnAxis(cX, cY, a, 0, b);
    if b == 0 { NotFlatOnAxis(a, b, 0); }
    hide StopsShort, Quad, OutlineFlat, FlatInvariant;
  }

  // ---- Drawing ----

  method DrawPixel4WaySymmetricClipped(buffer: array<bv8>, clip: Rect, cX: int, cY: int, x: int, y: int, shade: Shade,
                                       ghost start: seq<bv8>, ghost r: Region)
    requires buffer.Length == BUFFER_SIZE && clip.WithinScreen()
    requires Painted(start, buffer[..], r, shade)
    modifies buffer
    ensures Painted(start, buffer[..], r + Quad(cX, cY, x, y) * clip.Pixels(), shade)
  {
    hide Pixel, Painted;
    ghost var c := clip.Pixels();
    ghost var b0 := buffer[..];
    DrawPointClipped(buffer, clip, cX + x, cY + y, shade);
    PaintedThen(start, b0, buffer[..], r, iset{(cX + x, cY + y)} * c, shade);
    ghost var r1 := r + iset{(cX + x, cY + y)} * c;
    ghost var b1 := buffer[..];
    DrawPointClipped(buffer, clip, cX + x, cY - y, shade);
    PaintedThen(start, b1, buffer[..], r1, iset{(cX + x, cY - y)} * c, shade);
    ghost var r2 := r1 + iset{(cX + x, cY - y)} * c;
    ghost var b2 := buffer[..];
    DrawPointClipped(buffer, clip, cX - x, cY + y, shade);
    PaintedThen(start, b2, buffer[..], r2, iset{(cX - x, cY + y)} * c, shade);
    ghost var r3 := r2 + iset{(cX - x, cY + y)} * c;
    ghost var b3 := buffer[..];
    DrawPointClipped(buffer, clip, cX - x, cY - y, shade);
    PaintedThen(start, b3, buffer[..], r3, iset{(cX - x, cY - y)} * c, shade);
    assert r3 + iset{(cX - x, cY - y)} * c == r + Quad(cX, cY, x, y) * c;
  }

  method DrawPixel4WaySymmetricUnclipped(buffer: array<bv8>, cX: int, cY: int, x: int, y: int, shade: Shade,
                                         ghost start: seq<bv8>, ghost r: Region)
    requires buffer.Length == BUFFER_SIZE
    requires OnScreen(cX + x, cY + y) && OnScreen(cX - x, cY - y)
    requires Painted(start, buffer[..], r, shade)
    modifies buffer
    ensures Painted(start, buffer[..], r + Quad(cX, cY, x, y), shade)
  {
    hide Pixel, Painted;
    ghost var b0 := buffer[..];
    DrawPointUnclipped(buffer, cX + x, cY + y, shade);
    PaintedThen(start, b0, buffer[..], r, iset{(cX + x, cY + y)}, shade);
    ghost var r1 := r + iset{(cX + x, cY + y)};
    ghost var b1 := buffer[..];
    DrawPointUnclipped(buffer, cX + x, cY - y, shade);
    PaintedThen(start, b1, buffer[..], r1, iset{(cX + x, cY - y)}, shade);
    ghost var r2 := r1 + iset{(cX + x, cY - y)};
    ghost var b2 := buffer[..];
    DrawPointUnclipped(buffer, cX - x, cY + y, shade);
    PaintedThen(start, b2, buffer[..], r2, iset{(cX - x, cY + y)}, shade);
    ghost var r3 := r2 + iset{(cX - x, cY + y)};
    ghost var b3 := buffer[..];
    DrawPointUnclipped(buffer, cX - x, cY - y, shade);
    PaintedThen(start, b3, buffer[..], r3, iset{(cX - x, cY - y)}, shade);
    assert r3 + iset{(cX - x, cY - y)} == r + Quad(cX, cY, x, y);
  }

  /** Draws exactly the reference outline; the caller keeps the bounding box on the screen. */
  method DrawOutlineEllipseUnclipped(buffer: array<bv8>, cX: int, cY: int, a: int, b: int, shade: Shade)
    requires buffer.Length == BUFFER_SIZE && 0 <= a && 0 <= b
    requires OnScreen(cX - a, cY - b) && OnScreen(cX + a, cY + b)
    modifies buffer
    ensures Painted(old(buffer[..]), buffer[..], Outline(cX, cY, a, b), shade)
  {
    hide Pixel, Painted, FlatInvariant, NextFlat, NextSteep, Quad;
    var aa, bb := a * a, b * b;
    ghost var b0, r := buffer[..], Quad(cX, cY, 0, b);
    PaintedNothing(b0, shade);
    DrawPixel4WaySymmetricUnclipped(buffer, cX, cY, 0, b, shade, b0, iset{});
    assert iset{} + Quad(cX, cY, 0, b) == r;
    FlatInvariantStart(a, b);
    StartFlatExact(a, b);
    var w := StartFlat(a, b);
    while Flat(aa, bb, w.x, w.y)
      invariant w.Exact(aa, bb) && FlatInvariant(a, b, w.x, w.y)
      invariant Painted(b0, buffer[..], r, shade)
      invariant r + OutlineFlat(cX, cY, a, b, w.x, w.y) == Outline(cX, cY, a, b)
      decreases a - w.x
    {
      FlatStepExact(aa, bb, w);
      FlatInvariantStep(a, b, w.x, w.y);
      w := w.Step(aa, bb);
      InFlatBox(a, b, w.x, w.y);
      DrawPixel4WaySymmetricUnclipped(buffer, cX, cY, w.x, w.y, shade, b0, r);
      r := r + Quad(cX, cY, w.x, w.y);
    }
    InFlatBox(a, b, w.x, w.y);
    StartSteepExact(aa, bb, w.x, w.y);
    var v := StartSteep(aa, bb, w.x, w.y);
    while v.y > 0
      invariant v.Exact(aa, bb) && 0 <= v.x <= a && 0 <= v.y <= b
      invariant Painted(b0, buffer[..], r, shade)
      invariant r + OutlineSteep(cX, cY, a, b, v.x, v.y) == Outline(cX, cY, a, b)
      decreases v.y
    {
      SteepStepExact(aa, bb, v);
      SteepStepInBox(a, b, v.x, v.y);
      v := v.Step(aa, bb);
      DrawPixel4WaySymmetricUnclipped(buffer, cX, cY, v.x, v.y, shade, b0, r);
      r := r + Quad(cX, cY, v.x, v.y);
    }
    assert r == Outline(cX, cY, a, b);
  }

  lemma InFlatBox(a: int, b: int, x: int, y: int)
    requires FlatInvariant(a, b, x, y)
    ensures 0 <= x <= a && 0 <= y <= b
  {
  }

  /** With `r` drawn, the clipped rest is all that is missing from the clipped whole. */
  ghost predicate Owes(r: Region, rest: Region, c: Region, whole: Region) {
    r + rest * c == whole * c
  }

  lemma OwesLess(r: Region, part: Region, rest: Region, c: Region, whole: Region)
    ensures Owes(r, part + rest, c, whole) ==> Owes(r + part * c, rest, c, whole)
    ensures Owes(iset{}, whole, c, whole)
  {
  }

  lemma OwesNothing(r: Region, c: Region, whole: Region)
    requires Owes(r, iset{}, c, whole)
    ensures r == whole * c
  {
  }

  /** Draws exactly the part of the same outline inside the clip, by either path. */
  method DrawOutlineEllipseClipped(buffer: array<bv8>, clip: Rect, cX: int, cY: int, a: int, b: int, shade: Shade)
    requires buffer.Length == BUFFER_SIZE && clip.WithinScreen() && 0 <= a && 0 <= b
    modifies buffer
    ensures Painted(old(buffer[..]), buffer[..], Outline(cX, cY, a, b) * clip.Pixels(), shade)
  {
    hide Pixel, Painted, FlatInvariant, NextFlat, NextSteep, Quad, Flat;
    hide FlatWalk.Exact, FlatWalk.Step, SteepWalk.Exact, SteepWalk.Step;
    ghost var whole, c := Outline(cX, cY, a, b), clip.Pixels();
    if cX - a > clip.xLeft && cX + a < clip.xRight && cY - b > clip.yTop && cY + b < clip.yBottom {
      BoxInClip(clip, cX, cY, a, b);
      DrawOutlineEllipseUnclipped(buffer, cX, cY, a, b, shade);
      return;
    }
    var aa, bb := a * a, b * b;
    ghost var b0, none: Region := buffer[..], iset{};
    FlatInvariantStart(a, b);
    PaintedNothing(b0, shade);
    OwesLess(none, Quad(cX, cY, 0, b), OutlineFlat(cX, cY, a, b, 0, b), c, whole);
    hide Owes;
    hide Rect.Pixels;
    DrawPixel4WaySymmetricClipped(buffer, clip, cX, cY, 0, b, shade, b0, none);
    ghost var r := none + Quad(cX, cY, 0, b) * c;
    StartFlatExact(a, b);
    var w := StartFlat(a, b);
    while Flat(aa, bb, w.x, w.y)
      invariant w.Exact(aa, bb) && FlatInvariant(a, b, w.x, w.y)
      invariant Painted(b0, buffer[..], r, shade)
      invariant Owes(r, OutlineFlat(cX, cY, a, b, w.x, w.y), c, whole)
      decreases a - w.x
    {
      FlatStepExact(aa, bb, w);
      FlatInvariantStep(a, b, w.x, w.y);
      InFlatBox(a, b, w.x, w.y);
      w := w.Step(aa, bb);
      InFlatBox(a, b, w.x, w.y);
      DrawPixel4WaySymmetricClipped(buffer, clip, cX, cY, w.x, w.y, shade, b0, r);
      OwesLess(r, Quad(cX, cY, w.x, w.y), OutlineFlat(cX, cY, a, b, w.x, w.y), c, whole);
      r := r + Quad(cX, cY, w.x, w.y) * c;
    }
    InFlatBox(a, b, w.x, w.y);
    StartSteepExact(aa, bb, w.x, w.y);
    var v := StartSteep(aa, bb, w.x, w.y);
    while v.y > 0
      invariant v.Exact(aa, bb) && 0 <= v.y
      invariant Painted(b0, buffer[..], r, shade)
      invariant Owes(r, OutlineSteep(cX, cY, a, b, v.x, v.y), c, whole)
      decreases v.y
    {
      SteepStepExact(aa, bb, v);
      v := v.Step(aa, bb);
      DrawPixel4WaySymmetricClipped(buffer, clip, cX, cY, v.x, v.y, shade, b0, r);
      OwesLess(r, Quad(cX, cY, v.x, v.y), OutlineSteep(cX, cY, a, b, v.x, v.y), c, whole);
      r := r + Quad(cX, cY, v.x, v.y) * c;
    }
    OwesNothing(r, c, whole);
  }

  method DrawBarsClipped(buffer: array<bv8>, clip: Rect, cX: int, cY: int, x: int, y: int, shade: Shade,
                         ghost start: seq<bv8>, ghost r: Region)
    requires buffer.Length == BUFFER_SIZE && clip.WithinScreen()
    requires Painted(start, buffer[..], r, shade)
    modifies buffer
    ensures Painted(start, buffer[..], r + Bars(cX, cY, x, y) * clip.Pixels(), shade)
  {
    hide Pixel, Painted, HSpan;
    ghost var c := clip.Pixels();
    ghost var upper, lower := HSpan(cY + y, cX - x, cX + x) * c, HSpan(cY - y, cX - x, cX + x) * c;
    ghost var b0 := buffer[..];
    DrawLineHorizClipped(buffer, clip, cY + y, cX - x, cX + x, shade);
    PaintedThen(start, b0, buffer[..], r, upper, shade);
    ghost var b1 := buffer[..];
    DrawLineHorizClipped(buffer, clip, cY - y, cX - x, cX + x, shade);
    PaintedThen(start, b1, buffer[..], r + upper, lower, shade);
    assert r + upper + lower == r + Bars(cX, cY, x, y) * c;
  }

  method DrawBarsUnclipped(buffer: array<bv8>, cX: int, cY: int, x: int, y: int, shade: Shade,
                           ghost start: seq<bv8>, ghost r: Region)
    requires buffer.Length == BUFFER_SIZE && 0 <= x && 0 <= y
    requires OnScreen(cX + x, cY + y) && OnScreen(cX - x, cY - y)
    requires Painted(start, buffer[..], r, shade)
    modifies buffer
    ensures Painted(start, buffer[..], r + Bars(cX, cY, x, y), shade)
  {
    hide Pixel, Painted, HSpan;
    ghost var upper, lower := HSpan(cY + y, cX - x, cX + x), HSpan(cY - y, cX - x, cX + x);
    ghost var b0 := buffer[..];
    DrawLineHorizUnclipped(buffer, cY + y, cX - x, 2 * x, shade);
    PaintedThen(start, b0, buffer[..], r, upper, shade);
    ghost var b1 := buffer[..];
    DrawLineHorizUnclipped(buffer, cY - y, cX - x, 2 * x, shade);
    PaintedThen(start, b1, buffer[..], r + upper, lower, shade);
    assert r + upper + lower == r + Bars(cX, cY, x, y);
  }

  method DrawSolidEllipseUnclipped(buffer: array<bv8>, cX: int, cY: int, a: int, b: int, shade: Shade)
    requires buffer.Length == BUFFER_SIZE && 0 <= a && 0 <= b
    requires OnScreen(cX - a, cY - b) && OnScreen(cX + a, cY + b)
    modifies buffer
    ensures Painted(old(buffer[..]), buffer[..], Solid(cX, cY, a, b), shade)
  {
    hide Pixel, Painted, FlatInvariant, NextSteep, Bars, HSpan, Flat, NextFlat;
    hide FlatWalk.Exact, FlatWalk.Step, SteepWalk.Exact, SteepWalk.Step;
    var aa, bb := a * a, b * b;
    ghost var b0, r: Region := buffer[..], iset{};
    PaintedNothing(b0, shade);
    FlatInvariantStart(a, b);
    StartFlatExact(a, b);
    var w := StartFlat(a, b);
    while Flat(aa, bb, w.x, w.y)
      invariant w.Exact(aa, bb) && FlatInvariant(a, b, w.x, w.y)
      invariant Painted(b0, buffer[..], r, shade)
      invariant r + SolidFlat(cX, cY, a, b, w.x, w.y) == Solid(cX, cY, a, b)
      decreases a - w.x
    {
      InFlatBox(a, b, w.x, w.y);
      FlatStepExact(aa, bb, w);
      FlatInvariantStep(a, b, w.x, w.y);
      if !(w.d1 < 0) {
        DrawBarsUnclipped(buffer, cX, cY, w.x, w.y, shade, b0, r);
        r := r + Bars(cX, cY, w.x, w.y);
      }
      w := w.Step(aa, bb);
      InFlatBox(a, b, w.x, w.y);
    }
    InFlatBox(a, b, w.x, w.y);
    StartSteepExact(aa, bb, w.x, w.y);
    var v := StartSteep(aa, bb, w.x, w.y);
    while v.y > 0
      invariant v.Exact(aa, bb) && 0 <= v.x <= a && 0 <= v.y <= b
      invariant Painted(b0, buffer[..], r, shade)
      invariant r + SolidSteep(cX, cY, a, b, v.x, v.y) == Solid(cX, cY, a, b)
      decreases v.y
    {
      SteepStepExact(aa, bb, v);
      SteepStepInBox(a, b, v.x, v.y);
      var next := v.Step(aa, bb);
      DrawBarsUnclipped(buffer, cX, cY, next.x, v.y, shade, b0, r);
      r := r + Bars(cX, cY, next.x, v.y);
      v := next;
    }
    ghost var b1 := buffer[..];
    DrawLineHorizUnclipped(buffer, cY, cX - v.x, 2 * v.x, shade);
    PaintedThen(b0, b1, buffer[..], r, HSpan(cY, cX - v.x, cX + v.x), shade);
  }

  method DrawSolidEllipseClipped(buffer: array<bv8>, clip: Rect, cX: int, cY: int, a: int, b: int, shade: Shade)
    requires buffer.Length == BUFFER_SIZE && clip.WithinScreen() && 0 <= a && 0 <= b
    modifies buffer
    ensures Painted(old(buffer[..]), buffer[..], Solid(cX, cY, a, b) * clip.Pixels(), shade)
  {
    hide Pixel, Painted, FlatInvariant, NextSteep, Bars, HSpan, Flat, NextFlat;
    hide FlatWalk.Exact, FlatWalk.Step, SteepWalk.Exact, SteepWalk.Step;
    ghost var whole, c := Solid(cX, cY, a, b), clip.Pixels();
    if cX - a > clip.xLeft && cX + a < clip.xRight && cY - b > clip.yTop && cY + b < clip.yBottom {
      BoxInClip(clip, cX, cY, a, b);
      DrawSolidEllipseUnclipped(buffer, cX, cY, a, b, shade);
      return;
    }
    var aa, bb := a * a, b * b;
    ghost var b0, r: Region := buffer[..], iset{};
    PaintedNothing(b0, shade);
    FlatInvariantStart(a, b);
    OwesLess(r, r, r, c, whole);
    hide Owes;
    hide Rect.Pixels;
    StartFlatExact(a, b);
    var w := StartFlat(a, b);
    while Flat(aa, bb, w.x, w.y)
      invariant w.Exact(aa, bb) && FlatInvariant(a, b, w.x, w.y)
      invariant Painted(b0, buffer[..], r, shade)
      invariant Owes(r, SolidFlat(cX, cY, a, b, w.x, w.y), c, whole)
      decreases a - w.x
    {
      InFlatBox(a, b, w.x, w.y);
      FlatStepExact(aa, bb, w);
      FlatInvariantStep(a, b, w.x, w.y);
      if !(w.d1 < 0) {
        DrawBarsClipped(buffer, clip, cX, cY, w.x, w.y, shade, b0, r);
        var n := w.Step(aa, bb);
        OwesLess(r, Bars(cX, cY, w.x, w.y), SolidFlat(cX, cY, a, b, n.x, n.y), c, whole);
        r := r + Bars(cX, cY, w.x, w.y) * c;
      }
      w := w.Step(aa, bb);
      InFlatBox(a, b, w.x, w.y);
    }
    InFlatBox(a, b, w.x, w.y);
    StartSteepExact(aa, bb, w.x, w.y);
    var v := StartSteep(aa, bb, w.x, w.y);
    while v.y > 0
      invariant v.Exact(aa, bb) && 0 <= v.y
      invariant Painted(b0, buffer[..], r, shade)
      invariant Owes(r, SolidSteep(cX, cY, a, b, v.x, v.y), c, whole)
      decreases v.y
    {
      SteepStepExact(aa, bb, v);
      var next := v.Step(aa, bb);
      DrawBarsClipped(buffer, clip, cX, cY, next.x, v.y, shade, b0, r);
      OwesLess(r, Bars(cX, cY, next.x, v.y), SolidSteep(cX, cY, a, b, next.x, next.y), c, whole);
      r := r + Bars(cX, cY, next.x, v.y) * c;
      v := next;
    }
    ghost var b1, last, none: Region := buffer[..], HSpan(cY, cX - v.x, cX + v.x), iset{};
    DrawLineHorizClipped(buffer, clip, cY, cX - v.x, cX + v.x, shade);
    PaintedThen(b0, b1, buffer[..], r, last * c, shade);
    assert last + none == last;
    OwesLess(r, last, none, c, whole);
    OwesNothing(r + last * c, c, whole);
  }
}
