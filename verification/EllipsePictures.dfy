/**
 What the two ellipse pictures look like: symmetric, without gaps from row to row, and in each row of the solid
 one a single span that ends at the outline.
 */
module EllipsePictures {
  import opened Framebuffer
  import opened Spans
  import opened EllipseMath
  import opened Ellipses

  predicate At(r: Region, x: int, y: int) {
    (x, y) in r
  }

  // ---- Symmetry ----

  /** Mirrored in a row and in a column: a pixel and its image have coordinates that sum to `my`, or to `mx`. */
  ghost predicate Mirrored(r: Region, mx: int, my: int) {
    && (forall x, y :: At(r, x, y) <==> At(r, x, my - y))
    && (forall x, y :: At(r, x, y) <==> At(r, mx - x, y))
  }

  lemma MirrorsJoin(r: Region, s: Region, mx: int, my: int)
    requires Mirrored(r, mx, my) && Mirrored(s, mx, my)
    ensures Mirrored(r + s, mx, my)
  {
    forall x, y ensures At(r + s, x, y) <==> At(r, x, y) || At(s, x, y) {}
  }

  lemma QuadMirrors(cX: int, cY: int, x: int, y: int)
    ensures Mirrored(Quad(cX, cY, x, y), 2 * cX, 2 * cY)
  {
  }

  lemma BarsMirror(cX: int, cY: int, x: int, y: int)
    ensures Mirrored(Bars(cX, cY, x, y), 2 * cX - 1, 2 * cY)
    ensures Mirrored(HSpan(cY, cX - x, cX + x), 2 * cX - 1, 2 * cY)
  {
  }

  lemma NothingMirrors(mx: int, my: int)
    ensures Mirrored(iset{}, mx, my)
  {
  }

  lemma {:induction false} OutlineSteepMirrors(cX: int, cY: int, a: int, b: int, x: int, y: int)
    requires 0 <= y
    ensures Mirrored(OutlineSteep(cX, cY, a, b, x, y), 2 * cX, 2 * cY)
    decreases y
  {
    hide Quad, NextSteep, Mirrored;
    if y > 0 {
      var (nx, ny) := NextSteep(a * a, b * b, x, y);
      NextSteepGoesDown(a * a, b * b, x, y);
      QuadMirrors(cX, cY, nx, ny);
      OutlineSteepMirrors(cX, cY, a, b, nx, ny);
      MirrorsJoin(Quad(cX, cY, nx, ny), OutlineSteep(cX, cY, a, b, nx, ny), 2 * cX, 2 * cY);
    } else {
      NothingMirrors(2 * cX, 2 * cY);
    }
  }

  lemma NextSteepGoesDown(aa: int, bb: int, x: int, y: int)
    ensures var (nx, ny) := NextSteep(aa, bb, x, y); ny == y - 1 && x <= nx <= x + 1
  {
  }

  lemma {:induction false} OutlineFlatMirrors(cX: int, cY: int, a: int, b: int, x: int, y: int)
    requires 0 <= a && FlatInvariant(a, b, x, y)
    ensures Mirrored(OutlineFlat(cX, cY, a, b, x, y), 2 * cX, 2 * cY)
    decreases a - x
  {
    hide Quad, NextFlat, Flat, Mirrored, FlatInvariant;
    InFlatBox(a, b, x, y);
    if Flat(a * a, b * b, x, y) {
      FlatInvariantStep(a, b, x, y);
      var (nx, ny) := NextFlat(a * a, b * b, x, y);
      QuadMirrors(cX, cY, nx, ny);
      OutlineFlatMirrors(cX, cY, a, b, nx, ny);
      MirrorsJoin(Quad(cX, cY, nx, ny), OutlineFlat(cX, cY, a, b, nx, ny), 2 * cX, 2 * cY);
    } else {
      OutlineSteepMirrors(cX, cY, a, b, x, y);
    }
  }

  lemma {:induction false} SolidSteepMirrors(cX: int, cY: int, a: int, b: int, x: int, y: int)
    requires 0 <= y
    ensures Mirrored(SolidSteep(cX, cY, a, b, x, y), 2 * cX - 1, 2 * cY)
    decreases y
  {
    hide Bars, NextSteep, Mirrored, HSpan;
    BarsMirror(cX, cY, x, y);
    if y > 0 {
      var (nx, ny) := NextSteep(a * a, b * b, x, y);
      NextSteepGoesDown(a * a, b * b, x, y);
      BarsMirror(cX, cY, nx, y);
      SolidSteepMirrors(cX, cY, a, b, nx, ny);
      MirrorsJoin(Bars(cX, cY, nx, y), SolidSteep(cX, cY, a, b, nx, ny), 2 * cX - 1, 2 * cY);
    }
  }

  lemma {:induction false} SolidFlatMirrors(cX: int, cY: int, a: int, b: int, x: int, y: int)
    requires 0 <= a && FlatInvariant(a, b, x, y)
    ensures Mirrored(SolidFlat(cX, cY, a, b, x, y), 2 * cX - 1, 2 * cY)
    decreases a - x
  {
    hide Bars, NextFlat, Flat, Mirrored, FlatInvariant;
    InFlatBox(a, b, x, y);
    if Flat(a * a, b * b, x, y) {
      FlatInvariantStep(a, b, x, y);
      var (nx, ny) := NextFlat(a * a, b * b, x, y);
      BarsMirror(cX, cY, x, y);
      SolidFlatMirrors(cX, cY, a, b, nx, ny);
      MirrorsJoin(Bars(cX, cY, x, y), SolidFlat(cX, cY, a, b, nx, ny), 2 * cX - 1, 2 * cY);
    } else {
      SolidSteepMirrors(cX, cY, a, b, x, y);
    }
  }

  /**
   The outline is symmetric about the centre's row and column. The solid ellipse is too, except that it is one
   column short on the right: its mirror is the line between the centre's column and the one left of it.
   */
  lemma PicturesAreSymmetric(cX: int, cY: int, a: int, b: int)
    requires 0 <= a && 0 <= b
    ensures Mirrored(Outline(cX, cY, a, b), 2 * cX, 2 * cY)
    ensures Mirrored(Solid(cX, cY, a, b), 2 * cX - 1, 2 * cY)
  {
    hide Quad, OutlineFlat, SolidFlat, Mirrored, FlatInvariant;
    FlatInvariantStart(a, b);
    QuadMirrors(cX, cY, 0, b);
    OutlineFlatMirrors(cX, cY, a, b, 0, b);
    MirrorsJoin(Quad(cX, cY, 0, b), OutlineFlat(cX, cY, a, b, 0, b), 2 * cX, 2 * cY);
    SolidFlatMirrors(cX, cY, a, b, 0, b);
  }

  // ---- Row by row ----

  /** Where a row ends, right of the centre: the outermost outline column, and the solid span's end. */
  datatype End = End(outline: int, span: int)

  ghost function EndSteep(aa: int, bb: int, x: int, y: int, r: int): End
    requires 0 <= r <= y
    decreases y
  {
    var (nx, ny) := NextSteep(aa, bb, x, y);
    if r == y then End(x, if y == 0 then x else nx) else EndSteep(aa, bb, nx, y - 1, r)
  }

  ghost function EndFlat(a: int, b: int, x: int, y: int, r: int): End
    requires 0 <= a && FlatInvariant(a, b, x, y) && 0 <= r <= y
    decreases a - x
  {
    if Flat(a * a, b * b, x, y) then
      FlatInvariantStep(a, b, x, y);
      FlatMeansHigh(a, b, x, y);
      var (nx, ny) := NextFlat(a * a, b * b, x, y);
      if r == y && ny < y then End(x, x) else EndFlat(a, b, nx, ny, r)
    else EndSteep(a * a, b * b, x, y, r)
  }

  ghost predicate RowEmpty(r: Region, y: int) {
    forall u :: !At(r, u, y)
  }

  /** The rightmost pixel of row `y`. */
  ghost predicate RowEnds(r: Region, y: int, right: int) {
    At(r, right, y) && forall u | u > right :: !At(r, u, y)
  }

  ghost predicate RowSpan(r: Region, y: int, left: int, right: int) {
    forall u :: At(r, u, y) <==> left <= u < right
  }

  lemma RowsJoin(r: Region, s: Region, y: int, left: int, right: int)
    ensures RowEmpty(r, y) && RowEmpty(s, y) ==> RowEmpty(r + s, y)
    ensures RowEmpty(r, y) && RowEnds(s, y, right) ==> RowEnds(r + s, y, right)
    ensures RowEnds(r, y, right) && RowEmpty(s, y) ==> RowEnds(r + s, y, right)
    ensures RowEnds(r, y, left) && RowEnds(s, y, right) && left <= right ==> RowEnds(r + s, y, right)
    ensures RowEmpty(r, y) && RowSpan(s, y, left, right) ==> RowSpan(r + s, y, left, right)
    ensures RowSpan(r, y, left, right) && RowEmpty(s, y) ==> RowSpan(r + s, y, left, right)
  {
    forall u ensures At(r + s, u, y) <==> At(r, u, y) || At(s, u, y) {}
  }

  lemma QuadRow(cX: int, cY: int, x: int, y: int, r: int)
    requires 0 <= x && 0 <= y && 0 <= r
    ensures r == y ==> RowEnds(Quad(cX, cY, x, y), cY + r, cX + x)
    ensures r != y ==> RowEmpty(Quad(cX, cY, x, y), cY + r)
  {
  }

  lemma BarsRow(cX: int, cY: int, x: int, y: int, r: int)
    requires 0 <= y && 0 <= r
    ensures r == y ==> RowSpan(Bars(cX, cY, x, y), cY + r, cX - x, cX + x)
    ensures r != y ==> RowEmpty(Bars(cX, cY, x, y), cY + r)
    ensures RowSpan(HSpan(cY, cX - x, cX + x), cY, cX - x, cX + x)
    ensures r != 0 ==> RowEmpty(HSpan(cY, cX - x, cX + x), cY + r)
  {
  }

  lemma NoRow(y: int)
    ensures RowEmpty(iset{}, y)
  {
  }

  /** What the walk from `(x, y)` on draws of the outline in row `r`: nothing below row `y`. */
  lemma {:induction false} SteepOutlineRow(cX: int, cY: int, a: int, b: int, x: int, y: int, r: int)
    requires 0 <= x && 0 <= y && 0 <= r
    ensures var rest := Quad(cX, cY, x, y) + OutlineSteep(cX, cY, a, b, x, y);
            && (r > y ==> RowEmpty(rest, cY + r))
            && (r <= y ==>
                  var e := EndSteep(a * a, b * b, x, y, r);
                  RowEnds(rest, cY + r, cX + e.outline) && x <= e.outline <= e.span <= e.outline + 1)
    decreases y
  {
    hide Quad, NextSteep, RowEmpty, RowEnds, RowSpan;
    NextSteepGoesDown(a * a, b * b, x, y);
    QuadRow(cX, cY, x, y, r);
    var rest := OutlineSteep(cX, cY, a, b, x, y);
    if y > 0 {
      var (nx, ny) := NextSteep(a * a, b * b, x, y);
      SteepOutlineRow(cX, cY, a, b, nx, ny, r);
      RowsJoin(Quad(cX, cY, x, y), rest, cY + r, 0,
               cX + if r < y then EndSteep(a * a, b * b, nx, ny, r).outline else x);
    } else {
      NoRow(cY + r);
      RowsJoin(Quad(cX, cY, x, y), rest, cY + r, 0, cX + x);
    }
  }

  lemma {:induction false} SteepSolidRow(cX: int, cY: int, a: int, b: int, x: int, y: int, r: int)
    requires 0 <= y && 0 <= r
    ensures var rest := SolidSteep(cX, cY, a, b, x, y);
            && (r > y ==> RowEmpty(rest, cY + r))
            && (r <= y ==> var w := EndSteep(a * a, b * b, x, y, r).span; RowSpan(rest, cY + r, cX - w, cX + w))
    decreases y
  {
    hide NextSteep, Bars, HSpan, RowEmpty, RowEnds, RowSpan;
    NextSteepGoesDown(a * a, b * b, x, y);
    BarsRow(cX, cY, x, y, r);
    if y > 0 {
      var (nx, ny) := NextSteep(a * a, b * b, x, y);
      SteepSolidRow(cX, cY, a, b, nx, ny, r);
      BarsRow(cX, cY, nx, y, r);
      var w := if r < y then EndSteep(a * a, b * b, nx, ny, r).span else nx;
      RowsJoin(Bars(cX, cY, nx, y), SolidSteep(cX, cY, a, b, nx, ny), cY + r, cX - w, cX + w);
    }
  }

  lemma NextFlatGoesRight(aa: int, bb: int, x: int, y: int)
    ensures var (nx, ny) := NextFlat(aa, bb, x, y); nx == x + 1 && y - 1 <= ny <= y
  {
  }

  lemma {:induction false} FlatOutlineRow(cX: int, cY: int, a: int, b: int, x: int, y: int, r: int)
    requires 0 <= a && FlatInvariant(a, b, x, y) && 0 <= r && 0 <= y
    ensures var rest := Quad(cX, cY, x, y) + OutlineFlat(cX, cY, a, b, x, y);
            && (r > y ==> RowEmpty(rest, cY + r))
            && (r <= y ==>
                  var e := EndFlat(a, b, x, y, r);
                  RowEnds(rest, cY + r, cX + e.outline) && x <= e.outline <= e.span <= e.outline + 1)
    decreases a - x
  {
    hide Quad, NextFlat, Flat, FlatInvariant, RowEmpty, RowEnds, RowSpan;
    InFlatBox(a, b, x, y);
    QuadRow(cX, cY, x, y, r);
    if Flat(a * a, b * b, x, y) {
      FlatInvariantStep(a, b, x, y);
      FlatMeansHigh(a, b, x, y);
      NextFlatGoesRight(a * a, b * b, x, y);
      var (nx, ny) := NextFlat(a * a, b * b, x, y);
      InFlatBox(a, b, nx, ny);
      FlatOutlineRow(cX, cY, a, b, nx, ny, r);
      RowsJoin(Quad(cX, cY, x, y), OutlineFlat(cX, cY, a, b, x, y), cY + r, cX + x,
               cX + if r <= ny then EndFlat(a, b, nx, ny, r).outline else x);
    } else {
      SteepOutlineRow(cX, cY, a, b, x, y, r);
    }
  }

  lemma {:induction false} FlatSolidRow(cX: int, cY: int, a: int, b: int, x: int, y: int, r: int)
    requires 0 <= a && FlatInvariant(a, b, x, y) && 0 <= r && 0 <= y
    ensures var rest := SolidFlat(cX, cY, a, b, x, y);
            && (r > y ==> RowEmpty(rest, cY + r))
            && (r <= y ==> var w := EndFlat(a, b, x, y, r).span; RowSpan(rest, cY + r, cX - w, cX + w))
    decreases a - x
  {
    hide NextFlat, Flat, FlatInvariant, Bars, RowEmpty, RowEnds, RowSpan;
    InFlatBox(a, b, x, y);
    if Flat(a * a, b * b, x, y) {
      FlatInvariantStep(a, b, x, y);
      FlatMeansHigh(a, b, x, y);
      NextFlatGoesRight(a * a, b * b, x, y);
      var (nx, ny) := NextFlat(a * a, b * b, x, y);
      InFlatBox(a, b, nx, ny);
      FlatSolidRow(cX, cY, a, b, nx, ny, r);
      BarsRow(cX, cY, x, y, r);
      var w := if r <= ny then EndFlat(a, b, nx, ny, r).span else x;
      RowsJoin(Bars(cX, cY, x, y), SolidFlat(cX, cY, a, b, nx, ny), cY + r, cX - w, cX + w);
    } else {
      SteepSolidRow(cX, cY, a, b, x, y, r);
    }
  }

  /**
   Every row of the ellipse's height has outline pixels. Its solid row is one span, from the outermost of them on
   the left to just before the one on the right, or else one column longer at each end.
   */
  lemma SolidRowsEndAtOutline(cX: int, cY: int, a: int, b: int, y: int) returns (x: int, w: int)
    requires 0 <= a && 0 <= b && cY - b <= y <= cY + b
    ensures 0 <= x <= a && x <= w <= x + 1
    ensures At(Outline(cX, cY, a, b), cX + x, y) && At(Outline(cX, cY, a, b), cX - x, y)
    ensures forall u | u > cX + x || u < cX - x :: !At(Outline(cX, cY, a, b), u, y)
    ensures forall u :: At(Solid(cX, cY, a, b), u, y) <==> cX - w <= u < cX + w
  {
    hide Quad, OutlineFlat, SolidFlat, EndFlat, FlatInvariant, Outline, Solid;
    var r := if y < cY then cY - y else y - cY;
    FlatInvariantStart(a, b);
    FlatOutlineRow(cX, cY, a, b, 0, b, r);
    FlatSolidRow(cX, cY, a, b, 0, b, r);
    PicturesAreSymmetric(cX, cY, a, b);
    var e := EndFlat(a, b, 0, b, r);
    x, w := e.outline, e.span;
    EllipseInBox(cX, cY, a, b);
    WholePictures(cX, cY, a, b);
    MirrorRow(Outline(cX, cY, a, b), 2 * cX, 2 * cY, cY + r, y);
    MirrorRow(Solid(cX, cY, a, b), 2 * cX - 1, 2 * cY, cY + r, y);
    MirrorEnds(Outline(cX, cY, a, b), cX, cY, x, y);
    assert (cX + x, cY + r) in Box(cX, cY, a, b) by { assert At(Outline(cX, cY, a, b), cX + x, cY + r); }
  }

  lemma WholePictures(cX: int, cY: int, a: int, b: int)
    requires 0 <= a && 0 <= b
    ensures FlatInvariant(a, b, 0, b)
    ensures Outline(cX, cY, a, b) == Quad(cX, cY, 0, b) + OutlineFlat(cX, cY, a, b, 0, b)
    ensures Solid(cX, cY, a, b) == SolidFlat(cX, cY, a, b, 0, b)
  {
    hide Quad, OutlineFlat, SolidFlat, FlatInvariant;
    FlatInvariantStart(a, b);
  }

  lemma MirrorRow(p: Region, mx: int, my: int, r: int, y: int)
    requires Mirrored(p, mx, my) && (y == r || y == my - r)
    ensures forall x :: At(p, x, y) <==> At(p, x, r)
  {
    assert my - y == r || y == r;
  }

  lemma MirrorEnds(p: Region, cX: int, cY: int, x: int, y: int)
    requires Mirrored(p, 2 * cX, 2 * cY) && RowEnds(p, y, cX + x)
    ensures At(p, cX - x, y) && forall u | u < cX - x :: !At(p, u, y)
  {
    assert 2 * cX - (cX + x) == cX - x;
    forall u | u < cX - x ensures !At(p, u, y) {
      assert At(p, u, y) <==> At(p, 2 * cX - u, y);
    }
  }
}
