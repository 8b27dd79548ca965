/**
 The midpoint ellipse walk, without the buffer. `aa` and `bb` are the squared half width and half
 height. A quarter of the ellipse is walked from the top, one column a step while the curve is flat
 (region 1) and then one row a step (region 2).
 */
module EllipseMath {
  import opened Common

  /** Four times b^2 x^2 + a^2 y^2 - a^2 b^2 at (x2/2, y2/2): negative exactly inside the ellipse. */
  function Implicit(aa: int, bb: int, x2: int, y2: int): int {
    bb * (x2 * x2) + aa * (y2 * y2) - 4 * (aa * bb)
  }

  /** The region 1 loop guard. */
  predicate Flat(aa: int, bb: int, x: int, y: int) {
    2 * aa * y - aa > 2 * bb * (x + 1)
  }

  // ---- The reference walk: where to go next, decided by the exact midpoint value ----

  function NextFlat(aa: int, bb: int, x: int, y: int): (int, int) {
    if Implicit(aa, bb, 2 * x + 2, 2 * y - 1) < 0 then (x + 1, y) else (x + 1, y - 1)
  }

  function NextSteep(aa: int, bb: int, x: int, y: int): (int, int) {
    if Implicit(aa, bb, 2 * x + 1, 2 * y - 2) < 0 then (x + 1, y - 1) else (x, y - 1)
  }

  // ---- The code's walk: the same choices from incrementally kept differences ----

  /** Region 1 state: the decision variable and its east and south-east increments. */
  datatype FlatWalk = FlatWalk(x: int, y: int, d1: int, deltaE: int, deltaSE: int) {

    ghost predicate Exact(aa: int, bb: int) {
      && d1 == Implicit(aa, bb, 2 * x + 2, 2 * y - 1)
      && deltaE == 8 * (bb * x) + 12 * bb
      && deltaSE == deltaE - 8 * (aa * y) + 8 * aa
    }

    function Step(aa: int, bb: int): FlatWalk {
      if d1 < 0 then
        FlatWalk(x + 1, y, d1 + deltaE, deltaE + 8 * bb, deltaSE + 8 * bb)
      else
        FlatWalk(x + 1, y - 1, d1 + deltaSE, deltaE + 8 * bb, deltaSE + (8 * aa + 8 * bb))
    }
  }

  function StartFlat(a: int, b: int): FlatWalk {
    var aa, bb := a * a, b * b;
    var deltaE := 12 * bb;
    FlatWalk(0, b, 4 * bb - 4 * aa * b + aa, deltaE, deltaE - 8 * aa * b + 8 * aa)
  }

  /** Region 2 state: the decision variable and its south and south-east increments. */
  datatype SteepWalk = SteepWalk(x: int, y: int, d2: int, deltaS: int, deltaSE: int) {

    ghost predicate Exact(aa: int, bb: int) {
      && d2 == Implicit(aa, bb, 2 * x + 1, 2 * y - 2)
      && deltaS == -8 * (aa * y) + 12 * aa
      && deltaSE == deltaS + 8 * (bb * x) + 8 * bb
    }

    function Step(aa: int, bb: int): SteepWalk {
      if d2 < 0 then
        SteepWalk(x + 1, y - 1, d2 + deltaSE, deltaS + 8 * aa, deltaSE + (8 * aa + 8 * bb))
      else
        SteepWalk(x, y - 1, d2 + deltaS, deltaS + 8 * aa, deltaSE + 8 * aa)
    }
  }

  function StartSteep(aa: int, bb: int, x: int, y: int): SteepWalk {
    var deltaS := 4 * aa * (-2 * y + 3);
    SteepWalk(x, y,
              (4 * bb * (x * x + x) + bb) + (4 * aa * (y - 1) * (y - 1)) - (4 * aa * bb),
              deltaS, 4 * bb * (2 * x + 2) + deltaS)
  }

  /** Moving the midpoint a whole pixel east, or south. */
  lemma ImplicitEast(aa: int, bb: int, x2: int, y2: int)
    ensures Implicit(aa, bb, x2 + 2, y2) == Implicit(aa, bb, x2, y2) + 4 * (bb * x2) + 4 * bb
  {
    assert (x2 + 2) * (x2 + 2) == x2 * x2 + 4 * x2 + 4;
    assert bb * (x2 * x2 + 4 * x2 + 4) == bb * (x2 * x2) + 4 * (bb * x2) + 4 * bb;
  }

  lemma ImplicitSouth(aa: int, bb: int, x2: int, y2: int)
    ensures Implicit(aa, bb, x2, y2 - 2) == Implicit(aa, bb, x2, y2) - 4 * (aa * y2) + 4 * aa
  {
    assert (y2 - 2) * (y2 - 2) == y2 * y2 - 4 * y2 + 4;
    assert aa * (y2 * y2 - 4 * y2 + 4) == aa * (y2 * y2) - 4 * (aa * y2) + 4 * aa;
  }

  /** The initial region 1 values are the exact ones. */
  lemma StartFlatExact(a: int, b: int)
    ensures StartFlat(a, b).Exact(a * a, b * b)
  {
    StartValue(a * a, b * b, b);
    hide Implicit;
  }

  lemma StartValue(aa: int, bb: int, b: int)
    requires bb == b * b
    ensures Implicit(aa, bb, 2, 2 * b - 1) == 4 * bb - 4 * aa * b + aa
    ensures 8 * (bb * 0) + 12 * bb == 12 * bb && 8 * aa * b == 8 * (aa * b)
  {
    assert (2 * b - 1) * (2 * b - 1) == 4 * bb - 4 * b + 1;
    assert aa * (4 * bb - 4 * b + 1) == 4 * (aa * bb) - 4 * (aa * b) + aa;
    assert 4 * aa * b == 4 * (aa * b);
  }

  /** Every region 1 step keeps the values exact and goes where the exact midpoint says. */
  lemma FlatStepExact(aa: int, bb: int, w: FlatWalk)
    requires w.Exact(aa, bb)
    ensures var n := w.Step(aa, bb);
            && n.Exact(aa, bb) && (n.x, n.y) == NextFlat(aa, bb, w.x, w.y)
            && n.x == w.x + 1 && n.y == if w.d1 < 0 then w.y else w.y - 1
  {
    hide Implicit;
    ImplicitEast(aa, bb, 2 * w.x + 2, 2 * w.y - 1);
    ImplicitSouth(aa, bb, 2 * w.x + 4, 2 * w.y - 1);
    assert bb * (2 * w.x + 2) == 2 * (bb * w.x) + 2 * bb;
    assert aa * (2 * w.y - 1) == 2 * (aa * w.y) - aa;
    assert bb * (w.x + 1) == bb * w.x + bb;
    assert aa * (w.y - 1) == aa * w.y - aa;
  }

  /** The values region 2 starts from are exact at whatever pixel region 1 stopped. */
  lemma StartSteepExact(aa: int, bb: int, x: int, y: int)
    ensures StartSteep(aa, bb, x, y).Exact(aa, bb)
  {
    var xx, yy := x * x, (y - 1) * (y - 1);
    assert (2 * x + 1) * (2 * x + 1) == 4 * xx + 4 * x + 1;
    assert (2 * y - 2) * (2 * y - 2) == 4 * yy;
    assert bb * (4 * xx + 4 * x + 1) == 4 * (bb * xx) + 4 * (bb * x) + bb;
    assert aa * (4 * yy) == 4 * (aa * yy);
    assert 4 * bb * (xx + x) == 4 * (bb * xx) + 4 * (bb * x);
    assert 4 * aa * (y - 1) * (y - 1) == 4 * (aa * yy);
    assert 4 * aa * (-2 * y + 3) == -8 * (aa * y) + 12 * aa;
    assert 4 * bb * (2 * x + 2) == 8 * (bb * x) + 8 * bb;
  }

  lemma SteepStepExact(aa: int, bb: int, w: SteepWalk)
    requires w.Exact(aa, bb)
    ensures var n := w.Step(aa, bb);
            n.Exact(aa, bb) && (n.x, n.y) == NextSteep(aa, bb, w.x, w.y) && n.y == w.y - 1
  {
    hide Implicit;
    ImplicitEast(aa, bb, 2 * w.x + 1, 2 * w.y - 4);
    ImplicitSouth(aa, bb, 2 * w.x + 1, 2 * w.y - 2);
    assert bb * (2 * w.x + 1) == 2 * (bb * w.x) + bb;
    assert aa * (2 * w.y - 2) == 2 * (aa * w.y) - 2 * aa;
    assert bb * (w.x + 1) == bb * w.x + bb;
    assert aa * (w.y - 1) == aa * w.y - aa;
  }

  // ---- Where the walk can go ----

  /** `(x, y)` is within half a pixel of the curve, measured vertically. */
  ghost predicate Brackets(aa: int, bb: int, x: int, y: int) {
    Implicit(aa, bb, 2 * x, 2 * y - 1) < 0 <= Implicit(aa, bb, 2 * x, 2 * y + 1)
  }

  /** What region 1 keeps: inside the box, and close to the curve for as long as the guard holds. */
  ghost predicate FlatInvariant(a: int, b: int, x: int, y: int) {
    && 0 <= x <= a && 0 <= y <= b
    && 0 <= Implicit(a * a, b * b, 2 * x, 2 * y + 1)
    && (Flat(a * a, b * b, x, y) ==> Implicit(a * a, b * b, 2 * x, 2 * y - 1) < 0)
  }

  lemma SquareOrder(p: int, q: int)
    requires 0 <= p && 0 <= q && p * p < q * q
    ensures p < q
  {
    if p >= q {
      MulKeepsOrder(p, q, p);
      MulKeepsOrder(q, q, p);
    }
  }

  /** A point inside the ellipse is within its half width. */
  lemma InsideIsNarrow(a: int, b: int, x2: int, y2: int)
    requires 0 <= a && 0 < b && 0 <= x2 && Implicit(a * a, b * b, x2, y2) < 0
    ensures x2 < 2 * a
  {
    var aa, bb := a * a, b * b;
    assert bb > 0 by { MulKeepsOrder(b, 1, b); }
    assert aa * (y2 * y2) >= 0;
    assert bb * (x2 * x2) < bb * (4 * aa) by { assert 4 * (aa * bb) == bb * (4 * aa); }
    if x2 * x2 >= 4 * aa { MulKeepsOrder(bb, 4 * aa, x2 * x2); }
    assert (2 * a) * (2 * a) == 4 * aa;
    SquareOrder(x2, 2 * a);
  }

  lemma FlatMeansHigh(a: int, b: int, x: int, y: int)
    requires 0 <= x && Flat(a * a, b * b, x, y)
    ensures 0 < a * a && 1 <= y
  {
    var aa, bb := a * a, b * b;
    MulKeepsOrder(bb, 0, x + 1);
    assert 2 * bb * (x + 1) == 2 * (bb * (x + 1));
    assert 2 * aa * y == 2 * (aa * y);
    if y <= 0 { MulKeepsOrder(aa, y, 0); }
  }

  /** The first pixel is the top of the ellipse. */
  lemma FlatInvariantStart(a: int, b: int)
    requires 0 <= a && 0 <= b
    ensures FlatInvariant(a, b, 0, b)
  {
    var aa, bb := a * a, b * b;
    var aab := aa * b;
    assert aab >= 0 by { MulKeepsOrder(aa, 0, b); }
    assert (2 * b + 1) * (2 * b + 1) == 4 * bb + 4 * b + 1;
    assert aa * (4 * bb + 4 * b + 1) == 4 * (aa * bb) + 4 * aab + aa;
    assert (2 * b - 1) * (2 * b - 1) == 4 * bb - 4 * b + 1;
    assert aa * (4 * bb - 4 * b + 1) == 4 * (aa * bb) - 4 * aab + aa;
    if Flat(aa, bb, 0, b) {
      FlatMeansHigh(a, b, 0, b);
      MulKeepsOrder(aa, 1, b);
    }
  }

  /** The vertical bracket survives a region 1 step that leaves the guard true; its upper half always. */
  lemma FlatStaysOnCurve(aa: int, bb: int, x: int, y: int)
    requires 0 <= aa && 0 <= bb && 0 <= x && Flat(aa, bb, x, y) && Brackets(aa, bb, x, y)
    ensures var (nx, ny) := NextFlat(aa, bb, x, y);
            && 0 <= Implicit(aa, bb, 2 * nx, 2 * ny + 1)
            && (Flat(aa, bb, nx, ny) ==> Implicit(aa, bb, 2 * nx, 2 * ny - 1) < 0)
  {
    hide Implicit;
    ImplicitEast(aa, bb, 2 * x, 2 * y + 1);
    ImplicitEast(aa, bb, 2 * x, 2 * y - 1);
    ImplicitSouth(aa, bb, 2 * x + 2, 2 * y - 1);
    var bx, ay := bb * x, aa * y;
    assert bx >= 0 by { MulKeepsOrder(bb, 0, x); }
    assert bb * (2 * x) == 2 * bx;
    assert aa * (2 * y - 1) == 2 * ay - aa;
    assert 2 * aa * (y - 1) == 2 * ay - 2 * aa;
    assert 2 * bb * (x + 2) == 2 * bx + 4 * bb;
  }

  /** Region 1 stays in the box, and on the curve while it lasts. */
  lemma FlatInvariantStep(a: int, b: int, x: int, y: int)
    requires 0 <= a && FlatInvariant(a, b, x, y) && Flat(a * a, b * b, x, y)
    ensures var (nx, ny) := NextFlat(a * a, b * b, x, y); FlatInvariant(a, b, nx, ny) && nx == x + 1
    ensures Brackets(a * a, b * b, x, y)
  {
    FlatMeansHigh(a, b, x, y);
    InsideIsNarrow(a, b, 2 * x, 2 * y - 1);
    SquaresArePositive(a, b);
    FlatStaysOnCurve(a * a, b * b, x, y);
  }

  lemma SquaresArePositive(a: int, b: int)
    requires 0 <= a && 0 <= b
    ensures 0 <= a * a && 0 <= b * b && (0 < b ==> 0 < b * b)
  {
  }

  /** Region 2 stays in the box whatever pixel it starts from. */
  lemma SteepStepInBox(a: int, b: int, x: int, y: int)
    requires 0 <= x <= a && 0 < y <= b
    ensures var (nx, ny) := NextSteep(a * a, b * b, x, y); 0 <= nx <= a && ny == y - 1
  {
    if Implicit(a * a, b * b, 2 * x + 1, 2 * y - 2) < 0 {
      InsideIsNarrow(a, b, 2 * x + 1, 2 * y - 2);
    }
  }

  /** In region 2, within half a pixel of the curve measured horizontally. */
  ghost predicate SteepBrackets(aa: int, bb: int, x: int, y: int) {
    Implicit(aa, bb, 2 * x - 1, 2 * y) < 0 <= Implicit(aa, bb, 2 * x + 1, 2 * y)
  }

  /** Once region 2 is on the curve it stays on it. */
  lemma SteepStaysOnCurve(aa: int, bb: int, x: int, y: int)
    requires 0 <= aa && 0 <= bb && 0 <= x && 0 < y
    requires !Flat(aa, bb, x, y) && SteepBrackets(aa, bb, x, y)
    ensures var (nx, ny) := NextSteep(aa, bb, x, y);
            !Flat(aa, bb, nx, ny) && SteepBrackets(aa, bb, nx, ny)
  {
    hide Implicit;
    ImplicitSouth(aa, bb, 2 * x + 1, 2 * y);
    ImplicitSouth(aa, bb, 2 * x - 1, 2 * y);
    ImplicitEast(aa, bb, 2 * x + 1, 2 * y - 2);
    var bx, ay := bb * x, aa * y;
    assert bx >= 0 by { MulKeepsOrder(bb, 0, x); }
    assert ay >= aa by { MulKeepsOrder(aa, 1, y); }
    assert bb * (2 * x + 1) == 2 * bx + bb;
    assert aa * (2 * y) == 2 * ay;
    assert 2 * aa * y == 2 * ay;
    assert 2 * aa * (y - 1) == 2 * ay - 2 * aa;
    assert 2 * bb * (x + 1) == 2 * bx + 2 * bb;
    assert 2 * bb * (x + 2) == 2 * bx + 4 * bb;
  }
}
