/**
 Where a quarter of the midpoint ellipse ends: region 1 hands over to region 2 at one pixel, and region
 2 reaches the horizontal axis at the half width or short of it.
 */
module EllipseEnds {
  import opened Common
  import opened EllipseMath

  /** The column in which region 2 reaches the horizontal axis. */
  function SteepEnd(aa: int, bb: int, x: int, y: int): int
    requires 0 <= y
    decreases y
  {
    if y == 0 then x else var (nx, ny) := NextSteep(aa, bb, x, y); SteepEnd(aa, bb, nx, ny)
  }

  /** The pixel at which region 1 hands over to region 2. */
  function HandOver(a: int, b: int, x: int, y: int): (int, int)
    requires 0 <= a && FlatInvariant(a, b, x, y)
    ensures var (hx, hy) := HandOver(a, b, x, y); FlatInvariant(a, b, hx, hy) && !Flat(a * a, b * b, hx, hy)
    decreases a - x
  {
    if Flat(a * a, b * b, x, y) then
      FlatInvariantStep(a, b, x, y);
      var (nx, ny) := NextFlat(a * a, b * b, x, y);
      HandOver(a, b, nx, ny)
    else (x, y)
  }

  /** The pixel before the hand-over was in region 1. */
  lemma {:induction false} HandOverFrom(a: int, b: int, x: int, y: int) returns (py: int)
    requires 0 <= a && FlatInvariant(a, b, x, y)
    ensures var (hx, hy) := HandOver(a, b, x, y);
            && x <= hx
            && (x < hx ==> FlatInvariant(a, b, hx - 1, py) && Flat(a * a, b * b, hx - 1, py))
    decreases a - x
  {
    hide FlatInvariant, Flat;
    py := y;
    if Flat(a * a, b * b, x, y) {
      FlatInvariantStep(a, b, x, y);
      var (nx, ny) := NextFlat(a * a, b * b, x, y);
      hide NextFlat;
      var from := HandOverFrom(a, b, nx, ny);
      if nx < HandOver(a, b, nx, ny).0 { py := from; }
    }
  }

  // ---- The end, given the hand-over ----

  /** A pixel right of the curve, measured horizontally from its right edge. */
  ghost predicate Reaches(aa: int, bb: int, x: int, y: int) {
    0 <= Implicit(aa, bb, 2 * x + 1, 2 * y)
  }

  lemma SteepStaysSteep(aa: int, bb: int, x: int, y: int)
    requires 0 <= aa && 0 <= bb && !Flat(aa, bb, x, y)
    ensures var (nx, ny) := NextSteep(aa, bb, x, y); !Flat(aa, bb, nx, ny)
  {
    hide Implicit;
    var bx, ay := bb * x, aa * y;
    assert 2 * aa * y == 2 * ay && 2 * aa * (y - 1) == 2 * ay - 2 * aa;
    assert 2 * bb * (x + 1) == 2 * bx + 2 * bb && 2 * bb * (x + 2) == 2 * bx + 4 * bb;
  }

  /** Once region 2 has reached the curve it keeps up with it. */
  lemma ReachesStays(aa: int, bb: int, x: int, y: int)
    requires 0 <= aa && 0 <= bb && 0 < y && !Flat(aa, bb, x, y) && Reaches(aa, bb, x, y)
    ensures var (nx, ny) := NextSteep(aa, bb, x, y); Reaches(aa, bb, nx, ny)
  {
    hide Implicit;
    ImplicitSouth(aa, bb, 2 * x + 1, 2 * y);
    ImplicitEast(aa, bb, 2 * x + 1, 2 * y - 2);
    var bx, ay := bb * x, aa * y;
    assert bb * (2 * x + 1) == 2 * bx + bb && aa * (2 * y) == 2 * ay && 2 * aa * y == 2 * ay;
    assert 2 * bb * (x + 1) == 2 * bx + 2 * bb;
  }

  /** On the axis, only the half width reaches the curve. */
  lemma ReachesAxis(a: int, b: int, x: int)
    requires 0 <= x <= a && 0 < b && Reaches(a * a, b * b, x, 0)
    ensures x == a
  {
    var aa, bb, w := a * a, b * b, (2 * x + 1) * (2 * x + 1);
    SquaresArePositive(a, b);
    assert Implicit(aa, bb, 2 * x + 1, 0) == bb * w - 4 * (aa * bb);
    assert bb * (4 * aa - 1) == 4 * (aa * bb) - bb;
    if x < a {
      SquareGap(x, a);
      MulKeepsOrder(bb, w, 4 * aa - 1);
    }
  }

  lemma SquareGap(x: int, a: int)
    requires 0 <= x < a
    ensures (2 * x + 1) * (2 * x + 1) <= 4 * (a * a) - 1
  {
    MulKeepsOrder(2 * x + 1, 2 * x + 1, 2 * a - 1);
    MulKeepsOrder(2 * a - 1, 2 * x + 1, 2 * a - 1);
    assert (2 * a - 1) * (2 * a - 1) == 4 * (a * a) - 4 * a + 1;
  }

  lemma {:induction false} ReachingEndsAtHalfWidth(a: int, b: int, x: int, y: int)
    requires 0 <= x <= a && 0 <= y <= b && 0 < b
    requires !Flat(a * a, b * b, x, y) && Reaches(a * a, b * b, x, y)
    ensures SteepEnd(a * a, b * b, x, y) == a
    decreases y
  {
    SquaresArePositive(a, b);
    hide Flat, Reaches;
    if y == 0 {
      ReachesAxis(a, b, x);
    } else {
      SteepStepInBox(a, b, x, y);
      SteepStaysSteep(a * a, b * b, x, y);
      ReachesStays(a * a, b * b, x, y);
      var (nx, ny) := NextSteep(a * a, b * b, x, y);
      hide NextSteep;
      ReachingEndsAtHalfWidth(a, b, nx, ny);
    }
  }

  /** Region 2 either closes at the half width or goes right on every row. */
  lemma {:induction false} ClosesOrRunsDiagonally(a: int, b: int, x: int, y: int)
    requires 0 <= x <= a && 0 <= y <= b && !Flat(a * a, b * b, x, y)
    ensures var e := SteepEnd(a * a, b * b, x, y); e <= a && e <= x + y && (e == a || e == x + y)
    decreases y
  {
    SquaresArePositive(a, b);
    if y > 0 {
      SteepStepInBox(a, b, x, y);
      SteepStaysSteep(a * a, b * b, x, y);
      var (nx, ny) := NextSteep(a * a, b * b, x, y);
      ClosesOrRunsDiagonally(a, b, nx, ny);
      if nx == x {
        assert Reaches(a * a, b * b, x, y - 1);
        ReachingEndsAtHalfWidth(a, b, x, y - 1);
      }
    }
  }

  /** The quarter ends at its half width exactly when the hand-over leaves rows enough to get there. */
  lemma {:induction false} ClosesExactly(a: int, b: int)
    requires 0 <= a && 0 <= b
    ensures FlatInvariant(a, b, 0, b)
    ensures var (hx, hy) := HandOver(a, b, 0, b); SteepEnd(a * a, b * b, hx, hy) == a <==> a - hx <= hy
  {
    FlatInvariantStart(a, b);
    var (hx, hy) := HandOver(a, b, 0, b);
    hide HandOver, Flat, SteepEnd;
    ClosesOrRunsDiagonally(a, b, hx, hy);
  }

  // ---- The same, from the half sizes alone ----

  /** Half sizes for which the quarter stops short: the curve is too flat at its end. */
  predicate StopsShort(a: int, b: int) {
    || (a > 0 && a >= 8 * (b * b))
    || (a >= 3 && 9 * (a * a) >= 16 * (b * b * (a - 1)) && a * a <= 2 * (b * b * (a - 1)))
  }

  /** What the hand-over pixel satisfies: not flat any more, and not yet below the curve. */
  lemma HandOverFacts(aa: int, bb: int, x: int, y: int)
    requires 0 <= Implicit(aa, bb, 2 * x, 2 * y + 1) && !Flat(aa, bb, x, y)
    ensures 2 * (aa * y) - aa <= 2 * (bb * x) + 2 * bb
    ensures 4 * (aa * bb) <= 4 * (bb * (x * x)) + aa * ((2 * y + 1) * (2 * y + 1))
  {
    FlatProducts(aa, bb, x, y);
    DoubledColumn(bb, x);
  }

  /** What the pixel before it satisfies: flat, and its lower edge inside. */
  lemma BeforeFacts(aa: int, bb: int, x: int, y: int)
    requires Implicit(aa, bb, 2 * x, 2 * y - 1) < 0 && Flat(aa, bb, x, y)
    ensures 2 * (aa * y) - aa > 2 * (bb * x) + 2 * bb
    ensures 4 * (bb * (x * x)) + aa * ((2 * y - 1) * (2 * y - 1)) < 4 * (aa * bb)
  {
    FlatProducts(aa, bb, x, y);
    DoubledColumn(bb, x);
  }

  lemma FlatProducts(aa: int, bb: int, x: int, y: int)
    ensures 2 * aa * y == 2 * (aa * y) && 2 * bb * (x + 1) == 2 * (bb * x) + 2 * bb
  {
  }

  lemma DoubledColumn(bb: int, x: int)
    ensures bb * ((2 * x) * (2 * x)) == 4 * (bb * (x * x))
  {
    assert (2 * x) * (2 * x) == 4 * (x * x);
  }

  /** `bb * x * x` for a pixel at most `a - d` columns out, against the same at exactly `a - d`. */
  lemma ColumnsShort(bb: int, a: int, x: int, d: int)
    requires 0 <= bb && 0 <= x <= a - d
    ensures bb * (x * x) <= bb * (a * a) - 2 * d * (bb * a) + d * d * bb
  {
    MulKeepsOrder(x, x, a - d);
    MulKeepsOrder(a - d, x, a - d);
    assert (a - d) * (a - d) == a * a - 2 * (d * a) + d * d;
    MulKeepsOrder(bb, x * x, (a - d) * (a - d));
    assert bb * (a * a - 2 * (d * a) + d * d) == bb * (a * a) - 2 * (bb * (d * a)) + bb * (d * d);
    assert bb * (d * a) == d * (bb * a) && bb * (d * d) == d * d * bb;
    assert 2 * d * (bb * a) == 2 * (d * (bb * a));
  }

  /** Handing over on the axis short of the half width makes the ellipse eight times too wide. */
  lemma ShortOnAxis(a: int, bb: int, x: int)
    requires 0 <= bb && 0 <= x <= a - 1
    requires 4 * (a * a * bb) <= 4 * (bb * (x * x)) + a * a
    ensures a >= 8 * bb
  {
    ColumnsShort(bb, a, x, 1);
    assert a * a * bb == bb * (a * a);
    assert (a - 1) * (8 * bb - 1 - a) == 8 * (bb * a) - a * a - 8 * bb + 1;
    if a <= 8 * bb - 1 {
      MulKeepsOrder(a - 1, 0, 8 * bb - 1 - a);
    }
  }

  /** Handing over one row above the axis and two columns short. */
  lemma ShortAboveAxis(a: int, b: int, x: int)
    requires 0 <= b && 0 <= x <= a - 2
    requires a * a <= 2 * (b * b * x) + 2 * (b * b)
    requires 4 * (a * a * (b * b)) <= 4 * (b * b * (x * x)) + 9 * (a * a)
    ensures StopsShort(a, b)
  {
    var aa, bb := a * a, b * b;
    assert 0 <= bb by { MulKeepsOrder(b, 0, b); }
    NotTwo(b);
    ColumnsShort(bb, a, x, 2);
    LowCurve(aa, bb, a, x);
    assert 9 * aa >= 16 * (bb * (a - 1)) && aa <= 2 * (bb * (a - 1));
    assert a == 2 ==> bb * (a - 1) == bb;
  }

  lemma NotTwo(b: int)
    requires 0 <= b
    ensures b * b != 2
  {
    if b <= 1 { MulKeepsOrder(b, b, 1); } else { MulKeepsOrder(2, 2, b); MulKeepsOrder(b, 2, b); }
  }

  lemma LowCurve(aa: int, bb: int, a: int, x: int)
    requires 0 <= bb && x <= a - 2 && aa <= 2 * (bb * x) + 2 * bb
    requires bb * (x * x) <= bb * (a * a) - 4 * (bb * a) + 4 * bb
    requires aa == a * a && 4 * (aa * bb) <= 4 * (bb * (x * x)) + 9 * aa
    ensures 9 * aa >= 16 * (bb * (a - 1)) && aa <= 2 * (bb * (a - 1))
  {
    MulKeepsOrder(bb, x, a - 2);
    assert aa * bb == bb * aa && bb * (a - 1) == bb * a - bb && bb * (a - 2) == bb * a - 2 * bb;
  }

  /** The hand-over's two conditions at `y` rows up and more than `y` columns short, multiplied out. */
  lemma HighCurve(a: int, bb: int, x: int, y: int)
    requires 0 <= bb && 0 <= y && 0 <= x <= a - 1 - y
    requires 4 * (a * a * bb) <= 4 * (bb * (x * x)) + a * a * ((2 * y + 1) * (2 * y + 1))
    ensures 4 * (bb * ((y + 1) * (2 * a - 1 - y))) <= a * a * ((2 * y + 1) * (2 * y + 1))
  {
    var d, t := y + 1, bb * a;
    ColumnsShort(bb, a, x, d);
    assert a * a * bb == bb * (a * a);
    assert bb * (d * (2 * a - d)) == 2 * d * t - d * d * bb by { WidthProduct(bb, a, d); }
    assert 2 * a - 1 - y == 2 * a - d;
  }

  lemma WidthProduct(bb: int, a: int, d: int)
    ensures bb * (d * (2 * a - d)) == 2 * d * (bb * a) - d * d * bb
  {
    assert d * (2 * a - d) == 2 * (d * a) - d * d;
    assert bb * (2 * (d * a) - d * d) == 2 * (bb * (d * a)) - bb * (d * d);
    assert bb * (d * a) == d * (bb * a) && bb * (d * d) == d * d * bb;
    assert 2 * d * (bb * a) == 2 * (d * (bb * a));
  }

  lemma HighSlope(aa: int, bb: int, a: int, x: int, y: int)
    requires 0 <= bb && x <= a - 1 - y && 2 * (aa * y) - aa <= 2 * (bb * x) + 2 * bb
    ensures aa * (2 * y - 1) <= 2 * (bb * (a - y))
  {
    MulKeepsOrder(bb, x + 1, a - y);
    assert bb * (x + 1) == bb * x + bb && aa * (2 * y - 1) == 2 * (aa * y) - aa;
  }

  /** Two rows or more above the axis, the hand-over always leaves rows enough. */
  lemma NeverShortHigher(a: int, bb: int, x: int, y: int)
    requires 0 <= bb && 2 <= y && 0 <= x <= a
    requires 2 * (a * a * y) - a * a <= 2 * (bb * x) + 2 * bb
    requires 4 * (a * a * bb) <= 4 * (bb * (x * x)) + a * a * ((2 * y + 1) * (2 * y + 1))
    ensures a - x <= y
  {
    var aa := a * a;
    if a - x > y {
      HighCurve(a, bb, x, y);
      HighSlope(aa, bb, a, x, y);
      PositiveHeight(a, bb, 2 * y - 1, a - y);
      MulKeepsOrder(2 * y + 1, 0, 2 * y + 1);
      Chained(aa, bb, (2 * y + 1) * (2 * y + 1), 2 * y - 1, a - y, (y + 1) * (2 * a - 1 - y));
      TooSteep(y, a - y, a);
    }
  }

  lemma PositiveHeight(a: int, bb: int, m: int, u: int)
    requires 0 <= bb && 1 <= a && 1 <= m && a * a * m <= 2 * (bb * u)
    ensures 0 < bb
  {
    MulKeepsOrder(a, 1, a);
    MulKeepsOrder(a * a, 1, m);
    assert bb == 0 ==> bb * u == 0;
  }

  lemma Chained(aa: int, bb: int, k: int, m: int, u: int, w: int)
    requires 0 < bb && 0 <= m && 0 <= k
    requires 4 * (bb * w) <= aa * k && aa * m <= 2 * (bb * u)
    ensures 2 * (w * m) <= u * k
  {
    MulKeepsOrder(m, 4 * (bb * w), aa * k);
    MulKeepsOrder(k, aa * m, 2 * (bb * u));
    assert m * (aa * k) == k * (aa * m);
    assert m * (4 * (bb * w)) == (2 * bb) * (2 * (w * m));
    assert k * (2 * (bb * u)) == (2 * bb) * (u * k);
    assert (2 * bb) * (u * k + 1) == (2 * bb) * (u * k) + 2 * bb;
    if 2 * (w * m) > u * k {
      MulKeepsOrder(2 * bb, u * k + 1, 2 * (w * m));
    }
  }

  lemma TooSteep(y: int, u: int, a: int)
    requires 2 <= y && 1 <= u && a == u + y
    ensures u * ((2 * y + 1) * (2 * y + 1)) < 2 * ((y + 1) * (2 * a - 1 - y) * (2 * y - 1))
  {
    var k, c, t := (2 * y + 1) * (2 * y + 1), (y + 1) * (2 * y - 1), 2 * a - 1 - y;
    assert k < 4 * c by {
      MulKeepsOrder(y, 2, y);
      assert k == 4 * (y * y) + 4 * y + 1 && c == 2 * (y * y) + y - 1;
    }
    assert c > 0 by { MulKeepsOrder(y + 1, 1, 2 * y - 1); }
    assert (y + 1) * t * (2 * y - 1) == c * t by { Regrouped(y + 1, t, 2 * y - 1); }
    SlopeBeats(k, c, t, u);
  }

  lemma Regrouped(p: int, q: int, r: int)
    ensures p * q * r == p * r * q
  {
  }

  lemma SlopeBeats(k: int, c: int, t: int, u: int)
    requires 0 < c && k < 4 * c && 2 * u + 1 <= t && 1 <= u
    ensures u * k < 2 * (c * t)
  {
    MulKeepsOrder(u, k, 4 * c);
    MulKeepsOrder(c, 2 * u + 1, t);
    assert u * (4 * c) == 4 * (c * u) && c * (2 * u + 1) == 2 * (c * u) + c;
  }

  /** A quarter that stops short has half sizes of one of the two kinds. */
  lemma ShortMeansFlat(a: int, b: int, hx: int, hy: int)
    requires 0 <= a && 0 <= b && FlatInvariant(a, b, hx, hy) && !Flat(a * a, b * b, hx, hy)
    requires a - hx > hy
    ensures StopsShort(a, b)
  {
    hide Implicit, StopsShort, Flat;
    HandOverFacts(a * a, b * b, hx, hy);
    SquaresArePositive(a, b);
    hide FlatInvariant;
    ShortEitherWay(a, b, hx, hy);
  }

  lemma ShortEitherWay(a: int, b: int, hx: int, hy: int)
    requires 0 <= b && 0 <= b * b && 0 <= hx <= a && 0 <= hy < a - hx
    requires 2 * (a * a * hy) - a * a <= 2 * (b * b * hx) + 2 * (b * b)
    requires 4 * (a * a * (b * b)) <= 4 * (b * b * (hx * hx)) + a * a * ((2 * hy + 1) * (2 * hy + 1))
    ensures StopsShort(a, b)
  {
    hide StopsShort;
    if hy == 0 {
      ShortOnAxis(a, b * b, hx);
      WideStopsShort(a, b);
    } else if hy == 1 {
      ShortAboveAxis(a, b, hx);
    } else {
      NeverShortHigher(a, b * b, hx, hy);
    }
  }

  lemma WideStopsShort(a: int, b: int)
    requires a > 0 && a >= 8 * (b * b)
    ensures StopsShort(a, b)
  {
  }

  /** Half sizes of either kind leave the hand-over too few rows. */
  lemma {:induction false} FlatMeansShort(a: int, b: int)
    requires 0 <= a && 0 <= b && StopsShort(a, b)
    ensures FlatInvariant(a, b, 0, b)
    ensures var (hx, hy) := HandOver(a, b, 0, b); a - hx > hy
  {
    FlatInvariantStart(a, b);
    var py := HandOverFrom(a, b, 0, b);
    var (hx, hy) := HandOver(a, b, 0, b);
    SquaresArePositive(a, b);
    HandOverFacts(a * a, b * b, hx, hy);
    if hx > 0 {
      FlatMeansHigh(a, b, hx - 1, py);
      BeforeFacts(a * a, b * b, hx - 1, py);
    }
    hide FlatInvariant, Flat, HandOver;
    if a - hx <= hy {
      if a >= 8 * (b * b) {
        WideIsShort(a, b * b, hx, hy, py);
      } else {
        LowIsShort(a, b * b, hx, hy, py);
      }
    }
  }

  lemma OddSquare(y: int, low: int)
    requires 1 <= low <= y
    ensures (2 * low - 1) * (2 * low - 1) <= (2 * y - 1) * (2 * y - 1)
  {
    MulKeepsOrder(2 * low - 1, 2 * low - 1, 2 * y - 1);
    MulKeepsOrder(2 * y - 1, 2 * low - 1, 2 * y - 1);
  }

  /** The hand-over and the pixel before it, at column `x` and `x - 1`. */
  ghost predicate HandOverAt(a: int, bb: int, x: int, y: int, py: int) {
    && 0 <= x <= a && 0 <= y && 0 <= bb
    && 2 * (a * a * y) - a * a <= 2 * (bb * x) + 2 * bb
    && (x > 0 ==>
          && 1 <= py
          && 2 * (a * a * py) - a * a > 2 * (bb * (x - 1)) + 2 * bb
          && 4 * (bb * ((x - 1) * (x - 1))) + a * a * ((2 * py - 1) * (2 * py - 1)) < 4 * (a * a * bb))
  }

  lemma WideIsShort(a: int, bb: int, x: int, y: int, py: int)
    requires HandOverAt(a, bb, x, y, py) && a > 0 && a >= 8 * bb
    ensures a - x > y
  {
    var aa, t := a * a, bb * a;
    assert aa >= 8 * t && aa > 0 by { MulKeepsOrder(a, 8 * bb, a); MulKeepsOrder(a, 1, a); }
    assert t >= 0 by { MulKeepsOrder(bb, 0, a); }
    if x == a {
      OddSquare(py, 1);
      MulKeepsOrder(aa, 1, (2 * py - 1) * (2 * py - 1));
      LessColumn(bb, a, 1);
    } else if y >= 1 {
      MulKeepsOrder(aa, 1, y);
      NextColumn(bb, x, a);
    }
  }

  lemma LessColumn(bb: int, a: int, d: int)
    ensures bb * ((a - d) * (a - d)) == bb * (a * a) - 2 * (d * (bb * a)) + d * d * bb
    ensures bb * (a * a) == a * a * bb
  {
    assert (a - d) * (a - d) == a * a - 2 * (d * a) + d * d;
    assert bb * (a * a - 2 * (d * a) + d * d) == bb * (a * a) - 2 * (bb * (d * a)) + bb * (d * d);
    assert bb * (d * a) == d * (bb * a) && bb * (d * d) == d * d * bb;
  }

  lemma NextColumn(bb: int, x: int, c: int)
    requires 0 <= bb && x < c
    ensures bb * x + bb <= bb * c
  {
    MulKeepsOrder(bb, x + 1, c);
    assert bb * (x + 1) == bb * x + bb;
  }

  lemma LowIsShort(a: int, bb: int, x: int, y: int, py: int)
    requires HandOverAt(a, bb, x, y, py)
    requires a >= 3 && 9 * (a * a) >= 16 * (bb * (a - 1)) && a * a <= 2 * (bb * (a - 1))
    ensures a - x > y
  {
    var aa, t := a * a, bb * a;
    assert bb * (a - 1) == t - bb;
    assert t >= 3 * bb by { MulKeepsOrder(bb, 3, a); }
    assert aa > 0 by { MulKeepsOrder(a, 1, a); }
    if x >= a - 1 {
      LowBefore(a, bb, x, py);
      OddSquare(py, 2);
      MulKeepsOrder(aa, 9, (2 * py - 1) * (2 * py - 1));
      LessColumn(bb, a, if x == a then 1 else 2);
    } else if y >= 2 {
      MulKeepsOrder(aa, 2, y);
      NextColumn(bb, x, a - 1);
    }
  }

  /** The last flat pixel of a low ellipse is two rows up or more. */
  lemma LowBefore(a: int, bb: int, x: int, py: int)
    requires 0 <= bb && a - 1 <= x && 1 <= py
    requires a * a <= 2 * (bb * (a - 1)) && 2 * (a * a * py) - a * a > 2 * (bb * (x - 1)) + 2 * bb
    ensures py >= 2
  {
    MulKeepsOrder(bb, a - 2, x - 1);
    assert bb * (a - 1) == bb * (a - 2) + bb;
    assert py == 1 ==> a * a * py == a * a;
  }

  /** The quarter stops short of its half width exactly for half sizes of these two kinds. */
  lemma {:induction false} StopsShortExactly(a: int, b: int)
    requires 0 <= a && 0 <= b
    ensures FlatInvariant(a, b, 0, b)
    ensures var (hx, hy) := HandOver(a, b, 0, b);
            SteepEnd(a * a, b * b, hx, hy) != a <==> StopsShort(a, b)
  {
    ClosesExactly(a, b);
    var (hx, hy) := HandOver(a, b, 0, b);
    if StopsShort(a, b) {
      FlatMeansShort(a, b);
    }
    if a - hx > hy {
      ShortMeansFlat(a, b, hx, hy);
    }
  }
}
