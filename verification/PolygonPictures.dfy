/**
 The picture of a solid polygon, by the points the caller gives: the columns at which the polygon's sides
 cross each row, and the even-odd rule over them. The scan's edges and entries come to the same picture.
 */
module PolygonPictures {
  import opened Common
  import opened PolygonMath

  /** How far column `x` is from the side `p`-`q` in row `y`, times the rows between `p` and `q`. */
  function Off(p: Point, q: Point, x: int, y: int): int {
    (x - p.0) * (q.1 - p.1) - (q.0 - p.0) * (y - p.1)
  }

  /**
   The side crosses row `y` in column `x`: the row is between its ends, the lower one left out, and the column
   is the last whole one on the way from the upper end to where the side meets the row.
   */
  ghost predicate CrossesAt(p: Point, q: Point, x: int, y: int) {
    && (p.1 <= y < q.1 || q.1 <= y < p.1)
    && Abs(Off(p, q, x, y)) < Abs(q.1 - p.1)
    && Off(p, q, x, y) * (q.0 - p.0) <= 0
  }

  ghost predicate CrossesLeft(p: Point, q: Point, x: int, y: int) {
    exists c :: c < x && CrossesAt(p, q, c, y)
  }

  /** How many of the sides that end at the first `n` points cross row `y` left of column `x`. */
  ghost function CountLeft(points: seq<Point>, n: nat, x: int, y: int): nat
    requires n <= |points|
  {
    if n == 0 then 0
    else CountLeft(points, n - 1, x, y) + if CrossesLeft(Previous(points, n - 1), points[n - 1], x, y) then 1 else 0
  }

  /** The even-odd rule: a pixel on a crossing, or with an odd number of crossings to its left. */
  ghost predicate Inside(points: seq<Point>, x: int, y: int) {
    || (exists i: nat :: i < |points| && CrossesAt(Previous(points, i), points[i], x, y))
    || CountLeft(points, |points|, x, y) % 2 == 1
  }

  // ---- One side ----

  lemma OffBackwards(p: Point, q: Point, x: int, y: int)
    ensures Off(q, p, x, y) == -Off(p, q, x, y)
  {
    var dx, dy := q.0 - p.0, q.1 - p.1;
    assert (x - q.0) * (p.1 - q.1) == -((x - p.0) * dy) + dx * dy;
    assert (p.0 - q.0) * (y - q.1) == -(dx * (y - p.1)) + dx * dy;
  }

  /** A side crosses a row in the same column from whichever end it is named. */
  lemma CrossesBackwards(p: Point, q: Point, x: int, y: int)
    ensures CrossesAt(p, q, x, y) <==> CrossesAt(q, p, x, y)
  {
    var off, dx := Off(p, q, x, y), q.0 - p.0;
    OffBackwards(p, q, x, y);
    assert Off(q, p, x, y) * (p.0 - q.0) == off * dx;
  }

  lemma OffStep(p: Point, q: Point, x: int, c: int, y: int)
    ensures Off(p, q, x, y) - Off(p, q, c, y) == (x - c) * (q.1 - p.1)
  {
  }

  /** It crosses it in one column. */
  lemma CrossesOnce(p: Point, q: Point, x: int, c: int, y: int)
    requires CrossesAt(p, q, x, y) && CrossesAt(p, q, c, y)
    ensures x == c
  {
    if p.1 > q.1 {
      CrossesBackwards(p, q, x, y);
      CrossesBackwards(p, q, c, y);
      CrossesOnceDown(q, p, x, c, y);
    } else {
      CrossesOnceDown(p, q, x, c, y);
    }
  }

  lemma CrossesOnceDown(p: Point, q: Point, x: int, c: int, y: int)
    requires p.1 < q.1 && CrossesAt(p, q, x, y) && CrossesAt(p, q, c, y)
    ensures x == c
  {
    var den, dx := q.1 - p.1, q.0 - p.0;
    var e, f := Off(p, q, x, y), Off(p, q, c, y);
    OffStep(p, q, x, c, y);
    assert e - f == (x - c) * den;
    if dx == 0 {
      assert e == (x - p.0) * den && f == (c - p.0) * den;
      OnlyNought(x - p.0, den);
      OnlyNought(c - p.0, den);
    } else {
      SignOf(e, dx);
      SignOf(f, dx);
      OnlyNought(x - c, den);
    }
  }

  lemma OnlyNought(k: int, den: int)
    requires 0 < den && -den < k * den < den
    ensures k == 0
  {
    if k > 0 { MulKeepsOrder(den, 1, k); }
    if k < 0 { MulKeepsOrder(den, k, -1); }
  }

  lemma SignOf(e: int, dx: int)
    requires e * dx <= 0 && dx != 0
    ensures dx > 0 ==> e <= 0
    ensures dx < 0 ==> e >= 0
  {
    if dx > 0 && e > 0 { MulKeepsOrder(dx, 1, e); }
    if dx < 0 && e < 0 { MulKeepsOrder(-dx, 1, -e); }
  }

  /** In the row of its upper end a side crosses in that end's own column. */
  lemma CrossesAtUpperEnd(p: Point, q: Point, x: int)
    requires p.1 < q.1
    ensures CrossesAt(p, q, x, p.1) <==> x == p.0
    ensures CrossesAt(q, p, x, p.1) <==> x == p.0
  {
    CrossesBackwards(p, q, x, p.1);
    var den := q.1 - p.1;
    assert (q.0 - p.0) * (p.1 - p.1) == 0;
    assert (x - p.0) * den - 0 == (x - p.0) * den;
    if CrossesAt(p, q, x, p.1) { OnlyNought(x - p.0, den); }
  }

  /** The entry put into the scan for a side is at the column where the side crosses the row. */
  lemma EntryCrosses(p: Point, q: Point, y: int)
    requires p.1 <= y < q.1 || q.1 <= y < p.1
    ensures CrossesAt(p, q, EntryAt(MakeEdge(p, q), y).x, y)
  {
    var x := EntryAt(MakeEdge(p, q), y).x;
    if p.1 > q.1 {
      EntryCrossesDown(q, p, y);
      CrossesBackwards(p, q, x, y);
    } else {
      EntryCrossesDown(p, q, y);
    }
  }

  lemma EntryOff(p: Point, q: Point, y: int)
    requires p.1 <= y < q.1
    ensures var num, den := q.0 - p.0, q.1 - p.1;
            var r := (y - p.1) * Abs(num) % den;
            0 <= r < den && Off(p, q, EntryAt(Edge(p.0, p.1, q.0, q.1), y).x, y) == if num < 0 then r else -r
  {
    var num, den := q.0 - p.0, q.1 - p.1;
    var run := (y - p.1) * Abs(num);
    var t, r := run / den, run % den;
    assert run == den * t + r;
    if num < 0 {
      assert (p.0 - t - p.0) * den == -(den * t) && num * (y - p.1) == -run;
    } else {
      assert (p.0 + t - p.0) * den == den * t && num * (y - p.1) == run;
    }
  }

  lemma EntryCrossesDown(p: Point, q: Point, y: int)
    requires p.1 <= y < q.1
    ensures CrossesAt(p, q, EntryAt(Edge(p.0, p.1, q.0, q.1), y).x, y)
  {
    var num, den := q.0 - p.0, q.1 - p.1;
    var r := (y - p.1) * Abs(num) % den;
    EntryOff(p, q, y);
    hide EntryAt, Off;
    if num < 0 {
      MulKeepsOrder(r, num, 0);
    } else {
      MulKeepsOrder(num, -r, 0);
    }
  }

  /** An entry is within one column of the side, and in the row of the upper end exactly at that end. */
  lemma EntryIsNearSide(p: Point, q: Point, y: int)
    requires p.1 <= y < q.1 || q.1 <= y < p.1
    ensures var x := EntryAt(MakeEdge(p, q), y).x;
            && Abs((x - p.0) * (q.1 - p.1) - (q.0 - p.0) * (y - p.1)) < Abs(q.1 - p.1)
            && (y == p.1 < q.1 ==> x == p.0) && (y == q.1 < p.1 ==> x == q.0)
  {
    EntryCrosses(p, q, y);
    if y == p.1 { CrossesAtUpperEnd(p, q, EntryAt(MakeEdge(p, q), y).x); }
    if y == q.1 { CrossesAtUpperEnd(q, p, EntryAt(MakeEdge(p, q), y).x); }
  }

  // ---- The whole polygon ----

  lemma OneSideLeft(p: Point, q: Point, x: int, y: int)
    requires p.1 != q.1
    ensures var e := MakeEdge(p, q);
            CrossesLeft(p, q, x, y) <==> e.y0 <= y < e.y1 && EntryAt(e, y).x < x
  {
    hide EntryAt;
    var e := MakeEdge(p, q);
    if e.y0 <= y < e.y1 {
      EntryCrosses(p, q, y);
      if CrossesLeft(p, q, x, y) {
        var c :| c < x && CrossesAt(p, q, c, y);
        CrossesOnce(p, q, c, EntryAt(e, y).x, y);
      }
    }
  }

  lemma {:induction false} CountsAgree(points: seq<Point>, n: nat, x: int, y: int)
    requires n <= |points|
    ensures CountLess(Crossing(Edges(points, n), y), x) == CountLeft(points, n, x, y)
  {
    hide EntryAt, CrossesAt, CrossesLeft;
    if n > 0 {
      CountsAgree(points, n - 1, x, y);
      var p, q := Previous(points, n - 1), points[n - 1];
      var before, after := Edges(points, n - 1), Edges(points, n);
      if p.1 == q.1 {
        LevelCrossesNothing(p, q, x, y);
        assert after == before;
      } else {
        var e := MakeEdge(p, q);
        OneSideLeft(p, q, x, y);
        assert after[..|after| - 1] == before;
        if e.y0 <= y < e.y1 {
          CountLessAppend(Crossing(before, y), [EntryAt(e, y)], x);
          assert [EntryAt(e, y)][1..] == [];
        }
      }
    }
  }

  lemma LevelCrossesNothing(p: Point, q: Point, x: int, y: int)
    requires p.1 == q.1
    ensures !CrossesLeft(p, q, x, y) && !CrossesAt(p, q, x, y)
  {
  }

  lemma LeftOrAt(p: Point, q: Point, x: int, y: int)
    ensures CrossesLeft(p, q, x + 1, y) <==> CrossesLeft(p, q, x, y) || CrossesAt(p, q, x, y)
    ensures !(CrossesLeft(p, q, x, y) && CrossesAt(p, q, x, y))
  {
    hide CrossesAt;
    if CrossesLeft(p, q, x + 1, y) && !CrossesAt(p, q, x, y) {
      var c :| c < x + 1 && CrossesAt(p, q, c, y);
      assert c != x;
    }
    if CrossesLeft(p, q, x, y) && CrossesAt(p, q, x, y) {
      var c :| c < x && CrossesAt(p, q, c, y);
      CrossesOnce(p, q, c, x, y);
    }
  }

  lemma {:induction false} CountGrows(points: seq<Point>, n: nat, x: int, y: int)
    requires n <= |points|
    ensures CountLeft(points, n, x + 1, y) >= CountLeft(points, n, x, y)
    ensures CountLeft(points, n, x + 1, y) > CountLeft(points, n, x, y)
            <==> exists i: nat :: i < n && CrossesAt(Previous(points, i), points[i], x, y)
  {
    hide CrossesAt, CrossesLeft;
    if n > 0 {
      CountGrows(points, n - 1, x, y);
      LeftOrAt(Previous(points, n - 1), points[n - 1], x, y);
    }
  }

  /** The scan fills exactly the inside of the polygon. */
  lemma {:induction false} ScanIsInside(points: seq<Point>, x: int, y: int)
    ensures Scanned(points, x, y) <==> Inside(points, x, y)
  {
    hide CrossesAt, Crossing, Edges, CountLess, CountLeft;
    CountsAgree(points, |points|, x, y);
    CountsAgree(points, |points|, x + 1, y);
    CountGrows(points, |points|, x, y);
  }

  // ---- Two pictures ----

  lemma UprightSide(p: Point, q: Point, x: int, y: int)
    requires p.0 == q.0
    ensures CrossesAt(p, q, x, y) <==> x == p.0 && (p.1 <= y < q.1 || q.1 <= y < p.1)
    ensures CrossesLeft(p, q, x, y) <==> p.0 < x && (p.1 <= y < q.1 || q.1 <= y < p.1)
  {
    hide CrossesAt;
    forall c ensures CrossesAt(p, q, c, y) <==> c == p.0 && (p.1 <= y < q.1 || q.1 <= y < p.1) {
      UprightColumn(p, q, c, y);
    }
    if p.0 < x && (p.1 <= y < q.1 || q.1 <= y < p.1) { assert CrossesAt(p, q, p.0, y); }
  }

  lemma UprightColumn(p: Point, q: Point, c: int, y: int)
    requires p.0 == q.0
    ensures CrossesAt(p, q, c, y) <==> c == p.0 && (p.1 <= y < q.1 || q.1 <= y < p.1)
  {
    var k, den := c - p.0, q.1 - p.1;
    assert Off(p, q, c, y) == k * den && Off(p, q, c, y) * 0 == 0;
    if 0 < den && -den < k * den < den { OnlyNought(k, den); }
    if den < 0 && den < k * den < -den {
      assert k * -den == -(k * den);
      OnlyNought(k, -den);
    }
  }

  /** An upright rectangle is filled up to and including its right column, and up to its bottom row. */
  lemma {:induction false} RectangleFills(l: int, t: int, r: int, b: int, x: int, y: int)
    requires l <= r && t < b
    ensures Inside([(l, t), (r, t), (r, b), (l, b)], x, y) <==> l <= x <= r && t <= y < b
  {
    hide CrossesAt, CrossesLeft;
    var points: seq<Point> := [(l, t), (r, t), (r, b), (l, b)];
    UprightSide((l, b), (l, t), x, y);
    LevelCrossesNothing((l, t), (r, t), x, y);
    UprightSide((r, t), (r, b), x, y);
    LevelCrossesNothing((r, b), (l, b), x, y);
    assert Previous(points, 0) == (l, b) && Previous(points, 1) == (l, t) && Previous(points, 2) == (r, t)
           && Previous(points, 3) == (r, b);
    FourSides(points, x, y);
    assert CrossesAt((l, b), (l, t), x, y) || CrossesAt((r, t), (r, b), x, y)
           <==> exists i: nat :: i < |points| && CrossesAt(Previous(points, i), points[i], x, y);
  }

  lemma {:induction false} FourSides(points: seq<Point>, x: int, y: int)
    requires |points| == 4
    ensures CountLeft(points, 4, x, y)
            == (if CrossesLeft(points[3], points[0], x, y) then 1 else 0)
               + (if CrossesLeft(points[0], points[1], x, y) then 1 else 0)
               + (if CrossesLeft(points[1], points[2], x, y) then 1 else 0)
               + (if CrossesLeft(points[2], points[3], x, y) then 1 else 0)
  {
    hide CrossesLeft;
    assert CountLeft(points, 0, x, y) == 0;
    assert CountLeft(points, 2, x, y) == CountLeft(points, 1, x, y)
                                         + if CrossesLeft(points[0], points[1], x, y) then 1 else 0;
    assert CountLeft(points, 3, x, y) == CountLeft(points, 2, x, y)
                                         + if CrossesLeft(points[1], points[2], x, y) then 1 else 0;
  }

  /** A triangle: its tip is one pixel, and the row above its base stops short of the corners on both sides. */
  lemma {:induction false} TriangleFills(x: int)
    ensures var triangle := [(5, 0), (10, 10), (0, 10)];
            (Inside(triangle, x, 0) <==> x == 5) && (Inside(triangle, x, 9) <==> 1 <= x <= 9)
  {
    hide Inside, CrossesAt;
    assert CrossesAt((0, 10), (5, 0), 5, 0) && CrossesAt((5, 0), (10, 10), 5, 0) by { TriangleSides(); }
    assert CrossesAt((0, 10), (5, 0), 1, 9) && CrossesAt((5, 0), (10, 10), 9, 9) by { TriangleSides(); }
    TriangleRow(x, 0, 5, 5);
    TriangleRow(x, 9, 1, 9);
  }

  lemma TriangleSides()
    ensures CrossesAt((0, 10), (5, 0), 5, 0) && CrossesAt((5, 0), (10, 10), 5, 0)
    ensures CrossesAt((0, 10), (5, 0), 1, 9) && CrossesAt((5, 0), (10, 10), 9, 9)
  {
  }

  lemma {:induction false} TriangleRow(x: int, y: int, left: int, right: int)
    requires CrossesAt((0, 10), (5, 0), left, y) && CrossesAt((5, 0), (10, 10), right, y) && left <= right
    ensures Inside([(5, 0), (10, 10), (0, 10)], x, y) <==> left <= x <= right
  {
    hide CrossesAt, CrossesLeft;
    var triangle: seq<Point> := [(5, 0), (10, 10), (0, 10)];
    assert Previous(triangle, 0) == (0, 10) && Previous(triangle, 1) == (5, 0) && Previous(triangle, 2) == (10, 10);
    LevelCrossesNothing((10, 10), (0, 10), x, y);
    SlantedSide((0, 10), (5, 0), x, y, left);
    SlantedSide((5, 0), (10, 10), x, y, right);
    ThreeSides(triangle, x, y);
    assert CrossesAt((0, 10), (5, 0), x, y) || CrossesAt((5, 0), (10, 10), x, y)
           <==> exists i: nat :: i < |triangle| && CrossesAt(Previous(triangle, i), triangle[i], x, y);
  }

  lemma SlantedSide(p: Point, q: Point, x: int, y: int, c: int)
    requires CrossesAt(p, q, c, y)
    ensures CrossesAt(p, q, x, y) <==> x == c
    ensures CrossesLeft(p, q, x, y) <==> c < x
  {
    hide CrossesAt;
    forall d | CrossesAt(p, q, d, y) ensures d == c { CrossesOnce(p, q, d, c, y); }
  }

  lemma {:induction false} ThreeSides(points: seq<Point>, x: int, y: int)
    requires |points| == 3
    ensures CountLeft(points, 3, x, y)
            == (if CrossesLeft(points[2], points[0], x, y) then 1 else 0)
               + (if CrossesLeft(points[0], points[1], x, y) then 1 else 0)
               + (if CrossesLeft(points[1], points[2], x, y) then 1 else 0)
  {
    hide CrossesLeft;
    assert CountLeft(points, 0, x, y) == 0;
    assert CountLeft(points, 2, x, y) == CountLeft(points, 1, x, y)
                                         + if CrossesLeft(points[0], points[1], x, y) then 1 else 0;
  }
}
