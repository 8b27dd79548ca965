/**
 The arithmetic of a rasterised line, independent of the buffer. A line is seen along its major
 axis: after `k` of `a` major steps the ideal line has moved `b * k / a` along the minor axis, and
 the pixel drawn is the nearest one, ties going to the start of the line.
 */
module LineMath {
  import opened Common

  /** Twice the signed distance, in units of 1/a, from minor offset `m` to the ideal line at `k`. */
  function Error(a: int, b: int, k: int, m: int): int {
    2 * b * k - 2 * a * m
  }

  /** `m` is the minor offset drawn at major offset `k`: within half a pixel, ties rounded down. */
  ghost predicate Nearest(a: int, b: int, k: int, m: int) {
    if a == 0 then m == 0 else -a < Error(a, b, k, m) <= a
  }

  /** Bresenham's decision variable in closed form. */
  function Decision(a: int, b: int, k: int, m: int): int {
    (2 + 2 * k) * b - (1 + 2 * m) * a
  }

  ghost predicate Octant(a: int, b: int) {
    0 <= b <= a
  }

  lemma NearestUnique(a: int, b: int, k: int, m: int, n: int)
    requires Octant(a, b) && Nearest(a, b, k, m) && Nearest(a, b, k, n)
    ensures m == n
  {
    NearestMonotone(a, b, k, m, k, n);
    NearestMonotone(a, b, k, n, k, m);
  }

  /** The minor offset never goes back. */
  lemma NearestMonotone(a: int, b: int, k1: int, m1: int, k2: int, m2: int)
    requires Octant(a, b) && k1 <= k2 && Nearest(a, b, k1, m1) && Nearest(a, b, k2, m2)
    ensures m1 <= m2
  {
    if a > 0 {
      MulKeepsOrder(b, k1, k2);
      assert a * (m1 - m2) == a * m1 - a * m2;
      CancelFactor(a, m1 - m2, 1);
    }
  }

  lemma NearestRange(a: int, b: int, k: int, m: int)
    requires Octant(a, b) && 0 <= k <= a && Nearest(a, b, k, m)
    ensures 0 <= m <= b
  {
    if a > 0 {
      assert Error(a, b, 0, 0) == 0;
      NearestMonotone(a, b, 0, 0, k, m);
      assert Error(a, b, a, b) == 0;
      NearestMonotone(a, b, k, m, a, b);
    }
  }

  /** Where the unclipped walk starts. */
  lemma WalkStart(a: int, b: int)
    requires Octant(a, b)
    ensures Nearest(a, b, 0, 0) && Decision(a, b, 0, 0) == 2 * b - a
  {
    assert Error(a, b, 0, 0) == 0;
  }

  /** One step of the walk: the sign of the decision variable picks the next nearest pixel. */
  lemma WalkStep(a: int, b: int, k: int, m: int)
    requires Octant(a, b) && a > 0 && Nearest(a, b, k, m)
    ensures Decision(a, b, k, m) <= 0 ==>
              && Nearest(a, b, k + 1, m)
              && Decision(a, b, k + 1, m) == Decision(a, b, k, m) + 2 * b
    ensures Decision(a, b, k, m) > 0 ==>
              && Nearest(a, b, k + 1, m + 1)
              && Decision(a, b, k + 1, m + 1) == Decision(a, b, k, m) + 2 * (b - a)
  {
    var e := Error(a, b, k, m);
    assert Decision(a, b, k, m) == e + 2 * b - a;
    assert Error(a, b, k + 1, m) == e + 2 * b;
    assert Error(a, b, k + 1, m + 1) == e + 2 * b - 2 * a;
    assert Decision(a, b, k + 1, m) == e + 4 * b - a;
    assert Decision(a, b, k + 1, m + 1) == e + 4 * b - 3 * a;
  }

  /** Where a line enters the clip: offsets along both axes. */
  datatype Entry = Entry(major: int, minor: int)

  /** A pixel of the line inside the clip, whose sides are given as offsets from the line's start. */
  ghost predicate Visible(a: int, b: int, majIn: int, majOut: int, minIn: int, minOut: int, k: int, m: int) {
    0 <= k <= a && Nearest(a, b, k, m) && majIn <= k <= majOut && minIn <= m <= minOut
  }

  /**
   The entry computation of drawLineClipped. `majIn`/`minIn` are the distances to the near sides of
   the clip and `majOut`/`minOut` those to the last row or column inside it.
   */
  function FindEntry(a: int, b: int, majIn: int, majOut: int, minIn: int, minOut: int): (r: Option<Entry>)
    requires Octant(a, b) && majIn <= a && minIn <= b
  {
    var rounded :=
      if majIn > 0 then
        var temp := majIn * b;
        temp / a + (if temp % a > a / 2 then 1 else 0)
      else 0;
    if majIn > 0 && minOut - rounded < 0 then
      None
    else if minIn - rounded > 0 then
      assert rounded >= 0 by { if majIn > 0 { DivisionFacts(majIn * b, a); } }
      var back := ((2 * minIn - 1) * a) / (2 * b) + 1;
      if back > majOut then None else Some(Entry(back, minIn))
    else
      Some(Entry(if majIn > 0 then majIn else 0, rounded))
  }

  lemma DivisionFacts(n: int, d: int)
    requires d > 0
    ensures n == d * (n / d) + n % d && 0 <= n % d < d
    ensures n >= 0 ==> n / d >= 0
  {
  }

  /** Rounding a quotient half down, as the code does it, gives the nearest offset. */
  lemma RoundedIsNearest(a: int, b: int, k: int)
    requires Octant(a, b) && 0 < a && 0 <= k
    ensures Nearest(a, b, k, (k * b) / a + (if (k * b) % a > a / 2 then 1 else 0))
  {
    var temp := k * b;
    assert temp >= 0;
    DivisionFacts(temp, a);
    var q, r := temp / a, temp % a;
    assert a * (q + 1) == a * q + a;
    assert Error(a, b, k, q) == 2 * r;
    assert Error(a, b, k, q + 1) == 2 * r - 2 * a;
  }

  /** The pixel at `k` has reached minor offset `v` just when the ideal line has passed `v - 1/2`. */
  lemma PastHalfPixel(a: int, b: int, v: int, k: int, m: int)
    requires Octant(a, b) && 0 < b && Nearest(a, b, k, m)
    ensures m >= v <==> 2 * b * k > (2 * v - 1) * a
  {
    assert (2 * v - 1) * a == 2 * (a * v) - a;
    if m >= v {
      MulKeepsOrder(a, v, m);
    } else {
      MulKeepsOrder(a, m, v - 1);
      assert a * (v - 1) == a * v - a;
    }
  }

  /** Stepping back half a pixel finds the first column whose pixel reaches minor offset `v`. */
  lemma FirstReaching(a: int, b: int, v: int, k: int, m: int)
    requires Octant(a, b) && 0 < b && Nearest(a, b, k, m)
    ensures m >= v <==> k >= ((2 * v - 1) * a) / (2 * b) + 1
  {
    PastHalfPixel(a, b, v, k, m);
    BeyondQuotient((2 * v - 1) * a, 2 * b, k);
  }

  lemma BeyondQuotient(n: int, d: int, k: int)
    requires d > 0
    ensures d * k > n <==> k >= n / d + 1
  {
    DivisionFacts(n, d);
    var q := n / d;
    if k >= q + 1 {
      MulKeepsOrder(d, q + 1, k);
      assert d * (q + 1) == d * q + d;
    } else {
      MulKeepsOrder(d, k, q);
    }
  }

  /** The first column past `v - 1/2` is on the line at exactly row `v`... */
  lemma FirstPastHalfPixel(a: int, b: int, v: int, k: int)
    requires Octant(a, b) && 0 < b
    requires 2 * b * (k - 1) <= (2 * v - 1) * a < 2 * b * k
    ensures Nearest(a, b, k, v)
  {
    var n, w := (2 * v - 1) * a, 2 * b * k;
    assert n == 2 * a * v - a;
    assert 2 * b * (k - 1) == w - 2 * b;
  }

  /** ... and lies between the line's ends. */
  lemma FirstPastHalfPixelRange(a: int, b: int, v: int, k: int)
    requires Octant(a, b) && 0 < b && 1 <= v <= b
    requires 2 * b * (k - 1) <= (2 * v - 1) * a < 2 * b * k
    ensures 0 < k <= a
  {
    var n := (2 * v - 1) * a;
    MulKeepsOrder(a, 1, 2 * v - 1);
    CancelFactor(2 * b, 0, k);
    MulKeepsOrder(a, 2 * v - 1, 2 * b - 1);
    assert a * (2 * b - 1) == 2 * b * a - a;
    CancelFactor(2 * b, k - 1, a);
  }

  /** The pixel at the column found by stepping back is exactly the entry row. */
  lemma ReachedExactly(a: int, b: int, v: int)
    requires Octant(a, b) && 0 < b && 1 <= v <= b
    ensures var k := ((2 * v - 1) * a) / (2 * b) + 1; 0 < k <= a && Nearest(a, b, k, v)
  {
    var n, d := (2 * v - 1) * a, 2 * b;
    var k := n / d + 1;
    BeyondQuotient(n, d, k);
    BeyondQuotient(n, d, k - 1);
    FirstPastHalfPixel(a, b, v, k);
    FirstPastHalfPixelRange(a, b, v, k);
  }

  /** Whatever the clip, an entry is a pixel of the unclipped walk. */
  lemma EntryIsOnLine(a: int, b: int, majIn: int, majOut: int, minIn: int, minOut: int)
    requires Octant(a, b) && majIn <= a && minIn <= b
    ensures var r := FindEntry(a, b, majIn, majOut, minIn, minOut);
            r.Some? ==> 0 <= r.value.major && Nearest(a, b, r.value.major, r.value.minor)
  {
    var start := if majIn > 0 then majIn else 0;
    var rounded :=
      if majIn > 0 then (majIn * b) / a + (if (majIn * b) % a > a / 2 then 1 else 0) else 0;
    assert Nearest(a, b, start, rounded) by {
      if majIn > 0 { RoundedIsNearest(a, b, majIn); } else { assert Error(a, b, 0, 0) == 0; }
    }
    NearestRange(a, b, start, rounded);
    if minIn > rounded { ReachedExactly(a, b, minIn); }
  }

  /**
   The entry theorem. If the code finds an entry, that is the first visible pixel of the line, with
   the offsets of the unclipped walk; if it finds none, no pixel of the line is visible. It holds for
   a clip with extent both ways or neither.
   */
  lemma EntryIsFirstVisible(a: int, b: int, majIn: int, majOut: int, minIn: int, minOut: int)
    requires Octant(a, b) && majIn <= a && minIn <= b
    requires 0 <= majOut && 0 <= minOut && (majIn <= majOut <==> minIn <= minOut)
    ensures var r := FindEntry(a, b, majIn, majOut, minIn, minOut);
            && (r.None? ==> forall k, m :: !Visible(a, b, majIn, majOut, minIn, minOut, k, m))
            && (r.Some? ==>
                  && Visible(a, b, majIn, majOut, minIn, minOut, r.value.major, r.value.minor)
                  && forall k, m | Visible(a, b, majIn, majOut, minIn, minOut, k, m) :: r.value.major <= k)
  {
    var start := if majIn > 0 then majIn else 0;
    var rounded :=
      if majIn > 0 then (majIn * b) / a + (if (majIn * b) % a > a / 2 then 1 else 0) else 0;
    assert Nearest(a, b, start, rounded) by {
      if majIn > 0 { RoundedIsNearest(a, b, majIn); } else { assert Error(a, b, 0, 0) == 0; }
    }
    NearestRange(a, b, start, rounded);
    if minIn > rounded {
      ReachedExactly(a, b, minIn);
      var back := ((2 * minIn - 1) * a) / (2 * b) + 1;
      NearestRange(a, b, back, minIn);
      FirstReaching(a, b, minIn, start, rounded);
      forall k, m | Visible(a, b, majIn, majOut, minIn, minOut, k, m)
        ensures back <= k
      {
        FirstReaching(a, b, minIn, k, m);
      }
    } else {
      forall k, m | Visible(a, b, majIn, majOut, minIn, minOut, k, m)
        ensures start <= k && rounded <= m
      {
        NearestMonotone(a, b, start, rounded, k, m);
      }
    }
  }
}
