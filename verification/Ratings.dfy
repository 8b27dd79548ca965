/**
 Song ratings, the draw test, and what the running sums say about them. Numbers are exact.
 */
module Ratings {

  datatype Stat = Stat(playCount: nat, skipCount: nat, repeatCounter: int, manualRating: int)

  /** db_manual_rating_bias is a weight. */
  predicate BiasOk(bias: real) {
    0.0 <= bias <= 1.0
  }

  function AutoRating(s: Stat): real {
    (s.playCount - s.skipCount) as real / (s.playCount + s.skipCount + 1) as real
  }

  function GetRating(s: Stat, bias: real): real {
    if s.manualRating == -1 then AutoRating(s)
    else AutoRating(s) * (1.0 - bias) + (s.manualRating as real - 5.0) / 5.0 * bias
  }

  predicate ManualOk(s: Stat) {
    -1 <= s.manualRating <= 10
  }

  lemma AutoRatingRange(s: Stat)
    ensures -1.0 < AutoRating(s) < 1.0
  {
    var n, d := (s.playCount - s.skipCount) as real, (s.playCount + s.skipCount + 1) as real;
    QuotientBetween(n, d, AutoRating(s));
  }

  lemma QuotientBetween(n: real, d: real, q: real)
    requires -d < n < d && q == n / d
    ensures -1.0 < q < 1.0
  {
    assert d * q == n && d * -1.0 == -d && d * 1.0 == d;
    CancelFactor(d, -1.0, q);
    CancelFactor(d, q, 1.0);
  }

  lemma CancelFactor(c: real, p: real, q: real)
    requires 0.0 < c && c * p < c * q
    ensures p < q
  {
  }

  lemma Product(p: real, q: real)
    requires 0.0 <= p && 0.0 <= q
    ensures 0.0 <= p * q
  {
  }

  lemma PositiveProduct(p: real, q: real)
    requires 0.0 < p && 0.0 < q
    ensures 0.0 < p * q
  {
  }

  lemma Scaled(x: real, w: real)
    requires -1.0 <= x <= 1.0 && 0.0 <= w
    ensures -w <= x * w <= w
    ensures -1.0 < x < 1.0 && 0.0 < w ==> -w < x * w < w
  {
    assert (1.0 - x) * w == w - x * w;
    assert (1.0 + x) * w == w + x * w;
    Product(1.0 - x, w);
    Product(1.0 + x, w);
    if -1.0 < x < 1.0 && 0.0 < w {
      PositiveProduct(1.0 - x, w);
      PositiveProduct(1.0 + x, w);
    }
  }

  /** A product under a name of its own, so that sums of products can be compared as sums. */
  function Times(x: real, y: real): real {
    x * y
  }

  lemma ScaledTimes(x: real, w: real)
    requires -1.0 <= x <= 1.0 && 0.0 <= w
    ensures -w <= Times(x, w) <= w
    ensures -1.0 < x < 1.0 && 0.0 < w ==> -w < Times(x, w) < w
  {
    Scaled(x, w);
  }

  lemma WeightedSum(x: real, y: real, w: real, v: real)
    requires 0.0 <= w && 0.0 <= v && w + v == 1.0 && -1.0 < x < 1.0 && -1.0 <= y <= 1.0
    ensures -1.0 <= Times(x, w) + Times(y, v) <= 1.0
    ensures w > 0.0 ==> -1.0 < Times(x, w) + Times(y, v) < 1.0
  {
    hide Times;
    ScaledTimes(x, w);
    ScaledTimes(y, v);
  }

  /** A weighted mean of two ratings is a rating. */
  lemma Weighted(x: real, y: real, bias: real)
    requires BiasOk(bias) && -1.0 < x < 1.0 && -1.0 <= y <= 1.0
    ensures -1.0 <= x * (1.0 - bias) + y * bias <= 1.0
    ensures bias < 1.0 ==> -1.0 < x * (1.0 - bias) + y * bias < 1.0
  {
    WeightedSum(x, y, 1.0 - bias, bias);
  }

  /**
   A rating is between -1 and 1. The ends are reached exactly when the manual rating has all the weight
   and is itself at an end, so "exclusive" holds for every weight below 1.
   */
  lemma RatingRange(s: Stat, bias: real)
    requires BiasOk(bias) && ManualOk(s)
    ensures -1.0 <= GetRating(s, bias) <= 1.0
    ensures -1.0 < GetRating(s, bias) < 1.0 <==> !(bias == 1.0 && (s.manualRating == 0 || s.manualRating == 10))
  {
    AutoRatingRange(s);
    if s.manualRating != -1 {
      Weighted(AutoRating(s), (s.manualRating as real - 5.0) / 5.0, bias);
      if bias == 1.0 { FullWeight(AutoRating(s), (s.manualRating as real - 5.0) / 5.0); }
    }
  }

  // ---- What moves a rating ----

  /** A rating in numbers: the share of plays, and with a manual rating its weighted mean with that on 0 to 10. */
  lemma RatingInNumbers(s: Stat, bias: real)
    ensures var n, d := (s.playCount - s.skipCount) as real, (s.playCount + s.skipCount + 1) as real;
            && (s.manualRating == -1 ==> d * GetRating(s, bias) == n)
            && (s.manualRating != -1 ==>
                  5.0 * (d * GetRating(s, bias))
                  == 5.0 * (n * (1.0 - bias)) + d * ((s.manualRating as real - 5.0) * bias))
  {
    var n, d := (s.playCount - s.skipCount) as real, (s.playCount + s.skipCount + 1) as real;
    var a, m := AutoRating(s), (s.manualRating as real - 5.0) / 5.0;
    assert d * a == n && 5.0 * m == s.manualRating as real - 5.0;
    if s.manualRating != -1 {
      assert d * (a * (1.0 - bias)) == (d * a) * (1.0 - bias);
      assert 5.0 * (d * (m * bias)) == d * ((5.0 * m) * bias);
      assert d * (a * (1.0 - bias) + m * bias) == d * (a * (1.0 - bias)) + d * (m * bias);
    }
  }

  /** A higher manual rating never lowers the rating, and raises it exactly when it has any weight. */
  lemma BetterManual(s: Stat, t: Stat, bias: real)
    requires BiasOk(bias) && s == t.(manualRating := s.manualRating) && 0 <= s.manualRating <= t.manualRating <= 10
    ensures GetRating(s, bias) <= GetRating(t, bias)
    ensures GetRating(s, bias) < GetRating(t, bias) <==> s.manualRating < t.manualRating && bias > 0.0
  {
    hide AutoRating, GetRating;
    var m, k := (s.manualRating as real - 5.0) / 5.0, (t.manualRating as real - 5.0) / 5.0;
    SameShare(s, t);
    var a := AutoRating(s) * (1.0 - bias);
    RatedIs(s, bias);
    RatedIs(t, bias);
    FifthsCompare(s.manualRating as real, t.manualRating as real);
    ManualMoves(a, m, k, bias);
  }

  lemma RatedIs(s: Stat, bias: real)
    requires s.manualRating != -1
    ensures GetRating(s, bias) == AutoRating(s) * (1.0 - bias) + (s.manualRating as real - 5.0) / 5.0 * bias
  {
  }

  lemma FifthsCompare(m: real, k: real)
    ensures (m - 5.0) / 5.0 < (k - 5.0) / 5.0 <==> m < k
    ensures m <= k ==> (m - 5.0) / 5.0 <= (k - 5.0) / 5.0
  {
  }

  lemma SameShare(s: Stat, t: Stat)
    requires s.playCount == t.playCount && s.skipCount == t.skipCount
    ensures AutoRating(s) == AutoRating(t)
  {
  }

  lemma ManualMoves(a: real, m: real, k: real, bias: real)
    requires 0.0 <= bias && m <= k
    ensures a + m * bias <= a + k * bias
    ensures a + m * bias < a + k * bias <==> m < k && bias > 0.0
  {
    assert k * bias - m * bias == (k - m) * bias;
    Product(k - m, bias);
    if m < k && bias > 0.0 { PositiveProduct(k - m, bias); }
    assert bias == 0.0 ==> (k - m) * bias == 0.0;
  }

  lemma QuotientsCompare(n: real, d: real, m: real, e: real)
    requires 0.0 < d && 0.0 < e && n * e < m * d
    ensures n / d < m / e
  {
    var q, r := n / d, m / e;
    assert d * q == n && e * r == m;
    assert n * e == (d * e) * q && m * d == (d * e) * r;
    PositiveProduct(d, e);
    CancelFactor(d * e, q, r);
  }

  /** One more play raises the share of plays, one more skip lowers it. */
  lemma CountsMoveShare(s: Stat)
    ensures AutoRating(s.(playCount := s.playCount + 1)) > AutoRating(s)
    ensures AutoRating(s.(skipCount := s.skipCount + 1)) < AutoRating(s)
  {
    var p, k := s.playCount as real, s.skipCount as real;
    var n, d := p - k, p + k + 1.0;
    assert n * (d + 1.0) == n * d + n && (n + 1.0) * d == n * d + d && (n - 1.0) * d == n * d - d;
    QuotientsCompare(n, d, n + 1.0, d + 1.0);
    QuotientsCompare(n - 1.0, d + 1.0, n, d);
  }

  lemma MixMoves(a: real, b: real, y: real, bias: real)
    requires BiasOk(bias) && a < b
    ensures a * (1.0 - bias) + y * bias <= b * (1.0 - bias) + y * bias
    ensures bias < 1.0 ==> a * (1.0 - bias) + y * bias < b * (1.0 - bias) + y * bias
  {
    assert b * (1.0 - bias) - a * (1.0 - bias) == (b - a) * (1.0 - bias);
    Product(b - a, 1.0 - bias);
    if bias < 1.0 { PositiveProduct(b - a, 1.0 - bias); }
  }

  /** One more play never lowers a rating and one more skip never raises it; both move it unless the manual
      rating has all the weight. */
  lemma CountsMoveRating(s: Stat, bias: real)
    requires BiasOk(bias)
    ensures var played, skipped := s.(playCount := s.playCount + 1), s.(skipCount := s.skipCount + 1);
            && GetRating(skipped, bias) <= GetRating(s, bias) <= GetRating(played, bias)
            && (bias < 1.0 || s.manualRating == -1 ==>
                  GetRating(skipped, bias) < GetRating(s, bias) < GetRating(played, bias))
  {
    hide AutoRating;
    var played, skipped := s.(playCount := s.playCount + 1), s.(skipCount := s.skipCount + 1);
    CountsMoveShare(s);
    var y := (s.manualRating as real - 5.0) / 5.0;
    MixMoves(AutoRating(s), AutoRating(played), y, bias);
    MixMoves(AutoRating(skipped), AutoRating(s), y, bias);
  }

  /** The weight of manual ratings is nothing to a song without one. */
  lemma UnratedIgnoresBias(s: Stat, bias: real, other: real)
    requires s.manualRating == -1
    ensures GetRating(s, bias) == GetRating(s, other)
  {
  }

  /** With all the weight, manual ratings 10, 5 and 0 are 1, 0 and -1; with none they count for nothing. */
  lemma RatingEnds(s: Stat)
    ensures s.manualRating == 10 ==> GetRating(s, 1.0) == 1.0
    ensures s.manualRating == 5 ==> GetRating(s, 1.0) == 0.0
    ensures s.manualRating == 0 ==> GetRating(s, 1.0) == -1.0
    ensures GetRating(s, 0.0) == GetRating(s.(manualRating := -1), 0.0)
    ensures s.playCount == s.skipCount && s.manualRating == -1 ==> GetRating(s, 0.0) == 0.0
  {
    var m := (s.manualRating as real - 5.0) / 5.0;
    FullWeight(AutoRating(s), m);
    assert AutoRating(s) * (1.0 - 0.0) + m * 0.0 == AutoRating(s);
  }

  lemma FullWeight(x: real, y: real)
    ensures x * (1.0 - 1.0) + y * 1.0 == y
  {
  }

  // ---- The six sums over all songs ----

  datatype Sums = Sums(rating: real, ratingSqr: real, play: int, playSqr: int, skip: int, skipSqr: int) {

    function Plus(t: Sums): Sums {
      Sums(rating + t.rating, ratingSqr + t.ratingSqr, play + t.play, playSqr + t.playSqr, skip + t.skip,
           skipSqr + t.skipSqr)
    }

    function Minus(t: Sums): Sums {
      Sums(rating - t.rating, ratingSqr - t.ratingSqr, play - t.play, playSqr - t.playSqr, skip - t.skip,
           skipSqr - t.skipSqr)
    }
  }

  const ZERO := Sums(0.0, 0.0, 0, 0, 0, 0)

  lemma SumsAlgebra(a: Sums, b: Sums, c: Sums)
    ensures a.Plus(b).Plus(c) == a.Plus(b.Plus(c)) == b.Plus(a.Plus(c))
    ensures a.Plus(ZERO) == a && ZERO.Plus(a) == a && a.Plus(b) == b.Plus(a)
    ensures a.Minus(b).Plus(c) == a.Plus(c.Minus(b)) == a.Plus(c).Minus(b)
    ensures a.Plus(b).Minus(c) == b.Plus(a.Minus(c))
    ensures a == b.Plus(c) ==> (a == b <==> c == ZERO)
  {
  }

  /** One song's share of the sums. */
  function Term(s: Stat, bias: real): Sums {
    var r := GetRating(s, bias);
    Sums(r, r * r, s.playCount, CountSquare(s.playCount), s.skipCount, CountSquare(s.skipCount))
  }

  function CountSquare(n: int): int {
    n * n
  }

  ghost function Totals(songs: seq<Stat>, bias: real): Sums {
    if songs == [] then ZERO else Term(songs[0], bias).Plus(Totals(songs[1..], bias))
  }

  /** Appending a song adds its terms. */
  lemma {:induction false} TotalsAppend(songs: seq<Stat>, s: Stat, bias: real)
    ensures Totals(songs + [s], bias) == Totals(songs, bias).Plus(Term(s, bias))
  {
    hide Term, ZERO, Sums.Plus;
    if songs == [] {
      assert [s][1..] == [] && [] + [s] == [s];
      SumsAlgebra(Term(s, bias), ZERO, ZERO);
    } else {
      assert (songs + [s])[1..] == songs[1..] + [s];
      TotalsAppend(songs[1..], s, bias);
      SumsAlgebra(Term(songs[0], bias), Totals(songs[1..], bias), Term(s, bias));
    }
  }

  /** Changing one song exchanges its terms and no others. */
  lemma {:induction false} TotalsUpdate(songs: seq<Stat>, i: nat, s: Stat, bias: real)
    requires i < |songs|
    ensures Totals(songs[i := s], bias) == Totals(songs, bias).Minus(Term(songs[i], bias)).Plus(Term(s, bias))
    decreases i
  {
    hide Term, ZERO, Sums.Plus, Sums.Minus;
    if i == 0 {
      assert songs[0 := s][1..] == songs[1..];
      Exchange(ZERO, Term(songs[0], bias), Term(s, bias), Totals(songs[1..], bias));
    } else {
      assert songs[i := s][1..] == songs[1..][i - 1 := s];
      TotalsUpdate(songs[1..], i - 1, s, bias);
      Exchange(Term(songs[0], bias), Term(songs[i], bias), Term(s, bias), Totals(songs[1..], bias));
    }
  }

  lemma Exchange(first: Sums, old': Sums, new': Sums, rest: Sums)
    ensures old'.Plus(rest).Minus(old').Plus(new') == new'.Plus(rest)
    ensures first.Plus(rest.Minus(old').Plus(new')) == first.Plus(rest).Minus(old').Plus(new')
  {
  }

  /** The rating sums by themselves. */
  ghost function Sum(songs: seq<Stat>, bias: real): real {
    if songs == [] then 0.0 else GetRating(songs[0], bias) + Sum(songs[1..], bias)
  }

  ghost function SqrSum(songs: seq<Stat>, bias: real): real {
    if songs == [] then 0.0 else GetRating(songs[0], bias) * GetRating(songs[0], bias) + SqrSum(songs[1..], bias)
  }

  lemma {:induction false} RatingTotals(songs: seq<Stat>, bias: real)
    ensures Totals(songs, bias).rating == Sum(songs, bias)
    ensures Totals(songs, bias).ratingSqr == SqrSum(songs, bias)
  {
    hide GetRating;
    if songs != [] { RatingTotals(songs[1..], bias); }
  }

  // ---- The average and the deviation ----

  function Square(x: real): real {
    x * x
  }

  /** The squared distances of all ratings from `r`. */
  ghost function Spread(songs: seq<Stat>, bias: real, r: real): real {
    if songs == [] then 0.0
    else Square(GetRating(songs[0], bias) - r) + Spread(songs[1..], bias, r)
  }

  lemma {:induction false} SpreadExpands(songs: seq<Stat>, bias: real, r: real)
    ensures Spread(songs, bias, r) == SqrSum(songs, bias) - 2.0 * (r * Sum(songs, bias)) + |songs| as real * (r * r)
  {
    hide GetRating, Square;
    if songs == [] {
    } else {
      SpreadUnfolds(songs, bias, r);
      hide Spread, Sum, SqrSum;
      SpreadExpands(songs[1..], bias, r);
      SpreadStep(GetRating(songs[0], bias), r, Spread(songs[1..], bias, r), SqrSum(songs[1..], bias),
                 Sum(songs[1..], bias), |songs[1..]| as real,
                 Spread(songs, bias, r), SqrSum(songs, bias), Sum(songs, bias), |songs| as real);
    }
  }

  lemma {:induction false} SpreadUnfolds(songs: seq<Stat>, bias: real, r: real)
    requires songs != []
    ensures var q := GetRating(songs[0], bias);
            && Spread(songs, bias, r) == Square(q - r) + Spread(songs[1..], bias, r)
            && SqrSum(songs, bias) == q * q + SqrSum(songs[1..], bias)
            && Sum(songs, bias) == q + Sum(songs[1..], bias)
    ensures |songs| as real == |songs[1..]| as real + 1.0
  {
  }

  lemma SpreadStep(q: real, r: real, d: real, sqr: real, sum: real, n: real,
                   d': real, sqr': real, sum': real, n': real)
    requires d == sqr - 2.0 * (r * sum) + n * (r * r)
    requires d' == Square(q - r) + d && sqr' == q * q + sqr && sum' == q + sum && n' == n + 1.0
    ensures d' == sqr' - 2.0 * (r * sum') + n' * (r * r)
  {
    assert Square(q - r) == q * q - 2.0 * (r * q) + r * r;
    assert r * (q + sum) == r * q + r * sum;
    assert (n + 1.0) * (r * r) == n * (r * r) + r * r;
  }

  lemma {:induction false} SpreadIsPositive(songs: seq<Stat>, bias: real, r: real)
    ensures Spread(songs, bias, r) >= 0.0
    ensures Spread(songs, bias, r) == 0.0 ==> forall i | 0 <= i < |songs| :: GetRating(songs[i], bias) == r
  {
    hide GetRating, Square;
    if songs != [] {
      var q := GetRating(songs[0], bias);
      SpreadIsPositive(songs[1..], bias, r);
      SquareIsPositive(q - r);
      assert Spread(songs, bias, r) == 0.0 ==> q == r;
      if Spread(songs, bias, r) == 0.0 {
        forall i | 0 <= i < |songs| ensures GetRating(songs[i], bias) == r {
          if i > 0 { assert songs[i] == songs[1..][i - 1]; }
        }
      }
    }
  }

  lemma SquareIsPositive(x: real)
    ensures Square(x) >= 0.0
    ensures x != 0.0 ==> Square(x) > 0.0
  {
    assert Square(0.0) == 0.0;
    hide Square;
    SquareIsEven(x);
    if x > 0.0 { SquareOfPositive(x); }
    if x < 0.0 { SquareOfPositive(-x); }
  }

  lemma SquareOfPositive(x: real)
    requires x > 0.0
    ensures Square(x) > 0.0
  {
    calc {
      Square(x);
    ==
      x * x;
    >  { PositiveProduct(x, x); }
      0.0;
    }
  }

  lemma SquareIsEven(x: real)
    ensures Square(-x) == Square(x)
  {
  }

  ghost function Average(songs: seq<Stat>, bias: real): real
    requires songs != []
  {
    Sum(songs, bias) / |songs| as real
  }

  /** The value under the square root, before fabs. */
  ghost function Variance(songs: seq<Stat>, bias: real): real
    requires songs != []
  {
    SqrSum(songs, bias) / |songs| as real - Average(songs, bias) * Average(songs, bias)
  }

  lemma VarianceParts(songs: seq<Stat>, bias: real) returns (mean: real)
    requires songs != []
    ensures |songs| as real * Average(songs, bias) == Sum(songs, bias)
    ensures |songs| as real * mean == SqrSum(songs, bias)
    ensures Variance(songs, bias) == mean - Average(songs, bias) * Average(songs, bias)
  {
    hide GetRating, Sum, SqrSum;
    QuotientTimes(Sum(songs, bias), |songs| as real);
    mean := SqrSum(songs, bias) / |songs| as real;
    QuotientTimes(SqrSum(songs, bias), |songs| as real);
  }

  lemma QuotientTimes(p: real, n: real)
    requires n > 0.0
    ensures n * (p / n) == p
  {
  }

  lemma ScaledVariance(n: real, s: real, q: real, a: real, mean: real)
    requires n * a == s && n * mean == q
    ensures n * (mean - a * a) == q - 2.0 * (a * s) + n * (a * a)
    ensures n * (n * (mean - a * a)) == n * q - s * s
  {
    assert a * s == a * (n * a) == n * (a * a);
    assert n * (mean - a * a) == n * mean - n * (a * a);
    assert n * (n * (a * a)) == (n * a) * (n * a);
    assert n * (q - n * (a * a)) == n * q - n * (n * (a * a));
  }

  /** The fabs is the identity, and no deviation means every song is rated the average. */
  lemma {:induction false} VarianceFacts(songs: seq<Stat>, bias: real)
    requires songs != []
    ensures Variance(songs, bias) >= 0.0
    ensures |songs| as real * Average(songs, bias) == Sum(songs, bias)
    ensures |songs| as real * Variance(songs, bias) == Spread(songs, bias, Average(songs, bias))
    ensures |songs| as real * SqrSum(songs, bias) >= Sum(songs, bias) * Sum(songs, bias)
    ensures Variance(songs, bias) == 0.0 ==>
              forall i | 0 <= i < |songs| :: GetRating(songs[i], bias) == Average(songs, bias)
  {
    hide GetRating, Sum, SqrSum, Spread, Average, Variance, Square;
    var mean := VarianceParts(songs, bias);
    var a := Average(songs, bias);
    SpreadExpands(songs, bias, a);
    SpreadIsPositive(songs, bias, a);
    VarianceAlgebra(|songs| as real, Sum(songs, bias), SqrSum(songs, bias), a, mean,
                    Variance(songs, bias), Spread(songs, bias, a));
  }

  lemma VarianceAlgebra(n: real, sum: real, sqr: real, a: real, mean: real, v: real, d: real)
    requires n > 0.0 && n * a == sum && n * mean == sqr && v == mean - a * a
    requires d == sqr - 2.0 * (a * sum) + n * (a * a) && d >= 0.0
    ensures v >= 0.0 && n * sqr >= sum * sum
    ensures v == 0.0 ==> d == 0.0
    ensures n * v == d
  {
    ScaledVariance(n, sum, sqr, a, mean);
    CancelNonNegative(n, v);
    Product(n, n * v);
  }

  lemma CancelNonNegative(c: real, p: real)
    requires 0.0 < c && c * p >= 0.0
    ensures p >= 0.0
  {
  }

  // ---- The draw test ----

  /** The table of areas between the mean and 0 to 4 deviations. */
  function Pdf(k: int): real {
    if k <= 0 then 0.0 else if k == 1 then 0.3413 else if k == 2 then 0.4772 else if k == 3 then 0.4987 else 0.5
  }

  function Ceil(z: real): int {
    -((-z).Floor)
  }

  /** The area between the mean and `z` deviations above it, read off the table linearly. */
  function HalfArea(z: real): real
    requires z >= 0.0
  {
    var k := Ceil(z);
    if z == 0.0 then 0.0
    else if k > 4 then 0.5
    else var ratio := k as real - z; Pdf(k - 1) * ratio + Pdf(k) * (1.0 - ratio)
  }

  function Area(x: real, avg: real, dev: real): real
    requires dev > 0.0
  {
    var z := (x - avg) / dev;
    if z < 0.0 then 0.5 - HalfArea(-z) else 0.5 + HalfArea(z)
  }

  /**
   With no deviation the quotient is not a number for a song rated the average, which is accepted. For any
   other it is infinite, and the table is read at a place no integer holds.
   */
  predicate OffTable(x: real, avg: real, dev: real) {
    dev == 0.0 && x != avg
  }

  predicate Accepts(x: real, avg: real, dev: real, draw: real)
    requires dev >= 0.0
  {
    if dev == 0.0 then x == avg else Area(x, avg, dev) > draw
  }

  lemma HalfAreaRange(z: real)
    requires z >= 0.0
    ensures 0.0 <= HalfArea(z) <= 0.5
    ensures 0.0 < z && Ceil(z) <= 4 ==> 1 <= Ceil(z) && Pdf(Ceil(z) - 1) <= HalfArea(z) <= Pdf(Ceil(z))
    ensures z > 0.0 && Ceil(z) > 4 ==> HalfArea(z) == 0.5
  {
    var k := Ceil(z);
    if z > 0.0 && k <= 4 {
      assert 1 <= k;
      Interpolates(Pdf(k - 1), Pdf(k), k as real - z);
    }
  }

  /** The table's values lie at whole deviations, straight lines join them, and beyond four all is one half. */
  lemma AreaTable(z: real)
    requires 0.0 <= z
    ensures HalfArea(0.0) == 0.0 && HalfArea(1.0) == 0.3413 && HalfArea(2.0) == 0.4772
    ensures HalfArea(3.0) == 0.4987 && HalfArea(4.0) == 0.5
    ensures z <= 1.0 ==> HalfArea(z) == 0.3413 * z
    ensures 1.0 <= z <= 2.0 ==> HalfArea(z) == 0.3413 + (z - 1.0) * (0.4772 - 0.3413)
    ensures 2.0 <= z <= 3.0 ==> HalfArea(z) == 0.4772 + (z - 2.0) * (0.4987 - 0.4772)
    ensures 3.0 <= z <= 4.0 ==> HalfArea(z) == 0.4987 + (z - 3.0) * (0.5 - 0.4987)
    ensures 4.0 <= z ==> HalfArea(z) == 0.5
  {
    CeilIs(0.0);
    CeilIs(1.0);
    CeilIs(2.0);
    CeilIs(3.0);
    CeilIs(4.0);
    CeilIs(z);
  }

  /** The least whole number not below `z`. */
  lemma CeilIs(z: real)
    ensures z <= Ceil(z) as real < z + 1.0
  {
  }

  /** A song rated `z` deviations above the average is accepted below one half more than the table's area, one
      rated as far below it below one half less. */
  lemma AreaInDeviations(z: real, avg: real, dev: real)
    requires dev > 0.0 && z >= 0.0
    ensures Area(avg + z * dev, avg, dev) == 0.5 + HalfArea(z)
    ensures Area(avg - z * dev, avg, dev) == 0.5 - HalfArea(z)
  {
    hide HalfArea;
    assert (avg + z * dev - avg) / dev == z && (avg - z * dev - avg) / dev == -z by { Deviations(z, avg, dev); }
    AreaTable(0.0);
  }

  lemma Deviations(z: real, avg: real, dev: real)
    requires dev > 0.0
    ensures (avg + z * dev - avg) / dev == z && (avg - z * dev - avg) / dev == -z
  {
    assert avg - z * dev - avg == -z * dev;
  }

  lemma Interpolates(low: real, high: real, ratio: real)
    requires low <= high && 0.0 <= ratio <= 1.0
    ensures low <= low * ratio + high * (1.0 - ratio) <= high
  {
    Product(high - low, ratio);
    Product(high - low, 1.0 - ratio);
    assert (high - low) * ratio == high * ratio - low * ratio;
  }

  lemma HalfAreaMonotone(y: real, z: real)
    requires 0.0 <= y <= z
    ensures HalfArea(y) <= HalfArea(z)
  {
    HalfAreaRange(y);
    HalfAreaRange(z);
    var j, k := Ceil(y), Ceil(z);
    if 0.0 < y && k <= 4 {
      assert 1 <= j <= k;
      if j == k {
        var p, q := k as real - y, k as real - z;
        Product(Pdf(k) - Pdf(k - 1), p - q);
      }
    }
  }

  /** For the same draw, a better rated song is accepted whenever a worse one is. */
  lemma AcceptanceMonotone(x1: real, x2: real, avg: real, dev: real, draw: real)
    requires dev >= 0.0 && x1 <= x2 && !OffTable(x1, avg, dev) && !OffTable(x2, avg, dev)
    ensures Accepts(x1, avg, dev, draw) ==> Accepts(x2, avg, dev, draw)
    ensures dev > 0.0 ==> 0.0 <= Area(x1, avg, dev) <= Area(x2, avg, dev) <= 1.0
  {
    if dev > 0.0 {
      var z1, z2 := (x1 - avg) / dev, (x2 - avg) / dev;
      DivideKeepsOrder(x1 - avg, x2 - avg, dev);
      if z2 < 0.0 {
        HalfAreaMonotone(-z2, -z1);
        HalfAreaRange(-z1);
        HalfAreaRange(-z2);
      } else if z1 >= 0.0 {
        HalfAreaMonotone(z1, z2);
        HalfAreaRange(z1);
        HalfAreaRange(z2);
      } else {
        HalfAreaRange(-z1);
        HalfAreaRange(z2);
      }
    }
  }

  lemma DivideKeepsOrder(p: real, q: real, c: real)
    requires c > 0.0 && p <= q
    ensures p / c <= q / c
  {
    assert (p / c) * c == p && (q / c) * c == q;
  }

  /** Ratings equally far above and below the average share the whole range of draws. */
  lemma AreaSymmetric(t: real, avg: real, dev: real)
    requires dev > 0.0
    ensures Area(avg + t, avg, dev) + Area(avg - t, avg, dev) == 1.0
  {
    assert (avg + t - avg) / dev == t / dev;
    assert (avg - t - avg) / dev == -(t / dev);
  }

  lemma {:induction false} SomeSongAtLeast(songs: seq<Stat>, bias: real, r: real)
    requires songs != [] && Sum(songs, bias) >= |songs| as real * r
    ensures exists i :: 0 <= i < |songs| && GetRating(songs[i], bias) >= r
  {
    hide GetRating;
    if GetRating(songs[0], bias) < r {
      assert |songs| as real * r == |songs[1..]| as real * r + r;
      assert songs[1..] != [];
      SomeSongAtLeast(songs[1..], bias, r);
      var i :| 0 <= i < |songs[1..]| && GetRating(songs[1..][i], bias) >= r;
      assert songs[i + 1] == songs[1..][i];
    }
  }

  /** Some song is accepted by at least half of all draws, so the retry loop always has a way out. */
  lemma SomeSongIsLikely(songs: seq<Stat>, bias: real, dev: real)
    requires songs != [] && dev > 0.0
    ensures exists i :: 0 <= i < |songs| && Area(GetRating(songs[i], bias), Average(songs, bias), dev) >= 0.5
  {
    var avg := Average(songs, bias);
    assert |songs| as real * avg == Sum(songs, bias);
    SomeSongAtLeast(songs, bias, avg);
    var i :| 0 <= i < |songs| && GetRating(songs[i], bias) >= avg;
    DivideKeepsOrder(0.0, GetRating(songs[i], bias) - avg, dev);
    HalfAreaRange((GetRating(songs[i], bias) - avg) / dev);
  }
}
