/**
 The scan-line arithmetic of a solid polygon: edges, the rows they cross, the column at which they
 cross each row, and the even-odd rule that says which columns of a row are filled.
 */
module PolygonMath {
  import opened Common

  type Point = (int, int)

  /** A non-horizontal edge, upper endpoint first. */
  datatype Edge = Edge(x0: int, y0: int, x1: int, y1: int) {
    ghost predicate Valid() { y0 < y1 }
  }

  /** An active-table entry: the last row, the current column and its pending fraction. */
  datatype Entry = Entry(ymax: int, x: int, num: int, den: int, inc: int) {

    /** "update x values": the entry for the next row. */
    function Step(): Entry
      requires den > 0
    {
      if num == 0 then this
      else if num > 0 then
        if num < den then
          if inc + num >= den then this.(x := x + 1, inc := inc + num - den) else this.(inc := inc + num)
        else
          var tx := (inc + num) / den;
          this.(x := x + tx, inc := inc + num - den * tx)
      else
        if -num < den then
          if inc - num >= den then this.(x := x - 1, inc := inc - num - den) else this.(inc := inc - num)
        else
          var tx := (inc - num) / den;
          this.(x := x - tx, inc := inc - num - den * tx)
    }
  }

  /** The entry of an edge on row `y`, in closed form: quotient and remainder of the edge's slope. */
  function EntryAt(e: Edge, y: int): Entry
    requires e.y0 < e.y1
  {
    var num, den := e.x1 - e.x0, e.y1 - e.y0;
    var run := (y - e.y0) * Abs(num);
    Entry(e.y1, if num < 0 then e.x0 - run / den else e.x0 + run / den, num, den, run % den)
  }

  lemma DivModUnique(n: int, d: int, q: int, r: int)
    requires d > 0 && n == d * q + r && 0 <= r < d
    ensures n / d == q && n % d == r
  {
    var q', r' := n / d, n % d;
    assert d * (q - q') == r' - r;
    CancelFactor(d, q - q', 1);
    CancelFactor(d, -1, q - q');
  }

  /** One addition of the slope moves quotient and remainder together. */
  lemma CarryStep(run: int, n: int, d: int)
    requires d > 0
    ensures (run + n) / d == run / d + (run % d + n) / d
    ensures (run + n) % d == run % d + n - d * ((run % d + n) / d)
  {
    var q, r := run / d, run % d;
    var c, s := (r + n) / d, (r + n) % d;
    assert run == d * q + r;
    assert r + n == d * c + s;
    assert d * (q + c) == d * q + d * c;
    DivModUnique(run + n, d, q + c, s);
  }

  /** Stepping an entry row by row never drifts from the closed form. */
  lemma StepIsExact(e: Edge, y: int)
    requires e.Valid() && e.y0 <= y
    ensures EntryAt(e, y).Step() == EntryAt(e, y + 1)
  {
    var num, den := e.x1 - e.x0, e.y1 - e.y0;
    var n := Abs(num);
    var run := (y - e.y0) * n;
    assert (y + 1 - e.y0) * n == run + n;
    CarryStep(run, n, den);
    var r := run % den;
    if n < den {
      if r + n >= den {
        DivModUnique(r + n, den, 1, r + n - den);
      } else {
        DivModUnique(r + n, den, 0, r + n);
      }
    }
  }

  // ---- The edges of a closed polygon and those a row crosses ----

  function Previous(points: seq<Point>, i: int): Point
    requires 0 <= i < |points|
  {
    if i == 0 then points[|points| - 1] else points[i - 1]
  }

  function MakeEdge(p: Point, q: Point): Edge {
    if p.1 > q.1 then Edge(q.0, q.1, p.0, p.1) else Edge(p.0, p.1, q.0, q.1)
  }

  ghost predicate AllValid(edges: seq<Edge>) {
    forall i | 0 <= i < |edges| :: edges[i].Valid()
  }

  /** The non-horizontal edges ending at the first `n` points. */
  ghost function Edges(points: seq<Point>, n: nat): (r: seq<Edge>)
    requires n <= |points|
    ensures AllValid(r)
  {
    if n == 0 then [] else
      var p, q := Previous(points, n - 1), points[n - 1];
      Edges(points, n - 1) + if p.1 == q.1 then [] else [MakeEdge(p, q)]
  }

  /** The entries of the edges with y0 <= y < y1, in the order of the edges. */
  ghost function Crossing(edges: seq<Edge>, y: int): (r: seq<Entry>)
    requires AllValid(edges)
    ensures forall i | 0 <= i < |r| :: r[i].den > 0
  {
    if |edges| == 0 then [] else
      var e, others := edges[|edges| - 1], Crossing(edges[..|edges| - 1], y);
      if e.y0 <= y < e.y1 then others + [EntryAt(e, y)] else others
  }

  ghost predicate Reached(p: Point, y: int) {
    p.1 <= y
  }

  /** A row crosses an edge exactly when its endpoints are on different sides of the row. */
  lemma {:induction false} CrossingParity(points: seq<Point>, n: nat, y: int)
    requires 0 < n <= |points|
    ensures |Crossing(Edges(points, n), y)| % 2
            == if Reached(points[|points| - 1], y) == Reached(points[n - 1], y) then 0 else 1
  {
    hide EntryAt;
    var p, q := Previous(points, n - 1), points[n - 1];
    var before, after := Edges(points, n - 1), Edges(points, n);
    if n > 1 {
      CrossingParity(points, n - 1, y);
    }
    if p.1 == q.1 {
      assert after == before;
    } else {
      assert after[..|after| - 1] == before;
      assert MakeEdge(p, q).y0 <= y < MakeEdge(p, q).y1 <==> Reached(p, y) != Reached(q, y);
    }
  }

  /** Every row crosses a closed polygon an even number of times. */
  lemma {:induction false} CrossingsAreEven(points: seq<Point>, y: int)
    requires 0 < |points|
    ensures |Crossing(Edges(points, |points|), y)| % 2 == 0
  {
    CrossingParity(points, |points|, y);
  }

  // ---- The even-odd rule ----

  /** How many crossings lie strictly left of column `x`. */
  ghost function CountLess(s: seq<Entry>, x: int): nat {
    if |s| == 0 then 0 else (if s[0].x < x then 1 else 0) + CountLess(s[1..], x)
  }

  /**
   Column `x` of a row is filled when it lies on a crossing, or has an odd number of crossings to its
   left. The order of the crossings plays no part.
   */
  ghost predicate FilledColumn(s: seq<Entry>, x: int) {
    CountLess(s, x) % 2 == 1 || CountLess(s, x + 1) > CountLess(s, x)
  }

  /** What the scan fills. */
  ghost predicate Scanned(points: seq<Point>, x: int, y: int) {
    FilledColumn(Crossing(Edges(points, |points|), y), x)
  }

  lemma {:induction false} CountLessAppend(s: seq<Entry>, t: seq<Entry>, x: int)
    ensures CountLess(s + t, x) == CountLess(s, x) + CountLess(t, x)
  {
    if |s| == 0 {
      assert s + t == t;
    } else {
      assert (s + t)[1..] == s[1..] + t;
      CountLessAppend(s[1..], t, x);
    }
  }

  lemma {:induction false} CountLessPermutes(s: seq<Entry>, t: seq<Entry>, x: int)
    requires multiset(s) == multiset(t)
    ensures CountLess(s, x) == CountLess(t, x)
  {
    if |s| == 0 {
      assert |t| == |multiset(t)| == 0;
    } else {
      var i := MatchFirst(s, t);
      CountLessPermutes(s[1..], t[..i] + t[i + 1..], x);
      CountLessAppend(t[..i], t[i + 1..], x);
      CountLessAppend(t[..i], t[i..], x);
      assert t == t[..i] + t[i..] && t[i..][1..] == t[i + 1..];
    }
  }

  /** Where the first element of one sequence sits in a permutation of it. */
  lemma MatchFirst<T>(s: seq<T>, t: seq<T>) returns (i: int)
    requires multiset(s) == multiset(t) && |s| > 0
    ensures 0 <= i < |t| && t[i] == s[0]
    ensures multiset(s[1..]) == multiset(t[..i] + t[i + 1..])
  {
    assert s[0] in multiset(s);
    assert s[0] in t;
    i :| 0 <= i < |t| && t[i] == s[0];
    var rest := t[..i] + t[i + 1..];
    assert s == [s[0]] + s[1..];
    assert t == t[..i] + [t[i]] + t[i + 1..];
    assert multiset(s) == multiset(s[1..]) + multiset{s[0]};
    assert multiset(t) == multiset(rest) + multiset{t[i]};
    assert multiset(s[1..]) == multiset(s) - multiset{s[0]};
    assert multiset(rest) == multiset(t) - multiset{t[i]};
  }

  ghost predicate Sorted(s: seq<Entry>) {
    forall i, j | 0 <= i < j < |s| :: s[i].x <= s[j].x
  }

  lemma {:induction false} CountLessAll(s: seq<Entry>, x: int)
    requires forall i | 0 <= i < |s| :: s[i].x < x
    ensures CountLess(s, x) == |s|
  {
    if |s| > 0 { CountLessAll(s[1..], x); }
  }

  lemma {:induction false} CountLessMonotone(s: seq<Entry>, x: int)
    ensures CountLess(s, x) <= CountLess(s, x + 1)
  {
    if |s| > 0 { CountLessMonotone(s[1..], x); }
  }

  /** Pairing a sorted row: two more crossings fill exactly the span between them, ends included. */
  lemma PairFillsSpan(s: seq<Entry>, a: Entry, b: Entry, x: int)
    requires Sorted(s + [a, b]) && |s| % 2 == 0
    ensures FilledColumn(s + [a, b], x) <==> FilledColumn(s, x) || a.x <= x <= b.x
  {
    var t := s + [a, b];
    CountLessAppend(s, [a, b], x);
    CountLessAppend(s, [a, b], x + 1);
    assert [a, b][1..] == [b] && [b][1..] == [];
    forall z ensures CountLess([a, b], z) == (if a.x < z then 1 else 0) + (if b.x < z then 1 else 0) {
      assert CountLess([b], z) == if b.x < z then 1 else 0;
    }
    forall i | 0 <= i < |s| ensures s[i].x <= a.x {
      assert t[i] == s[i] && t[|s|] == a;
    }
    assert a.x <= b.x by { assert t[|s|] == a && t[|s| + 1] == b; }
    CountLessMonotone(s, x);
    if a.x <= x {
      CountLessAll(s, x + 1);
      if a.x < x { CountLessAll(s, x); }
    }
  }
}
