/**
 The life of an edge in the scan: it starts in the edge table, is merged into the active table,
 expires, and is stepped to the next row. Each stage is a sequence of closed-form entries; the lemmas
 say how one stage gives the next, up to the order of the table.
 */
module ActiveEdges {
  import opened PolygonMath

  /** Which edges a table holds at row `y`. */
  datatype Stage =
    | Starting  // edgeTable[y]
    | Carried   // the active table as the previous row left it
    | Merged    // the active table once the new edges are in

  /** Edges wholly above or below the clip rows are dropped. */
  predicate Kept(e: Edge, top: int, bottom: int) {
    !(e.y1 < top || e.y0 >= bottom)
  }

  /** The row an edge enters the table: an edge from above the clip starts at its top. */
  function StartRow(e: Edge, top: int): int {
    if e.y0 < top then top else e.y0
  }

  ghost predicate At(stage: Stage, e: Edge, top: int, bottom: int, y: int) {
    Kept(e, top, bottom) &&
    match stage
    case Starting => StartRow(e, top) == y
    case Carried => StartRow(e, top) < y <= e.y1
    case Merged => StartRow(e, top) <= y <= e.y1
  }

  ghost function Table(stage: Stage, edges: seq<Edge>, top: int, bottom: int, y: int): (r: seq<Entry>)
    requires AllValid(edges)
    ensures forall i | 0 <= i < |r| :: r[i].den > 0
  {
    if |edges| == 0 then [] else
      var e, others := edges[|edges| - 1], Table(stage, edges[..|edges| - 1], top, bottom, y);
      if At(stage, e, top, bottom, y) then others + [EntryAt(e, y)] else others
  }

  // ---- Per-entry operations, as maps over the table ----

  ghost function FlatMap(f: Entry -> seq<Entry>, s: seq<Entry>): seq<Entry> {
    if |s| == 0 then [] else f(s[0]) + FlatMap(f, s[1..])
  }

  ghost function DropAt(y: int): Entry -> seq<Entry> {
    (e: Entry) => if e.ymax == y then [] else [e]
  }

  ghost function StepUp(): Entry -> seq<Entry> {
    (e: Entry) => if e.den > 0 then [e.Step()] else [e]
  }

  lemma {:induction false} FlatMapAppend(f: Entry -> seq<Entry>, s: seq<Entry>, t: seq<Entry>)
    ensures FlatMap(f, s + t) == FlatMap(f, s) + FlatMap(f, t)
  {
    if |s| == 0 {
      assert s + t == t;
    } else {
      assert (s + t)[1..] == s[1..] + t;
      FlatMapAppend(f, s[1..], t);
    }
  }

  lemma FlatMapOne(f: Entry -> seq<Entry>, e: Entry)
    ensures FlatMap(f, [e]) == f(e)
  {
    assert [e][1..] == [];
    assert f(e) + [] == f(e);
  }

  lemma {:induction false} FlatMapPermutes(f: Entry -> seq<Entry>, s: seq<Entry>, t: seq<Entry>)
    requires multiset(s) == multiset(t)
    ensures multiset(FlatMap(f, s)) == multiset(FlatMap(f, t))
  {
    hide FlatMap;
    if |s| == 0 {
      assert |t| == |multiset(t)| == 0;
    } else {
      var i := MatchFirst(s, t);
      FlatMapPermutes(f, s[1..], t[..i] + t[i + 1..]);
      FlatMapAppend(f, t[..i], t[i + 1..]);
      FlatMapSplit(f, t[..i], t[i], t[i + 1..]);
      FlatMapSplit(f, [], s[0], s[1..]);
      assert t == t[..i] + ([t[i]] + t[i + 1..]) && s == [] + ([s[0]] + s[1..]);
      MovesToFront(FlatMap(f, t[..i]), f(s[0]), FlatMap(f, t[i + 1..]));
      FlatMapNothing(f);
      assert [] + (f(s[0]) + FlatMap(f, s[1..])) == f(s[0]) + FlatMap(f, s[1..]);
    }
  }

  lemma {:induction false} FlatMapNothing(f: Entry -> seq<Entry>)
    ensures FlatMap(f, []) == []
  {
  }

  lemma {:induction false} MovesToFront(a: seq<Entry>, b: seq<Entry>, c: seq<Entry>)
    ensures multiset(a + (b + c)) == multiset(b) + multiset(a + c)
  {
    assert a + (b + c) == (a + b) + c;
  }

  lemma {:induction false} FlatMapSplit(f: Entry -> seq<Entry>, a: seq<Entry>, e: Entry, b: seq<Entry>)
    ensures FlatMap(f, a + ([e] + b)) == FlatMap(f, a) + (f(e) + FlatMap(f, b))
  {
    hide FlatMap;
    FlatMapAppend(f, a, [e] + b);
    FlatMapAppend(f, [e], b);
    FlatMapOne(f, e);
  }

  // ---- From one stage to the next ----

  lemma {:induction false} MergeGivesMerged(edges: seq<Edge>, top: int, bottom: int, y: int)
    requires AllValid(edges)
    ensures multiset(Table(Merged, edges, top, bottom, y))
            == multiset(Table(Carried, edges, top, bottom, y)) + multiset(Table(Starting, edges, top, bottom, y))
  {
    hide EntryAt;
    if |edges| > 0 {
      MergeGivesMerged(edges[..|edges| - 1], top, bottom, y);
    }
  }

  /** After the expired edges are deleted, the table holds exactly the edges with y0 <= y < y1. */
  lemma {:induction false} ExpiryGivesCrossing(edges: seq<Edge>, top: int, bottom: int, y: int)
    requires AllValid(edges) && top <= y < bottom
    ensures FlatMap(DropAt(y), Table(Merged, edges, top, bottom, y)) == Crossing(edges, y)
  {
    if |edges| > 0 {
      var front, e := edges[..|edges| - 1], edges[|edges| - 1];
      ExpiryGivesCrossing(front, top, bottom, y);
      if At(Merged, e, top, bottom, y) {
        FlatMapAppend(DropAt(y), Table(Merged, front, top, bottom, y), [EntryAt(e, y)]);
        FlatMapOne(DropAt(y), EntryAt(e, y));
        assert EntryAt(e, y).ymax == e.y1;
      }
    }
  }

  /** Stepping every crossing gives the next row's table before its new edges. */
  lemma {:induction false} StepGivesCarried(edges: seq<Edge>, top: int, bottom: int, y: int)
    requires AllValid(edges) && top <= y < bottom
    ensures FlatMap(StepUp(), Crossing(edges, y)) == Table(Carried, edges, top, bottom, y + 1)
  {
    hide EntryAt;
    if |edges| > 0 {
      var front, e := edges[..|edges| - 1], edges[|edges| - 1];
      StepGivesCarried(front, top, bottom, y);
      if e.y0 <= y < e.y1 {
        FlatMapAppend(StepUp(), Crossing(front, y), [EntryAt(e, y)]);
        FlatMapOne(StepUp(), EntryAt(e, y));
        EntryHasSlope(e, y);
        StepIsExact(e, y);
      }
    }
  }

  lemma EntryHasSlope(e: Edge, y: int)
    requires e.Valid()
    ensures EntryAt(e, y).den > 0
  {
  }

  /** Rows outside the scanned range are crossed by no kept edge. */
  lemma {:induction false} NoCrossingOutside(edges: seq<Edge>, top: int, bottom: int, minY: int, maxY: int, y: int)
    requires AllValid(edges) && top <= y < bottom
    requires forall i | 0 <= i < |edges| && Kept(edges[i], top, bottom) ::
               minY <= StartRow(edges[i], top) && edges[i].y1 <= maxY
    requires y < minY || maxY < y
    ensures Crossing(edges, y) == []
  {
    if |edges| > 0 {
      var front, e := edges[..|edges| - 1], edges[|edges| - 1];
      NoCrossingOutside(front, top, bottom, minY, maxY, y);
    }
  }

  lemma {:induction false} NothingCarriedAtStart(edges: seq<Edge>, top: int, bottom: int, minY: int)
    requires AllValid(edges)
    requires forall i | 0 <= i < |edges| && Kept(edges[i], top, bottom) :: minY <= StartRow(edges[i], top)
    ensures Table(Carried, edges, top, bottom, minY) == []
  {
    if |edges| > 0 {
      var front, e := edges[..|edges| - 1], edges[|edges| - 1];
      NothingCarriedAtStart(front, top, bottom, minY);
    }
  }

  // ---- The bubble sort's measure ----

  /** Pairs of entries in the wrong order. */
  ghost function Inversions(s: seq<Entry>): nat {
    if |s| == 0 then 0 else CountLess(s[1..], s[0].x) + Inversions(s[1..])
  }

  /** Swapping one neighbouring pair that is out of order removes exactly one inversion. */
  lemma {:induction false} SwapRemovesInversion(s: seq<Entry>, i: nat)
    requires i + 1 < |s| && s[i].x > s[i + 1].x
    ensures Inversions(s[i := s[i + 1]][i + 1 := s[i]]) == Inversions(s) - 1
    ensures multiset(s[i := s[i + 1]][i + 1 := s[i]]) == multiset(s)
  {
    var t := s[i := s[i + 1]][i + 1 := s[i]];
    if i == 0 {
      var rest := s[2..];
      assert s[1..][1..] == rest && t[1..][1..] == rest;
      assert Inversions(s) == CountLess(s[1..], s[0].x) + CountLess(rest, s[1].x) + Inversions(rest);
      assert Inversions(t) == CountLess(t[1..], s[1].x) + CountLess(rest, s[0].x) + Inversions(rest);
    } else {
      var s', t' := s[1..], t[1..];
      assert t' == s'[i - 1 := s'[i]][i := s'[i - 1]];
      SwapRemovesInversion(s', i - 1);
      CountLessPermutes(s', t', s[0].x);
    }
  }
}
