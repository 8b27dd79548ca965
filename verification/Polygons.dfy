/**
 vfdlib's solid polygon: the edge table, the active edge table kept row by row, and the theorem that
 the scan paints exactly the even-odd interior of the polygon inside the clip.
 */
module Polygons {
  import opened Common
  import opened Framebuffer
  import opened Spans
  import opened PolygonMath
  import opened PolygonPictures
  import opened ActiveEdges

  ghost predicate AllSloped(s: seq<Entry>) {
    forall i | 0 <= i < |s| :: s[i].den > 0
  }

  // ---- The edge table ----

  ghost predicate Bounded(edges: seq<Edge>, clip: Rect, minY: int, maxY: int) {
    forall i | 0 <= i < |edges| && Kept(edges[i], clip.yTop, clip.yBottom) ::
      minY <= StartRow(edges[i], clip.yTop) && edges[i].y1 <= maxY
  }

  ghost predicate TableHolds(table: seq<seq<Entry>>, edges: seq<Edge>, clip: Rect)
    requires AllValid(edges)
  {
    && |table| == HEIGHT
    && forall y | 0 <= y < HEIGHT ::
         multiset(table[y]) == multiset(Table(Starting, edges, clip.yTop, clip.yBottom, y))
  }

  /** A new entry, "jump started" to the clip's top row when the edge begins above it. */
  method NewEntry(e: Edge, clip: Rect) returns (entry: Entry, row: int)
    requires e.Valid() && Kept(e, clip.yTop, clip.yBottom)
    ensures row == StartRow(e, clip.yTop) && (row == clip.yTop || clip.yTop < row < clip.yBottom)
    ensures entry == EntryAt(e, row)
  {
    var num, den := e.x1 - e.x0, e.y1 - e.y0;
    if e.y0 < clip.yTop {
      var ty := clip.yTop - e.y0;
      if num < 0 {
        entry := Entry(e.y1, e.x0 - (ty * -num) / den, num, den, (ty * -num) % den);
      } else {
        entry := Entry(e.y1, e.x0 + (ty * num) / den, num, den, (ty * num) % den);
      }
      row := clip.yTop;
    } else {
      entry, row := Entry(e.y1, e.x0, num, den, 0), e.y0;
      assert (row - e.y0) * Abs(num) == 0;
      DivModUnique(0, den, 0, 0);
    }
  }

  lemma TableAddsEdge(table: seq<seq<Entry>>, edges: seq<Edge>, e: Edge, clip: Rect, row: int)
    requires AllValid(edges) && e.Valid() && TableHolds(table, edges, clip)
    requires Kept(e, clip.yTop, clip.yBottom) && row == StartRow(e, clip.yTop) && 0 <= row < HEIGHT
    ensures TableHolds(table[row := [EntryAt(e, row)] + table[row]], edges + [e], clip)
  {
    hide EntryAt;
    assert (edges + [e])[..|edges|] == edges;
  }

  lemma TableSkipsEdge(table: seq<seq<Entry>>, edges: seq<Edge>, e: Edge, clip: Rect)
    requires AllValid(edges) && e.Valid() && TableHolds(table, edges, clip)
    requires !Kept(e, clip.yTop, clip.yBottom)
    ensures TableHolds(table, edges + [e], clip)
  {
    hide EntryAt;
    assert (edges + [e])[..|edges|] == edges;
  }

  lemma {:induction false} EmptyTable(points: seq<Point>, clip: Rect)
    ensures TableHolds(seq(HEIGHT, _ => []), Edges(points, 0), clip)
    ensures Bounded(Edges(points, 0), clip, clip.yBottom, clip.yTop)
  {
  }

  lemma {:induction false} EdgesGrow(points: seq<Point>, i: nat)
    requires i < |points|
    ensures var p, q := Previous(points, i), points[i];
            Edges(points, i + 1) == if p.1 == q.1 then Edges(points, i) else Edges(points, i) + [MakeEdge(p, q)]
  {
  }

  lemma BoundsGrow(edges: seq<Edge>, e: Edge, clip: Rect, minY: int, maxY: int, minY': int, maxY': int)
    requires Bounded(edges, clip, minY, maxY) && minY' <= minY && maxY <= maxY'
    requires Kept(e, clip.yTop, clip.yBottom) ==> minY' <= StartRow(e, clip.yTop) && e.y1 <= maxY'
    ensures Bounded(edges + [e], clip, minY', maxY')
  {
  }

  /** polyMinY and polyMaxY stay within the clip's rows; a clip without rows has none to scan. */
  ghost predicate RowBounds(clip: Rect, minY: int, maxY: int) {
    Min(clip.yTop, clip.yBottom) <= minY <= clip.yBottom && clip.yTop <= maxY
  }

  /** The side reaches from above the clip's end to its start. */
  predicate Reaches(p: Point, q: Point, clip: Rect) {
    p.1 != q.1 && (clip.yTop <= p.1 || clip.yTop <= q.1) && (p.1 < clip.yBottom || q.1 < clip.yBottom)
  }

  /**
   The edge table has one row for each row of the screen. A clip that starts below the screen indexes
   past it, unless no side reaches from above the clip's end to its start.
   */
  ghost predicate TableFits(points: seq<Point>, clip: Rect) {
    clip.yTop < HEIGHT || forall i: nat | i < |points| :: !Reaches(Previous(points, i), points[i], clip)
  }

  /** "add a new entry to the edge table, clipping if necessary". */
  method AddEdge(table: seq<seq<Entry>>, e: Edge, clip: Rect, minY: int, maxY: int, ghost edges: seq<Edge>)
    returns (table': seq<seq<Entry>>, minY': int, maxY': int)
    requires clip.WithinScreen() && e.Valid() && AllValid(edges)
    requires clip.yTop < HEIGHT || !Kept(e, clip.yTop, clip.yBottom)
    requires |table| == HEIGHT && TableHolds(table, edges, clip)
    requires RowBounds(clip, minY, maxY) && Bounded(edges, clip, minY, maxY)
    ensures |table'| == HEIGHT && TableHolds(table', edges + [e], clip)
    ensures RowBounds(clip, minY', maxY') && Bounded(edges + [e], clip, minY', maxY')
  {
    hide EntryAt, TableHolds, Bounded;
    table', minY', maxY' := table, minY, maxY;
    if e.y1 < clip.yTop || e.y0 >= clip.yBottom {
      TableSkipsEdge(table, edges, e, clip);
    } else {
      var entry, row := NewEntry(e, clip);
      TableAddsEdge(table, edges, e, clip, row);
      table' := table[row := [entry] + table[row]];
      if row < minY { minY' := row; }
      if e.y1 > maxY { maxY' := e.y1; }
    }
    BoundsGrow(edges, e, clip, minY, maxY, minY', maxY');
  }

  lemma SideIsKept(p: Point, q: Point, clip: Rect)
    requires p.1 != q.1
    ensures Kept(MakeEdge(p, q), clip.yTop, clip.yBottom) <==> Reaches(p, q, clip)
  {
  }

  method BuildEdgeTable(points: seq<Point>, clip: Rect) returns (table: seq<seq<Entry>>, minY: int, maxY: int)
    requires |points| > 0 && clip.WithinScreen() && TableFits(points, clip)
    ensures TableHolds(table, Edges(points, |points|), clip)
    ensures RowBounds(clip, minY, maxY)
    ensures Bounded(Edges(points, |points|), clip, minY, maxY)
  {
    table := seq(HEIGHT, _ => []);
    minY, maxY := clip.yBottom, clip.yTop;
    EmptyTable(points, clip);
    hide EntryAt, Edges, TableHolds, Bounded;
    var prev, i := points[|points| - 1], 0;
    while i < |points|
      invariant 0 <= i <= |points|
      invariant prev == points[if i == 0 then |points| - 1 else i - 1]
      invariant |table| == HEIGHT && TableHolds(table, Edges(points, i), clip)
      invariant RowBounds(clip, minY, maxY)
      invariant Bounded(Edges(points, i), clip, minY, maxY)
    {
      var p, q := prev, points[i];
      assert prev == Previous(points, i);
      if p.1 != q.1 { SideIsKept(p, q, clip); }
      EdgesGrow(points, i);
      if p.1 != q.1 {
        table, minY, maxY := AddEdge(table, MakeEdge(p, q), clip, minY, maxY, Edges(points, i));
      }
      prev, i := q, i + 1;
    }
  }

  // ---- The active table, one operation of the scan at a time ----

  method InsertSorted(aet: seq<Entry>, e: Entry) returns (r: seq<Entry>)
    requires Sorted(aet)
    ensures Sorted(r) && multiset(r) == multiset(aet) + multiset{e}
  {
    var i := 0;
    while i < |aet| && aet[i].x < e.x
      invariant 0 <= i <= |aet|
      invariant forall j | 0 <= j < i :: aet[j].x < e.x
    {
      i := i + 1;
    }
    r := aet[..i] + [e] + aet[i..];
    InsertedIsSorted(aet, e, i);
  }

  lemma SortedJoin(a: seq<Entry>, b: seq<Entry>, x: int)
    requires Sorted(a) && Sorted(b)
    requires (forall j | 0 <= j < |a| :: a[j].x <= x) && (b != [] ==> x <= b[0].x)
    ensures Sorted(a + b)
  {
    var r := a + b;
    forall j, k | 0 <= j < k < |r|
      ensures r[j].x <= r[k].x
    {
      if |a| <= k { assert r[k] == b[k - |a|] && b[0].x <= b[k - |a|].x; }
    }
  }

  lemma InsertedIsSorted(aet: seq<Entry>, e: Entry, i: nat)
    requires Sorted(aet) && i <= |aet|
    requires (forall j | 0 <= j < i :: aet[j].x < e.x) && (i < |aet| ==> e.x <= aet[i].x)
    ensures var r := aet[..i] + [e] + aet[i..];
            Sorted(r) && multiset(r) == multiset(aet) + multiset{e}
  {
    SortedJoin(aet[..i], [e], e.x);
    SortedJoin(aet[..i] + [e], aet[i..], e.x);
    hide Sorted;
    assert aet == aet[..i] + aet[i..];
    OneMore(aet[..i], e, aet[i..]);
  }

  lemma OneMore(a: seq<Entry>, e: Entry, b: seq<Entry>)
    ensures multiset(a + [e] + b) == multiset(a + b) + multiset{e}
  {
  }

  method MergeNewEdges(aet: seq<Entry>, fresh': seq<Entry>) returns (r: seq<Entry>)
    requires Sorted(aet)
    ensures Sorted(r) && multiset(r) == multiset(aet) + multiset(fresh')
  {
    r := aet;
    var i := 0;
    while i < |fresh'|
      invariant 0 <= i <= |fresh'|
      invariant Sorted(r) && multiset(r) == multiset(aet) + multiset(fresh'[..i])
    {
      r := InsertSorted(r, fresh'[i]);
      assert fresh'[..i + 1] == fresh'[..i] + [fresh'[i]];
      i := i + 1;
    }
    assert fresh'[..i] == fresh';
  }

  method DeleteExpired(aet: seq<Entry>, y: int) returns (r: seq<Entry>)
    requires Sorted(aet)
    ensures Sorted(r) && r == FlatMap(DropAt(y), aet)
  {
    r := [];
    var i := 0;
    assert aet[..0] == [];
    while i < |aet|
      invariant 0 <= i <= |aet|
      invariant r == FlatMap(DropAt(y), aet[..i])
      invariant Sorted(r)
      invariant forall j, k | 0 <= j < |r| && i <= k < |aet| :: r[j].x <= aet[k].x
    {
      assert aet[..i + 1] == aet[..i] + [aet[i]];
      FlatMapAppend(DropAt(y), aet[..i], [aet[i]]);
      FlatMapOne(DropAt(y), aet[i]);
      if aet[i].ymax != y {
        r := r + [aet[i]];
      }
      i := i + 1;
    }
    assert aet[..i] == aet;
  }

  method StepEdges(aet: seq<Entry>) returns (r: seq<Entry>)
    requires AllSloped(aet)
    ensures r == FlatMap(StepUp(), aet)
  {
    r := [];
    var i := 0;
    assert aet[..0] == [];
    while i < |aet|
      invariant 0 <= i <= |aet|
      invariant r == FlatMap(StepUp(), aet[..i])
    {
      assert aet[..i + 1] == aet[..i] + [aet[i]];
      FlatMapAppend(StepUp(), aet[..i], [aet[i]]);
      FlatMapOne(StepUp(), aet[i]);
      r := r + [aet[i].Step()];
      i := i + 1;
    }
    assert aet[..i] == aet;
  }

  /** The bubble sort: it terminates, and leaves the same entries in order of column. */
  method BubbleSort(aet: seq<Entry>) returns (r: seq<Entry>)
    ensures Sorted(r) && multiset(r) == multiset(aet)
  {
    r := aet;
    var sorted := false;
    while !sorted
      invariant multiset(r) == multiset(aet)
      invariant sorted ==> Sorted(r)
      decreases Inversions(r), if sorted then 0 else 1
    {
      sorted := true;
      ghost var before := Inversions(r);
      var i := 0;
      while i < |r|
        invariant 0 <= i <= |r|
        invariant multiset(r) == multiset(aet)
        invariant if sorted then Inversions(r) == before else Inversions(r) < before
        invariant sorted ==> forall j | 0 <= j < i && j + 1 < |r| :: r[j].x <= r[j + 1].x
      {
        if i + 1 < |r| && r[i].x > r[i + 1].x {
          sorted := false;
          SwapRemovesInversion(r, i);
          r := r[i := r[i + 1]][i + 1 := r[i]];
        }
        i := i + 1;
      }
      if sorted { NeighboursInOrder(r); }
    }
  }

  lemma {:induction false} NeighboursInOrder(s: seq<Entry>)
    requires forall j | 0 <= j && j + 1 < |s| :: s[j].x <= s[j + 1].x
    ensures Sorted(s)
  {
    if |s| > 1 {
      var rest := s[1..];
      forall j | 0 <= j && j + 1 < |rest| ensures rest[j].x <= rest[j + 1].x {
        assert s[j + 1].x <= s[j + 1 + 1].x;
      }
      NeighboursInOrder(rest);
      assert s[0].x <= s[0 + 1].x;
      forall i, j | 0 <= i < j < |s| ensures s[i].x <= s[j].x {
        if i > 0 { assert rest[i - 1].x <= rest[j - 1].x; }
        else { assert rest[0].x <= rest[j - 1].x; }
      }
    }
  }

  // ---- Painting ----

  ghost function RowFill(s: seq<Entry>, clip: Rect, y: int): Region {
    iset p: (int, int) | p.1 == y && clip.xLeft <= p.0 < clip.xRight && FilledColumn(s, p.0)
  }

  /** "draw scanlines": the inclusive span between each pair of crossings, cut to the clip. */
  method DrawScanline(buffer: array<bv8>, clip: Rect, s: seq<Entry>, y: int, shade: Shade)
    requires buffer.Length == BUFFER_SIZE && clip.WithinScreen() && clip.yTop <= y < clip.yBottom
    requires Sorted(s) && |s| % 2 == 0
    modifies buffer
    ensures Painted(old(buffer[..]), buffer[..], RowFill(s, clip, y), shade)
  {
    ghost var b0 := buffer[..];
    PaintedNothing(b0, shade);
    assert RowFill(s[..0], clip, y) == iset{};
    hide Pixel, Painted, FilledColumn, HSpan;
    var i := 0;
    while i < |s|
      invariant 0 <= i <= |s| && i % 2 == 0
      invariant Painted(b0, buffer[..], RowFill(s[..i], clip, y), shade)
    {
      var tx := if s[i].x > clip.xLeft then s[i].x else clip.xLeft;
      var right := if s[i + 1].x < clip.xRight - 1 then s[i + 1].x else clip.xRight - 1;
      ghost var b1 := buffer[..];
      DrawLineHorizUnclipped(buffer, y, tx, right - tx + 1, shade);
      PaintedThen(b0, b1, buffer[..], RowFill(s[..i], clip, y), HSpan(y, tx, right + 1), shade);
      RowFillGrows(s, i, clip, y, tx, right);
      i := i + 2;
    }
    assert s[..i] == s;
  }

  lemma RowFillGrows(s: seq<Entry>, i: int, clip: Rect, y: int, tx: int, right: int)
    requires Sorted(s) && 0 <= i && i + 1 < |s| && i % 2 == 0
    requires tx == if s[i].x > clip.xLeft then s[i].x else clip.xLeft
    requires right == if s[i + 1].x < clip.xRight - 1 then s[i + 1].x else clip.xRight - 1
    ensures RowFill(s[..i], clip, y) + HSpan(y, tx, right + 1) == RowFill(s[..i + 2], clip, y)
  {
    hide FilledColumn;
    assert s[..i + 2] == s[..i] + [s[i], s[i + 1]];
    forall p: (int, int) | p.1 == y && clip.xLeft <= p.0 < clip.xRight
      ensures FilledColumn(s[..i + 2], p.0) <==> FilledColumn(s[..i], p.0) || s[i].x <= p.0 <= s[i + 1].x
    {
      PairFillsSpan(s[..i], s[i], s[i + 1], p.0);
    }
  }

  lemma RowFillPermutes(s: seq<Entry>, t: seq<Entry>, clip: Rect, y: int)
    requires multiset(s) == multiset(t)
    ensures RowFill(s, clip, y) == RowFill(t, clip, y)
  {
    forall x ensures FilledColumn(s, x) == FilledColumn(t, x) {
      CountLessPermutes(s, t, x);
      CountLessPermutes(s, t, x + 1);
    }
  }

  /** The filled polygon: every pixel the even-odd rule puts inside. */
  ghost function PolygonPixels(points: seq<Point>): Region {
    iset p: (int, int) | Inside(points, p.0, p.1)
  }

  /** The same pixels as the scan finds them. */
  ghost function ScannedPixels(points: seq<Point>): Region {
    iset p: (int, int) | Scanned(points, p.0, p.1)
  }

  lemma {:induction false} ScannedIsPolygon(points: seq<Point>)
    ensures ScannedPixels(points) == PolygonPixels(points)
  {
    hide Scanned, Inside;
    forall p: (int, int) ensures p in ScannedPixels(points) <==> p in PolygonPixels(points) {
      ScanIsInside(points, p.0, p.1);
    }
  }

  ghost function RowsAbove(y: int): Region {
    iset p: (int, int) | p.1 < y
  }

  /** The part of the visible polygon in the rows above `y`. */
  ghost function FilledAbove(points: seq<Point>, clip: Rect, y: int): Region {
    ScannedPixels(points) * clip.Pixels() * RowsAbove(y)
  }

  lemma {:induction false} RowJoins(points: seq<Point>, clip: Rect, y: int)
    requires clip.yTop <= y < clip.yBottom
    ensures FilledAbove(points, clip, y) + RowFill(Crossing(Edges(points, |points|), y), clip, y)
            == FilledAbove(points, clip, y + 1)
  {
    hide FilledColumn, Crossing;
  }

  /** Rows before the first scanned one and after the last hold nothing to fill. */
  lemma {:induction false} EmptyRow(points: seq<Point>, clip: Rect, minY: int, maxY: int, x: int, y: int)
    requires 0 < |points| && clip.yTop <= y < clip.yBottom && (y < minY || maxY < y)
    requires Bounded(Edges(points, |points|), clip, minY, maxY)
    ensures !Scanned(points, x, y)
  {
    NoCrossingOutside(Edges(points, |points|), clip.yTop, clip.yBottom, minY, maxY, y);
  }

  lemma {:induction false} ScannedRowsSuffice(points: seq<Point>, clip: Rect, minY: int, maxY: int, y: int)
    requires 0 < |points|
    requires Bounded(Edges(points, |points|), clip, minY, maxY)
    ensures y <= minY ==> FilledAbove(points, clip, y) == iset{}
    ensures y > maxY || y >= clip.yBottom ==> FilledAbove(points, clip, y) == ScannedPixels(points) * clip.Pixels()
  {
    hide Scanned, Bounded, Edges;
    forall p: (int, int) | clip.Contains(p.0, p.1) && (p.1 < minY || maxY < p.1)
      ensures p !in ScannedPixels(points)
    {
      EmptyRow(points, clip, minY, maxY, p.0, p.1);
    }
  }

  lemma SlopedPermutes(s: seq<Entry>, t: seq<Entry>)
    requires multiset(s) == multiset(t) && AllSloped(t)
    ensures AllSloped(s)
  {
    forall i | 0 <= i < |s| ensures s[i].den > 0 {
      assert s[i] in multiset(s);
      assert s[i] in t;
    }
  }

  lemma SameSize(s: seq<Entry>, t: seq<Entry>)
    requires multiset(s) == multiset(t)
    ensures |s| == |t|
  {
    assert |multiset(s)| == |s| && |multiset(t)| == |t|;
  }

  /** A sorted active table that holds what the row above `y` left. */
  ghost predicate CarriedTo(aet: seq<Entry>, points: seq<Point>, clip: Rect, y: int) {
    Sorted(aet) && multiset(aet) == multiset(Table(Carried, Edges(points, |points|), clip.yTop, clip.yBottom, y))
  }

  /**
   One row of the scan. The active table enters sorted, with the edges the row above left; the row
   drawn from is sorted, of even length, and holds exactly the edges with y0 <= y < y1.
   */
  method ScanRow(buffer: array<bv8>, points: seq<Point>, clip: Rect, table: seq<seq<Entry>>, aet: seq<Entry>,
                 y: int, shade: Shade) returns (next: seq<Entry>)
    requires buffer.Length == BUFFER_SIZE && clip.WithinScreen() && clip.yTop <= y < clip.yBottom && 0 < |points|
    requires TableHolds(table, Edges(points, |points|), clip)
    requires CarriedTo(aet, points, clip, y)
    modifies buffer
    ensures Painted(old(buffer[..]), buffer[..], RowFill(Crossing(Edges(points, |points|), y), clip, y), shade)
    ensures CarriedTo(next, points, clip, y + 1)
  {
    hide Pixel, Painted, RowFill, Crossing, Edges, EntryAt, Sorted, FlatMap;
    ghost var edges, top, bottom := Edges(points, |points|), clip.yTop, clip.yBottom;
    MergeGivesMerged(edges, top, bottom, y);
    ExpiryGivesCrossing(edges, top, bottom, y);
    StepGivesCarried(edges, top, bottom, y);
    var merged := MergeNewEdges(aet, table[y]);
    var active := DeleteExpired(merged, y);
    FlatMapPermutes(DropAt(y), merged, Table(Merged, edges, top, bottom, y));
    assert multiset(active) == multiset(Crossing(edges, y));
    SameSize(active, Crossing(edges, y));
    CrossingsAreEven(points, y);
    RowFillPermutes(active, Crossing(edges, y), clip, y);
    DrawScanline(buffer, clip, active, y, shade);
    SlopedPermutes(active, Crossing(edges, y));
    var stepped := StepEdges(active);
    FlatMapPermutes(StepUp(), active, Crossing(edges, y));
    next := BubbleSort(stepped);
  }

  /** The scan conversion loop. */
  method ScanRows(buffer: array<bv8>, points: seq<Point>, clip: Rect, table: seq<seq<Entry>>,
                  minY: int, last: int, shade: Shade)
    requires buffer.Length == BUFFER_SIZE && clip.WithinScreen() && 0 < |points|
    requires minY <= clip.yBottom && last < clip.yBottom && (minY <= last ==> clip.yTop <= minY)
    requires TableHolds(table, Edges(points, |points|), clip)
    requires CarriedTo([], points, clip, minY)
    requires Painted(buffer[..], buffer[..], FilledAbove(points, clip, minY), shade)
    modifies buffer
    ensures Painted(old(buffer[..]), buffer[..],
                    FilledAbove(points, clip, if minY <= last then last + 1 else minY), shade)
  {
    ghost var edges, b0 := Edges(points, |points|), buffer[..];
    var aet: seq<Entry> := [];
    var y := minY;
    hide Pixel, Painted, FilledAbove, RowFill, Crossing, Edges, CarriedTo, TableHolds;
    while y <= last
      invariant minY <= y && (y <= last + 1 || y == minY)
      invariant CarriedTo(aet, points, clip, y)
      invariant Painted(b0, buffer[..], FilledAbove(points, clip, y), shade)
    {
      ghost var b1 := buffer[..];
      aet := ScanRow(buffer, points, clip, table, aet, y, shade);
      RowJoins(points, clip, y);
      PaintedThen(b0, b1, buffer[..], FilledAbove(points, clip, y), RowFill(Crossing(edges, y), clip, y), shade);
      y := y + 1;
    }
  }

  /** The solid polygon routine paints exactly the even-odd interior inside the clip. */
  method DrawSolidPolygon(buffer: array<bv8>, clip: Rect, points: seq<Point>, shade: Shade)
    requires buffer.Length == BUFFER_SIZE && clip.WithinScreen() && 0 < |points|
    requires |points| >= 3 ==> TableFits(points, clip)
    modifies buffer
    ensures |points| < 3 ==> buffer[..] == old(buffer[..])
    ensures |points| >= 3 ==>
              Painted(old(buffer[..]), buffer[..], PolygonPixels(points) * clip.Pixels(), shade)
  {
    hide Pixel, Painted, PolygonPixels, ScannedPixels, FilledAbove, Edges, Table, TableHolds;
    if |points| < 3 { return; }
    ScannedIsPolygon(points);
    var table, minY, maxY := BuildEdgeTable(points, clip);
    NothingCarriedAtStart(Edges(points, |points|), clip.yTop, clip.yBottom, minY);
    ScannedRowsSuffice(points, clip, minY, maxY, minY);
    PaintedNothing(buffer[..], shade);
    var last := if maxY > clip.yBottom - 1 then clip.yBottom - 1 else maxY;
    ScanRows(buffer, points, clip, table, minY, last, shade);
    ScannedRowsSuffice(points, clip, minY, maxY, if minY <= last then last + 1 else minY);
  }
}
