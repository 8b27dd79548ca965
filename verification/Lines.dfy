/**
 vfdlib's lines. `LinePixels` is the picture of a line; both the unclipped walk and the clipped one,
 which computes where the line enters the clip and resumes the walk there, are proved to draw it.
 */
module Lines {
  import opened Common
  import opened Framebuffer
  import opened Spans
  import opened LineMath

  /** The distance from row `from` to row `to`, in the direction the line runs. */
  function RowsAlong(down: bool, from: int, to: int): int {
    if down then to - from else from - to
  }

  /** `(x, y)` is a pixel of the line that leaves `(xs, ys)` with the given reach, going right. */
  ghost predicate OnRightward(xs: int, ys: int, dx: int, dy: int, x: int, y: int)
    requires dx >= 0
  {
    var rows := RowsAlong(dy > 0, ys, y);
    if dx > Abs(dy) then 0 <= x - xs <= dx && Nearest(dx, Abs(dy), x - xs, rows)
    else 0 <= rows <= Abs(dy) && Nearest(Abs(dy), dx, rows, x - xs)
  }

  /** A line is drawn from its left end, whichever end the caller names first. */
  ghost predicate OnLine(x0: int, y0: int, x1: int, y1: int, x: int, y: int) {
    if x1 < x0 then OnRightward(x1, y1, x0 - x1, y0 - y1, x, y)
    else OnRightward(x0, y0, x1 - x0, y1 - y0, x, y)
  }

  ghost function LinePixels(x0: int, y0: int, x1: int, y1: int): Region {
    iset p: (int, int) | OnLine(x0, y0, x1, y1, p.0, p.1)
  }

  // The nearest offset in numbers: half way between two it is the lower one.
  lemma NearestInNumbers(a: int, b: int, k: int, m: int)
    requires Octant(a, b) && 0 <= k <= a
    ensures Nearest(a, b, k, m) <==>
            0 <= m <= b && 2 * Abs(b * k - a * m) <= a && (2 * Abs(b * k - a * m) == a > 0 ==> a * m < b * k)
  {
    assert Error(a, b, k, m) == 2 * (b * k - a * m);
    if Nearest(a, b, k, m) { NearestRange(a, b, k, m); }
  }

  // How far a pixel is off the ideal segment, in units of one over its longer extent.
  lemma OffInSteps(k: int, m: int, dx: int, dy: int, x: int, y: int)
    requires (k == x && ((dy > 0 && m == y) || (dy <= 0 && m == -y)))
    ensures Abs(x * dy - y * dx) == Abs(Abs(dy) * k - dx * m)
  {
    if dy > 0 {
      assert x * dy == Abs(dy) * k && y * dx == dx * m;
    } else {
      assert x * dy == -(Abs(dy) * k) && y * dx == -(dx * m);
    }
  }

  // Seen in steps along the line and across it.
  lemma StepsInNumbers(w: int, h: int, k: int, m: int)
    requires w >= 0 && h >= 0
    ensures (if w > h then 0 <= k <= w && Nearest(w, h, k, m) else 0 <= m <= h && Nearest(h, w, m, k)) <==>
            && 0 <= k <= w && 0 <= m <= h && 2 * Abs(h * k - w * m) <= Max(w, h)
            && (2 * Abs(h * k - w * m) == w > h ==> m * w < k * h)
            && (2 * Abs(h * k - w * m) == h >= w > 0 ==> k * h < m * w)
  {
    hide Nearest;
    if w > h {
      if 0 <= k <= w { NearestInNumbers(w, h, k, m); }
    } else if 0 <= m <= h {
      NearestInNumbers(h, w, m, k);
      assert Abs(w * m - h * k) == Abs(h * k - w * m);
      if w == 0 && h > 0 && k == 0 {
        assert h * k == 0 && w * m == 0;
      }
    }
  }

  lemma RightwardInNumbers(xs: int, ys: int, dx: int, dy: int, x: int, y: int)
    requires dx >= 0
    ensures var h, off := Abs(dy), Abs((x - xs) * dy - (y - ys) * dx);
            OnRightward(xs, ys, dx, dy, x, y) <==>
            && xs <= x <= xs + dx && Min(ys, ys + dy) <= y <= Max(ys, ys + dy)
            && 2 * off <= Max(dx, h)
            && (2 * off == dx > h ==> Abs(y - ys) * dx < Abs(x - xs) * h)
            && (2 * off == h >= dx > 0 ==> Abs(x - xs) * h < Abs(y - ys) * dx)
  {
    var h, k, m := Abs(dy), x - xs, RowsAlong(dy > 0, ys, y);
    OffInSteps(k, m, dx, dy, x - xs, y - ys);
    StepsInNumbers(dx, h, k, m);
    hide Nearest;
    assert Min(ys, ys + dy) <= y <= Max(ys, ys + dy) <==> 0 <= m <= h;
    if 0 <= k <= dx && 0 <= m <= h {
      assert Abs(x - xs) == k && Abs(y - ys) == m;
    }
  }

  // Seen from either end a pixel is as far off the segment.
  lemma OffFromEitherEnd(x0: int, y0: int, x1: int, y1: int, x: int, y: int)
    ensures Abs((x - x1) * (y0 - y1) - (y - y1) * (x0 - x1)) == Abs((x - x0) * (y1 - y0) - (y - y0) * (x1 - x0))
  {
    assert (x - x1) * (y0 - y1) - (y - y1) * (x0 - x1) == -((x - x0) * (y1 - y0) - (y - y0) * (x1 - x0));
  }

  /**
   A line in the caller's own numbers: between its ends, and along its longer extent within half a pixel of
   the ideal segment; half way between two pixels it is the one on the left end's side.
   */
  lemma LineInNumbers(x0: int, y0: int, x1: int, y1: int, x: int, y: int)
    ensures var w, h, off := Abs(x1 - x0), Abs(y1 - y0), Abs((x - x0) * (y1 - y0) - (y - y0) * (x1 - x0));
            var left := if x1 < x0 then (x1, y1) else (x0, y0);
            (x, y) in LinePixels(x0, y0, x1, y1) <==>
            && Min(x0, x1) <= x <= Max(x0, x1) && Min(y0, y1) <= y <= Max(y0, y1)
            && 2 * off <= Max(w, h)
            && (2 * off == w > h ==> Abs(y - left.1) * w < Abs(x - left.0) * h)
            && (2 * off == h >= w > 0 ==> Abs(x - left.0) * h < Abs(y - left.1) * w)
  {
    hide OnRightward;
    if x1 < x0 {
      RightwardInNumbers(x1, y1, x0 - x1, y0 - y1, x, y);
      OffFromEitherEnd(x0, y0, x1, y1, x, y);
    } else {
      RightwardInNumbers(x0, y0, x1 - x0, y1 - y0, x, y);
    }
  }

  // ---- Lines that advance one column a step ----

  ghost predicate AllOnScreen(r: Region) {
    forall p: (int, int) | p in r :: OnScreen(p.0, p.1)
  }

  /** The pixels of a flat line in columns `xa` to `xb`. */
  ghost function HTrack(a: int, b: int, xs: int, ys: int, down: bool, xa: int, xb: int): Region {
    iset p: (int, int) | xa <= p.0 <= xb && Nearest(a, b, p.0 - xs, RowsAlong(down, ys, p.1))
  }

  /**
   Those in a window of columns and rows reached from `(x0, y0)`. The walk reads a negative column
   limit as zero and a negative row limit as none.
   */
  ghost function HWindow(a: int, b: int, xs: int, ys: int, down: bool,
                         x0: int, y0: int, xMax: int, yMax: int): Region {
    iset p: (int, int) |
      && x0 <= p.0 <= x0 + Max(xMax, 0)
      && 0 <= RowsAlong(down, y0, p.1) && (yMax >= 0 ==> RowsAlong(down, y0, p.1) <= yMax)
      && Nearest(a, b, p.0 - xs, RowsAlong(down, ys, p.1))
  }

  lemma HTrackGrows(a: int, b: int, xs: int, ys: int, down: bool, xa: int, x: int, y: int)
    requires Octant(a, b) && xa <= x + 1 && Nearest(a, b, x + 1 - xs, RowsAlong(down, ys, y))
    ensures HTrack(a, b, xs, ys, down, xa, x + 1) == HTrack(a, b, xs, ys, down, xa, x) + iset{(x + 1, y)}
  {
    forall p: (int, int) | p in HTrack(a, b, xs, ys, down, xa, x + 1) && p.0 == x + 1
      ensures p == (x + 1, y)
    {
      NearestUnique(a, b, x + 1 - xs, RowsAlong(down, ys, y), RowsAlong(down, ys, p.1));
    }
  }

  /** The flat walk stands at `(x, y)`, with the decision variable it has there. */
  ghost predicate HWalks(a: int, b: int, xs: int, ys: int, down: bool, x: int, y: int, d: int) {
    Nearest(a, b, x - xs, RowsAlong(down, ys, y)) && d == Decision(a, b, x - xs, RowsAlong(down, ys, y))
  }

  /** The sign of the decision variable says which pixel comes next; the track grows by it. */
  lemma HStep(a: int, b: int, xs: int, ys: int, down: bool, xa: int, x: int, y: int, d: int)
    requires Octant(a, b) && a > 0 && xa <= x + 1 && HWalks(a, b, xs, ys, down, x, y, d)
    ensures var track, y' := HTrack(a, b, xs, ys, down, xa, x), if down then y + 1 else y - 1;
            && (d <= 0 ==> HWalks(a, b, xs, ys, down, x + 1, y, d + 2 * b)
                           && HTrack(a, b, xs, ys, down, xa, x + 1) == track + iset{(x + 1, y)})
            && (d > 0 ==> HWalks(a, b, xs, ys, down, x + 1, y', d + 2 * (b - a))
                          && HTrack(a, b, xs, ys, down, xa, x + 1) == track + iset{(x + 1, y')}
                          && Nearest(a, b, x + 1 - xs, RowsAlong(down, ys, y) + 1))
  {
    hide Nearest, Decision, HTrack;
    WalkStep(a, b, x - xs, RowsAlong(down, ys, y));
    HTrackGrows(a, b, xs, ys, down, xa, x, if d <= 0 then y else if down then y + 1 else y - 1);
  }

  /** When the walk has used up its columns, or the next step leaves its rows, it has drawn the window. */
  lemma HTrackFillsWindow(a: int, b: int, xs: int, ys: int, down: bool,
                          x0: int, y0: int, xMax: int, yMax: int, x: int, y: int)
    requires Octant(a, b) && x0 <= x <= x0 + Max(xMax, 0)
    requires 0 <= RowsAlong(down, y0, y) && (yMax >= 0 ==> RowsAlong(down, y0, y) <= yMax)
    requires Nearest(a, b, x0 - xs, RowsAlong(down, ys, y0))
    requires Nearest(a, b, x - xs, RowsAlong(down, ys, y))
    requires
      || x == x0 + Max(xMax, 0)
      || (RowsAlong(down, y0, y) == yMax && Nearest(a, b, x + 1 - xs, RowsAlong(down, ys, y) + 1))
    ensures HTrack(a, b, xs, ys, down, x0, x) == HWindow(a, b, xs, ys, down, x0, y0, xMax, yMax)
  {
    forall p: (int, int) | p in HTrack(a, b, xs, ys, down, x0, x)
      ensures 0 <= RowsAlong(down, y0, p.1) <= RowsAlong(down, y0, y)
    {
      var rows := RowsAlong(down, ys, p.1);
      NearestMonotone(a, b, x0 - xs, RowsAlong(down, ys, y0), p.0 - xs, rows);
      NearestMonotone(a, b, p.0 - xs, rows, x - xs, RowsAlong(down, ys, y));
    }
    forall p: (int, int) | p in HWindow(a, b, xs, ys, down, x0, y0, xMax, yMax)
      ensures p.0 <= x
    {
      if x < x0 + Max(xMax, 0) && p.0 > x {
        NearestMonotone(a, b, x + 1 - xs, RowsAlong(down, ys, y) + 1, p.0 - xs, RowsAlong(down, ys, p.1));
      }
    }
  }

  /** Where the walk starts, its track is one pixel. */
  lemma HStarts(a: int, b: int, xs: int, ys: int, down: bool, x: int, y: int, d: int)
    requires Octant(a, b) && HWalks(a, b, xs, ys, down, x, y, d)
    ensures HTrack(a, b, xs, ys, down, x, x) == iset{(x, y)}
  {
    hide Nearest, Decision;
    HTrackGrows(a, b, xs, ys, down, x, x - 1, y);
    assert HTrack(a, b, xs, ys, down, x, x - 1) + iset{(x, y)} == iset{(x, y)};
  }

  /** The columns and rows the clipped flat walk has left. */
  predicate HReach(down: bool, x0: int, y0: int, xMax0: int, yMax0: int, x: int, y: int, xMax: int, yMax: int) {
    && x + xMax == x0 + xMax0 && x0 <= x <= x0 + Max(xMax0, 0)
    && RowsAlong(down, y0, y) + yMax == yMax0 && 0 <= RowsAlong(down, y0, y) && (yMax0 >= 0 ==> 0 <= yMax)
  }

  lemma HReachStep(down: bool, x0: int, y0: int, xMax0: int, yMax0: int, x: int, y: int, xMax: int, yMax: int)
    requires HReach(down, x0, y0, xMax0, yMax0, x, y, xMax, yMax) && xMax > 0
    ensures HReach(down, x0, y0, xMax0, yMax0, x + 1, y, xMax - 1, yMax)
    ensures yMax != 0 ==>
              HReach(down, x0, y0, xMax0, yMax0, x + 1, if down then y + 1 else y - 1, xMax - 1, yMax - 1)
  {
  }

  /** The walk is resumed with its full reach, and the decision variable it has there. */
  lemma HResumes(a: int, b: int, xs: int, ys: int, down: bool, x0: int, y0: int, xMax0: int, yMax0: int, d0: int)
    requires Nearest(a, b, x0 - xs, RowsAlong(down, ys, y0))
    requires d0 == Decision(a, b, x0 - xs, RowsAlong(down, ys, y0))
    ensures HReach(down, x0, y0, xMax0, yMax0, x0, y0, xMax0, yMax0) && HWalks(a, b, xs, ys, down, x0, y0, d0)
  {
    hide Nearest, Decision;
  }

  lemma HReachIsOnScreen(a: int, b: int, xs: int, ys: int, down: bool, x0: int, y0: int, xMax0: int, yMax0: int,
                         x: int, y: int, xMax: int, yMax: int, d: int)
    requires AllOnScreen(HWindow(a, b, xs, ys, down, x0, y0, xMax0, yMax0))
    requires HReach(down, x0, y0, xMax0, yMax0, x, y, xMax, yMax) && HWalks(a, b, xs, ys, down, x, y, d)
    ensures OnScreen(x, y)
  {
    hide Nearest, Decision;
    assert (x, y) in HWindow(a, b, xs, ys, down, x0, y0, xMax0, yMax0);
  }

  lemma HWalkFillsWindow(a: int, b: int, xs: int, ys: int, down: bool, x0: int, y0: int, xMax0: int, yMax0: int,
                         x: int, y: int, xMax: int, yMax: int, d: int)
    requires Octant(a, b) && a > 0
    requires Nearest(a, b, x0 - xs, RowsAlong(down, ys, y0)) && HWalks(a, b, xs, ys, down, x, y, d)
    requires HReach(down, x0, y0, xMax0, yMax0, x, y, xMax, yMax) && (xMax <= 0 || (yMax == 0 && d > 0))
    ensures HTrack(a, b, xs, ys, down, x0, x) == HWindow(a, b, xs, ys, down, x0, y0, xMax0, yMax0)
  {
    hide Nearest, Decision, HTrack, HWindow;
    WalkStep(a, b, x - xs, RowsAlong(down, ys, y));
    HTrackFillsWindow(a, b, xs, ys, down, x0, y0, xMax0, yMax0, x, y);
  }

  lemma HWalkIsOnScreen(dx: int, dy: int, x0: int, y0: int, x: int, y: int, d: int)
    requires Abs(dy) < dx && OnScreen(x0, y0) && OnScreen(x0 + dx, y0 + dy) && x0 <= x <= x0 + dx
    requires HWalks(dx, Abs(dy), x0, y0, dy > 0, x, y, d)
    ensures OnScreen(x, y)
  {
    NearestRange(dx, Abs(dy), x - x0, RowsAlong(dy > 0, y0, y));
    hide Nearest, Decision;
  }

  lemma HWalkBegins(a: int, b: int, xs: int, ys: int, down: bool)
    requires Octant(a, b)
    ensures HWalks(a, b, xs, ys, down, xs, ys, 2 * b - a)
  {
    hide Nearest, Decision;
    WalkStart(a, b);
  }

  /**
   The flat walk's pen: a byte pointer, the nybble it is in, and which nybbles of that byte it has
   passed but not yet written.
   */
  datatype Pen = Pen(p: int, pixelPos: int, lo: bool, hi: bool) {

    predicate At(x: int, y: int) {
      && p == BYTES_PER_SCANLINE * y + x / 2
      && pixelPos == x % 2
      && if pixelPos == 0 then lo && !hi else hi
    }

    /** The pixels waiting to be written when the pen is at `(x, y)`. */
    ghost function Pending(x: int, y: int): Region {
      iset q: (int, int) | q.1 == y && ((lo && q.0 == 2 * (x / 2)) || (hi && q.0 == 2 * (x / 2) + 1))
    }
  }

  /** The pen is at `(x, y)`, and what is written and what is waiting are together `track`. */
  ghost predicate Carrying(pen: Pen, x: int, y: int, written: Region, track: Region) {
    pen.At(x, y) && written + pen.Pending(x, y) == track
  }

  method PenDown(x: int, y: int) returns (pen: Pen)
    ensures Carrying(pen, x, y, iset{}, iset{(x, y)})
  {
    var pixelPos := x % 2;
    pen := Pen(BYTES_PER_SCANLINE * y + x / 2, pixelPos, pixelPos == 0, pixelPos != 0);
    assert pen.Pending(x, y) == iset{(x, y)};
  }

  /** "Draw outstanding pixels". */
  method Flush(buffer: array<bv8>, pen: Pen, shade: Shade, ghost x: int, ghost y: int,
               ghost start: seq<bv8>, ghost r: Region)
    requires buffer.Length == BUFFER_SIZE && OnScreen(x, y) && pen.At(x, y)
    requires Painted(start, buffer[..], r, shade)
    modifies buffer
    ensures Painted(start, buffer[..], r + pen.Pending(x, y), shade)
  {
    ghost var h := x / 2;
    if pen.lo && pen.hi {
      SetBoth(buffer, pen.p, shade, h, y, start, r);
      assert pen.Pending(x, y) == iset{(2 * h, y), (2 * h + 1, y)};
    } else if pen.lo {
      SetLo(buffer, pen.p, shade, h, y, start, r);
      assert pen.Pending(x, y) == iset{(2 * h, y)};
    } else {
      SetHi(buffer, pen.p, shade, h, y, start, r);
      assert pen.Pending(x, y) == iset{(2 * h + 1, y)};
    }
  }

  method Finish(buffer: array<bv8>, pen: Pen, shade: Shade, ghost x: int, ghost y: int,
                ghost start: seq<bv8>, ghost r: Region, ghost track: Region)
    requires buffer.Length == BUFFER_SIZE && OnScreen(x, y) && Carrying(pen, x, y, r, track)
    requires Painted(start, buffer[..], r, shade)
    modifies buffer
    ensures Painted(start, buffer[..], track, shade)
  {
    hide Painted;
    Flush(buffer, pen, shade, x, y, start, r);
  }

  /** One column along the same row: the byte is written only when the pen leaves it. */
  method Across(buffer: array<bv8>, pen: Pen, shade: Shade, ghost x: int, ghost y: int,
                ghost start: seq<bv8>, ghost r: Region, ghost track: Region) returns (next: Pen, ghost q: Region)
    requires buffer.Length == BUFFER_SIZE && OnScreen(x, y) && Carrying(pen, x, y, r, track)
    requires Painted(start, buffer[..], r, shade)
    modifies buffer
    ensures Painted(start, buffer[..], q, shade)
    ensures Carrying(next, x + 1, y, q, track + iset{(x + 1, y)})
  {
    if pen.pixelPos + 1 == 2 {
      Flush(buffer, pen, shade, x, y, start, r);
      next, q := Pen(pen.p + 1, 0, true, false), r + pen.Pending(x, y);
      assert next.Pending(x + 1, y) == iset{(x + 1, y)};
    } else {
      next, q := pen.(pixelPos := 1, hi := true), r;
      assert next.Pending(x + 1, y) == pen.Pending(x, y) + iset{(x + 1, y)};
    }
    hide Painted, Pixel;
  }

  /** One column along, about to change row: everything outstanding is written. */
  method Leave(buffer: array<bv8>, pen: Pen, shade: Shade, ghost x: int, ghost y: int,
               ghost start: seq<bv8>, ghost r: Region, ghost track: Region) returns (next: Pen)
    requires buffer.Length == BUFFER_SIZE && OnScreen(x, y) && Carrying(pen, x, y, r, track)
    requires Painted(start, buffer[..], r, shade)
    modifies buffer
    ensures Painted(start, buffer[..], track, shade)
    ensures next.At(x + 1, y) && next.lo != next.hi
  {
    Flush(buffer, pen, shade, x, y, start, r);
    if pen.pixelPos + 1 == 2 {
      next := Pen(pen.p + 1, 0, true, false);
    } else {
      next := pen.(pixelPos := 1, lo := false, hi := true);
    }
  }

  /** Then the pen is moved to the next row, with one pixel waiting. */
  lemma NextRow(pen: Pen, x: int, y: int, down: bool, track: Region)
    requires pen.At(x, y) && pen.lo != pen.hi
    ensures var y' := if down then y + 1 else y - 1;
            Carrying(pen.(p := pen.p + if down then BYTES_PER_SCANLINE else -BYTES_PER_SCANLINE), x, y',
                     track, track + iset{(x, y')})
  {
    var y' := if down then y + 1 else y - 1;
    assert pen.Pending(x, y') == iset{(x, y')};
  }

  /**
   The resumed flat walk. `d0` must be the decision variable the unclipped walk from `(xs, ys)` has at
   `(x0, y0)`.
   */
  method DrawLineHMaxClipped(buffer: array<bv8>, x0: int, y0: int, dx: int, dy: int, d0: int,
                             xMax0: int, yMax0: int, shade: Shade, ghost xs: int, ghost ys: int)
    requires buffer.Length == BUFFER_SIZE
    requires Abs(dy) < dx
    requires AllOnScreen(HWindow(dx, Abs(dy), xs, ys, dy > 0, x0, y0, xMax0, yMax0))
    requires Nearest(dx, Abs(dy), x0 - xs, RowsAlong(dy > 0, ys, y0))
    requires d0 == Decision(dx, Abs(dy), x0 - xs, RowsAlong(dy > 0, ys, y0))
    modifies buffer
    ensures Painted(old(buffer[..]), buffer[..],
                    HWindow(dx, Abs(dy), xs, ys, dy > 0, x0, y0, xMax0, yMax0), shade)
  {
    hide Nearest, Decision, Pixel, Painted, Carrying, Pen.At, Pen.Pending, HTrack, HWindow, AllOnScreen, HReach,
         HWalks, OnScreen, RowsAlong;
    var d, xMax, yMax := d0, xMax0, yMax0;
    var dyAbs := Abs(dy);
    var addV := if dy > 0 then BYTES_PER_SCANLINE else -BYTES_PER_SCANLINE;
    var pen := PenDown(x0, y0);
    ghost var b0, r: Region := buffer[..], iset{};
    ghost var x, y, down := x0, y0, dy > 0;
    PaintedNothing(b0, shade);
    HResumes(dx, dyAbs, xs, ys, down, x0, y0, xMax0, yMax0, d0);
    HStarts(dx, dyAbs, xs, ys, down, x0, y0, d0);
    while xMax > 0
      invariant HReach(down, x0, y0, xMax0, yMax0, x, y, xMax, yMax) && x0 <= x
      invariant HWalks(dx, dyAbs, xs, ys, down, x, y, d)
      invariant Painted(b0, buffer[..], r, shade)
      invariant Carrying(pen, x, y, r, HTrack(dx, dyAbs, xs, ys, down, x0, x))
    {
      ghost var track := HTrack(dx, dyAbs, xs, ys, down, x0, x);
      HReachIsOnScreen(dx, dyAbs, xs, ys, down, x0, y0, xMax0, yMax0, x, y, xMax, yMax, d);
      HReachStep(down, x0, y0, xMax0, yMax0, x, y, xMax, yMax);
      HStep(dx, dyAbs, xs, ys, down, x0, x, y, d);
      xMax := xMax - 1;
      if d <= 0 {
        d := d + 2 * dyAbs;
        pen, r := Across(buffer, pen, shade, x, y, b0, r, track);
      } else {
        var next := Leave(buffer, pen, shade, x, y, b0, r, track);
        if yMax == 0 {
          HWalkFillsWindow(dx, dyAbs, xs, ys, down, x0, y0, xMax0, yMax0, x, y, xMax + 1, yMax, d);
          return;
        }
        d := d + 2 * (dyAbs - dx);
        NextRow(next, x + 1, y, down, track);
        yMax, r := yMax - 1, track;
        pen := next.(p := next.p + addV);
        y := if down then y + 1 else y - 1;
      }
      x := x + 1;
    }
    HReachIsOnScreen(dx, dyAbs, xs, ys, down, x0, y0, xMax0, yMax0, x, y, xMax, yMax, d);
    Finish(buffer, pen, shade, x, y, b0, r, HTrack(dx, dyAbs, xs, ys, down, x0, x));
    HWalkFillsWindow(dx, dyAbs, xs, ys, down, x0, y0, xMax0, yMax0, x, y, xMax, yMax, d);
  }

  /** The whole flat walk from its start. */
  method DrawLineHMaxUnclipped(buffer: array<bv8>, x0: int, y0: int, dx: int, dy: int, shade: Shade)
    requires buffer.Length == BUFFER_SIZE && Abs(dy) < dx
    requires OnScreen(x0, y0) && OnScreen(x0 + dx, y0 + dy)
    modifies buffer
    ensures Painted(old(buffer[..]), buffer[..],
                    HTrack(dx, Abs(dy), x0, y0, dy > 0, x0, x0 + dx), shade)
  {
    hide Nearest, Decision, Pixel, Painted, Carrying, Pen.At, Pen.Pending, HTrack, HWalks, OnScreen, RowsAlong;
    var dyAbs, left := Abs(dy), dx;
    var addV := if dy > 0 then BYTES_PER_SCANLINE else -BYTES_PER_SCANLINE;
    var d := 2 * dyAbs - dx;
    var pen := PenDown(x0, y0);
    ghost var b0, r: Region := buffer[..], iset{};
    ghost var x, y, down := x0, y0, dy > 0;
    PaintedNothing(b0, shade);
    HWalkBegins(dx, dyAbs, x0, y0, down);
    HStarts(dx, dyAbs, x0, y0, down, x0, y0, d);
    while left > 0
      invariant 0 <= left && x + left == x0 + dx && x0 <= x
      invariant HWalks(dx, dyAbs, x0, y0, down, x, y, d)
      invariant Painted(b0, buffer[..], r, shade)
      invariant Carrying(pen, x, y, r, HTrack(dx, dyAbs, x0, y0, down, x0, x))
    {
      ghost var track := HTrack(dx, dyAbs, x0, y0, down, x0, x);
      left := left - 1;
      HWalkIsOnScreen(dx, dy, x0, y0, x, y, d);
      HStep(dx, dyAbs, x0, y0, down, x0, x, y, d);
      if d <= 0 {
        d := d + 2 * dyAbs;
        pen, r := Across(buffer, pen, shade, x, y, b0, r, track);
      } else {
        d := d + 2 * (dyAbs - dx);
        var next := Leave(buffer, pen, shade, x, y, b0, r, track);
        NextRow(next, x + 1, y, down, track);
        r := track;
        pen := next.(p := next.p + addV);
        y := if down then y + 1 else y - 1;
      }
      x := x + 1;
    }
    HWalkIsOnScreen(dx, dy, x0, y0, x, y, d);
    Finish(buffer, pen, shade, x, y, b0, r, HTrack(dx, dyAbs, x0, y0, down, x0, x));
  }

  // ---- Lines that advance one row a step ----

  /** The pixels of a steep line in rows `ra` to `rb`, counted from its start. */
  ghost function VTrack(a: int, b: int, xs: int, ys: int, down: bool, ra: int, rb: int): Region {
    iset p: (int, int) |
      ra <= RowsAlong(down, ys, p.1) <= rb && Nearest(a, b, RowsAlong(down, ys, p.1), p.0 - xs)
  }

  ghost function VWindow(a: int, b: int, xs: int, ys: int, down: bool,
                         x0: int, y0: int, xMax: int, yMax: int): Region {
    iset p: (int, int) |
      && x0 <= p.0 && (xMax >= 0 ==> p.0 <= x0 + xMax)
      && 0 <= RowsAlong(down, y0, p.1) <= Max(yMax, 0)
      && Nearest(a, b, RowsAlong(down, ys, p.1), p.0 - xs)
  }

  lemma VTrackGrows(a: int, b: int, xs: int, ys: int, down: bool, ra: int, x: int, y: int)
    requires Octant(a, b) && ra <= RowsAlong(down, ys, y)
    requires Nearest(a, b, RowsAlong(down, ys, y), x - xs)
    ensures VTrack(a, b, xs, ys, down, ra, RowsAlong(down, ys, y))
            == VTrack(a, b, xs, ys, down, ra, RowsAlong(down, ys, y) - 1) + iset{(x, y)}
  {
    forall p: (int, int) | p in VTrack(a, b, xs, ys, down, ra, RowsAlong(down, ys, y)) && p.1 == y
      ensures p == (x, y)
    {
      NearestUnique(a, b, RowsAlong(down, ys, y), x - xs, p.0 - xs);
    }
  }

  lemma VTrackFillsWindow(a: int, b: int, xs: int, ys: int, down: bool,
                          x0: int, y0: int, xMax: int, yMax: int, x: int, y: int)
    requires Octant(a, b) && x0 <= x && (xMax >= 0 ==> x <= x0 + xMax)
    requires 0 <= RowsAlong(down, y0, y) <= Max(yMax, 0)
    requires Nearest(a, b, RowsAlong(down, ys, y0), x0 - xs)
    requires Nearest(a, b, RowsAlong(down, ys, y), x - xs)
    requires
      || RowsAlong(down, y0, y) == Max(yMax, 0)
      || (x == x0 + xMax && Nearest(a, b, RowsAlong(down, ys, y) + 1, x + 1 - xs))
    ensures VTrack(a, b, xs, ys, down, RowsAlong(down, ys, y0), RowsAlong(down, ys, y))
            == VWindow(a, b, xs, ys, down, x0, y0, xMax, yMax)
  {
    forall p: (int, int) | p in VTrack(a, b, xs, ys, down, RowsAlong(down, ys, y0), RowsAlong(down, ys, y))
      ensures x0 <= p.0 <= x
    {
      var rows := RowsAlong(down, ys, p.1);
      NearestMonotone(a, b, RowsAlong(down, ys, y0), x0 - xs, rows, p.0 - xs);
      NearestMonotone(a, b, rows, p.0 - xs, RowsAlong(down, ys, y), x - xs);
    }
    forall p: (int, int) | p in VWindow(a, b, xs, ys, down, x0, y0, xMax, yMax)
      ensures RowsAlong(down, ys, p.1) <= RowsAlong(down, ys, y)
    {
      if RowsAlong(down, y0, y) < Max(yMax, 0) && RowsAlong(down, ys, p.1) > RowsAlong(down, ys, y) {
        NearestMonotone(a, b, RowsAlong(down, ys, y) + 1, x + 1 - xs, RowsAlong(down, ys, p.1), p.0 - xs);
      }
    }
  }

  /** The steep walk is at `(x, y)`, with the decision variable it has there. */
  ghost predicate VWalks(a: int, b: int, xs: int, ys: int, down: bool, x: int, y: int, d: int) {
    Nearest(a, b, RowsAlong(down, ys, y), x - xs) && d == Decision(a, b, RowsAlong(down, ys, y), x - xs)
  }

  /** The line's pixels from row `from` to row `to`. */
  ghost function VRows(a: int, b: int, xs: int, ys: int, down: bool, from: int, to: int): Region {
    VTrack(a, b, xs, ys, down, RowsAlong(down, ys, from), RowsAlong(down, ys, to))
  }

  /** The sign of the decision variable says which pixel comes next; the track grows by it. */
  lemma VStep(a: int, b: int, xs: int, ys: int, down: bool, from: int, x: int, y: int, d: int)
    requires Octant(a, b) && a > 0 && 0 <= RowsAlong(down, from, y) && VWalks(a, b, xs, ys, down, x, y, d)
    ensures var track, y' := VRows(a, b, xs, ys, down, from, y), if down then y + 1 else y - 1;
            var x', d' := if d <= 0 then x else x + 1, if d <= 0 then d + 2 * b else d + 2 * (b - a);
            VWalks(a, b, xs, ys, down, x', y', d') && VRows(a, b, xs, ys, down, from, y') == track + iset{(x', y')}
  {
    hide Nearest, Decision, VTrack;
    WalkStep(a, b, RowsAlong(down, ys, y), x - xs);
    VTrackGrows(a, b, xs, ys, down, RowsAlong(down, ys, from),
                if d <= 0 then x else x + 1, if down then y + 1 else y - 1);
  }

  /** Where the walk starts, its track is one pixel. */
  lemma VStarts(a: int, b: int, xs: int, ys: int, down: bool, x: int, y: int, d: int)
    requires Octant(a, b) && VWalks(a, b, xs, ys, down, x, y, d)
    ensures VRows(a, b, xs, ys, down, y, y) == iset{} + iset{(x, y)}
  {
    hide Nearest, Decision;
    var ra := RowsAlong(down, ys, y);
    VTrackGrows(a, b, xs, ys, down, ra, x, y);
    assert VTrack(a, b, xs, ys, down, ra, ra - 1) == iset{};
  }

  lemma VRowsAre(a: int, b: int, xs: int, ys: int, down: bool, y: int)
    ensures VRows(a, b, xs, ys, down, ys, y) == VTrack(a, b, xs, ys, down, 0, RowsAlong(down, ys, y))
  {
  }

  lemma VWalkBegins(a: int, b: int, xs: int, ys: int, down: bool)
    requires Octant(a, b)
    ensures VWalks(a, b, xs, ys, down, xs, ys, 2 * b - a)
  {
    hide Nearest, Decision;
    WalkStart(a, b);
  }

  lemma VWalkIsOnScreen(dx: int, dy: int, x0: int, y0: int, x: int, y: int, d: int)
    requires 0 <= dx <= Abs(dy) && OnScreen(x0, y0) && OnScreen(x0 + dx, y0 + dy)
    requires 0 <= RowsAlong(dy > 0, y0, y) <= Abs(dy) && VWalks(Abs(dy), dx, x0, y0, dy > 0, x, y, d)
    ensures OnScreen(x, y)
  {
    NearestRange(Abs(dy), dx, RowsAlong(dy > 0, y0, y), x - x0);
    hide Nearest, Decision;
  }

  /** The columns and rows the clipped steep walk has left. */
  predicate VReach(down: bool, x0: int, y0: int, xMax0: int, yMax0: int, x: int, y: int, xMax: int, yMax: int) {
    && RowsAlong(down, y0, y) + yMax == yMax0 && 0 <= RowsAlong(down, y0, y) <= Max(yMax0, 0)
    && x + xMax == x0 + xMax0 && x0 <= x && (xMax0 >= 0 ==> 0 <= xMax)
  }

  lemma VReachStep(down: bool, x0: int, y0: int, xMax0: int, yMax0: int, x: int, y: int, xMax: int, yMax: int)
    requires VReach(down, x0, y0, xMax0, yMax0, x, y, xMax, yMax) && yMax > 0
    ensures 0 <= RowsAlong(down, y0, y)
    ensures var y' := if down then y + 1 else y - 1;
            VReach(down, x0, y0, xMax0, yMax0, x, y', xMax, yMax - 1)
            && (xMax != 0 ==> VReach(down, x0, y0, xMax0, yMax0, x + 1, y', xMax - 1, yMax - 1))
  {
  }

  /** The walk is resumed with its full reach, and the decision variable it has there. */
  lemma VResumes(a: int, b: int, xs: int, ys: int, down: bool, x0: int, y0: int, xMax0: int, yMax0: int, d0: int)
    requires Nearest(a, b, RowsAlong(down, ys, y0), x0 - xs)
    requires d0 == Decision(a, b, RowsAlong(down, ys, y0), x0 - xs)
    ensures VReach(down, x0, y0, xMax0, yMax0, x0, y0, xMax0, yMax0) && VWalks(a, b, xs, ys, down, x0, y0, d0)
  {
    hide Nearest, Decision;
  }

  lemma VReachIsOnScreen(a: int, b: int, xs: int, ys: int, down: bool, x0: int, y0: int, xMax0: int, yMax0: int,
                         x: int, y: int, xMax: int, yMax: int, d: int)
    requires AllOnScreen(VWindow(a, b, xs, ys, down, x0, y0, xMax0, yMax0))
    requires VReach(down, x0, y0, xMax0, yMax0, x, y, xMax, yMax) && VWalks(a, b, xs, ys, down, x, y, d)
    ensures OnScreen(x, y)
  {
    hide Nearest, Decision;
    assert (x, y) in VWindow(a, b, xs, ys, down, x0, y0, xMax0, yMax0);
  }

  lemma VWalkFillsWindow(a: int, b: int, xs: int, ys: int, down: bool, x0: int, y0: int, xMax0: int, yMax0: int,
                         x: int, y: int, xMax: int, yMax: int, d: int)
    requires Octant(a, b) && (yMax > 0 ==> a > 0)
    requires Nearest(a, b, RowsAlong(down, ys, y0), x0 - xs) && VWalks(a, b, xs, ys, down, x, y, d)
    requires VReach(down, x0, y0, xMax0, yMax0, x, y, xMax, yMax) && (yMax <= 0 || (xMax == 0 && d > 0))
    ensures VRows(a, b, xs, ys, down, y0, y) == VWindow(a, b, xs, ys, down, x0, y0, xMax0, yMax0)
  {
    hide Nearest, Decision, VTrack, VWindow;
    if yMax > 0 { WalkStep(a, b, RowsAlong(down, ys, y), x - xs); }
    VTrackFillsWindow(a, b, xs, ys, down, x0, y0, xMax0, yMax0, x, y);
  }

  /** The steep walk stands at `(x, y)`: its byte, and the half of that byte. */
  predicate Stands(p: int, pixelPos: int, x: int, y: int) {
    p == BYTES_PER_SCANLINE * y + x / 2 && pixelPos == x % 2
  }

  lemma StandsFirst(x: int, y: int)
    ensures Stands(BYTES_PER_SCANLINE * y + x / 2, x % 2, x, y)
  {
  }

  /** Where it stands one column to the right, or one row on. */
  lemma StandsNext(p: int, pixelPos: int, x: int, y: int)
    requires Stands(p, pixelPos, x, y)
    ensures Stands(if pixelPos + 1 > 1 then p + 1 else p, if pixelPos + 1 > 1 then 0 else pixelPos + 1, x + 1, y)
    ensures Stands(p + BYTES_PER_SCANLINE, pixelPos, x, y + 1) && Stands(p - BYTES_PER_SCANLINE, pixelPos, x, y - 1)
  {
  }

  /** "Write pixel": the nybble the walk is in. */
  method PutPixel(buffer: array<bv8>, p: int, pixelPos: int, shade: Shade, ghost x: int, ghost y: int,
                  ghost start: seq<bv8>, ghost r: Region)
    requires buffer.Length == BUFFER_SIZE && OnScreen(x, y)
    requires Stands(p, pixelPos, x, y)
    requires Painted(start, buffer[..], r, shade)
    modifies buffer
    ensures Painted(start, buffer[..], r + iset{(x, y)}, shade)
  {
    if pixelPos == 0 {
      SetLo(buffer, p, shade, x / 2, y, start, r);
    } else {
      SetHi(buffer, p, shade, x / 2, y, start, r);
    }
  }

  /** The resumed steep walk; see `DrawLineHMaxClipped`. */
  method DrawLineVMaxClipped(buffer: array<bv8>, x0: int, y0: int, dx: int, dy: int, d0: int,
                             xMax0: int, yMax0: int, shade: Shade, ghost xs: int, ghost ys: int)
    requires buffer.Length == BUFFER_SIZE
    requires 0 <= dx <= Abs(dy) && (yMax0 > 0 ==> Abs(dy) > 0)
    requires AllOnScreen(VWindow(Abs(dy), dx, xs, ys, dy > 0, x0, y0, xMax0, yMax0))
    requires Nearest(Abs(dy), dx, RowsAlong(dy > 0, ys, y0), x0 - xs)
    requires d0 == Decision(Abs(dy), dx, RowsAlong(dy > 0, ys, y0), x0 - xs)
    modifies buffer
    ensures Painted(old(buffer[..]), buffer[..],
                    VWindow(Abs(dy), dx, xs, ys, dy > 0, x0, y0, xMax0, yMax0), shade)
  {
    hide Nearest, Decision, Pixel, Painted, VTrack, VRows, VWindow, AllOnScreen, VReach, VWalks, OnScreen, RowsAlong,
         Stands;
    var d, xMax, yMax := d0, xMax0, yMax0;
    var dyAbs := Abs(dy);
    var addV := if dy > 0 then BYTES_PER_SCANLINE else -BYTES_PER_SCANLINE;
    var pixelPos := x0 % 2;
    var p := BYTES_PER_SCANLINE * y0 + x0 / 2;
    ghost var b0, x, y, down := buffer[..], x0, y0, dy > 0;
    PaintedNothing(b0, shade);
    StandsFirst(x, y);
    VResumes(dyAbs, dx, xs, ys, down, x0, y0, xMax0, yMax0, d0);
    VReachIsOnScreen(dyAbs, dx, xs, ys, down, x0, y0, xMax0, yMax0, x, y, xMax, yMax, d);
    PutPixel(buffer, p, pixelPos, shade, x, y, b0, iset{});
    VStarts(dyAbs, dx, xs, ys, down, x0, y0, d0);
    while yMax > 0
      invariant VReach(down, x0, y0, xMax0, yMax0, x, y, xMax, yMax)
      invariant Stands(p, pixelPos, x, y)
      invariant VWalks(dyAbs, dx, xs, ys, down, x, y, d)
      invariant Painted(b0, buffer[..], VRows(dyAbs, dx, xs, ys, down, y0, y), shade)
    {
      ghost var track := VRows(dyAbs, dx, xs, ys, down, y0, y);
      VReachStep(down, x0, y0, xMax0, yMax0, x, y, xMax, yMax);
      VStep(dyAbs, dx, xs, ys, down, y0, x, y, d);
      StandsNext(p, pixelPos, x, y);
      yMax := yMax - 1;
      if d <= 0 {
        d := d + 2 * dx;
      } else {
        if xMax == 0 {
          VWalkFillsWindow(dyAbs, dx, xs, ys, down, x0, y0, xMax0, yMax0, x, y, xMax, yMax + 1, d);
          return;
        }
        d := d + 2 * (dx - dyAbs);
        xMax, x := xMax - 1, x + 1;
        pixelPos := pixelPos + 1;
        if pixelPos > 1 {
          p, pixelPos := p + 1, 0;
        }
      }
      StandsNext(p, pixelPos, x, y);
      p := p + addV;
      y := if down then y + 1 else y - 1;
      VReachIsOnScreen(dyAbs, dx, xs, ys, down, x0, y0, xMax0, yMax0, x, y, xMax, yMax, d);
      PutPixel(buffer, p, pixelPos, shade, x, y, b0, track);
    }
    VWalkFillsWindow(dyAbs, dx, xs, ys, down, x0, y0, xMax0, yMax0, x, y, xMax, yMax, d);
  }

  /** The whole steep walk from its start. */
  method DrawLineVMaxUnclipped(buffer: array<bv8>, x0: int, y0: int, dx: int, dy: int, shade: Shade)
    requires buffer.Length == BUFFER_SIZE && 0 <= dx <= Abs(dy)
    requires OnScreen(x0, y0) && OnScreen(x0 + dx, y0 + dy)
    modifies buffer
    ensures Painted(old(buffer[..]), buffer[..],
                    VTrack(Abs(dy), dx, x0, y0, dy > 0, 0, Abs(dy)), shade)
  {
    hide Nearest, Decision, Pixel, Painted, VTrack, VRows, VWalks, OnScreen, Stands;
    var dyAbs := Abs(dy);
    var left := dyAbs;
    var addV := if dy > 0 then BYTES_PER_SCANLINE else -BYTES_PER_SCANLINE;
    var d := 2 * dx - dyAbs;
    var pixelPos := x0 % 2;
    var p := BYTES_PER_SCANLINE * y0 + x0 / 2;
    ghost var b0, x, y, down := buffer[..], x0, y0, dy > 0;
    PaintedNothing(b0, shade);
    StandsFirst(x, y);
    VWalkBegins(dyAbs, dx, x0, y0, down);
    PutPixel(buffer, p, pixelPos, shade, x, y, b0, iset{});
    VStarts(dyAbs, dx, x0, y0, down, x0, y0, d);
    while left > 0
      invariant 0 <= left && RowsAlong(down, y0, y) + left == dyAbs
      invariant Stands(p, pixelPos, x, y)
      invariant VWalks(dyAbs, dx, x0, y0, down, x, y, d)
      invariant Painted(b0, buffer[..], VRows(dyAbs, dx, x0, y0, down, y0, y), shade)
    {
      ghost var track := VRows(dyAbs, dx, x0, y0, down, y0, y);
      VStep(dyAbs, dx, x0, y0, down, y0, x, y, d);
      StandsNext(p, pixelPos, x, y);
      left := left - 1;
      if d <= 0 {
        d := d + 2 * dx;
      } else {
        d := d + 2 * (dx - dyAbs);
        x, pixelPos := x + 1, pixelPos + 1;
        if pixelPos > 1 {
          p, pixelPos := p + 1, 0;
        }
      }
      StandsNext(p, pixelPos, x, y);
      p := p + addV;
      y := if down then y + 1 else y - 1;
      VWalkIsOnScreen(dx, dy, x0, y0, x, y, d);
      PutPixel(buffer, p, pixelPos, shade, x, y, b0, track);
    }
    VRowsAre(dyAbs, dx, x0, y0, down, y);
  }

  // ---- The public line routines ----

  lemma LineInsideBox(xs: int, ys: int, dx: int, dy: int, x: int, y: int)
    requires dx >= 0 && OnRightward(xs, ys, dx, dy, x, y)
    ensures 0 <= x - xs <= dx && 0 <= RowsAlong(dy > 0, ys, y) <= Abs(dy)
  {
    if dx > Abs(dy) {
      NearestRange(dx, Abs(dy), x - xs, RowsAlong(dy > 0, ys, y));
    } else {
      NearestRange(Abs(dy), dx, RowsAlong(dy > 0, ys, y), x - xs);
    }
  }

  lemma FlatNearest(a: int, k: int, m: int)
    requires a >= 0
    ensures Nearest(a, 0, k, m) <==> m == 0
  {
    assert Nearest(a, 0, k, 0);
    if Nearest(a, 0, k, m) {
      NearestUnique(a, 0, k, m, 0);
    }
  }

  lemma VerticalLine(x: int, y0: int, y1: int)
    ensures LinePixels(x, y0, x, y1) == VSpan(x, if y0 <= y1 then y0 else y1, (if y0 <= y1 then y1 else y0) + 1)
  {
    forall p: (int, int)
      ensures p in LinePixels(x, y0, x, y1) <==>
              p in VSpan(x, if y0 <= y1 then y0 else y1, (if y0 <= y1 then y1 else y0) + 1)
    {
      FlatNearest(Abs(y1 - y0), RowsAlong(y1 - y0 > 0, y0, p.1), p.0 - x);
    }
  }

  lemma HorizontalLine(y: int, x0: int, x1: int)
    ensures LinePixels(x0, y, x1, y) == HSpan(y, if x0 <= x1 then x0 else x1, (if x0 <= x1 then x1 else x0) + 1)
  {
    var xs, xe := if x0 <= x1 then x0 else x1, if x0 <= x1 then x1 else x0;
    forall p: (int, int)
      ensures p in LinePixels(x0, y, x1, y) <==> p in HSpan(y, xs, xe + 1)
    {
      FlatNearest(xe - xs, p.0 - xs, y - p.1);
    }
  }

  /** Draws exactly the line's pixels; the caller keeps the endpoints on the screen. */
  method DrawLineUnclipped(buffer: array<bv8>, x0: int, y0: int, x1: int, y1: int, shade: Shade)
    requires buffer.Length == BUFFER_SIZE && OnScreen(x0, y0) && OnScreen(x1, y1)
    modifies buffer
    ensures Painted(old(buffer[..]), buffer[..], LinePixels(x0, y0, x1, y1), shade)
  {
    hide Nearest, Pixel, Painted;
    var dx, dy := x1 - x0, y1 - y0;
    if dx == 0 {
      VerticalLine(x0, y0, y1);
      if dy >= 0 {
        DrawLineVertUnclipped(buffer, x0, y0, dy + 1, shade);
      } else {
        DrawLineVertUnclipped(buffer, x0, y1, -dy + 1, shade);
      }
      return;
    }
    if dy == 0 {
      HorizontalLine(y0, x0, x1);
      if dx >= 0 {
        DrawLineHorizUnclipped(buffer, y0, x0, dx + 1, shade);
      } else {
        DrawLineHorizUnclipped(buffer, y0, x1, -dx + 1, shade);
      }
      return;
    }
    var xs, ys := x0, y0;
    if dx < 0 {
      xs, ys, dx, dy := x1, y1, -dx, -dy;
    }
    if dx > Abs(dy) {
      DrawLineHMaxUnclipped(buffer, xs, ys, dx, dy, shade);
      assert HTrack(dx, Abs(dy), xs, ys, dy > 0, xs, xs + dx) == LinePixels(x0, y0, x1, y1);
    } else {
      DrawLineVMaxUnclipped(buffer, xs, ys, dx, dy, shade);
      assert VTrack(Abs(dy), dx, xs, ys, dy > 0, 0, Abs(dy)) == LinePixels(x0, y0, x1, y1);
    }
  }

  /** The clip's sides as distances from the line's start, as drawLineClipped computes them. */
  datatype Sides = Sides(hIn: int, hOut: int, vIn: int, vOut: int)

  function SidesOf(clip: Rect, xs: int, ys: int, dy: int): Sides {
    if dy > 0 then Sides(clip.xLeft - xs, clip.xRight - xs - 1, clip.yTop - ys, clip.yBottom - ys - 1)
    else Sides(clip.xLeft - xs, clip.xRight - xs - 1, ys - clip.yBottom + 1, ys - clip.yTop)
  }

  /** The part of a rightward line inside the clip. */
  ghost function ClippedPixels(clip: Rect, xs: int, ys: int, dx: int, dy: int): Region
    requires dx >= 0
  {
    iset p: (int, int) | OnRightward(xs, ys, dx, dy, p.0, p.1) && clip.Contains(p.0, p.1)
  }

  /** From the entry on, the window the resumed flat walk draws is the visible part of the line. */
  lemma HWindowIsClipped(clip: Rect, xs: int, ys: int, dx: int, dy: int, e: Entry, xMax: int, yMax: int)
    requires clip.xLeft < clip.xRight && clip.yTop < clip.yBottom && dx > Abs(dy)
    requires var s := SidesOf(clip, xs, ys, dy);
             && s.hIn <= dx && s.vIn <= Abs(dy) && 0 <= s.hOut && 0 <= s.vOut
             && FindEntry(dx, Abs(dy), s.hIn, s.hOut, s.vIn, s.vOut) == Some(e)
             && xMax == (if s.hOut - e.major < dx - e.major then s.hOut - e.major else dx - e.major)
             && yMax == (if s.vOut - e.minor < Abs(dy) - e.minor then s.vOut - e.minor else Abs(dy) - e.minor)
    ensures var y0 := if dy > 0 then ys + e.minor else ys - e.minor;
            && clip.Contains(xs + e.major, y0)
            && clip.Contains(xs + e.major + xMax, if dy > 0 then y0 + yMax else y0 - yMax)
            && 0 <= xMax && 0 <= yMax
            && Nearest(dx, Abs(dy), e.major, e.minor)
            && HWindow(dx, Abs(dy), xs, ys, dy > 0, xs + e.major, y0, xMax, yMax) == ClippedPixels(clip, xs, ys, dx, dy)
  {
    var s := SidesOf(clip, xs, ys, dy);
    var a, b := dx, Abs(dy);
    EntryIsFirstVisible(a, b, s.hIn, s.hOut, s.vIn, s.vOut);
    NearestRange(a, b, e.major, e.minor);
    hide Nearest, FindEntry;
    forall p: (int, int) | p in ClippedPixels(clip, xs, ys, dx, dy)
      ensures e.major <= p.0 - xs && e.minor <= RowsAlong(dy > 0, ys, p.1)
      ensures RowsAlong(dy > 0, ys, p.1) <= b
    {
      var rows := RowsAlong(dy > 0, ys, p.1);
      assert Visible(a, b, s.hIn, s.hOut, s.vIn, s.vOut, p.0 - xs, rows);
      NearestMonotone(a, b, e.major, e.minor, p.0 - xs, rows);
      NearestRange(a, b, p.0 - xs, rows);
    }
  }

  lemma VWindowIsClipped(clip: Rect, xs: int, ys: int, dx: int, dy: int, e: Entry, xMax: int, yMax: int)
    requires clip.xLeft < clip.xRight && clip.yTop < clip.yBottom && 0 <= dx <= Abs(dy)
    requires var s := SidesOf(clip, xs, ys, dy);
             && s.hIn <= dx && s.vIn <= Abs(dy) && 0 <= s.hOut && 0 <= s.vOut
             && FindEntry(Abs(dy), dx, s.vIn, s.vOut, s.hIn, s.hOut) == Some(e)
             && xMax == (if s.hOut - e.minor < dx - e.minor then s.hOut - e.minor else dx - e.minor)
             && yMax == (if s.vOut - e.major < Abs(dy) - e.major then s.vOut - e.major else Abs(dy) - e.major)
    ensures var y0 := if dy > 0 then ys + e.major else ys - e.major;
            && clip.Contains(xs + e.minor, y0)
            && clip.Contains(xs + e.minor + xMax, if dy > 0 then y0 + yMax else y0 - yMax)
            && 0 <= xMax && 0 <= yMax
            && 0 <= e.major && Nearest(Abs(dy), dx, e.major, e.minor)
            && VWindow(Abs(dy), dx, xs, ys, dy > 0, xs + e.minor, y0, xMax, yMax) == ClippedPixels(clip, xs, ys, dx, dy)
  {
    var s := SidesOf(clip, xs, ys, dy);
    var a, b := Abs(dy), dx;
    EntryIsFirstVisible(a, b, s.vIn, s.vOut, s.hIn, s.hOut);
    NearestRange(a, b, e.major, e.minor);
    hide Nearest, FindEntry;
    forall p: (int, int) | p in ClippedPixels(clip, xs, ys, dx, dy)
      ensures e.minor <= p.0 - xs && e.major <= RowsAlong(dy > 0, ys, p.1)
      ensures p.0 - xs <= b
    {
      var rows := RowsAlong(dy > 0, ys, p.1);
      assert Visible(a, b, s.vIn, s.vOut, s.hIn, s.hOut, rows, p.0 - xs);
      NearestMonotone(a, b, e.major, e.minor, rows, p.0 - xs);
      NearestRange(a, b, rows, p.0 - xs);
    }
  }

  /** Each early return of drawLineClipped is taken only when nothing of the line is visible. */
  lemma NothingVisible(clip: Rect, xs: int, ys: int, dx: int, dy: int)
    requires clip.BothOrNeither() && dx >= 0
    requires var s := SidesOf(clip, xs, ys, dy);
             || dx < s.hIn || Abs(dy) < s.vIn || s.vOut < 0 || s.hOut < 0
             || (dx > Abs(dy) && FindEntry(dx, Abs(dy), s.hIn, s.hOut, s.vIn, s.vOut).None?)
             || (dx <= Abs(dy) && FindEntry(Abs(dy), dx, s.vIn, s.vOut, s.hIn, s.hOut).None?)
    ensures ClippedPixels(clip, xs, ys, dx, dy) == iset{}
  {
    var s := SidesOf(clip, xs, ys, dy);
    forall p: (int, int) | p in ClippedPixels(clip, xs, ys, dx, dy)
      ensures false
    {
      LineInsideBox(xs, ys, dx, dy, p.0, p.1);
      var rows := RowsAlong(dy > 0, ys, p.1);
      if dx > Abs(dy) {
        EntryIsFirstVisible(dx, Abs(dy), s.hIn, s.hOut, s.vIn, s.vOut);
        assert Visible(dx, Abs(dy), s.hIn, s.hOut, s.vIn, s.vOut, p.0 - xs, rows);
      } else {
        EntryIsFirstVisible(Abs(dy), dx, s.vIn, s.vOut, s.hIn, s.hOut);
        assert Visible(Abs(dy), dx, s.vIn, s.vOut, s.hIn, s.hOut, rows, p.0 - xs);
      }
    }
  }

  /** How far the walk may still go from an entry, along one axis. */
  function Remaining(out: int, reach: int, at: int): int {
    Min(out - at, reach - at)
  }

  /** What drawLineClipped draws of a rightward line: nothing, or the walk resumed at the entry. */
  ghost function DrawnRightward(clip: Rect, xs: int, ys: int, dx: int, dy: int): Region
    requires dx >= 0
  {
    var s := SidesOf(clip, xs, ys, dy);
    if dx < s.hIn || Abs(dy) < s.vIn || s.vOut < 0 || s.hOut < 0 then iset{}
    else if dx > Abs(dy) then DrawnFlat(xs, ys, dx, dy, s)
    else DrawnSteep(xs, ys, dx, dy, s)
  }

  ghost function DrawnFlat(xs: int, ys: int, dx: int, dy: int, s: Sides): Region
    requires dx > Abs(dy) && s.hIn <= dx && s.vIn <= Abs(dy)
  {
    var entry := FindEntry(dx, Abs(dy), s.hIn, s.hOut, s.vIn, s.vOut);
    if entry.None? then iset{}
    else
      var e := entry.value;
      HWindow(dx, Abs(dy), xs, ys, dy > 0, xs + e.major, if dy > 0 then ys + e.minor else ys - e.minor,
              Remaining(s.hOut, dx, e.major), Remaining(s.vOut, Abs(dy), e.minor))
  }

  ghost function DrawnSteep(xs: int, ys: int, dx: int, dy: int, s: Sides): Region
    requires 0 <= dx <= Abs(dy) && s.hIn <= dx && s.vIn <= Abs(dy)
  {
    var entry := FindEntry(Abs(dy), dx, s.vIn, s.vOut, s.hIn, s.hOut);
    if entry.None? then iset{}
    else
      var e := entry.value;
      VWindow(Abs(dy), dx, xs, ys, dy > 0, xs + e.minor, if dy > 0 then ys + e.major else ys - e.major,
              Remaining(s.hOut, dx, e.minor), Remaining(s.vOut, Abs(dy), e.major))
  }

  ghost function Drawn(clip: Rect, x0: int, y0: int, x1: int, y1: int): Region {
    if x1 < x0 then DrawnRightward(clip, x1, y1, x0 - x1, y0 - y1)
    else DrawnRightward(clip, x0, y0, x1 - x0, y1 - y0)
  }

  /** With extent both ways or neither, what is drawn is exactly what is visible. */
  lemma DrawnIsVisible(clip: Rect, xs: int, ys: int, dx: int, dy: int)
    requires clip.BothOrNeither() && dx >= 0
    ensures DrawnRightward(clip, xs, ys, dx, dy) == ClippedPixels(clip, xs, ys, dx, dy)
  {
    var s := SidesOf(clip, xs, ys, dy);
    hide Nearest, HWindow, VWindow, ClippedPixels;
    if dx < s.hIn || Abs(dy) < s.vIn || s.vOut < 0 || s.hOut < 0 {
      NothingVisible(clip, xs, ys, dx, dy);
    } else if dx > Abs(dy) {
      var entry := FindEntry(dx, Abs(dy), s.hIn, s.hOut, s.vIn, s.vOut);
      if entry.None? {
        NothingVisible(clip, xs, ys, dx, dy);
      } else {
        EntryIsFirstVisible(dx, Abs(dy), s.hIn, s.hOut, s.vIn, s.vOut);
        hide FindEntry;
        var e := entry.value;
        HWindowIsClipped(clip, xs, ys, dx, dy, e, Remaining(s.hOut, dx, e.major), Remaining(s.vOut, Abs(dy), e.minor));
      }
    } else {
      var entry := FindEntry(Abs(dy), dx, s.vIn, s.vOut, s.hIn, s.hOut);
      if entry.None? {
        NothingVisible(clip, xs, ys, dx, dy);
      } else {
        EntryIsFirstVisible(Abs(dy), dx, s.vIn, s.vOut, s.hIn, s.hOut);
        hide FindEntry;
        var e := entry.value;
        VWindowIsClipped(clip, xs, ys, dx, dy, e, Remaining(s.hOut, dx, e.minor), Remaining(s.vOut, Abs(dy), e.major));
      }
    }
  }

  lemma VisibleEitherWay(clip: Rect, x0: int, y0: int, x1: int, y1: int)
    ensures LinePixels(x0, y0, x1, y1) * clip.Pixels() ==
            if x1 < x0 then ClippedPixels(clip, x1, y1, x0 - x1, y0 - y1)
            else ClippedPixels(clip, x0, y0, x1 - x0, y1 - y0)
  {
    hide Nearest;
  }

  /** A clip with rows but no columns: a horizontal line up to its left side is drawn one pixel into it. */
  lemma ColumnlessClipDraws(clip: Rect, y: int)
    requires clip.xLeft >= clip.xRight && clip.yTop <= y < clip.yBottom
    ensures Drawn(clip, clip.xRight - 1, y, clip.xLeft, y) == iset{(clip.xLeft, y)}
    ensures LinePixels(clip.xRight - 1, y, clip.xLeft, y) * clip.Pixels() == iset{}
  {
    var dx := clip.xLeft - (clip.xRight - 1);
    assert dx * 0 == 0 && 0 / dx == 0 && 0 % dx == 0;
    forall k, m
      ensures Nearest(dx, 0, k, m) <==> m == 0
    {
      FlatNearest(dx, k, m);
    }
    hide Nearest;
  }

  /** A clip with columns but no rows: the same of a vertical line. */
  lemma RowlessClipDraws(clip: Rect, x: int)
    requires clip.yTop >= clip.yBottom && clip.xLeft <= x < clip.xRight
    ensures Drawn(clip, x, clip.yBottom - 1, x, clip.yTop) == iset{(x, clip.yTop)}
    ensures LinePixels(x, clip.yBottom - 1, x, clip.yTop) * clip.Pixels() == iset{}
  {
    var dy := clip.yTop - (clip.yBottom - 1);
    assert dy * 0 == 0 && 0 / dy == 0 && 0 % dy == 0;
    forall k, m
      ensures Nearest(dy, 0, k, m) <==> m == 0
    {
      FlatNearest(dy, k, m);
    }
    hide Nearest;
  }

  /** Clipping is exact for every line precisely when the clip has extent both ways or neither. */
  lemma ClippingIsExact(clip: Rect)
    ensures clip.BothOrNeither() <==>
            forall x0, y0, x1, y1 :: Drawn(clip, x0, y0, x1, y1) == LinePixels(x0, y0, x1, y1) * clip.Pixels()
  {
    if clip.BothOrNeither() {
      forall x0, y0, x1, y1
        ensures Drawn(clip, x0, y0, x1, y1) == LinePixels(x0, y0, x1, y1) * clip.Pixels()
      {
        VisibleEitherWay(clip, x0, y0, x1, y1);
        if x1 < x0 {
          DrawnIsVisible(clip, x1, y1, x0 - x1, y0 - y1);
        } else {
          DrawnIsVisible(clip, x0, y0, x1 - x0, y1 - y0);
        }
      }
    } else if clip.yTop < clip.yBottom {
      ColumnlessClipDraws(clip, clip.yTop);
      assert (clip.xLeft, clip.yTop) in Drawn(clip, clip.xRight - 1, clip.yTop, clip.xLeft, clip.yTop);
    } else {
      RowlessClipDraws(clip, clip.xLeft);
      assert (clip.xLeft, clip.yTop) in Drawn(clip, clip.xLeft, clip.yBottom - 1, clip.xLeft, clip.yTop);
    }
  }

  /** The "hmax line" half of drawLineClipped, after the first rejections. */
  method DrawFlatClipped(buffer: array<bv8>, xs: int, ys: int, dx: int, dy: int, s: Sides, shade: Shade)
    requires buffer.Length == BUFFER_SIZE
    requires dx > Abs(dy) && s.hIn <= dx && s.vIn <= Abs(dy)
    requires AllOnScreen(DrawnFlat(xs, ys, dx, dy, s))
    modifies buffer
    ensures Painted(old(buffer[..]), buffer[..], DrawnFlat(xs, ys, dx, dy, s), shade)
  {
    PaintedNothing(buffer[..], shade);
    EntryIsOnLine(dx, Abs(dy), s.hIn, s.hOut, s.vIn, s.vOut);
    hide Nearest, Decision, Pixel, Painted, FindEntry, HWindow, AllOnScreen;
    var dyAbs := Abs(dy);
    var entry := FindEntry(dx, dyAbs, s.hIn, s.hOut, s.vIn, s.vOut);
    if entry.None? { return; }
    var xDelta, yDelta := entry.value.major, entry.value.minor;
    var yStart := if dy > 0 then ys + yDelta else ys - yDelta;
    var xMax := if s.hOut - xDelta < dx - xDelta then s.hOut - xDelta else dx - xDelta;
    var yMax := if s.vOut - yDelta < dyAbs - yDelta then s.vOut - yDelta else dyAbs - yDelta;
    var d := Decision(dx, dyAbs, xDelta, yDelta);
    DrawLineHMaxClipped(buffer, xs + xDelta, yStart, dx, dy, d, xMax, yMax, shade, xs, ys);
  }

  /** The "vmax line" half. */
  method DrawSteepClipped(buffer: array<bv8>, xs: int, ys: int, dx: int, dy: int, s: Sides, shade: Shade)
    requires buffer.Length == BUFFER_SIZE
    requires 0 <= dx <= Abs(dy) && s.hIn <= dx && s.vIn <= Abs(dy)
    requires AllOnScreen(DrawnSteep(xs, ys, dx, dy, s))
    modifies buffer
    ensures Painted(old(buffer[..]), buffer[..], DrawnSteep(xs, ys, dx, dy, s), shade)
  {
    PaintedNothing(buffer[..], shade);
    EntryIsOnLine(Abs(dy), dx, s.vIn, s.vOut, s.hIn, s.hOut);
    hide Nearest, Decision, Pixel, Painted, FindEntry, VWindow, AllOnScreen;
    var dyAbs := Abs(dy);
    var entry := FindEntry(dyAbs, dx, s.vIn, s.vOut, s.hIn, s.hOut);
    if entry.None? { return; }
    var yDelta, xDelta := entry.value.major, entry.value.minor;
    var yStart := if dy > 0 then ys + yDelta else ys - yDelta;
    var xMax := if s.hOut - xDelta < dx - xDelta then s.hOut - xDelta else dx - xDelta;
    var yMax := if s.vOut - yDelta < dyAbs - yDelta then s.vOut - yDelta else dyAbs - yDelta;
    var d := Decision(dyAbs, dx, yDelta, xDelta);
    DrawLineVMaxClipped(buffer, xs + xDelta, yStart, dx, dy, d, xMax, yMax, shade, xs, ys);
  }

  /**
   Draws exactly those pixels of the line that lie in the clip, for all endpoints and every clip with
   extent both ways or neither. For any other clip the caller must know that what is drawn stays on
   the screen. With `DrawLineUnclipped` this says the two routines agree wherever both apply.
   */
  method DrawLineClipped(buffer: array<bv8>, clip: Rect, x0: int, y0: int, x1: int, y1: int, shade: Shade)
    requires buffer.Length == BUFFER_SIZE
    requires (clip.WithinScreen() && clip.BothOrNeither()) || AllOnScreen(Drawn(clip, x0, y0, x1, y1))
    modifies buffer
    ensures Painted(old(buffer[..]), buffer[..], Drawn(clip, x0, y0, x1, y1), shade)
    ensures clip.BothOrNeither() ==>
              Painted(old(buffer[..]), buffer[..], LinePixels(x0, y0, x1, y1) * clip.Pixels(), shade)
  {
    hide Nearest, Pixel, Painted, AllOnScreen, DrawnFlat, DrawnSteep, LinePixels;
    hide Rect.Pixels, Rect.WithinScreen, Rect.BothOrNeither;
    if clip.BothOrNeither() { DrawnOnScreen(clip, x0, y0, x1, y1); }
    PaintedNothing(buffer[..], shade);
    var dx, dy, xs, ys := x1 - x0, y1 - y0, x0, y0;
    if dx < 0 {
      xs, ys, dx, dy := x1, y1, -dx, -dy;
    }
    assert Drawn(clip, x0, y0, x1, y1) == DrawnRightward(clip, xs, ys, dx, dy);
    hide Drawn;
    var s := SidesOf(clip, xs, ys, dy);
    if dx < s.hIn || Abs(dy) < s.vIn || s.vOut < 0 || s.hOut < 0 { return; }
    if dx > Abs(dy) {
      DrawFlatClipped(buffer, xs, ys, dx, dy, s, shade);
    } else {
      DrawSteepClipped(buffer, xs, ys, dx, dy, s, shade);
    }
  }

  lemma DrawnOnScreen(clip: Rect, x0: int, y0: int, x1: int, y1: int)
    requires clip.BothOrNeither()
    ensures Drawn(clip, x0, y0, x1, y1) == LinePixels(x0, y0, x1, y1) * clip.Pixels()
    ensures clip.WithinScreen() ==> AllOnScreen(Drawn(clip, x0, y0, x1, y1))
  {
    ClippingIsExact(clip);
    hide Drawn, LinePixels;
  }
}
