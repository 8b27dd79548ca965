/**
 How draw_screen shares the rows of the screen among its windows.
 */
module Layout {
  import opened Common

  datatype WinState = Normal | Hidden | Maximized

  /** A window; a fixed one has only its height, a flexible one a weight and a least height as well. */
  datatype Window = Window(isFixed: bool, isPersistent: bool, height: int, weight: int, minHeight: int, state: WinState)

  ghost predicate WeightsOk(ws: seq<Window>) {
    forall i | 0 <= i < |ws| && !ws[i].isFixed :: ws[i].weight > 0
  }

  /** The window is drawn, given which one is maximized (-1 for none). */
  predicate Shown(w: Window, i: int, maximized: int) {
    w.state != Hidden && !(maximized != i && maximized >= 0 && !w.isPersistent)
  }

  /** The rows of the first `n` windows that are shown. */
  ghost function ShownRows(ws: seq<Window>, maximized: int, n: nat): int
    requires n <= |ws|
  {
    if n == 0 then 0
    else ShownRows(ws, maximized, n - 1) + if Shown(ws[n - 1], n - 1, maximized) then ws[n - 1].height else 0
  }

  /** At most one flexible window stays maximized; any other claim is set back to normal. */
  method FindMaximized(ws: seq<Window>) returns (ws': seq<Window>, maximized: int)
    ensures |ws'| == |ws| && -1 <= maximized < |ws|
    ensures forall i | 0 <= i < |ws| ::
              ws'[i] == ws[i] || (ws[i].state == Maximized && ws'[i] == ws[i].(state := Normal))
    ensures forall i | 0 <= i < |ws| :: ws'[i].state == Maximized <==> i == maximized
    ensures maximized >= 0 ==> !ws'[maximized].isFixed
    ensures maximized == -1 ==> forall i | 0 <= i < |ws| :: ws[i].state == Maximized ==> ws[i].isFixed
  {
    ws', maximized := ws, -1;
    var i := 0;
    while i < |ws|
      invariant 0 <= i <= |ws| == |ws'| && -1 <= maximized < i
      invariant forall j | 0 <= j < |ws| ::
                  ws'[j] == ws[j] || (ws[j].state == Maximized && ws'[j] == ws[j].(state := Normal))
      invariant forall j | i <= j < |ws| :: ws'[j] == ws[j]
      invariant forall j | 0 <= j < i :: ws'[j].state == Maximized <==> j == maximized
      invariant maximized >= 0 ==> !ws'[maximized].isFixed
      invariant maximized == -1 ==> forall j | 0 <= j < i :: ws[j].state == Maximized ==> ws[j].isFixed
    {
      if ws'[i].state == Maximized {
        if ws'[i].isFixed || maximized >= 0 {
          ws' := ws'[i := ws'[i].(state := Normal)];
        } else {
          maximized := i;
        }
      }
      i := i + 1;
    }
  }

  /** The least rows a window can be given. */
  function LeastRows(w: Window): int {
    if w.isFixed then w.height else w.minHeight
  }

  ghost function Needed(ws: seq<Window>, maximized: int, n: nat): int
    requires n <= |ws|
  {
    if n == 0 then 0
    else Needed(ws, maximized, n - 1) + if Shown(ws[n - 1], n - 1, maximized) then LeastRows(ws[n - 1]) else 0
  }

  predicate Sharing(w: Window) {
    w.state != Hidden && !w.isFixed
  }

  ghost function Weights(ws: seq<Window>, n: nat): int
    requires n <= |ws|
  {
    if n == 0 then 0 else Weights(ws, n - 1) + if Sharing(ws[n - 1]) then ws[n - 1].weight else 0
  }

  /** "Calculate screen information": the rows left over and the total weight. */
  method Measure(ws: seq<Window>, maximized: int, screenHeight: int)
    returns (ws': seq<Window>, available: int, total: int)
    requires -1 <= maximized < |ws|
    requires maximized >= 0 ==> ws[maximized].state != Hidden && !ws[maximized].isFixed
    ensures |ws'| == |ws|
    ensures available == screenHeight - Needed(ws, maximized, |ws|)
    ensures maximized < 0 ==> ws' == ws && total == Weights(ws, |ws|)
    ensures forall i | 0 <= i < |ws| ::
              ws'[i] == if maximized >= 0 && i != maximized && Shown(ws[i], i, maximized)
                        then ws[i].(height := LeastRows(ws[i])) else ws[i]
  {
    ws', available, total := ws, screenHeight, 0;
    var i := 0;
    while i < |ws|
      invariant 0 <= i <= |ws| == |ws'|
      invariant available == screenHeight - Needed(ws, maximized, i)
      invariant maximized < 0 ==> ws' == ws && total == Weights(ws, i)
      invariant forall j | i <= j < |ws| :: ws'[j] == ws[j]
      invariant forall j | 0 <= j < i ::
                  ws'[j] == if maximized >= 0 && j != maximized && Shown(ws[j], j, maximized)
                            then ws[j].(height := LeastRows(ws[j])) else ws[j]
    {
      if ws'[i].state != Hidden {
        if maximized >= 0 {
          if i != maximized && ws'[i].isPersistent {
            if !ws'[i].isFixed {
              ws' := ws'[i := ws'[i].(height := ws'[i].minHeight)];
            }
            available := available - ws'[i].height;
          } else if i == maximized {
            available := available - ws'[i].minHeight;
          }
        } else if !ws'[i].isFixed {
          total := total + ws'[i].weight;
          available := available - ws'[i].minHeight;
        } else {
          available := available - ws'[i].height;
        }
      }
      i := i + 1;
    }
  }

  function CeilDiv(n: int, d: int): int
    requires d > 0
  {
    -((-n) / d)
  }

  lemma CeilDivCovers(n: int, d: int)
    requires d > 0
    ensures d * CeilDiv(n, d) >= n && d * CeilDiv(n, d) < n + d
    ensures n >= 0 ==> CeilDiv(n, d) >= 0
  {
    var q := (-n) / d;
    assert -n == d * q + (-n) % d;
  }

  /** A share of the spare rows, rounded up and cut to what is left. */
  function ShareOf(available: int, used: int, weight: int, total: int): int
    requires total > 0
  {
    var share := CeilDiv(available * weight, total);
    if available - used < share then available - used else share
  }

  /** The share is the proportion rounded up, unless fewer rows are left. */
  lemma ShareInNumbers(available: int, used: int, weight: int, total: int, least: int)
    requires total > 0 && weight >= 0 && 0 <= used <= available
    ensures var e := ShareOf(available, used, weight, total);
            HasShare(e + least, least, weight, available, total, used) && 0 <= e <= available - used
  {
    hide CeilDiv;
    var e, c := ShareOf(available, used, weight, total), CeilDiv(available * weight, total);
    MulKeepsOrder(weight, 0, available);
    CeilDivCovers(available * weight, total);
    MulKeepsOrder(total, e, c);
  }

  /** The program's own three flexible windows, 20, 50 and 50 by weight, share 24 rows as 4, 10 and 10. */
  lemma OwnWindowsShare()
    ensures ShareOf(24, 0, 20, 120) == 4 && ShareOf(24, 4, 50, 120) == 10 && ShareOf(24, 14, 50, 120) == 10
  {
  }

  /** The extra rows of the first `n` windows that share. */
  ghost function Extras(ws: seq<Window>, ws': seq<Window>, n: nat): int
    requires n <= |ws| == |ws'|
  {
    if n == 0 then 0
    else Extras(ws, ws', n - 1)
         + if ws[n - 1].state != Hidden && !ws[n - 1].isFixed then ws'[n - 1].height - ws[n - 1].minHeight else 0
  }

  /** A window's extra rows are its proportion of the available ones, rounded up, or what is left of them. */
  predicate HasShare(height: int, minHeight: int, weight: int, available: int, total: int, sofar: int) {
    var e := height - minHeight;
    && 0 <= e && sofar + e <= available && e * total < available * weight + total
    && (e * total >= available * weight || sofar + e == available)
    && (sofar == available ==> e == 0)
  }

  /** Every window that shares has its share of what those before it left. */
  ghost predicate Shared(ws: seq<Window>, ws': seq<Window>, available: int, total: int, n: nat)
    requires n <= |ws| == |ws'|
  {
    forall i | 0 <= i < n && ws[i].state != Hidden && !ws[i].isFixed ::
      HasShare(ws'[i].height, ws[i].minHeight, ws[i].weight, available, total, Extras(ws, ws', i))
  }

  lemma {:induction false} ExtrasUnchanged(ws: seq<Window>, a: seq<Window>, b: seq<Window>, n: nat)
    requires n <= |ws| == |a| == |b| && forall j | 0 <= j < n :: a[j] == b[j]
    ensures Extras(ws, a, n) == Extras(ws, b, n)
  {
    if n > 0 { ExtrasUnchanged(ws, a, b, n - 1); }
  }

  lemma {:induction false} SharedUnchanged(ws: seq<Window>, a: seq<Window>, b: seq<Window>, available: int, total: int,
                                           n: nat)
    requires n <= |ws| == |a| == |b| && Shared(ws, a, available, total, n) && forall j | 0 <= j < n :: a[j] == b[j]
    ensures Shared(ws, b, available, total, n)
  {
    hide HasShare, Extras;
    forall i | 0 <= i < n ensures Extras(ws, b, i) == Extras(ws, a, i) { ExtrasUnchanged(ws, a, b, i); }
  }

  /** The rows handed out are all of them, or at least in proportion to the weight served. */
  ghost predicate KeepsUp(available: int, used: int, sofar: int, total: int) {
    0 <= used <= available && (used == available || used * total >= available * sofar)
  }

  lemma ShareKeepsUp(available: int, used: int, sofar: int, weight: int, total: int)
    requires total > 0 && weight > 0 && KeepsUp(available, used, sofar, total)
    ensures ShareOf(available, used, weight, total) >= 0
    ensures KeepsUp(available, used + ShareOf(available, used, weight, total), sofar + weight, total)
  {
    assert available * weight >= 0;
    CeilDivCovers(available * weight, total);
    var c := CeilDiv(available * weight, total);
    hide CeilDiv;
    assert (used + c) * total == used * total + total * c;
    assert available * (sofar + weight) == available * sofar + available * weight;
  }

  lemma {:induction false} WeightsPositive(ws: seq<Window>, n: nat, m: nat)
    requires n <= m <= |ws| && WeightsOk(ws)
    ensures Weights(ws, n) <= Weights(ws, m)
    ensures n < m && Sharing(ws[n]) ==> Weights(ws, n) < Weights(ws, m)
    decreases m - n
  {
    if n < m {
      WeightsPositive(ws, n, m - 1);
    }
  }

  /** "Set auto-sized heights": each share is rounded up and cut to what is left. */
  method Share(ws: seq<Window>, available: int, total: int) returns (ws': seq<Window>)
    requires WeightsOk(ws) && available >= 0 && total == Weights(ws, |ws|)
    ensures |ws'| == |ws|
    ensures forall i | 0 <= i < |ws| :: ws'[i] == ws[i].(height := ws'[i].height)
    ensures forall i | 0 <= i < |ws| :: if Sharing(ws[i]) then ws'[i].height >= ws[i].minHeight else ws'[i] == ws[i]
    ensures ShownRows(ws', -1, |ws|) ==
            Needed(ws, -1, |ws|) + if exists i :: 0 <= i < |ws| && Sharing(ws[i]) then available else 0
    ensures Shared(ws, ws', available, total, |ws|)
  {
    hide ShareOf, Shared, Extras, HasShare, ShownRows, Needed, Weights;
    assert ShownRows(ws, -1, 0) == Needed(ws, -1, 0) && Weights(ws, 0) == 0 by { NothingYet(ws); }
    ws' := ws;
    var used, i := 0, 0;
    assert KeepsUp(available, 0, 0, total);
    NothingShared(ws, available, total);
    hide KeepsUp;
    while i < |ws|
      invariant 0 <= i <= |ws| == |ws'| && KeepsUp(available, used, Weights(ws, i), total)
      invariant forall j | 0 <= j < |ws| :: ws'[j] == ws[j].(height := ws'[j].height)
      invariant forall j | 0 <= j < i :: if Sharing(ws[j]) then ws'[j].height >= ws[j].minHeight else ws'[j] == ws[j]
      invariant forall j | i <= j < |ws| :: ws'[j] == ws[j]
      invariant ShownRows(ws', -1, i) == Needed(ws, -1, i) + used
      invariant (forall j | 0 <= j < i :: !Sharing(ws[j])) ==> used == 0
      invariant 0 <= used <= available
      invariant Shared(ws, ws', available, total, i) && Extras(ws, ws', i) == used
    {
      ghost var before, usedBefore := ws', used;
      if Sharing(ws'[i]) {
        WeightsPositive(ws, i, |ws|);
        WeightsPositive(ws, 0, i);
        ShareKeepsUp(available, used, Weights(ws, i), ws[i].weight, total);
        ShareInNumbers(available, used, ws[i].weight, total, ws[i].minHeight);
        var share := ShareOf(available, used, ws'[i].weight, total);
        used := used + share;
        ws' := ws'[i := ws'[i].(height := share + ws'[i].minHeight)];
      }
      RowsUnchanged(before, ws', -1, i);
      TotalsGrow(ws, ws', i);
      OneMoreShared(ws, before, ws', available, total, i, usedBefore);
      i := i + 1;
    }
    if exists j :: 0 <= j < |ws| && Sharing(ws[j]) {
      var j :| 0 <= j < |ws| && Sharing(ws[j]);
      WeightsPositive(ws, j, |ws|);
      WeightsPositive(ws, 0, j);
      AllHandedOut(available, used, total);
    }
  }

  lemma {:induction false} NothingYet(ws: seq<Window>)
    ensures ShownRows(ws, -1, 0) == Needed(ws, -1, 0) == Weights(ws, 0) == 0
  {
  }

  /** One window more, in all three totals. */
  lemma {:induction false} TotalsGrow(ws: seq<Window>, ws': seq<Window>, i: nat)
    requires i < |ws| == |ws'| && ws'[i] == ws[i].(height := ws'[i].height)
    ensures Weights(ws, i + 1) == Weights(ws, i) + if Sharing(ws[i]) then ws[i].weight else 0
    ensures Needed(ws, -1, i + 1) == Needed(ws, -1, i) + if ws[i].state != Hidden then LeastRows(ws[i]) else 0
    ensures ShownRows(ws', -1, i + 1) == ShownRows(ws', -1, i) + if ws[i].state != Hidden then ws'[i].height else 0
  {
  }

  lemma {:induction false} NothingShared(ws: seq<Window>, available: int, total: int)
    ensures Shared(ws, ws, available, total, 0) && Extras(ws, ws, 0) == 0
  {
  }

  lemma {:induction false} OneMoreShared(ws: seq<Window>, a: seq<Window>, b: seq<Window>, available: int, total: int,
                                         i: nat, used: int)
    requires i < |ws| == |a| == |b| && forall j | 0 <= j < i :: a[j] == b[j]
    requires Shared(ws, a, available, total, i) && Extras(ws, a, i) == used
    requires Sharing(ws[i]) ==>
               HasShare(b[i].height, ws[i].minHeight, ws[i].weight, available, total, used)
    ensures Shared(ws, b, available, total, i + 1)
    ensures Extras(ws, b, i + 1) == used + if Sharing(ws[i]) then b[i].height - ws[i].minHeight else 0
  {
    hide HasShare, Extras;
    SharedUnchanged(ws, a, b, available, total, i);
    ExtrasUnchanged(ws, a, b, i);
    ExtrasNext(ws, b, i);
  }

  lemma {:induction false} ExtrasNext(ws: seq<Window>, ws': seq<Window>, i: nat)
    requires i < |ws| == |ws'|
    ensures Extras(ws, ws', i + 1)
            == Extras(ws, ws', i) + if Sharing(ws[i]) then ws'[i].height - ws[i].minHeight else 0
  {
  }

  lemma AllHandedOut(available: int, used: int, total: int)
    requires total > 0 && KeepsUp(available, used, total, total)
    ensures used == available
  {
    if used != available { CancelTotal(used, available, total); }
  }

  lemma CancelTotal(p: int, q: int, c: int)
    requires c > 0 && p * c >= q * c
    ensures p >= q
  {
  }

  lemma {:induction false} RowsUnchanged(a: seq<Window>, b: seq<Window>, maximized: int, n: nat)
    requires n <= |a| == |b| && forall j | 0 <= j < n :: a[j] == b[j]
    ensures ShownRows(a, maximized, n) == ShownRows(b, maximized, n)
  {
    if n > 0 { RowsUnchanged(a, b, maximized, n - 1); }
  }

  /** With one window maximized, the others shown keep their least rows. */
  lemma {:induction false} RowsOfOthers(ws: seq<Window>, ws': seq<Window>, maximized: int, n: nat)
    requires 0 <= maximized < |ws| == |ws'| && n <= |ws|
    requires forall i | 0 <= i < |ws| :: Shown(ws'[i], i, maximized) == Shown(ws[i], i, maximized)
    requires forall i | 0 <= i < |ws| && i != maximized && Shown(ws[i], i, maximized) ::
               ws'[i].height == LeastRows(ws[i])
    requires ws[maximized].state != Hidden
    ensures ShownRows(ws', maximized, n) ==
            Needed(ws, maximized, n) + if maximized < n then ws'[maximized].height - LeastRows(ws[maximized]) else 0
  {
    if n > 0 { RowsOfOthers(ws, ws', maximized, n - 1); }
  }

  /**
   The whole computation. When the screen is large enough and some flexible window is visible, the
   windows shown fill it exactly, with or without a maximized one, and each has at least its least rows.
   */
  method DrawScreen(ws0: seq<Window>, screenHeight: int, screenWidth: int)
    returns (ws: seq<Window>, maximized: int, tooSmall: bool, tops: seq<int>)
    requires WeightsOk(ws0)
    ensures |ws| == |ws0| && -1 <= maximized < |ws0|
    ensures forall i | 0 <= i < |ws| :: ws[i].state == Maximized <==> i == maximized
    ensures tooSmall <==> screenHeight < Needed(ws, maximized, |ws|) || screenWidth < 45
    ensures !tooSmall && (maximized >= 0 || exists i :: 0 <= i < |ws| && Sharing(ws[i])) ==>
              ShownRows(ws, maximized, |ws|) == screenHeight
    ensures !tooSmall ==>
              forall i | 0 <= i < |ws| && Shown(ws[i], i, maximized) :: ws[i].height >= LeastRows(ws[i])
    ensures forall i | 0 <= i < |ws| && ws0[i].isFixed :: ws[i].height == ws0[i].height
    ensures !tooSmall && maximized < 0 ==>
              Shared(ws0, ws, screenHeight - Needed(ws, maximized, |ws|), Weights(ws0, |ws0|), |ws0|)
    ensures !tooSmall ==> |tops| == |ws| && forall i | 0 <= i < |ws| :: tops[i] == ShownRows(ws, maximized, i)
  {
    hide ShownRows, Needed, Weights, Shared, Extras;
    var start, available, total;
    start, maximized := FindMaximized(ws0);
    ws, available, total := Measure(start, maximized, screenHeight);
    SameNeeds(start, ws, maximized, |ws|);
    tooSmall := available < 0 || screenWidth < 45;
    tops := [];
    if tooSmall { return; }
    ghost var measured := ws;
    if maximized >= 0 {
      ws := ws[maximized := ws[maximized].(height := available + ws[maximized].minHeight)];
      SameNeeds(measured, ws, maximized, |ws|);
      RowsOfOthers(start, ws, maximized, |ws|);
    } else {
      ws := Share(ws, available, total);
      SameNeeds(measured, ws, maximized, |ws|);
      NormalSharesAlike(ws0, start, |ws0|);
      SharedAlike(ws0, start, ws, available, total, |ws0|);
    }
    tops := CreateWindows(ws, maximized);
  }

  /** "Create windows": each one shown begins below those shown before it. */
  method CreateWindows(ws: seq<Window>, maximized: int) returns (tops: seq<int>)
    ensures |tops| == |ws| && forall i | 0 <= i < |ws| :: tops[i] == ShownRows(ws, maximized, i)
  {
    tops := [];
    var top, i := 0, 0;
    while i < |ws|
      invariant 0 <= i <= |ws| && |tops| == i && top == ShownRows(ws, maximized, i)
      invariant forall j | 0 <= j < i :: tops[j] == ShownRows(ws, maximized, j)
    {
      tops := tops + [top];
      if !(ws[i].state == Hidden || (maximized != i && maximized >= 0 && !ws[i].isPersistent)) {
        top := top + ws[i].height;
      }
      i := i + 1;
    }
  }

  /** Setting a window back to normal changes neither whether it shares nor with what weight. */
  ghost predicate SameShares(a: seq<Window>, b: seq<Window>) {
    |a| == |b| && forall i | 0 <= i < |a| ::
      b[i] == a[i] || (a[i].state == Maximized && b[i] == a[i].(state := Normal))
  }

  lemma {:induction false} NormalSharesAlike(a: seq<Window>, b: seq<Window>, n: nat)
    requires SameShares(a, b) && n <= |a|
    ensures Weights(a, n) == Weights(b, n)
  {
    if n > 0 { NormalSharesAlike(a, b, n - 1); }
  }

  lemma {:induction false} ExtrasAlike(a: seq<Window>, b: seq<Window>, ws: seq<Window>, n: nat)
    requires SameShares(a, b) && n <= |a| == |ws|
    ensures Extras(a, ws, n) == Extras(b, ws, n)
  {
    if n > 0 { ExtrasAlike(a, b, ws, n - 1); }
  }

  lemma {:induction false} SharedAlike(a: seq<Window>, b: seq<Window>, ws: seq<Window>, available: int,
                                       total: int, n: nat)
    requires SameShares(a, b) && n <= |a| == |ws| && Shared(b, ws, available, total, n)
    ensures Shared(a, ws, available, total, n)
  {
    hide HasShare, Extras;
    forall i | 0 <= i < n ensures Extras(a, ws, i) == Extras(b, ws, i) { ExtrasAlike(a, b, ws, i); }
  }

  lemma {:induction false} SameNeeds(a: seq<Window>, b: seq<Window>, maximized: int, n: nat)
    requires n <= |a| == |b|
    requires forall i | 0 <= i < |a| :: b[i] == a[i].(height := b[i].height) && (a[i].isFixed ==> b[i] == a[i])
    ensures Needed(a, maximized, n) == Needed(b, maximized, n)
  {
    if n > 0 { SameNeeds(a, b, maximized, n - 1); }
  }
}
