/**
 The song picker: running sums kept through every rating change, and the retry loop with its repeat
 counters. Random numbers are an input sequence; the square root is passed in.
 */
module Picker {
  import opened Common
  import opened Ratings

  /** One pass of the loop: the candidate drawn and the value drawn against its area. */
  datatype Draw = Draw(candidate: nat, value: real)

  /** What other threads can do to the database while start_song_picker has let go of it. */
  datatype Change =
    | Played(song: nat)
    | Skipped(song: nat)
    | Rated(song: nat, relative: bool, amount: int)
    | Loaded(song: nat, stat: Stat) // a statistics file is read, or pick_song counts down: the sums are not told
    | Biased(weight: real)          // the user sets the bias: the sums are not told
    | Zeroed                        // another start_song_picker begins
    | Added(song: nat)              // and adds one song

  function Changed(s: Stat, c: Change): Stat {
    match c
    case Played(_) => s.(playCount := s.playCount + 1)
    case Skipped(_) => s.(skipCount := s.skipCount + 1)
    case Rated(_, relative, amount) =>
      s.(manualRating := ClampRating(if relative then s.manualRating + amount else amount))
    case Loaded(_, stat) => stat
    case _ => s
  }

  /** What the sums are about. */
  datatype Book = Book(songs: seq<Stat>, bias: real) {

    ghost function Upto(i: nat): Sums
      requires i <= |songs|
    {
      Totals(songs[..i], bias)
    }

    ghost function From(i: nat): Sums
      requires i <= |songs|
    {
      Totals(songs[i..], bias)
    }

    ghost function All(): Sums {
      Totals(songs, bias)
    }

    function TermOf(song: nat): Sums
      requires song < |songs|
    {
      Term(songs[song], bias)
    }

    predicate Allows(c: Change) {
      match c
      case Biased(weight) => BiasOk(weight)
      case Zeroed => true
      case _ => c.song < |songs|
    }

    function After(c: Change): (b: Book)
      requires Allows(c)
      ensures |b.songs| == |songs|
    {
      match c
      case Biased(weight) => this.(bias := weight)
      case Zeroed => this
      case _ => this.(songs := songs[c.song := Changed(songs[c.song], c)])
    }
  }

  class Database {
    var bias: real
    var songs: seq<Stat>
    var sum: real
    var sqrSum: real
    var playSum: int
    var playSqrSum: int
    var skipSum: int
    var skipSqrSum: int

    /** The six sums as they are kept. */
    ghost function Kept(): Sums
      reads this
    {
      Sums(sum, sqrSum, playSum, playSqrSum, skipSum, skipSqrSum)
    }

    function Contents(): Book
      reads this
    {
      Book(songs, bias)
    }

    /** They are what the songs add up to. */
    ghost predicate Valid()
      reads this
    {
      BiasOk(bias) && Kept() == Totals(songs, bias)
    }

    constructor (bias: real, songs: seq<Stat>)
      requires BiasOk(bias)
      ensures this.bias == bias && this.songs == songs && Valid()
    {
      this.bias, this.songs := bias, songs;
      sum, sqrSum, playSum, playSqrSum, skipSum, skipSqrSum := 0.0, 0.0, 0, 0, 0, 0;
      new;
      var quiet := seq(|songs|, _ => []);
      QuietGaps(Book(songs, bias), quiet, 0);
      StartSongPicker(quiet);
    }

    /**
     Adds up all songs, one at a time. Before each the empeg build lets go of the database, and `gaps`
     says what happens then. The sums come out as the true ones plus what the changes make them drift.
     */
    method StartSongPicker(gaps: seq<seq<Change>>)
      requires BiasOk(bias) && |gaps| == |songs| && GapsAllowed(gaps, |songs|)
      modifies this
      ensures Contents() == AfterGaps(old(Contents()), gaps) && BiasOk(bias)
      ensures Kept() == Totals(songs, bias).Plus(DriftGaps(ZERO, old(Contents()), gaps, 0))
      ensures Valid() <==> DriftGaps(ZERO, old(Contents()), gaps, 0) == ZERO
    {
      hide Totals, Term, ZERO, Sums.Plus, Sums.Minus, DriftGaps, AfterGaps, GapsAllowed, GapAllowed, AfterGap, Drift;
      ghost var drift, start := ZERO, Contents();
      Zero();
      var i := 0;
      assert gaps[0..] == gaps;
      NothingAdded(start);
      while i < |songs|
        invariant 0 <= i <= |songs| == |start.songs| && BiasOk(bias)
        invariant GapsAllowed(gaps[i..], |songs|)
        invariant AfterGaps(Contents(), gaps[i..]) == AfterGaps(start, gaps)
        invariant DriftGaps(drift, Contents(), gaps[i..], i) == DriftGaps(ZERO, start, gaps, 0)
        invariant Kept() == Contents().Upto(i).Plus(drift)
      {
        ghost var before := Contents();
        assert gaps[i..][0] == gaps[i] && gaps[i..][1..] == gaps[i + 1..];
        GapsUnfold(drift, before, gaps[i..], i);
        Interfere(gaps[i], i, drift);
        drift := Drift(drift, before, gaps[i], i);
        OneMoreAdded(Contents(), i, drift);
        AddSong(songs[i]);
        i := i + 1;
      }
      assert songs[..i] == songs && gaps[i..] == [];
      NoGapsLeft(drift, Contents(), i);
      SumsAlgebra(Kept(), Totals(songs, bias), drift);
    }

    /** The sums start again. */
    method Zero()
      modifies `sum, `sqrSum, `playSum, `playSqrSum, `skipSum, `skipSqrSum
      ensures Kept() == ZERO
    {
      sum, sqrSum, playSum, playSqrSum, skipSum, skipSqrSum := 0.0, 0.0, 0, 0, 0, 0;
    }

    /** One song's terms are added. */
    method AddSong(s: Stat)
      modifies `sum, `sqrSum, `playSum, `playSqrSum, `skipSum, `skipSqrSum
      ensures Kept() == old(Kept()).Plus(Term(s, bias))
    {
      var rating := GetRating(s, bias);
      sum := sum + rating;
      sqrSum := sqrSum + rating * rating;
      playSum := playSum + s.playCount;
      playSqrSum := playSqrSum + CountSquare(s.playCount);
      skipSum := skipSum + s.skipCount;
      skipSqrSum := skipSqrSum + CountSquare(s.skipCount);
    }

    /** Other threads' changes while the loop stands before song `i`. */
    method Interfere(gap: seq<Change>, i: nat, ghost drift: Sums)
      requires BiasOk(bias) && GapAllowed(gap, |songs|) && i <= |songs|
      requires Kept() == Contents().Upto(i).Plus(drift)
      modifies this
      ensures Contents() == AfterGap(old(Contents()), gap) && BiasOk(bias)
      ensures Kept() == Contents().Upto(i).Plus(Drift(drift, old(Contents()), gap, i))
    {
      hide Totals, Term, ZERO, Sums.Plus, Sums.Minus, Drift, DriftOne, AfterGap, Changed, GapAllowed, KeptOne,
           Book.Upto;
      ghost var d, start := drift, Contents();
      var k := 0;
      assert gap[0..] == gap;
      while k < |gap|
        invariant 0 <= k <= |gap| && |songs| == |start.songs| && BiasOk(bias) && GapAllowed(gap[k..], |songs|)
        invariant AfterGap(Contents(), gap[k..]) == AfterGap(start, gap)
        invariant Drift(d, Contents(), gap[k..], i) == Drift(drift, start, gap, i)
        invariant Kept() == Contents().Upto(i).Plus(d)
      {
        ghost var before, kept := Contents(), Kept();
        assert gap[k..][0] == gap[k] && gap[k..][1..] == gap[k + 1..];
        GapUnfolds(d, before, gap[k..], i);
        Obey(gap[k]);
        KeptAndDrift(kept, before, gap[k], i, d);
        d := DriftOne(d, before, gap[k], i);
        k := k + 1;
      }
      assert gap[k..] == [];
      GapIsOver(d, Contents(), i);
    }

    /** One change by another thread. */
    method Obey(c: Change)
      requires BiasOk(bias) && Contents().Allows(c)
      modifies this
      ensures Contents() == old(Contents()).After(c) && BiasOk(bias)
      ensures Kept() == KeptOne(old(Kept()), old(Contents()), c)
    {
      hide Totals, Term, Sums.Plus, Sums.Minus, GetRating;
      match c {
        case Played(song) => Feedback(song, 1);
        case Skipped(song) => Feedback(song, -1);
        case Rated(song, relative, amount) => AdjustRating(song, relative, amount);
        case Loaded(song, stat) => songs := songs[song := stat];
        case Biased(weight) => bias := weight;
        case Zeroed => Zero();
        case Added(song) =>
          AddSong(songs[song]);
          assert songs[song := songs[song]] == songs;
      }
    }

    /** A song was played to its end, or skipped. */
    method Feedback(i: nat, direction: int)
      requires BiasOk(bias) && i < |songs|
      modifies this
      ensures bias == old(bias)
      ensures |songs| == |old(songs)| && forall j | 0 <= j < |songs| && j != i :: songs[j] == old(songs)[j]
      ensures songs[i].repeatCounter == old(songs)[i].repeatCounter
      ensures songs[i].manualRating == old(songs)[i].manualRating
      ensures direction >= 0 ==>
                && songs[i].playCount == old(songs)[i].playCount + 1 && songs[i].skipCount == old(songs)[i].skipCount
                && playSum == old(playSum) + 1 && playSqrSum == old(playSqrSum) + 2 * old(songs)[i].playCount + 1
                && skipSum == old(skipSum) && skipSqrSum == old(skipSqrSum)
      ensures direction < 0 ==>
                && songs[i].skipCount == old(songs)[i].skipCount + 1 && songs[i].playCount == old(songs)[i].playCount
                && skipSum == old(skipSum) + 1 && skipSqrSum == old(skipSqrSum) + 2 * old(songs)[i].skipCount + 1
                && playSum == old(playSum) && playSqrSum == old(playSqrSum)
      ensures sum == old(sum) - GetRating(old(songs)[i], bias) + GetRating(songs[i], bias)
      ensures songs == old(songs)[i := Changed(old(songs)[i], if direction < 0 then Skipped(i) else Played(i))]
      ensures Kept() == old(Kept()).Minus(Term(old(songs)[i], bias)).Plus(Term(songs[i], bias))
      ensures old(Valid()) ==> Valid()
    {
      hide GetRating, Totals, CountSquare;
      var s := songs[i];
      var rating := GetRating(s, bias);
      sum, sqrSum := sum - rating, sqrSum - rating * rating;
      var t: Stat;
      if direction < 0 {
        skipSqrSum := skipSqrSum - CountSquare(s.skipCount);
        t := s.(skipCount := s.skipCount + 1);
        skipSum := skipSum + 1;
        skipSqrSum := skipSqrSum + CountSquare(t.skipCount);
      } else {
        playSqrSum := playSqrSum - CountSquare(s.playCount);
        t := s.(playCount := s.playCount + 1);
        playSum := playSum + 1;
        playSqrSum := playSqrSum + CountSquare(t.playCount);
      }
      NextSquare(if direction < 0 then s.skipCount else s.playCount);
      TotalsUpdate(songs, i, t, bias);
      songs := songs[i := t];
      rating := GetRating(t, bias);
      sum, sqrSum := sum + rating, sqrSum + rating * rating;
    }

    /** The user changes a song's rating, by an amount or to a value. */
    method AdjustRating(i: nat, relative: bool, amount: int)
      requires BiasOk(bias) && i < |songs|
      modifies this
      ensures bias == old(bias)
      ensures |songs| == |old(songs)| && forall j | 0 <= j < |songs| && j != i :: songs[j] == old(songs)[j]
      ensures var asked := if relative then old(songs)[i].manualRating + amount else amount;
              && (-1 <= asked <= 10 ==> songs[i].manualRating == asked)
              && (asked < -1 ==> songs[i].manualRating == -1) && (asked > 10 ==> songs[i].manualRating == 10)
      ensures songs[i].playCount == old(songs)[i].playCount && songs[i].skipCount == old(songs)[i].skipCount
      ensures songs[i].repeatCounter == old(songs)[i].repeatCounter
      ensures playSum == old(playSum) && playSqrSum == old(playSqrSum)
      ensures skipSum == old(skipSum) && skipSqrSum == old(skipSqrSum)
      ensures sum == old(sum) - GetRating(old(songs)[i], bias) + GetRating(songs[i], bias)
      ensures songs == old(songs)[i := Changed(old(songs)[i], Rated(i, relative, amount))]
      ensures Kept() == old(Kept()).Minus(Term(old(songs)[i], bias)).Plus(Term(songs[i], bias))
      ensures old(Valid()) ==> Valid()
    {
      hide GetRating, Totals, CountSquare;
      var s := songs[i];
      var rating := GetRating(s, bias);
      sum, sqrSum := sum - rating, sqrSum - rating * rating;
      var manual := if relative then s.manualRating + amount else amount;
      if manual < -1 {
        manual := -1;
      }
      if manual > 10 {
        manual := 10;
      }
      var t := s.(manualRating := manual);
      TotalsUpdate(songs, i, t, bias);
      songs := songs[i := t];
      rating := GetRating(t, bias);
      sum, sqrSum := sum + rating, sqrSum + rating * rating;
    }

    /** An accepted draw: `repeat_counter-- != 0`, or back to 10. */
    method CountDown(c: nat) returns (zero: bool)
      requires c < |songs|
      modifies `songs
      ensures SameButCounters(old(songs), songs) && Totals(songs, bias) == Totals(old(songs), bias)
      ensures |songs| == |old(songs)| && forall j | 0 <= j < |songs| && j != c :: songs[j] == old(songs)[j]
      ensures zero <==> old(songs)[c].repeatCounter == 0
      ensures songs[c].repeatCounter == if zero then 10 else old(songs)[c].repeatCounter - 1
      ensures TallyOne(old(songs), c) == (songs, if zero then [c] else [])
    {
      hide GetRating, Totals;
      var s := songs[c];
      zero := s.repeatCounter == 0;
      var t := s.(repeatCounter := if zero then 10 else s.repeatCounter - 1);
      TotalsUpdate(songs, c, t, bias);
      SameRating(s, t, bias);
      songs := songs[c := t];
    }

    /** One pass of the loop. `lost` is the read off the table, which no later step can be relied on after. */
    method TryDraw(avg: real, dev: real, d: Draw) returns (accepted: bool, zero: bool, lost: bool)
      requires d.candidate < |songs| && dev >= 0.0
      modifies `songs
      ensures SameButCounters(old(songs), songs) && Totals(songs, bias) == Totals(old(songs), bias)
      ensures lost == OffTable(GetRating(old(songs)[d.candidate], bias), avg, dev)
      ensures accepted == Accepts(GetRating(old(songs)[d.candidate], bias), avg, dev, d.value) && !(accepted && lost)
      ensures !accepted ==> songs == old(songs) && !zero
      ensures |songs| == |old(songs)| && forall j | 0 <= j < |songs| && j != d.candidate :: songs[j] == old(songs)[j]
      ensures accepted ==>
                && (zero <==> old(songs)[d.candidate].repeatCounter == 0)
                && songs[d.candidate].repeatCounter == if zero then 10 else old(songs)[d.candidate].repeatCounter - 1
      ensures accepted ==> TallyOne(old(songs), d.candidate) == (songs, if zero then [d.candidate] else [])
    {
      hide GetRating, Totals, Area;
      var rating := GetRating(songs[d.candidate], bias);
      lost := OffTable(rating, avg, dev);
      accepted, zero := Accepts(rating, avg, dev, d.value), false;
      if accepted {
        zero := CountDown(d.candidate);
      }
    }

    /**
     Draws until a song is accepted with its counter at zero. The songs and the pick are those of
     tallying the accepted draws against the kept average and deviation; one accepted draw more than
     there are counts to use up is always enough. The loop is lost exactly when the kept sums show no
     deviation and a song rated off their average is drawn, which exact sums rule out.
     */
    method PickSong(dev: real, draws: seq<Draw>) returns (picked: Option<nat>, used: nat, lost: bool)
      requires songs != [] && DrawsInRange(draws, |songs|)
      requires dev >= 0.0 && dev * dev == KeptVariance(Kept(), |songs|)
      modifies `songs
      ensures Kept() == old(Kept()) && (old(Valid()) ==> Valid() && !lost)
      ensures used <= |draws| && (picked.None? && !lost ==> used == |draws|) && (lost ==> picked.None? && used > 0)
      ensures var avg := Kept().rating / |old(songs)| as real;
              && TalliedTo(old(songs), bias, avg, dev, draws[..used], songs,
                           if picked.Some? then [picked.value] else [])
              && (forall k | 0 <= k < used ::
                    DrawsOff(old(songs), bias, avg, dev, draws[k]) <==> lost && k == used - 1)
              && (CountersOk(old(songs)) && |AcceptedOf(old(songs), bias, avg, dev, draws)| > CounterSum(old(songs))
                  ==> picked.Some? || lost)
    {
      hide GetRating, Totals, Accepts, TallyOne, KeptVariance, OffTable, Tally, AcceptedOf;
      ghost var start := songs;
      var avg := sum / |songs| as real;
      used, lost := 0, false;
      assert draws[..0] == [] && draws[..|draws|] == draws;
      NothingTallied(start, bias, avg, dev);
      if CountersOk(start) && |AcceptedOf(start, bias, avg, dev, draws)| > CounterSum(start) {
        EnoughDrawsPick(start, AcceptedOf(start, bias, avg, dev, draws));
      }
      if Valid() { ExactSumsStayOnTable(start, bias, avg, dev, Kept()); }
      while used < |draws|
        invariant 0 <= used <= |draws| && |songs| == |start| && Totals(songs, bias) == Totals(start, bias)
        invariant SameButCounters(start, songs)
        invariant TalliedTo(start, bias, avg, dev, draws[..used], songs, [])
        invariant forall k | 0 <= k < used :: !DrawsOff(start, bias, avg, dev, draws[k])
      {
        var d := draws[used];
        ghost var before := songs;
        var accepted, zero, off := TryDraw(avg, dev, d);
        TallyOneMore(start, before, songs, bias, avg, dev, draws, used, accepted, zero);
        SameRating(start[d.candidate], before[d.candidate], bias);
        assert off <==> DrawsOff(start, bias, avg, dev, d);
        used := used + 1;
        if off {
          return None, used, true;
        }
        if zero {
          return Some(d.candidate), used, false;
        }
      }
      return None, used, false;
    }
  }

  lemma NextSquare(n: nat)
    ensures CountSquare(n + 1) == CountSquare(n) + 2 * n + 1
  {
  }

  /** The six sums in numbers: nothing of no songs, and of one song more its rating, its counts and their squares. */
  lemma {:induction false} SumsInNumbers(songs: seq<Stat>, s: Stat, bias: real)
    ensures Totals([], bias) == Sums(0.0, 0.0, 0, 0, 0, 0)
    ensures var t, u, r := Totals(songs, bias), Totals(songs + [s], bias), GetRating(s, bias);
            && u.rating == t.rating + r && u.ratingSqr == t.ratingSqr + r * r
            && u.play == t.play + s.playCount && u.playSqr == t.playSqr + s.playCount * s.playCount
            && u.skip == t.skip + s.skipCount && u.skipSqr == t.skipSqr + s.skipCount * s.skipCount
  {
    hide Totals, Term, GetRating, Sums.Plus, Book.Upto;
    TotalsAppend(songs, s, bias);
    PlusInNumbers(Totals(songs, bias), Term(s, bias));
    TermInNumbers(s, bias);
    NoSongs(bias);
  }

  lemma {:induction false} NoSongs(bias: real)
    ensures Totals([], bias) == Sums(0.0, 0.0, 0, 0, 0, 0)
  {
  }

  lemma PlusInNumbers(t: Sums, x: Sums)
    ensures var u := t.Plus(x);
            && u.rating == t.rating + x.rating && u.ratingSqr == t.ratingSqr + x.ratingSqr
            && u.play == t.play + x.play && u.playSqr == t.playSqr + x.playSqr
            && u.skip == t.skip + x.skip && u.skipSqr == t.skipSqr + x.skipSqr
  {
  }

  lemma TermInNumbers(s: Stat, bias: real)
    ensures var x, r := Term(s, bias), GetRating(s, bias);
            && x.rating == r && x.ratingSqr == r * r
            && x.play == s.playCount && x.playSqr == s.playCount * s.playCount
            && x.skip == s.skipCount && x.skipSqr == s.skipCount * s.skipCount
  {
    hide GetRating;
  }

  // ---- Changes made while the sums are being added up ----

  ghost predicate GapAllowed(gap: seq<Change>, n: nat) {
    forall k | 0 <= k < |gap| ::
      match gap[k]
      case Biased(weight) => BiasOk(weight)
      case Zeroed => true
      case _ => gap[k].song < n
  }

  ghost predicate GapsAllowed(gaps: seq<seq<Change>>, n: nat) {
    forall k | 0 <= k < |gaps| :: GapAllowed(gaps[k], n)
  }

  ghost function AfterGap(b: Book, gap: seq<Change>): (r: Book)
    requires GapAllowed(gap, |b.songs|)
    ensures |r.songs| == |b.songs|
    decreases |gap|
  {
    if gap == [] then b
    else
      assert b.Allows(gap[0]);
      AfterGap(b.After(gap[0]), gap[1..])
  }

  ghost function AfterGaps(b: Book, gaps: seq<seq<Change>>): (r: Book)
    requires GapsAllowed(gaps, |b.songs|)
    ensures |r.songs| == |b.songs|
    decreases |gaps|
  {
    if gaps == [] then b else AfterGaps(AfterGap(b, gaps[0]), gaps[1..])
  }

  /** What a change does to the six sums. */
  ghost function KeptOne(kept: Sums, b: Book, c: Change): Sums
    requires b.Allows(c)
  {
    match c
    case Loaded(_, _) => kept
    case Biased(_) => kept
    case Zeroed => ZERO
    case Added(song) => kept.Plus(b.TermOf(song))
    case _ => kept.Minus(b.TermOf(c.song)).Plus(b.After(c).TermOf(c.song))
  }

  /**
   How far the sums drift from the songs added so far, those before `i`, when a change comes. Feedback on a
   song still to come is early; a loaded file or a new bias is not told to the songs already added; another
   loop's zeroing takes those back out, and each song it adds is one too many.
   */
  ghost function DriftOne(drift: Sums, b: Book, c: Change, i: nat): Sums
    requires b.Allows(c) && i <= |b.songs|
  {
    match c
    case Loaded(song, _) => if song < i then drift.Plus(b.TermOf(song)).Minus(b.After(c).TermOf(song)) else drift
    case Biased(_) => drift.Plus(b.Upto(i)).Minus(b.After(c).Upto(i))
    case Zeroed => ZERO.Minus(b.Upto(i))
    case Added(song) => drift.Plus(b.TermOf(song))
    case _ => if c.song < i then drift else drift.Minus(b.TermOf(c.song)).Plus(b.After(c).TermOf(c.song))
  }

  ghost function Drift(drift: Sums, b: Book, gap: seq<Change>, i: nat): Sums
    requires GapAllowed(gap, |b.songs|) && i <= |b.songs|
    decreases |gap|
  {
    if gap == [] then drift
    else
      assert b.Allows(gap[0]);
      Drift(DriftOne(drift, b, gap[0], i), b.After(gap[0]), gap[1..], i)
  }

  /** The same over the gaps before songs `i`, `i + 1` and so on. */
  ghost function DriftGaps(drift: Sums, b: Book, gaps: seq<seq<Change>>, i: nat): Sums
    requires GapsAllowed(gaps, |b.songs|) && i + |gaps| <= |b.songs|
    decreases |gaps|
  {
    if gaps == [] then drift
    else DriftGaps(Drift(drift, b, gaps[0], i), AfterGap(b, gaps[0]), gaps[1..], i + 1)
  }

  lemma {:induction false} GapsUnfold(drift: Sums, b: Book, gaps: seq<seq<Change>>, i: nat)
    requires gaps != [] && GapsAllowed(gaps, |b.songs|) && i + |gaps| <= |b.songs|
    ensures GapAllowed(gaps[0], |b.songs|) && GapsAllowed(gaps[1..], |b.songs|)
    ensures AfterGaps(b, gaps) == AfterGaps(AfterGap(b, gaps[0]), gaps[1..])
    ensures DriftGaps(drift, b, gaps, i)
            == DriftGaps(Drift(drift, b, gaps[0], i), AfterGap(b, gaps[0]), gaps[1..], i + 1)
  {
  }

  lemma {:induction false} GapUnfolds(drift: Sums, b: Book, gap: seq<Change>, i: nat)
    requires gap != [] && GapAllowed(gap, |b.songs|) && i <= |b.songs|
    ensures b.Allows(gap[0]) && GapAllowed(gap[1..], |b.songs|)
    ensures AfterGap(b, gap) == AfterGap(b.After(gap[0]), gap[1..])
    ensures Drift(drift, b, gap, i) == Drift(DriftOne(drift, b, gap[0], i), b.After(gap[0]), gap[1..], i)
  {
  }

  lemma {:induction false} GapIsOver(drift: Sums, b: Book, i: nat)
    requires i <= |b.songs|
    ensures GapAllowed([], |b.songs|) && AfterGap(b, []) == b && Drift(drift, b, [], i) == drift
  {
  }

  lemma {:induction false} NoGapsLeft(drift: Sums, b: Book, i: nat)
    requires i <= |b.songs|
    ensures GapsAllowed([], |b.songs|) && AfterGaps(b, []) == b && DriftGaps(drift, b, [], i) == drift
  {
  }

  lemma {:induction false} NothingAdded(b: Book)
    ensures b.Upto(0) == ZERO && b.Upto(0).Plus(ZERO) == ZERO
  {
    hide Term, Changed, GetRating;
    assert b.songs[..0] == [];
    assert Totals([], b.bias) == ZERO;
  }

  lemma {:induction false} OneMoreAdded(b: Book, i: nat, drift: Sums)
    requires i < |b.songs|
    ensures b.Upto(i).Plus(drift).Plus(b.TermOf(i)) == b.Upto(i + 1).Plus(drift)
    ensures b.Upto(i).Plus(b.TermOf(i)) == b.Upto(i + 1)
  {
    hide Totals, Term;
    assert b.songs[..i + 1] == b.songs[..i] + [b.songs[i]];
    TotalsAppend(b.songs[..i], b.songs[i], b.bias);
  }

  /** A change keeps the account: the sums are the songs added so far and the drift. */
  lemma {:induction false} KeptAndDrift(kept: Sums, b: Book, c: Change, i: nat, drift: Sums)
    requires b.Allows(c) && i <= |b.songs| && kept == b.Upto(i).Plus(drift)
    ensures KeptOne(kept, b, c) == b.After(c).Upto(i).Plus(DriftOne(drift, b, c, i))
  {
    hide Totals, Term, Changed;
    match c {
      case Biased(_) =>
      case Zeroed =>
      case _ => OneSongChanges(b, c, i);
    }
  }

  lemma {:induction false} OneSongChanges(b: Book, c: Change, i: nat)
    requires b.Allows(c) && !c.Biased? && !c.Zeroed? && i <= |b.songs|
    ensures b.After(c).Upto(i)
            == if c.song < i then b.Upto(i).Minus(b.TermOf(c.song)).Plus(b.After(c).TermOf(c.song)) else b.Upto(i)
    ensures c.Added? ==> b.After(c) == b
  {
    hide Totals, Term, Sums.Plus, Sums.Minus;
    var t := Changed(b.songs[c.song], c);
    var after := b.songs[c.song := t];
    if c.Added? { assert after == b.songs; }
    if c.song < i {
      assert after[..i] == b.songs[..i][c.song := t];
      TotalsUpdate(b.songs[..i], c.song, t, b.bias);
    } else {
      assert after[..i] == b.songs[..i];
    }
  }

  /** When nothing happens in the gaps, nothing drifts. */
  lemma {:induction false} QuietGaps(b: Book, gaps: seq<seq<Change>>, i: nat)
    requires (forall k | 0 <= k < |gaps| :: gaps[k] == []) && i + |gaps| <= |b.songs|
    ensures GapsAllowed(gaps, |b.songs|) && AfterGaps(b, gaps) == b
    ensures forall drift :: DriftGaps(drift, b, gaps, i) == drift
    decreases |gaps|
  {
    assert GapsAllowed(gaps, |b.songs|);
    if gaps != [] {
      QuietGaps(b, gaps[1..], i + 1);
      forall drift ensures DriftGaps(drift, b, gaps, i) == drift {
        GapIsOver(drift, b, i);
      }
    }
  }

  // ---- Feedback alone ----

  ghost predicate Feedbacks(gap: seq<Change>) {
    forall k | 0 <= k < |gap| :: gap[k].Played? || gap[k].Skipped? || gap[k].Rated?
  }

  function EarlyCount(gap: seq<Change>, i: nat): nat
    requires Feedbacks(gap)
  {
    if gap == [] then 0
    else (if gap[0].song >= i && !gap[0].Rated? then 1 else 0) + EarlyCount(gap[1..], i)
  }

  function EarlyCounts(gaps: seq<seq<Change>>, i: nat): nat
    requires forall k | 0 <= k < |gaps| :: Feedbacks(gaps[k])
  {
    if gaps == [] then 0 else EarlyCount(gaps[0], i) + EarlyCounts(gaps[1..], i + 1)
  }

  lemma {:induction false} GapCounts(drift: Sums, b: Book, gap: seq<Change>, i: nat)
    requires GapAllowed(gap, |b.songs|) && Feedbacks(gap) && i <= |b.songs|
    ensures var e := Drift(drift, b, gap, i); e.play + e.skip == drift.play + drift.skip + EarlyCount(gap, i)
    decreases |gap|
  {
    hide GetRating, CountSquare;
    if gap != [] {
      GapUnfolds(drift, b, gap, i);
      GapCounts(DriftOne(drift, b, gap[0], i), b.After(gap[0]), gap[1..], i);
    }
  }

  lemma {:induction false} GapsCount(drift: Sums, b: Book, gaps: seq<seq<Change>>, i: nat)
    requires GapsAllowed(gaps, |b.songs|) && i + |gaps| <= |b.songs|
    requires forall k | 0 <= k < |gaps| :: Feedbacks(gaps[k])
    ensures var e := DriftGaps(drift, b, gaps, i);
            e.play + e.skip == drift.play + drift.skip + EarlyCounts(gaps, i)
    decreases |gaps|
  {
    hide GapAllowed, Feedbacks, Drift, AfterGap;
    if gaps != [] {
      GapsUnfold(drift, b, gaps, i);
      GapCounts(drift, b, gaps[0], i);
      GapsCount(Drift(drift, b, gaps[0], i), AfterGap(b, gaps[0]), gaps[1..], i + 1);
    }
  }

  /** Among plays, skips and ratings, early plays and skips never cancel: one leaves the sums wrong for good. */
  lemma EarlyFeedbackStays(b: Book, gaps: seq<seq<Change>>)
    requires GapsAllowed(gaps, |b.songs|) && |gaps| <= |b.songs|
    requires forall k | 0 <= k < |gaps| :: Feedbacks(gaps[k])
    ensures EarlyCounts(gaps, 0) > 0 ==> DriftGaps(ZERO, b, gaps, 0) != ZERO
  {
    hide GapAllowed, Feedbacks, DriftGaps;
    GapsCount(ZERO, b, gaps, 0);
  }

  // ---- Another loop at the same time ----

  /** What another loop does that adds the songs from `from` up to `end`. */
  function Adds(from: nat, end: nat): seq<Change>
    requires from <= end
    decreases end - from
  {
    if from == end then [] else [Added(from)] + Adds(from + 1, end)
  }

  ghost predicate OnlyAdds(gap: seq<Change>) {
    forall k | 0 <= k < |gap| :: gap[k].Added?
  }

  ghost function Joined(gaps: seq<seq<Change>>): seq<Change> {
    if gaps == [] then [] else gaps[0] + Joined(gaps[1..])
  }

  ghost function TermsOf(b: Book, adds: seq<Change>): Sums
    requires GapAllowed(adds, |b.songs|) && OnlyAdds(adds)
  {
    if adds == [] then ZERO else b.TermOf(adds[0].song).Plus(TermsOf(b, adds[1..]))
  }

  lemma {:induction false} TermsJoin(b: Book, x: seq<Change>, y: seq<Change>)
    requires GapAllowed(x + y, |b.songs|) && OnlyAdds(x + y)
    ensures GapAllowed(x, |b.songs|) && OnlyAdds(x) && GapAllowed(y, |b.songs|) && OnlyAdds(y)
    ensures TermsOf(b, x + y) == TermsOf(b, x).Plus(TermsOf(b, y))
    decreases |x|
  {
    hide Book.TermOf;
    PartsAllowed(x, y, |b.songs|);
    if x == [] {
      assert x + y == y;
    } else {
      assert (x + y)[1..] == x[1..] + y && (x + y)[0] == x[0];
      PartsAllowed([x[0]], x[1..] + y, |b.songs|);
      assert [x[0]] + (x[1..] + y) == x + y;
      TermsJoin(b, x[1..], y);
    }
  }

  lemma PartsAllowed(x: seq<Change>, y: seq<Change>, n: nat)
    requires GapAllowed(x + y, n) && OnlyAdds(x + y)
    ensures GapAllowed(x, n) && OnlyAdds(x) && GapAllowed(y, n) && OnlyAdds(y)
  {
    assert forall k | 0 <= k < |x| :: (x + y)[k] == x[k];
    assert forall k | 0 <= k < |y| :: (x + y)[|x| + k] == y[k];
  }

  /** Songs added by another loop are all added on top, wherever the gaps fall. */
  lemma {:induction false} AddsDrift(drift: Sums, b: Book, gap: seq<Change>, i: nat)
    requires GapAllowed(gap, |b.songs|) && OnlyAdds(gap) && i <= |b.songs|
    ensures Drift(drift, b, gap, i) == drift.Plus(TermsOf(b, gap)) && AfterGap(b, gap) == b
    decreases |gap|
  {
    hide Book.TermOf;
    if gap != [] {
      GapUnfolds(drift, b, gap, i);
      assert gap[0].Added? && b.After(gap[0]) == b by { OneSongChanges(b, gap[0], 0); }
      AddsDrift(drift.Plus(b.TermOf(gap[0].song)), b, gap[1..], i);
    }
  }

  lemma {:induction false} AddsDriftGaps(drift: Sums, b: Book, gaps: seq<seq<Change>>, i: nat)
    requires GapsAllowed(gaps, |b.songs|) && i + |gaps| <= |b.songs|
    requires GapAllowed(Joined(gaps), |b.songs|) && OnlyAdds(Joined(gaps))
    ensures DriftGaps(drift, b, gaps, i) == drift.Plus(TermsOf(b, Joined(gaps)))
    decreases |gaps|
  {
    hide Book.TermOf, Drift, AfterGap, GapAllowed, OnlyAdds, TermsOf;
    if gaps == [] {
      NoTerms(b);
      SumsAlgebra(drift, ZERO, ZERO);
    } else {
      GapsUnfold(drift, b, gaps, i);
      TermsJoin(b, gaps[0], Joined(gaps[1..]));
      AddsDrift(drift, b, gaps[0], i);
      AddsDriftGaps(drift.Plus(TermsOf(b, gaps[0])), b, gaps[1..], i + 1);
      SumsAlgebra(drift, TermsOf(b, gaps[0]), TermsOf(b, Joined(gaps[1..])));
    }
  }

  lemma {:induction false} NoTerms(b: Book)
    ensures GapAllowed([], |b.songs|) && OnlyAdds([]) && TermsOf(b, []) == ZERO
  {
  }

  lemma {:induction false} AddsOneMore(b: Book, song: nat, rest: seq<Change>)
    requires song < |b.songs| && GapAllowed(rest, |b.songs|) && OnlyAdds(rest)
    ensures GapAllowed([Added(song)] + rest, |b.songs|) && OnlyAdds([Added(song)] + rest)
    ensures TermsOf(b, [Added(song)] + rest) == b.TermOf(song).Plus(TermsOf(b, rest))
  {
    hide Book.TermOf, Sums.Plus;
    var all := [Added(song)] + rest;
    assert all[1..] == rest && all[0] == Added(song);
  }

  lemma {:induction false} FromNext(b: Book, i: nat)
    requires i < |b.songs|
    ensures b.From(i) == b.TermOf(i).Plus(b.From(i + 1))
  {
    hide Term, Sums.Plus;
    assert b.songs[i..][1..] == b.songs[i + 1..] && b.songs[i..][0] == b.songs[i];
  }

  /** Adding songs one after the other comes to their total. */
  lemma {:induction false} AddsTotal(b: Book, from: nat, end: nat)
    requires from <= end <= |b.songs|
    ensures GapAllowed(Adds(from, end), |b.songs|) && OnlyAdds(Adds(from, end))
    ensures TermsOf(b, Adds(from, end)).Plus(b.From(end)) == b.From(from)
    decreases end - from
  {
    hide Book.From, Book.TermOf, GapAllowed, OnlyAdds, TermsOf, Sums.Plus;
    if from < end {
      var rest := Adds(from + 1, end);
      AddsTotal(b, from + 1, end);
      assert Adds(from, end) == [Added(from)] + rest;
      AddsOneMore(b, from, rest);
      FromNext(b, from);
      SumsAlgebra(b.TermOf(from), TermsOf(b, rest), b.From(end));
    } else {
      NoTerms(b);
      SumsAlgebra(b.From(end), ZERO, ZERO);
    }
  }

  lemma {:induction false} TotalsSplit(b: Book, i: nat)
    requires i <= |b.songs|
    ensures b.Upto(i).Plus(b.From(i)) == b.All()
    decreases i
  {
    hide Term;
    if i == 0 {
      assert b.songs[..0] == [] && b.songs[0..] == b.songs;
    } else {
      TotalsSplit(b, i - 1);
      OneMoreAdded(b, i - 1, ZERO);
      assert b.songs[i - 1..][1..] == b.songs[i..];
    }
  }

  /** The songs from `i` on count for nothing: never played, never skipped, and rated nought. */
  ghost predicate Silent(b: Book, i: nat)
    requires i <= |b.songs|
  {
    forall k | i <= k < |b.songs| ::
      b.songs[k].playCount == 0 && b.songs[k].skipCount == 0 && GetRating(b.songs[k], b.bias) == 0.0
  }

  lemma TermIsZero(s: Stat, bias: real)
    ensures Term(s, bias) == ZERO <==> s.playCount == 0 && s.skipCount == 0 && GetRating(s, bias) == 0.0
    ensures var t := Term(s, bias); t.ratingSqr >= 0.0 && t.play >= 0 && t.skip >= 0
    ensures var t := Term(s, bias); t.ratingSqr == 0.0 && t.play == 0 && t.skip == 0 ==> t == ZERO
  {
    hide GetRating;
    SquareIsPositive(GetRating(s, bias));
    NoughtSquared(GetRating(s, bias));
  }

  lemma NoughtSquared(x: real)
    ensures x * x == 0.0 <==> x == 0.0
  {
    if x > 0.0 { SquareOfPositive(x); } else if x < 0.0 { SquareOfPositive(-x); }
  }

  lemma {:induction false} SilentIsZero(b: Book, i: nat)
    requires i <= |b.songs|
    ensures b.From(i) == ZERO <==> Silent(b, i)
    ensures b.From(i).ratingSqr >= 0.0 && b.From(i).play >= 0 && b.From(i).skip >= 0
    decreases |b.songs| - i
  {
    hide Term, GetRating, Book.From, Sums.Plus;
    if i < |b.songs| {
      SilentIsZero(b, i + 1);
      TermIsZero(b.songs[i], b.bias);
      FromNext(b, i);
      Componentwise(b.TermOf(i), b.From(i + 1));
      BothZero(b.TermOf(i), b.From(i + 1));
    } else {
      NothingAfter(b);
    }
  }

  lemma NothingAfter(b: Book)
    ensures b.From(|b.songs|) == ZERO
  {
  }

  lemma BothZero(x: Sums, y: Sums)
    requires x.ratingSqr >= 0.0 && x.play >= 0 && x.skip >= 0 && y.ratingSqr >= 0.0 && y.play >= 0 && y.skip >= 0
    requires x.ratingSqr == 0.0 && x.play == 0 && x.skip == 0 ==> x == ZERO
    ensures x.Plus(y) == ZERO <==> x == ZERO && y == ZERO
  {
    hide Sums.Plus;
    var z := x.Plus(y);
    Componentwise(x, y);
    SumsAlgebra(y, ZERO, ZERO);
    if z == ZERO {
      assert z.ratingSqr == 0.0 && z.play == 0 && z.skip == 0;
      assert x == ZERO;
    }
  }

  lemma Componentwise(x: Sums, y: Sums)
    ensures var z := x.Plus(y);
            z.ratingSqr == x.ratingSqr + y.ratingSqr && z.play == x.play + y.play && z.skip == x.skip + y.skip
  {
  }

  /** The drift is the songs from `i` on, less those from `end` on, which the other loop has still to add. */
  ghost predicate CountsTwice(drift: Sums, b: Book, i: nat, end: nat)
    requires i <= |b.songs| && end <= |b.songs|
  {
    && drift.Plus(b.From(end)) == b.From(i)
    && (b.All().Plus(drift).Plus(b.From(end)) == b.All() <==> Silent(b, i))
  }

  lemma TwiceUnlessSilent(drift: Sums, b: Book, i: nat, end: nat)
    requires i <= |b.songs| && end <= |b.songs| && drift.Plus(b.From(end)) == b.From(i)
    ensures CountsTwice(drift, b, i, end)
  {
    hide Totals, Silent;
    SilentIsZero(b, i);
    SumsAlgebra(b.All(), drift, b.From(end));
    SumsAlgebra(b.All().Plus(b.From(i)), b.All(), b.From(i));
  }

  /**
   Another loop began first and had added the songs before `from` when this one zeroed the sums; it adds
   those up to `end` in the gaps. Once it has added the rest, every song from `from` on counts twice.
   */
  lemma OtherBeganFirst(b: Book, gaps: seq<seq<Change>>, from: nat, end: nat)
    requires GapsAllowed(gaps, |b.songs|) && |gaps| <= |b.songs| && from <= end <= |b.songs|
    requires Joined(gaps) == Adds(from, end)
    ensures CountsTwice(DriftGaps(ZERO, b, gaps, 0), b, from, end)
  {
    hide CountsTwice, GapsAllowed, GapAllowed, OnlyAdds, Joined, Adds, DriftGaps, TermsOf, Book.From, Sums.Plus, ZERO;
    AddsTotal(b, from, end);
    AddsDriftGaps(ZERO, b, gaps, 0);
    SumsAlgebra(TermsOf(b, Adds(from, end)), ZERO, ZERO);
    TwiceUnlessSilent(DriftGaps(ZERO, b, gaps, 0), b, from, end);
  }

  lemma {:induction false} QuietBefore(drift: Sums, b: Book, gaps: seq<seq<Change>>, i: nat, a: nat)
    requires GapsAllowed(gaps, |b.songs|) && i + |gaps| <= |b.songs| && a <= |gaps|
    requires forall k | 0 <= k < a :: gaps[k] == []
    ensures GapsAllowed(gaps[a..], |b.songs|)
    ensures DriftGaps(drift, b, gaps, i) == DriftGaps(drift, b, gaps[a..], i + a)
    decreases a
  {
    if a == 0 {
      assert gaps[0..] == gaps;
    } else {
      GapsUnfold(drift, b, gaps, i);
      GapIsOver(drift, b, i);
      QuietBefore(drift, b, gaps[1..], i + 1, a - 1);
      assert gaps[1..][a - 1..] == gaps[a..];
    }
  }

  lemma {:induction false} ZeroingDrifts(drift: Sums, b: Book, g: seq<Change>, rest: seq<seq<Change>>, i: nat)
    requires GapsAllowed([[Zeroed] + g] + rest, |b.songs|) && i + 1 + |rest| <= |b.songs|
    ensures GapsAllowed([g] + rest, |b.songs|)
    ensures DriftGaps(drift, b, [[Zeroed] + g] + rest, i) == DriftGaps(ZERO.Minus(b.Upto(i)), b, [g] + rest, i)
  {
    hide Book.Upto, Drift, DriftGaps;
    var gaps, gaps' := [[Zeroed] + g] + rest, [g] + rest;
    assert gaps[0] == [Zeroed] + g && gaps[1..] == rest && gaps'[0] == g && gaps'[1..] == rest;
    assert ([Zeroed] + g)[1..] == g && ([Zeroed] + g)[0] == Zeroed;
    GapsUnfold(drift, b, gaps, i);
    GapUnfolds(drift, b, gaps[0], i);
    forall k | 0 <= k < |gaps'| ensures GapAllowed(gaps'[k], |b.songs|) {
      if k > 0 { assert gaps'[k] == gaps[k]; }
    }
    GapsUnfold(ZERO.Minus(b.Upto(i)), b, gaps', i);
  }

  /**
   Another loop begins in gap `a` and adds the songs before `end` in that gap and later ones. Its zeroing
   takes out the `a` songs added before; once it has added the rest, every song from `a` on counts twice.
   */
  lemma OtherBeganLater(b: Book, g: seq<Change>, gaps: seq<seq<Change>>, a: nat, end: nat)
    requires GapsAllowed(gaps, |b.songs|) && a < |gaps| <= |b.songs| && end <= |b.songs|
    requires (forall k | 0 <= k < a :: gaps[k] == []) && gaps[a] == [Zeroed] + g
    requires Joined([g] + gaps[a + 1..]) == Adds(0, end)
    ensures CountsTwice(DriftGaps(ZERO, b, gaps, 0), b, a, end)
  {
    hide CountsTwice, GapsAllowed, GapAllowed, OnlyAdds, Joined, Adds, DriftGaps, TermsOf, Book.From, Book.Upto,
         Sums.Plus, Sums.Minus, ZERO;
    var rest, taken := gaps[a + 1..], ZERO.Minus(b.Upto(a));
    QuietBefore(ZERO, b, gaps, 0, a);
    assert gaps[a..] == [[Zeroed] + g] + rest;
    ZeroingDrifts(ZERO, b, g, rest, a);
    AddsTotal(b, 0, end);
    AddsDriftGaps(taken, b, [g] + rest, a);
    TotalsSplit(b, a);
    WholeIsAll(b);
    TakenOut(b.Upto(a), TermsOf(b, Adds(0, end)), b.From(end), b.From(a));
    TwiceUnlessSilent(DriftGaps(ZERO, b, gaps, 0), b, a, end);
  }

  lemma WholeIsAll(b: Book)
    ensures b.From(0) == b.All()
  {
    assert b.songs[0..] == b.songs;
  }

  lemma TakenOut(added: Sums, terms: Sums, later: Sums, rest: Sums)
    requires terms.Plus(later) == added.Plus(rest)
    ensures ZERO.Minus(added).Plus(terms).Plus(later) == rest
  {
  }

  // ---- Two witnesses ----

  /** A single song and what happens before it is added. */
  lemma {:induction false} OneSong(s: Stat, gap: seq<Change>, bias: real)
    requires GapAllowed(gap, 1)
    ensures var b := Book([s], bias);
            && GapsAllowed([gap], 1) && AfterGaps(b, [gap]) == AfterGap(b, gap)
            && DriftGaps(ZERO, b, [gap], 0) == Drift(ZERO, b, gap, 0)
    ensures Totals([s], bias) == Term(s, bias)
  {
    hide Term, Drift, AfterGap;
    var b, gaps := Book([s], bias), [gap];
    assert gaps[1..] == [] && [s][1..] == [];
    GapsUnfold(ZERO, b, gaps, 0);
    NoGapsLeft(Drift(ZERO, b, gap, 0), AfterGap(b, gap), 1);
  }

  /**
   One unrated song, skipped in the gap before it is added: the sums then say -1 and 1/2 instead of -1/2
   and 1/4, and the value under the square root is negative without the fabs.
   */
  lemma {:induction false} SkipInGapSpoilsSums(s: Stat, bias: real)
    requires s.playCount == s.skipCount == 0 && s.manualRating == -1
    ensures var b, gaps := Book([s], bias), [[Skipped(0)]];
            GapsAllowed(gaps, 1) && AfterGaps(b, gaps).All() == Sums(-0.5, 0.25, 0, 0, 1, 1) &&
            var kept := AfterGaps(b, gaps).All().Plus(DriftGaps(ZERO, b, gaps, 0));
            kept == Sums(-1.0, 0.5, 0, 0, 2, 2) && kept.ratingSqr < kept.rating * kept.rating
  {
    hide Term, GetRating, Changed, Drift, AfterGap, DriftGaps, AfterGaps, Totals, Sums.Plus, Sums.Minus, ZERO;
    var b, c := Book([s], bias), Skipped(0);
    var t := Changed(s, c);
    assert GapAllowed([c], 1);
    OneSong(s, [c], bias);
    OneChange(b, c);
    assert b.After(c) == Book([t], bias);
    OneSong(t, [], bias);
    UnratedTerms(s, bias);
    KeptTwice(Term(s, bias), Term(t, bias));
  }

  lemma {:induction false} OneChange(b: Book, c: Change)
    requires b.Allows(c)
    ensures GapAllowed([c], |b.songs|) && AfterGap(b, [c]) == b.After(c)
    ensures forall drift :: Drift(drift, b, [c], 0) == DriftOne(drift, b, c, 0)
  {
    hide DriftOne, Book.After;
    assert [c][1..] == [];
    GapIsOver(ZERO, b.After(c), 0);
    forall drift ensures Drift(drift, b, [c], 0) == DriftOne(drift, b, c, 0) {
      GapUnfolds(drift, b, [c], 0);
      GapIsOver(DriftOne(drift, b, c, 0), b.After(c), 0);
    }
  }

  lemma KeptTwice(before: Sums, after: Sums)
    requires before == Sums(0.0, 0.0, 0, 0, 0, 0) && after == Sums(-0.5, 0.25, 0, 0, 1, 1)
    ensures after.Plus(ZERO.Minus(before).Plus(after)) == Sums(-1.0, 0.5, 0, 0, 2, 2)
  {
  }

  lemma UnratedTerms(s: Stat, bias: real)
    requires s.playCount == s.skipCount == 0 && s.manualRating == -1
    ensures Term(s, bias) == Sums(0.0, 0.0, 0, 0, 0, 0)
    ensures Term(Changed(s, Skipped(0)), bias) == Sums(-0.5, 0.25, 0, 0, 1, 1)
  {
    assert GetRating(s, bias) == 0.0 && GetRating(Changed(s, Skipped(0)), bias) == -0.5;
  }

  /**
   One unrated song, played once, and another loop that runs while this one has let go: the sums then say 1
   and 1/2 instead of 1/2 and 1/4, although no song changed.
   */
  lemma {:induction false} SecondLoopSpoilsSums(s: Stat, bias: real)
    requires s.playCount == 1 && s.skipCount == 0 && s.manualRating == -1
    ensures var b, gaps := Book([s], bias), [[Zeroed] + [Added(0)]];
            GapsAllowed(gaps, 1) && b.All() == Sums(0.5, 0.25, 1, 1, 0, 0) &&
            var kept := b.All().Plus(DriftGaps(ZERO, b, gaps, 0));
            kept == Sums(1.0, 0.5, 2, 2, 0, 0) && kept.ratingSqr < kept.rating * kept.rating
  {
    hide Term, GetRating, Drift, DriftGaps, Totals, Sums.Plus, Sums.Minus, ZERO, Joined, Book.From;
    var b, g := Book([s], bias), Adds(0, 1);
    var gaps := [[Zeroed] + g];
    assert Adds(1, 1) == [] && g == [Added(0)] && GapAllowed(gaps[0], 1);
    JoinOne(g);
    assert [g] + gaps[1..] == [g];
    OtherBeganLater(b, g, gaps, 0, 1);
    NothingAfter(b);
    WholeIsAll(b);
    OneSong(s, [], bias);
    PlayedTerm(s, bias);
    var drift := DriftGaps(ZERO, b, gaps, 0);
    SumsAlgebra(drift, ZERO, ZERO);
    DoubleTerm(b.All());
  }

  lemma {:induction false} JoinOne(g: seq<Change>)
    ensures Joined([g]) == g
  {
    assert [g][1..] == [] && Joined([]) == [] && g + [] == g;
  }

  lemma DoubleTerm(t: Sums)
    requires t == Sums(0.5, 0.25, 1, 1, 0, 0)
    ensures t.Plus(t) == Sums(1.0, 0.5, 2, 2, 0, 0)
  {
  }

  lemma PlayedTerm(s: Stat, bias: real)
    requires s.playCount == 1 && s.skipCount == 0 && s.manualRating == -1
    ensures Term(s, bias) == Sums(0.5, 0.25, 1, 1, 0, 0)
  {
    assert GetRating(s, bias) == 0.5;
  }

  /** What pick_song takes the square root of. */
  ghost function KeptVariance(kept: Sums, n: nat): real
    requires n > 0
  {
    var avg := kept.rating / n as real;
    var v := kept.ratingSqr / n as real - avg * avg;
    if v < 0.0 then -v else v
  }

  /** In numbers: how far n times the sum of squares is from the square of the sum, over n times n. */
  lemma KeptVarianceInNumbers(kept: Sums, n: nat)
    requires n > 0
    ensures var c, d := n as real, n as real * kept.ratingSqr - kept.rating * kept.rating;
            c * (c * KeptVariance(kept, n)) == if d < 0.0 then -d else d
  {
    var c, avg, mean := n as real, kept.rating / n as real, kept.ratingSqr / n as real;
    QuotientTimes(kept.rating, c);
    QuotientTimes(kept.ratingSqr, c);
    ScaledVariance(c, kept.rating, kept.ratingSqr, avg, mean);
    var v, d := mean - avg * avg, c * kept.ratingSqr - kept.rating * kept.rating;
    assert c * (c * v) == d && c * (c * -v) == -d;
    if v < 0.0 { ScaledSign(c, -v); } else { ScaledSign(c, v); }
  }

  lemma ScaledSign(c: real, v: real)
    requires c > 0.0 && v >= 0.0
    ensures c * (c * v) >= 0.0
  {
    Product(c, v);
    Product(c, c * v);
  }

  /** With exact sums that is the variance of the ratings, and the fabs changes nothing. */
  lemma {:induction false} ExactVariance(songs: seq<Stat>, bias: real)
    requires songs != []
    ensures KeptVariance(Totals(songs, bias), |songs|) == Variance(songs, bias)
    ensures Totals(songs, bias).rating / |songs| as real == Average(songs, bias)
  {
    hide GetRating, Sum, SqrSum, Totals;
    RatingTotals(songs, bias);
    assert Totals(songs, bias).rating / |songs| as real == Average(songs, bias);
    assert Variance(songs, bias)
           == Totals(songs, bias).ratingSqr / |songs| as real - Average(songs, bias) * Average(songs, bias);
    hide Average, Variance;
    VarianceFacts(songs, bias);
  }

  ghost predicate DrawsInRange(draws: seq<Draw>, n: nat) {
    forall k | 0 <= k < |draws| :: draws[k].candidate < n
  }

  /** Tallying the accepted ones among some draws leaves `last` and makes `picks`. */
  ghost predicate TalliedTo(songs: seq<Stat>, bias: real, avg: real, dev: real, draws: seq<Draw>,
                            last: seq<Stat>, picks: seq<nat>) {
    && dev >= 0.0 && DrawsInRange(draws, |songs|)
    && Tally(songs, AcceptedOf(songs, bias, avg, dev, draws)) == (last, picks)
  }

  /** The draw finds no deviation, and a song rated off the average. */
  ghost predicate DrawsOff(songs: seq<Stat>, bias: real, avg: real, dev: real, d: Draw) {
    d.candidate < |songs| && OffTable(GetRating(songs[d.candidate], bias), avg, dev)
  }

  /** With exact sums no draw does: no deviation means that every song is rated the average. */
  lemma {:induction false} ExactSumsStayOnTable(songs: seq<Stat>, bias: real, avg: real, dev: real, kept: Sums)
    requires songs != [] && kept == Totals(songs, bias)
    requires dev * dev == KeptVariance(kept, |songs|) && avg == kept.rating / |songs| as real
    ensures forall d :: !DrawsOff(songs, bias, avg, dev, d)
  {
    hide GetRating, Totals, KeptVariance, Variance, Average;
    ExactVariance(songs, bias);
    VarianceFacts(songs, bias);
  }

  lemma {:induction false} NothingTallied(songs: seq<Stat>, bias: real, avg: real, dev: real)
    requires dev >= 0.0
    ensures TalliedTo(songs, bias, avg, dev, [], songs, [])
  {
  }

  lemma TallyOneMore(start: seq<Stat>, before: seq<Stat>, after: seq<Stat>, bias: real, avg: real, dev: real,
                     draws: seq<Draw>, used: nat, accepted: bool, zero: bool)
    requires used < |draws| && dev >= 0.0 && DrawsInRange(draws, |start|) && SameButCounters(start, before)
    requires TalliedTo(start, bias, avg, dev, draws[..used], before, [])
    requires accepted == Accepts(GetRating(before[draws[used].candidate], bias), avg, dev, draws[used].value)
    requires !accepted ==> after == before && !zero
    requires accepted ==>
               TallyOne(before, draws[used].candidate) == (after, if zero then [draws[used].candidate] else [])
    ensures TalliedTo(start, bias, avg, dev, draws[..used + 1], after, if zero then [draws[used].candidate] else [])
  {
    hide GetRating, Accepts, TallyOne;
    var d := draws[used];
    assert draws[..used + 1] == draws[..used] + [d];
    AcceptedAppend(start, bias, avg, dev, draws[..used], d);
    SameRating(start[d.candidate], before[d.candidate], bias);
    if accepted {
      TallyAppend(start, AcceptedOf(start, bias, avg, dev, draws[..used]), d.candidate);
      assert [] + TallyOne(before, d.candidate).1 == TallyOne(before, d.candidate).1;
    }
  }

  /** The nearest allowed rating; -1 means unrated. */
  function ClampRating(wanted: int): (r: int)
    ensures -1 <= r <= 10 && (-1 <= wanted <= 10 ==> r == wanted)
    ensures wanted < -1 ==> r == -1
    ensures wanted > 10 ==> r == 10
  {
    if wanted < -1 then -1 else if wanted > 10 then 10 else wanted
  }

  // ---- Repeat counters ----

  ghost predicate SameButCounters(a: seq<Stat>, b: seq<Stat>) {
    |a| == |b| && forall i | 0 <= i < |a| :: a[i] == b[i].(repeatCounter := a[i].repeatCounter)
  }

  lemma SameRating(s: Stat, t: Stat, bias: real)
    requires s == t.(repeatCounter := s.repeatCounter)
    ensures GetRating(s, bias) == GetRating(t, bias)
  {
  }

  /** One accepted draw: count down, or be picked and start again from 10. */
  function TallyOne(songs: seq<Stat>, c: nat): (r: (seq<Stat>, seq<nat>))
    requires c < |songs|
    ensures |r.0| == |songs|
  {
    if songs[c].repeatCounter != 0 then
      (songs[c := songs[c].(repeatCounter := songs[c].repeatCounter - 1)], [])
    else
      (songs[c := songs[c].(repeatCounter := 10)], [c])
  }

  ghost predicate InRange(accepted: seq<nat>, n: nat) {
    forall k | 0 <= k < |accepted| :: accepted[k] < n
  }

  /** A whole run of accepted draws: the songs afterwards and the picks, in order. */
  function Tally(songs: seq<Stat>, accepted: seq<nat>): (r: (seq<Stat>, seq<nat>))
    requires InRange(accepted, |songs|)
    ensures |r.0| == |songs|
    decreases |accepted|
  {
    if accepted == [] then (songs, [])
    else
      var (next, pick) := TallyOne(songs, accepted[0]);
      var (last, picks) := Tally(next, accepted[1..]);
      (last, pick + picks)
  }

  /** The candidates of the draws that pass the draw test. */
  ghost function AcceptedOf(songs: seq<Stat>, bias: real, avg: real, dev: real, draws: seq<Draw>): (r: seq<nat>)
    requires dev >= 0.0 && DrawsInRange(draws, |songs|)
    ensures InRange(r, |songs|)
  {
    if draws == [] then [] else
      var d := draws[|draws| - 1];
      var before := AcceptedOf(songs, bias, avg, dev, draws[..|draws| - 1]);
      if Accepts(GetRating(songs[d.candidate], bias), avg, dev, d.value) then before + [d.candidate] else before
  }

  lemma {:induction false} AcceptedAppend(songs: seq<Stat>, bias: real, avg: real, dev: real, draws: seq<Draw>, d: Draw)
    requires dev >= 0.0 && d.candidate < |songs| && DrawsInRange(draws, |songs|)
    ensures AcceptedOf(songs, bias, avg, dev, draws + [d]) ==
            var before := AcceptedOf(songs, bias, avg, dev, draws);
            if Accepts(GetRating(songs[d.candidate], bias), avg, dev, d.value) then before + [d.candidate] else before
  {
    hide GetRating, Accepts;
    assert (draws + [d])[..|draws|] == draws;
  }

  lemma {:induction false} TallyAppend(songs: seq<Stat>, accepted: seq<nat>, c: nat)
    requires InRange(accepted, |songs|) && c < |songs|
    ensures var (mid, picks) := Tally(songs, accepted);
            var (last, pick) := TallyOne(mid, c);
            Tally(songs, accepted + [c]) == (last, picks + pick)
    decreases |accepted|
  {
    if accepted == [] {
      var (last, pick) := TallyOne(songs, c);
      assert accepted + [c] == [c] && [c][1..] == [];
      assert Tally(last, []) == (last, []);
      assert pick + [] == [] + pick;
    } else {
      assert (accepted + [c])[1..] == accepted[1..] + [c];
      var (next, first) := TallyOne(songs, accepted[0]);
      TallyAppend(next, accepted[1..], c);
      var (mid, picks) := Tally(next, accepted[1..]);
      var (last, pick) := TallyOne(mid, c);
      assert first + (picks + pick) == (first + picks) + pick;
    }
  }

  function Count(s: seq<nat>, i: nat): nat {
    if s == [] then 0 else (if s[0] == i then 1 else 0) + Count(s[1..], i)
  }

  lemma {:induction false} CountAppend(s: seq<nat>, t: seq<nat>, i: nat)
    ensures Count(s + t, i) == Count(s, i) + Count(t, i)
  {
    if s == [] {
      assert s + t == t;
    } else {
      assert (s + t)[1..] == s[1..] + t;
      CountAppend(s[1..], t, i);
    }
  }

  /** Picks of a song whose counter starts at `c`, after `m` accepted draws. */
  function PicksOf(c: nat, m: nat): nat {
    if m <= c then 0 else 1 + (m - c - 1) / 11
  }

  /** A song is picked on its (c+1)th accepted draw and on every eleventh after that. */
  lemma {:induction false} PicksAreSpaced(songs: seq<Stat>, accepted: seq<nat>, i: nat)
    requires InRange(accepted, |songs|) && i < |songs| && songs[i].repeatCounter >= 0
    ensures Count(Tally(songs, accepted).1, i) == PicksOf(songs[i].repeatCounter, Count(accepted, i))
    decreases |accepted|
  {
    if accepted != [] {
      var (next, pick) := TallyOne(songs, accepted[0]);
      PicksAreSpaced(next, accepted[1..], i);
      CountAppend(pick, Tally(next, accepted[1..]).1, i);
      assert pick != [] ==> pick[1..] == [];
    }
  }

  ghost function CounterSum(songs: seq<Stat>): int {
    if songs == [] then 0 else songs[0].repeatCounter + CounterSum(songs[1..])
  }

  ghost predicate CountersOk(songs: seq<Stat>) {
    forall i | 0 <= i < |songs| :: songs[i].repeatCounter >= 0
  }

  lemma {:induction false} CounterSumUpdate(songs: seq<Stat>, i: nat, s: Stat)
    requires i < |songs|
    ensures CounterSum(songs[i := s]) == CounterSum(songs) - songs[i].repeatCounter + s.repeatCounter
    decreases i
  {
    if i == 0 {
      assert songs[0 := s][1..] == songs[1..];
    } else {
      assert songs[i := s][1..] == songs[1..][i - 1 := s];
      CounterSumUpdate(songs[1..], i - 1, s);
    }
  }

  lemma {:induction false} CounterSumPositive(songs: seq<Stat>)
    requires CountersOk(songs)
    ensures CounterSum(songs) >= 0
  {
    if songs != [] { CounterSumPositive(songs[1..]); }
  }

  /** Without a pick, every accepted draw uses up one count. */
  lemma {:induction false} NoPickCountsDown(songs: seq<Stat>, accepted: seq<nat>)
    requires InRange(accepted, |songs|) && CountersOk(songs)
    ensures CountersOk(Tally(songs, accepted).0)
    ensures Tally(songs, accepted).1 == [] ==> CounterSum(Tally(songs, accepted).0) == CounterSum(songs) - |accepted|
    decreases |accepted|
  {
    if accepted != [] {
      var c := accepted[0];
      var (next, pick) := TallyOne(songs, c);
      CounterSumUpdate(songs, c, next[c]);
      NoPickCountsDown(next, accepted[1..]);
    }
  }

  /** The retry loop picks within as many accepted draws as there are counts to use up, plus one. */
  lemma {:induction false} EnoughDrawsPick(songs: seq<Stat>, accepted: seq<nat>)
    requires InRange(accepted, |songs|) && CountersOk(songs) && |accepted| > CounterSum(songs)
    ensures Tally(songs, accepted).1 != []
  {
    NoPickCountsDown(songs, accepted);
    CounterSumPositive(Tally(songs, accepted).0);
  }
}
