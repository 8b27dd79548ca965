/** The .stat file: a song's play statistics printed and read back. */
module StatFile {
  import opened Common
  import opened Text
  import opened Scanner
  import opened Numbers
  import Metadata

  datatype Stat = Stat(playCount: int, skipCount: int, repeatCounter: int, manualRating: int)

  const PLAYS := "play_count"
  const SKIPS := "skip_count"
  const COUNTER := "repeat_counter"
  const RATING := "manual_rating"

  /** A rating nobody has given yet. */
  const UNSET := -1

  /** A song before its .stat file is read. */
  const FRESH := Stat(0, 0, 0, UNSET)

  function Number(v: Option<string>): int
    requires v.Some?
  {
    Atoi(v.value)
  }

  /** The callback converts the value before it looks at the key; atoi of a null pointer ends the program. */
  function SetStat(s: Stat, key: string, value: Option<string>): Option<Stat> {
    if value.None? then None
    else if SameNoCase(PLAYS, key) then Some(s.(playCount := s.playCount + Number(value)))
    else if SameNoCase(COUNTER, key) then Some(s.(repeatCounter := Number(value)))
    else if SameNoCase(SKIPS, key) then Some(s.(skipCount := s.skipCount + Number(value)))
    else if SameNoCase(RATING, key) && s.manualRating == UNSET then Some(s.(manualRating := Number(value)))
    else Some(s)
  }

  /** A whole file; none when the program does not survive it. */
  function SetAll(s: Stat, events: seq<Event>): Option<Stat>
    decreases |events|
  {
    if events == [] then Some(s)
    else
      var next := SetStat(s, events[0].key, events[0].value);
      if next.None? then None else SetAll(next.value, events[1..])
  }

  lemma KeysDiffer(key: string)
    ensures SameNoCase(PLAYS, key) ==> !SameNoCase(SKIPS, key) && !SameNoCase(COUNTER, key) && !SameNoCase(RATING, key)
    ensures SameNoCase(SKIPS, key) ==> !SameNoCase(COUNTER, key) && !SameNoCase(RATING, key)
    ensures SameNoCase(COUNTER, key) ==> !SameNoCase(RATING, key)
    ensures SameNoCase(key, key)
  {
    assert PLAYS[0] == 'p' && SKIPS[0] == 's';
    assert |PLAYS| == 10 && |SKIPS| == 10 && |COUNTER| == 14 && |RATING| == 13;
  }

  /** Four effects, one for each field, make up the whole. */
  lemma SetStatIs(s: Stat, t: Stat, key: string, value: Option<string>)
    requires value.Some?
    requires t.playCount - s.playCount == if SameNoCase(PLAYS, key) then Number(value) else 0
    requires t.skipCount - s.skipCount == if SameNoCase(SKIPS, key) then Number(value) else 0
    requires t.repeatCounter == if SameNoCase(COUNTER, key) then Number(value) else s.repeatCounter
    requires t.manualRating
             == if s.manualRating == UNSET && SameNoCase(RATING, key) then Number(value) else s.manualRating
    ensures SetStat(s, key, value) == Some(t)
  {
    hide SameNoCase, Number;
    KeysDiffer(key);
  }

  // ---- What a whole file comes to ----

  /** The sum of the numbers given for `key`. */
  ghost function SumFor(key: string, events: seq<Event>): int
    requires Metadata.AllPresent(events)
  {
    if events == [] then 0
    else (if SameNoCase(key, events[0].key) then Number(events[0].value) else 0) + SumFor(key, events[1..])
  }

  /** The last event for `key`. */
  ghost function LastFor(key: string, events: seq<Event>): (r: Option<nat>)
    ensures r.None? ==> forall i | 0 <= i < |events| :: !SameNoCase(key, events[i].key)
    ensures r.Some? ==> r.value < |events| && SameNoCase(key, events[r.value].key)
                        && forall i | r.value < i < |events| :: !SameNoCase(key, events[i].key)
  {
    if events == [] then None
    else
      var rest := LastFor(key, events[1..]);
      assert forall i | 1 <= i < |events| :: events[i] == events[1..][i - 1];
      if rest.Some? then Some(rest.value + 1) else if SameNoCase(key, events[0].key) then Some(0) else None
  }

  /** The event gives a rating, other than the code for none. */
  predicate Rates(e: Event) {
    e.value.Some? && SameNoCase(RATING, e.key) && Number(e.value) != UNSET
  }

  /** The first event that gives a rating. */
  ghost function FirstRating(events: seq<Event>): (r: Option<nat>)
    ensures r.None? ==> forall i | 0 <= i < |events| :: !Rates(events[i])
    ensures r.Some? ==> r.value < |events| && Rates(events[r.value])
                        && forall i | 0 <= i < r.value :: !Rates(events[i])
  {
    if events == [] then None
    else if Rates(events[0]) then Some(0)
    else
      var rest := FirstRating(events[1..]);
      assert forall i | 1 <= i < |events| :: events[i] == events[1..][i - 1];
      if rest.Some? then Some(rest.value + 1) else None
  }

  /**
   The program survives a file exactly when none of its values is empty, whatever the keys. Then both counts
   grow by the sum of their entries, the counter takes its last entry, and an unset rating takes the first
   entry that gives one.
   */
  lemma {:induction false} FileAddsUp(s: Stat, events: seq<Event>)
    ensures SetAll(s, events).Some? <==> Metadata.AllPresent(events)
    ensures Metadata.AllPresent(events) ==>
              var t, last, first := SetAll(s, events).value, LastFor(COUNTER, events), FirstRating(events);
              && t.playCount == s.playCount + SumFor(PLAYS, events)
              && t.skipCount == s.skipCount + SumFor(SKIPS, events)
              && t.repeatCounter == (if last.Some? then Number(events[last.value].value) else s.repeatCounter)
              && t.manualRating == (if s.manualRating == UNSET && first.Some? then Number(events[first.value].value)
                                    else s.manualRating)
    decreases |events|
  {
    hide SameNoCase, Number;
    if events != [] {
      var e, rest := events[0], events[1..];
      KeysDiffer(e.key);
      assert events == [e] + rest;
      var next := SetStat(s, e.key, e.value);
      if next.Some? { FileAddsUp(next.value, rest); }
    }
  }

  /** One empty value is enough. */
  lemma {:induction false} EmptyValueEndsProgram(s: Stat)
    ensures SetAll(s, Parse("play_count=" + "\n", None)) == None
  {
    KeysArePrintable();
    Metadata.EmptyLineParses(PLAYS, "", None);
    assert PLAYS + "=" + "\n" + "" == "play_count=" + "\n";
  }

  // ---- Saving ----

  function NumberLine(key: string, n: int): string {
    Metadata.PrintLine(key, Some(Decimal(n)))
  }

  function SaveStat(s: Stat): string {
    NumberLine(PLAYS, s.playCount)
    + (NumberLine(SKIPS, s.skipCount)
       + (NumberLine(COUNTER, s.repeatCounter)
          + (NumberLine(RATING, s.manualRating) + "\n")))
  }

  /** A song's statistics, filled in by the scanner's callback. */
  class SongStat {
    var playCount: int
    var skipCount: int
    var repeatCounter: int
    var manualRating: int

    constructor ()
      ensures Value() == FRESH
    {
      playCount, skipCount, repeatCounter, manualRating := 0, 0, 0, UNSET;
    }

    function Value(): Stat
      reads this
    {
      Stat(playCount, skipCount, repeatCounter, manualRating)
    }

    /** set_stat_data: counts add up, the counter is replaced, a rating only fills an unset one. */
    method SetStatData(key: string, value: Option<string>) returns (crashed: bool)
      modifies this
      ensures crashed <==> value.None?
      ensures crashed ==> Value() == old(Value())
      ensures !crashed ==>
                && playCount - old(playCount) == (if SameNoCase(PLAYS, key) then Number(value) else 0)
                && skipCount - old(skipCount) == (if SameNoCase(SKIPS, key) then Number(value) else 0)
                && repeatCounter == (if SameNoCase(COUNTER, key) then Number(value) else old(repeatCounter))
                && manualRating == (if old(manualRating) == UNSET && SameNoCase(RATING, key) then Number(value)
                                    else old(manualRating))
    {
      KeysDiffer(key);
      if value.None? { return true; }
      var n := Number(value);
      if SameNoCase(PLAYS, key) {
        playCount := playCount + n;
      } else if SameNoCase(COUNTER, key) {
        repeatCounter := n;
      } else if SameNoCase(SKIPS, key) {
        skipCount := skipCount + n;
      } else if SameNoCase(RATING, key) {
        if manualRating == UNSET {
          manualRating := n;
        }
      }
      return false;
    }

    method Load(data: string) returns (crashed: bool)
      modifies this
      ensures crashed <==> !Metadata.AllPresent(Parse(data, None))
      ensures SetAll(old(Value()), Parse(data, None)) == if crashed then None else Some(Value())
    {
      hide SetStat, SameNoCase, Number, Metadata.AllPresent;
      var events := ParseFile(data);
      ghost var start := Value();
      FileAddsUp(start, events);
      var i := 0;
      while i < |events|
        invariant 0 <= i <= |events|
        invariant SetAll(Value(), events[i..]) == SetAll(start, events)
      {
        assert events[i..][1..] == events[i + 1..];
        ghost var was := Value();
        crashed := SetStatData(events[i].key, events[i].value);
        if crashed {
          NoneIsNone(was, events[i].key);
          return true;
        }
        SetStatIs(was, Value(), events[i].key, events[i].value);
        i := i + 1;
      }
      return false;
    }

    /** save_stat_data: a fresh song that loads the text has the same statistics. */
    method SaveStatData() returns (out: string)
      ensures SetAll(FRESH, Parse(out, None)) == Some(Value())
      ensures out == SaveStat(Value())
    {
      var a := NumberLine(PLAYS, playCount);
      var b := NumberLine(SKIPS, skipCount);
      var c := NumberLine(COUNTER, repeatCounter);
      var d := NumberLine(RATING, manualRating);
      out := a + b + c + d + "\n";
      hide NumberLine;
      FiveParts(a, b, c, d, "\n");
      StatRoundTrip(FRESH, Value());
    }
  }

  lemma NoneIsNone(s: Stat, key: string)
    ensures SetStat(s, key, None) == None
  {
  }

  lemma FiveParts(a: string, b: string, c: string, d: string, e: string)
    ensures a + b + c + d + e == a + (b + (c + (d + e)))
  {
  }

  lemma DecimalIsPrintable(n: int)
    ensures Metadata.PrintableValue(Decimal(n))
  {
    var s := Decimal(n);
    forall j | 0 <= j < |s| ensures IsDigit(s[j]) || s[j] == '-' {
      if n < 0 && j > 0 { assert s[j] == Digits(-n)[j - 1]; }
    }
  }

  /** A printed number scans back as one event carrying that number. */
  lemma {:induction false} NumberLineParses(key: string, n: int, rest: string)
    requires Metadata.PrintableKey(key)
    ensures Parse(NumberLine(key, n) + rest, None) == [Event(None, key, Some(Decimal(n)))] + Parse(rest, None)
    ensures Number(Some(Decimal(n))) == n
  {
    DecimalIsPrintable(n);
    Metadata.LineParses(key, Decimal(n), rest, None);
    AtoiUndoesDecimal(n);
  }

  lemma BlankLineParses()
    ensures Parse("\n", None) == []
  {
    assert "\n"[1..] == "";
  }

  /** What a saved file scans back as. */
  function SavedEvents(s: Stat): seq<Event> {
    [Event(None, PLAYS, Some(Decimal(s.playCount)))]
    + ([Event(None, SKIPS, Some(Decimal(s.skipCount)))]
       + ([Event(None, COUNTER, Some(Decimal(s.repeatCounter)))]
          + ([Event(None, RATING, Some(Decimal(s.manualRating)))] + [])))
  }

  lemma KeysArePrintable()
    ensures Metadata.PrintableKey(PLAYS) && Metadata.PrintableKey(SKIPS)
    ensures Metadata.PrintableKey(COUNTER) && Metadata.PrintableKey(RATING)
  {
  }

  lemma SavedParses(s: Stat)
    ensures Parse(SaveStat(s), None) == SavedEvents(s)
  {
    KeysArePrintable();
    hide Parse, NumberLine, Decimal, Metadata.PrintableKey;
    var d := "\n";
    var c := NumberLine(RATING, s.manualRating) + d;
    var b := NumberLine(COUNTER, s.repeatCounter) + c;
    var a := NumberLine(SKIPS, s.skipCount) + b;
    BlankLineParses();
    NumberLineParses(RATING, s.manualRating, d);
    NumberLineParses(COUNTER, s.repeatCounter, c);
    NumberLineParses(SKIPS, s.skipCount, b);
    NumberLineParses(PLAYS, s.playCount, a);
    hide Number;
  }

  lemma {:induction false} SetAllOne(s: Stat, e: Event, rest: seq<Event>)
    ensures SetAll(s, [e] + rest)
            == var next := SetStat(s, e.key, e.value); if next.None? then None else SetAll(next.value, rest)
  {
    assert ([e] + rest)[1..] == rest;
  }

  /** Reading a saved file adds its counts to the song's and fills in an unset rating. */
  lemma {:induction false} StatRoundTrip(into: Stat, s: Stat)
    ensures SetAll(into, Parse(SaveStat(s), None)) ==
            Some(Stat(into.playCount + s.playCount, into.skipCount + s.skipCount, s.repeatCounter,
                      if into.manualRating == UNSET then s.manualRating else into.manualRating))
    ensures SetAll(FRESH, Parse(SaveStat(s), None)) == Some(s)
  {
    SavedParses(s);
    AtoiUndoesDecimal(s.playCount);
    AtoiUndoesDecimal(s.skipCount);
    AtoiUndoesDecimal(s.repeatCounter);
    AtoiUndoesDecimal(s.manualRating);
    LoadFour(into, s);
    LoadFour(FRESH, s);
  }

  lemma {:induction false} LoadFour(into: Stat, s: Stat)
    requires Atoi(Decimal(s.playCount)) == s.playCount && Atoi(Decimal(s.skipCount)) == s.skipCount
    requires Atoi(Decimal(s.repeatCounter)) == s.repeatCounter && Atoi(Decimal(s.manualRating)) == s.manualRating
    ensures SetAll(into, SavedEvents(s))
            == Some(Stat(into.playCount + s.playCount, into.skipCount + s.skipCount, s.repeatCounter,
                         if into.manualRating == UNSET then s.manualRating else into.manualRating))
  {
    hide Decimal, Atoi, SameNoCase;
    KeysDiffer(PLAYS);
    KeysDiffer(SKIPS);
    KeysDiffer(COUNTER);
    KeysDiffer(RATING);
    var a := Event(None, PLAYS, Some(Decimal(s.playCount)));
    var b := Event(None, SKIPS, Some(Decimal(s.skipCount)));
    var c := Event(None, COUNTER, Some(Decimal(s.repeatCounter)));
    var d := Event(None, RATING, Some(Decimal(s.manualRating)));
    var s1 := SetStat(into, a.key, a.value).value;
    var s2 := SetStat(s1, b.key, b.value).value;
    var s3 := SetStat(s2, c.key, c.value).value;
    var s4 := SetStat(s3, d.key, d.value).value;
    SetAllOne(into, a, [b] + ([c] + ([d] + [])));
    SetAllOne(s1, b, [c] + ([d] + []));
    SetAllOne(s2, c, [d] + []);
    SetAllOne(s3, d, []);
    assert SetAll(s4, []) == Some(s4);
  }

  /** The file is four lines and an empty one. */
  lemma SavedText(s: Stat)
    ensures SaveStat(s)
            == "play_count=" + Decimal(s.playCount) + "\n" + ("skip_count=" + Decimal(s.skipCount) + "\n"
               + ("repeat_counter=" + Decimal(s.repeatCounter) + "\n"
                  + ("manual_rating=" + Decimal(s.manualRating) + "\n" + "\n")))
  {
    hide Decimal;
    LineText("play_count", s.playCount);
    LineText("skip_count", s.skipCount);
    LineText("repeat_counter", s.repeatCounter);
    LineText("manual_rating", s.manualRating);
    assert "play_count" + "=" == "play_count=" && "skip_count" + "=" == "skip_count=";
    assert "repeat_counter" + "=" == "repeat_counter=" && "manual_rating" + "=" == "manual_rating=";
    hide NumberLine;
  }

  lemma LineText(key: string, n: int)
    ensures NumberLine(key, n) == key + "=" + Decimal(n) + "\n"
  {
  }
}
