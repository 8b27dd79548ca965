/**
 The saved playlist: what save_state writes, what the loader collects from it, and the queue rebuilt
 from the database.
 */
module SavedState {
  import opened Common
  import opened Text
  import opened Scanner
  import opened Numbers
  import Metadata
  import StatFile

  /** A playlist entry: the song's full path and the position to start from. */
  datatype Entry = Entry(path: string, position: int)

  /** What an entry's filename field holds: nothing until a filename is read, then its value, empty or not. */
  datatype Name = Unset | Named(filename: Option<string>)

  datatype RawSong = RawSong(name: Name, position: int)

  /** state_info; `slot` is the name waiting for its position. */
  datatype Raw = Raw(songs: seq<RawSong>, slot: Name, current: int, volume: int, brightness: int)

  const FILENAME := "entry_filename"
  const POSITION := "entry_position"
  const CURRENT := "current_entry"
  const VOLUME := "volume"
  const BRIGHTNESS := "brightness"

  const EMPTY := Raw([], Unset, 0, 50, 100)

  /** The keys whose values are converted to a number. */
  predicate Numeric(key: string) {
    SameNoCase(POSITION, key) || SameNoCase(CURRENT, key) || SameNoCase(VOLUME, key) || SameNoCase(BRIGHTNESS, key)
  }

  /** One line of the file; converting a null pointer to a number ends the program. */
  function Callback(r: Raw, key: string, value: Option<string>): Option<Raw> {
    if Numeric(key) && value.None? then None
    else if SameNoCase(FILENAME, key) then Some(r.(slot := Named(value)))
    else if SameNoCase(POSITION, key) then
      Some(r.(songs := r.songs + [RawSong(r.slot, StatFile.Number(value))], slot := Unset))
    else if SameNoCase(CURRENT, key) then Some(r.(current := StatFile.Number(value)))
    else if SameNoCase(VOLUME, key) then Some(r.(volume := StatFile.Number(value)))
    else if SameNoCase(BRIGHTNESS, key) then Some(r.(brightness := StatFile.Number(value)))
    else Some(r)
  }

  /** A whole file; none when the program does not survive it. */
  function CallbackAll(r: Raw, events: seq<Event>): Option<Raw>
    decreases |events|
  {
    if events == [] then Some(r)
    else
      var next := Callback(r, events[0].key, events[0].value);
      if next.None? then None else CallbackAll(next.value, events[1..])
  }

  /** Every number that is read is there. */
  ghost predicate NumbersPresent(events: seq<Event>) {
    forall i | 0 <= i < |events| :: Numeric(events[i].key) ==> events[i].value.Some?
  }

  /** state_info, filled in by the scanner's callback. */
  class StateInfo {
    var songs: seq<RawSong>
    var slot: Name
    var current: int
    var volume: int
    var brightness: int

    constructor ()
      ensures Value() == EMPTY
    {
      songs, slot, current, volume, brightness := [], Unset, 0, 50, 100;
    }

    function Value(): Raw
      reads this
    {
      Raw(songs, slot, current, volume, brightness)
    }

    /** load_state_callback: a position closes the entry its filename opened. */
    method LoadStateCallback(key: string, value: Option<string>) returns (crashed: bool)
      modifies this
      ensures crashed <==> Numeric(key) && value.None?
      ensures crashed ==> Value() == old(Value())
      ensures !crashed ==> Steps(old(Value()), Value(), key, value)
    {
      KeysDiffer(key);
      if Numeric(key) && value.None? { return true; }
      if SameNoCase(FILENAME, key) {
        slot := Named(value);
      } else if SameNoCase(POSITION, key) {
        songs, slot := songs + [RawSong(slot, StatFile.Number(value))], Unset;
      } else if SameNoCase(CURRENT, key) {
        current := StatFile.Number(value);
      } else if SameNoCase(VOLUME, key) {
        volume := StatFile.Number(value);
      } else if SameNoCase(BRIGHTNESS, key) {
        brightness := StatFile.Number(value);
      }
      return false;
    }

    /** The parsing half of load_state. */
    method Load(text: string) returns (crashed: bool)
      modifies this
      ensures crashed <==> !NumbersPresent(Parse(text, None))
      ensures CallbackAll(old(Value()), Parse(text, None)) == if crashed then None else Some(Value())
    {
      hide Callback, SameNoCase, Numeric, NumbersPresent, Steps;
      var events := ParseFile(text);
      ghost var start := Value();
      FileSettles(start, events);
      var i := 0;
      while i < |events|
        invariant 0 <= i <= |events|
        invariant CallbackAll(Value(), events[i..]) == CallbackAll(start, events)
      {
        assert events[i..][1..] == events[i + 1..];
        ghost var was := Value();
        crashed := LoadStateCallback(events[i].key, events[i].value);
        CallbackIs(was, Value(), events[i].key, events[i].value);
        if crashed { return true; }
        i := i + 1;
      }
      return false;
    }
  }

  /** What one line changes, field by field, and what it leaves. */
  ghost predicate Steps(r: Raw, t: Raw, key: string, value: Option<string>)
    requires Numeric(key) ==> value.Some?
  {
    && t.songs == r.songs + (if SameNoCase(POSITION, key) then [RawSong(r.slot, StatFile.Number(value))] else [])
    && t.slot == (if SameNoCase(FILENAME, key) then Named(value)
                  else if SameNoCase(POSITION, key) then Unset else r.slot)
    && t.current == (if SameNoCase(CURRENT, key) then StatFile.Number(value) else r.current)
    && t.volume == (if SameNoCase(VOLUME, key) then StatFile.Number(value) else r.volume)
    && t.brightness == (if SameNoCase(BRIGHTNESS, key) then StatFile.Number(value) else r.brightness)
  }

  lemma KeysDiffer(key: string)
    ensures SameNoCase(FILENAME, key) ==> !SameNoCase(POSITION, key)
    ensures SameNoCase(FILENAME, key) || SameNoCase(POSITION, key) ==> |key| == 14
    ensures SameNoCase(CURRENT, key) ==> |key| == 13
    ensures SameNoCase(VOLUME, key) ==> |key| == 6
    ensures SameNoCase(BRIGHTNESS, key) ==> |key| == 10
  {
    assert FILENAME[6] == 'f' && POSITION[6] == 'p';
  }

  /** Five effects, one for each field, make up the whole. */
  lemma CallbackIs(r: Raw, t: Raw, key: string, value: Option<string>)
    ensures Callback(r, key, value) == None <==> Numeric(key) && value.None?
    ensures !(Numeric(key) && value.None?) ==> (Steps(r, t, key, value) <==> Callback(r, key, value) == Some(t))
  {
    KeysDiffer(key);
    hide SameNoCase;
    assert r.songs + [] == r.songs;
  }

  // ---- What a whole file comes to ----

  /** The event names a file, or closes an entry. */
  predicate Slots(e: Event) {
    SameNoCase(FILENAME, e.key) || SameNoCase(POSITION, e.key)
  }

  /** The last event that names a file or closes an entry. */
  ghost function LastSlot(events: seq<Event>): (r: Option<nat>)
    ensures r.None? ==> forall i | 0 <= i < |events| :: !Slots(events[i])
    ensures r.Some? ==> r.value < |events| && Slots(events[r.value])
                        && forall i | r.value < i < |events| :: !Slots(events[i])
  {
    if events == [] then None
    else
      var rest := LastSlot(events[1..]);
      assert forall i | 1 <= i < |events| :: events[i] == events[1..][i - 1];
      if rest.Some? then Some(rest.value + 1) else if Slots(events[0]) then Some(0) else None
  }

  /** What the name field holds after `events`: a filename named since the last entry was closed, or nothing. */
  ghost function SlotAfter(slot: Name, events: seq<Event>): Name {
    var last := LastSlot(events);
    if last.None? then slot
    else if SameNoCase(FILENAME, events[last.value].key) then Named(events[last.value].value)
    else Unset
  }

  /** The number the last event for `key` gives. */
  ghost function LastNumber(key: string, events: seq<Event>, otherwise: int): int
    requires Numeric(key) && NumbersPresent(events)
  {
    var last := StatFile.LastFor(key, events);
    if last.None? then otherwise
    else
      NumericToo(key, events[last.value].key);
      StatFile.Number(events[last.value].value)
  }

  lemma NumericToo(key: string, other: string)
    requires Numeric(key) && SameNoCase(key, other)
    ensures Numeric(other)
  {
  }

  ghost function PositionsIn(events: seq<Event>): nat {
    if events == [] then 0
    else (if SameNoCase(POSITION, events[0].key) then 1 else 0) + PositionsIn(events[1..])
  }

  lemma OwnKeysAreNumeric()
    ensures Numeric(CURRENT) && Numeric(VOLUME) && Numeric(BRIGHTNESS)
  {
  }

  /**
   The program survives a file exactly when every number in it is there. Then every position closes an
   entry, and the last setting of each kind wins.
   */
  lemma {:induction false} FileSettles(r: Raw, events: seq<Event>)
    ensures CallbackAll(r, events).Some? <==> NumbersPresent(events)
    ensures Numeric(CURRENT) && Numeric(VOLUME) && Numeric(BRIGHTNESS)
    ensures NumbersPresent(events) ==>
              var t := CallbackAll(r, events).value;
              && r.songs <= t.songs && |t.songs| == |r.songs| + PositionsIn(events)
              && t.slot == SlotAfter(r.slot, events)
              && t.current == LastNumber(CURRENT, events, r.current)
              && t.volume == LastNumber(VOLUME, events, r.volume)
              && t.brightness == LastNumber(BRIGHTNESS, events, r.brightness)
    decreases |events|
  {
    hide SameNoCase, Callback, Numeric, StatFile.Number;
    OwnKeysAreNumeric();
    if events != [] {
      var e, rest := events[0], events[1..];
      assert events == [e] + rest;
      var next := Callback(r, e.key, e.value);
      CallbackIs(r, if next.Some? then next.value else r, e.key, e.value);
      KeysDiffer(e.key);
      PresentSplits(e, rest);
      if next.Some? { FileSettles(next.value, rest); }
    }
  }

  lemma PresentSplits(e: Event, rest: seq<Event>)
    ensures NumbersPresent([e] + rest) <==> (Numeric(e.key) ==> e.value.Some?) && NumbersPresent(rest)
  {
    hide Numeric;
    var all := [e] + rest;
    assert all[0] == e;
    if NumbersPresent(all) {
      forall i | 0 <= i < |rest| && Numeric(rest[i].key) ensures rest[i].value.Some? { assert all[i + 1] == rest[i]; }
    }
  }

  /** One event more in front. */
  lemma {:induction false} PrefixGrows(slot: Name, e: Event, events: seq<Event>)
    ensures PositionsIn([e] + events) == (if SameNoCase(POSITION, e.key) then 1 else 0) + PositionsIn(events)
    ensures SlotAfter(slot, [e] + events)
            == SlotAfter(if SameNoCase(FILENAME, e.key) then Named(e.value)
                         else if SameNoCase(POSITION, e.key) then Unset else slot, events)
  {
    var all := [e] + events;
    assert all[1..] == events && all[0] == e;
    KeysDiffer(e.key);
    hide SameNoCase;
  }

  /** The k-th position makes the k-th entry, with the filename named since the entry before it, if any was. */
  lemma {:induction false} EntryCollected(r: Raw, events: seq<Event>, i: nat)
    requires NumbersPresent(events) && i < |events| && SameNoCase(POSITION, events[i].key)
    ensures CallbackAll(r, events).Some? && events[i].value.Some?
    ensures var t, k := CallbackAll(r, events).value, |r.songs| + PositionsIn(events[..i]);
            k < |t.songs| && t.songs[k] == RawSong(SlotAfter(r.slot, events[..i]), StatFile.Number(events[i].value))
    decreases i
  {
    hide Callback, SameNoCase, Numeric, StatFile.Number, SlotAfter, PositionsIn, LastNumber, NumbersPresent;
    var e, rest := events[0], events[1..];
    assert events == [e] + rest;
    PresentSplits(e, rest);
    FileSettles(r, events);
    PositionHasNumber(events, i);
    CallbackStarts(r, e);
    var next := Callback(r, e.key, e.value).value;
    FileSettles(next, rest);
    if i == 0 {
      FirstEntry(r, events, next);
    } else {
      EntryCollected(next, rest, i - 1);
      assert events[..i] == [e] + rest[..i - 1];
      PrefixGrows(r.slot, e, rest[..i - 1]);
    }
  }

  lemma PositionHasNumber(events: seq<Event>, i: nat)
    requires NumbersPresent(events) && i < |events| && SameNoCase(POSITION, events[i].key)
    ensures events[i].value.Some?
  {
  }

  lemma {:induction false} FirstEntry(r: Raw, events: seq<Event>, next: Raw)
    requires events != [] && SameNoCase(POSITION, events[0].key) && events[0].value.Some?
    requires Callback(r, events[0].key, events[0].value) == Some(next) && CallbackAll(next, events[1..]).Some?
    requires next.songs <= CallbackAll(next, events[1..]).value.songs
    requires next.songs == r.songs + [RawSong(r.slot, StatFile.Number(events[0].value))]
    ensures CallbackAll(r, events).Some?
    ensures var t := CallbackAll(r, events).value.songs;
            |r.songs| < |t| && t[|r.songs|] == RawSong(SlotAfter(r.slot, events[..0]), StatFile.Number(events[0].value))
    ensures PositionsIn(events[..0]) == 0
  {
    hide Callback, SameNoCase, StatFile.Number;
    assert events[..0] == [] && CallbackAll(r, events) == CallbackAll(next, events[1..]);
    hide CallbackAll;
    assert CallbackAll(r, events).value.songs[|r.songs|] == next.songs[|r.songs|];
  }

  lemma CallbackStarts(r: Raw, e: Event)
    requires Numeric(e.key) ==> e.value.Some?
    ensures Callback(r, e.key, e.value).Some? && Steps(r, Callback(r, e.key, e.value).value, e.key, e.value)
    ensures SlotAfter(r.slot, []) == r.slot && PositionsIn([]) == 0
  {
    hide SameNoCase, Numeric, Steps, Callback;
    CallbackIs(r, if Callback(r, e.key, e.value).Some? then Callback(r, e.key, e.value).value else r, e.key, e.value);
  }

  // ---- Entries without a name ----

  /** Every position comes after a filename of its own. */
  ghost predicate PositionsNamed(events: seq<Event>) {
    forall i | 0 <= i < |events| && SameNoCase(POSITION, events[i].key) :: SlotAfter(Unset, events[..i]).Named?
  }

  predicate AllNamed(raw: seq<RawSong>) {
    forall k | 0 <= k < |raw| :: raw[k].name.Named?
  }

  lemma {:induction false} EntryHasPosition(events: seq<Event>, k: nat) returns (i: nat)
    requires k < PositionsIn(events)
    ensures i < |events| && SameNoCase(POSITION, events[i].key) && PositionsIn(events[..i]) == k
    decreases |events|
  {
    hide SameNoCase;
    if SameNoCase(POSITION, events[0].key) && k == 0 {
      i := 0;
    } else {
      var rest := events[1..];
      i := EntryHasPosition(rest, if SameNoCase(POSITION, events[0].key) then k - 1 else k);
      i := i + 1;
      assert events[..i][1..] == rest[..i - 1] && events[..i][0] == events[0];
    }
  }

  /** Every entry of a file has a name exactly when every position comes after a filename of its own. */
  lemma {:induction false} NamedExactly(events: seq<Event>)
    requires NumbersPresent(events)
    ensures CallbackAll(EMPTY, events).Some?
    ensures AllNamed(CallbackAll(EMPTY, events).value.songs) <==> PositionsNamed(events)
  {
    hide CallbackAll, SameNoCase, Numeric, NumbersPresent, SlotAfter, PositionsIn, StatFile.Number, LastNumber;
    FileSettles(EMPTY, events);
    var songs := CallbackAll(EMPTY, events).value.songs;
    if PositionsNamed(events) {
      forall k | 0 <= k < |songs| ensures songs[k].name.Named? {
        var i := EntryHasPosition(events, k);
        EntryCollected(EMPTY, events, i);
      }
    }
    if AllNamed(songs) {
      forall i | 0 <= i < |events| && SameNoCase(POSITION, events[i].key)
        ensures SlotAfter(Unset, events[..i]).Named?
      {
        EntryCollected(EMPTY, events, i);
      }
    }
  }

  lemma StateKeysArePrintable()
    ensures Metadata.PrintableKey(POSITION)
  {
  }

  /** A position without a number ends the program... */
  lemma {:induction false} EmptyNumberEndsProgram()
    ensures CallbackAll(EMPTY, Parse("entry_position=" + "\n", None)) == None
  {
    StateKeysArePrintable();
    Metadata.EmptyLineParses(POSITION, "", None);
    assert POSITION + "=" + "\n" + "" == "entry_position=" + "\n";
  }

  /** ... and one without a filename leaves an entry whose name was never set. */
  lemma {:induction false} PositionAloneIsUnnamed()
    ensures CallbackAll(EMPTY, Parse(StatFile.NumberLine(POSITION, 0), None))
            == Some(EMPTY.(songs := [RawSong(Unset, 0)]))
  {
    hide Parse, Numbers.Decimal, Numbers.Atoi, StatFile.NumberLine;
    StateKeysArePrintable();
    StatFile.NumberLineParses(POSITION, 0, "");
    assert StatFile.NumberLine(POSITION, 0) + "" == StatFile.NumberLine(POSITION, 0);
    EmptyParses();
    var e := Event(None, POSITION, Some(Decimal(0)));
    CallbackOne(EMPTY, e, []);
    KeysDiffer(POSITION);
    assert SameNoCase(POSITION, POSITION) && [e] + [] == [e] && [] + [RawSong(Unset, 0)] == [RawSong(Unset, 0)];
    assert CallbackAll(EMPTY.(songs := [RawSong(Unset, 0)]), []) == Some(EMPTY.(songs := [RawSong(Unset, 0)]));
  }

  // ---- Saving ----

  function EntryText(e: Entry): string {
    Metadata.PrintLine(FILENAME, Some(e.path)) + StatFile.NumberLine(POSITION, e.position)
  }

  function EntriesText(es: seq<Entry>): string {
    if es == [] then "" else EntryText(es[0]) + EntriesText(es[1..])
  }

  function Clamp(volume: int, low: int, high: int): int {
    if volume > high then high else if volume < low then low else volume
  }

  /** The two comment lines; `stamp` is the printed date. */
  function HeaderText(stamp: string): string {
    "# Saved Squash state\n" + ("# Auto-Generated on " + stamp + "\n\n")
  }

  function SettingsText(volume: Option<int>, low: int, high: int, brightness: int): string {
    (if volume.None? then "" else StatFile.NumberLine(VOLUME, Clamp(volume.value, low, high)))
    + StatFile.NumberLine(BRIGHTNESS, brightness)
  }

  /** From the cursor on, the entries lie in the list and their names have been set. */
  predicate Usable(raw: seq<RawSong>, start: int) {
    start < |raw| ==> 0 <= start && AllNamed(raw[start..])
  }

  /** The entries from the cursor on; a file can put the cursor past the last one. */
  function NotLoaded(raw: seq<RawSong>, current: int): seq<RawSong>
    requires current < |raw| ==> 0 <= current
  {
    if current < |raw| then raw[current..] else []
  }

  /** An entry as save_state prints it; printf turns a missing filename into a text of its own. */
  function AsEntry(r: RawSong): Entry
    requires r.name.Named?
  {
    Entry(Metadata.TextOf(r.name.filename), r.position)
  }

  function Printed(raw: seq<RawSong>): (r: seq<Entry>)
    requires AllNamed(raw)
    ensures |r| == |raw| && forall i | 0 <= i < |r| :: r[i] == AsEntry(raw[i])
  {
    if raw == [] then [] else [AsEntry(raw[0])] + Printed(raw[1..])
  }

  /** What is playing, then the queue, then the entries of the last file not yet queued. */
  function Playlist(playing: Option<Entry>, queue: seq<Entry>, raw: seq<RawSong>, current: int): seq<Entry>
    requires Usable(raw, current)
  {
    (if playing.Some? then [playing.value] else []) + queue + Printed(NotLoaded(raw, current))
  }

  function StateText(stamp: string, entries: seq<Entry>, volume: Option<int>, low: int, high: int,
                     brightness: int): string
  {
    HeaderText(stamp)
    + (StatFile.NumberLine(CURRENT, 0) + (EntriesText(entries) + SettingsText(volume, low, high, brightness)))
  }

  method WriteEntries(before: string, es: seq<Entry>) returns (out: string)
    ensures out == before + EntriesText(es)
  {
    hide EntryText;
    out := before;
    var i := 0;
    assert es[0..] == es;
    while i < |es|
      invariant 0 <= i <= |es|
      invariant out + EntriesText(es[i..]) == before + EntriesText(es)
    {
      assert es[i..][1..] == es[i + 1..];
      Metadata.Regroup(out, EntryText(es[i]), EntriesText(es[i + 1..]));
      out := out + EntryText(es[i]);
      i := i + 1;
    }
  }

  lemma {:induction false} EntriesTextAppend(a: seq<Entry>, b: seq<Entry>)
    ensures EntriesText(a + b) == EntriesText(a) + EntriesText(b)
  {
    if a == [] {
      assert a + b == b;
    } else {
      assert (a + b)[1..] == a[1..] + b;
      EntriesTextAppend(a[1..], b);
      Metadata.Regroup(EntryText(a[0]), EntriesText(a[1..]), EntriesText(b));
    }
  }

  /**
   The entries not yet queued. The loader's own cursor moves past each one written. A cursor before the first
   entry, or a name never set, prints memory that holds no path.
   */
  method WriteWaiting(before: string, raw: seq<RawSong>, current: int)
    returns (out: string, current': int, stray: bool)
    ensures stray <==> !Usable(raw, current)
    ensures !stray ==> out == before + EntriesText(Printed(NotLoaded(raw, current)))
    ensures !stray ==> current' == Max(current, |raw|)
  {
    hide EntryText, EntriesText, Printed, AsEntry;
    out, current' := before, current;
    if current < 0 && current < |raw| { return out, current', true; }
    NothingWaits(raw, current);
    NoEntries(before);
    while current' < |raw|
      invariant current <= current' && (current' <= |raw| || current' == current)
      invariant AllNamed(Between(raw, current, current'))
      invariant out == before + EntriesText(Printed(Between(raw, current, current')))
    {
      if raw[current'].name.Unset? {
        assert raw[current..][current' - current] == raw[current'];
        return out, current', true;
      }
      OneMoreWritten(before, raw, current, current');
      out := out + EntryText(AsEntry(raw[current']));
      current' := current' + 1;
    }
    if current < |raw| { assert raw[current..current'] == raw[current..]; }
    return out, current', false;
  }

  function Between(raw: seq<RawSong>, from: int, end: int): seq<RawSong> {
    if 0 <= from <= end <= |raw| then raw[from..end] else []
  }

  lemma NothingWaits(raw: seq<RawSong>, from: int)
    ensures Between(raw, from, from) == [] && EntriesText(Printed([])) == ""
  {
  }

  lemma {:induction false} OneMoreWritten(before: string, raw: seq<RawSong>, from: int, k: int)
    requires 0 <= from <= k < |raw| && AllNamed(Between(raw, from, k)) && raw[k].name.Named?
    ensures AllNamed(Between(raw, from, k + 1))
    ensures before + EntriesText(Printed(Between(raw, from, k))) + EntryText(AsEntry(raw[k]))
            == before + EntriesText(Printed(Between(raw, from, k + 1)))
  {
    hide EntryText, EntriesText;
    var done, e := raw[from..k], AsEntry(raw[k]);
    assert raw[from..k + 1] == done + [raw[k]];
    assert Printed(done + [raw[k]]) == Printed(done) + [e];
    EntriesTextAppend(Printed(done), [e]);
    OneEntryText(e);
    Metadata.Regroup(before, EntriesText(Printed(done)), EntryText(e));
  }

  lemma {:induction false} OneEntryText(e: Entry)
    ensures EntriesText([e]) == EntryText(e)
  {
    hide EntryText;
    assert [e][1..] == [] && EntriesText([]) == "";
    assert EntryText(e) + "" == EntryText(e);
  }

  /**
   save_state. It writes the playlist, and as a side effect moves the loader's own cursor past every
   entry it wrote: entries not yet queued are then only in the file.
   */
  method SaveState(stamp: string, playing: Option<Entry>, queue: seq<Entry>, raw: seq<RawSong>, current: int,
                   volume: Option<int>, low: int, high: int, brightness: int)
    returns (out: string, current': int, stray: bool)
    ensures stray <==> !Usable(raw, current)
    ensures !stray ==> out == StateText(stamp, Playlist(playing, queue, raw, current), volume, low, high, brightness)
    ensures !stray ==> current' == Max(current, |raw|)
  {
    hide HeaderText, EntriesText, SettingsText, StatFile.NumberLine, Printed;
    var start := HeaderText(stamp) + StatFile.NumberLine(CURRENT, 0);
    ghost var first := if playing.Some? then [playing.value] else [];
    out := start;
    if playing.Some? {
      out := WriteEntries(out, [playing.value]);
    } else {
      NoEntries(out);
    }
    out := WriteEntries(out, queue);
    out, current', stray := WriteWaiting(out, raw, current);
    if stray { return; }
    ghost var rest := Printed(NotLoaded(raw, current));
    ThreeParts(start, first, queue, rest);
    var settings := SettingsText(volume, low, high, brightness);
    out := out + settings;
    FourParts(HeaderText(stamp), StatFile.NumberLine(CURRENT, 0), EntriesText(first + queue + rest), settings);
  }

  lemma NoEntries(start: string)
    ensures start + EntriesText([]) == start
  {
  }

  lemma {:induction false} ThreeParts(start: string, a: seq<Entry>, b: seq<Entry>, c: seq<Entry>)
    ensures start + EntriesText(a) + EntriesText(b) + EntriesText(c) == start + EntriesText(a + b + c)
  {
    EntriesTextAppend(a, b);
    EntriesTextAppend(a + b, c);
    hide EntriesText;
    Metadata.Regroup(start, EntriesText(a), EntriesText(b));
    Metadata.Regroup(start, EntriesText(a + b), EntriesText(c));
  }

  lemma FourParts(a: string, b: string, c: string, d: string)
    ensures ((a + b) + c) + d == a + (b + (c + d))
  {
  }

  // ---- Loading what was saved ----

  lemma {:induction false} CommentParses(text: string, rest: string)
    requires forall i | 0 <= i < |text| :: text[i] != '\n'
    ensures Parse("#" + text + "\n" + rest, None) == Parse(rest, None)
  {
    hide Parse;
    var d := "#" + text + "\n" + rest;
    TokenStarts(d, None);
    assert d[1..] == text + "\n" + rest;
    CommentLine(text, rest);
  }

  lemma {:induction false} CommentLine(text: string, rest: string)
    requires forall i | 0 <= i < |text| :: text[i] != '\n'
    ensures AfterComment(text + "\n" + rest, None) == Parse(rest, None)
  {
    hide Parse;
    var d := text + "\n" + rest;
    UntilIs(d, {'\n'}, |text|);
    assert d[|text| + 1..] == rest;
  }

  lemma {:induction false} HeaderParses(stamp: string, rest: string)
    requires forall i | 0 <= i < |stamp| :: stamp[i] != '\n'
    ensures Parse(HeaderText(stamp) + rest, None) == Parse(rest, None)
  {
    hide Parse;
    var second := " Auto-Generated on " + stamp;
    assert "# Saved Squash state\n" == "#" + " Saved Squash state" + "\n";
    assert "# Auto-Generated on " == "#" + " Auto-Generated on ";
    assert HeaderText(stamp) + rest == "#" + " Saved Squash state" + "\n" + ("#" + second + "\n" + ("\n" + rest));
    CommentParses(" Saved Squash state", "#" + second + "\n" + ("\n" + rest));
    CommentParses(second, "\n" + rest);
    TokenStarts("\n" + rest, None);
    assert ("\n" + rest)[1..] == rest;
  }

  lemma {:induction false} CallbackOne(r: Raw, e: Event, rest: seq<Event>)
    ensures CallbackAll(r, [e] + rest)
            == var next := Callback(r, e.key, e.value); if next.None? then None else CallbackAll(next.value, rest)
  {
    assert ([e] + rest)[1..] == rest;
  }

  /** One saved entry is collected as one song. */
  lemma {:induction false} EntryLoads(r: Raw, e: Entry, rest: string)
    requires Metadata.PrintableValue(e.path)
    ensures CallbackAll(r, Parse(EntryText(e) + rest, None)) ==
            CallbackAll(r.(songs := r.songs + [Written(e)], slot := Unset), Parse(rest, None))
  {
    hide Parse, Metadata.PrintLine, StatFile.NumberLine, Decimal, Atoi;
    var second := StatFile.NumberLine(POSITION, e.position) + rest;
    Metadata.Regroup(Metadata.PrintLine(FILENAME, Some(e.path)), StatFile.NumberLine(POSITION, e.position), rest);
    Metadata.LineParses(FILENAME, e.path, second, None);
    StatFile.NumberLineParses(POSITION, e.position, rest);
    var e1 := Event(None, FILENAME, Some(e.path));
    var e2 := Event(None, POSITION, Some(Decimal(e.position)));
    CallbackOne(r, e1, [e2] + Parse(rest, None));
    CallbackOne(r.(slot := Named(Some(e.path))), e2, Parse(rest, None));
  }

  /** A saved entry read back. */
  function Written(e: Entry): RawSong {
    RawSong(Named(Some(e.path)), e.position)
  }

  function AsRaw(es: seq<Entry>): (r: seq<RawSong>)
    ensures |r| == |es| && forall i | 0 <= i < |r| :: r[i] == Written(es[i])
  {
    if es == [] then [] else [Written(es[0])] + AsRaw(es[1..])
  }

  ghost predicate AllPrintable(es: seq<Entry>) {
    forall i | 0 <= i < |es| :: Metadata.PrintableValue(es[i].path)
  }

  lemma {:induction false} EntriesLoad(r: Raw, es: seq<Entry>, rest: string)
    requires AllPrintable(es) && r.slot.Unset?
    ensures CallbackAll(r, Parse(EntriesText(es) + rest, None)) ==
            CallbackAll(r.(songs := r.songs + AsRaw(es)), Parse(rest, None))
    decreases |es|
  {
    hide Parse, CallbackAll, Callback, EntryText, Metadata.PrintableValue;
    if es == [] {
      assert EntriesText(es) + rest == rest && r.songs + AsRaw(es) == r.songs;
    } else {
      var head, tail := EntryText(es[0]), EntriesText(es[1..]);
      var one := r.(songs := r.songs + [Written(es[0])]);
      SplitFirst(r.songs, es);
      hide AllPrintable, EntriesText, AsRaw;
      Metadata.Regroup(head, tail, rest);
      EntryLoads(r, es[0], tail + rest);
      EntriesLoad(one, es[1..], rest);
    }
  }

  lemma {:induction false} SplitFirst(songs: seq<RawSong>, es: seq<Entry>)
    requires es != []
    ensures EntriesText(es) == EntryText(es[0]) + EntriesText(es[1..])
    ensures songs + AsRaw(es) == (songs + [Written(es[0])]) + AsRaw(es[1..])
    ensures AllPrintable(es) ==> Metadata.PrintableValue(es[0].path) && AllPrintable(es[1..])
  {
    hide EntryText, Metadata.PrintableValue;
    var first := Written(es[0]);
    assert AsRaw(es) == [first] + AsRaw(es[1..]);
    if AllPrintable(es) {
      forall i | 0 <= i < |es[1..]| ensures Metadata.PrintableValue(es[1..][i].path) { assert es[1..][i] == es[i + 1]; }
    }
    hide EntriesText, AsRaw;
    OneMore(songs, first, AsRaw(es[1..]));
  }

  lemma OneMore<T>(a: seq<T>, x: T, b: seq<T>)
    ensures a + ([x] + b) == (a + [x]) + b
  {
  }

  lemma {:induction false} NumberLoads(r: Raw, key: string, n: int, rest: string)
    requires Metadata.PrintableKey(key)
    ensures exists e :: e == Event(None, key, Some(Decimal(n))) && StatFile.Number(e.value) == n
                        && CallbackAll(r, Parse(StatFile.NumberLine(key, n) + rest, None))
                           == var next := Callback(r, key, e.value);
                              if next.None? then None else CallbackAll(next.value, Parse(rest, None))
  {
    hide Parse;
    StatFile.NumberLineParses(key, n, rest);
    CallbackOne(r, Event(None, key, Some(Decimal(n))), Parse(rest, None));
  }

  lemma {:induction false} SettingsLoad(r: Raw, volume: Option<int>, low: int, high: int, brightness: int)
    ensures CallbackAll(r, Parse(SettingsText(volume, low, high, brightness), None)) ==
            Some(r.(volume := if volume.None? then r.volume else Clamp(volume.value, low, high),
                    brightness := brightness))
  {
    hide Parse, StatFile.NumberLine, StatFile.Number, Decimal;
    var last := StatFile.NumberLine(BRIGHTNESS, brightness);
    assert last + "" == last && "" + last == last;
    EmptyParses();
    NumberLoads(if volume.None? then r else r.(volume := Clamp(volume.value, low, high)), BRIGHTNESS, brightness, "");
    if volume.Some? {
      NumberLoads(r, VOLUME, Clamp(volume.value, low, high), last);
    }
  }

  lemma EmptyParses()
    ensures Parse("", None) == []
  {
  }

  function LoadRaw(text: string): Option<Raw> {
    CallbackAll(EMPTY, Parse(text, None))
  }

  /**
   Loading a saved state recovers the playlist, the clamped volume and the brightness, provided every
   path can be printed on a line.
   */
  lemma {:induction false} SaveThenLoad(stamp: string, entries: seq<Entry>, volume: Option<int>, low: int, high: int,
                                        brightness: int)
    requires (forall i | 0 <= i < |stamp| :: stamp[i] != '\n') && AllPrintable(entries)
    ensures LoadRaw(StateText(stamp, entries, volume, low, high, brightness)) ==
            Some(Raw(AsRaw(entries), Unset, 0, if volume.None? then 50 else Clamp(volume.value, low, high), brightness))
    ensures volume.Some? ==>
              var v := LoadRaw(StateText(stamp, entries, volume, low, high, brightness)).value.volume;
              && (volume.value > high ==> v == high) && (low <= volume.value <= high ==> v == volume.value)
              && (volume.value <= high && volume.value < low ==> v == low)
  {
    hide Parse, HeaderText, StatFile.NumberLine, EntriesText, SettingsText, StatFile.Number;
    var settings := SettingsText(volume, low, high, brightness);
    HeaderParses(stamp, StatFile.NumberLine(CURRENT, 0) + (EntriesText(entries) + settings));
    NumberLoads(EMPTY, CURRENT, 0, EntriesText(entries) + settings);
    EntriesLoad(EMPTY, entries, settings);
    assert [] + AsRaw(entries) == AsRaw(entries);
    SettingsLoad(EMPTY.(songs := AsRaw(entries)), volume, low, high, brightness);
  }

  /** What a file leaves out is: no entries, the first one current, volume 50 and brightness 100. */
  lemma EmptyFileLoads()
    ensures LoadRaw("").Some?
    ensures var r := LoadRaw("").value; r.songs == [] && r.current == 0 && r.volume == 50 && r.brightness == 100
  {
  }

  /** The file in its own words. */
  lemma StateInWords(stamp: string, entries: seq<Entry>, volume: int, brightness: int)
    ensures StateText(stamp, entries, Some(volume), volume, volume, brightness)
            == "# Saved Squash state\n" + ("# Auto-Generated on " + stamp + "\n\n")
               + (("current_entry=0" + "\n")
                  + (EntriesText(entries)
                     + (("volume=" + Decimal(volume) + "\n") + ("brightness=" + Decimal(brightness) + "\n"))))
  {
    hide EntriesText;
    StatFile.LineText("current_entry", 0);
    StatFile.LineText("volume", volume);
    StatFile.LineText("brightness", brightness);
    assert Decimal(0) == "0";
    assert "current_entry" + "=" + "0" == "current_entry=0";
    assert "volume" + "=" == "volume=" && "brightness" + "=" == "brightness=";
    hide StatFile.NumberLine, Decimal;
  }

  lemma {:induction false} EntryInWords(e: Entry)
    ensures EntriesText([e]) == "entry_filename=" + e.path + "\n" + ("entry_position=" + Decimal(e.position) + "\n")
  {
    hide Decimal;
    OneEntryText(e);
    StatFile.LineText("entry_position", e.position);
    assert "entry_filename" + "=" == "entry_filename=" && "entry_position" + "=" == "entry_position=";
    hide StatFile.NumberLine, EntriesText;
  }

  /** A filename that is there can be printed on a line. */
  ghost predicate NameOk(n: Name) {
    n.Named? && n.filename.Some? ==> Metadata.PrintableValue(n.filename.value)
  }

  ghost predicate NamesOk(raw: seq<RawSong>) {
    forall i | 0 <= i < |raw| :: NameOk(raw[i].name)
  }

  lemma {:induction false} LoadedNamesOk(r: Raw, events: seq<Event>)
    requires NameOk(r.slot) && NamesOk(r.songs)
    requires forall i | 0 <= i < |events| :: Metadata.ValueOk(events[i].value)
    ensures var t := CallbackAll(r, events); t.Some? ==> NamesOk(t.value.songs)
    decreases |events|
  {
    hide Metadata.PrintableValue, SameNoCase, Numeric;
    if events != [] {
      assert Metadata.ValueOk(events[0].value);
      var next := Callback(r, events[0].key, events[0].value);
      if next.Some? { LoadedNamesOk(next.value, events[1..]); }
    }
  }

  /** Whatever a file holds, every filename loaded from it can be printed on a line. */
  lemma {:induction false} LoadedIsPrintable(text: string)
    ensures LoadRaw(text).Some? ==> NamesOk(LoadRaw(text).value.songs)
  {
    hide Metadata.PrintableValue, Parse, CallbackAll;
    var events := Parse(text, None);
    forall i | 0 <= i < |events| ensures Metadata.ValueOk(events[i].value) {
      Metadata.ScannedIsPrintable(text, None, i);
    }
    LoadedNamesOk(EMPTY, events);
  }

  /** The playlist survives exactly when every path can be printed on a line. */
  lemma {:induction false} PlaylistSurvives(stamp: string, entries: seq<Entry>, volume: Option<int>, low: int,
                                            high: int, brightness: int)
    requires forall i | 0 <= i < |stamp| :: stamp[i] != '\n'
    ensures var loaded := LoadRaw(StateText(stamp, entries, volume, low, high, brightness));
            loaded.Some? && loaded.value.songs == AsRaw(entries) <==> AllPrintable(entries)
  {
    hide Metadata.PrintableValue, StateText, LoadRaw;
    var text := StateText(stamp, entries, volume, low, high, brightness);
    if AllPrintable(entries) {
      SaveThenLoad(stamp, entries, volume, low, high, brightness);
    }
    LoadedIsPrintable(text);
    var loaded := LoadRaw(text);
    if loaded.Some? && loaded.value.songs == AsRaw(entries) {
      forall i | 0 <= i < |entries| ensures Metadata.PrintableValue(entries[i].path) {
        assert loaded.value.songs[i] == Written(entries[i]);
      }
    }
  }

  // ---- Rebuilding the queue ----

  datatype SongFile = SongFile(base: string, file: string) {
    function Path(): string { base + "/" + file }
  }

  /** The comparison find_song_by_filename makes, file part first. */
  lemma PathIs(s: SongFile, name: string)
    ensures s.Path() == name <==>
            var n := |s.base|; n < |name| && s.file == name[n + 1..] && name[n] == '/' && s.base == name[..n]
  {
    var n := |s.base|;
    assert s.Path()[..n] == s.base && s.Path()[n] == '/' && s.Path()[n + 1..] == s.file;
    if n < |name| {
      assert name == name[..n] + [name[n]] + name[n + 1..];
    }
  }

  /** The file part is compared after a directory part as long as the song's: that can be past the path's end. */
  predicate ReadsPast(songs: seq<SongFile>, filename: Option<string>) {
    filename.Some? && exists i :: 0 <= i < Looked(songs, filename) && |songs[i].base| >= |filename.value|
  }

  /** How many songs are looked at. */
  function Looked(songs: seq<SongFile>, filename: Option<string>): nat {
    var r := FirstWithPath(songs, filename);
    if r.Some? then r.value + 1 else |songs|
  }

  /**
   The first song with the given full path; a missing filename finds nothing. `past` says whether the search
   read past the end of the path. Whatever it finds there, no song matches a path that short.
   */
  method FindSongByFilename(songs: seq<SongFile>, filename: Option<string>) returns (r: Option<nat>, past: bool)
    ensures r == FirstWithPath(songs, filename)
    ensures past == ReadsPast(songs, filename)
  {
    past := false;
    if filename.None? { return None, false; }
    var name := filename.value;
    var i := 0;
    while i < |songs|
      invariant 0 <= i <= |songs|
      invariant forall j | 0 <= j < i :: songs[j].Path() != name
      invariant past <==> exists j :: 0 <= j < i && |songs[j].base| >= |name|
    {
      var length := |songs[i].base|;
      PathIs(songs[i], name);
      if length >= |name| {
        past := true;
      } else if songs[i].file == name[length + 1..] {
        if name[length] == '/' && songs[i].base == name[..length] {
          FirstIs(songs, name, i);
          return Some(i), past;
        }
      }
      i := i + 1;
    }
    NoneIs(songs, name);
    return None, past;
  }

  function FirstWithPath(songs: seq<SongFile>, filename: Option<string>): (r: Option<nat>)
    ensures r.Some? ==> r.value < |songs| && filename == Some(songs[r.value].Path())
    ensures r.None? && filename.Some? ==> forall i | 0 <= i < |songs| :: songs[i].Path() != filename.value
  {
    if filename.None? || songs == [] then None
    else if songs[0].Path() == filename.value then Some(0)
    else
      var rest := FirstWithPath(songs[1..], filename);
      assert forall i | 1 <= i < |songs| :: songs[i] == songs[1..][i - 1];
      if rest.None? then None else Some(rest.value + 1)
  }

  lemma {:induction false} FirstIs(songs: seq<SongFile>, name: string, i: nat)
    requires i < |songs| && songs[i].Path() == name && forall j | 0 <= j < i :: songs[j].Path() != name
    ensures FirstWithPath(songs, Some(name)) == Some(i)
    decreases i
  {
    if i > 0 {
      FirstIs(songs[1..], name, i - 1);
    }
  }

  lemma {:induction false} NoneIs(songs: seq<SongFile>, name: string)
    requires forall j | 0 <= j < |songs| :: songs[j].Path() != name
    ensures FirstWithPath(songs, Some(name)) == None
  {
  }

  /** A queued song: its place in the database and its start position. */
  datatype Queued = Queued(song: nat, position: int)

  function Rebuilt(songs: seq<SongFile>, raw: seq<RawSong>): seq<Queued>
    requires AllNamed(raw)
  {
    if raw == [] then []
    else
      var found := FirstWithPath(songs, raw[0].name.filename);
      (if found.Some? then [Queued(found.value, raw[0].position)] else []) + Rebuilt(songs, raw[1..])
  }

  /**
   load_state's loop, from the file's current_entry on: entries whose song is gone are dropped, the rest
   queued in order. A cursor before the first entry, or a name never set, sends the search through memory
   that holds no path.
   */
  method RebuildQueue(songs: seq<SongFile>, raw: seq<RawSong>, start: int)
    returns (queue: seq<Queued>, stray: bool, past: bool)
    ensures stray <==> !Usable(raw, start)
    ensures !stray ==> queue == Rebuilt(songs, NotLoaded(raw, start))
    ensures !stray ==> (past <==> SearchesPast(songs, NotLoaded(raw, start)))
  {
    hide ReadsPast, FirstWithPath;
    var current := start;
    queue, past := [], false;
    if start < 0 && start < |raw| { return queue, true, past; }
    NothingWaits(raw, start);
    while current < |raw|
      invariant start <= current && (current <= |raw| || current == start)
      invariant AllNamed(Between(raw, start, current))
      invariant queue == Rebuilt(songs, Between(raw, start, current))
      invariant past <==> SearchesPast(songs, Between(raw, start, current))
    {
      if raw[current].name.Unset? {
        assert raw[start..][current - start] == raw[current];
        return queue, true, past;
      }
      OneMoreRebuilt(songs, raw, start, current);
      var song, over := FindSongByFilename(songs, raw[current].name.filename);
      past := past || over;
      if song.Some? {
        queue := queue + [Queued(song.value, raw[current].position)];
      }
      current := current + 1;
    }
    if start < |raw| { assert raw[start..current] == raw[start..]; }
    return queue, false, past;
  }

  /** Some of these entries makes the search read past the end of its path. */
  ghost predicate SearchesPast(songs: seq<SongFile>, raw: seq<RawSong>)
    requires AllNamed(raw)
  {
    exists k :: 0 <= k < |raw| && ReadsPast(songs, raw[k].name.filename)
  }

  lemma {:induction false} OneMoreRebuilt(songs: seq<SongFile>, raw: seq<RawSong>, from: int, k: int)
    requires 0 <= from <= k < |raw| && AllNamed(Between(raw, from, k)) && raw[k].name.Named?
    ensures AllNamed(Between(raw, from, k + 1))
    ensures var found := FirstWithPath(songs, raw[k].name.filename);
            Rebuilt(songs, Between(raw, from, k + 1))
            == Rebuilt(songs, Between(raw, from, k))
               + if found.Some? then [Queued(found.value, raw[k].position)] else []
    ensures SearchesPast(songs, Between(raw, from, k + 1))
            <==> SearchesPast(songs, Between(raw, from, k)) || ReadsPast(songs, raw[k].name.filename)
  {
    hide FirstWithPath, ReadsPast;
    var done, one := raw[from..k], [raw[k]];
    assert raw[from..k + 1] == done + one;
    RebuiltAppend(songs, done, one);
    assert one[1..] == [] && Rebuilt(songs, []) == [];
    forall i | 0 <= i < |done| ensures (done + one)[i] == done[i] {}
    assert (done + one)[|done|] == raw[k];
  }

  /** The entry a queued song stands for. */
  function EntryOf(songs: seq<SongFile>, q: Queued): Entry
    requires q.song < |songs|
  {
    Entry(songs[q.song].Path(), q.position)
  }

  ghost predicate PathsDistinct(songs: seq<SongFile>) {
    forall i, j | 0 <= i < j < |songs| :: songs[i].Path() != songs[j].Path()
  }

  /** Looking a song up by its own path finds that song. */
  lemma {:induction false} LookupOwnPath(songs: seq<SongFile>, i: nat)
    requires i < |songs| && PathsDistinct(songs)
    ensures FirstWithPath(songs, Some(songs[i].Path())) == Some(i)
  {
    FirstIs(songs, songs[i].Path(), i);
  }

  ghost function EntriesOf(songs: seq<SongFile>, queue: seq<Queued>): (r: seq<Entry>)
    requires forall i | 0 <= i < |queue| :: queue[i].song < |songs|
    ensures |r| == |queue| && forall i | 0 <= i < |r| :: r[i] == EntryOf(songs, queue[i])
  {
    if queue == [] then [] else [EntryOf(songs, queue[0])] + EntriesOf(songs, queue[1..])
  }

  lemma {:induction false} RebuiltIsQueue(songs: seq<SongFile>, queue: seq<Queued>)
    requires PathsDistinct(songs) && forall i | 0 <= i < |queue| :: queue[i].song < |songs|
    ensures AllNamed(AsRaw(EntriesOf(songs, queue))) && Rebuilt(songs, AsRaw(EntriesOf(songs, queue))) == queue
    decreases |queue|
  {
    if queue != [] {
      LookupOwnPath(songs, queue[0].song);
      RebuiltIsQueue(songs, queue[1..]);
      var es := EntriesOf(songs, queue);
      assert es[1..] == EntriesOf(songs, queue[1..]);
      assert AsRaw(es)[1..] == AsRaw(es[1..]);
    }
  }

  lemma {:induction false} RebuiltAppend(songs: seq<SongFile>, a: seq<RawSong>, b: seq<RawSong>)
    requires AllNamed(a) && AllNamed(b)
    ensures AllNamed(a + b) && Rebuilt(songs, a + b) == Rebuilt(songs, a) + Rebuilt(songs, b)
    decreases |a|
  {
    hide FirstWithPath;
    if a == [] {
      assert a + b == b;
    } else {
      assert (a + b)[1..] == a[1..] + b && (a + b)[0] == a[0];
      RebuiltAppend(songs, a[1..], b);
      RebuiltFirst(songs, a);
      RebuiltFirst(songs, a + b);
      hide Rebuilt;
    }
  }

  lemma {:induction false} RebuiltFirst(songs: seq<SongFile>, a: seq<RawSong>)
    requires a != [] && AllNamed(a)
    ensures AllNamed([a[0]]) && AllNamed(a[1..])
    ensures Rebuilt(songs, a) == Rebuilt(songs, [a[0]]) + Rebuilt(songs, a[1..])
  {
    hide FirstWithPath;
    assert [a[0]][1..] == [];
    assert Rebuilt(songs, []) == [];
  }

  lemma AsRawAppend(a: seq<Entry>, b: seq<Entry>)
    ensures AsRaw(a + b) == AsRaw(a) + AsRaw(b)
  {
  }

  /** Printing a missing filename as "(null)" loses nothing: neither names a song. */
  lemma {:induction false} PrintedRebuilds(songs: seq<SongFile>, raw: seq<RawSong>)
    requires AllNamed(raw)
    ensures AllNamed(AsRaw(Printed(raw))) && Rebuilt(songs, AsRaw(Printed(raw))) == Rebuilt(songs, raw)
    decreases |raw|
  {
    hide FirstWithPath;
    if raw != [] {
      PrintedRebuilds(songs, raw[1..]);
      var again := AsRaw(Printed(raw));
      assert again[1..] == AsRaw(Printed(raw[1..])) && again[0] == Written(AsEntry(raw[0]));
      NullNamesNoSong(songs);
    }
  }

  lemma {:induction false} NullNamesNoSong(songs: seq<SongFile>)
    ensures FirstWithPath(songs, Some("(null)")) == FirstWithPath(songs, None) == None
  {
    forall j | 0 <= j < |songs| ensures songs[j].Path() != "(null)" {
      assert songs[j].Path()[|songs[j].base|] == '/';
    }
    NoneIs(songs, "(null)");
  }

  lemma PrintedIsPrintable(raw: seq<RawSong>)
    requires AllNamed(raw) && NamesOk(raw)
    ensures AllPrintable(Printed(raw))
  {
    hide Metadata.PrintableValue;
    Metadata.NullIsPrintable();
    forall i | 0 <= i < |raw| ensures Metadata.PrintableValue(Printed(raw)[i].path) {
      assert NameOk(raw[i].name);
    }
  }

  /** What is playing, then the queue. */
  function NowAndNext(playing: Option<Queued>, queue: seq<Queued>): seq<Queued> {
    (if playing.Some? then [playing.value] else []) + queue
  }

  ghost function PlayingEntry(songs: seq<SongFile>, playing: Option<Queued>): Option<Entry>
    requires playing.Some? ==> playing.value.song < |songs|
  {
    if playing.Some? then Some(EntryOf(songs, playing.value)) else None
  }

  /** What save_state lists is the entries of what is playing and queued, then what the last file still holds. */
  lemma PlaylistIs(songs: seq<SongFile>, playing: Option<Queued>, queue: seq<Queued>, raw: seq<RawSong>, current: int)
    requires (playing.Some? ==> playing.value.song < |songs|) && forall i | 0 <= i < |queue| :: queue[i].song < |songs|
    requires Usable(raw, current)
    ensures Playlist(PlayingEntry(songs, playing), EntriesOf(songs, queue), raw, current)
            == EntriesOf(songs, NowAndNext(playing, queue)) + Printed(NotLoaded(raw, current))
  {
    var entries := EntriesOf(songs, NowAndNext(playing, queue));
    assert entries == (if playing.Some? then [EntryOf(songs, playing.value)] else []) + EntriesOf(songs, queue);
  }

  /**
   The state round trip. What save_state writes is loaded and rebuilt as the playing song, the queue, and
   whatever the entries still waiting in the last file would have come to, in order: with distinct, printable
   song paths nothing that was playing or queued is lost or moved.
   */
  lemma {:induction false} StateRoundTrip(stamp: string, songs: seq<SongFile>, playing: Option<Queued>,
                                          queue: seq<Queued>, raw: seq<RawSong>, current: int,
                                          volume: Option<int>, low: int, high: int, brightness: int)
    requires forall i | 0 <= i < |stamp| :: stamp[i] != '\n'
    requires PathsDistinct(songs) && Usable(raw, current) && NamesOk(NotLoaded(raw, current))
    requires forall i | 0 <= i < |songs| :: Metadata.PrintableValue(songs[i].Path())
    requires (playing.Some? ==> playing.value.song < |songs|) && forall i | 0 <= i < |queue| :: queue[i].song < |songs|
    ensures var entries := Playlist(PlayingEntry(songs, playing), EntriesOf(songs, queue), raw, current);
            var loaded := LoadRaw(StateText(stamp, entries, volume, low, high, brightness));
            && loaded.Some? && loaded.value.current == 0 && Usable(loaded.value.songs, 0)
            && Rebuilt(songs, NotLoaded(loaded.value.songs, 0))
               == NowAndNext(playing, queue) + Rebuilt(songs, NotLoaded(raw, current))
  {
    hide Metadata.PrintableValue, StateText, LoadRaw, Rebuilt, Printed;
    var all, rest := NowAndNext(playing, queue), NotLoaded(raw, current);
    var entries := EntriesOf(songs, all);
    PrintedIsPrintable(rest);
    QueueIsPrintable(songs, all, Printed(rest));
    PlaylistIs(songs, playing, queue, raw, current);
    SaveThenLoad(stamp, entries + Printed(rest), volume, low, high, brightness);
    AsRawIsNamed(entries);
    RebuiltIsQueue(songs, all);
    AsRawAppend(entries, Printed(rest));
    PrintedRebuilds(songs, rest);
    RebuiltAppend(songs, AsRaw(entries), AsRaw(Printed(rest)));
    WholeIsWaiting(AsRaw(entries + Printed(rest)));
  }

  lemma QueueIsPrintable(songs: seq<SongFile>, queue: seq<Queued>, rest: seq<Entry>)
    requires forall i | 0 <= i < |songs| :: Metadata.PrintableValue(songs[i].Path())
    requires (forall i | 0 <= i < |queue| :: queue[i].song < |songs|) && AllPrintable(rest)
    ensures AllPrintable(EntriesOf(songs, queue) + rest)
  {
    hide Metadata.PrintableValue;
  }

  lemma AsRawIsNamed(es: seq<Entry>)
    ensures AllNamed(AsRaw(es))
  {
  }

  lemma WholeIsWaiting(raw: seq<RawSong>)
    requires AllNamed(raw)
    ensures Usable(raw, 0) && NotLoaded(raw, 0) == raw
  {
    assert raw[0..] == raw;
  }
}
