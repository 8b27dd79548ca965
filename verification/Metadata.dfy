/**
 A song's metadata: inserting scanned pairs, printing them back, and the two round trips between the
 song and its .info file.
 */
module Metadata {
  import opened Common
  import opened Text
  import opened Scanner

  /** A key with its values in file order; a value may be missing. */
  datatype MetaKey = MetaKey(key: string, values: seq<Option<string>>)

  /** The index of the first key equal up to case, or the number of keys. */
  function FindKey(keys: seq<MetaKey>, key: string): (i: nat)
    ensures i <= |keys|
    ensures forall j | 0 <= j < i :: !SameNoCase(key, keys[j].key)
    ensures i < |keys| ==> SameNoCase(key, keys[i].key)
  {
    if keys == [] || SameNoCase(key, keys[0].key) then 0 else 1 + FindKey(keys[1..], key)
  }

  function Inserted(keys: seq<MetaKey>, key: string, value: Option<string>): seq<MetaKey> {
    var i := FindKey(keys, key);
    if i == |keys| then keys + [MetaKey(key, [value])]
    else keys[i := keys[i].(values := keys[i].values + [value])]
  }

  function InsertAll(keys: seq<MetaKey>, events: seq<Event>): seq<MetaKey>
    decreases |events|
  {
    if events == [] then keys
    else InsertAll(Inserted(keys, events[0].key, events[0].value), events[1..])
  }

  /** The metadata of a song read from file contents. */
  function Load(data: string): seq<MetaKey> {
    InsertAll([], Parse(data, None))
  }

  /** printf's rendering of a possibly missing string. */
  function TextOf(v: Option<string>): string {
    if v.None? then "(null)" else v.value
  }

  function PrintLine(key: string, v: Option<string>): string {
    key + "=" + TextOf(v) + "\n"
  }

  function PrintValues(key: string, values: seq<Option<string>>): string {
    if values == [] then "" else PrintLine(key, values[0]) + PrintValues(key, values[1..])
  }

  function PrintKeys(keys: seq<MetaKey>): string {
    if keys == [] then "" else PrintValues(keys[0].key, keys[0].values) + PrintKeys(keys[1..])
  }

  function Print(keys: seq<MetaKey>): string {
    PrintKeys(keys) + "\n"
  }

  // ---- The program's own loops ----

  class Song {
    var metaKeys: seq<MetaKey>

    constructor ()
      ensures metaKeys == []
    {
      metaKeys := [];
    }

    method InsertMetaData(key: string, value: Option<string>)
      modifies this
      ensures metaKeys == Inserted(old(metaKeys), key, value)
    {
      var i := 0;
      while i < |metaKeys| && !SameNoCase(key, metaKeys[i].key)
        invariant 0 <= i <= |metaKeys| && metaKeys == old(metaKeys)
        invariant forall j | 0 <= j < i :: !SameNoCase(key, metaKeys[j].key)
      {
        i := i + 1;
      }
      if i == |metaKeys| {
        metaKeys := metaKeys + [MetaKey(key, [])];
        assert [] + [value] == [value];
      } else {
        FindKeyIs(metaKeys, key, i);
      }
      metaKeys := metaKeys[i := metaKeys[i].(values := metaKeys[i].values + [value])];
    }

    method LoadMetaData(data: string)
      modifies this
      ensures metaKeys == InsertAll(old(metaKeys), Parse(data, None))
    {
      var events := ParseFile(data);
      var i := 0;
      while i < |events|
        invariant 0 <= i <= |events|
        invariant InsertAll(metaKeys, events[i..]) == InsertAll(old(metaKeys), events)
      {
        assert events[i..][1..] == events[i + 1..];
        InsertMetaData(events[i].key, events[i].value);
        i := i + 1;
      }
    }

    method SaveMetaData() returns (out: string)
      ensures out == Print(metaKeys)
    {
      hide PrintValues;
      out := "";
      var i := 0;
      assert metaKeys[0..] == metaKeys;
      while i < |metaKeys|
        invariant 0 <= i <= |metaKeys|
        invariant out + PrintKeys(metaKeys[i..]) == PrintKeys(metaKeys)
      {
        assert metaKeys[i..][1..] == metaKeys[i + 1..];
        Regroup(out, PrintValues(metaKeys[i].key, metaKeys[i].values), PrintKeys(metaKeys[i + 1..]));
        out := SaveValues(out, metaKeys[i].key, metaKeys[i].values);
        i := i + 1;
      }
      assert out == PrintKeys(metaKeys);
      out := out + "\n";
    }
  }

  lemma Regroup(a: string, b: string, c: string)
    ensures (a + b) + c == a + (b + c)
  {
  }

  /** The inner loop of the save: one line a value. */
  method SaveValues(before: string, key: string, values: seq<Option<string>>) returns (out: string)
    ensures out == before + PrintValues(key, values)
  {
    hide PrintLine;
    out := before;
    var j := 0;
    assert values[0..] == values;
    while j < |values|
      invariant 0 <= j <= |values|
      invariant out + PrintValues(key, values[j..]) == before + PrintValues(key, values)
    {
      assert values[j..][1..] == values[j + 1..];
      Regroup(out, PrintLine(key, values[j]), PrintValues(key, values[j + 1..]));
      out := out + PrintLine(key, values[j]);
      j := j + 1;
    }
  }

  // ---- What can be printed and read back ----

  /** '=' is allowed in a key only as its first character. */
  ghost predicate PrintableKey(k: string) {
    && k != "" && !IsBlank(k[0]) && !IsEol(k[0]) && k[0] != '#' && k[0] != '['
    && (forall j | 0 < j < |k| :: k[j] !in KEY_STOPS)
    && !IsBlank(k[|k| - 1])
  }

  ghost predicate PrintableValue(v: string) {
    v != "" && !IsBlank(v[0]) && !IsBlank(v[|v| - 1]) && forall j | 0 <= j < |v| :: v[j] !in EOLS
  }

  /** A value that is missing, or can be printed. */
  ghost predicate ValueOk(v: Option<string>) {
    v.Some? ==> PrintableValue(v.value)
  }

  ghost predicate EventOk(e: Event) {
    PrintableKey(e.key) && ValueOk(e.value)
  }

  ghost predicate MetaOk(m: MetaKey) {
    PrintableKey(m.key) && m.values != [] && forall j | 0 <= j < |m.values| :: ValueOk(m.values[j])
  }

  /** Printable keys, no two equal up to case, each with at least one value. */
  ghost predicate Printable(keys: seq<MetaKey>) {
    && (forall i | 0 <= i < |keys| :: MetaOk(keys[i]))
    && forall i, j | 0 <= i < j < |keys| :: !SameNoCase(keys[i].key, keys[j].key)
  }

  ghost predicate NoneMissing(values: seq<Option<string>>) {
    forall j | 0 <= j < |values| :: values[j].Some?
  }

  /** No value is missing. */
  ghost predicate Complete(keys: seq<MetaKey>) {
    forall i | 0 <= i < |keys| :: NoneMissing(keys[i].values)
  }

  lemma {:induction false} KeyPartParses(key: string, v: string, header: Option<string>)
    requires PrintableKey(key)
    ensures Parse(key + "=" + v, header) == ParseValue(v, header, key)
  {
    hide Parse, ParseValue;
    var d := key + "=" + v;
    assert d[..|key|] == key && d[|key| + 1..] == v;
    KeyLine(d, |key|, header);
    TrimRightIs(key, |key|);
  }

  lemma {:induction false} ValuePartParses(value: string, rest: string, header: Option<string>, key: string)
    requires PrintableValue(value)
    ensures ParseValue(value + "\n" + rest, header, key) == [Event(header, key, Some(value))] + Parse(rest, header)
  {
    hide Parse, ParseValue;
    var v := value + "\n" + rest;
    assert v[..|value|] == value && v[|value| + 1..] == rest;
    ValueLine(v, |value|, header, key);
    TrimRightIs(value, |value|);
  }

  /** One printed line scans back as one event. */
  lemma {:induction false} LineParses(key: string, value: string, rest: string, header: Option<string>)
    requires PrintableKey(key) && PrintableValue(value)
    ensures Parse(PrintLine(key, Some(value)) + rest, header) == [Event(header, key, Some(value))] + Parse(rest, header)
  {
    hide Parse, ParseValue, PrintableKey, PrintableValue;
    var v := value + "\n" + rest;
    assert PrintLine(key, Some(value)) + rest == key + "=" + v;
    KeyPartParses(key, v, header);
    ValuePartParses(value, rest, header, key);
  }

  /** A key with nothing after it scans back as one event without a value. */
  lemma {:induction false} EmptyLineParses(key: string, rest: string, header: Option<string>)
    requires PrintableKey(key)
    ensures Parse(key + "=" + "\n" + rest, header) == [Event(header, key, None)] + Parse(rest, header)
  {
    hide Parse, ParseValue, PrintableKey;
    var v := "\n" + rest;
    assert key + "=" + "\n" + rest == key + "=" + v;
    KeyPartParses(key, v, header);
    NoValueParses(rest, header, key);
  }

  lemma {:induction false} EolStops(rest: string)
    ensures SkipBlanks("\n" + rest) == "\n" + rest && Until("\n" + rest, EOLS) == 0
  {
    assert ("\n" + rest)[0] == '\n';
  }

  lemma {:induction false} NoValueParses(rest: string, header: Option<string>, key: string)
    ensures ParseValue("\n" + rest, header, key) == [Event(header, key, None)] + Parse(rest, header)
  {
    hide Parse, TrimRight, SkipBlanks, Until;
    var v := "\n" + rest;
    EolStops(rest);
    assert v[1..] == rest;
  }

  ghost function EventsOf(key: string, values: seq<Option<string>>): seq<Event> {
    if values == [] then [] else [Event(None, key, values[0])] + EventsOf(key, values[1..])
  }

  ghost function AllEvents(keys: seq<MetaKey>): seq<Event> {
    if keys == [] then [] else EventsOf(keys[0].key, keys[0].values) + AllEvents(keys[1..])
  }

  lemma {:induction false} ValuesParse(key: string, values: seq<Option<string>>, rest: string)
    requires PrintableKey(key)
    requires NoneMissing(values) && forall j | 0 <= j < |values| :: ValueOk(values[j])
    ensures Parse(PrintValues(key, values) + rest, None) == EventsOf(key, values) + Parse(rest, None)
  {
    hide Parse, PrintableKey, PrintableValue, PrintLine;
    if values == [] {
      assert "" + rest == rest;
    } else {
      var tail := PrintValues(key, values[1..]) + rest;
      assert PrintValues(key, values) + rest == PrintLine(key, values[0]) + tail;
      LineParses(key, values[0].value, tail, None);
      ValuesParse(key, values[1..], rest);
    }
  }

  lemma {:induction false} KeysParse(keys: seq<MetaKey>, rest: string)
    requires Complete(keys) && forall i | 0 <= i < |keys| :: MetaOk(keys[i])
    ensures Parse(PrintKeys(keys) + rest, None) == AllEvents(keys) + Parse(rest, None)
  {
    hide Parse, PrintableKey, PrintableValue;
    if keys == [] {
      assert "" + rest == rest;
    } else {
      var tail := PrintKeys(keys[1..]) + rest;
      assert PrintKeys(keys) + rest == PrintValues(keys[0].key, keys[0].values) + tail;
      ValuesParse(keys[0].key, keys[0].values, tail);
      KeysParse(keys[1..], rest);
    }
  }

  lemma {:induction false} FindKeyIs(keys: seq<MetaKey>, key: string, i: nat)
    requires i < |keys| && SameNoCase(key, keys[i].key)
    requires forall j | 0 <= j < i :: !SameNoCase(key, keys[j].key)
    ensures FindKey(keys, key) == i
  {
  }

  lemma {:induction false} InsertAllAppend(keys: seq<MetaKey>, a: seq<Event>, b: seq<Event>)
    ensures InsertAll(keys, a + b) == InsertAll(InsertAll(keys, a), b)
    decreases |a|
  {
    if a == [] {
      assert a + b == b;
    } else {
      assert (a + b)[1..] == a[1..] + b;
      InsertAllAppend(Inserted(keys, a[0].key, a[0].value), a[1..], b);
    }
  }

  lemma InsertIntoLast(keys: seq<MetaKey>, key: string, done: seq<Option<string>>, value: Option<string>)
    requires forall j | 0 <= j < |keys| :: !SameNoCase(key, keys[j].key)
    ensures Inserted(keys, key, value) == keys + [MetaKey(key, [value])]
    ensures Inserted(keys + [MetaKey(key, done)], key, value) == keys + [MetaKey(key, done + [value])]
  {
    FindKeyIs(keys + [MetaKey(key, done)], key, |keys|);
  }

  /** The values after the one that opened a key collect under it. */
  lemma {:induction false} ValuesCollect(keys: seq<MetaKey>, key: string, done: seq<Option<string>>,
                                         values: seq<Option<string>>)
    requires forall j | 0 <= j < |keys| :: !SameNoCase(key, keys[j].key)
    ensures InsertAll(keys + [MetaKey(key, done)], EventsOf(key, values)) == keys + [MetaKey(key, done + values)]
    decreases |values|
  {
    hide Inserted, SameNoCase;
    if values == [] {
      assert done + values == done;
    } else {
      InsertIntoLast(keys, key, done, values[0]);
      ValuesCollect(keys, key, done + [values[0]], values[1..]);
      assert done + [values[0]] + values[1..] == done + values;
    }
  }

  lemma {:induction false} KeyCollects(keys: seq<MetaKey>, m: MetaKey)
    requires forall j | 0 <= j < |keys| :: !SameNoCase(m.key, keys[j].key)
    requires m.values != []
    ensures InsertAll(keys, EventsOf(m.key, m.values)) == keys + [m]
  {
    var first, rest := m.values[0], m.values[1..];
    assert EventsOf(m.key, m.values) == [Event(None, m.key, first)] + EventsOf(m.key, rest);
    assert m.values == [first] + rest;
    hide Inserted, SameNoCase, EventsOf;
    InsertIntoLast(keys, m.key, [], first);
    ValuesCollect(keys, m.key, [first], rest);
    InsertAllFirst(keys, Event(None, m.key, first), EventsOf(m.key, rest));
    hide InsertAll;
  }

  lemma {:induction false} InsertAllFirst(keys: seq<MetaKey>, e: Event, events: seq<Event>)
    ensures InsertAll(keys, [e] + events) == InsertAll(Inserted(keys, e.key, e.value), events)
  {
    hide Inserted;
    assert ([e] + events)[1..] == events;
  }

  lemma SameNoCaseSymmetric(s: string, t: string)
    ensures SameNoCase(s, t) == SameNoCase(t, s)
  {
  }

  /** The key after a printable front is new there. */
  lemma NextKeyIsNew(front: seq<MetaKey>, keys: seq<MetaKey>)
    requires Printable(front + keys) && keys != []
    ensures MetaOk(keys[0]) && forall j | 0 <= j < |front| :: !SameNoCase(keys[0].key, front[j].key)
  {
    var all, k := front + keys, keys[0];
    assert all[|front|] == k;
    hide MetaOk, SameNoCase;
    forall j | 0 <= j < |front| ensures !SameNoCase(k.key, front[j].key) {
      assert all[j] == front[j];
      SameNoCaseSymmetric(k.key, front[j].key);
    }
  }

  lemma {:induction false} EventsRebuild(front: seq<MetaKey>, keys: seq<MetaKey>)
    requires Printable(front + keys)
    ensures InsertAll(front, AllEvents(keys)) == front + keys
    decreases |keys|
  {
    if keys == [] {
      assert front + keys == front;
    } else {
      var k, rest := keys[0], keys[1..];
      NextKeyIsNew(front, keys);
      assert front + keys == (front + [k]) + rest;
      hide Printable, SameNoCase, InsertAll;
      KeyCollects(front, k);
      InsertAllAppend(front, EventsOf(k.key, k.values), AllEvents(rest));
      EventsRebuild(front + [k], rest);
    }
  }

  /** Printing a song and reading the file back rebuilds the same keys, values and order. */
  lemma PrintThenLoad(keys: seq<MetaKey>)
    requires Printable(keys) && Complete(keys)
    ensures Load(Print(keys)) == keys
  {
    KeysParse(keys, "\n");
    assert Parse("\n", None) == [] by { assert "\n"[1..] == ""; }
    assert AllEvents(keys) + [] == AllEvents(keys);
    assert [] + keys == keys;
    EventsRebuild([], keys);
  }

  // ---- Whatever the scanner reads can be printed ----

  lemma {:induction false} TrimmedIsTight(s: string)
    requires s != "" && !IsBlank(s[0])
    ensures TrimRight(s) != "" && TrimRight(s)[0] == s[0]
  {
  }

  lemma {:induction false} ScannedIsPrintable(d: string, header: Option<string>, i: nat)
    requires i < |Parse(d, header)|
    ensures PrintableKey(Parse(d, header)[i].key)
    ensures var v := Parse(d, header)[i].value; v.Some? ==> PrintableValue(v.value)
    decreases |d|, 1
  {
    if d[0] == '#' {
      CommentIsPrintable(d[1..], header, i);
    } else if IsBlank(d[0]) || IsEol(d[0]) {
      ScannedIsPrintable(d[1..], header, i);
    } else if d[0] == '[' {
      var k := 1 + Until(d[1..], HEADER_STOPS);
      if d[k] == ']' {
        ScannedIsPrintable(d[k + 1..], HeaderText(d[1..k]), i);
      } else {
        ScannedIsPrintable(d[k + 1..], header, i);
      }
    } else {
      var k := 1 + Until(d[1..], KEY_STOPS);
      if d[k] == '=' {
        KeyIsPrintable(d, k);
        ValueIsPrintable(d[k + 1..], header, TrimRight(d[..k]), i);
      } else {
        ScannedIsPrintable(d[k + 1..], header, i);
      }
    }
  }

  lemma KeyIsPrintable(d: string, k: nat)
    requires 0 < k <= |d| && !IsBlank(d[0]) && !IsEol(d[0]) && d[0] != '#' && d[0] != '['
    requires forall j | 0 < j < k :: d[j] !in KEY_STOPS
    ensures PrintableKey(TrimRight(d[..k]))
  {
    TrimmedIsTight(d[..k]);
  }

  lemma {:induction false} CommentIsPrintable(d: string, header: Option<string>, i: nat)
    requires i < |AfterComment(d, header)|
    ensures PrintableKey(AfterComment(d, header)[i].key)
    ensures var v := AfterComment(d, header)[i].value; v.Some? ==> PrintableValue(v.value)
    decreases |d|, 2
  {
    var k := Until(d, {'\n'});
    ScannedIsPrintable(d[k + 1..], header, i);
  }

  lemma {:induction false} ValueIsPrintable(d: string, header: Option<string>, key: string, i: nat)
    requires PrintableKey(key) && i < |ParseValue(d, header, key)|
    ensures PrintableKey(ParseValue(d, header, key)[i].key)
    ensures var v := ParseValue(d, header, key)[i].value; v.Some? ==> PrintableValue(v.value)
    decreases |d|, 2
  {
    hide Parse, ParseValue, PrintableKey, PrintableValue;
    var first, rest := ValueSplits(d, header, key);
    if i > 0 { ScannedIsPrintable(rest, header, i - 1); }
  }

  /** A value is one event, printable if it is there, and then the lines that follow. */
  lemma {:induction false} ValueSplits(d: string, header: Option<string>, key: string)
    returns (first: Event, rest: string)
    ensures |rest| <= |d| && first.key == key && (first.value.Some? ==> PrintableValue(first.value.value))
    ensures ParseValue(d, header, key) == [first] + Parse(rest, header)
  {
    hide Parse, PrintableValue;
    var v := SkipBlanks(d);
    var k := Until(v, EOLS);
    ValueTextIsPrintable(v, k);
    first := Event(header, key, if k == 0 then None else Some(TrimRight(v[..k])));
    rest := if k == |v| then "" else v[k + 1..];
    NothingParses(header);
  }

  lemma {:induction false} NothingParses(header: Option<string>)
    ensures Parse("", header) == []
  {
  }

  lemma ValueTextIsPrintable(v: string, k: nat)
    requires k <= |v| && (v == "" || !IsBlank(v[0])) && forall j | 0 <= j < k :: v[j] !in EOLS
    ensures k > 0 ==> PrintableValue(TrimRight(v[..k]))
  {
    if k > 0 { TrimmedIsTight(v[..k]); }
  }

  lemma InsertKeepsPrintable(keys: seq<MetaKey>, e: Event)
    requires Printable(keys) && EventOk(e)
    ensures Printable(Inserted(keys, e.key, e.value))
    ensures Complete(Inserted(keys, e.key, e.value)) <==> Complete(keys) && e.value.Some?
  {
    var i := FindKey(keys, e.key);
    var out := Inserted(keys, e.key, e.value);
    hide PrintableKey, PrintableValue, SameNoCase;
    forall j | 0 <= j < |keys| ensures SameNoCase(e.key, keys[j].key) == SameNoCase(keys[j].key, e.key) {
      SameNoCaseSymmetric(e.key, keys[j].key);
    }
    if i < |keys| {
      assert MetaOk(keys[i]);
      assert MetaOk(out[i]);
    } else {
      assert out == keys + [MetaKey(e.key, [e.value])];
    }
    InsertComplete(keys, e);
  }

  lemma NoneMissingAppend(values: seq<Option<string>>, v: Option<string>)
    ensures NoneMissing(values + [v]) <==> NoneMissing(values) && v.Some?
  {
    if NoneMissing(values + [v]) {
      forall j | 0 <= j < |values| ensures values[j].Some? { assert (values + [v])[j] == values[j]; }
      assert (values + [v])[|values|] == v;
    }
  }

  lemma InsertComplete(keys: seq<MetaKey>, e: Event)
    ensures Complete(Inserted(keys, e.key, e.value)) <==> Complete(keys) && e.value.Some?
  {
    var i := FindKey(keys, e.key);
    var out := Inserted(keys, e.key, e.value);
    hide SameNoCase, NoneMissing;
    if i < |keys| {
      NoneMissingAppend(keys[i].values, e.value);
      assert forall j | 0 <= j < |keys| && j != i :: out[j] == keys[j];
      assert NoneMissing(out[i].values) <==> NoneMissing(keys[i].values) && e.value.Some?;
    } else {
      NoneMissingAppend([], e.value);
      NoneMissingEmpty();
      assert [] + [e.value] == [e.value];
      assert out[|keys|] == MetaKey(e.key, [e.value]);
      assert forall j | 0 <= j < |keys| :: out[j] == keys[j];
    }
  }

  lemma NoneMissingEmpty()
    ensures NoneMissing([])
  {
  }

  /** No event reports an empty value. */
  ghost predicate AllPresent(events: seq<Event>) {
    forall i | 0 <= i < |events| :: events[i].value.Some?
  }

  lemma {:induction false} InsertAllKeepsPrintable(keys: seq<MetaKey>, events: seq<Event>)
    requires Printable(keys) && forall i | 0 <= i < |events| :: EventOk(events[i])
    ensures Printable(InsertAll(keys, events))
    ensures Complete(InsertAll(keys, events)) <==> Complete(keys) && AllPresent(events)
    decreases |events|
  {
    hide Printable, Complete, EventOk, Inserted;
    if events != [] {
      InsertKeepsPrintable(keys, events[0]);
      InsertAllKeepsPrintable(Inserted(keys, events[0].key, events[0].value), events[1..]);
    }
  }

  /** Printing writes a missing value as the text "(null)". */
  ghost function FillValues(values: seq<Option<string>>): (r: seq<Option<string>>)
    ensures |r| == |values| && forall j | 0 <= j < |r| :: r[j] == Some(TextOf(values[j]))
  {
    if values == [] then [] else [Some(TextOf(values[0]))] + FillValues(values[1..])
  }

  ghost function Fill(keys: seq<MetaKey>): (r: seq<MetaKey>)
    ensures |r| == |keys| && forall i | 0 <= i < |r| :: r[i] == MetaKey(keys[i].key, FillValues(keys[i].values))
  {
    if keys == [] then [] else [MetaKey(keys[0].key, FillValues(keys[0].values))] + Fill(keys[1..])
  }

  lemma {:induction false} FilledValuesPrintTheSame(key: string, values: seq<Option<string>>)
    ensures PrintValues(key, FillValues(values)) == PrintValues(key, values)
  {
    if values != [] { FilledValuesPrintTheSame(key, values[1..]); }
  }

  lemma {:induction false} FilledPrintsTheSame(keys: seq<MetaKey>)
    ensures PrintKeys(Fill(keys)) == PrintKeys(keys)
  {
    if keys != [] {
      FilledValuesPrintTheSame(keys[0].key, keys[0].values);
      FilledPrintsTheSame(keys[1..]);
    }
  }

  lemma {:induction false} FillIsPrintable(keys: seq<MetaKey>)
    requires Printable(keys)
    ensures Printable(Fill(keys)) && Complete(Fill(keys))
    ensures Fill(keys) == keys <==> Complete(keys)
  {
    var r := Fill(keys);
    hide PrintableKey, SameNoCase, Fill, FillValues;
    forall i | 0 <= i < |r| ensures MetaOk(r[i]) && NoneMissing(r[i].values) {
      assert MetaOk(keys[i]);
      FilledValuesOk(keys[i].values);
    }
    if r == keys {
      forall i | 0 <= i < |keys| ensures NoneMissing(keys[i].values) { assert r[i] == keys[i]; }
    }
    if Complete(keys) {
      forall i | 0 <= i < |keys| ensures r[i] == keys[i] { FilledValuesOk(keys[i].values); }
    }
  }

  lemma {:induction false} FilledValuesOk(values: seq<Option<string>>)
    requires forall j | 0 <= j < |values| :: ValueOk(values[j])
    ensures NoneMissing(FillValues(values)) && forall j | 0 <= j < |values| :: ValueOk(FillValues(values)[j])
    ensures FillValues(values) == values <==> NoneMissing(values)
  {
    NullIsPrintable();
    hide PrintableValue;
    var r := FillValues(values);
    hide FillValues;
    forall j | 0 <= j < |values| ensures ValueOk(r[j]) && r[j].Some? {
      assert ValueOk(values[j]) && r[j] == Some(TextOf(values[j]));
    }
    if NoneMissing(values) {
      assert forall j | 0 <= j < |values| :: r[j] == values[j];
    } else if r == values {
      assert false;
    }
  }

  lemma NullIsPrintable()
    ensures PrintableValue("(null)")
  {
  }

  /**
   For any file, saving what was loaded and loading it again fills the missing values in; it changes
   nothing exactly when the file has no empty value.
   */
  lemma {:induction false} LoadSaveLoad(data: string)
    ensures Load(Print(Load(data))) == Fill(Load(data))
    ensures Load(Print(Load(data))) == Load(data) <==> AllPresent(Parse(data, None))
  {
    var keys := Load(data);
    LoadedIsPrintable(data);
    FilledPrintsTheSame(keys);
    FillIsPrintable(keys);
    assert Print(Fill(keys)) == Print(keys);
    hide Load, Print, Printable, Complete, AllPresent;
    PrintThenLoad(Fill(keys));
  }

  /** Whatever a file holds, what is loaded can be printed. */
  lemma {:induction false} LoadedIsPrintable(data: string)
    ensures Printable(Load(data)) && (Complete(Load(data)) <==> AllPresent(Parse(data, None)))
  {
    var events := Parse(data, None);
    forall i | 0 <= i < |events| ensures EventOk(events[i]) {
      ScannedIsPrintable(data, None, i);
    }
    hide Parse, EventOk;
    InsertAllKeepsPrintable([], events);
    hide InsertAll, AllPresent;
  }

  /** A song survives being printed and read back exactly when its keys are printable
      and differ up to case, and every value is present and printable. */
  lemma RoundTripExactly(keys: seq<MetaKey>)
    ensures Load(Print(keys)) == keys <==> Printable(keys) && Complete(keys)
  {
    var data := Print(keys);
    if Printable(keys) && Complete(keys) {
      PrintThenLoad(keys);
    }
    if Load(data) == keys {
      LoadedIsPrintable(data);
      LoadSaveLoad(data);
      FillIsPrintable(keys);
    }
    hide Load, Print, Printable, Complete, AllPresent;
  }
}
