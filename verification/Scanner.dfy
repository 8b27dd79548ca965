/**
 The key/value scanner. `Parse` is the file format, token by token; `ParseFile` is the program's
 single pass over the bytes with six states and two marks. The method is proved to implement the
 format on every input.
 */
module Scanner {
  import opened Common
  import opened Text

  /** One call of the add_data callback. */
  datatype Event = Event(header: Option<string>, key: string, value: Option<string>)

  const EOLS: set<char> := {'\r', '\n'}
  const KEY_STOPS: set<char> := {'=', '\r', '\n'}
  const HEADER_STOPS: set<char> := {']', '\r', '\n'}

  function HeaderText(h: string): Option<string> {
    if h == "" then None else Some(h)
  }

  // ---- The format ----

  function Parse(d: string, header: Option<string>): seq<Event>
    decreases |d|, 1
  {
    if d == "" then []
    else if d[0] == '#' then AfterComment(d[1..], header)
    else if IsBlank(d[0]) || IsEol(d[0]) then Parse(d[1..], header)
    else if d[0] == '[' then
      var k := 1 + Until(d[1..], HEADER_STOPS);
      if k == |d| then []
      else if d[k] == ']' then Parse(d[k + 1..], HeaderText(d[1..k]))
      else Parse(d[k + 1..], header)
    else
      var k := 1 + Until(d[1..], KEY_STOPS);
      if k == |d| then []
      else if d[k] == '=' then ParseValue(d[k + 1..], header, TrimRight(d[..k]))
      else Parse(d[k + 1..], header)
  }

  function AfterComment(d: string, header: Option<string>): seq<Event>
    decreases |d|, 2
  {
    var k := Until(d, {'\n'});
    if k == |d| then [] else Parse(d[k + 1..], header)
  }

  function ParseValue(d: string, header: Option<string>, key: string): seq<Event>
    decreases |d|, 2
  {
    var v := SkipBlanks(d);
    var k := Until(v, EOLS);
    var event := Event(header, key, if k == 0 then None else Some(TrimRight(v[..k])));
    [event] + if k == |v| then [] else Parse(v[k + 1..], header)
  }

  // ---- The scanner ----

  datatype Mode = InComment | BeforeToken | InHeader | InKey | BeforeValue | InValue

  /** What the format still owes at position `i`, given the scanner's state. */
  ghost function Owed(mode: Mode, data: string, i: int, start: int, header: Option<string>, key: string): seq<Event>
    requires 0 <= i <= |data| && 0 <= start <= |data|
  {
    match mode
    case InComment => AfterComment(data[i..], header)
    case BeforeToken => Parse(data[i..], header)
    case InHeader => Parse(data[start..], header)
    case InKey => Parse(data[start..], header)
    case BeforeValue => ParseValue(data[i..], header, key)
    case InValue => ParseValue(data[start..], header, key)
  }

  /** The marks: a token begins at `start`, and `end` is its last character that is not a trailing blank. */
  ghost predicate MarksOk(mode: Mode, data: string, i: int, start: int, end: int)
    requires 0 <= i <= |data|
  {
    match mode
    case InHeader =>
      && 0 <= start < i && end == i - 1 && data[start] == '['
      && forall j | start < j < i :: data[j] !in HEADER_STOPS
    case InKey =>
      && 0 <= start <= end < i && !IsBlank(data[end]) && !IsBlank(data[start]) && !IsEol(data[start])
      && data[start] != '[' && data[start] != '#'
      && (forall j | start < j < i :: data[j] !in KEY_STOPS)
      && forall j | end < j < i :: IsBlank(data[j])
    case InValue =>
      && 0 <= start <= end < i && !IsBlank(data[end]) && !IsBlank(data[start])
      && (forall j | start <= j < i :: data[j] !in EOLS)
      && forall j | end < j < i :: IsBlank(data[j])
    case _ => true
  }

  /** copy_string( cur_start, cur_end ) */
  function CopyString(data: string, start: int, end: int): string
    requires 0 <= start <= end + 1 <= |data|
  {
    data[start..end + 1]
  }

  lemma {:induction false} KeyLine(d: string, k: nat, header: Option<string>)
    requires 0 < k <= |d| && !IsBlank(d[0]) && !IsEol(d[0]) && d[0] != '[' && d[0] != '#'
    requires (forall j | 0 < j < k :: d[j] !in KEY_STOPS) && (k == |d| || d[k] in KEY_STOPS)
    ensures Parse(d, header) ==
            if k == |d| then []
            else if d[k] == '=' then ParseValue(d[k + 1..], header, TrimRight(d[..k]))
            else Parse(d[k + 1..], header)
  {
    hide ParseValue, AfterComment;
    UntilIs(d[1..], KEY_STOPS, k - 1);
  }

  lemma TokenText(data: string, i: int, start: int, end: int)
    requires 0 <= start <= end < i <= |data| && !IsBlank(data[end])
    requires forall j | end < j < i :: IsBlank(data[j])
    ensures TrimRight(data[start..i]) == CopyString(data, start, end)
  {
    TrimRightIs(data[start..i], end + 1 - start);
  }

  lemma {:induction false} KeyEnds(data: string, i: int, start: int, end: int, header: Option<string>)
    requires 0 <= i <= |data| && MarksOk(InKey, data, i, start, end)
    requires i == |data| || data[i] in KEY_STOPS
    ensures Parse(data[start..], header) ==
            if i == |data| then []
            else if data[i] == '=' then ParseValue(data[i + 1..], header, CopyString(data, start, end))
            else Parse(data[i + 1..], header)
  {
    hide Parse, ParseValue;
    var d, k := data[start..], i - start;
    KeyLine(d, k, header);
    TokenText(data, i, start, end);
    assert d[..k] == data[start..i];
    if i < |data| { assert d[k + 1..] == data[i + 1..]; }
  }

  lemma {:induction false} HeaderEnds(data: string, i: int, start: int, end: int, header: Option<string>)
    requires 0 <= i <= |data| && MarksOk(InHeader, data, i, start, end)
    requires i == |data| || data[i] in HEADER_STOPS
    ensures Parse(data[start..], header) ==
            if i == |data| then []
            else if data[i] == ']' then Parse(data[i + 1..], HeaderText(data[start + 1..i]))
            else Parse(data[i + 1..], header)
  {
    var d, k := data[start..], i - start;
    UntilIs(d[1..], HEADER_STOPS, k - 1);
    if i < |data| {
      assert d[k + 1..] == data[i + 1..];
      assert d[1..k] == data[start + 1..i];
    }
  }

  lemma {:induction false} ValueLine(d: string, k: nat, header: Option<string>, key: string)
    requires 0 < k <= |d| && !IsBlank(d[0])
    requires (forall j | 0 <= j < k :: d[j] !in EOLS) && (k == |d| || d[k] in EOLS)
    ensures ParseValue(d, header, key) ==
            [Event(header, key, Some(TrimRight(d[..k])))] + if k == |d| then [] else Parse(d[k + 1..], header)
  {
    hide Parse;
    assert SkipBlanks(d) == d;
    UntilIs(d, EOLS, k);
  }

  lemma {:induction false} ValueEnds(data: string, i: int, start: int, end: int, header: Option<string>, key: string)
    requires 0 <= i <= |data| && MarksOk(InValue, data, i, start, end)
    requires i == |data| || data[i] in EOLS
    ensures ParseValue(data[start..], header, key) ==
            [Event(header, key, Some(CopyString(data, start, end)))]
            + if i == |data| then [] else Parse(data[i + 1..], header)
  {
    hide Parse, ParseValue;
    var d, k := data[start..], i - start;
    ValueLine(d, k, header, key);
    TokenText(data, i, start, end);
    assert d[..k] == data[start..i];
    if i < |data| { assert d[k + 1..] == data[i + 1..]; }
  }

  lemma {:induction false} EmptyValue(d: string, header: Option<string>, key: string)
    ensures d == "" ==> ParseValue(d, header, key) == [Event(header, key, None)]
    ensures d != "" && IsEol(d[0]) ==>
              ParseValue(d, header, key) == [Event(header, key, None)] + Parse(d[1..], header)
    ensures d != "" && IsBlank(d[0]) ==> ParseValue(d, header, key) == ParseValue(d[1..], header, key)
  {
  }

  lemma {:induction false} CommentStep(d: string, header: Option<string>)
    requires d != ""
    ensures AfterComment(d, header) == if d[0] == '\n' then Parse(d[1..], header) else AfterComment(d[1..], header)
  {
    hide Parse;
    var k := Until(d, {'\n'});
    assert d[0] != '\n' ==> k == 1 + Until(d[1..], {'\n'}) && (k < |d| ==> d[1..][k..] == d[k + 1..]);
  }

  lemma {:induction false} TokenStarts(d: string, header: Option<string>)
    requires d != ""
    ensures d[0] == '#' ==> Parse(d, header) == AfterComment(d[1..], header)
    ensures IsBlank(d[0]) || IsEol(d[0]) ==> Parse(d, header) == Parse(d[1..], header)
  {
  }

  /** The scanner's variables. */
  datatype Scan = Scan(mode: Mode, start: int, end: int, header: Option<string>, key: string, events: seq<Event>) {

    /** Everything reported so far and still owed adds up to the whole file. */
    ghost predicate At(data: string, i: int) {
      && 0 <= i <= |data| && 0 <= start <= |data|
      && MarksOk(mode, data, i, start, end)
      && Parse(data, None) == events + Owed(mode, data, i, start, header, key)
    }
  }

  method OutsideTokens(data: string, i: int, s: Scan) returns (t: Scan)
    requires i < |data| && s.At(data, i) && (s.mode.InComment? || s.mode.BeforeToken?)
    ensures t.At(data, i + 1)
  {
    hide Parse, ParseValue, AfterComment;
    var c := data[i];
    assert data[i..][1..] == data[i + 1..] && data[i..][0] == c;
    t := s;
    if s.mode == InComment {
      CommentStep(data[i..], s.header);
      if c == '\n' { t := s.(mode := BeforeToken); }
    } else {
      TokenStarts(data[i..], s.header);
      if c == '#' {
        t := s.(mode := InComment);
      } else if IsBlank(c) || IsEol(c) {
      } else if c == '[' {
        t := s.(mode := InHeader, start := i, end := i);
      } else {
        t := s.(mode := InKey, start := i, end := i);
      }
    }
  }

  method InsideHeader(data: string, i: int, s: Scan) returns (t: Scan)
    requires i < |data| && s.At(data, i) && s.mode.InHeader?
    ensures t.At(data, i + 1)
  {
    hide Parse;
    var c := data[i];
    if c == ']' {
      HeaderEnds(data, i, s.start, s.end, s.header);
      t := s.(mode := BeforeToken, header := None);
      if s.start + 1 <= s.end { t := t.(header := Some(CopyString(data, s.start + 1, s.end))); }
    } else if IsEol(c) {
      HeaderEnds(data, i, s.start, s.end, s.header);
      t := s.(mode := BeforeToken);
    } else {
      t := s.(end := i);
    }
  }

  method InsideKey(data: string, i: int, s: Scan) returns (t: Scan)
    requires i < |data| && s.At(data, i) && s.mode.InKey?
    ensures t.At(data, i + 1)
  {
    hide Parse, ParseValue;
    var c := data[i];
    t := s;
    if c == '=' {
      KeyEnds(data, i, s.start, s.end, s.header);
      t := s.(mode := BeforeValue, key := CopyString(data, s.start, s.end));
    } else if IsBlank(c) {
    } else if IsEol(c) {
      KeyEnds(data, i, s.start, s.end, s.header);
      t := s.(mode := BeforeToken);
    } else {
      t := s.(end := i);
    }
  }

  method InsideValue(data: string, i: int, s: Scan) returns (t: Scan)
    requires i < |data| && s.At(data, i) && (s.mode.BeforeValue? || s.mode.InValue?)
    ensures t.At(data, i + 1)
  {
    hide Parse, ParseValue;
    var c := data[i];
    assert data[i..][1..] == data[i + 1..] && data[i..][0] == c;
    t := s;
    if s.mode == BeforeValue {
      EmptyValue(data[i..], s.header, s.key);
      if IsBlank(c) {
      } else if IsEol(c) {
        t := s.(mode := BeforeToken, events := s.events + [Event(s.header, s.key, None)]);
      } else {
        t := s.(mode := InValue, start := i, end := i);
      }
    } else if IsBlank(c) {
    } else if IsEol(c) {
      ValueEnds(data, i, s.start, s.end, s.header, s.key);
      t := s.(mode := BeforeToken,
              events := s.events + [Event(s.header, s.key, Some(CopyString(data, s.start, s.end)))]);
    } else {
      t := s.(end := i);
    }
  }

  lemma {:induction false} NothingLeft(header: Option<string>)
    ensures Parse("", header) == AfterComment("", header) == []
  {
  }

  /** A token cut short by the end of the file: only a value counts. */
  method AtEnd(data: string, s: Scan) returns (events: seq<Event>)
    requires s.At(data, |data|)
    ensures events == Parse(data, None)
  {
    hide Parse, ParseValue, AfterComment;
    events := s.events;
    assert data[|data|..] == "";
    NothingLeft(s.header);
    match s.mode {
      case BeforeValue =>
        EmptyValue("", s.header, s.key);
        events := events + [Event(s.header, s.key, None)];
      case InValue =>
        ValueEnds(data, |data|, s.start, s.end, s.header, s.key);
        events := events + [Event(s.header, s.key, Some(CopyString(data, s.start, s.end)))];
      case InKey => KeyEnds(data, |data|, s.start, s.end, s.header);
      case InHeader => HeaderEnds(data, |data|, s.start, s.end, s.header);
      case _ =>
    }
  }

  lemma StartsAt(data: string)
    ensures Scan(BeforeToken, 0, 0, None, "", []).At(data, 0)
  {
    assert data[0..] == data && [] + Parse(data, None) == Parse(data, None);
    hide Parse;
  }

  /** The scanner's calls are exactly those of the format. */
  method ParseFile(data: string) returns (events: seq<Event>)
    ensures events == Parse(data, None)
  {
    var s, i := Scan(BeforeToken, 0, 0, None, "", []), 0;
    StartsAt(data);
    hide Scan.At, Parse;
    while i < |data|
      invariant i <= |data| && s.At(data, i)
    {
      match s.mode {
        case InHeader => s := InsideHeader(data, i, s);
        case InKey => s := InsideKey(data, i, s);
        case BeforeValue => s := InsideValue(data, i, s);
        case InValue => s := InsideValue(data, i, s);
        case _ => s := OutsideTokens(data, i, s);
      }
      i := i + 1;
    }
    events := AtEnd(data, s);
  }
}
