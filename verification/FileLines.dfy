/** The key/value format line by line, in its own characters. */
module FileLines {
  import opened Common
  import opened Text
  import opened Scanner
  import Metadata

  ghost predicate Blanks(s: string) {
    forall i | 0 <= i < |s| :: s[i] == ' ' || s[i] == '\t'
  }

  /** Blanks and ends of line before a line count for nothing. */
  lemma {:induction false} LeadingSpaceIsSkipped(space: string, rest: string, header: Option<string>)
    requires forall i | 0 <= i < |space| :: space[i] == ' ' || space[i] == '\t' || space[i] == '\r' || space[i] == '\n'
    ensures Parse(space + rest, header) == Parse(rest, header)
    decreases |space|
  {
    hide Parse;
    if space == "" {
      assert space + rest == rest;
    } else {
      TokenStarts(space + rest, header);
      assert (space + rest)[1..] == space[1..] + rest;
      LeadingSpaceIsSkipped(space[1..], rest, header);
    }
  }

  /** A line that starts with '#' counts for nothing, up to its '\n'. */
  lemma {:induction false} CommentIsSkipped(text: string, rest: string, header: Option<string>)
    requires '\n' !in text
    ensures Parse("#" + text + "\n" + rest, header) == Parse(rest, header)
  {
    hide Parse;
    var d := text + "\n" + rest;
    TokenStarts("#" + text + "\n" + rest, header);
    assert ("#" + text + "\n" + rest)[1..] == d;
    UntilIs(d, {'\n'}, |text|);
    assert d[|text| + 1..] == rest;
  }

  /** A header in brackets is the header of what follows; an empty one takes it away. */
  lemma {:induction false} HeaderHolds(h: string, rest: string, header: Option<string>)
    requires ']' !in h && '\r' !in h && '\n' !in h
    ensures Parse("[" + h + "]" + rest, header) == Parse(rest, if h == "" then None else Some(h))
  {
    hide Parse;
    var d := "[" + h + "]" + rest;
    assert d[0..] == d && d[|h| + 2..] == rest && d[1..|h| + 1] == h;
    HeaderEnds(d, |h| + 1, 0, |h|, header);
  }

  /** A key without '=' counts for nothing. */
  lemma {:induction false} LoneKeyIsSkipped(key: string, rest: string, header: Option<string>)
    requires Metadata.PrintableKey(key)
    ensures Parse(key + "\n" + rest, header) == Parse(rest, header)
  {
    hide Parse, ParseValue;
    var d := key + "\n" + rest;
    KeyLine(d, |key|, header);
    assert d[|key| + 1..] == rest;
  }

  lemma {:induction false} TrailingBlanksAreTrimmed(s: string, blanks: string)
    requires Blanks(blanks) && s != "" && s[|s| - 1] != ' ' && s[|s| - 1] != '\t'
    ensures TrimRight(s + blanks) == s
  {
    TrimRightIs(s + blanks, |s|);
    assert (s + blanks)[..|s|] == s;
  }

  /** A line is one event: the key and the value without the blanks around them, under the header in force. */
  lemma {:induction false} LineIsOneEvent(before: string, key: string, afterKey: string, beforeValue: string,
                                          value: string, afterValue: string, eol: char, rest: string,
                                          header: Option<string>)
    requires Blanks(before) && Blanks(afterKey) && Blanks(beforeValue) && Blanks(afterValue)
    requires Metadata.PrintableKey(key) && Metadata.PrintableValue(value) && (eol == '\r' || eol == '\n')
    ensures Parse(before + (key + afterKey + "=" + (beforeValue + (value + afterValue + [eol] + rest))), header)
            == [Event(header, key, Some(value))] + Parse(rest, header)
  {
    hide Parse, ParseValue;
    var v := value + afterValue + [eol] + rest;
    var d := key + afterKey + "=" + (beforeValue + v);
    LeadingSpaceIsSkipped(before, d, header);
    KeyThenValue(key, afterKey, beforeValue + v, header);
    ValueSkipsBlanks(beforeValue, v, header, key);
    ValueThenRest(value, afterValue, eol, rest, header, key);
  }

  lemma {:induction false} KeyThenValue(key: string, blanks: string, v: string, header: Option<string>)
    requires Metadata.PrintableKey(key) && Blanks(blanks)
    ensures Parse(key + blanks + "=" + v, header) == ParseValue(v, header, key)
  {
    hide Parse, ParseValue;
    var d, k := key + blanks + "=" + v, |key + blanks|;
    assert d[k] == '=' && d[..k] == key + blanks && d[k + 1..] == v && d[0] == key[0];
    forall j | 0 < j < k ensures d[j] !in KEY_STOPS {
      assert d[j] == if j < |key| then key[j] else blanks[j - |key|];
    }
    TrailingBlanksAreTrimmed(key, blanks);
    KeyLine(d, k, header);
  }

  lemma {:induction false} ValueSkipsBlanks(blanks: string, v: string, header: Option<string>, key: string)
    requires Blanks(blanks)
    ensures ParseValue(blanks + v, header, key) == ParseValue(v, header, key)
    decreases |blanks|
  {
    hide ParseValue;
    if blanks == "" {
      assert blanks + v == v;
    } else {
      EmptyValue(blanks + v, header, key);
      assert (blanks + v)[1..] == blanks[1..] + v;
      ValueSkipsBlanks(blanks[1..], v, header, key);
    }
  }

  lemma {:induction false} ValueThenRest(value: string, blanks: string, eol: char, rest: string,
                                         header: Option<string>, key: string)
    requires Metadata.PrintableValue(value) && Blanks(blanks) && (eol == '\r' || eol == '\n')
    ensures ParseValue(value + blanks + [eol] + rest, header, key)
            == [Event(header, key, Some(value))] + Parse(rest, header)
  {
    hide Parse, ParseValue;
    var d, k := value + blanks + [eol] + rest, |value + blanks|;
    assert d[k] == eol && d[..k] == value + blanks && d[k + 1..] == rest && d[0] == value[0];
    forall j | 0 <= j < k ensures d[j] !in EOLS {
      assert d[j] == if j < |value| then value[j] else blanks[j - |value|];
    }
    TrailingBlanksAreTrimmed(value, blanks);
    ValueLine(d, k, header, key);
  }

  // ---- Case ----

  /** The same character, or a capital letter and its small one. */
  predicate SameLetter(c: char, d: char) {
    c == d || ('A' <= c <= 'Z' && d as int == c as int + 32) || ('A' <= d <= 'Z' && c as int == d as int + 32)
  }

  /** Keys are equal up to the case of their letters and in nothing else. */
  lemma CaseAloneIsIgnored(s: string, t: string)
    ensures SameNoCase(s, t) <==> |s| == |t| && forall i | 0 <= i < |s| :: SameLetter(s[i], t[i])
  {
    hide Lower;
    forall c: char, d: char ensures Lower(c) == Lower(d) <==> SameLetter(c, d) { LettersInNumbers(c, d); }
  }

  lemma LettersInNumbers(c: char, d: char)
    ensures Lower(c) == Lower(d) <==> SameLetter(c, d)
  {
  }

  /**
   A value read under a key that differs from a song's own in the case of its letters at most joins the values
   already there, at the end; the key keeps its spelling, and everything else stays.
   */
  lemma {:induction false} OtherCaseJoins(keys: seq<Metadata.MetaKey>, i: nat, key: string, value: Option<string>)
    requires Metadata.Printable(keys) && i < |keys| && |key| == |keys[i].key|
    requires forall k | 0 <= k < |key| :: SameLetter(key[k], keys[i].key[k])
    ensures Metadata.Inserted(keys, key, value) == keys[i := Metadata.MetaKey(keys[i].key, keys[i].values + [value])]
  {
    hide Metadata.MetaOk;
    CaseAloneIsIgnored(key, keys[i].key);
    hide Lower;
    forall j | 0 <= j < i ensures !SameNoCase(key, keys[j].key) {
      assert !SameNoCase(keys[j].key, keys[i].key);
    }
    Metadata.FindKeyIs(keys, key, i);
  }

  /** One that differs from all of them opens a key of its own, after the others. */
  lemma {:induction false} OtherKeyOpens(keys: seq<Metadata.MetaKey>, key: string, value: Option<string>)
    requires forall j | 0 <= j < |keys| ::
               |key| != |keys[j].key| || exists k :: 0 <= k < |key| && !SameLetter(key[k], keys[j].key[k])
    ensures Metadata.Inserted(keys, key, value) == keys + [Metadata.MetaKey(key, [value])]
  {
    forall j | 0 <= j < |keys| ensures !SameNoCase(key, keys[j].key) { CaseAloneIsIgnored(key, keys[j].key); }
    hide SameNoCase;
    Metadata.InsertIntoLast(keys, key, [], value);
  }
}
