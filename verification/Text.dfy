/** Characters and strings as the key/value files use them. */
module Text {
  import opened Common

  predicate IsEol(c: char) {
    c == '\r' || c == '\n'
  }

  predicate IsBlank(c: char) {
    c == ' ' || c == '\t'
  }

  function TrimRight(s: string): (t: string)
    ensures t <= s
    ensures t == "" || !IsBlank(t[|t| - 1])
    ensures forall i | |t| <= i < |s| :: IsBlank(s[i])
  {
    if s != "" && IsBlank(s[|s| - 1]) then TrimRight(s[..|s| - 1]) else s
  }

  function SkipBlanks(s: string): (t: string)
    ensures |t| <= |s| && t == s[|s| - |t|..]
    ensures t == "" || !IsBlank(t[0])
    ensures forall i | 0 <= i < |s| - |t| :: IsBlank(s[i])
  {
    if s != "" && IsBlank(s[0]) then SkipBlanks(s[1..]) else s
  }

  /** The position of the first character in `stops`, or the length when there is none. */
  function Until(s: string, stops: set<char>): (k: nat)
    ensures k <= |s|
    ensures forall i | 0 <= i < k :: s[i] !in stops
    ensures k < |s| ==> s[k] in stops
  {
    if s == "" || s[0] in stops then 0 else 1 + Until(s[1..], stops)
  }

  lemma {:induction false} TrimRightIs(s: string, k: nat)
    requires k <= |s| && (forall i | k <= i < |s| :: IsBlank(s[i]))
    requires k == 0 || !IsBlank(s[k - 1])
    ensures TrimRight(s) == s[..k]
  {
  }

  lemma {:induction false} UntilIs(s: string, stops: set<char>, k: nat)
    requires k <= |s| && (forall i | 0 <= i < k :: s[i] !in stops)
    requires k == |s| || s[k] in stops
    ensures Until(s, stops) == k
  {
  }

  /** strcasecmp: letters compare without case. */
  function Lower(c: char): char {
    if 'A' <= c <= 'Z' then c - 'A' + 'a' else c
  }

  predicate SameNoCase(s: string, t: string) {
    |s| == |t| && forall i | 0 <= i < |s| :: Lower(s[i]) == Lower(t[i])
  }
}
