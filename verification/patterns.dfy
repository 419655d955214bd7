/** The two regular-expression searches the channel resolver uses. Both
    have the shape `lit(cls+)`: a literal followed by a captured, greedy run
    of one character class. A search finds the leftmost index where the
    literal is followed by at least one class character and captures the
    longest run of class characters that follows the literal there. */
module Patterns {
  import opened Wrappers

  /** `\w` for the run of a handle, `[\w-]` for the run of a channel id. */
  datatype CharClass = Word | WordOrDash

  /** Word characters, taken as the ASCII ones. */
  predicate IsWordChar(c: char) {
    ('a' <= c <= 'z') || ('A' <= c <= 'Z') || ('0' <= c <= '9') || c == '_'
  }

  predicate InClass(c: char, cls: CharClass) {
    IsWordChar(c) || (cls == WordOrDash && c == '-')
  }

  /** The longest run of `cls` characters of `s` that starts at index `j`. */
  function Run(s: string, j: nat, cls: CharClass): (r: string)
    requires j <= |s|
    ensures j + |r| <= |s| && r == s[j..j + |r|]
    ensures forall k :: 0 <= k < |r| ==> InClass(r[k], cls)
    ensures j + |r| == |s| || !InClass(s[j + |r|], cls)
    decreases |s| - j
  {
    if j < |s| && InClass(s[j], cls) then [s[j]] + Run(s, j + 1, cls) else []
  }

  /** `lit(cls+)` matches at index `i`. */
  predicate MatchesAt(s: string, lit: string, cls: CharClass, i: int) {
    0 <= i && i + |lit| < |s| && s[i..i + |lit|] == lit && InClass(s[i + |lit|], cls)
  }

  /** `i` is the first index at or after `from` where the pattern matches. */
  predicate IsLeftmost(s: string, lit: string, cls: CharClass, from: nat, i: int) {
    from <= i && MatchesAt(s, lit, cls, i) &&
    forall k :: from <= k < i ==> !MatchesAt(s, lit, cls, k)
  }

  /** The index of the leftmost match at or after `from`, or None when the
      pattern matches nowhere there. */
  function FindFrom(s: string, lit: string, cls: CharClass, from: nat): (r: Option<nat>)
    requires from <= |s|
    ensures r.Some? ==> IsLeftmost(s, lit, cls, from, r.value)
    ensures r.None? ==> forall i :: from <= i ==> !MatchesAt(s, lit, cls, i)
    decreases |s| - from
  {
    if from == |s| then None
    else if MatchesAt(s, lit, cls, from) then Some(from)
    else FindFrom(s, lit, cls, from + 1)
  }

  /** A run reaches the end of the text when every character from `j` on
      is of the class. */
  lemma RunToEnd(s: string, j: nat, cls: CharClass)
    requires j <= |s|
    requires forall k :: j <= k < |s| ==> InClass(s[k], cls)
    ensures Run(s, j, cls) == s[j..]
  {
    var r := Run(s, j, cls);
    assert j + |r| == |s|;
  }

  /** Python's `re.search(lit + "(" + cls + "+)", s).group(1)`, with None
      for a failed search. A found group is a non-empty run of class
      characters taken from the leftmost match. */
  function Search(s: string, lit: string, cls: CharClass): (r: Option<string>)
    ensures r.Some? ==> exists i :: IsLeftmost(s, lit, cls, 0, i) && r.value == Run(s, i + |lit|, cls)
    ensures r.Some? ==> |r.value| > 0 && forall k :: 0 <= k < |r.value| ==> InClass(r.value[k], cls)
    ensures r.None? <==> forall i :: !MatchesAt(s, lit, cls, i)
  {
    match FindFrom(s, lit, cls, 0)
    case Some(i) =>
      RunAtMatch(s, lit, cls, i);
      Some(Run(s, i + |lit|, cls))
    case None => None
  }

  /** At a match the run after the literal is not empty. */
  lemma RunAtMatch(s: string, lit: string, cls: CharClass, i: int)
    requires MatchesAt(s, lit, cls, i)
    ensures |Run(s, i + |lit|, cls)| > 0
  {
  }

  /** The leftmost match fixes what the search captures. */
  lemma SearchAt(s: string, lit: string, cls: CharClass, i: nat)
    requires IsLeftmost(s, lit, cls, 0, i)
    ensures Search(s, lit, cls) == Some(Run(s, i + |lit|, cls))
  {
    FoundLeftmost(s, lit, cls, 0, i);
    assert i + |lit| <= |s|;
    SearchFound(s, lit, cls, i);
  }

  /** Where the search stops, the capture is the run after the literal. */
  lemma SearchFound(s: string, lit: string, cls: CharClass, i: nat)
    requires i + |lit| <= |s|
    requires FindFrom(s, lit, cls, 0) == Some(i)
    ensures Search(s, lit, cls) == Some(Run(s, i + |lit|, cls))
  {
  }

  /** The search from `from` stops at the leftmost match from there. */
  lemma {:induction false} FoundLeftmost(s: string, lit: string, cls: CharClass, from: nat, i: nat)
    requires from <= |s|
    requires IsLeftmost(s, lit, cls, from, i)
    ensures FindFrom(s, lit, cls, from) == Some(i)
    decreases |s| - from
  {
    if from < i {
      assert !MatchesAt(s, lit, cls, from);
      FoundLeftmost(s, lit, cls, from + 1, i);
    }
  }
}
