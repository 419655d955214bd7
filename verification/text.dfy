/** Joining transcript segments with single spaces, and its inverse. */
module Text {

  /** The segment texts joined with single spaces (Python's `" ".join`):
      order kept, nothing dropped, nothing merged. */
  function JoinSpaces(segs: seq<string>): (r: string)
    ensures |segs| == 0 ==> r == ""
    ensures |segs| > 0 ==> segs[0] <= r && |r| == TotalLength(segs) + |segs| - 1
    decreases |segs|
  {
    if |segs| == 0 then ""
    else if |segs| == 1 then segs[0]
    else segs[0] + " " + JoinSpaces(segs[1..])
  }

  /** The number of characters in all the segments together. */
  function TotalLength(segs: seq<string>): (n: nat) {
    if segs == [] then 0 else |segs[0]| + TotalLength(segs[1..])
  }

  predicate NoSpace(s: string) {
    forall j :: 0 <= j < |s| ==> s[j] != ' '
  }

  /** The index of the first space of `s`. */
  function FirstSpace(s: string): (i: nat)
    requires !NoSpace(s)
    ensures i < |s| && s[i] == ' ' && NoSpace(s[..i])
  {
    if s[0] == ' ' then 0
    else
      assert !NoSpace(s[1..]) by {
        var j :| 0 <= j < |s| && s[j] == ' ';
        assert s[1..][j - 1] == ' ';
      }
      var i := 1 + FirstSpace(s[1..]);
      assert forall j :: 0 <= j < i ==> s[..i][j] == (if j == 0 then s[0] else s[1..][..i - 1][j - 1]);
      i
  }

  /** `s` cut at every space (Python's `s.split(" ")`): at least one piece,
      none containing a space. */
  function SplitSpaces(s: string): (r: seq<string>)
    ensures |r| > 0
    ensures forall k :: 0 <= k < |r| ==> NoSpace(r[k])
    decreases |s|
  {
    if NoSpace(s) then [s]
    else
      var i := FirstSpace(s);
      [s[..i]] + SplitSpaces(s[i + 1..])
  }

  /** The first space after a space-free prefix is the one right after it. */
  lemma {:induction false} FirstSpaceAfter(x: string, rest: string)
    requires NoSpace(x)
    ensures !NoSpace(x + " " + rest) && FirstSpace(x + " " + rest) == |x|
    decreases |x|
  {
    var s := x + " " + rest;
    assert s[|x|] == ' ';
    if x != [] {
      assert s[1..] == x[1..] + " " + rest;
      FirstSpaceAfter(x[1..], rest);
    }
  }

  /** A space-free piece followed by a space splits off as the first piece. */
  lemma SplitCons(x: string, rest: string)
    requires NoSpace(x)
    ensures SplitSpaces(x + " " + rest) == [x] + SplitSpaces(rest)
  {
    var s := x + " " + rest;
    FirstSpaceAfter(x, rest);
    assert s[..|x|] == x;
    assert s[|x| + 1..] == rest;
  }

  /** Joining two non-empty runs of segments puts exactly one space between
      their joins: no segment is merged into, or lost at, the seam. */
  lemma {:induction false} JoinAppend(a: seq<string>, b: seq<string>)
    requires |a| > 0 && |b| > 0
    ensures JoinSpaces(a + b) == JoinSpaces(a) + " " + JoinSpaces(b)
    decreases |a|
  {
    if |a| == 1 {
      assert (a + b)[1..] == b;
    } else {
      assert (a + b)[1..] == a[1..] + b;
      JoinAppend(a[1..], b);
    }
  }

  /** A join of several segments is the first, a space, and the join of
      the rest; the rest is space-free when all segments are. */
  lemma JoinCons(segs: seq<string>)
    requires |segs| > 1
    requires forall k :: 0 <= k < |segs| ==> NoSpace(segs[k])
    ensures JoinSpaces(segs) == segs[0] + " " + JoinSpaces(segs[1..])
    ensures NoSpace(segs[0]) && forall k :: 0 <= k < |segs[1..]| ==> NoSpace(segs[1..][k])
  {
    assert forall k :: 0 <= k < |segs[1..]| ==> segs[1..][k] == segs[k + 1];
  }

  /** Splitting a joined text gives back the segments, provided there was
      at least one and none of them contained a space. */
  lemma {:induction false} SplitJoin(segs: seq<string>)
    requires |segs| > 0
    requires forall k :: 0 <= k < |segs| ==> NoSpace(segs[k])
    ensures SplitSpaces(JoinSpaces(segs)) == segs
    decreases |segs|
  {
    if |segs| == 1 {
      assert NoSpace(segs[0]);
    } else {
      JoinCons(segs);
      SplitJoin(segs[1..]);
      SplitCons(segs[0], JoinSpaces(segs[1..]));
      assert segs == [segs[0]] + segs[1..];
    }
  }

  /** Joining the pieces of a split gives back the text. */
  lemma {:induction false} JoinSplit(s: string)
    ensures JoinSpaces(SplitSpaces(s)) == s
    decreases |s|
  {
    if !NoSpace(s) {
      var i := FirstSpace(s);
      var tail := SplitSpaces(s[i + 1..]);
      JoinSplit(s[i + 1..]);
      var r := [s[..i]] + tail;
      assert r[1..] == tail;
      assert JoinSpaces(r) == s[..i] + " " + JoinSpaces(tail);
      assert s == s[..i] + " " + s[i + 1..];
    }
  }

  /** The segments ["Hello", "world"] become the body "Hello world". */
  lemma JoinExample()
    ensures JoinSpaces(["Hello", "world"]) == "Hello world"
  {
    assert ["Hello", "world"][1..] == ["world"];
  }
}
