/** The filename sanitiser: titles become file names by deleting the eight
    characters that are not allowed in a file name. */
module Filenames {

  /** The characters the sanitiser deletes: \ / * ? " < > | */
  predicate IsInvalid(c: char) {
    c == '\\' || c == '/' || c == '*' || c == '?' || c == '"' || c == '<' || c == '>' || c == '|'
  }

  /** A name in which none of the invalid characters occurs. */
  predicate IsClean(s: string) {
    forall i :: 0 <= i < |s| ==> !IsInvalid(s[i])
  }

  /** The input with every invalid character deleted (not replaced): the
      result is clean and no longer than the input. */
  function Sanitize(name: string): (r: string)
    ensures IsClean(r)
    ensures |r| <= |name|
  {
    if name == [] then []
    else
      (if IsInvalid(name[0]) then [] else [name[0]]) + Sanitize(name[1..])
  }

  /** Every valid character survives, as often as the input has it; every
      invalid one is gone. */
  lemma {:induction false} SanitizeCounts(name: string)
    ensures forall c :: !IsInvalid(c) ==> multiset(Sanitize(name))[c] == multiset(name)[c]
    ensures forall c :: IsInvalid(c) ==> multiset(Sanitize(name))[c] == 0
    decreases |name|
  {
    if name != [] {
      SanitizeCounts(name[1..]);
      assert name == [name[0]] + name[1..];
      var head: string := if IsInvalid(name[0]) then [] else [name[0]];
      assert Sanitize(name) == head + Sanitize(name[1..]);
    }
  }

  /** Sanitising works character by character: it distributes over
      concatenation. With the one-character case below, this pins the
      function down as "delete the invalid characters, keep the order". */
  lemma {:induction false} SanitizeAppend(a: string, b: string)
    ensures Sanitize(a + b) == Sanitize(a) + Sanitize(b)
    decreases |a|
  {
    if a == [] {
      assert a + b == b;
    } else {
      var head: string := if IsInvalid(a[0]) then [] else [a[0]];
      assert (a + b)[0] == a[0];
      assert (a + b)[1..] == a[1..] + b;
      assert Sanitize(a + b) == head + Sanitize(a[1..] + b);
      assert Sanitize(a) == head + Sanitize(a[1..]);
      SanitizeAppend(a[1..], b);
    }
  }

  /** A single character is dropped exactly when it is invalid. */
  lemma SanitizeChar(c: char)
    ensures IsInvalid(c) ==> Sanitize([c]) == []
    ensures !IsInvalid(c) ==> Sanitize([c]) == [c]
  {
  }

  /** A name comes back unchanged exactly when it is already clean. */
  lemma {:induction false} SanitizeFixesClean(s: string)
    ensures Sanitize(s) == s <==> IsClean(s)
    decreases |s|
  {
    if s != [] && IsClean(s) {
      assert IsClean(s[1..]) by {
        forall i | 0 <= i < |s[1..]|
          ensures !IsInvalid(s[1..][i])
        {
          assert s[1..][i] == s[i + 1];
        }
      }
      SanitizeFixesClean(s[1..]);
      assert s == [s[0]] + s[1..];
    }
  }

  /** Sanitising twice is the same as sanitising once. */
  lemma SanitizeIdempotent(s: string)
    ensures Sanitize(Sanitize(s)) == Sanitize(s)
  {
    SanitizeFixesClean(Sanitize(s));
  }
}
