/**
 * The file-name sanitizer: deletes every character that is reserved in
 * file-system paths and keeps everything else, in order.
 */
module Sanitizer {

  /** The nine reserved characters: \ / * ? : " < > | */
  predicate IsReserved(c: char) {
    c == '\\' || c == '/' || c == '*' || c == '?' || c == ':' ||
    c == '"' || c == '<' || c == '>' || c == '|'
  }

  /** No character of `s` is reserved. */
  predicate IsClean(s: string) {
    forall i :: 0 <= i < |s| ==> !IsReserved(s[i])
  }

  /** Every reserved character removed; the others kept in their original order. */
  function Sanitize(s: string): (r: string)
    ensures IsClean(r)
    ensures |r| <= |s|
    ensures forall c :: c in r ==> c in s
  {
    if s == [] then []
    else (if IsReserved(s[0]) then [] else [s[0]]) + Sanitize(s[1..])
  }

  /** On a single character the sanitizer deletes it exactly when it is reserved. */
  lemma SanitizeChar(c: char)
    ensures Sanitize([c]) == if IsReserved(c) then [] else [c]
  {
    assert [c][1..] == [];
  }

  /** Sanitizing works character by character: it distributes over concatenation.
      With SanitizeChar this determines the result completely, order included. */
  lemma {:induction false} SanitizeAppend(a: string, b: string)
    ensures Sanitize(a + b) == Sanitize(a) + Sanitize(b)
  {
    if a == [] {
      assert a + b == b;
    } else {
      var head := if IsReserved(a[0]) then [] else [a[0]];
      assert (a + b)[0] == a[0];
      assert (a + b)[1..] == a[1..] + b;
      assert Sanitize(a + b) == head + Sanitize(a[1..] + b);
      SanitizeAppend(a[1..], b);
      assert head + (Sanitize(a[1..]) + Sanitize(b)) == (head + Sanitize(a[1..])) + Sanitize(b);
    }
  }

  /** A string without reserved characters is left as it is. */
  lemma {:induction false} SanitizeClean(s: string)
    requires IsClean(s)
    ensures Sanitize(s) == s
  {
    if s != [] {
      assert !IsReserved(s[0]);
      SanitizeClean(s[1..]);
    }
  }

  /** Sanitizing twice is the same as sanitizing once. */
  lemma SanitizeIdempotent(s: string)
    ensures Sanitize(Sanitize(s)) == Sanitize(s)
  {
    SanitizeClean(Sanitize(s));
  }

  /** No occurrence of a kept character is lost, and no reserved character survives. */
  lemma {:induction false} SanitizeCounts(s: string, c: char)
    ensures multiset(Sanitize(s))[c] == if IsReserved(c) then 0 else multiset(s)[c]
  {
    if s != [] {
      SanitizeCounts(s[1..], c);
      assert s == [s[0]] + s[1..];
      assert multiset(s) == multiset([s[0]]) + multiset(s[1..]);
    }
  }
}
