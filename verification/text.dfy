/**
  The string primitives the chunker relies on: Python's `str.strip()` with no
  argument, `str.rfind(sub)` and the `sub in s` containment test, on strings
  seen as sequences of code points.
 */
module Text {

  /** Python's `str.isspace()` on one code point: the Unicode characters of
      bidirectional class WS, B or S, or of general category Zs. */
  predicate IsWhitespace(c: char) {
    || ('\t' <= c <= '\r')                 // tab, line feed, vertical tab, form feed, carriage return
    || ('\U{1c}' <= c <= '\U{1f}')         // file, group, record and unit separators
    || c == ' '
    || c == '\U{85}'                       // next line
    || c == '\U{a0}'                       // no-break space
    || c == '\U{1680}'                     // ogham space mark
    || ('\U{2000}' <= c <= '\U{200a}')     // en quad .. hair space
    || c == '\U{2028}' || c == '\U{2029}'  // line and paragraph separators
    || c == '\U{202f}' || c == '\U{205f}' || c == '\U{3000}'
  }

  /** Every character of `s` in the index range [lo, hi) is whitespace. */
  predicate WhitespaceIn(s: string, lo: int, hi: int)
    requires 0 <= lo && hi <= |s|
  {
    forall k :: lo <= k < hi ==> IsWhitespace(s[k])
  }

  predicate AllWhitespace(s: string) {
    WhitespaceIn(s, 0, |s|)
  }

  /** Neither starts nor ends with whitespace: what `strip()` leaves behind. */
  predicate IsTrimmed(s: string) {
    s == [] || (!IsWhitespace(s[0]) && !IsWhitespace(s[|s| - 1]))
  }

  /** The length of the longest all-whitespace prefix of `s`. */
  function LeadingWhitespace(s: string): (n: nat)
    ensures n <= |s|
    ensures WhitespaceIn(s, 0, n)
    ensures n < |s| ==> !IsWhitespace(s[n])
  {
    if s == [] || !IsWhitespace(s[0]) then 0
    else
      var n := 1 + LeadingWhitespace(s[1..]);
      assert forall k :: 1 <= k < n ==> s[k] == s[1..][k - 1];
      n
  }

  /** The length of the longest all-whitespace suffix of `s`. */
  function TrailingWhitespace(s: string): (n: nat)
    ensures n <= |s|
    ensures WhitespaceIn(s, |s| - n, |s|)
    ensures n < |s| ==> !IsWhitespace(s[|s| - n - 1])
  {
    if s == [] || !IsWhitespace(s[|s| - 1]) then 0
    else
      var init := s[..|s| - 1];
      var n := 1 + TrailingWhitespace(init);
      assert forall k :: |s| - n <= k < |s| - 1 ==> s[k] == init[k];
      n
  }

  /** Python's `s.strip()`: `s` without its leading and trailing whitespace. */
  function Strip(s: string): (r: string)
    ensures IsTrimmed(r)
    ensures exists lo, hi :: 0 <= lo <= hi <= |s| && r == s[lo..hi]
                             && WhitespaceIn(s, 0, lo) && WhitespaceIn(s, hi, |s|)
    ensures r == [] <==> AllWhitespace(s)
  {
    var lo := LeadingWhitespace(s);
    var hi := if lo == |s| then lo else |s| - TrailingWhitespace(s);
    assert lo < |s| ==> !IsWhitespace(s[lo]);
    s[lo..hi]
  }

  /** `strip()` is determined by its defining facts: any split of `s` into
      whitespace, a trimmed middle and whitespace has that middle as its strip. */
  lemma StripUnique(s: string, lo: nat, hi: nat)
    requires lo <= hi <= |s|
    requires WhitespaceIn(s, 0, lo) && WhitespaceIn(s, hi, |s|)
    requires IsTrimmed(s[lo..hi])
    ensures Strip(s) == s[lo..hi]
  {
    if lo == hi {
      assert AllWhitespace(s);
    } else {
      assert !IsWhitespace(s[lo]) by { assert s[lo] == s[lo..hi][0]; }
      assert !IsWhitespace(s[hi - 1]) by { assert s[hi - 1] == s[lo..hi][hi - 1 - lo]; }
      assert LeadingWhitespace(s) == lo;
      assert TrailingWhitespace(s) == |s| - hi;
    }
  }

  /** Stripping twice is stripping once. */
  lemma StripIdempotent(s: string)
    ensures Strip(Strip(s)) == Strip(s)
  {
    var r := Strip(s);
    assert r[0..|r|] == r;
    StripUnique(r, 0, |r|);
  }

  /** `pat` occurs in `s` at index `i`. */
  predicate OccursAt(s: string, pat: string, i: int) {
    0 <= i && i + |pat| <= |s| && s[i..i + |pat|] == pat
  }

  /** Python's `pat in s`. */
  predicate Contains(s: string, pat: string) {
    exists i | 0 <= i <= |s| - |pat| :: OccursAt(s, pat, i)
  }

  /** The last occurrence of `pat` in `s` at an index no greater than `i`, or -1. */
  function RFindAtOrBefore(s: string, pat: string, i: int): (r: int)
    requires i <= |s| - |pat|
    ensures r == -1 || (0 <= r <= i && OccursAt(s, pat, r))
    ensures forall j :: r < j <= i ==> !OccursAt(s, pat, j)
    decreases i + 1
  {
    if i < 0 then -1
    else if OccursAt(s, pat, i) then i
    else RFindAtOrBefore(s, pat, i - 1)
  }

  /** Python's `s.rfind(pat)`: the index of the last occurrence of `pat`, or -1. */
  function RFind(s: string, pat: string): (r: int)
    ensures r == -1 <==> !Contains(s, pat)
    ensures r != -1 ==> OccursAt(s, pat, r)
    ensures forall j :: r < j ==> !OccursAt(s, pat, j)
  {
    RFindAtOrBefore(s, pat, |s| - |pat|)
  }

  /** The concatenation of a sequence of strings, in order. */
  function Concat(ss: seq<string>): string {
    if ss == [] then [] else ss[0] + Concat(ss[1..])
  }

}
