/**
 * Character classes and small string operations shared by the response
 * parsers and the form code. Strings are sequences of characters; the
 * whitespace class is Python's, because both `\s` in a str pattern and
 * `str.strip()` use it.
 */
module Text {

  /** Python's `str.isspace()`: the characters `\s` matches and `strip()` removes. */
  predicate IsSpace(c: char)
  {
    || c == ' '
    || ('\t' <= c <= '\r')
    || ('\U{1C}' <= c <= '\U{1F}')
    || c == '\U{85}'
    || c == '\U{A0}'
    || c == '\U{1680}'
    || ('\U{2000}' <= c <= '\U{200A}')
    || c == '\U{2028}'
    || c == '\U{2029}'
    || c == '\U{202F}'
    || c == '\U{205F}'
    || c == '\U{3000}'
  }

  /** Every character of s[lo..hi] is whitespace. */
  predicate AllSpace(s: string, lo: nat, hi: nat)
    requires lo <= hi <= |s|
  {
    forall k :: lo <= k < hi ==> IsSpace(s[k])
  }

  /** End of the maximal whitespace run that begins at i: what a greedy `\s*` consumes. */
  function SkipSpaces(s: string, i: nat): (j: nat)
    requires i <= |s|
    ensures i <= j <= |s|
    ensures AllSpace(s, i, j)
    ensures j == |s| || !IsSpace(s[j])
    decreases |s| - i
  {
    if i < |s| && IsSpace(s[i]) then SkipSpaces(s, i + 1) else i
  }

  /** A whitespace run that ends before a non-space character is the one SkipSpaces finds. */
  lemma SkipSpacesExact(s: string, i: nat, j: nat)
    requires i <= j <= |s|
    requires AllSpace(s, i, j)
    requires j == |s| || !IsSpace(s[j])
    ensures SkipSpaces(s, i) == j
  {
  }

  /** First index at or after i holding c, or |s| when there is none. */
  function IndexOf(s: string, c: char, i: nat): (j: nat)
    requires i <= |s|
    ensures i <= j <= |s|
    ensures j < |s| ==> s[j] == c
    ensures forall k :: i <= k < j ==> s[k] != c
    decreases |s| - i
  {
    if i == |s| || s[i] == c then i else IndexOf(s, c, i + 1)
  }

  /** Python's `w in s` for strings: w occurs contiguously in s. */
  predicate IsInfix(w: string, s: string)
  {
    exists i, j :: 0 <= i <= j <= |s| && s[i..j] == w
  }

  /** An infix of a slice of s is an infix of s. */
  lemma InfixOfSlice(w: string, s: string, lo: nat, hi: nat)
    requires lo <= hi <= |s|
    requires IsInfix(w, s[lo..hi])
    ensures IsInfix(w, s)
  {
    var i, j :| 0 <= i <= j <= hi - lo && s[lo..hi][i..j] == w;
    forall k | 0 <= k < j - i
      ensures s[lo..hi][i..j][k] == s[lo + i..lo + j][k]
    {
      assert s[lo..hi][i..j][k] == s[lo..hi][i + k] == s[lo + i + k];
    }
    assert s[lo..hi][i..j] == s[lo + i..lo + j];
  }

  /** Index just past the last non-space character of s[lo..hi], or lo when there is none. */
  function TrimEnd(s: string, lo: nat, hi: nat): (j: nat)
    requires lo <= hi <= |s|
    ensures lo <= j <= hi
    ensures AllSpace(s, j, hi)
    ensures j == lo || !IsSpace(s[j - 1])
    decreases hi
  {
    if hi == lo || !IsSpace(s[hi - 1]) then hi else TrimEnd(s, lo, hi - 1)
  }

  predicate StartsWithSpace(t: string)
  {
    t != [] && IsSpace(t[0])
  }

  predicate EndsWithNewline(t: string)
  {
    t != [] && t[|t| - 1] == '\n'
  }

  /** No whitespace at either end. */
  predicate Trimmed(t: string)
  {
    t == [] || (!IsSpace(t[0]) && !IsSpace(t[|t| - 1]))
  }

  /** Python's `str.strip()` with no argument. */
  function Strip(s: string): (t: string)
    ensures Trimmed(t)
    ensures exists i, j :: 0 <= i <= j <= |s| && s[i..j] == t && AllSpace(s, 0, i) && AllSpace(s, j, |s|)
  {
    var i := SkipSpaces(s, 0);
    var j := TrimEnd(s, i, |s|);
    assert AllSpace(s, 0, i) && AllSpace(s, j, |s|);
    s[i..j]
  }

  /** Stripping a string that has no whitespace at either end leaves it unchanged. */
  lemma StripTrimmed(s: string)
    requires Trimmed(s)
    ensures Strip(s) == s
  {
    if s != [] {
      SkipSpacesExact(s, 0, 0);
      assert TrimEnd(s, 0, |s|) == |s|;
    }
  }

  /** Python's `t.replace('\n', ' ')`. */
  function NewlinesToSpaces(t: string): (r: string)
    ensures |r| == |t|
    ensures '\n' !in r
    ensures forall k :: 0 <= k < |t| && t[k] != '\n' ==> r[k] == t[k]
    ensures forall k :: 0 <= k < |t| && t[k] == '\n' ==> r[k] == ' '
    decreases |t|
  {
    if |t| == 0 then ""
    else [if t[0] == '\n' then ' ' else t[0]] + NewlinesToSpaces(t[1..])
  }
}
