/**
 * The section split both pages perform: `re.split(r"(?i)###?\s*Series", text)`.
 * The pattern is two `#`, an optional third `#`, any whitespace, then the
 * word "series" in any ASCII letter case.
 */
module SeriesHeader {
  import opened Wrappers
  import opened Text

  /** The header word in lower case; `(?i)` lets each letter match either case. */
  const Word: string := "series"

  /** Case-insensitive match of one character against a lower-case pattern letter (ASCII folding). */
  predicate FoldMatches(c: char, lower: char)
  {
    c == lower || ('a' <= lower <= 'z' && c as int == lower as int - 32)
  }

  /** The word "series", in any letter case, begins at r. */
  predicate WordAt(s: string, r: nat)
  {
    r + |Word| <= |s| && forall k :: 0 <= k < |Word| ==> FoldMatches(s[r + k], Word[k])
  }

  /** Where `\s*` begins when the pattern is tried at p: after `##` and a third `#` if there is one. */
  function MarksEnd(s: string, p: nat): nat
    requires p + 2 <= |s|
  {
    if p + 2 < |s| && s[p + 2] == '#' then p + 3 else p + 2
  }

  /** The pattern matches at p: `##`, the optional `#` taken greedily, maximal whitespace, the word. */
  predicate HeaderAt(s: string, p: nat)
  {
    p + 2 <= |s| && s[p] == '#' && s[p + 1] == '#' && WordAt(s, SkipSpaces(s, MarksEnd(s, p)))
  }

  /** Where a match at p ends. */
  function HeaderEnd(s: string, p: nat): (e: nat)
    requires HeaderAt(s, p)
    ensures p + 2 + |Word| <= e <= |s|
  {
    SkipSpaces(s, MarksEnd(s, p)) + |Word|
  }

  /**
   * The pattern's own reading, with every choice the regular-expression
   * engine could make: `##`, then either nothing or one `#`, then a run of
   * whitespace of any length, then the word at r.
   */
  ghost predicate PatternMatches(s: string, p: nat, r: nat)
  {
    && p + 2 <= r
    && r + |Word| <= |s|
    && s[p] == '#'
    && s[p + 1] == '#'
    && (AllSpace(s, p + 2, r) || (p + 3 <= r && s[p + 2] == '#' && AllSpace(s, p + 3, r)))
    && WordAt(s, r)
  }

  /**
   * Backtracking cannot find a match the greedy reading misses, and every
   * reading ends at the same place, so the split does not depend on the
   * order in which the engine tries its choices.
   */
  lemma HeaderAtIsPatternMatch(s: string, p: nat)
    ensures HeaderAt(s, p) <==> exists r: nat :: PatternMatches(s, p, r)
    ensures forall r: nat :: PatternMatches(s, p, r) ==> r + |Word| == HeaderEnd(s, p)
  {
    forall r: nat | PatternMatches(s, p, r)
      ensures HeaderAt(s, p) && r + |Word| == HeaderEnd(s, p)
    {
      assert FoldMatches(s[r + 0], Word[0]);
      assert !IsSpace(s[r]) && s[r] != '#';
      if p + 3 <= r && s[p + 2] == '#' && AllSpace(s, p + 3, r) {
        assert MarksEnd(s, p) == p + 3;
        SkipSpacesExact(s, p + 3, r);
      } else {
        assert MarksEnd(s, p) == p + 2;
        SkipSpacesExact(s, p + 2, r);
      }
    }
    if HeaderAt(s, p) {
      assert PatternMatches(s, p, SkipSpaces(s, MarksEnd(s, p)));
    }
  }

  /** No match of the pattern begins in [lo, hi). */
  predicate NoHeaderIn(s: string, lo: nat, hi: nat)
  {
    forall k: nat :: lo <= k < hi ==> !HeaderAt(s, k)
  }

  /** The leftmost match at or after `from`, as the engine's search finds it. */
  function FindHeader(s: string, from: nat): (r: Option<nat>)
    requires from <= |s|
    ensures r.Some? ==> from <= r.value && HeaderAt(s, r.value) && NoHeaderIn(s, from, r.value)
    ensures r.None? ==> NoHeaderIn(s, from, |s|)
    decreases |s| - from
  {
    if from == |s| then None
    else if HeaderAt(s, from) then Some(from)
    else FindHeader(s, from + 1)
  }

  /** `re.split` on s[from..]: the text between successive non-overlapping matches. */
  function SplitFrom(s: string, from: nat): (parts: seq<string>)
    requires from <= |s|
    ensures |parts| >= 1
    ensures |parts| == 1 <==> NoHeaderIn(s, from, |s|)
    ensures |parts| == 1 ==> parts == [s[from..]]
    decreases |s| - from
  {
    match FindHeader(s, from)
    case None => [s[from..]]
    case Some(p) => [s[from..p]] + SplitFrom(s, HeaderEnd(s, p))
  }

  /** `re.split(r"(?i)###?\s*Series", s)`. */
  function Split(s: string): (parts: seq<string>)
    ensures |parts| >= 1
    ensures |parts| == 1 <==> NoHeaderIn(s, 0, |s|)
    ensures |parts| == 1 ==> parts == [s]
  {
    assert s[0..] == s;
    SplitFrom(s, 0)
  }

  /** The header occurs at p, nowhere before it, and nowhere after the text it consumes. */
  predicate SoleHeaderAt(s: string, p: nat)
  {
    HeaderAt(s, p) && NoHeaderIn(s, 0, p) && NoHeaderIn(s, HeaderEnd(s, p), |s|)
  }

  /**
   * The split yields two parts exactly when the header occurs once (counting
   * only matches that do not overlap an earlier one); the parts are then the
   * text before the header and the text after it.
   */
  lemma SplitInTwoIff(s: string)
    ensures |Split(s)| == 2 <==> exists p: nat :: SoleHeaderAt(s, p)
    ensures forall p: nat :: SoleHeaderAt(s, p) ==> Split(s) == [s[..p], s[HeaderEnd(s, p)..]]
  {
    match FindHeader(s, 0)
    case None =>
      assert Split(s) == [s[0..]];
      forall p: nat ensures !SoleHeaderAt(s, p) {
        if p < |s| {
          assert !HeaderAt(s, p);
        }
      }
    case Some(p) =>
      var e := HeaderEnd(s, p);
      assert Split(s) == [s[0..p]] + SplitFrom(s, e);
      forall q: nat | SoleHeaderAt(s, q)
        ensures q == p
      {
        assert !(q < p);
        assert !(p < q);
      }
      match FindHeader(s, e)
      case None =>
        assert SplitFrom(s, e) == [s[e..]];
        assert SoleHeaderAt(s, p);
      case Some(p2) =>
        assert |SplitFrom(s, e)| >= 2;
        assert !SoleHeaderAt(s, p);
  }
}
