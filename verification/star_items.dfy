/**
 * The item extractor of app.py: `re.findall(r"\*+\s+(.*)", section)`.
 * A match is a run of `*`, a run of whitespace (newlines included), and
 * the rest of the line that run ends on; without DOTALL `.` stops at a
 * newline. Hyphen and bullet-glyph list markers are not recognised.
 */
module StarItems {
  import opened Text
  import opened Matching

  /** End of the run of `*` that begins at p: what a greedy `\*+` consumes. */
  function SkipStars(s: string, p: nat): (a: nat)
    requires p <= |s|
    ensures p <= a <= |s|
    ensures forall k :: p <= k < a ==> s[k] == '*'
    ensures a == |s| || s[a] != '*'
    decreases |s| - p
  {
    if p < |s| && s[p] == '*' then SkipStars(s, p + 1) else p
  }

  /** `\*+\s+` can begin at p: a run of stars that is followed by whitespace. */
  predicate StarStartsAt(s: string, p: nat)
  {
    p < |s| && s[p] == '*' && SkipStars(s, p) < |s| && IsSpace(s[SkipStars(s, p)])
  }

  /** The pattern's own reading of `\*+\s`: stars on [p, a), then whitespace at a, for any a. */
  ghost predicate PrefixMatches(s: string, p: nat, a: nat)
  {
    p < a < |s| && (forall k :: p <= k < a ==> s[k] == '*') && IsSpace(s[a])
  }

  /**
   * Backtracking over `\*+` gains nothing: the pattern can begin at p
   * exactly when the whole star run is followed by whitespace, and that is
   * the only way it can.
   */
  lemma StarStartIsPattern(s: string, p: nat)
    ensures StarStartsAt(s, p) <==> exists a: nat :: PrefixMatches(s, p, a)
    ensures forall a: nat :: PrefixMatches(s, p, a) ==> a == SkipStars(s, p)
  {
    forall a: nat | PrefixMatches(s, p, a)
      ensures a == SkipStars(s, p)
    {
      var b := SkipStars(s, p);
      assert !(a < b) && !(b < a);
    }
    if StarStartsAt(s, p) {
      assert PrefixMatches(s, p, SkipStars(s, p));
    }
  }

  /** m is a match of the pattern at m.marker, with its group read off the pattern. */
  predicate IsMatch(s: string, m: Match)
  {
    && m.marker < m.start <= m.end <= |s|
    && StarStartsAt(s, m.marker)
    && SkipStars(s, m.marker) < m.start
    && AllSpace(s, SkipStars(s, m.marker), m.start)
    && (m.start == |s| || !IsSpace(s[m.start]))
    && (m.end == |s| || s[m.end] == '\n')
    && (forall k :: m.start <= k < m.end ==> s[k] != '\n')
  }

  /**
   * `re.findall` from `from` onwards: every element is a match, they come in
   * source order without overlap, and every place a match could begin is
   * the start of one of them or inside one.
   */
  predicate IsFindAll(s: string, from: nat, ms: seq<Match>)
  {
    && (forall i :: 0 <= i < |ms| ==> IsMatch(s, ms[i]))
    && Ordered(ms, from)
    && (forall p: nat :: from <= p < |s| && StarStartsAt(s, p) ==> Consumed(ms, p))
  }

  /** The match the pattern makes at a position where it can begin. */
  function MatchAt(s: string, p: nat): (m: Match)
    requires StarStartsAt(s, p)
    ensures m.marker == p && IsMatch(s, m)
  {
    var b := SkipSpaces(s, SkipStars(s, p));
    Match(p, b, IndexOf(s, '\n', b))
  }

  /** A match at `from` followed by the scan from its end is the scan from `from`. */
  lemma FindAllCons(s: string, from: nat, m: Match, rest: seq<Match>)
    requires m.marker == from && IsMatch(s, m)
    requires IsFindAll(s, m.end, rest)
    ensures IsFindAll(s, from, [m] + rest)
  {
    var ms := [m] + rest;
    forall i | 0 <= i < |ms|
      ensures IsMatch(s, ms[i])
    {
      if i > 0 {
        assert ms[i] == rest[i - 1];
      }
    }
    OrderedCons(m, rest, from);
    forall p: nat | from <= p < |s| && StarStartsAt(s, p)
      ensures Consumed(ms, p)
    {
      ConsumedCons(m, rest, p);
    }
  }

  /** A position where no match can begin adds nothing to the scan. */
  lemma FindAllSkip(s: string, from: nat, ms: seq<Match>)
    requires from < |s| && !StarStartsAt(s, from)
    requires IsFindAll(s, from + 1, ms)
    ensures IsFindAll(s, from, ms)
  {
  }

  /** The scan: try each position in turn; after a match, resume at the end of its line. */
  function MatchesFrom(s: string, from: nat): (ms: seq<Match>)
    requires from <= |s|
    ensures IsFindAll(s, from, ms)
    decreases |s| - from
  {
    if from == |s| then []
    else if StarStartsAt(s, from) then
      var m := MatchAt(s, from);
      var rest := MatchesFrom(s, m.end);
      FindAllCons(s, from, m, rest);
      [m] + rest
    else
      var ms := MatchesFrom(s, from + 1);
      FindAllSkip(s, from, ms);
      ms
  }

  /** The list app.py gets back: the captured text of every match, in order. */
  function Items(s: string): seq<string>
  {
    Captures(s, MatchesFrom(s, 0))
  }

  /** No run of stars in s is followed by whitespace. */
  predicate NoStarStart(s: string)
  {
    forall p: nat :: p < |s| ==> !StarStartsAt(s, p)
  }

  /** A section yields no items exactly when no run of stars in it is followed by whitespace. */
  lemma NoItemsIff(s: string)
    ensures Items(s) == [] <==> NoStarStart(s)
  {
    var ms := MatchesFrom(s, 0);
    if ms != [] {
      assert StarStartsAt(s, ms[0].marker);
    }
    if !NoStarStart(s) {
      var p: nat :| p < |s| && StarStartsAt(s, p);
      assert Consumed(ms, p);
    }
  }

  /** A section without a `*` yields no items, whatever `-` or `•` bullets it holds. */
  lemma NoStarNoItems(s: string)
    requires '*' !in s
    ensures Items(s) == []
  {
    NoItemsIff(s);
    forall p: nat | p < |s|
      ensures !StarStartsAt(s, p)
    {
      assert s[p] in s;
    }
  }

  /** What one match captures, read off its contract. */
  lemma CaptureShape(s: string, m: Match)
    requires IsMatch(s, m)
    ensures IsInfix(s[m.start..m.end], s)
    ensures !StartsWithSpace(s[m.start..m.end])
    ensures '\n' !in s[m.start..m.end]
    ensures 0 < m.start && IsSpace(s[m.start - 1])
  {
    var t := s[m.start..m.end];
    assert forall k :: 0 <= k < |t| ==> t[k] == s[m.start + k];
  }

  /**
   * Every item is a piece of the section that is empty or begins with a
   * non-space character, and holds no newline: the rest of one line.
   */
  lemma ItemShape(s: string, k: nat)
    requires k < |Items(s)|
    ensures IsInfix(Items(s)[k], s)
    ensures !StartsWithSpace(Items(s)[k])
    ensures '\n' !in Items(s)[k]
  {
    CaptureShape(s, MatchesFrom(s, 0)[k]);
  }
}
