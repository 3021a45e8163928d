/**
 * What the two item extractors have in common: `re.findall` with one
 * capture group returns, in order, the text of the group of each
 * non-overlapping match, and each search resumes where the previous
 * match ended.
 */
module Matching {

  /** One match: where the pattern began (the bullet), and the bounds of the captured group. */
  datatype Match = Match(marker: nat, start: nat, end: nat)

  /**
   * Matches found by a scan that starts at `from`: each begins at or after
   * `from`, captures a group after its marker, and ends before the next begins.
   */
  predicate Ordered(ms: seq<Match>, from: nat)
  {
    && (forall i :: 0 <= i < |ms| ==> from <= ms[i].marker < ms[i].start <= ms[i].end)
    && (forall i, j :: 0 <= i < j < |ms| ==> ms[i].end <= ms[j].marker)
  }

  /** Position p lies in the stretch of text consumed by one of the matches. */
  predicate Consumed(ms: seq<Match>, p: nat)
  {
    exists i :: 0 <= i < |ms| && ms[i].marker <= p < ms[i].end
  }

  /** Putting a match in front of an ordered sequence that starts at its end keeps it ordered. */
  lemma OrderedCons(m: Match, rest: seq<Match>, from: nat)
    requires from <= m.marker < m.start <= m.end
    requires Ordered(rest, m.end)
    ensures Ordered([m] + rest, from)
  {
    var ms := [m] + rest;
    forall i, j | 0 <= i < j < |ms|
      ensures ms[i].end <= ms[j].marker
    {
      if i > 0 {
        assert ms[i] == rest[i - 1] && ms[j] == rest[j - 1];
      }
    }
  }

  /** What a match in front consumes, together with what the rest consumes. */
  lemma ConsumedCons(m: Match, rest: seq<Match>, p: nat)
    requires m.marker <= p < m.end || Consumed(rest, p)
    ensures Consumed([m] + rest, p)
  {
    var ms := [m] + rest;
    if m.marker <= p < m.end {
      assert ms[0] == m;
    } else {
      var i :| 0 <= i < |rest| && rest[i].marker <= p < rest[i].end;
      assert ms[i + 1] == rest[i];
    }
  }

  /** The texts of the captured groups, in order: what `re.findall` returns. */
  function Captures(s: string, ms: seq<Match>): seq<string>
    requires forall i :: 0 <= i < |ms| ==> ms[i].start <= ms[i].end <= |s|
  {
    seq(|ms|, i requires 0 <= i < |ms| => s[ms[i].start..ms[i].end])
  }
}
