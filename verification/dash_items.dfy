/**
 * The item extractor of main.py:
 * `re.findall(r"[-*•]\s+(.*?)(?=\n[-*•]|\n\n|$)", section, re.DOTALL)`.
 * A match is a bullet character, a run of whitespace, and the shortest
 * text (newlines included) up to a newline that starts another bullet, a
 * blank line, or the end of the section. `\s+` always takes the whole
 * whitespace run: with DOTALL the lazy group can always reach `$`, so the
 * engine never has to give any of it back.
 */
module DashItems {
  import opened Text
  import opened Matching

  /** The character class `[-*•]`. */
  predicate IsBullet(c: char)
  {
    c == '-' || c == '*' || c == '\U{2022}'
  }

  /** `[-*•]\s+` can begin at p: a bullet character followed by whitespace. */
  predicate ItemStartsAt(s: string, p: nat)
  {
    p + 1 < |s| && IsBullet(s[p]) && IsSpace(s[p + 1])
  }

  /**
   * The lookahead `(?=\n[-*•]|\n\n|$)` holds at e. Without MULTILINE, `$`
   * matches at the end of the text and just before a newline that ends it.
   */
  predicate StopsAt(s: string, e: nat)
  {
    || e == |s|
    || (e < |s| && s[e] == '\n' && (e + 1 == |s| || s[e + 1] == '\n' || IsBullet(s[e + 1])))
  }

  /** Where the lazy group that begins at q ends: the first position where the lookahead holds. */
  function ItemEnd(s: string, q: nat): (e: nat)
    requires q <= |s|
    ensures q <= e <= |s|
    ensures StopsAt(s, e)
    ensures forall k :: q <= k < e ==> !StopsAt(s, k)
    decreases |s| - q
  {
    if StopsAt(s, q) then q else ItemEnd(s, q + 1)
  }

  /** m is a match of the pattern at m.marker, with its group read off the pattern. */
  predicate IsMatch(s: string, m: Match)
  {
    && m.marker < m.start <= m.end <= |s|
    && ItemStartsAt(s, m.marker)
    && AllSpace(s, m.marker + 1, m.start)
    && (m.start == |s| || !IsSpace(s[m.start]))
    && StopsAt(s, m.end)
    && (forall k :: m.start <= k < m.end ==> !StopsAt(s, k))
  }

  /**
   * `re.findall` from `from` onwards: every element is a match, they come in
   * source order without overlap, and every place a match could begin is
   * either the start of one of them or inside one (the scan never skips a match).
   */
  predicate IsFindAll(s: string, from: nat, ms: seq<Match>)
  {
    && (forall i :: 0 <= i < |ms| ==> IsMatch(s, ms[i]))
    && Ordered(ms, from)
    && (forall p: nat :: from <= p < |s| && ItemStartsAt(s, p) ==> Consumed(ms, p))
  }

  /** The match the pattern makes at a position where it can begin. */
  function MatchAt(s: string, p: nat): (m: Match)
    requires ItemStartsAt(s, p)
    ensures m.marker == p && IsMatch(s, m)
  {
    var q := SkipSpaces(s, p + 1);
    Match(p, q, ItemEnd(s, q))
  }

  /** A match at `from` followed by the scan from its end is the scan from `from`. */
  lemma FindAllCons(s: string, from: nat, m: Match, rest: seq<Match>)
    requires m.marker == from && IsMatch(s, m)
    requires IsFindAll(s, m.end, rest)
    ensures IsFindAll(s, from, [m] + rest)
  {
    var ms := [m] + rest;
    forall i | 0 <= i < |ms|
      ensures IsMatch(s, ms[i])
    {
      if i > 0 {
        assert ms[i] == rest[i - 1];
      }
    }
    OrderedCons(m, rest, from);
    forall p: nat | from <= p < |s| && ItemStartsAt(s, p)
      ensures Consumed(ms, p)
    {
      ConsumedCons(m, rest, p);
    }
  }

  /** A position where no match can begin adds nothing to the scan. */
  lemma FindAllSkip(s: string, from: nat, ms: seq<Match>)
    requires from < |s| && !ItemStartsAt(s, from)
    requires IsFindAll(s, from + 1, ms)
    ensures IsFindAll(s, from, ms)
  {
  }

  /** The scan: try each position in turn; after a match, resume where it ended. */
  function MatchesFrom(s: string, from: nat): (ms: seq<Match>)
    requires from <= |s|
    ensures IsFindAll(s, from, ms)
    decreases |s| - from
  {
    if from == |s| then []
    else if ItemStartsAt(s, from) then
      var m := MatchAt(s, from);
      var rest := MatchesFrom(s, m.end);
      FindAllCons(s, from, m, rest);
      [m] + rest
    else
      var ms := MatchesFrom(s, from + 1);
      FindAllSkip(s, from, ms);
      ms
  }

  /** The list main.py gets back: the captured text of every match, in order. */
  function Items(s: string): seq<string>
  {
    Captures(s, MatchesFrom(s, 0))
  }

  /** No match of `[-*•]\s+` can begin anywhere in s. */
  predicate NoItemStart(s: string)
  {
    forall p: nat :: p < |s| ==> !ItemStartsAt(s, p)
  }

  /** Neither a blank line nor a newline followed by a bullet character occurs in t. */
  predicate NoBreak(t: string)
  {
    forall k :: 0 <= k < |t| - 1 && t[k] == '\n' ==> t[k + 1] != '\n' && !IsBullet(t[k + 1])
  }

  /** A section yields no items exactly when no bullet character in it is followed by whitespace. */
  lemma NoItemsIff(s: string)
    ensures Items(s) == [] <==> NoItemStart(s)
  {
    var ms := MatchesFrom(s, 0);
    if ms != [] {
      assert ItemStartsAt(s, ms[0].marker);
    }
    if !NoItemStart(s) {
      var p: nat :| p < |s| && ItemStartsAt(s, p);
      assert Consumed(ms, p);
    }
  }

  /** What one match captures, read off its contract. */
  lemma CaptureShape(s: string, m: Match)
    requires IsMatch(s, m)
    ensures IsInfix(s[m.start..m.end], s)
    ensures !StartsWithSpace(s[m.start..m.end])
    ensures !EndsWithNewline(s[m.start..m.end])
    ensures NoBreak(s[m.start..m.end])
  {
    var t := s[m.start..m.end];
    if t != [] {
      assert t[|t| - 1] == s[m.end - 1];
      assert !StopsAt(s, m.end - 1);
    }
    forall k | 0 <= k < |t| - 1 && t[k] == '\n'
      ensures t[k + 1] != '\n' && !IsBullet(t[k + 1])
    {
      assert t[k] == s[m.start + k] && t[k + 1] == s[m.start + k + 1];
      assert !StopsAt(s, m.start + k);
    }
  }

  /**
   * Every item is a piece of the section that is empty or begins with a
   * non-space character, never ends with a newline, and contains neither
   * a blank line nor a newline followed by a bullet character.
   */
  lemma ItemShape(s: string, k: nat)
    requires k < |Items(s)|
    ensures IsInfix(Items(s)[k], s)
    ensures !StartsWithSpace(Items(s)[k])
    ensures !EndsWithNewline(Items(s)[k])
    ensures NoBreak(Items(s)[k])
  {
    CaptureShape(s, MatchesFrom(s, 0)[k]);
  }
}
