/**
 * How the form's values are turned into prompt text: lists joined with
 * ", " and integers written in decimal, each with the parser that undoes it.
 */
module Format {
  import opened Wrappers
  import opened Text

  /** The separator `", ".join(...)` puts between list elements. */
  const ListSep: string := ", "

  /** The summed length of the elements. */
  function TotalLength(xs: seq<string>): nat
  {
    if xs == [] then 0 else |xs[0]| + TotalLength(xs[1..])
  }

  /** Python's `sep.join(xs)`. */
  function Join(xs: seq<string>, sep: string): (r: string)
    ensures xs == [] ==> r == ""
    ensures xs != [] ==> xs[0] <= r
    ensures |xs| >= 2 ==> xs[0] + sep <= r
    ensures xs != [] ==> |r| == TotalLength(xs) + (|xs| - 1) * |sep|
    decreases |xs|
  {
    if |xs| == 0 then ""
    else if |xs| == 1 then xs[0]
    else xs[0] + sep + Join(xs[1..], sep)
  }

  /**
   * Reads a ", "-joined list back: cuts at every comma, which must be
   * followed by a space. None when some comma is not.
   */
  function SplitList(s: string): (r: Option<seq<string>>)
    ensures r.Some? ==> |r.value| >= 1 && CommaFree(r.value)
    decreases |s|
  {
    var i := IndexOf(s, ',', 0);
    if i == |s| then Some([s])
    else if i + 1 < |s| && s[i + 1] == ' ' then
      match SplitList(s[i + 2..])
      case Some(rest) => Some([s[..i]] + rest)
      case None => None
    else None
  }

  predicate CommaFree(xs: seq<string>)
  {
    forall k :: 0 <= k < |xs| ==> ',' !in xs[k]
  }

  /** A comma-free name, the separator, then a splittable rest: the name heads the split. */
  lemma SplitListCons(x: string, rest: string, ys: seq<string>)
    requires ',' !in x
    requires SplitList(rest) == Some(ys)
    ensures SplitList(x + ListSep + rest) == Some([x] + ys)
  {
    var s := x + ListSep + rest;
    assert s[|x|] == ',' && s[|x| + 1] == ' ';
    assert forall k :: 0 <= k < |x| ==> s[k] == x[k];
    assert IndexOf(s, ',', 0) == |x|;
    assert s[..|x|] == x;
    assert s[|x| + 2..] == rest;
  }

  /** Joining comma-free names with ", " loses nothing: splitting the text gives the list back. */
  lemma {:induction false} SplitListJoin(xs: seq<string>)
    requires xs != []
    requires CommaFree(xs)
    ensures SplitList(Join(xs, ListSep)) == Some(xs)
    decreases |xs|
  {
    if |xs| == 1 {
      var s := Join(xs, ListSep);
      assert IndexOf(s, ',', 0) == |s|;
      assert xs == [s];
    } else {
      assert CommaFree(xs[1..]) by {
        forall k | 0 <= k < |xs| - 1
          ensures ',' !in xs[1..][k]
        {
          assert xs[1..][k] == xs[k + 1];
        }
      }
      SplitListJoin(xs[1..]);
      SplitListCons(xs[0], Join(xs[1..], ListSep), xs[1..]);
      assert [xs[0]] + xs[1..] == xs;
    }
  }

  /** Whatever text splits into a list is exactly that list joined with ", ". */
  lemma {:induction false} JoinSplitList(s: string, xs: seq<string>)
    requires SplitList(s) == Some(xs)
    ensures Join(xs, ListSep) == s
    decreases |s|
  {
    var i := IndexOf(s, ',', 0);
    if i == |s| {
      assert xs == [s];
    } else {
      var rest :| SplitList(s[i + 2..]) == Some(rest) && xs == [s[..i]] + rest;
      JoinSplitList(s[i + 2..], rest);
      assert xs[1..] == rest;
      assert s == s[..i] + ListSep + s[i + 2..];
    }
  }

  predicate IsDigit(c: char)
  {
    '0' <= c <= '9'
  }

  predicate AllDigits(r: string)
  {
    forall k :: 0 <= k < |r| ==> IsDigit(r[k])
  }

  function DigitChar(d: nat): (c: char)
    requires d < 10
    ensures IsDigit(c)
  {
    (d + '0' as int) as char
  }

  function DigitsValue(r: string): nat
    requires AllDigits(r)
    decreases |r|
  {
    if |r| == 0 then 0 else 10 * DigitsValue(r[..|r| - 1]) + (r[|r| - 1] as int - '0' as int)
  }

  /** Decimal digits with no leading zero: the only form Python's `str` gives a non-negative integer. */
  predicate Canonical(d: string)
  {
    |d| >= 1 && AllDigits(d) && (d[0] == '0' ==> |d| == 1)
  }

  /** Python's `str(n)` for a non-negative integer: decimal digits, no leading zero. */
  function NatToString(n: nat): (r: string)
    ensures Canonical(r)
    decreases n
  {
    if n < 10 then [DigitChar(n)] else NatToString(n / 10) + [DigitChar(n % 10)]
  }

  lemma {:induction false} NatToStringRoundTrip(n: nat)
    ensures DigitsValue(NatToString(n)) == n
    decreases n
  {
    if n >= 10 {
      var r := NatToString(n);
      assert r[..|r| - 1] == NatToString(n / 10);
      NatToStringRoundTrip(n / 10);
    }
  }

  /** Digits led by a non-zero digit stand for a positive number. */
  lemma {:induction false} LeadingDigitPositive(d: string)
    requires |d| >= 1 && AllDigits(d) && d[0] != '0'
    ensures DigitsValue(d) >= 1
    decreases |d|
  {
    if |d| > 1 {
      LeadingDigitPositive(d[..|d| - 1]);
    }
  }

  /** Canonical digits are exactly what NatToString writes for their value. */
  lemma {:induction false} DigitsRoundTrip(d: string)
    requires Canonical(d)
    ensures NatToString(DigitsValue(d)) == d
    decreases |d|
  {
    if |d| > 1 {
      var prefix := d[..|d| - 1];
      LeadingDigitPositive(prefix);
      DigitsRoundTrip(prefix);
      var v := DigitsValue(d);
      assert v / 10 == DigitsValue(prefix) && v % 10 == d[|d| - 1] as int - '0' as int;
      assert d == prefix + [d[|d| - 1]];
    }
  }

  /** Python's `str(i)`, which an f-string uses for an integer. */
  function IntToString(i: int): (r: string)
    ensures |r| >= 1
    ensures r[0] == '-' <==> i < 0
    ensures i >= 0 ==> Canonical(r)
    ensures i < 0 ==> Canonical(r[1..]) && r[1] != '0'
  {
    if i < 0 then
      var d := NatToString(-i);
      assert d[0] == '0' ==> d == "0";
      NatToStringRoundTrip(-i);
      "-" + d
    else NatToString(i)
  }

  /** Reads back exactly what IntToString writes; None for anything else, leading zeros included. */
  function ParseInt(r: string): Option<int>
  {
    if Canonical(r) then
      var v: int := DigitsValue(r); Some(v)
    else if |r| >= 2 && r[0] == '-' && Canonical(r[1..]) && r[1] != '0' then
      var v: int := -(DigitsValue(r[1..]) as int); Some(v)
    else None
  }

  lemma IntToStringRoundTrip(i: int)
    ensures ParseInt(IntToString(i)) == Some(i)
  {
    if i < 0 {
      NegativeRoundTrip(i);
    } else {
      NatToStringRoundTrip(i);
    }
  }

  lemma NegativeRoundTrip(i: int)
    requires i < 0
    ensures ParseInt(IntToString(i)) == Some(i)
  {
    var d := NatToString(-i);
    var r := "-" + d;
    assert r == IntToString(i);
    assert r[1..] == d;
    assert !AllDigits(r) by {
      assert !IsDigit(r[0]);
    }
    NatToStringRoundTrip(-i);
  }

  /** Only IntToString's own output parses: whatever reads as i is `str(i)`. */
  lemma ParseIntExact(r: string, i: int)
    requires ParseInt(r) == Some(i)
    ensures IntToString(i) == r
  {
    if Canonical(r) {
      DigitsRoundTrip(r);
    } else {
      var d := r[1..];
      LeadingDigitPositive(d);
      DigitsRoundTrip(d);
      assert r == "-" + d;
    }
  }

  /** The year range as main.py writes it: `f"{start}-{end}"`. */
  function YearRange(start: int, end: int): string
  {
    IntToString(start) + "-" + IntToString(end)
  }

  /** Reads a year range back, cutting at the first '-'. */
  function ParseYearRange(r: string): Option<(int, int)>
  {
    var i := IndexOf(r, '-', 0);
    if i == |r| then None
    else
      match (ParseInt(r[..i]), ParseInt(r[i + 1..]))
      case (Some(a), Some(b)) => Some((a, b))
      case _ => None
  }

  /** A year range with a non-negative start year reads back as the same two years. */
  lemma YearRangeRoundTrip(start: int, end: int)
    requires start >= 0
    ensures ParseYearRange(YearRange(start, end)) == Some((start, end))
  {
    var a := IntToString(start);
    var r := YearRange(start, end);
    assert r[..|a|] == a;
    assert r[|a|] == '-';
    assert forall k :: 0 <= k < |a| ==> r[k] != '-' by {
      forall k | 0 <= k < |a|
        ensures r[k] != '-'
      {
        assert r[k] == a[k] && IsDigit(a[k]);
      }
    }
    assert IndexOf(r, '-', 0) == |a|;
    assert r[|a| + 1..] == IntToString(end);
    IntToStringRoundTrip(start);
    IntToStringRoundTrip(end);
  }

  /**
   * Only YearRange's own output parses: whatever reads as a pair of years is
   * `f"{start}-{end}"` for that pair, and its start year is not negative.
   */
  lemma YearRangeExact(r: string, start: int, end: int)
    requires ParseYearRange(r) == Some((start, end))
    ensures start >= 0
    ensures YearRange(start, end) == r
  {
    var i := IndexOf(r, '-', 0);
    assert ParseInt(r[..i]) == Some(start) && ParseInt(r[i + 1..]) == Some(end);
    assert |r[..i]| == 0 || r[..i][0] != '-';
    ParseIntExact(r[..i], start);
    ParseIntExact(r[i + 1..], end);
    assert r == r[..i] + "-" + r[i + 1..];
  }
}
