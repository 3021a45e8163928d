/**
 * Small replies worked through by hand: what each extractor and the main
 * page's split produce for them. Each lemma takes the reply as a parameter
 * fixed by its precondition, and each step is a separate fact.
 */
module Examples {
  import opened Text
  import opened Matching
  import SeriesHeader
  import DashItems
  import StarItems
  import MainPage

  lemma DashFirstLine(s: string)
    requires s == "- A\n- B"
    ensures DashItems.ItemStartsAt(s, 0) && DashItems.MatchAt(s, 0) == Match(0, 2, 3)
  {
    SkipSpacesExact(s, 1, 2);
    assert !DashItems.StopsAt(s, 2) && DashItems.StopsAt(s, 3);
  }

  lemma DashSecondLine(s: string)
    requires s == "- A\n- B"
    ensures DashItems.MatchesFrom(s, 3) == [Match(4, 6, 7)]
  {
    assert !DashItems.ItemStartsAt(s, 3) && DashItems.ItemStartsAt(s, 4);
    SkipSpacesExact(s, 5, 6);
    assert DashItems.StopsAt(s, 7);
    assert DashItems.MatchAt(s, 4) == Match(4, 6, 7);
    assert DashItems.MatchesFrom(s, 7) == [];
  }

  /** Two hyphen items on consecutive lines: the first stops where the next bullet line begins. */
  lemma DashExample(s: string)
    requires s == "- A\n- B"
    ensures DashItems.Items(s) == ["A", "B"]
  {
    DashFirstLine(s);
    DashSecondLine(s);
    var ms := DashItems.MatchesFrom(s, 0);
    assert ms == [DashItems.MatchAt(s, 0)] + DashItems.MatchesFrom(s, 3);
    assert ms == [Match(0, 2, 3), Match(4, 6, 7)];
    var items := DashItems.Items(s);
    assert items == Captures(s, ms);
    assert items[0] == s[2..3] == "A";
    assert items[1] == s[6..7] == "B";
  }

  /** An item followed only by a final newline stops before it (`$` matches there). */
  lemma DashFinalNewline(t: string)
    requires t == "- A\n"
    ensures DashItems.Items(t) == ["A"]
  {
    assert DashItems.ItemStartsAt(t, 0);
    SkipSpacesExact(t, 1, 2);
    assert !DashItems.StopsAt(t, 2) && DashItems.StopsAt(t, 3);
    assert DashItems.MatchAt(t, 0) == Match(0, 2, 3);
    assert !DashItems.ItemStartsAt(t, 3);
    assert DashItems.MatchesFrom(t, 3) == [];
    assert DashItems.MatchesFrom(t, 0) == [Match(0, 2, 3)];
    assert t[2..3] == "A";
  }

  /** The part after a header that ends its line: the newline before the bullet is skipped. */
  lemma DashAfterHeader(t: string)
    requires t == "\n- B"
    ensures DashItems.Items(t) == ["B"]
  {
    assert !DashItems.ItemStartsAt(t, 0) && DashItems.ItemStartsAt(t, 1);
    SkipSpacesExact(t, 2, 3);
    assert !DashItems.StopsAt(t, 3) && DashItems.StopsAt(t, 4);
    assert DashItems.MatchAt(t, 1) == Match(1, 3, 4);
    assert DashItems.MatchesFrom(t, 4) == [];
    assert DashItems.MatchesFrom(t, 1) == [Match(1, 3, 4)];
    assert DashItems.MatchesFrom(t, 0) == [Match(1, 3, 4)];
    assert t[3..4] == "B";
  }

  /** "## Series" occurs once in this reply, at index 4, and its match ends at index 13. */
  lemma SeriesHeaderOnce(s: string)
    requires s == "- A\n## Series\n- B"
    ensures SeriesHeader.SoleHeaderAt(s, 4) && SeriesHeader.HeaderEnd(s, 4) == 13
  {
    assert SeriesHeader.MarksEnd(s, 4) == 6;
    SkipSpacesExact(s, 6, 7);
    assert SeriesHeader.WordAt(s, 7);
    assert SeriesHeader.NoHeaderIn(s, 0, 4);
    assert SeriesHeader.NoHeaderIn(s, 13, |s|);
  }

  lemma MainParts(s: string)
    requires s == "- A\n## Series\n- B"
    ensures DashItems.Items(s[..4]) == ["A"] && DashItems.Items(s[13..]) == ["B"]
  {
    var before, after := s[..4], s[13..];
    assert before == "- A\n" && after == "\n- B";
    DashFinalNewline(before);
    DashAfterHeader(after);
  }

  /** A reply with a movie, the series header and a series is cut at the header. */
  lemma MainExample(s: string)
    requires s == "- A\n## Series\n- B"
    ensures MainPage.ParseResponse(s) == MainPage.Sections(["A"], ["B"])
  {
    SeriesHeaderOnce(s);
    MainParts(s);
    MainPage.SplitSections(s, 4);
  }

  lemma StarFirstLine(s: string)
    requires s == "* A\n- B\n** C"
    ensures StarItems.StarStartsAt(s, 0) && StarItems.MatchAt(s, 0) == Match(0, 2, 3)
  {
    assert StarItems.SkipStars(s, 0) == 1;
    SkipSpacesExact(s, 1, 2);
    assert s[2] != '\n' && s[3] == '\n';
    assert IndexOf(s, '\n', 2) == 3;
  }

  lemma StarLastLine(s: string)
    requires s == "* A\n- B\n** C"
    ensures StarItems.MatchesFrom(s, 8) == [Match(8, 11, 12)]
  {
    assert StarItems.SkipStars(s, 10) == 10;
    assert StarItems.SkipStars(s, 9) == 10;
    assert StarItems.SkipStars(s, 8) == 10;
    assert StarItems.StarStartsAt(s, 8);
    SkipSpacesExact(s, 10, 11);
    assert StarItems.MatchAt(s, 8) == Match(8, 11, 12);
    assert StarItems.MatchesFrom(s, 12) == [];
  }

  lemma StarHyphenLine(s: string)
    requires s == "* A\n- B\n** C"
    ensures StarItems.MatchesFrom(s, 3) == [Match(8, 11, 12)]
  {
    StarLastLine(s);
    assert !StarItems.StarStartsAt(s, 7) && StarItems.MatchesFrom(s, 7) == [Match(8, 11, 12)];
    assert !StarItems.StarStartsAt(s, 6) && StarItems.MatchesFrom(s, 6) == [Match(8, 11, 12)];
    assert !StarItems.StarStartsAt(s, 5) && StarItems.MatchesFrom(s, 5) == [Match(8, 11, 12)];
    assert !StarItems.StarStartsAt(s, 4) && StarItems.MatchesFrom(s, 4) == [Match(8, 11, 12)];
    assert !StarItems.StarStartsAt(s, 3);
  }

  /** Star items: a hyphen line is passed over, and a run of two stars opens an item too. */
  lemma StarExample(s: string)
    requires s == "* A\n- B\n** C"
    ensures StarItems.Items(s) == ["A", "C"]
  {
    StarFirstLine(s);
    StarHyphenLine(s);
    var ms := StarItems.MatchesFrom(s, 0);
    assert ms == [StarItems.MatchAt(s, 0)] + StarItems.MatchesFrom(s, 3);
    assert ms == [Match(0, 2, 3), Match(8, 11, 12)];
    var items := StarItems.Items(s);
    assert items == Captures(s, ms);
    assert items[0] == s[2..3] == "A";
    assert items[1] == s[11..12] == "C";
  }

  /** A longer run of `#` still opens the header: the match takes the last three before the word. */
  lemma FourHashes(s: string)
    requires s == "#### Series"
    ensures SeriesHeader.SoleHeaderAt(s, 1) && s[..1] == "#"
  {
    assert !SeriesHeader.HeaderAt(s, 0) by {
      assert SeriesHeader.MarksEnd(s, 0) == 3;
      SkipSpacesExact(s, 3, 3);
      assert !SeriesHeader.FoldMatches(s[3], SeriesHeader.Word[0]);
      assert !SeriesHeader.WordAt(s, 3);
    }
    assert SeriesHeader.MarksEnd(s, 1) == 4;
    SkipSpacesExact(s, 4, 5);
    assert SeriesHeader.WordAt(s, 5);
    assert SeriesHeader.HeaderEnd(s, 1) == |s|;
  }

  /** A bullet inside an item's text does not open an item of its own. */
  lemma BulletInsideItem(s: string)
    requires s == "- a - b"
    ensures DashItems.ItemStartsAt(s, 4) && DashItems.Items(s) == ["a - b"]
  {
    assert DashItems.ItemStartsAt(s, 0);
    SkipSpacesExact(s, 1, 2);
    assert forall k :: 2 <= k < |s| ==> !DashItems.StopsAt(s, k);
    assert DashItems.MatchAt(s, 0) == Match(0, 2, 7);
    assert DashItems.MatchesFrom(s, 7) == [];
    assert DashItems.MatchesFrom(s, 0) == [Match(0, 2, 7)];
    assert s[2..7] == "a - b";
  }
}
