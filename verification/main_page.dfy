/**
 * main.py: the sidebar form, the check for required fields, the values
 * handed to the prompt template, the parsing of the model's reply into
 * movies and series, and what each results column shows. The model call
 * itself is outside the model: its reply is a parameter.
 */
module MainPage {
  import opened Wrappers
  import opened Text
  import opened Format
  import opened Panels
  import SeriesHeader
  import DashItems

  /** The "Select Type" radio. */
  datatype ContentType = Movies | Series | Both

  function TypeName(t: ContentType): string
  {
    match t
    case Movies => "Movies"
    case Series => "Series"
    case Both => "Both"
  }

  const Languages: seq<string> := ["Hindi", "English", "Tamil", "Telugu", "Urdu", "French", "German", "Spanish"]
  const Genres: seq<string> := ["Horror", "Action", "Thriller", "Comedy", "Romantic", "Sci-Fi", "Family", "Drama", "Adventure"]
  const Formulas: seq<string> := ["Hollywood", "Bollywood", "Tollywood", "Korean", "Turkish", "Pakistani"]
  const Platforms: seq<string> := ["YouTube", "Netflix", "Prime Video", "Disney+", "Jio Cinema", "Z5", "Hulu", "HBO Max", "AppleTv"]
  const Moods: seq<string> := ["Happy", "Sad", "Neutral", "Excited", "Relaxed"]
  const MinYear: int := 1980
  const MaxYear: int := 2025

  /** The sidebar's values when the button is pressed; genres and platforms in selection order. */
  datatype Form = Form(
    language: string,
    genres: seq<string>,
    contentType: ContentType,
    formula: string,
    platforms: seq<string>,
    mood: string,
    yearStart: int,
    yearEnd: int)

  /** What the widgets can hold: options from their lists and a slider range inside its bounds. */
  predicate WidgetForm(f: Form)
  {
    && f.language in Languages
    && (forall g :: g in f.genres ==> g in Genres)
    && f.formula in Formulas
    && (forall p :: p in f.platforms ==> p in Platforms)
    && f.mood in Moods
    && MinYear <= f.yearStart <= f.yearEnd <= MaxYear
  }

  /** The required fields left empty, in the order the form checks them. */
  function MissingFields(f: Form): (missing: seq<string>)
    ensures "Genre" in missing <==> f.genres == []
    ensures "Platform" in missing <==> f.platforms == []
    ensures forall k :: 0 <= k < |missing| ==> missing[k] == "Genre" || missing[k] == "Platform"
    ensures |missing| <= 2
    ensures |missing| == 2 ==> missing == ["Genre", "Platform"]
  {
    (if f.genres == [] then ["Genre"] else []) + (if f.platforms == [] then ["Platform"] else [])
  }

  /** The values the prompt template is filled with. */
  datatype PromptInput = PromptInput(
    lang: string,
    genre: string,
    contentType: string,
    formula: string,
    platform: string,
    mood: string,
    yearRange: string)

  /** Either the list of missing fields (and the text naming them) or the prompt's values. */
  datatype Submission = MissingInfo(fields: seq<string>, named: string) | Ready(input: PromptInput)

  /** Pressing the button: the request is built only when no required field is missing. */
  function Submit(f: Form): (r: Submission)
    ensures r.MissingInfo? <==> f.genres == [] || f.platforms == []
    ensures r.MissingInfo? ==> r.fields == MissingFields(f) && SplitList(r.named) == Some(r.fields)
    ensures r.Ready? ==> r.input.lang == f.language && r.input.formula == f.formula && r.input.mood == f.mood
    ensures r.Ready? ==> r.input.contentType == TypeName(f.contentType)
    ensures r.Ready? ==> r.input.genre == Join(f.genres, ListSep) && r.input.platform == Join(f.platforms, ListSep)
    ensures r.Ready? ==> r.input.yearRange == YearRange(f.yearStart, f.yearEnd)
  {
    var missing := MissingFields(f);
    if missing != [] then
      SplitListJoin(missing);
      MissingInfo(missing, Join(missing, ListSep))
    else
      Ready(PromptInput(
        f.language,
        Join(f.genres, ListSep),
        TypeName(f.contentType),
        f.formula,
        Join(f.platforms, ListSep),
        f.mood,
        YearRange(f.yearStart, f.yearEnd)))
  }

  /** No option of either multiselect contains a comma. */
  lemma OptionsCommaFree()
    ensures CommaFree(Genres) && CommaFree(Platforms)
  {
  }

  /** Whatever the widgets hold, the selections are comma-free and the start year is not negative. */
  lemma WidgetFormCommaFree(f: Form)
    requires WidgetForm(f)
    ensures CommaFree(f.genres) && CommaFree(f.platforms)
    ensures 0 <= f.yearStart <= f.yearEnd
  {
    OptionsCommaFree();
    forall k | 0 <= k < |f.genres|
      ensures ',' !in f.genres[k]
    {
      assert f.genres[k] in Genres;
    }
    forall k | 0 <= k < |f.platforms|
      ensures ',' !in f.platforms[k]
    {
      assert f.platforms[k] in Platforms;
    }
  }

  /**
   * The prompt's list texts lose nothing: the genre and platform texts split
   * back into the selections, in order.
   */
  lemma ReadyInputRecoversLists(f: Form)
    requires CommaFree(f.genres) && CommaFree(f.platforms)
    requires Submit(f).Ready?
    ensures SplitList(Submit(f).input.genre) == Some(f.genres)
    ensures SplitList(Submit(f).input.platform) == Some(f.platforms)
  {
    SplitListJoin(f.genres);
    SplitListJoin(f.platforms);
  }

  /** The prompt's year text reads back as the selected range. */
  lemma ReadyInputRecoversYears(f: Form)
    requires 0 <= f.yearStart
    requires Submit(f).Ready?
    ensures ParseYearRange(Submit(f).input.yearRange) == Some((f.yearStart, f.yearEnd))
  {
    YearRangeRoundTrip(f.yearStart, f.yearEnd);
  }

  /** The items found for each column. */
  datatype Sections = Sections(movies: seq<string>, series: seq<string>)

  /**
   * The reply is cut at the series header when it occurs once; otherwise the
   * case-sensitive words "Movies" and "Series" decide which list the items
   * of the whole reply go to. Only a reply with one header fills both lists.
   */
  function ParseResponse(text: string): (r: Sections)
    ensures r.movies != [] && r.series != [] ==> exists p: nat :: SeriesHeader.SoleHeaderAt(text, p)
  {
    SeriesHeader.SplitInTwoIff(text);
    var parts := SeriesHeader.Split(text);
    if |parts| == 2 then
      Sections(DashItems.Items(parts[0]), DashItems.Items(parts[1]))
    else if IsInfix("Movies", text) && !IsInfix("Series", text) then
      Sections(DashItems.Items(text), [])
    else if IsInfix("Series", text) && !IsInfix("Movies", text) then
      Sections([], DashItems.Items(text))
    else
      Sections(DashItems.Items(text), [])
  }

  /** With a single header, movies come only from the text before it and series only from the text after it. */
  lemma SplitSections(text: string, p: nat)
    requires SeriesHeader.SoleHeaderAt(text, p)
    ensures ParseResponse(text).movies == DashItems.Items(text[..p])
    ensures ParseResponse(text).series == DashItems.Items(text[SeriesHeader.HeaderEnd(text, p)..])
  {
    SeriesHeader.SplitInTwoIff(text);
  }

  /**
   * Without a single header, series are found only in a reply that says
   * "Series" and never "Movies", and then no movies are; every other reply
   * puts all its items under movies.
   */
  lemma FallbackSections(text: string)
    requires forall p: nat :: !SeriesHeader.SoleHeaderAt(text, p)
    ensures ParseResponse(text).series != [] ==> IsInfix("Series", text) && !IsInfix("Movies", text) && ParseResponse(text).movies == []
    ensures IsInfix("Series", text) && !IsInfix("Movies", text) ==> ParseResponse(text) == Sections([], DashItems.Items(text))
    ensures !(IsInfix("Series", text) && !IsInfix("Movies", text)) ==> ParseResponse(text) == Sections(DashItems.Items(text), [])
  {
    SeriesHeader.SplitInTwoIff(text);
  }

  /** Items found in a part of the reply are pieces of the reply with the extractor's shape. */
  lemma PartItemsFromText(text: string, lo: nat, hi: nat)
    requires lo <= hi <= |text|
    ensures forall t :: t in DashItems.Items(text[lo..hi]) ==> IsInfix(t, text) && WellShaped(t)
  {
    var part := text[lo..hi];
    forall t | t in DashItems.Items(part)
      ensures IsInfix(t, text) && WellShaped(t)
    {
      var k :| 0 <= k < |DashItems.Items(part)| && DashItems.Items(part)[k] == t;
      DashItems.ItemShape(part, k);
      InfixOfSlice(t, text, lo, hi);
    }
  }

  /** The shape every item the main page extracts has. */
  predicate WellShaped(t: string)
  {
    !StartsWithSpace(t) && !EndsWithNewline(t) && DashItems.NoBreak(t)
  }

  /** Every movie and every series item is a piece of the reply with the extractor's shape. */
  lemma ParsedItemsFromText(text: string)
    ensures forall t :: t in ParseResponse(text).movies ==> IsInfix(t, text) && WellShaped(t)
    ensures forall t :: t in ParseResponse(text).series ==> IsInfix(t, text) && WellShaped(t)
  {
    SeriesHeader.SplitInTwoIff(text);
    if |SeriesHeader.Split(text)| == 2 {
      var p: nat :| SeriesHeader.SoleHeaderAt(text, p);
      var e := SeriesHeader.HeaderEnd(text, p);
      PartItemsFromText(text, 0, p);
      PartItemsFromText(text, e, |text|);
      assert text[..p] == text[0..p];
    } else {
      PartItemsFromText(text, 0, |text|);
      assert text[0..|text|] == text;
    }
  }

  /** How many items a column shows at most. */
  const MaxShown: nat := 5

  const NoMovies: string := "No movie results found for your preferences."
  const NoSeries: string := "No series results found for your preferences."

  /** One displayed item: `item.strip().replace('\n', ' ')`. */
  function Clean(item: string): (c: string)
    ensures '\n' !in c
    ensures Trimmed(c)
    ensures |c| <= |item|
  {
    NewlinesToSpaces(Strip(item))
  }

  /** Cleaning changes exactly the items that have surrounding whitespace or a newline. */
  lemma CleanFixedPoints(item: string)
    ensures Clean(item) == item <==> Trimmed(item) && '\n' !in item
  {
    if Trimmed(item) && '\n' !in item {
      StripTrimmed(item);
      assert NewlinesToSpaces(item) == item;
    }
  }

  /** Cleaning twice is cleaning once. */
  lemma CleanIdempotent(item: string)
    ensures Clean(Clean(item)) == Clean(item)
  {
    CleanFixedPoints(Clean(item));
  }

  /** A column: the first five items cleaned, in order, or the notice when there are none. */
  function ShowFirst(items: seq<string>, notice: string): (p: Panel)
    ensures p.Notice? <==> items == []
    ensures p.Notice? ==> p.message == notice
    ensures p.Listed? ==> |p.items| == (if |items| < MaxShown then |items| else MaxShown)
    ensures p.Listed? ==> forall k :: 0 <= k < |p.items| ==> p.items[k] == Clean(items[k])
    ensures p.Listed? ==> forall k :: 0 <= k < |p.items| ==> '\n' !in p.items[k] && Trimmed(p.items[k])
  {
    if items == [] then Notice(notice)
    else
      var n := if |items| < MaxShown then |items| else MaxShown;
      Listed(seq(n, k requires 0 <= k < n => Clean(items[k])))
  }

  /** The columns the page shows; a column not asked for is absent. */
  datatype MainView = MainView(movies: Option<Panel>, series: Option<Panel>)

  /** "Movies" shows only movies, "Series" only series, "Both" both. */
  function Render(t: ContentType, sec: Sections): (v: MainView)
    ensures v.movies.Some? <==> t == Movies || t == Both
    ensures v.series.Some? <==> t == Series || t == Both
    ensures v.movies.Some? ==> v.movies.value == ShowFirst(sec.movies, NoMovies)
    ensures v.series.Some? ==> v.series.value == ShowFirst(sec.series, NoSeries)
  {
    match t
    case Movies => MainView(Some(ShowFirst(sec.movies, NoMovies)), None)
    case Series => MainView(None, Some(ShowFirst(sec.series, NoSeries)))
    case Both => MainView(Some(ShowFirst(sec.movies, NoMovies)), Some(ShowFirst(sec.series, NoSeries)))
  }

  /** What pressing the button leads to: the missing-field message, or the results. */
  datatype Outcome = Rejected(fields: seq<string>) | Shown(view: MainView)

  /** The whole submission, with the model's reply as a parameter; the reply is used only when the form is complete. */
  function Respond(f: Form, reply: string): (o: Outcome)
    ensures o.Rejected? <==> f.genres == [] || f.platforms == []
    ensures o.Rejected? ==> o.fields == MissingFields(f)
    ensures o.Shown? ==> o.view == Render(f.contentType, ParseResponse(reply))
  {
    match Submit(f)
    case MissingInfo(fields, _) => Rejected(fields)
    case Ready(_) => Shown(Render(f.contentType, ParseResponse(reply)))
  }
}
