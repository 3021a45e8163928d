/**
 * app.py: the earlier page. It cuts the reply at the series header and
 * lists every `*` item of each part; when the header does not occur
 * exactly once it shows the reply as it came. The model call is outside
 * the model: its reply is a parameter.
 */
module AppPage {
  import opened Text
  import opened Panels
  import SeriesHeader
  import StarItems

  const NoMovies: string := "No movie results found."
  const NoSeries: string := "No series results found."

  /** Two columns, or the unparsed reply shown for debugging. */
  datatype AppView = Columns(movies: Panel, series: Panel) | RawResponse(text: string)

  /** A column: every item, untruncated and unchanged, or the notice when there are none. */
  function ShowAll(items: seq<string>, notice: string): (p: Panel)
    ensures p.Notice? <==> items == []
    ensures p.Notice? ==> p.message == notice
    ensures p.Listed? ==> p.items == items
  {
    if items == [] then Notice(notice) else Listed(items)
  }

  /**
   * Columns exactly when the header occurs once, built from the text before
   * and after it; otherwise the reply itself, unchanged.
   */
  function Render(text: string): (v: AppView)
    ensures v.RawResponse? <==> forall p: nat :: !SeriesHeader.SoleHeaderAt(text, p)
    ensures v.RawResponse? ==> v.text == text
    ensures forall p: nat :: SeriesHeader.SoleHeaderAt(text, p) ==>
      v == Columns(
        ShowAll(StarItems.Items(text[..p]), NoMovies),
        ShowAll(StarItems.Items(text[SeriesHeader.HeaderEnd(text, p)..]), NoSeries))
  {
    SeriesHeader.SplitInTwoIff(text);
    var parts := SeriesHeader.Split(text);
    if |parts| == 2 then
      Columns(ShowAll(StarItems.Items(parts[0]), NoMovies), ShowAll(StarItems.Items(parts[1]), NoSeries))
    else
      RawResponse(text)
  }

  /**
   * Every listed movie lies in the text before the header and every listed
   * series in the text after it; each is a newline-free piece of the reply
   * that does not begin with whitespace.
   */
  lemma ColumnItems(text: string, p: nat, k: nat)
    requires SeriesHeader.SoleHeaderAt(text, p)
    ensures Render(text).Columns?
    ensures Render(text).movies.Listed? && k < |Render(text).movies.items| ==>
      var t := Render(text).movies.items[k];
      IsInfix(t, text[..p]) && !StartsWithSpace(t) && '\n' !in t
    ensures Render(text).series.Listed? && k < |Render(text).series.items| ==>
      var t := Render(text).series.items[k];
      IsInfix(t, text[SeriesHeader.HeaderEnd(text, p)..]) && !StartsWithSpace(t) && '\n' !in t
  {
    var before := text[..p];
    var after := text[SeriesHeader.HeaderEnd(text, p)..];
    if k < |StarItems.Items(before)| {
      StarItems.ItemShape(before, k);
    }
    if k < |StarItems.Items(after)| {
      StarItems.ItemShape(after, k);
    }
  }

  /** A part without `*` shows its notice: `-` and `•` items are not recognised. */
  lemma NoStarShowsNotice(text: string, p: nat)
    requires SeriesHeader.SoleHeaderAt(text, p)
    requires '*' !in text[..p]
    ensures Render(text).Columns? && Render(text).movies == Notice(NoMovies)
  {
    StarItems.NoStarNoItems(text[..p]);
  }
}
