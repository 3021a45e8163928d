# Movie/series recommender: form handling and reply parsing

The recommender is a Streamlit page. A sidebar form collects a language, genres,
a content type, an industry ("formula"), platforms, a mood and a year range. The
values go into a prompt for a hosted language model. The model's free-text reply
is then split into a list of movies and a list of series for display. The
repository has two versions of the page: `main.py`, the current one, and
`app.py`, an earlier one. Both cut the reply at a `## Series` header but extract
list items with different regular expressions.

This Dafny project models the text handling around the model call. Everything
is written as pure functions over strings (`seq<char>`). The model's reply is a
parameter.

- `Text`: Python's whitespace class (`str.isspace()`, which is also what `\s`
  matches and what `strip()` removes), maximal whitespace runs, `strip()`,
  `replace('\n', ' ')` and substring containment (`in`).
- `Format`: `", ".join(...)`, decimal `str(int)` and the year range
  `f"{start}-{end}"`, each with a strict parser that accepts only what the
  writer produces. Round trips in both directions pin the exact text.
- `SeriesHeader`: `re.split(r"(?i)###?\s*Series", text)`. This is a scanner for
  the leftmost match. It resumes after each match, as `re.split` does. It is
  proved equal to the pattern's own reading, in which every backtracking choice
  is open.
- `Matching`: what the two `re.findall` calls share. Matches come in source
  order, do not overlap, and yield their captured group.
- `DashItems`: main.py's `[-*•]\s+(.*?)(?=\n[-*•]|\n\n|$)` with DOTALL, as a
  deterministic scanner. Its contract states the whole `findall` result: every
  match, their order, and that no possible match is skipped.
- `StarItems`: app.py's `\*+\s+(.*)`, in the same form.
- `Panels`: what one results column shows.
- `MainPage`: the required-field check, the values handed to the prompt, the
  header split and its case-sensitive `"Movies"`/`"Series"` fallback chain,
  cleaning and capping displayed items, and which columns each content type
  shows.
- `AppPage`: the earlier page. It shows two columns only when the header
  occurs exactly once, with every `*` item untruncated. Otherwise it shows the
  raw reply unchanged.
- `Examples`: small replies worked through by hand.

Behaviour of the code worth knowing:

- An item is the whole captured text. Neither page separates a title from a
  description.
- main.py always shows its result columns, with a notice when a list is empty.
  Only app.py falls back to showing the raw reply.
- When main.py's split fails and the reply mentions both words or neither word,
  every item goes to the movies list whatever content type was requested.
- The header needs at least two `#` characters. The match takes the last two or
  three before the word, so with `#### Series` the text before it keeps one `#`.
  A bare `Series` line does not split the reply.
- The patterns do not anchor bullets at the start of a line. A bullet character
  followed by whitespace anywhere outside an earlier item opens an item. One
  inside an item's text, as in `- a - b`, is part of that item.
- Only main.py caps a column at five items. app.py shows every item.

## Model

| member | source | states |
|---|---|---|
| MainPage.MissingFields | main.py:354-358 | "Genre" is missing iff no genre is selected and "Platform" iff no platform is. At most these two are listed, nothing else, and Genre comes before Platform when both are missing |
| MainPage.Submit | main.py:354-386 | The prompt values are built exactly when no required field is missing. Otherwise the result lists the missing fields, and their comma-joined text splits back into that list. Language, industry, mood and content type pass through unchanged. Genres and platforms are joined with `", "`, and the years are written as `start-end` |
| MainPage.WidgetFormCommaFree | main.py:334-347 | Every genre and platform the multiselects can hold is free of commas, and the year slider's start is not negative, so the prompt's texts can be read back |
| MainPage.ReadyInputRecoversLists | main.py:380-383 | For comma-free selections, the genre and platform texts handed to the prompt split back at `", "` into the selections in order |
| MainPage.ReadyInputRecoversYears | main.py:385 | For a non-negative start year, the year text handed to the prompt reads back as the selected range |
| MainPage.OptionsCommaFree | main.py:334-343 | No genre or platform option contains a comma, so joining them with ", " is unambiguous |
| Format.Join | main.py:380 | `", ".join` of an empty list is empty. A joined text begins with the first element, followed by the separator when more follow. Its length is the elements' total plus one separator between each pair |
| Format.SplitListJoin | main.py:380-383 | Joining comma-free names with `", "` loses nothing: the strict splitter, which cuts only at a comma followed by a space, gives back the same list in the same order |
| Format.JoinSplitList | main.py:380-383 | The converse: any text the strict splitter accepts is exactly its parts joined with `", "`, so the two are inverse bijections on comma-free lists |
| Format.NatToString | main.py:385 | A non-negative year is written as decimal digits with no leading zero |
| Format.DigitsRoundTrip | main.py:385 | Digits without a leading zero are exactly what `str` writes for the number they denote |
| Format.IntToString | main.py:385 | Python's `str` of an integer: a leading `-` iff the integer is negative, then digits with no leading zero and never `-0` |
| Format.IntToStringRoundTrip | main.py:385 | Python's `str` of any integer reads back as that integer under a parser that accepts only `str`'s own output |
| Format.ParseIntExact | main.py:385 | The converse: whatever text reads as an integer is exactly that integer's `str`, so leading zeros or `-0` are rejected |
| Format.YearRangeRoundTrip | main.py:385 | `f"{start}-{end}"` (YearRange) with a non-negative start year reads back as the same pair of years |
| Format.YearRangeExact | main.py:385 | The converse: whatever text reads as a pair of years is exactly `f"{start}-{end}"` for that pair, with a non-negative start |
| Text.SkipSpaces | main.py:400-403 | A greedy `\s*` (the header pattern) or `\s+` (the bullet pattern, after its first space) consumes exactly the maximal whitespace run: everything it skips is whitespace, and it stops at a non-space character or the end |
| Text.Strip | main.py:432 | `strip()` returns a slice of its input with only whitespace removed at either end, and the result has no whitespace at either end |
| Text.NewlinesToSpaces | main.py:432 | `replace('\n', ' ')` keeps the length and every other character, turns each newline into a space, and leaves no newline |
| SeriesHeader.HeaderAtIsPatternMatch | main.py:400 | The greedy scanner HeaderAt accepts a position iff some reading of `##`, an optional `#`, any whitespace and "series" in any ASCII case matches there. Every reading ends at the same index, HeaderEnd |
| SeriesHeader.FindHeader | main.py:400 | Finds the leftmost header match at or after the start position, or reports that none exists |
| SeriesHeader.SplitInTwoIff | main.py:400-402 | The split has two parts iff the header occurs once, counting only matches that do not overlap an earlier one. The two parts are then the text before the match and the text after it |
| SeriesHeader.SplitFrom | main.py:400 | `re.split` from a position: at least one part, and exactly one, the rest of the text, iff no header begins there or later |
| SeriesHeader.Split | main.py:400 | The reply splits into one part iff it has no header, and that part is the reply itself |
| DashItems.ItemEnd | main.py:403 | The lazy DOTALL group ends at the first position where the lookahead holds: a newline before a bullet, a blank line, a final newline, or the end |
| DashItems.MatchAt | main.py:403 | Where `[-*•]\s+` can begin, the pattern makes a match whose group starts after the whole whitespace run |
| DashItems.MatchesFrom | main.py:403 | `findall`: every result is a match of the pattern. Results are in source order without overlap, and every position where a match could begin lies inside one of them. Items, the list main.py gets, is the captured text of these matches |
| DashItems.NoItemsIff | main.py:403 | Items, the `findall` result, is empty iff no bullet character in the section is followed by whitespace |
| DashItems.CaptureShape | main.py:403 | One captured group is a substring of the section. It is empty or starts with a non-space character. It does not end with a newline and holds no blank line or newline-then-bullet |
| DashItems.ItemShape | main.py:403 | Each extracted item is a substring of its section. It is empty or starts with a non-space character. It never ends with a newline and contains neither `\n\n` nor a newline followed by `-`, `*` or `•` |
| MainPage.SplitSections | main.py:400-404 | With a single header, movies are exactly the items of the text before it and series exactly the items of the text after it |
| MainPage.FallbackSections | main.py:405-415 | Without a single header, series are non-empty only if the reply contains "Series" and not "Movies" (case-sensitive), and then movies are empty. Every other such reply puts all its items under movies and none under series |
| MainPage.ParseResponse | main.py:399-415 | Both lists are filled only when the series header occurs exactly once; every other reply fills at most one |
| MainPage.PartItemsFromText | main.py:403-404 | The items of any slice of the reply are substrings of the reply and have the extractor's shape |
| MainPage.ParsedItemsFromText | main.py:399-415 | Every movie and series item is a substring of the reply and has the extractor's shape, whichever branch produced it |
| MainPage.Clean | main.py:432 | A displayed item contains no newline and has no whitespace at either end |
| MainPage.CleanFixedPoints | main.py:432 | Cleaning leaves an item unchanged iff it has no surrounding whitespace and no newline |
| MainPage.CleanIdempotent | main.py:432 | Cleaning an already cleaned item changes nothing |
| MainPage.ShowFirst | main.py:430-435 | A column shows the notice iff its list is empty. Otherwise it shows the first min(5, n) items, cleaned, in their original order |
| MainPage.Render | main.py:418-491 | "Movies" shows only the movie column, "Series" only the series column, "Both" both. Each shown column is the capped, cleaned list or its "no results" notice |
| MainPage.Respond | main.py:352-491 | A submission with a missing required field gives the missing-field message. Otherwise the reply is parsed and shown for the chosen content type |
| StarItems.SkipStars | app.py:109 | A greedy `\*+` consumes exactly the maximal run of stars |
| StarItems.StarStartIsPattern | app.py:109 | `\*+\s` can match at a position iff the whole star run there is followed by whitespace. No shorter star run can match, so backtracking gains nothing |
| StarItems.MatchAt | app.py:109 | Where the pattern can begin, its group starts after the whitespace run and runs to the end of that line |
| StarItems.MatchesFrom | app.py:109 | `findall`: every result is a match. Results are in source order without overlap, and no possible match is skipped. Items, the list app.py gets, is the captured text of these matches |
| StarItems.NoItemsIff | app.py:109 | Items, the `findall` result, is empty iff no run of stars in the section is followed by whitespace |
| StarItems.NoStarNoItems | app.py:109-110 | A section without `*` yields no items, whatever `-` or `•` bullets it holds |
| StarItems.CaptureShape | app.py:109 | One captured group follows whitespace, is a newline-free substring of the section, and is empty or starts with a non-space character |
| StarItems.ItemShape | app.py:109-110 | Each item is a substring of its section without a newline that is empty or starts with a non-space character, so it is the rest of one line |
| AppPage.ShowAll | app.py:118-122 | A column shows the notice iff its list is empty. Otherwise it shows every item, unchanged and untruncated |
| AppPage.Render | app.py:106-137 | Columns appear iff the header occurs once, and they are built from the text before and after it. Otherwise the raw reply is shown unchanged |
| AppPage.ColumnItems | app.py:106-110 | With a single header, each listed movie lies in the text before the header and each listed series in the text after it. Each is newline-free and does not start with whitespace |
| AppPage.NoStarShowsNotice | app.py:109-122 | When the text before the header has no `*`, the movie column shows its notice |
| Examples.DashExample | main.py:403 | `"- A\n- B"` yields `["A", "B"]`: the first item stops where the next bullet line begins |
| Examples.DashFinalNewline | main.py:403 | `"- A\n"` yields `["A"]`: `$` matches before a final newline |
| Examples.SeriesHeaderOnce | main.py:400 | In `"- A\n## Series\n- B"` the header occurs once, at index 4, and its match ends at index 13 |
| Examples.MainExample | main.py:400-404 | `"- A\n## Series\n- B"` parses to movies `["A"]` and series `["B"]` |
| Examples.StarExample | app.py:109 | `"* A\n- B\n** C"` yields `["A", "C"]`: the hyphen line is passed over, and a run of two stars opens an item |
| Examples.FourHashes | main.py:400 | In `"#### Series"` the header matches once, at index 1, so the text before it is `"#"`: a longer run of `#` still splits the reply |
| Examples.BulletInsideItem | main.py:403 | In `"- a - b"` a match could begin at the second hyphen, yet the only item is `"a - b"`: the lazy group runs on past it |

## Left out

- Streamlit widgets, page layout, HTML and CSS (main.py:49-329 and the markup in main.py:420-491; app.py:37-86; style.py). The widgets appear only as the `Form` record and the `WidgetForm` predicate built from their option lists and slider bounds.
- The HTML around items and messages: main.py's `<li>` wrapping, app.py's `- ` markdown prefix and `st.info`/`st.warning` styling. A column is modelled as its list of item texts or its notice text.
- The model call and the prompt template's rendering (main.py:13-46 and 389-391; app.py:13-35 and 102-104). They are a network client and a foreign library. The reply is a parameter. For the same reason app.py's prompt values (app.py:92-100), which hand lists and a tuple straight to the template, are not modelled.
- Loading the API key from the environment, including main.py's hard-coded fallback key (main.py:9-10; app.py:9-10). This is configuration and I/O.
- The exception handler and the non-string reply branch (main.py:493-509). They depend on failures of the external call.
- Non-ASCII case folding under `(?i)`. Python also lets `s` match U+017F (long s) and `i` match U+0131 (dotless i). The model folds ASCII letters only.
- The missing-field message's surrounding text. `Submit` keeps only the comma-joined field names that main.py:364 puts in it.
- Format.YearRangeRoundTrip: stated only for a non-negative start year. With a negative start the first `-` is the sign. The slider keeps years within 1980-2025.
