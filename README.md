# YouTube chat assistant: tool layer and channel ingest, in Dafny

A model of the computational core of a chat assistant that answers
questions about the videos of a YouTube channel. An agent calls one of four
tools on the channel's video dataset, and the server builds that dataset
from the YouTube Data API. The model covers:

- **`executeYouTubeTool` (src/services/youtubeTools.js).** Modelled as the
  tool dispatcher and its four tools plus the unknown-tool error:
  - `generateImage` echoes its arguments back as an image request;
  - `plot_metric_vs_time` builds a chart of one numeric field against time;
  - `play_video` resolves a free-text selection to one video;
  - `compute_stats_json` summarises one numeric field.

  The helpers come with them:
  - `resolveField`, the case- and separator-insensitive field resolver;
  - `numericValues`, the parsed column;
  - `median`.
- **Pure pieces of server/index.js:**
  - `parseChannelUrl`, which tells apart the three channel URL shapes;
  - `parseDuration`, the ISO 8601 duration reader;
  - the clamp of the requested video count;
  - the paginated `do … while` loop that collects upload ids;
  - the cut to the clamped count and the split into batches of 50;
  - the `imageData` normalisation on the message store and read paths.

Modules follow the source's structure:

- **Shared models of JavaScript behaviour.**
  - `JsValues`: JSON values, truthiness, `x || fallback`.
  - `JsStrings`: `trim`, `toLowerCase` on ASCII, `includes`, `join`, `parseInt`.
  - `Sorting`: the stable `Array.prototype.sort`, as insertion sort.
- **src/services/youtubeTools.js.**
  - `Dataset`: records, `resolveField`, `numericValues`.
  - `Statistics`: the summary figures.
  - `Plot`: the chart builder.
  - `Selection`: the `play_video` resolver.
  - `YouTubeTools`: the dispatcher.
- **server/index.js.**
  - `ChannelUrl`: `parseChannelUrl`.
  - `Duration`: `parseDuration`, plus the corrected reader.
  - `Ingest`: the clamp, the collection loop and the batches.
  - `Messages`: `imageData`.

Some JavaScript conversions have no exact model here:

- `parseFloat` and `Number` applied to a string;
- `new Date(v)`;
- `String` of a number.

These are fields of an `Oracles` value passed to the members that convert. A field that
is a JSON number is its own `parseFloat`. The YouTube responses the ingest
loop reads are a parameter, the sequence `pages`.

Each loop of the source that changes state step by step is a `method` with
a `while` loop:

- the collection loop, `while more` (the `do … while`);
- the inner `for … of` over one page, with its `break`;
- the `for (i = 0; i < ids.length; i += 50)` batching.

Each method is proved against a function of its inputs:

- `CollectedIds` for the two collection loops;
- `BatchesOf` and `Flatten` for the batching.

Everything else in the core is expressions and becomes functions and lemmas.

The tool declaration of `play_video` (src/services/youtubeTools.js:49)
describes an ordinal as a word such as "first" or a digit such as "1". The
code's expression
`/^first|1(st)?$|^second|2(nd)?$|^third|3(rd)?$|^\d+$/i` binds each anchor
to its own alternative. It therefore accepts any selection that starts with
`first`, `second` or `third`, and any that ends in `1`, `2`, `3`, `1st`,
`2nd` or `3rd`. Such a selection then never reaches the title search. The
model follows the code (`Selection.LooksOrdinal`,
`Selection.FirstVideoMatchesNothing`).

## Model

| member | source | states |
|---|---|---|
| JsValues.OrElse | src/services/youtubeTools.js:107-108 | `args.x \|\| fallback` gives the argument when it is a non-empty string, and the fallback when it is missing or empty |
| JsValues.Lookup | src/services/youtubeTools.js:99 | reading an argument is defined exactly for the keys present, with their values |
| JsStrings.TrimStartRemovesLeadingSpace | src/services/youtubeTools.js:132 | trimming the start leaves a suffix of the input; everything dropped is white space, and the result starts with a non-space character or is empty |
| JsStrings.TrimEndRemovesTrailingSpace | src/services/youtubeTools.js:132 | trimming the end leaves a prefix of the input; everything dropped is white space, and the result ends with a non-space character or is empty |
| JsStrings.ToLower | src/services/youtubeTools.js:76 | lower-casing keeps the length and maps each character on its own |
| JsStrings.JoinContains | src/services/youtubeTools.js:112 | a string joined from items contains every item |
| JsStrings.DigitPrefix | server/index.js:209-211 | the digits `parseInt` reads are the longest digit prefix: all digits, followed by a non-digit or the end |
| JsStrings.ParseIntOfNatToString | server/index.js:225 | `parseInt` reads back the decimal numeral of every natural number |
| JsStrings.ParseInt | server/index.js:225 | white space alone is NaN; only a leading minus sign gives a negative number; a string of digits is read as its decimal value |
| Dataset.Get | src/services/youtubeTools.js:82 | `v[field]` is defined exactly for the record's own keys, and its value is that field's |
| Dataset.ParseFloat | src/services/youtubeTools.js:82 | `parseFloat` of `undefined` is NaN, and of a number is that number |
| Dataset.NumericValues | src/services/youtubeTools.js:81-83 | the column is empty exactly when no record's field parses; every value is the parse of some record; it is no longer than the dataset |
| Dataset.NumericIndices | src/services/youtubeTools.js:81-83 | the kept positions are increasing and are exactly the records whose field parses |
| Dataset.NumericValuesIsParsedSubsequence | src/services/youtubeTools.js:81-83 | the column pairs one-to-one, in order, with the kept positions; each value is that record's parse |
| Dataset.RemoveSeparators | src/services/youtubeTools.js:76 | the result has no white space, `_` or `-`, keeps every other character of the input, and is the input itself when it holds no separator |
| Dataset.RemoveSeparatorsAppend | src/services/youtubeTools.js:76 | removing separators distributes over concatenation |
| Dataset.NormalizeIgnoresCase | src/services/youtubeTools.js:76 | the normal form of a lower-cased name is that of the name |
| Dataset.NormalizeIgnoresSeparator | src/services/youtubeTools.js:76 | inserting a separator anywhere in a name leaves its normal form unchanged |
| Dataset.FindKey | src/services/youtubeTools.js:78 | `keys.find` returns the first key with the target normal form, or nothing when none has it |
| Dataset.ResolveField | src/services/youtubeTools.js:72-79 | an empty dataset, a falsy name or an existing key is returned unchanged; otherwise the result is the name or a key of the first record with the same normal form |
| Dataset.ResolveFieldFirstMatch | src/services/youtubeTools.js:74-78 | the resolver picks the first matching key in key order, except that an empty key counts as no match |
| Dataset.ResolveFieldNoMatch | src/services/youtubeTools.js:78 | with no key of the same normal form the name comes back unchanged |
| Dataset.TitleText | src/services/youtubeTools.js:120 | `(v.title \|\| '')` is `''` for a falsy title and the string itself for a string title; there is no text, the TypeError of `.slice` and `.toLowerCase`, exactly when the title is truthy and not a string |
| Sorting.Insert | src/services/youtubeTools.js:122 | inserting into a sorted sequence keeps it sorted and adds exactly that element |
| Sorting.SortBy | src/services/youtubeTools.js:164 | the sort result is ordered by the key and is a permutation of the input |
| Sorting.FirstArgMin | src/services/youtubeTools.js:135 | the reference position holds a least key, and every earlier position holds a strictly greater one |
| Sorting.SortByHead | src/services/youtubeTools.js:135 | stability: the head of the sorted copy is the first input element with the least key |
| Statistics.Min | src/services/youtubeTools.js:173 | `Math.min(...vals)` is a member of the values and no greater than any of them |
| Statistics.Max | src/services/youtubeTools.js:174 | `Math.max(...vals)` is a member of the values and no smaller than any of them |
| Statistics.Ascending | src/services/youtubeTools.js:164 | the sorted copy is ascending and a permutation of the values |
| Statistics.MedianBetween | src/services/youtubeTools.js:85-90 | on sorted data the median, odd or even count, lies between the first and last values |
| Statistics.Median | src/services/youtubeTools.js:85-90 | no values give 0; otherwise the median is the average of the two positions equally far from both ends: the middle value for an odd count, the two middle values for an even count |
| Statistics.SumBounds | src/services/youtubeTools.js:163 | the sum of values within bounds lies between count times each bound |
| Statistics.MeanBetween | src/services/youtubeTools.js:163 | the mean of values within bounds lies within the same bounds |
| Statistics.SquaredDeviationsNonNegative | src/services/youtubeTools.js:165 | the sum of squared deviations is never negative |
| Statistics.Mean | src/services/youtubeTools.js:163 | the mean, counted once per value, gives the sum |
| Statistics.Variance | src/services/youtubeTools.js:165 | the variance times the count is the sum of squared deviations from the mean (the population divisor), and is never negative |
| Statistics.MedianOfSortedCopyBetween | src/services/youtubeTools.js:164-171 | the median of the sorted copy lies between the minimum and the maximum |
| Statistics.SummaryBounds | src/services/youtubeTools.js:163-174 | minimum <= mean <= maximum, minimum <= median <= maximum, and the variance is not negative |
| Statistics.Summarize | src/services/youtubeTools.js:163-175 | the count is the number of values; min and max are attained and bound every value; mean and median lie between them; the variance is not negative; and the mean, median and variance are exactly `Mean`, the `Median` of the sorted copy and `Variance` of the column |
| Plot.Prefix | src/services/youtubeTools.js:120 | `slice(0, 40)` is a prefix of at most 40 characters, and the whole string when shorter |
| Plot.PointOf | src/services/youtubeTools.js:116-121 | a point carries the record's time, its parsed metric and its title cut to 40 characters; it is missing exactly when the title throws |
| Plot.Kept | src/services/youtubeTools.js:115 | every kept record is a dataset record with a non-null time and a parseable metric, and every such record is kept |
| Plot.KeptCounts | src/services/youtubeTools.js:115 | each plottable record is kept once per occurrence and every other record not at all |
| Plot.KeptAppend | src/services/youtubeTools.js:115 | the filter keeps order: filtering a concatenation concatenates the filtered parts |
| Plot.KeptSingle | src/services/youtubeTools.js:115 | a single record is kept exactly when it is plottable, so with `KeptAppend` the filter is determined on every list |
| Plot.PointsOf | src/services/youtubeTools.js:114-121 | the map gives one point per kept record, in order, and fails exactly when some kept title throws |
| Plot.BuildChart | src/services/youtubeTools.js:109-128 | error exactly when no metric parses or no time is truthy; the chart is a time-sorted permutation of the kept records' points, one per kept record, each from a plottable record with a title of at most 40 characters |
| Plot.ChartPointsFromRecords | src/services/youtubeTools.js:114-122 | every point of a reordered point list comes from a plottable record and has a title of at most 40 characters |
| Plot.ChartHasEveryPlottableRecord | src/services/youtubeTools.js:114-122 | every plottable record contributes its point to the chart |
| Selection.MostViewedIsFirstMaximum | src/services/youtubeTools.js:135 | "most viewed" yields a record of largest view count, the earliest one on a tie |
| Selection.ViewCount | src/services/youtubeTools.js:135 | a falsy `view_count` counts as 0 (`\|\| 0`), and a number counts as itself |
| Selection.MostViewed | src/services/youtubeTools.js:135 | the sorted copy has no head exactly for an empty dataset, and otherwise its head is one of the dataset's records |
| Selection.FindTitle | src/services/youtubeTools.js:143 | the search finds the first record whose lower-cased title contains the selection, reports no match when none does, and throws at the first truthy non-string title before a match (a null, false or 0 title reads as `''`) |
| Selection.FindTitleFirst | src/services/youtubeTools.js:143 | the first matching record, after none that matches or throws, is the one found |
| Selection.SelectChoosesFromDataset | src/services/youtubeTools.js:132-144 | whatever the selection, a chosen record is one of the dataset's |
| Selection.Select | src/services/youtubeTools.js:132-144 | an empty dataset gives no choice and never throws; only the title search can throw; in the title tier nothing is chosen exactly when every title misses, and a title that throws before any match makes the selection throw |
| Selection.SelectMostViewed | src/services/youtubeTools.js:132-135 | "most viewed", in any case and with surrounding white space, picks the first record of largest count; an empty dataset gives no match |
| Selection.NormalizedWord | src/services/youtubeTools.js:132 | a trimmed selection with no upper-case letter normalises to itself |
| Selection.LooksOrdinal | src/services/youtubeTools.js:136 | the empty selection is not an ordinal; every ordinal word and every numeral passes |
| Selection.OrdinalIndex | src/services/youtubeTools.js:137-140 | "first", "1", "1st" give index 0, "second", "2", "2nd" give 1, "third", "3", "3rd" give 2, and a numeral N gives N - 1 |
| Selection.OrdinalWordIsNormal | src/services/youtubeTools.js:132 | each ordinal word normalises to itself |
| Selection.OrdinalWordIsOrdinal | src/services/youtubeTools.js:134-136 | each ordinal word passes the ordinal expression and is not "most viewed" |
| Selection.OrdinalWordSelects | src/services/youtubeTools.js:136-141 | an ordinal word of rank k picks `videos[k]`, or nothing when the dataset is shorter |
| Selection.RankOrdinals | src/services/youtubeTools.js:136-141 | the three ordinal words of one rank pick the same record |
| Selection.FirstOrdinals | src/services/youtubeTools.js:136-141 | "first", "1" and "1st" all pick the first record, or nothing on an empty dataset |
| Selection.SecondOrdinals | src/services/youtubeTools.js:136-141 | "second", "2" and "2nd" all pick the second record, or nothing |
| Selection.ThirdOrdinals | src/services/youtubeTools.js:136-141 | "third", "3" and "3rd" all pick the third record, or nothing |
| Selection.NumeralIndex | src/services/youtubeTools.js:137-140 | a numeral N maps to index N - 1 |
| Selection.NumeralIsOrdinal | src/services/youtubeTools.js:136 | every numeral normalises to itself and takes the ordinal branch |
| Selection.NumeralSelectsPosition | src/services/youtubeTools.js:136-141 | a numeral N picks the N-th record; "0" and numbers past the end match nothing |
| Selection.OrdinalNeverSearchesTitles | src/services/youtubeTools.js:136-141 | a selection the ordinal expression accepts picks `videos[idx]` when its index is within the dataset, and nothing otherwise, NaN included; it never searches titles |
| Selection.FirstVideoIsOrdinal | src/services/youtubeTools.js:136 | "first video" passes the ordinal expression |
| Selection.FirstVideoHasNoIndex | src/services/youtubeTools.js:140 | `parseInt("first video")` is NaN, so no index |
| Selection.FirstVideoMatchesNothing | src/services/youtubeTools.js:136-141 | "first video" chooses nothing, even on a dataset whose only title is "first video" |
| Selection.SelectByTitle | src/services/youtubeTools.js:142-144 | any other selection picks the first record whose lower-cased title contains it |
| Selection.EmptySelectionPicksFirst | src/services/youtubeTools.js:132-143 | a missing or blank selection picks the first record when its title does not throw |
| YouTubeTools.ToolNamed | src/services/youtubeTools.js:95-179 | a known name gives the tool so named; an unknown name belongs to no tool |
| YouTubeTools.ToolNamedName | src/services/youtubeTools.js:95-179 | every tool is found under its own name: no two tools share one |
| YouTubeTools.MessageListsKeys | src/services/youtubeTools.js:112 | each "Available:" message names a given available key |
| YouTubeTools.MessageListsAllKeys | src/services/youtubeTools.js:161 | each "Available:" message names every available key |
| YouTubeTools.OrNull | src/services/youtubeTools.js:100-101 | `args.x \|\| null` is null exactly for a missing or empty argument, and the argument otherwise |
| YouTubeTools.GenerateImageTool | src/services/youtubeTools.js:96-103 | `generateImage` always returns an image request |
| YouTubeTools.GenerateImageEchoes | src/services/youtubeTools.js:96-103 | the request echoes the prompt, turns missing or empty anchors into null, and sets `_callApi` |
| YouTubeTools.PlotTool | src/services/youtubeTools.js:106-129 | the plot tool returns a chart, the no-data error or the title TypeError, and no other error |
| YouTubeTools.PlotFieldResolved | src/services/youtubeTools.js:107-108 | the plotted field is the argument or its default, or a first-record key with the same normal form |
| YouTubeTools.PlotFailureProperties | src/services/youtubeTools.js:106-113 | the plot's only error is no-data; metric and time field default to `view_count` and `published_at`; the error fires only when no metric parses or no time is truthy, and its message names every key of the first record |
| YouTubeTools.PlotChartProperties | src/services/youtubeTools.js:114-128 | a chart uses the resolved fields, is sorted by time and no longer than the dataset, and is made of points of plottable records with titles of at most 40 characters |
| YouTubeTools.VideoCardOf | src/services/youtubeTools.js:145-154 | a chosen record gives its card with title, thumbnail, url and id; no choice gives the no-match error quoting the selection; a throwing search gives the TypeError |
| YouTubeTools.PlayVideoTool | src/services/youtubeTools.js:131-155 | the case returns a card, the no-match error quoting the selection, or the title TypeError; a card carries the fields of one of the dataset's records; an empty dataset gives the no-match error |
| YouTubeTools.ComputeStatsTool | src/services/youtubeTools.js:157-176 | the stats tool returns a summary or the no-numeric-values error, and no other result |
| YouTubeTools.ComputeStatsProperties | src/services/youtubeTools.js:157-175 | error exactly when no value of the resolved field parses, and its message lists every key; otherwise the count is that of the values, min and max bound them all, mean and median lie between, and the variance is not negative |
| YouTubeTools.RunTool | src/services/youtubeTools.js:95-177 | a known tool never returns the unknown-tool error; each success kind is returned only by its own tool |
| YouTubeTools.Execute | src/services/youtubeTools.js:92-180 | the unknown-tool error comes exactly for names of no tool; an image request comes exactly from `generateImage`; a chart, card or summary comes only from its own tool |
| YouTubeTools.ExecuteDispatches | src/services/youtubeTools.js:95-177 | each tool's name runs that tool's case on the dataset |
| YouTubeTools.NonArrayIsEmpty | src/services/youtubeTools.js:93 | a `videos` that is not an array behaves as the empty dataset, for every tool |
| YouTubeTools.UnknownToolMessage | src/services/youtubeTools.js:178-179 | any other name gives the error "Unknown tool: " followed by the name |
| ChannelUrl.Run | server/index.js:176 | the greedy `[...]+` capture starts the string, is drawn from the class, and ends at a non-class character or the end |
| ChannelUrl.FirstMatch | server/index.js:176-181 | `match` returns the capture at the leftmost matching position, before which no position matches, or nothing exactly when no position matches |
| ChannelUrl.ParseChannelUrl | server/index.js:173-183 | unknown exactly when the value is null; a missing, empty or non-string url is unknown; the value is a non-empty run of its class following its prefix in the trimmed url; a later shape is tried only when the earlier ones do not match; and the result is the leftmost greedy capture of the first expression, in priority order, that matches anywhere in the trimmed url |
| ChannelUrl.MatchAtContains | server/index.js:176 | a capture at a position follows the prefix in the url |
| ChannelUrl.MatchFollowsPrefix | server/index.js:176-181 | the first capture is non-empty, drawn from the class, and follows the prefix |
| ChannelUrl.RunOfClassRun | server/index.js:176 | the capture of a string made only of class characters is the whole string |
| ChannelUrl.MatchAtStart | server/index.js:176 | a url that is the prefix followed by a class run matches at its start with that run |
| ChannelUrl.TrimUnpadded | server/index.js:175 | trimming leaves alone a string whose ends are not white space |
| ChannelUrl.NoMatchByPositions | server/index.js:176 | no match when the url lacks two occurrences of a prefix character at the distance the prefix needs |
| ChannelUrl.NoMatchWithout | server/index.js:178 | no match when the url never holds some character of the prefix |
| ChannelUrl.ChannelIdRoundTrip | server/index.js:176-177 | `youtube.com/channel/<id>` reads back as that channel id |
| ChannelUrl.HandleRoundTrip | server/index.js:176-179 | `youtube.com/@<handle>` reads back as that handle, not as a channel id |
| ChannelUrl.UsernameRoundTrip | server/index.js:176-181 | `youtube.com/user/<name>` reads back as that user name, not as a channel id or handle |
| ChannelUrl.ShapeRecognised | server/index.js:173-183 | a url in which some position starts a match of an expression is recognised as that shape or one tried before it, never as unknown |
| ChannelUrl.MatchOnlyAt | server/index.js:175-180 | when the url holds a character of the prefix at one position only, the match is the one anchored there |
| ChannelUrl.BrowserHandleRoundTrip | server/index.js:177-178 | `https://www.youtube.com/@<handle>` reads back as that handle |
| ChannelUrl.VeritasiumIsHandle | server/index.js:228 | the url the error message gives as an example, `https://www.youtube.com/@veritasium`, is the handle `veritasium` |
| Duration.IndexOf | server/index.js:208 | the leftmost occurrence of a text at or after a position, or none exactly when it occurs nowhere there |
| Duration.Component | server/index.js:208 | an optional group `(\d+)X` captures the digit run at the position when the designator follows it right after, consuming both; it captures and consumes nothing exactly when no digit run there is followed by the designator |
| Duration.NoGroupBeyondRun | server/index.js:208 | only the longest digit run at a position can be followed by a non-digit designator, so backtracking finds no other group |
| Duration.ParseDuration | server/index.js:206-213 | a missing or empty duration is 0, and so is one that holds no "PT"; `ParseDurationFormat` gives the value of every canonical `PT[nH][nM][nS]` text |
| Duration.ComponentOfDigits | server/index.js:208-211 | digits followed by their designator are captured as that group |
| Duration.TimePartOfFormat | server/index.js:208-212 | the hours, minutes and seconds written out by `String`, each present or left out, are read back, an absent one as 0 |
| Duration.MinutesSecondsOfFormat | server/index.js:208-211 | the minutes and seconds written out, each present or left out, are read back, an absent one as 0 |
| Duration.NoGroupAfterPart | server/index.js:208 | a written component leaves no group for a different designator, so an absent component captures nothing |
| Duration.ComponentOfPart | server/index.js:208-211 | a group reads back a written component, or 0 for an absent one, and reading continues right after it |
| Duration.ComponentOfNumeral | server/index.js:208-211 | the numeral of n followed by its designator is captured and reads as n |
| Duration.IndexOfLeading | server/index.js:208 | a text at the start is found at position 0 |
| Duration.ParseDurationFormat | server/index.js:206-213 | every `PT` text with any of its hours, minutes and seconds present reads as h * 3600 + m * 60 + s, each absent component counted as 0 |
| Duration.MinutesAndSecondsRead | server/index.js:206-213 | "PT4M13S" reads as 253 seconds |
| Duration.SecondsRead | server/index.js:206-213 | "PT45S" reads as 45 seconds |
| Duration.HoursRead | server/index.js:206-213 | "PT1H" reads as 3600 seconds |
| Duration.NoPTAt | server/index.js:208 | "PT" starts only where a `P` is followed by a `T` |
| Duration.DayDurationReadsZero | server/index.js:208 | as written, "P1DT2H" reads as 0 seconds |
| Duration.DayMatchAt | server/index.js:208 | a match of the corrected expression at a position ends within the text |
| Duration.FindDayMatch | server/index.js:208 | the corrected expression's leftmost match, or none exactly when no position matches |
| Duration.ParseDurationWithDays | server/index.js:206-213 | the corrected reader gives 0 for a missing or empty text and for one its expression does not match |
| Duration.DayMatchOfFormatWithDays | server/index.js:208 | a `P#DT…` text matches the corrected expression at its start with that day count |
| Duration.ParseDurationWithDaysFormat | server/index.js:206-213 | the corrected reader reads back every `P#DT…` text as d * 86400 + h * 3600 + m * 60 + s, each absent time component counted as 0 |
| Duration.DayMatchOfFormat | server/index.js:208 | the corrected expression reads every `PT` text as a match with no day group |
| Duration.ParseDurationWithDaysOfFormat | server/index.js:206-213 | the corrected reader reads every `PT` text as h * 3600 + m * 60 + s, absent components as 0 |
| Duration.ParseDurationWithDaysAgrees | server/index.js:206-213 | on every `PT` text, whichever components it has, the corrected reader agrees with the original |
| Duration.DayDurationCorrected | server/index.js:206-213 | the corrected reader gives "P1DT2H" its 93600 seconds |
| Ingest.MaxVideos | server/index.js:224-225 | the count is in [1, 100]; missing, NaN or 0 gives 10; a negative count gives 1; 1 to 100 is kept; above 100 gives 100 |
| Ingest.ParseMaxVideos | server/index.js:224-225 | a missing `maxVideos` takes the default 10, and a decimal string is read as its value |
| Ingest.MaxVideosDefault | server/index.js:224 | a request without `maxVideos` ingests ten videos |
| Ingest.MaxVideosOfNumeral | server/index.js:225 | a decimal string count is taken as it is in [1, 100], clamped to 100 above, and 0 gives 10 |
| Ingest.MaxVideosOfNonNumbers | server/index.js:225 | `null`, booleans, objects and the empty array give the default 10 |
| Ingest.Fetch | server/index.js:247-250 | a request past the given responses returns an empty page without a continuation token |
| Ingest.UsableIds | server/index.js:251-253 | the ids a page contributes are no more than its items |
| Ingest.LastPage | server/index.js:256-257 | the last page requested, when the count is never reached, is the first without a continuation token |
| Ingest.Take | server/index.js:258 | `slice(0, n)` is a prefix of at most n elements, and the whole sequence when it is no longer |
| Ingest.CollectFromPage | server/index.js:251-255 | the loop over one page appends the page's usable ids in order and stops once the count is reached |
| Ingest.CollectVideoIds | server/index.js:244-257 | the `do … while` loop collects the usable ids of every page up to the first without a token, cut at the count, and holds no more than the count |
| Ingest.CollectedIds | server/index.js:244-258 | at most the count of ids, in page order, from the pages up to the first without a token; short of the count, every usable id of those pages |
| Ingest.SliceAfterCollectIsNoOp | server/index.js:258 | the `slice(0, max)` after the loop changes nothing |
| Ingest.Batches | server/index.js:260-261 | batch j is `ids.slice(50 * j, 50 * j + 50)`; there are ceil(n / 50) batches; together, in order, they are the ids |
| Ingest.BatchSizes | server/index.js:260-261 | every batch holds 1 to 50 ids, and all but the last hold 50 |
| Ingest.PlanVideoRequests | server/index.js:224-261 | every collected id is requested exactly once, in order, in batches of 1 to 50, and no more ids than the clamped count are requested |
| Messages.StoredImageData | server/index.js:364-366 | a falsy `imageData` adds no property; an array is stored as it is; any other value is stored as a one-element array |
| Messages.StoredField | server/index.js:364-366 | a stored `imageData` is always an array |
| Messages.ReadImageArray | server/index.js:389-393 | a falsy stored value reads as `[]`, an array as itself, anything else as a one-element array |
| Messages.Property | server/index.js:400 | `img.data` is defined exactly for an object holding that property |
| Messages.ImagesOf | server/index.js:400 | the map fails exactly when an element is `null`, and otherwise gives each element's `data` and `mimeType` in order |
| Messages.ReadImages | server/index.js:399-401 | `images` is undefined exactly for an empty array, throws exactly when an element is `null`, and is otherwise one entry per element |
| Messages.ReadOfStored | server/index.js:364-393 | reading back a stored value gives the stored array, and an omitted value gives `[]` |
| Messages.StoredImageDataIdempotent | server/index.js:364-366 | normalising an already stored array again changes nothing |
| Messages.SingleImageReadsBack | server/index.js:364-401 | a single image object sent without an array reads back as one image with its own `data` and `mimeType` |
| Messages.ImagesUndefinedExactly | server/index.js:364-401 | a message reads back with `images` undefined exactly when its `imageData` was falsy or the empty array |

## Left out

- The tool declarations `YOUTUBE_TOOL_DECLARATIONS` (src/services/youtubeTools.js:6-70) are static data and nothing computes with them. They are not modelled beyond the four tool names.
- Floating point is not modelled. Values are exact reals, so the `toFixed(4)` rounding of mean, median and std is left out.
- Statistics.Summarize: reports the population variance instead of `std`, because the square root is not modelled. Every figure is unrounded.
- JavaScript's Unicode case mapping is not modelled. `toLowerCase` maps ASCII letters only.
- `trim` and `\s` follow the ECMAScript white-space set.
- `String.prototype.slice` counts characters, not UTF-16 code units.
- The exact semantics of `parseFloat` and `Number` on strings, `new Date(...)` and `String` of a number are oracles.
  - The plot's sort uses the oracle's time value for every point. The invalid date, whose subtraction gives NaN, is not modelled.
  - A string view count that `Number` makes NaN counts as 0 in "most viewed". The source's comparator would return NaN for it, which `sort` reads as "equal"; the model does not follow that.
- Plot.PointOf: the locale date label `toLocaleDateString()` (src/services/youtubeTools.js:118) is left out of a point, since it depends on the runtime's locale.
- Tool arguments are strings or missing, as their declarations say. A non-string argument, such as a number passed as `metric`, is not modelled.
- Dataset records hold primitive fields (string, number, boolean, null). Nested objects in a record and non-object array elements are not modelled.
- Properties the source could read through the prototype chain, such as `v["constructor"]`, are not modelled.
- The YouTube Data API requests, `fetch`, the API key checks and channel resolution (`resolveChannelId`) are left out. So are the channel and playlist lookups and error responses (server/index.js:215-243) and the per-video record building from the `videos` responses (server/index.js:262-282, apart from `parseDuration`).
- The loop's page responses are a parameter. The `maxResults` page size requested (server/index.js:248) is therefore not modelled.
- A response without `items` is a page with no items. The model reads each `videoId` as a string or as absent, and skips an absent or empty one, as `if (vid)` does. A `videoId` of another JSON type is not modelled; `if (vid)` would keep a truthy one, such as a number.
- Ingest.CollectVideoIds: requires a count of at least 1. That is what the clamp of server/index.js:225 guarantees, and `PlanVideoRequests` calls it only with the clamped count.
- Storing messages in MongoDB, sessions, users and authentication are left out. Of the message endpoints only `imageData` is modelled; `charts` and `toolCalls` are not.
- The React components, the Express routing and HTTP status codes are left out.
- Concurrency and `async`/`await` ordering are left out.

## Findings

| source | as written | input that shows it | evidently intended | confidence | as-written member | corrected member |
|---|---|---|---|---|---|---|
| server/index.js:208 | `/PT(?:(\d+)H)?(?:(\d+)M)?(?:(\d+)S)?/` requires the letters `PT` next to each other, so a duration with a day part never matches and reads as 0 seconds | `"P1DT2H"` (1 day 2 hours, as the API reports videos of a day or longer) gives 0 | `/P(?:(\d+)D)?T(?:(\d+)H)?(?:(\d+)M)?(?:(\d+)S)?/`, with days counted as 86400 seconds | high; not executed | Duration.ParseDuration, Duration.DayDurationReadsZero | Duration.ParseDurationWithDays, Duration.ParseDurationWithDaysFormat, Duration.ParseDurationWithDaysAgrees, Duration.DayDurationCorrected |
