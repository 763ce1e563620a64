# News dashboard pipeline, modelled in Dafny

Two Streamlit dashboards collect financial news from RSS feeds. The credit-card dashboard
(`dashboard-cartao.py`) only aggregates entries into a table. The payment-methods dashboard
(`dashboard-metodos-pagamento.py`) also tags each row with its feed's name. It parses the
dates, filters by source, date range and keywords, labels each title's sentiment, sorts newest
first, shows the top thirty and counts news per day, month or year.

This project models that data path as pure functions over sequences of immutable records:

- `wrappers.dfy`: `Option`, for optional entry fields and for dates that do not parse (NaT).
- `seqs.dfy`: order-preserving filtering (a boolean mask) and concatenation, with subsequence facts.
- `text.dfy`: `str.split(",")`, `str.strip()`, `str.lower()` and literal substring search.
- `feeds.dfy`: both variants of `fetch_news_from_feeds` (placeholders, tagging, order).
- `dates.dfy`: parsed timestamps, their order, midnight of a picked day, day/month/year periods.
- `sentiment.dfy`: the three-way threshold of `analyze_sentiment_vader`.
- `pipeline.dfy`: lines 119-156 of `main`: parse, mask, keyword filter, label, sort, head.
- `distribution.dfy`: the counting in `display_distribution`: drop NaT, count rows per period.

Foreign behaviour enters as parameters:

- `fetch: string -> seq<Entry>` stands for `feedparser.parse(url).entries`.
- `parse: string -> Option<Stamp>` stands for `pd.to_datetime(.., errors='coerce')`; `None` is NaT.
- `score: string -> real` stands for the VADER compound score.

Where the dashboard's labels suggest otherwise, the model follows the code:

- A row whose date does not parse is kept in the table with NaT. Both date comparisons are then false, so the mask always drops it.
- The keyword filter is skipped only when the typed text is empty. A non-empty text that yields an empty keyword (`"a,"`, `"  "`) matches every row.
- The credit-card variant adds no `source` column.
- No fetch failure is signalled. Whatever the feed library returns for an address is used.
- When no feed returns any entry, the aggregated table has no columns and `main` stops with a `KeyError` at `news_data["date"]`. `Pipeline.Dashboard` then returns `None`.
- The date bounds are a parameter of the composition: `AsWritten` compares with midnight of each picked day, as the code does, and `Intended` keeps every row dated within the picked days (see Findings).

## Model

| member | source | states |
|---|---|---|
| Feeds.ToArticle | dashboard-cartao.py:22-27 | each present field is copied unchanged, `published` becoming `date`; each missing field becomes its fixed placeholder ("Sem título", "Data desconhecida", "Sem resumo", "Sem link") |
| Feeds.ToArticleFields | dashboard-cartao.py:23-26 | an entry with all four fields is recovered exactly from its article |
| Feeds.FetchArticles | dashboard-cartao.py:17-28 | the table has one row per entry over all addresses: its length is the total entry count |
| Feeds.FetchArticlesOrder | dashboard-cartao.py:19-27 | entry j of address i is row (entries of earlier addresses) + j: address order first, then entry order |
| Feeds.FetchNews | dashboard-metodos-pagamento.py:20-32 | one row per entry of every feed, and every row's `source` is the name of a configured feed |
| Feeds.FetchNewsOrder | dashboard-metodos-pagamento.py:22-31 | entry j of feed i is row (entries of earlier feeds) + j and is tagged with feed i's name |
| Feeds.TaggedMatchesUntagged | dashboard-metodos-pagamento.py:25-30 | with the tag dropped, the payment-methods table equals the credit-card table over the same addresses |
| Seqs.Filter | dashboard-metodos-pagamento.py:137-141 | a boolean mask keeps an order-preserving subsequence holding exactly the satisfying rows, each as often as in the input |
| Seqs.FilterFilter | dashboard-metodos-pagamento.py:137-149 | masking by one predicate and then by another equals masking once by their conjunction |
| Seqs.FilterSameAs | dashboard-metodos-pagamento.py:137-141 | two masks whose predicates agree on every row select the same rows |
| Seqs.Flatten | dashboard-metodos-pagamento.py:21-31 | appending the rows of each feed in turn gives a table as long as all feeds together |
| Seqs.FlattenAt | dashboard-metodos-pagamento.py:22-25 | inner element j of list i lands at the offset of list i plus j |
| Seqs.FlattenMember | dashboard-metodos-pagamento.py:22-25 | a value is in the concatenation iff it is an element of one of the lists |
| Sentiment.Classify | dashboard-metodos-pagamento.py:38-43 | "Positivo" iff score > 0.05, "Negativo" iff score < -0.05, "Neutro" iff -0.05 <= score <= 0.05; exactly one label |
| Sentiment.ClassifyMonotone | dashboard-metodos-pagamento.py:38-43 | a higher compound score never yields a more negative label |
| Sentiment.NamesDistinct | dashboard-metodos-pagamento.py:39-43 | the three returned strings are distinct, so the label is determined by its text |
| Dates.StampLeTotalOrder | dashboard-metodos-pagamento.py:139-140 | the timestamp comparison is a total order (reflexive, total, antisymmetric, transitive) |
| Dates.Midnight | dashboard-metodos-pagamento.py:130-131 | a picked day becomes the earliest timestamp of that day |
| Dates.PeriodOf | dashboard-metodos-pagamento.py:59-61 | each timestamp has one period of the granularity asked for |
| Dates.SamePeriod | dashboard-metodos-pagamento.py:59-61 | two timestamps share a day, month or year bucket iff they agree on date, on year and month, or on year |
| Dates.PeriodsNest | dashboard-metodos-pagamento.py:59-61 | the same day implies the same month, and the same month implies the same year |
| Pipeline.WithParsedDates | dashboard-metodos-pagamento.py:134 | the `date_parsed` column holds the parser's result for each row's `date`, rows unchanged and in order |
| Pipeline.Select | dashboard-metodos-pagamento.py:137-141 | keeps, in order, exactly the rows of a selected source whose parsed date passes the bounds, each duplicate as often as in the input; `AsWritten`: midnight(start) <= date <= midnight(end), `Intended`: the parsed day is in [start, end] |
| Pipeline.InRangeAsWrittenVsIntended | dashboard-metodos-pagamento.py:126-140 | the midnight bound implies the day bound; they differ exactly on end-day timestamps after 00:00 |
| Pipeline.EndDayNewsDropped | dashboard-metodos-pagamento.py:126-140 | news at noon on the end day passes the intended bound but not the written one |
| Pipeline.SelectNoSources | dashboard-metodos-pagamento.py:137-138 | an empty source selection yields an empty table under either reading of the bounds |
| Pipeline.UnparsedNeverSelected | dashboard-metodos-pagamento.py:134-140 | a row whose date is NaT never survives the date mask |
| Pipeline.AsWrittenWithinIntended | dashboard-metodos-pagamento.py:137-141 | the mask as written keeps a subsequence of what the intended mask keeps |
| Pipeline.Keywords | dashboard-metodos-pagamento.py:145 | one keyword per comma-separated piece, in order, each the piece stripped and lower-cased; none contains a comma |
| Pipeline.KeywordsNormalised | dashboard-metodos-pagamento.py:145 | every keyword is already stripped and already lower-case |
| Pipeline.KeywordFilter | dashboard-metodos-pagamento.py:144-149 | empty text: the table passes unchanged; otherwise an order-preserving subsequence holding exactly the rows satisfying `Pipeline.Matches`: some keyword occurs in the lower-cased title or summary, each duplicate as often as in the input |
| Pipeline.EmptyKeywordKeepsAll | dashboard-metodos-pagamento.py:145-149 | if some piece strips to the empty keyword, every row is kept |
| Pipeline.TrailingCommaKeywords | dashboard-metodos-pagamento.py:145 | the text "a," yields the keywords "a" and "" |
| Pipeline.Annotate | dashboard-metodos-pagamento.py:152 | each row gets the label of its title's score; item, date and order are unchanged |
| Pipeline.AnnotateCount | dashboard-metodos-pagamento.py:152 | on unlabelled rows, each labelled row occurs exactly as often as the row it came from |
| Pipeline.Insert | dashboard-metodos-pagamento.py:153 | inserting one row into a newest-first table keeps it newest-first and adds exactly that row |
| Pipeline.SortNewestFirst | dashboard-metodos-pagamento.py:153 | the sorted table is a permutation of its input, newest first, NaT last |
| Pipeline.SortedDatesNonIncreasing | dashboard-metodos-pagamento.py:153 | on NaT-free rows the parsed dates do not increase down the sorted table |
| Pipeline.Head | dashboard-metodos-pagamento.py:156 | `head(30)` is the prefix of length min(30, n) |
| Pipeline.HeadIsNewest | dashboard-metodos-pagamento.py:153-156 | in a newest-first table every head row is at least as recent as every row left out |
| Pipeline.MaskThenKeywords | dashboard-metodos-pagamento.py:137-149 | the source/date mask followed by the keyword step equals one mask by the combined condition `Pipeline.Passes` |
| Pipeline.LabelledRows | dashboard-metodos-pagamento.py:119-152 | every labelled row comes from a configured and selected source, keeps its parsed date, passes the chosen bounds, matches the keywords and carries its title's label |
| Pipeline.Dashboard | dashboard-metodos-pagamento.py:119-156 | no result (the `KeyError` at line 120) exactly when no feed returned an entry; otherwise the displayed table is newest first, every row satisfies all filters under the chosen bounds and carries its label, and `top_news` is its first min(30, n) rows |
| Pipeline.DashboardComplete | dashboard-metodos-pagamento.py:119-153 | every aggregated row passing the source, date (chosen bounds) and keyword filters is displayed with its title's label exactly as often as it was aggregated, a failing row not at all, and the table is as long as one mask by `Pipeline.Passes` leaves: nothing passing every filter is lost |
| Pipeline.EndDayNewsHidden | dashboard-metodos-pagamento.py:126-153 | a passing row dated on the end day after 00:00 is displayed under the intended bounds and hidden by the code as written |
| Text.Strip | dashboard-metodos-pagamento.py:145 | `strip()` returns a contiguous piece with no whitespace at either end, and only whitespace is cut away |
| Text.StripIdempotent | dashboard-metodos-pagamento.py:145 | stripping twice is stripping once |
| Text.LowerIdempotent | dashboard-metodos-pagamento.py:145 | `Text.Lower` (`str.lower()`, character by character) leaves no upper-case letter and is idempotent |
| Text.Split | dashboard-metodos-pagamento.py:145 | `split(",")` gives at least one piece, no piece holds a comma, and joining with commas gives the text back |
| Text.SplitJoin | dashboard-metodos-pagamento.py:145 | splitting a comma-join of comma-free pieces gives those pieces back |
| Text.Contains | dashboard-metodos-pagamento.py:147-148 | true iff the keyword occurs at some position of the text |
| Distribution.Bump | dashboard-metodos-pagamento.py:68 | one more row in a period grows that bar by one (or adds it) and leaves the other bars alone |
| Distribution.Tally | dashboard-metodos-pagamento.py:68 | `value_counts`: one bar per distinct period, each as tall as its occurrences, heights summing to the row count |
| Distribution.DatedPeriods | dashboard-metodos-pagamento.py:56-61 | after `dropna` the period column has exactly one entry per row whose date parses |
| Distribution.PeriodCount | dashboard-metodos-pagamento.py:56-68 | a period occurs in that column as often as there are rows dated in it |
| Distribution.Distribution | dashboard-metodos-pagamento.py:55-82 | NaT rows dropped; each period's bar counts the rows dated in it; no period twice; bars sum to the rows with a parsed date |
| Distribution.OneBarPerRow | dashboard-metodos-pagamento.py:56-61 | a row with a parsed date lands in exactly one bar, its own period's; a NaT row lands in none |
| Distribution.DashboardFullyCounted | dashboard-metodos-pagamento.py:165 | when `main` gets that far, charting the displayed table drops no row: the bars add up to the number of rows shown, which `Pipeline.DashboardComplete` equates with the aggregated rows passing every filter |

## Findings

| source | as written | input that shows it | evidently intended | confidence | as-written member | corrected member |
|---|---|---|---|---|---|---|
| dashboard-metodos-pagamento.py:126-140 | the end date from the picker becomes midnight of that day, and rows need `date_parsed <= end_date` | a row dated 2024-10-07 12:00 with end date 2024-10-07 (the default, today) is dropped | every row dated on the end day is kept | not executed | Pipeline.EndDayNewsDropped, Pipeline.EndDayNewsHidden | Pipeline.InRangeAsWrittenVsIntended, Pipeline.DashboardComplete |

`Pipeline.Select`, `Pipeline.Dashboard` and the lemmas about them take the reading of the bounds as a parameter: `AsWritten` is the code, `Intended` the correction. Every contract about them holds for both readings.

## Left out

- Network fetching: `feedparser.parse` is foreign I/O. Its entries are the parameter `fetch`, reduced to the four fields read.
- Date parsing: the rules of `pd.to_datetime` are foreign. They are the parameter `parse`, assumed to yield only real calendar days and times below 86400 seconds; nothing in the model enforces this, and stamps outside it (25:00, month 13) are ordered field by field. Times are whole seconds where pandas keeps nanoseconds. Feeds with time-zone-aware dates make the comparison with the naive picked dates raise in pandas; the model compares as if both were naive.
- Sentiment scoring: VADER's floating-point scoring is foreign. The compound score is the parameter `score`, read as the decimal the float prints as (VADER rounds it to four places), so a compound of 0.05 or -0.05 is neutral as in Python; only the thresholds are modelled.
- Pipeline.KeywordFilter: `str.contains` treats the joined keywords as a regular expression. The model uses literal substring search, which agrees only for keywords without regex metacharacters.
- Text.LowerIdempotent: `str.lower()` is modelled for Basic Latin and Latin-1 letters only. Other Unicode case mappings are not modelled.
- Pipeline.SortNewestFirst: pandas' default sort is not stable, so the order of rows with equal dates is unspecified. The model fixes one order, and its contract promises only a permutation with dates non-increasing and NaT last.
- Distribution.DashboardFullyCounted: assumes the date parser is a function of each row's text alone. Since pandas 2.0, `pd.to_datetime` infers one format from the first non-null value of the column, and `display_distribution` re-parses a different row set (newest first) at line 55, so a row that parsed at line 134 can become NaT there and go uncounted.
- Distribution.Distribution: the order of the bars (`sort_index`) and the plotting are presentation and not modelled.
- Presentation: Streamlit widgets, tabs, `display_news`, the charts, the empty-table message and `generate_wordcloud` are not modelled. The word cloud's keyword filter is the same as the modelled one.
- `display_sentiment_analysis` is called by `main` but not defined in the file, so it is not part of this model.
- The refresh button of the credit-card dashboard runs the same fetch on both branches.
- In-place DataFrame mutation and copy warnings have no counterpart in a functional model.
