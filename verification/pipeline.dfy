/**
 The data path of the payment-methods dashboard's `main`: aggregate, parse
 dates, filter by source and date, filter by keywords, label sentiment, sort
 newest first, keep the top thirty.
 */
module Pipeline {
  import opened Wrappers
  import opened Seqs
  import opened Text
  import opened Feeds
  import opened Dates
  import opened Sentiment

  /** A table row: the aggregated item, its `date_parsed` column, and its `sentiment` column once assigned. */
  datatype Row = Row(item: NewsItem, parsed: Option<Stamp>, sentiment: Option<Label>)

  /** The `date_parsed` column: every row's `date` text through the date parser (`None` is NaT). */
  function WithParsedDates(items: seq<NewsItem>, parse: string -> Option<Stamp>): (r: seq<Row>)
    ensures |r| == |items|
    ensures forall i :: 0 <= i < |items| ==>
              r[i].item == items[i] && r[i].parsed == parse(items[i].article.date) && r[i].sentiment.None?
  {
    seq(|items|, i requires 0 <= i < |items| => Row(items[i], parse(items[i].article.date), None))
  }

  // ---------------------------------------------------------------- source and date

  /**
   The date bounds exactly as the dashboard applies them: each picked day is
   turned into its midnight and compared with `>=` and `<=`. A NaT date fails
   both comparisons.
   */
  predicate InRangeAsWritten(t: Option<Stamp>, start: Date, end: Date)
  {
    t.Some? && StampLe(Midnight(start), t.value) && StampLe(t.value, Midnight(end))
  }

  /** The date bounds as evidently intended: the parsed day lies between the two picked days, both included. */
  predicate InRange(t: Option<Stamp>, start: Date, end: Date)
  {
    t.Some? && DateLe(start, t.value.date) && DateLe(t.value.date, end)
  }

  /**
   The two bounds differ only on the last day: the midnight bound rejects
   every timestamp of the end day after 00:00, and nothing else.
   */
  lemma InRangeAsWrittenVsIntended(t: Option<Stamp>, start: Date, end: Date)
    ensures InRangeAsWritten(t, start, end) ==> InRange(t, start, end)
    ensures InRange(t, start, end) && !InRangeAsWritten(t, start, end)
            <==> InRange(t, start, end) && t.value.date == end && t.value.time > 0
  {
  }

  /** A concrete witness: news published at noon on the end day is kept as intended but dropped as written. */
  lemma EndDayNewsDropped()
    ensures var day := Date(2024, 10, 7);
            var noon := Some(Stamp(day, 12 * 3600));
            InRange(noon, Date(2023, 1, 1), day) && !InRangeAsWritten(noon, Date(2023, 1, 1), day)
  {
  }

  /**
   Which reading of the date bounds a composition applies: the midnight bounds
   of the code as written, or the whole-day bounds evidently intended.
   */
  datatype Bounds = AsWritten | Intended

  predicate InWindow(b: Bounds, t: Option<Stamp>, start: Date, end: Date)
  {
    match b
    case AsWritten => InRangeAsWritten(t, start, end)
    case Intended => InRange(t, start, end)
  }

  function Keep(sources: set<string>, start: Date, end: Date, b: Bounds): Row -> bool
  {
    (x: Row) => x.item.source in sources && InWindow(b, x.parsed, start, end)
  }

  /**
   The source/date mask: an order-preserving subsequence holding exactly the
   rows from a selected source whose parsed date passes the bounds, each as
   often as in the input.
   */
  function Select(rows: seq<Row>, sources: set<string>, start: Date, end: Date, b: Bounds): (r: seq<Row>)
    ensures IsSubseq(r, rows)
    ensures forall i :: 0 <= i < |r| ==>
              r[i].item.source in sources && InWindow(b, r[i].parsed, start, end)
    ensures forall x :: multiset(r)[x] ==
              if x.item.source in sources && InWindow(b, x.parsed, start, end) then multiset(rows)[x] else 0
    ensures forall x :: x in r <==>
              x in rows && x.item.source in sources && InWindow(b, x.parsed, start, end)
  {
    var r := Filter(rows, Keep(sources, start, end, b));
    forall x
      ensures x in r <==> x in rows && x.item.source in sources && InWindow(b, x.parsed, start, end)
    {
      FilterMember(rows, Keep(sources, start, end, b), x);
    }
    r
  }

  /** Selecting no source selects no row, whatever the dates. */
  lemma SelectNoSources(rows: seq<Row>, start: Date, end: Date, b: Bounds)
    ensures Select(rows, {}, start, end, b) == []
  {
  }

  /** A row whose date did not parse never survives either reading of the date mask. */
  lemma UnparsedNeverSelected(rows: seq<Row>, sources: set<string>, start: Date, end: Date, b: Bounds, x: Row)
    requires x.parsed.None?
    ensures x !in Select(rows, sources, start, end, b)
  {
  }

  /** The mask as written keeps a subsequence of what the intended mask keeps. */
  lemma AsWrittenWithinIntended(rows: seq<Row>, sources: set<string>, start: Date, end: Date)
    ensures IsSubseq(Select(rows, sources, start, end, AsWritten), Select(rows, sources, start, end, Intended))
  {
    var written := Keep(sources, start, end, AsWritten);
    var intended := Keep(sources, start, end, Intended);
    var both := (x: Row) => intended(x) && written(x);
    forall x: Row
      ensures written(x) == both(x)
    {
      InRangeAsWrittenVsIntended(x.parsed, start, end);
    }
    FilterFilter(rows, intended, written, both);
    FilterSameAs(rows, written, both);
  }

  // ---------------------------------------------------------------- keywords

  /** The keyword list: the text split on commas, each piece stripped and lower-cased. */
  function Keywords(text: string): (ks: seq<string>)
    ensures |ks| == |Split(text, ',')|
    ensures forall i :: 0 <= i < |ks| ==> ks[i] == Lower(Strip(Split(text, ',')[i]))
    ensures forall i :: 0 <= i < |ks| ==> ',' !in ks[i]
  {
    var pieces := Split(text, ',');
    var ks := seq(|pieces|, i requires 0 <= i < |pieces| => Lower(Strip(pieces[i])));
    forall i | 0 <= i < |ks|
      ensures ',' !in ks[i]
    {
      CommaFree(pieces[i]);
    }
    ks
  }

  /** A comma-free piece stays comma-free once stripped and lower-cased. */
  lemma CommaFree(p: string)
    requires ',' !in p
    ensures ',' !in Lower(Strip(p))
  {
  }

  /** Every keyword is already stripped and lower-case. */
  lemma KeywordsNormalised(text: string, i: nat)
    requires i < |Keywords(text)|
    ensures Strip(Keywords(text)[i]) == Keywords(text)[i]
    ensures Lower(Keywords(text)[i]) == Keywords(text)[i]
  {
    var s := Strip(Split(text, ',')[i]);
    LowerIdempotent(s);
    StripIdempotent(Split(text, ',')[i]);
    LowerKeepsStripped(s);
  }

  /** Lower-casing a stripped text leaves it stripped. */
  lemma LowerKeepsStripped(s: string)
    requires Strip(s) == s
    ensures Strip(Lower(s)) == Lower(s)
  {
    var l := Lower(s);
    if |s| > 0 {
      LowerCharSpec(s[0]);
      LowerCharSpec(s[|s| - 1]);
      assert !IsSpace(s[0]) && !IsSpace(s[|s| - 1]);
      assert LeadingSpace(l) == 0;
      assert l[0..] == l;
      assert TrailingSpace(l) == 0;
      assert l[0..|l|] == l;
    }
  }

  /** A row matches when some keyword occurs in its lower-cased title or its lower-cased summary. */
  predicate Matches(x: Row, ks: seq<string>)
  {
    exists k :: k in ks && (Contains(Lower(x.item.article.title), k) || Contains(Lower(x.item.article.summary), k))
  }

  function MatchesAny(ks: seq<string>): Row -> bool
  {
    (x: Row) => Matches(x, ks)
  }

  /**
   The keyword step: an empty text leaves the table as it is; otherwise the
   rows kept, in order, are exactly those matching some keyword, each as
   often as in the input.
   */
  function KeywordFilter(rows: seq<Row>, text: string): (r: seq<Row>)
    ensures text == "" ==> r == rows
    ensures IsSubseq(r, rows)
    ensures text != "" ==>
              forall x :: multiset(r)[x] == if Matches(x, Keywords(text)) then multiset(rows)[x] else 0
    ensures text != "" ==> forall x :: x in r <==> x in rows && Matches(x, Keywords(text))
  {
    if text == "" then
      SubseqRefl(rows);
      rows
    else
      var r := Filter(rows, MatchesAny(Keywords(text)));
      forall x
        ensures x in r <==> x in rows && Matches(x, Keywords(text))
      {
        FilterMember(rows, MatchesAny(Keywords(text)), x);
      }
      r
  }

  /** An empty keyword (from text such as "a," or "  ") matches every row, so nothing is dropped. */
  lemma EmptyKeywordKeepsAll(rows: seq<Row>, text: string)
    requires "" in Keywords(text)
    ensures KeywordFilter(rows, text) == rows
  {
    if text != "" {
      forall i | 0 <= i < |rows|
        ensures MatchesAny(Keywords(text))(rows[i])
      {
        ContainsEmpty(Lower(rows[i].item.article.title));
      }
      FilterAll(rows, MatchesAny(Keywords(text)));
    }
  }

  /** The text "a," yields the keywords "a" and "", so it filters nothing. */
  lemma TrailingCommaKeywords()
    ensures Keywords("a,") == ["a", ""]
  {
    assert Split(",", ',') == ["", ""] by {
      assert Split("", ',') == [""];
      assert ","[1..] == "";
    }
    assert "a,"[1..] == ",";
    assert "a,"[0] == 'a';
    assert ['a'] + "" == "a";
    assert Split("a,", ',') == [['a'] + ""] + ["", ""][1..];
    assert Split("a,", ',') == ["a", ""];
    assert LeadingSpace("a") == 0;
    assert TrailingSpace("a") == 0;
    assert "a"[0..1] == "a";
    assert Strip("a") == "a";
    assert Strip("") == "";
    assert Lower("a") == "a";
  }

  // ---------------------------------------------------------------- sentiment

  /** A row with its `sentiment` set from its title's score. */
  function WithLabel(x: Row, score: string -> real): Row
  {
    x.(sentiment := Some(Classify(score(x.item.article.title))))
  }

  /** The `sentiment` column: each row labelled from its title's score; nothing else changes. */
  function Annotate(rows: seq<Row>, score: string -> real): (r: seq<Row>)
    ensures |r| == |rows|
    ensures forall i :: 0 <= i < |rows| ==>
              r[i].item == rows[i].item && r[i].parsed == rows[i].parsed
              && r[i].sentiment == Some(Classify(score(rows[i].item.article.title)))
  {
    seq(|rows|, i requires 0 <= i < |rows| => WithLabel(rows[i], score))
  }

  /**
   On rows not yet labelled, labelling keeps multiplicities: a labelled row
   occurs as often as the unlabelled row it came from.
   */
  lemma {:induction false} AnnotateCount(rows: seq<Row>, score: string -> real, m: Row)
    requires forall i :: 0 <= i < |rows| ==> rows[i].sentiment.None?
    requires m.sentiment.None?
    ensures multiset(Annotate(rows, score))[WithLabel(m, score)] == multiset(rows)[m]
    decreases |rows|
  {
    if |rows| > 0 {
      var r := Annotate(rows, score);
      var t := Annotate(rows[1..], score);
      AnnotateCount(rows[1..], score, m);
      assert r == [r[0]] + t;
      assert rows == [rows[0]] + rows[1..];
      LabelInjective(rows[0], m, score);
    }
  }

  /** Two unlabelled rows with the same labelled form are the same row. */
  lemma LabelInjective(x: Row, y: Row, score: string -> real)
    requires x.sentiment.None? && y.sentiment.None?
    ensures WithLabel(x, score) == WithLabel(y, score) <==> x == y
  {
  }

  // ---------------------------------------------------------------- sort and top

  /**
   `a` may come before `b` in a newest-first order where NaT goes last
   (`sort_values(ascending=False)`).
   */
  predicate Before(a: Option<Stamp>, b: Option<Stamp>)
  {
    match (a, b)
    case (Some(x), Some(y)) => StampLe(y, x)
    case (Some(_), None) => true
    case (None, Some(_)) => false
    case (None, None) => true
  }

  lemma BeforeTotal(a: Option<Stamp>, b: Option<Stamp>)
    ensures Before(a, b) || Before(b, a)
  {
  }

  lemma BeforeTrans(a: Option<Stamp>, b: Option<Stamp>, c: Option<Stamp>)
    requires Before(a, b) && Before(b, c)
    ensures Before(a, c)
  {
  }

  ghost predicate NewestFirst(rows: seq<Row>)
  {
    forall i, j :: 0 <= i < j < |rows| ==> Before(rows[i].parsed, rows[j].parsed)
  }

  /** `x` placed into a newest-first table so that it stays newest-first. */
  function Insert(x: Row, s: seq<Row>): (r: seq<Row>)
    requires NewestFirst(s)
    ensures NewestFirst(r)
    ensures multiset(r) == multiset(s) + multiset{x}
    decreases |s|
  {
    if |s| == 0 then [x]
    else if Before(x.parsed, s[0].parsed) then
      InsertFront(x, s);
      [x] + s
    else
      var rest := Insert(x, s[1..]);
      InsertBehind(x, s, rest);
      [s[0]] + rest
  }

  lemma InsertFront(x: Row, s: seq<Row>)
    requires NewestFirst(s) && |s| > 0 && Before(x.parsed, s[0].parsed)
    ensures NewestFirst([x] + s)
  {
  }

  lemma InsertBehind(x: Row, s: seq<Row>, rest: seq<Row>)
    requires NewestFirst(s) && |s| > 0 && !Before(x.parsed, s[0].parsed)
    requires NewestFirst(rest) && multiset(rest) == multiset(s[1..]) + multiset{x}
    ensures NewestFirst([s[0]] + rest)
    ensures multiset([s[0]] + rest) == multiset(s) + multiset{x}
  {
    BeforeTotal(x.parsed, s[0].parsed);
    forall y | y in multiset(rest)
      ensures Before(s[0].parsed, y.parsed)
    {
      if y != x {
        assert y in multiset(s[1..]);
        var j :| 0 <= j < |s[1..]| && s[1..][j] == y;
        assert s[j + 1] == y;
      }
    }
    var r := [s[0]] + rest;
    forall i, j | 0 <= i < j < |r|
      ensures Before(r[i].parsed, r[j].parsed)
    {
      if i == 0 {
        assert r[j] == rest[j - 1];
        assert r[j] in multiset(rest);
      } else {
        assert r[i] == rest[i - 1] && r[j] == rest[j - 1];
      }
    }
    assert s == [s[0]] + s[1..];
  }

  /** The `sort_values` step: a permutation of the table, newest first, NaT last. */
  function SortNewestFirst(rows: seq<Row>): (r: seq<Row>)
    ensures NewestFirst(r)
    ensures multiset(r) == multiset(rows)
    ensures |r| == |rows|
    decreases |rows|
  {
    if |rows| == 0 then []
    else
      assert rows == [rows[0]] + rows[1..];
      var r := Insert(rows[0], SortNewestFirst(rows[1..]));
      assert |multiset(r)| == |r|;
      r
  }

  /** Once NaT-free and sorted, the parsed dates are non-increasing down the table. */
  lemma SortedDatesNonIncreasing(rows: seq<Row>, i: nat, j: nat)
    requires forall k :: 0 <= k < |rows| ==> rows[k].parsed.Some?
    requires i <= j < |SortNewestFirst(rows)|
    ensures SortNewestFirst(rows)[i].parsed.Some? && SortNewestFirst(rows)[j].parsed.Some?
    ensures StampLe(SortNewestFirst(rows)[j].parsed.value, SortNewestFirst(rows)[i].parsed.value)
  {
    var r := SortNewestFirst(rows);
    assert r[i] in multiset(rows) && r[j] in multiset(rows);
    if i == j {
      StampLeTotalOrder(r[i].parsed.value, r[i].parsed.value, r[i].parsed.value);
    }
  }

  const TopCount: nat := 30

  function Min(a: nat, b: nat): nat
  {
    if a <= b then a else b
  }

  /** `head(n)`: the first `n` rows, or all of them when there are fewer. */
  function Head(rows: seq<Row>, n: nat): (r: seq<Row>)
    ensures |r| == Min(n, |rows|)
    ensures r == rows[..|r|]
  {
    rows[..Min(n, |rows|)]
  }

  /** In a newest-first table the head holds news at least as recent as every row it leaves out. */
  lemma HeadIsNewest(rows: seq<Row>, n: nat)
    requires NewestFirst(rows)
    ensures forall i, j :: 0 <= i < |Head(rows, n)| <= j < |rows| ==>
              Before(Head(rows, n)[i].parsed, rows[j].parsed)
  {
  }

  // ---------------------------------------------------------------- the whole path

  /** The two masks of `main` as one: a selected source, within the bounds, and matching the keywords when any were typed. */
  function Passes(sources: set<string>, start: Date, end: Date, keywords: string, b: Bounds): Row -> bool
  {
    (x: Row) => Keep(sources, start, end, b)(x) && (keywords != "" ==> Matches(x, Keywords(keywords)))
  }

  /** The source/date mask followed by the keyword step is one mask by `Passes`. */
  lemma MaskThenKeywords(rows: seq<Row>, sources: set<string>, start: Date, end: Date, keywords: string, b: Bounds)
    ensures KeywordFilter(Select(rows, sources, start, end, b), keywords)
            == Filter(rows, Passes(sources, start, end, keywords, b))
  {
    var keep := Keep(sources, start, end, b);
    var passes := Passes(sources, start, end, keywords, b);
    if keywords == "" {
      FilterSameAs(rows, keep, passes);
    } else {
      FilterFilter(rows, keep, MatchesAny(Keywords(keywords)), passes);
    }
  }

  /** What `main` hands to the display: the filtered, sorted table and its top rows. */
  datatype View = View(filtered: seq<Row>, top: seq<Row>)

  /** The rows of the sorted table before sorting: aggregated, parsed, masked, keyword-filtered, labelled. */
  function Labelled(feeds: seq<Feed>, fetch: string -> seq<Entry>, parse: string -> Option<Stamp>,
                    score: string -> real, sources: set<string>, start: Date, end: Date,
                    keywords: string, b: Bounds): seq<Row>
  {
    var rows := WithParsedDates(FetchNews(feeds, fetch), parse);
    Annotate(KeywordFilter(Select(rows, sources, start, end, b), keywords), score)
  }

  /** The filter properties of every labelled row. */
  lemma LabelledRows(feeds: seq<Feed>, fetch: string -> seq<Entry>, parse: string -> Option<Stamp>,
                     score: string -> real, sources: set<string>, start: Date, end: Date,
                     keywords: string, b: Bounds)
    ensures forall x :: x in Labelled(feeds, fetch, parse, score, sources, start, end, keywords, b) ==>
              && x.item.source in Names(feeds)
              && x.parsed == parse(x.item.article.date)
              && x.item.source in sources
              && InWindow(b, x.parsed, start, end)
              && (keywords != "" ==> Matches(x, Keywords(keywords)))
              && x.sentiment == Some(Classify(score(x.item.article.title)))
  {
    var items := FetchNews(feeds, fetch);
    var rows := WithParsedDates(items, parse);
    var selected := Select(rows, sources, start, end, b);
    var matched := KeywordFilter(selected, keywords);
    SubseqMembers(matched, selected);
    forall x | x in Labelled(feeds, fetch, parse, score, sources, start, end, keywords, b)
      ensures && x.item.source in Names(feeds)
              && x.parsed == parse(x.item.article.date)
              && x.item.source in sources
              && InWindow(b, x.parsed, start, end)
              && (keywords != "" ==> Matches(x, Keywords(keywords)))
              && x.sentiment == Some(Classify(score(x.item.article.title)))
    {
      var m := LabelOrigin(matched, score, x);
      assert m in selected;
      ParsedOrigin(items, parse, m);
    }
  }

  /** A labelled row is an input row with only its label set. */
  lemma LabelOrigin(rows: seq<Row>, score: string -> real, x: Row) returns (m: Row)
    requires x in Annotate(rows, score)
    ensures m in rows && m.item == x.item && m.parsed == x.parsed
    ensures x.sentiment == Some(Classify(score(x.item.article.title)))
  {
    var r := Annotate(rows, score);
    var i :| 0 <= i < |r| && r[i] == x;
    m := rows[i];
  }

  /** Every input row reappears in the labelled table, carrying its title's label. */
  lemma LabelKept(rows: seq<Row>, score: string -> real, m: Row)
    requires m in rows
    ensures WithLabel(m, score) in Annotate(rows, score)
  {
    var i :| 0 <= i < |rows| && rows[i] == m;
    assert Annotate(rows, score)[i] == WithLabel(m, score);
  }

  /** A parsed row carries one of the aggregated items. */
  lemma ParsedOrigin(items: seq<NewsItem>, parse: string -> Option<Stamp>, m: Row)
    requires m in WithParsedDates(items, parse)
    ensures m.item in items && m.parsed == parse(m.item.article.date)
  {
  }

  /**
   Lines 119-156 of `main`. When no feed returns an entry the aggregated table
   has no `date` column and `main` stops with a `KeyError` (`None`). Otherwise
   every displayed row comes from a configured feed and a selected source, has
   a parsed date within the bounds, matches the keywords when any were typed,
   carries the label of its title's score, and the table is newest first; the
   top rows are its first thirty.
   */
  function Dashboard(feeds: seq<Feed>, fetch: string -> seq<Entry>, parse: string -> Option<Stamp>,
                     score: string -> real, sources: set<string>, start: Date, end: Date,
                     keywords: string, b: Bounds): (v: Option<View>)
    ensures v.None? <==> FetchNews(feeds, fetch) == []
    ensures v.Some? ==> NewestFirst(v.value.filtered)
    ensures v.Some? ==> |v.value.top| == Min(TopCount, |v.value.filtered|)
                        && v.value.top == v.value.filtered[..|v.value.top|]
    ensures v.Some? ==> forall x :: x in v.value.filtered ==>
              && x.item.source in Names(feeds)
              && x.parsed == parse(x.item.article.date)
              && x.item.source in sources
              && InWindow(b, x.parsed, start, end)
              && (keywords != "" ==> Matches(x, Keywords(keywords)))
              && x.sentiment == Some(Classify(score(x.item.article.title)))
  {
    if FetchNews(feeds, fetch) == [] then None
    else
      var labelled := Labelled(feeds, fetch, parse, score, sources, start, end, keywords, b);
      var sorted := SortNewestFirst(labelled);
      LabelledRows(feeds, fetch, parse, score, sources, start, end, keywords, b);
      SameMembers(sorted, labelled);
      Some(View(sorted, Head(sorted, TopCount)))
  }

  /**
   Nothing that passes every filter is lost, and nothing is shown twice more
   than it was fetched: each aggregated row from a selected source, within the
   bounds and matching the keywords (when any were typed) is displayed,
   labelled with its title's score, exactly as often as it was aggregated, and
   the displayed table is as long as the one mask by `Passes` leaves.
   */
  lemma DashboardComplete(feeds: seq<Feed>, fetch: string -> seq<Entry>, parse: string -> Option<Stamp>,
                          score: string -> real, sources: set<string>, start: Date, end: Date,
                          keywords: string, b: Bounds)
    ensures forall x :: x in WithParsedDates(FetchNews(feeds, fetch), parse)
                        && x.item.source in sources && InWindow(b, x.parsed, start, end)
                        && (keywords != "" ==> Matches(x, Keywords(keywords))) ==>
              && Dashboard(feeds, fetch, parse, score, sources, start, end, keywords, b).Some?
              && WithLabel(x, score)
                 in Dashboard(feeds, fetch, parse, score, sources, start, end, keywords, b).value.filtered
    ensures var rows := WithParsedDates(FetchNews(feeds, fetch), parse);
            var v := Dashboard(feeds, fetch, parse, score, sources, start, end, keywords, b);
            && (v.Some? ==> |v.value.filtered| == |Filter(rows, Passes(sources, start, end, keywords, b))|)
            && forall x :: x in rows ==>
                 && v.Some?
                 && multiset(v.value.filtered)[WithLabel(x, score)]
                    == if Passes(sources, start, end, keywords, b)(x) then multiset(rows)[x] else 0
  {
    var rows := WithParsedDates(FetchNews(feeds, fetch), parse);
    var passed := Filter(rows, Passes(sources, start, end, keywords, b));
    var labelled := Labelled(feeds, fetch, parse, score, sources, start, end, keywords, b);
    MaskThenKeywords(rows, sources, start, end, keywords, b);
    assert labelled == Annotate(passed, score);
    SameMembers(SortNewestFirst(labelled), labelled);
    forall i | 0 <= i < |passed|
      ensures passed[i].sentiment.None?
    {
      assert passed[i] in multiset(rows);
    }
    forall x | x in rows
      ensures multiset(labelled)[WithLabel(x, score)]
              == if Passes(sources, start, end, keywords, b)(x) then multiset(rows)[x] else 0
    {
      AnnotateCount(passed, score, x);
    }
    forall x | x in rows && x.item.source in sources && InWindow(b, x.parsed, start, end)
               && (keywords != "" ==> Matches(x, Keywords(keywords)))
      ensures WithLabel(x, score) in labelled
    {
      assert x in passed;
      LabelKept(passed, score, x);
    }
  }

  /**
   The end-day bug seen from the display: an aggregated row from a selected
   source, dated on the end day after 00:00 and matching the keywords, is shown
   under the intended bounds and hidden by the code as written.
   */
  lemma EndDayNewsHidden(feeds: seq<Feed>, fetch: string -> seq<Entry>, parse: string -> Option<Stamp>,
                         score: string -> real, sources: set<string>, start: Date, end: Date,
                         keywords: string, x: Row)
    requires x in WithParsedDates(FetchNews(feeds, fetch), parse)
    requires x.item.source in sources && InRange(x.parsed, start, end)
    requires x.parsed.value.date == end && x.parsed.value.time > 0
    requires keywords != "" ==> Matches(x, Keywords(keywords))
    ensures var shown := WithLabel(x, score);
            && shown in Dashboard(feeds, fetch, parse, score, sources, start, end, keywords, Intended).value.filtered
            && shown !in Dashboard(feeds, fetch, parse, score, sources, start, end, keywords, AsWritten).value.filtered
  {
    DashboardComplete(feeds, fetch, parse, score, sources, start, end, keywords, Intended);
    InRangeAsWrittenVsIntended(x.parsed, start, end);
  }
}
