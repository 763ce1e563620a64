/**
 The counting behind `display_distribution`: re-parse the `date` column,
 drop the rows whose date is NaT, and count the remaining rows per day,
 month or year (`value_counts`).
 */
module Distribution {
  import opened Wrappers
  import opened Seqs
  import opened Dates
  import opened Pipeline

  /** One bar of the chart: a period and how many rows fall in it. */
  datatype BucketCount = BucketCount(period: Period, count: nat)

  /** The count recorded for `p`, or 0 when `p` has no bar. */
  function Lookup(t: seq<BucketCount>, p: Period): nat
    decreases |t|
  {
    if |t| == 0 then 0 else if t[0].period == p then t[0].count else Lookup(t[1..], p)
  }

  /** No period has two bars. */
  ghost predicate DistinctPeriods(t: seq<BucketCount>)
  {
    forall i, j :: 0 <= i < j < |t| ==> t[i].period != t[j].period
  }

  /** Every bar counts at least one row. */
  ghost predicate NonEmptyBars(t: seq<BucketCount>)
  {
    forall i :: 0 <= i < |t| ==> t[i].count > 0
  }

  /** Sum of all bar heights. */
  function Total(t: seq<BucketCount>): nat
    decreases |t|
  {
    if |t| == 0 then 0 else t[0].count + Total(t[1..])
  }

  /** Does some bar carry period `p`? */
  predicate HasBar(t: seq<BucketCount>, p: Period)
  {
    exists i :: 0 <= i < |t| && t[i].period == p
  }

  lemma {:induction false} LookupHasBar(t: seq<BucketCount>, p: Period)
    requires NonEmptyBars(t)
    ensures Lookup(t, p) > 0 <==> HasBar(t, p)
    decreases |t|
  {
    if |t| > 0 {
      LookupHasBar(t[1..], p);
      if HasBar(t, p) && t[0].period != p {
        var i :| 0 <= i < |t| && t[i].period == p;
        assert t[1..][i - 1].period == p;
      }
      if HasBar(t[1..], p) {
        var i :| 0 <= i < |t[1..]| && t[1..][i].period == p;
        assert t[i + 1].period == p;
      }
    }
  }

  /** One more row in period `p`: its bar grows by one, or a new bar of height one appears at the end. */
  function Bump(t: seq<BucketCount>, p: Period): (r: seq<BucketCount>)
    requires DistinctPeriods(t) && NonEmptyBars(t)
    ensures DistinctPeriods(r) && NonEmptyBars(r)
    ensures Total(r) == Total(t) + 1
    ensures forall q :: Lookup(r, q) == Lookup(t, q) + (if q == p then 1 else 0)
    ensures forall q :: HasBar(r, q) <==> HasBar(t, q) || q == p
    decreases |t|
  {
    if |t| == 0 then
      assert [BucketCount(p, 1)][0].period == p;
      [BucketCount(p, 1)]
    else if t[0].period == p then
      BumpFirst(t, p);
      [BucketCount(p, t[0].count + 1)] + t[1..]
    else
      var rest := Bump(t[1..], p);
      BumpLater(t, p, rest);
      [t[0]] + rest
  }

  lemma BumpFirst(t: seq<BucketCount>, p: Period)
    requires DistinctPeriods(t) && NonEmptyBars(t) && |t| > 0 && t[0].period == p
    ensures var r := [BucketCount(p, t[0].count + 1)] + t[1..];
            && DistinctPeriods(r) && NonEmptyBars(r)
            && Total(r) == Total(t) + 1
            && (forall q :: Lookup(r, q) == Lookup(t, q) + (if q == p then 1 else 0))
            && (forall q :: HasBar(r, q) <==> HasBar(t, q) || q == p)
  {
  }

  lemma BumpLater(t: seq<BucketCount>, p: Period, rest: seq<BucketCount>)
    requires DistinctPeriods(t) && NonEmptyBars(t) && |t| > 0 && t[0].period != p
    requires DistinctPeriods(rest) && NonEmptyBars(rest)
    requires Total(rest) == Total(t[1..]) + 1
    requires forall q :: Lookup(rest, q) == Lookup(t[1..], q) + (if q == p then 1 else 0)
    requires forall q :: HasBar(rest, q) <==> HasBar(t[1..], q) || q == p
    ensures var r := [t[0]] + rest;
            && DistinctPeriods(r) && NonEmptyBars(r)
            && Total(r) == Total(t) + 1
            && (forall q :: Lookup(r, q) == Lookup(t, q) + (if q == p then 1 else 0))
            && (forall q :: HasBar(r, q) <==> HasBar(t, q) || q == p)
  {
    var r := [t[0]] + rest;
    assert r[1..] == rest;
    BumpLaterDistinct(t, p, rest);
    forall q
      ensures HasBar(r, q) <==> HasBar(t, q) || q == p
    {
      HasBarCons(t, q);
      HasBarCons(r, q);
    }
  }

  /** A bar is in a non-empty list iff it is the first one or in the rest. */
  lemma HasBarCons(t: seq<BucketCount>, q: Period)
    requires |t| > 0
    ensures HasBar(t, q) <==> t[0].period == q || HasBar(t[1..], q)
  {
    if HasBar(t, q) && t[0].period != q {
      var i :| 0 <= i < |t| && t[i].period == q;
      assert t[1..][i - 1].period == q;
    }
    if HasBar(t[1..], q) {
      var i :| 0 <= i < |t[1..]| && t[1..][i].period == q;
      assert t[i + 1].period == q;
    }
  }

  lemma BumpLaterDistinct(t: seq<BucketCount>, p: Period, rest: seq<BucketCount>)
    requires DistinctPeriods(t) && |t| > 0 && t[0].period != p
    requires DistinctPeriods(rest)
    requires forall q :: HasBar(rest, q) <==> HasBar(t[1..], q) || q == p
    ensures DistinctPeriods([t[0]] + rest)
  {
    var r := [t[0]] + rest;
    assert !HasBar(t[1..], t[0].period);
    forall i, j | 0 <= i < j < |r|
      ensures r[i].period != r[j].period
    {
      assert r[j] == rest[j - 1];
      if i == 0 {
        assert HasBar(rest, r[j].period);
      } else {
        assert r[i] == rest[i - 1];
      }
    }
  }

  /**
   `value_counts` of a list of periods: one bar per distinct period, each as
   tall as the number of times the period occurs, so the heights add up to
   the length of the list.
   */
  function Tally(ps: seq<Period>): (t: seq<BucketCount>)
    ensures DistinctPeriods(t) && NonEmptyBars(t)
    ensures Total(t) == |ps|
    ensures forall q :: Lookup(t, q) == multiset(ps)[q]
    decreases |ps|
  {
    if |ps| == 0 then []
    else
      assert ps == [ps[0]] + ps[1..];
      Bump(Tally(ps[1..]), ps[0])
  }

  /** Predicate of `dropna(subset=['date_parsed'])`: the row's date text parses. */
  function Parses(parse: string -> Option<Stamp>): Row -> bool
  {
    (x: Row) => parse(x.item.article.date).Some?
  }

  /** The row's date parses and falls in period `q`. */
  function InPeriod(parse: string -> Option<Stamp>, g: Granularity, q: Period): Row -> bool
  {
    (x: Row) => parse(x.item.article.date).Some? && PeriodOf(g, parse(x.item.article.date).value) == q
  }

  /**
   The `day`, `month` or `year` column after `dropna`: one period per row
   whose date parses, in row order.
   */
  function DatedPeriods(rows: seq<Row>, parse: string -> Option<Stamp>, g: Granularity): (ps: seq<Period>)
    ensures |ps| == |Filter(rows, Parses(parse))|
    decreases |rows|
  {
    if |rows| == 0 then []
    else
      var date := parse(rows[0].item.article.date);
      (if date.Some? then [PeriodOf(g, date.value)] else []) + DatedPeriods(rows[1..], parse, g)
  }

  /** The number of times `q` occurs in the period column is the number of rows dated in `q`. */
  lemma {:induction false} PeriodCount(rows: seq<Row>, parse: string -> Option<Stamp>, g: Granularity, q: Period)
    ensures multiset(DatedPeriods(rows, parse, g))[q] == |Filter(rows, InPeriod(parse, g, q))|
    decreases |rows|
  {
    if |rows| > 0 {
      PeriodCount(rows[1..], parse, g, q);
      var date := parse(rows[0].item.article.date);
      var head := if date.Some? then [PeriodOf(g, date.value)] else [];
      assert DatedPeriods(rows, parse, g) == head + DatedPeriods(rows[1..], parse, g);
      assert multiset(head)[q] == if InPeriod(parse, g, q)(rows[0]) then 1 else 0;
    }
  }

  /**
   The counts of `display_distribution` at granularity `g`: rows whose date
   does not parse are dropped, the bar of each period is as tall as the number
   of rows dated in it, no period appears twice, and the bars add up to the
   number of rows whose date parses.
   */
  function Distribution(rows: seq<Row>, parse: string -> Option<Stamp>, g: Granularity): (t: seq<BucketCount>)
    ensures DistinctPeriods(t) && NonEmptyBars(t)
    ensures Total(t) == |Filter(rows, Parses(parse))|
    ensures forall q :: Lookup(t, q) == |Filter(rows, InPeriod(parse, g, q))|
  {
    var t := Tally(DatedPeriods(rows, parse, g));
    forall q
      ensures Lookup(t, q) == |Filter(rows, InPeriod(parse, g, q))|
    {
      PeriodCount(rows, parse, g, q);
    }
    t
  }

  /**
   Every row with a parsed date lands in exactly one bar, the one for its own
   period; a row whose date is NaT lands in none.
   */
  lemma OneBarPerRow(rows: seq<Row>, parse: string -> Option<Stamp>, g: Granularity, x: Row)
    requires x in rows
    ensures parse(x.item.article.date).None? ==>
              forall q :: x !in Filter(rows, InPeriod(parse, g, q))
    ensures parse(x.item.article.date).Some? ==>
              var t := Distribution(rows, parse, g);
              var p := PeriodOf(g, parse(x.item.article.date).value);
              && (exists i :: 0 <= i < |t| && t[i].period == p)
              && (forall i, j :: 0 <= i < |t| && 0 <= j < |t| && t[i].period == p && t[j].period == p ==> i == j)
              && (forall q :: x in Filter(rows, InPeriod(parse, g, q)) <==> q == p)
  {
    var date := parse(x.item.article.date);
    if date.None? {
      forall q
        ensures x !in Filter(rows, InPeriod(parse, g, q))
      {
        FilterMember(rows, InPeriod(parse, g, q), x);
      }
    } else {
      var t := Distribution(rows, parse, g);
      var p := PeriodOf(g, date.value);
      FilterMember(rows, InPeriod(parse, g, p), x);
      assert |Filter(rows, InPeriod(parse, g, p))| > 0;
      LookupHasBar(t, p);
      forall q
        ensures x in Filter(rows, InPeriod(parse, g, q)) <==> q == p
      {
        FilterMember(rows, InPeriod(parse, g, q), x);
      }
    }
  }

  /**
   `display_distribution(filtered_data)`: every row of the displayed table has a
   parsed date, so none is dropped and the bars add up to the number of rows shown.
   */
  lemma DashboardFullyCounted(feeds: seq<Feeds.Feed>, fetch: string -> seq<Feeds.Entry>,
                              parse: string -> Option<Stamp>, score: string -> real,
                              sources: set<string>, start: Date, end: Date, keywords: string,
                              b: Bounds, g: Granularity)
    ensures var v := Dashboard(feeds, fetch, parse, score, sources, start, end, keywords, b);
            v.Some? ==> Total(Distribution(v.value.filtered, parse, g)) == |v.value.filtered|
  {
    var v := Dashboard(feeds, fetch, parse, score, sources, start, end, keywords, b);
    if v.Some? {
      var shown := v.value.filtered;
      forall i | 0 <= i < |shown|
        ensures Parses(parse)(shown[i])
      {
        assert shown[i] in shown;
      }
      FilterAll(shown, Parses(parse));
    }
  }
}
