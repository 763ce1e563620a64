/**
 Parsed timestamps. The parser itself (`pd.to_datetime(.., errors='coerce')`)
 is a parameter of the pipeline returning `Option<Stamp>`; `None` is NaT.
 A timestamp is a calendar day plus the time elapsed since that day's midnight.
 */
module Dates {

  /** A calendar day. The parser only yields real calendar days (month 1-12, a day that month has). */
  datatype Date = Date(year: int, month: int, day: int)

  /**
   A timestamp: a day and the seconds elapsed since its midnight. pandas keeps
   nanoseconds; feed dates carry whole seconds, so seconds order them alike.
   The parser only yields `time < 86400`, a time within the day.
   */
  datatype Stamp = Stamp(date: Date, time: nat)

  /** Calendar order on days. */
  predicate DateLe(a: Date, b: Date)
  {
    a.year < b.year
    || (a.year == b.year && (a.month < b.month || (a.month == b.month && a.day <= b.day)))
  }

  /** Chronological order on timestamps: by day, then by time of day. */
  predicate StampLe(a: Stamp, b: Stamp)
  {
    (DateLe(a.date, b.date) && a.date != b.date) || (a.date == b.date && a.time <= b.time)
  }

  /** `StampLe` is a total order. */
  lemma StampLeTotalOrder(a: Stamp, b: Stamp, c: Stamp)
    ensures StampLe(a, a)
    ensures StampLe(a, b) || StampLe(b, a)
    ensures StampLe(a, b) && StampLe(b, a) ==> a == b
    ensures StampLe(a, b) && StampLe(b, c) ==> StampLe(a, c)
  {
  }

  /** What `pd.to_datetime` makes of a calendar day from a date picker: its midnight. */
  function Midnight(d: Date): (t: Stamp)
    ensures t.date == d
    ensures forall s: Stamp :: s.date == d ==> StampLe(t, s)
  {
    Stamp(d, 0)
  }

  /** Granularity of the time distribution chart ("Dia", "Mês", "Ano"). */
  datatype Granularity = Day | Month | Year

  /** A bucket of the distribution chart: a day, a month or a year. */
  datatype Period = DayOf(date: Date) | MonthOf(year: int, month: int) | YearOf(year: int)

  /** The bucket of a timestamp at a granularity (`.dt.date`, `.dt.to_period('M')`, `.dt.to_period('Y')`). */
  function PeriodOf(g: Granularity, t: Stamp): (p: Period)
    ensures g.Day? <==> p.DayOf?
    ensures g.Month? <==> p.MonthOf?
    ensures g.Year? <==> p.YearOf?
  {
    match g
    case Day => DayOf(t.date)
    case Month => MonthOf(t.date.year, t.date.month)
    case Year => YearOf(t.date.year)
  }

  /** Two timestamps share a bucket exactly when they agree on the fields the granularity keeps. */
  lemma SamePeriod(g: Granularity, s: Stamp, t: Stamp)
    ensures PeriodOf(g, s) == PeriodOf(g, t) <==>
      match g
      case Day => s.date == t.date
      case Month => s.date.year == t.date.year && s.date.month == t.date.month
      case Year => s.date.year == t.date.year
  {
  }

  /** Coarser buckets merge finer ones: the same day implies the same month, the same month the same year. */
  lemma PeriodsNest(s: Stamp, t: Stamp)
    ensures PeriodOf(Day, s) == PeriodOf(Day, t) ==> PeriodOf(Month, s) == PeriodOf(Month, t)
    ensures PeriodOf(Month, s) == PeriodOf(Month, t) ==> PeriodOf(Year, s) == PeriodOf(Year, t)
  {
  }
}
