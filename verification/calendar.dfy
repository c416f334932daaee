/**
 * Time as the dashboards use it. A timestamp is a count of seconds since
 * 1970-01-01 00:00 (the data carries no time zone); a calendar date is a
 * count of days since that day.
 */
module Calendar {

  const SecondsPerDay: int := 86400

  /** The first instant of a calendar day: what a `str(date)` bound parses to. */
  function Midnight(day: int): int { day * SecondsPerDay }

  /** The calendar day an instant falls on. */
  function DayOf(t: int): (d: int)
    ensures Midnight(d) <= t < Midnight(d + 1)
  {
    t / SecondsPerDay
  }

  /** `Timedelta.days`: the whole days in a duration, rounded down as pandas does. */
  function WholeDays(delta: int): (d: int)
    ensures d * SecondsPerDay <= delta < (d + 1) * SecondsPerDay
  {
    delta / SecondsPerDay
  }

  datatype CivilDate = CivilDate(year: int, month: int, day: int)

  // The proleptic Gregorian calendar by the usual era/day-of-era
  // decomposition. Eras are 400-year blocks (146097 days) starting on
  // 1 March; within an era, years also start on 1 March, so a leap day is
  // the last day of its year. A day of the era splits into centuries of
  // 36524 days (the last century of the era has 36525, its final year
  // being a leap year), four-year cycles of 1461 days (the last cycle of a
  // century that does not close the era has 1460) and years of 365 days
  // (the last year of a cycle has 366). Dafny's `/` and `%` round down for
  // a positive divisor, which is what the decomposition needs.

  /** The 400-year era a day count (days since 1970-01-01) falls in. */
  function Era(days: int): int { (days + 719468) / 146097 }

  /** The day within its era, 0 being 1 March of the era's first year. */
  function DayOfEra(days: int): int { days + 719468 - Era(days) * 146097 }

  /** The century (0..3) of the era a day of the era lies in; the era's last day belongs to century 3. */
  function Century(doe: int): int
  {
    if doe < 36524 then 0 else if doe < 2 * 36524 then 1 else if doe < 3 * 36524 then 2 else 3
  }

  /** The four-year cycle within its century of a day of the era. */
  function Cycle(doe: int): int { (doe - 36524 * Century(doe)) / 1461 }

  /** The day within its four-year cycle of a day of the era. */
  function CycleDay(doe: int): int { doe - 36524 * Century(doe) - 1461 * Cycle(doe) }

  /** The year of a four-year cycle (0..3) that day `s` of the cycle lies in; day 1460 is the leap day of year 3. */
  function YearInCycle(s: int): int
  {
    if s < 365 then 0 else if s < 2 * 365 then 1 else if s < 3 * 365 then 2 else 3
  }

  /** The year within the era (0..399) of a day of the era. */
  function YearOfEra(doe: int): int { 100 * Century(doe) + 4 * Cycle(doe) + YearInCycle(CycleDay(doe)) }

  /** The day within its March-based year (0..365) of a day of the era. */
  function DayOfYear(doe: int): int { CycleDay(doe) - 365 * YearInCycle(CycleDay(doe)) }

  /** The month of a day of the year, counted from March (0) to February (11). */
  function MarchMonth(doy: int): int { (5 * doy + 2) / 153 }

  /** The day of the month (from 1) of a day of the year. */
  function DayOfMonth(doy: int): int { doy - (153 * MarchMonth(doy) + 2) / 5 + 1 }

  /** The March-based year a day count falls in. */
  function MarchYear(days: int): int { YearOfEra(DayOfEra(days)) + Era(days) * 400 }

  /** The day within that March-based year. */
  function MarchDay(days: int): int { DayOfYear(DayOfEra(days)) }

  /** The proleptic Gregorian date of a day count (days since 1970-01-01). */
  function CivilFromDays(days: int): CivilDate
  {
    DateOf(MarchYear(days), MarchDay(days))
  }

  /** The date of day `doy` of the March-based year `y`: January and February belong to the next civil year. */
  function DateOf(y: int, doy: int): CivilDate
  {
    var mp := MarchMonth(doy);
    var m := if mp < 10 then mp + 3 else mp - 9;
    CivilDate(if m <= 2 then y + 1 else y, m, DayOfMonth(doy))
  }

  /**
   * `dt.to_period('M')`: the month an instant falls in, as pandas' period
   * ordinal (months since January 1970).
   */
  function MonthOf(t: int): int
  {
    MonthIndex(DayOf(t))
  }

  /** The months from January 1970 to the month of a day count. */
  function MonthIndex(days: int): int
  {
    var date := CivilFromDays(days);
    (date.year - 1970) * 12 + (date.month - 1)
  }

  // ----- the calendar is well formed -----

  /**
   * A day of the era written as c centuries (of 36524 days, the last one
   * 36525), q four-year cycles (of 1461 days) and s days.
   */
  predicate EraSplit(c: int, q: int, s: int)
  {
    0 <= c <= 3 && 0 <= q <= 24 && 0 <= s <= 1460 && 1461 * q + s <= (if c == 3 then 36524 else 36523)
  }

  /** A split of a day of the era is the one the calendar computes. */
  lemma SplitYear(doe: int, c: int, q: int, s: int)
    requires EraSplit(c, q, s) && doe == 36524 * c + 1461 * q + s
    ensures Century(doe) == c && Cycle(doe) == q && CycleDay(doe) == s
    ensures YearOfEra(doe) == 100 * c + 4 * q + YearInCycle(s)
    ensures DayOfYear(doe) == s - 365 * YearInCycle(s)
  {
  }

  /** Every day of the era has a split. */
  lemma SplitOf(doe: int) returns (c: int, q: int, s: int)
    requires 0 <= doe <= 146096
    ensures EraSplit(c, q, s) && doe == 36524 * c + 1461 * q + s
  {
    c := if doe / 36524 < 3 then doe / 36524 else 3;
    var r := doe - 36524 * c;
    q, s := r / 1461, r % 1461;
  }

  /** An era has 400 years; its first day opens year 0 and its last day closes year 399 as a leap day. */
  lemma YearOfEraBounds(doe: int)
    requires 0 <= doe <= 146096
    ensures 0 <= YearOfEra(doe) <= 399 && 0 <= DayOfYear(doe) <= 365
    ensures doe == 146096 ==> YearOfEra(doe) == 399 && DayOfYear(doe) == 365
  {
    var c, q, s := SplitOf(doe);
    SplitYear(doe, c, q, s);
  }

  /** Within a four-year cycle the next day is the next day of the year, or day 0 of the next year. */
  lemma CycleStep(s: int)
    requires 0 <= s < 1460
    ensures var k, k' := YearInCycle(s), YearInCycle(s + 1);
            || (k' == k && s + 1 - 365 * k' == s - 365 * k + 1)
            || (k' == k + 1 && s + 1 - 365 * k' == 0 && s - 365 * k >= 364)
  {
  }

  /** The day after a day of the era inside a four-year cycle. */
  lemma StepWithinCycle(doe: int, c: int, q: int, s: int)
    requires EraSplit(c, q, s) && doe == 36524 * c + 1461 * q + s
    requires s < 1460 && !(c < 3 && q == 24 && s == 1459)
    ensures || (YearOfEra(doe + 1) == YearOfEra(doe) && DayOfYear(doe + 1) == DayOfYear(doe) + 1)
            || (YearOfEra(doe + 1) == YearOfEra(doe) + 1 && DayOfYear(doe + 1) == 0 && DayOfYear(doe) >= 364)
  {
    SplitYear(doe, c, q, s);
    SplitYear(doe + 1, c, q, s + 1);
    CycleStep(s);
  }

  /** The day after a leap day opens the next four-year cycle. */
  lemma StepNewCycle(doe: int, c: int, q: int)
    requires EraSplit(c, q, 1460) && doe == 36524 * c + 1461 * q + 1460 && doe < 146096
    ensures YearOfEra(doe + 1) == YearOfEra(doe) + 1 && DayOfYear(doe + 1) == 0 && DayOfYear(doe) >= 364
  {
    SplitYear(doe, c, q, 1460);
    SplitYear(doe + 1, c, q + 1, 0);
  }

  /** The day after the last day of a century that is not a leap year opens the next century. */
  lemma StepNewCentury(doe: int, c: int)
    requires 0 <= c < 3 && doe == 36524 * c + 1461 * 24 + 1459
    ensures YearOfEra(doe + 1) == YearOfEra(doe) + 1 && DayOfYear(doe + 1) == 0 && DayOfYear(doe) >= 364
  {
    assert EraSplit(c, 24, 1459) && YearInCycle(1459) == 3;
    assert EraSplit(c + 1, 0, 0) && YearInCycle(0) == 0;
    SplitYear(doe, c, 24, 1459);
    SplitYear(doe + 1, c + 1, 0, 0);
  }

  /** Within an era, the next day is the next day of the year, or the first day of the next year. */
  lemma EraDayStep(doe: int)
    requires 0 <= doe < 146096
    ensures || (YearOfEra(doe + 1) == YearOfEra(doe) && DayOfYear(doe + 1) == DayOfYear(doe) + 1)
            || (YearOfEra(doe + 1) == YearOfEra(doe) + 1 && DayOfYear(doe + 1) == 0 && DayOfYear(doe) >= 364)
  {
    var c, q, s := SplitOf(doe);
    if c < 3 && q == 24 && s == 1459 {
      StepNewCentury(doe, c);
    } else if s == 1460 {
      StepNewCycle(doe, c, q);
    } else {
      StepWithinCycle(doe, c, q, s);
    }
  }

  /** The next day count is the next day of the era, or the first day of the next era. */
  lemma EraStep(days: int)
    ensures 0 <= DayOfEra(days) <= 146096
    ensures || (Era(days + 1) == Era(days) && DayOfEra(days + 1) == DayOfEra(days) + 1 && DayOfEra(days) < 146096)
            || (Era(days + 1) == Era(days) + 1 && DayOfEra(days + 1) == 0 && DayOfEra(days) == 146096)
  {
  }

  /** The next day count is the next day of the March-based year, or the first day of the next one. */
  lemma MarchYearStep(days: int)
    ensures 0 <= MarchDay(days) <= 365 && 0 <= MarchDay(days + 1) <= 365
    ensures || (MarchYear(days + 1) == MarchYear(days) && MarchDay(days + 1) == MarchDay(days) + 1)
            || (MarchYear(days + 1) == MarchYear(days) + 1 && MarchDay(days + 1) == 0 && MarchDay(days) >= 364)
  {
    EraStep(days);
    if DayOfEra(days) < 146096 {
      StepWithinEra(days);
    } else {
      StepAcrossEras(days);
    }
  }

  /** The year step for a day that is not the last of its era. */
  lemma StepWithinEra(days: int)
    requires Era(days + 1) == Era(days) && DayOfEra(days + 1) == DayOfEra(days) + 1 && 0 <= DayOfEra(days) < 146096
    ensures 0 <= MarchDay(days) <= 365 && 0 <= MarchDay(days + 1) <= 365
    ensures || (MarchYear(days + 1) == MarchYear(days) && MarchDay(days + 1) == MarchDay(days) + 1)
            || (MarchYear(days + 1) == MarchYear(days) + 1 && MarchDay(days + 1) == 0 && MarchDay(days) >= 364)
  {
    var doe := DayOfEra(days);
    YearOfEraBounds(doe);
    YearOfEraBounds(doe + 1);
    EraDayStep(doe);
  }

  /** The year step for the last day of an era. */
  lemma StepAcrossEras(days: int)
    requires Era(days + 1) == Era(days) + 1 && DayOfEra(days + 1) == 0 && DayOfEra(days) == 146096
    ensures MarchDay(days) == 365 && MarchDay(days + 1) == 0 && MarchYear(days + 1) == MarchYear(days) + 1
  {
    YearAtEraEnd(days);
    YearAtEraStart(days + 1);
  }

  /** The last day of an era is the leap day closing the era's year 399. */
  lemma YearAtEraEnd(days: int)
    requires DayOfEra(days) == 146096
    ensures MarchYear(days) == 399 + Era(days) * 400 && MarchDay(days) == 365
  {
    EraEnd(DayOfEra(days));
  }

  /** The first day of an era opens the era's year 0. */
  lemma YearAtEraStart(days: int)
    requires DayOfEra(days) == 0
    ensures MarchYear(days) == Era(days) * 400 && MarchDay(days) == 0
  {
    var doe := DayOfEra(days);
    EraStart(doe);
    MarchYearOf(days, YearOfEra(doe), Era(days));
  }

  /** The March-based year from the era and the year of the era, given as plain numbers. */
  lemma MarchYearOf(days: int, y: int, e: int)
    requires y == YearOfEra(DayOfEra(days)) && e == Era(days)
    ensures MarchYear(days) == y + e * 400
  {
  }

  /** Day 146096 of an era is the leap day closing its year 399. */
  lemma EraEnd(doe: int)
    requires doe == 146096
    ensures YearOfEra(doe) == 399 && DayOfYear(doe) == 365
  {
    SplitYear(doe, 3, 24, 1460);
  }

  /** Day 0 of an era opens its year 0. */
  lemma EraStart(doe: int)
    requires doe == 0
    ensures YearOfEra(doe) == 0 && DayOfYear(doe) == 0
  {
  }

  /** Months of a year: 0..11 from March, days 1..31, and the next day is the next day of the month or the 1st of the next month. */
  lemma MonthStep(doy: int)
    requires 0 <= doy <= 365
    ensures 0 <= MarchMonth(doy) <= 11 && 1 <= DayOfMonth(doy) <= 31
    ensures doy >= 364 ==> MarchMonth(doy) == 11 && DayOfMonth(doy) == doy - 336
    ensures doy == 0 ==> MarchMonth(doy) == 0 && DayOfMonth(doy) == 1
    ensures doy < 365 ==>
              || (MarchMonth(doy + 1) == MarchMonth(doy) && DayOfMonth(doy + 1) == DayOfMonth(doy) + 1)
              || (MarchMonth(doy + 1) == MarchMonth(doy) + 1 && DayOfMonth(doy + 1) == 1)
  {
  }

  /** Every day count is a date with a month 1..12 and a day 1..31. */
  lemma CivilRange(days: int)
    ensures 1 <= CivilFromDays(days).month <= 12 && 1 <= CivilFromDays(days).day <= 31
  {
    MarchYearStep(days);
    MonthStep(MarchDay(days));
  }

  /**
   * The day after a date is the next day of its month, or the 1st of the
   * next month, January of the next year after December.
   */
  lemma CivilStep(days: int)
    ensures var a, b := CivilFromDays(days), CivilFromDays(days + 1);
            || b == CivilDate(a.year, a.month, a.day + 1)
            || (b.day == 1 && a.month < 12 && b.year == a.year && b.month == a.month + 1)
            || (b.day == 1 && a.month == 12 && b.year == a.year + 1 && b.month == 1)
  {
    MarchYearStep(days);
    DateStep(MarchYear(days), MarchDay(days), MarchYear(days + 1), MarchDay(days + 1));
  }

  /** The date step for two consecutive days given by March-based year and day of year. */
  lemma DateStep(y: int, doy: int, y': int, doy': int)
    requires 0 <= doy <= 365 && 0 <= doy' <= 365
    requires || (y' == y && doy' == doy + 1)
             || (y' == y + 1 && doy' == 0 && doy >= 364)
    ensures var a, b := DateOf(y, doy), DateOf(y', doy');
            || b == CivilDate(a.year, a.month, a.day + 1)
            || (b.day == 1 && a.month < 12 && b.year == a.year && b.month == a.month + 1)
            || (b.day == 1 && a.month == 12 && b.year == a.year + 1 && b.month == 1)
  {
    MonthStep(doy);
    MonthStep(doy');
  }

  /** The month index of the next day is the same or one more. */
  lemma MonthIndexStep(days: int)
    ensures MonthIndex(days + 1) == MonthIndex(days) || MonthIndex(days + 1) == MonthIndex(days) + 1
  {
    CivilStep(days);
    CivilRange(days);
  }

  /** Later days fall in the same or a later month. */
  lemma {:induction false} MonthIndexMonotone(d1: int, d2: int)
    requires d1 <= d2
    ensures MonthIndex(d1) <= MonthIndex(d2)
    decreases d2 - d1
  {
    if d1 < d2 {
      MonthIndexMonotone(d1, d2 - 1);
      MonthIndexStep(d2 - 1);
    }
  }

  /** Month periods order chronologically: a later instant never falls in an earlier month. */
  lemma MonthOfMonotone(t1: int, t2: int)
    requires t1 <= t2
    ensures MonthOf(t1) <= MonthOf(t2)
  {
    MonthIndexMonotone(DayOf(t1), DayOf(t2));
  }

  /** Day 17532 is 2018-01-01, and an instant an hour into it lies in month 576 (January 2018). */
  lemma NewYear2018()
    ensures CivilFromDays(17532) == CivilDate(2018, 1, 1)
    ensures MonthOf(Midnight(17532) + 3600) == 576
  {
    assert DayOf(Midnight(17532) + 3600) == 17532;
    assert Era(17532) == 5 && DayOfEra(17532) == 6515;
    SplitYear(6515, 0, 4, 671);
    assert MarchMonth(306) == 10;
  }

  /** Day 17591 is 2018-03-01: the day after 28 February in a common year. */
  lemma FirstOfMarch2018()
    ensures CivilFromDays(17591) == CivilDate(2018, 3, 1)
  {
    assert Era(17591) == 5 && DayOfEra(17591) == 6574;
    SplitYear(6574, 0, 4, 730);
  }
}

/**
 * The sidebar's date-range filter. The purchase-timestamp column holds
 * parsed datetimes, so comparing it with `str(start_date)` and
 * `str(end_date)` compares against midnight of those days: the window is
 * [start 00:00, end 00:00], both ends included.
 */
module DateFilter {
  import opened Frames
  import opened Calendar

  predicate InWindow(t: int, start: int, end: int)
  {
    Midnight(start) <= t <= Midnight(end)
  }

  /** The boolean mask of the filter; `stamp` reads the purchase timestamp off a row. */
  function Window<T>(stamp: T -> int, start: int, end: int): T -> bool
  {
    x => InWindow(stamp(x), start, end)
  }

  /** The rows whose purchase instant lies in the window, in their original order. */
  function FilterByDate<T(!new)>(rows: seq<T>, stamp: T -> int, start: int, end: int): (r: seq<T>)
    ensures forall x :: x in r <==> x in rows && InWindow(stamp(x), start, end)
  {
    Filter(rows, Window(stamp, start, end))
  }

  /**
   * The filter keeps every in-window row as often as the input has it,
   * drops every other row, and keeps the input order (it commutes with
   * concatenation).
   */
  lemma FilterByDateSpec<T(!new)>(a: seq<T>, b: seq<T>, stamp: T -> int, start: int, end: int)
    ensures forall x :: multiset(FilterByDate(a, stamp, start, end))[x] ==
              if InWindow(stamp(x), start, end) then multiset(a)[x] else 0
    ensures FilterByDate(a + b, stamp, start, end) ==
            FilterByDate(a, stamp, start, end) + FilterByDate(b, stamp, start, end)
  {
    FilterMultiset(a, Window(stamp, start, end));
    FilterConcat(a, b, Window(stamp, start, end));
  }

  /**
   * In calendar terms: an instant is kept when its day lies in
   * [start, end) or when it is exactly midnight opening `end`; anything
   * later on the end day is dropped.
   */
  lemma WindowByDay(t: int, start: int, end: int)
    ensures InWindow(t, start, end) <==>
            (start <= DayOf(t) < end) || (start <= end && t == Midnight(end))
  {
  }

  /** Filtering by a window and then by a window inside it is filtering by the inner one. */
  lemma NarrowedWindow<T(!new)>(rows: seq<T>, stamp: T -> int, s1: int, e1: int, s2: int, e2: int)
    requires s1 <= s2 && e2 <= e1
    ensures FilterByDate(FilterByDate(rows, stamp, s1, e1), stamp, s2, e2) == FilterByDate(rows, stamp, s2, e2)
  {
    FilterTwice(rows, Window(stamp, s1, e1), Window(stamp, s2, e2));
  }
}
