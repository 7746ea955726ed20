/** Calendar dates of the proleptic Gregorian calendar, as Python's
    `datetime` has them (years 1 to 9999), and the search window of the date
    form: from two days before today up to today. */
module Calendar {
  import opened Wrappers

  datatype Date = Date(year: int, month: int, day: int)

  const MinYear: int := 1
  const MaxYear: int := 9999

  predicate IsLeap(y: int) {
    y % 4 == 0 && (y % 100 != 0 || y % 400 == 0)
  }

  function DaysInMonth(y: int, m: int): (n: int)
    requires 1 <= m <= 12
    ensures 28 <= n <= 31
  {
    if m == 2 then (if IsLeap(y) then 29 else 28)
    else if m == 4 || m == 6 || m == 9 || m == 11 then 30
    else 31
  }

  predicate ValidDate(d: Date) {
    && MinYear <= d.year <= MaxYear
    && 1 <= d.month <= 12
    && 1 <= d.day <= DaysInMonth(d.year, d.month)
  }

  /** The first day Python's `date` can hold; nothing comes before it. */
  const FirstDay: Date := Date(MinYear, 1, 1)

  /** The day before d, rolling back across month and year boundaries;
      `None` before 0001-01-01, where Python raises OverflowError. */
  function PrevDay(d: Date): (r: Option<Date>)
    requires ValidDate(d)
    ensures r == None <==> d == FirstDay
    ensures r.Some? ==> ValidDate(r.value)
  {
    if d.day > 1 then Some(Date(d.year, d.month, d.day - 1))
    else if d.month > 1 then Some(Date(d.year, d.month - 1, DaysInMonth(d.year, d.month - 1)))
    else if d.year > MinYear then Some(Date(d.year - 1, 12, 31))
    else None
  }

  /** `d - timedelta(days=n)` on the calendar part of a datetime. */
  function MinusDays(d: Date, n: nat): (r: Option<Date>)
    requires ValidDate(d)
    ensures r.Some? ==> ValidDate(r.value)
    decreases n
  {
    if n == 0 then Some(d)
    else match PrevDay(d)
      case None => None
      case Some(p) => MinusDays(p, n - 1)
  }

  // ---- the day number of a date (Python's `date.toordinal`) ----

  /** Days in the months of year y before month m (m == 13 gives the whole
      year): the cumulative month table, one more from March on in a leap year. */
  function DaysBeforeMonth(y: int, m: int): nat
    requires 1 <= m <= 13
  {
    [0, 31, 59, 90, 120, 151, 181, 212, 243, 273, 304, 334, 365][m - 1]
      + (if m > 2 && IsLeap(y) then 1 else 0)
  }

  function DaysInYear(y: int): nat {
    if IsLeap(y) then 366 else 365
  }

  /** The table agrees with the month lengths. */
  lemma MonthStep(y: int, m: int)
    requires 1 <= m <= 12
    ensures DaysBeforeMonth(y, m + 1) == DaysBeforeMonth(y, m) + DaysInMonth(y, m)
    ensures DaysBeforeMonth(y, 13) == DaysInYear(y)
  {
  }

  /** Days in the years before year y, counted from year 1. */
  function DaysBeforeYear(y: int): nat
    requires y >= MinYear
  {
    if y == MinYear then 0 else DaysBeforeYear(y - 1) + DaysInYear(y - 1)
  }

  /** The day number of d, 0001-01-01 being day 1; an independent reference
      for calendar arithmetic. */
  function Ordinal(d: Date): int
    requires ValidDate(d)
  {
    DaysBeforeYear(d.year) + DaysBeforeMonth(d.year, d.month) + d.day
  }

  /** The day before a date has the day number one less. */
  lemma PrevDayOrdinal(d: Date)
    requires ValidDate(d) && d != FirstDay
    ensures Ordinal(PrevDay(d).value) + 1 == Ordinal(d)
  {
    if d.day > 1 {
      assert PrevDay(d).value == Date(d.year, d.month, d.day - 1);
    } else if d.month > 1 {
      PrevMonthOrdinal(d.year, d.month);
    } else {
      PrevYearOrdinal(d.year);
    }
  }

  /** The last day of the month before m is one day before the first of m. */
  lemma PrevMonthOrdinal(y: int, m: int)
    requires MinYear <= y <= MaxYear && 1 < m <= 12
    ensures PrevDay(Date(y, m, 1)).value == Date(y, m - 1, DaysInMonth(y, m - 1))
    ensures Ordinal(Date(y, m - 1, DaysInMonth(y, m - 1))) + 1 == Ordinal(Date(y, m, 1))
  {
    MonthStep(y, m - 1);
  }

  /** New Year's Eve is one day before the next New Year's Day. */
  lemma PrevYearOrdinal(y: int)
    requires MinYear < y <= MaxYear
    ensures PrevDay(Date(y, 1, 1)).value == Date(y - 1, 12, 31)
    ensures Ordinal(Date(y - 1, 12, 31)) + 1 == Ordinal(Date(y, 1, 1))
  {
    MonthStep(y - 1, 12);
  }

  lemma {:induction false} MonthsBefore(y: int, m1: int, m2: int)
    requires 1 <= m1 < m2 <= 13
    ensures DaysBeforeMonth(y, m1) + DaysInMonth(y, m1) <= DaysBeforeMonth(y, m2)
    decreases m2
  {
    MonthStep(y, m2 - 1);
    if m2 > m1 + 1 {
      MonthsBefore(y, m1, m2 - 1);
    }
  }

  lemma {:induction false} YearsBefore(y1: int, y2: int)
    requires MinYear <= y1 < y2
    ensures DaysBeforeYear(y1) + DaysInYear(y1) <= DaysBeforeYear(y2)
    decreases y2
  {
    if y2 > y1 + 1 {
      YearsBefore(y1, y2 - 1);
    }
  }

  /** A date's day number lies within its year's range of day numbers. */
  lemma OrdinalWithinYear(d: Date)
    requires ValidDate(d)
    ensures DaysBeforeYear(d.year) < Ordinal(d) <= DaysBeforeYear(d.year) + DaysInYear(d.year)
  {
    MonthsBefore(d.year, d.month, 13);
    MonthStep(d.year, 12);
  }

  /** Distinct valid dates have distinct day numbers. */
  lemma OrdinalInjective(d1: Date, d2: Date)
    requires ValidDate(d1) && ValidDate(d2) && Ordinal(d1) == Ordinal(d2)
    ensures d1 == d2
  {
    if d1.year < d2.year {
      OrdinalWithinYear(d1);
      OrdinalWithinYear(d2);
      YearsBefore(d1.year, d2.year);
    } else if d2.year < d1.year {
      OrdinalWithinYear(d1);
      OrdinalWithinYear(d2);
      YearsBefore(d2.year, d1.year);
    } else if d1.month < d2.month {
      MonthsBefore(d1.year, d1.month, d2.month);
    } else if d2.month < d1.month {
      MonthsBefore(d2.year, d2.month, d1.month);
    }
  }

  /** Day numbers start at 1, on 0001-01-01 alone. */
  lemma {:induction false} OrdinalOfFirstDay(d: Date)
    requires ValidDate(d)
    ensures Ordinal(d) >= 1
    ensures Ordinal(d) == 1 <==> d == FirstDay
    decreases Ordinal(d)
  {
    if d != FirstDay {
      PrevDayOrdinal(d);
      OrdinalOfFirstDay(PrevDay(d).value);
    }
  }

  /** Subtracting n days fails exactly when it would leave the calendar,
      that is when the day number is not above n. */
  lemma {:induction false} MinusDaysDefined(d: Date, n: nat)
    requires ValidDate(d)
    ensures MinusDays(d, n).Some? <==> Ordinal(d) > n
    decreases n
  {
    OrdinalOfFirstDay(d);
    if n > 0 && d != FirstDay {
      PrevDayOrdinal(d);
      MinusDaysDefined(PrevDay(d).value, n - 1);
    }
  }

  /** Subtracting n days moves the day number back by exactly n. */
  lemma {:induction false} MinusDaysShift(d: Date, n: nat)
    requires ValidDate(d)
    ensures MinusDays(d, n).Some? ==> Ordinal(MinusDays(d, n).value) + n == Ordinal(d)
    decreases n
  {
    if n > 0 && d != FirstDay {
      PrevDayOrdinal(d);
      MinusDaysShift(PrevDay(d).value, n - 1);
    }
  }

  // ---- the search window ----

  datatype DateWindow = DateWindow(from: Date, to: Date)

  /** The number of days the window reaches back (`timedelta(days=2)`). */
  const WindowDays: nat := 2

  /** The window typed into the search form on day `today`. */
  function WindowOf(today: Date): (w: Option<DateWindow>)
    requires ValidDate(today)
    ensures w.Some? ==> w.value.to == today && ValidDate(w.value.from)
    ensures w.None? <==> today == FirstDay || today == Date(MinYear, 1, 2)
  {
    assert today != FirstDay ==> MinusDays(today, WindowDays) == MinusDays(PrevDay(today).value, 1);
    match MinusDays(today, WindowDays)
    case None => None
    case Some(from) => Some(DateWindow(from, today))
  }

  /** The window ends today and starts exactly two calendar days before: its
      start is the one valid date whose day number is two less than today's. */
  lemma WindowExact(today: Date, from: Date)
    requires ValidDate(today) && ValidDate(from)
    ensures WindowOf(today).Some? <==> Ordinal(today) > WindowDays
    ensures WindowOf(today).Some? ==> WindowOf(today).value.to == today
    ensures WindowOf(today).Some? ==>
              (WindowOf(today).value.from == from <==> Ordinal(from) + WindowDays == Ordinal(today))
  {
    MinusDaysDefined(today, WindowDays);
    MinusDaysShift(today, WindowDays);
    if WindowOf(today).Some? && Ordinal(from) + WindowDays == Ordinal(today) {
      OrdinalInjective(from, WindowOf(today).value.from);
    }
  }

  lemma WindowExamples()
    ensures WindowOf(Date(2024, 6, 15)) == Some(DateWindow(Date(2024, 6, 13), Date(2024, 6, 15)))
    ensures WindowOf(Date(2024, 3, 1)) == Some(DateWindow(Date(2024, 2, 28), Date(2024, 3, 1)))
    ensures WindowOf(Date(2023, 3, 1)) == Some(DateWindow(Date(2023, 2, 27), Date(2023, 3, 1)))
    ensures WindowOf(Date(2024, 1, 1)) == Some(DateWindow(Date(2023, 12, 30), Date(2024, 1, 1)))
    ensures WindowOf(Date(1, 1, 2)) == None
  {
    assert MinusDays(Date(1, 1, 1), 1) == None;
  }
}
