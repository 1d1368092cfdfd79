/**
 The dashboard's current and comparison windows, over the proleptic Gregorian calendar. Years
 are unbounded, where the library stops at the years 1 and 9999.
 */
module DashboardWindows {

  datatype Date = Date(year: int, month: int, day: int)

  predicate IsLeap(y: int) {
    y % 4 == 0 && (y % 100 != 0 || y % 400 == 0)
  }

  function DaysInMonth(y: int, m: int): int {
    if m == 2 then (if IsLeap(y) then 29 else 28)
    else if m == 4 || m == 6 || m == 9 || m == 11 then 30 else 31
  }

  // The months as the calendar has them; a year divisible by 4 is a leap year unless it is divisible
  // by 100 and not by 400.
  lemma MonthLengths(y: int)
    ensures DaysInMonth(y, 1) == DaysInMonth(y, 3) == DaysInMonth(y, 5) == DaysInMonth(y, 7) == 31
    ensures DaysInMonth(y, 8) == DaysInMonth(y, 10) == DaysInMonth(y, 12) == 31
    ensures DaysInMonth(y, 4) == DaysInMonth(y, 6) == DaysInMonth(y, 9) == DaysInMonth(y, 11) == 30
    ensures DaysInMonth(y, 2) == 29 <==> y % 400 == 0 || (y % 4 == 0 && y % 100 != 0)
    ensures DaysInMonth(y, 2) == 28 <==> y % 4 != 0 || (y % 100 == 0 && y % 400 != 0)
  {
  }

  function DaysInYear(y: int): int {
    if IsLeap(y) then 366 else 365
  }

  predicate Valid(d: Date) {
    1 <= d.month <= 12 && 1 <= d.day <= DaysInMonth(d.year, d.month)
  }

  // ---------- Day numbers ----------

  function DaysBeforeYear(y: int): int {
    365 * (y - 1) + (y - 1) / 4 - (y - 1) / 100 + (y - 1) / 400
  }

  function DaysBeforeMonth(y: int, m: int): int
    requires 1 <= m <= 13
    decreases m
  {
    if m == 1 then 0 else DaysBeforeMonth(y, m - 1) + DaysInMonth(y, m - 1)
  }

  function Ordinal(d: Date): int
    requires Valid(d)
  {
    DaysBeforeYear(d.year) + DaysBeforeMonth(d.year, d.month) + d.day
  }

  // Day 1 is the first of January of the year 1.
  lemma FirstDay()
    ensures Ordinal(Date(1, 1, 1)) == 1
  {
  }

  lemma YearLength(y: int)
    ensures DaysBeforeYear(y + 1) == DaysBeforeYear(y) + DaysInYear(y)
    ensures DaysBeforeMonth(y, 13) == DaysInYear(y)
  {
    assert y / 4 == (y - 1) / 4 + (if y % 4 == 0 then 1 else 0);
    assert y / 100 == (y - 1) / 100 + (if y % 100 == 0 then 1 else 0);
    assert y / 400 == (y - 1) / 400 + (if y % 400 == 0 then 1 else 0);
    LeapRule(y);
    MonthsOfYear(y);
  }

  lemma LeapRule(y: int)
    ensures y % 400 == 0 ==> y % 100 == 0
    ensures y % 100 == 0 ==> y % 4 == 0
  {
  }

  lemma MonthsOfYear(y: int)
    ensures DaysBeforeMonth(y, 13) == DaysInYear(y)
  {
    var february := DaysInMonth(y, 2);
    assert DaysBeforeMonth(y, 3) == 31 + february;
    assert DaysBeforeMonth(y, 5) == DaysBeforeMonth(y, 3) + 61;
    assert DaysBeforeMonth(y, 7) == DaysBeforeMonth(y, 5) + 61;
    assert DaysBeforeMonth(y, 9) == DaysBeforeMonth(y, 7) + 62;
    assert DaysBeforeMonth(y, 11) == DaysBeforeMonth(y, 9) + 61;
  }

  lemma {:induction false} YearsGrow(a: int, b: int)
    requires a <= b
    ensures DaysBeforeYear(a) <= DaysBeforeYear(b)
    decreases b - a
  {
    if a < b {
      YearsGrow(a, b - 1);
      YearLength(b - 1);
    }
  }

  lemma {:induction false} MonthsGrow(y: int, a: int, b: int)
    requires 1 <= a <= b <= 13
    ensures DaysBeforeMonth(y, a) <= DaysBeforeMonth(y, b)
    decreases b - a
  {
    if a < b {
      MonthsGrow(y, a, b - 1);
    }
  }

  predicate Earlier(a: Date, b: Date) {
    a.year < b.year || (a.year == b.year && (a.month < b.month || (a.month == b.month && a.day < b.day)))
  }

  lemma OrdinalInYear(d: Date)
    requires Valid(d)
    ensures DaysBeforeYear(d.year) < Ordinal(d) <= DaysBeforeYear(d.year + 1)
  {
    YearLength(d.year);
    MonthsGrow(d.year, 1, d.month);
    MonthsGrow(d.year, d.month + 1, 13);
  }

  // Day numbers order the dates as the calendar does; in particular no two dates share one.
  lemma OrdinalOrders(a: Date, b: Date)
    requires Valid(a) && Valid(b)
    ensures Ordinal(a) < Ordinal(b) <==> Earlier(a, b)
    ensures Ordinal(a) == Ordinal(b) <==> a == b
  {
    if Earlier(a, b) {
      EarlierIsSmaller(a, b);
    } else if Earlier(b, a) {
      EarlierIsSmaller(b, a);
    }
  }

  lemma EarlierIsSmaller(a: Date, b: Date)
    requires Valid(a) && Valid(b) && Earlier(a, b)
    ensures Ordinal(a) < Ordinal(b)
  {
    if a.year < b.year {
      EarlierYear(a, b);
    } else {
      EarlierInYear(a.year, a.month, a.day, b.month, b.day);
    }
  }

  lemma EarlierYear(a: Date, b: Date)
    requires Valid(a) && Valid(b) && a.year < b.year
    ensures Ordinal(a) < Ordinal(b)
  {
    OrdinalInYear(a);
    OrdinalInYear(b);
    YearsGrow(a.year + 1, b.year);
  }

  lemma EarlierInYear(y: int, m1: int, d1: int, m2: int, d2: int)
    requires Valid(Date(y, m1, d1)) && Valid(Date(y, m2, d2))
    requires m1 < m2 || (m1 == m2 && d1 < d2)
    ensures DaysBeforeMonth(y, m1) + d1 < DaysBeforeMonth(y, m2) + d2
  {
    if m1 < m2 {
      MonthsGrow(y, m1 + 1, m2);
    }
  }

  // ---------- Going back in days ----------

  function PreviousDay(d: Date): (p: Date)
    requires Valid(d)
    ensures Valid(p)
  {
    if d.day > 1 then Date(d.year, d.month, d.day - 1)
    else if d.month > 1 then Date(d.year, d.month - 1, DaysInMonth(d.year, d.month - 1))
    else Date(d.year - 1, 12, 31)
  }

  lemma PreviousDayIsOneLess(d: Date)
    requires Valid(d)
    ensures Ordinal(PreviousDay(d)) == Ordinal(d) - 1
  {
    if d.day == 1 && d.month == 1 {
      YearLength(d.year - 1);
      assert DaysBeforeMonth(d.year - 1, 13) == DaysBeforeMonth(d.year - 1, 12) + 31;
    }
  }

  function MinusDays(d: Date, n: nat): (p: Date)
    requires Valid(d)
    ensures Valid(p)
    decreases n
  {
    if n == 0 then d else MinusDays(PreviousDay(d), n - 1)
  }

  lemma {:induction false} MinusDaysIsLess(d: Date, n: nat)
    requires Valid(d)
    ensures Ordinal(MinusDays(d, n)) == Ordinal(d) - n
    decreases n
  {
    if n > 0 {
      PreviousDayIsOneLess(d);
      MinusDaysIsLess(PreviousDay(d), n - 1);
    }
  }

  // ---------- The windows ----------

  datatype Period = ThisMonth | LastMonth | Last3Months | ThisYear | Last5Years

  datatype Window = Window(start: Date, end: Date, previousStart: Date, previousEnd: Date)

  // Months counted through the years, so that going back is subtraction.
  function MonthIndex(d: Date): int {
    12 * d.year + d.month - 1
  }

  predicate CurrentSpan(today: Date, period: Period, start: Date, end: Date) {
    match period
    case ThisMonth => start == Date(today.year, today.month, 1) && end == today
    case LastMonth =>
      && MonthIndex(start) == MonthIndex(end) == MonthIndex(today) - 1
      && start.day == 1 && end.day == DaysInMonth(end.year, end.month)
    case Last3Months => MonthIndex(start) == MonthIndex(today) - 3 && start.day == 1 && end == today
    case ThisYear => start == Date(today.year, 1, 1) && end == today
    case Last5Years => start == Date(today.year - 4, 1, 1) && end == today
  }

  // The comparison window ends the day before the current one starts and is as long.
  predicate Adjoins(w: Window)
    requires Valid(w.start) && Valid(w.end) && Valid(w.previousStart) && Valid(w.previousEnd)
  {
    && Ordinal(w.previousEnd) + 1 == Ordinal(w.start)
    && 0 <= Ordinal(w.end) - Ordinal(w.start) == Ordinal(w.previousEnd) - Ordinal(w.previousStart)
  }

  method ResolveWindow(today: Date, period: Period) returns (w: Window)
    requires Valid(today)
    ensures Valid(w.start) && Valid(w.end) && Valid(w.previousStart) && Valid(w.previousEnd)
    ensures CurrentSpan(today, period, w.start, w.end)
    ensures Adjoins(w)
  {
    var start, end := ResolveSpan(today, period);
    SpanNotEmpty(today, period, start, end);
    var lengthDays := Ordinal(end) - Ordinal(start) + 1;
    var previousEnd := PreviousDay(start);
    var previousStart := MinusDays(previousEnd, lengthDays - 1);
    PreviousDayIsOneLess(start);
    MinusDaysIsLess(previousEnd, lengthDays - 1);
    w := Window(start, end, previousStart, previousEnd);
  }

  method ResolveSpan(today: Date, period: Period) returns (start: Date, end: Date)
    requires Valid(today)
    ensures Valid(start) && Valid(end) && CurrentSpan(today, period, start, end)
  {
    start, end := Date(today.year, today.month, 1), today;
    match period {
      case LastMonth =>
        var year, month := today.year, today.month - 1;
        if today.month == 1 {
          year, month := today.year - 1, 12;
        }
        start, end := Date(year, month, 1), Date(year, month, DaysInMonth(year, month));
      case Last3Months =>
        var year, month := today.year, today.month - 3;
        while month <= 0
          invariant 12 * year + month - 1 == MonthIndex(today) - 3
          invariant month <= 12
        {
          month := month + 12;
          year := year - 1;
        }
        start := Date(year, month, 1);
      case ThisYear => start := Date(today.year, 1, 1);
      case Last5Years => start := Date(today.year - 4, 1, 1);
      case ThisMonth =>
    }
  }

  lemma SpanNotEmpty(today: Date, period: Period, start: Date, end: Date)
    requires Valid(today) && Valid(start) && Valid(end) && CurrentSpan(today, period, start, end)
    ensures Ordinal(start) <= Ordinal(end)
  {
    OrdinalOrders(start, end);
    OrdinalOrders(end, start);
  }

  // `last_month` holds exactly the days of the previous calendar month.
  lemma LastMonthIsPreviousMonth(today: Date, start: Date, end: Date, d: Date)
    requires Valid(today) && Valid(start) && Valid(end) && Valid(d)
    requires CurrentSpan(today, LastMonth, start, end)
    ensures Ordinal(start) <= Ordinal(d) <= Ordinal(end) <==> MonthIndex(d) == MonthIndex(today) - 1
  {
    OrdinalOrders(d, start);
    OrdinalOrders(end, d);
  }

  // `last_3_months` holds exactly the days up to today of this and the three months before it.
  lemma Last3MonthsIsFourCalendarMonths(today: Date, start: Date, end: Date, d: Date)
    requires Valid(today) && Valid(start) && Valid(end) && Valid(d)
    requires CurrentSpan(today, Last3Months, start, end)
    ensures Ordinal(start) <= Ordinal(d) <= Ordinal(end)
       <==> MonthIndex(today) - 3 <= MonthIndex(d) && !Earlier(today, d)
  {
    OrdinalOrders(d, start);
    OrdinalOrders(end, d);
  }

  // `this_month`, `this_year` and `last_5_years` hold exactly the days up to today of this month, of
  // this year, and of this and the four years before it.
  lemma SpansToToday(today: Date, period: Period, start: Date, end: Date, d: Date)
    requires Valid(today) && Valid(start) && Valid(end) && Valid(d) && CurrentSpan(today, period, start, end)
    ensures var held := Ordinal(start) <= Ordinal(d) <= Ordinal(end);
            && (period == ThisMonth ==>
                  (held <==> d.year == today.year && d.month == today.month && !Earlier(today, d)))
            && (period == ThisYear ==> (held <==> d.year == today.year && !Earlier(today, d)))
            && (period == Last5Years ==> (held <==> today.year - 4 <= d.year && !Earlier(today, d)))
  {
    OrdinalOrders(d, start);
    OrdinalOrders(end, d);
  }

  // The two windows share no day and leave none between them.
  lemma WindowsPartition(w: Window, d: Date)
    requires Valid(w.start) && Valid(w.end) && Valid(w.previousStart) && Valid(w.previousEnd) && Valid(d)
    requires Adjoins(w)
    ensures !Earlier(d, w.previousStart) && !Earlier(w.end, d)
       <==> (!Earlier(d, w.previousStart) && !Earlier(w.previousEnd, d)) != (!Earlier(d, w.start) && !Earlier(w.end, d))
  {
    OrdinalOrders(d, w.previousStart);
    OrdinalOrders(w.previousEnd, d);
    OrdinalOrders(d, w.start);
    OrdinalOrders(w.end, d);
  }
}
