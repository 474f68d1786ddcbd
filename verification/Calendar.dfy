/** Gregorian dates and ISO weeks, as Python's `datetime.date` has them. */
module Calendar {

  datatype Date = Date(year: int, month: int, day: int)

  predicate Leap(y: int) {
    y % 4 == 0 && (y % 100 != 0 || y % 400 == 0)
  }

  function DaysInMonth(y: int, m: int): int {
    if m == 2 then (if Leap(y) then 29 else 28)
    else if m == 4 || m == 6 || m == 9 || m == 11 then 30
    else 31
  }

  predicate Valid(d: Date) {
    d.year >= 1 && 1 <= d.month <= 12 && 1 <= d.day <= DaysInMonth(d.year, d.month)
  }

  predicate AtOrBefore(a: Date, b: Date) {
    a.year < b.year
    || (a.year == b.year && (a.month < b.month || (a.month == b.month && a.day <= b.day)))
  }

  function NextDay(d: Date): Date {
    if d.day < DaysInMonth(d.year, d.month) then Date(d.year, d.month, d.day + 1)
    else if d.month < 12 then Date(d.year, d.month + 1, 1)
    else Date(d.year + 1, 1, 1)
  }

  function Plus(d: Date, n: nat): (r: Date)
    requires Valid(d)
    ensures Valid(r)
  {
    if n == 0 then d else NextDay(Plus(d, n - 1))
  }

  // ---------- day numbers ----------

  function YearLength(y: int): int {
    if Leap(y) then 366 else 365
  }

  function DaysBeforeYear(y: int): int
    decreases y
  {
    if y <= 1 then 0 else DaysBeforeYear(y - 1) + YearLength(y - 1)
  }

  lemma {:induction false} DaysBeforeYearClosed(y: int)
    requires y >= 1
    ensures DaysBeforeYear(y) == 365 * (y - 1) + LeapsBefore(y)
    decreases y
  {
    if y > 1 {
      DaysBeforeYearClosed(y - 1);
      OneMoreLeap(y - 1);
    }
  }

  function LeapsBefore(y: int): int {
    (y - 1) / 4 - (y - 1) / 100 + (y - 1) / 400
  }

  lemma OneMoreLeap(n: int)
    requires n >= 1
    ensures LeapsBefore(n + 1) == LeapsBefore(n) + (if Leap(n) then 1 else 0)
  {
    OneMoreFourth(n);
    OneMoreHundredth(n);
    OneMoreFourHundredth(n);
    CenturiesDivide(n);
  }

  lemma CenturiesDivide(n: int)
    ensures n % 400 == 0 ==> n % 100 == 0
    ensures n % 100 == 0 ==> n % 4 == 0
  {
    if n % 400 == 0 {
      MultipleOf100(4 * (n / 400));
    }
    if n % 100 == 0 {
      MultipleOf4(25 * (n / 100));
    }
  }

  lemma MultipleOf100(q: int)
    ensures (100 * q) % 100 == 0
  {
  }

  lemma MultipleOf4(q: int)
    ensures (4 * q) % 4 == 0
  {
  }

  lemma OneMoreFourth(n: int)
    ensures n / 4 == (n - 1) / 4 + (if n % 4 == 0 then 1 else 0)
  {
  }

  lemma OneMoreHundredth(n: int)
    ensures n / 100 == (n - 1) / 100 + (if n % 100 == 0 then 1 else 0)
  {
  }

  lemma OneMoreFourHundredth(n: int)
    ensures n / 400 == (n - 1) / 400 + (if n % 400 == 0 then 1 else 0)
  {
  }

  function DaysBeforeMonth(y: int, m: int): int
    requires 1 <= m <= 13
    decreases m
  {
    if m == 1 then 0 else DaysBeforeMonth(y, m - 1) + DaysInMonth(y, m - 1)
  }

  /** Days since the eve of 0001-01-01, itself a Monday. */
  function Ordinal(d: Date): int
    requires 1 <= d.month <= 12
  {
    DaysBeforeYear(d.year) + DaysBeforeMonth(d.year, d.month) + d.day
  }

  lemma MonthsFillYear(y: int)
    ensures DaysBeforeMonth(y, 13) == YearLength(y)
  {
    assert DaysBeforeMonth(y, 2) == 31;
    assert DaysBeforeMonth(y, 4) == DaysBeforeMonth(y, 2) + DaysInMonth(y, 2) + 31;
    assert DaysBeforeMonth(y, 6) == DaysBeforeMonth(y, 4) + 61;
    assert DaysBeforeMonth(y, 8) == DaysBeforeMonth(y, 6) + 61;
    assert DaysBeforeMonth(y, 10) == DaysBeforeMonth(y, 8) + 61;
    assert DaysBeforeMonth(y, 12) == DaysBeforeMonth(y, 10) + 61;
  }

  lemma {:induction false} YearsInOrder(a: int, b: int)
    requires 1 <= a <= b
    ensures DaysBeforeYear(a) + 365 * (b - a) <= DaysBeforeYear(b)
    decreases b - a
  {
    if a < b {
      YearsInOrder(a, b - 1);
    }
  }

  lemma {:induction false} MonthsInOrder(y: int, a: int, b: int)
    requires 1 <= a <= b <= 13
    ensures DaysBeforeMonth(y, a) + 28 * (b - a) <= DaysBeforeMonth(y, b)
    ensures a < b ==> DaysBeforeMonth(y, a) + DaysInMonth(y, a) <= DaysBeforeMonth(y, b)
    decreases b - a
  {
    if a < b {
      MonthsInOrder(y, a, b - 1);
    }
  }

  lemma OrdinalWithinYear(d: Date)
    requires Valid(d)
    ensures DaysBeforeYear(d.year) < Ordinal(d) <= DaysBeforeYear(d.year + 1)
  {
    MonthsInOrder(d.year, 1, d.month);
    MonthsInOrder(d.year, d.month, 13);
    MonthsFillYear(d.year);
  }

  /** Day numbers order dates as the calendar does. */
  lemma OrdinalOrder(a: Date, b: Date)
    requires Valid(a) && Valid(b)
    ensures AtOrBefore(a, b) <==> Ordinal(a) <= Ordinal(b)
  {
    OrdinalWithinYear(a);
    OrdinalWithinYear(b);
    if a.year < b.year {
      YearsInOrder(a.year + 1, b.year);
    } else if b.year < a.year {
      YearsInOrder(b.year + 1, a.year);
    } else if a.month < b.month {
      MonthsInOrder(a.year, a.month, b.month);
    } else if b.month < a.month {
      MonthsInOrder(a.year, b.month, a.month);
    }
  }

  lemma OrdinalNext(d: Date)
    requires Valid(d)
    ensures Valid(NextDay(d)) && Ordinal(NextDay(d)) == Ordinal(d) + 1
  {
    MonthsFillYear(d.year);
  }

  lemma {:induction false} OrdinalPlus(d: Date, n: nat)
    requires Valid(d)
    ensures Ordinal(Plus(d, n)) == Ordinal(d) + n
  {
    if n > 0 {
      OrdinalPlus(d, n - 1);
      OrdinalNext(Plus(d, n - 1));
    }
  }

  // ---------- months ----------

  function MonthIndex(d: Date): int {
    12 * d.year + d.month - 1
  }

  lemma {:induction false} WithinAMonth(d: Date, n: nat)
    requires Valid(d) && n <= 28
    ensures var r := Plus(d, n);
      if d.day + n <= DaysInMonth(d.year, d.month)
      then r == Date(d.year, d.month, d.day + n)
      else MonthIndex(r) == MonthIndex(d) + 1 && r.day == d.day + n - DaysInMonth(d.year, d.month)
  {
    if n > 0 {
      WithinAMonth(d, n - 1);
    }
  }

  /** No month is shorter than 28 days, so a 28-day stride enters at most the next one. */
  lemma MonthStride(d: Date)
    requires Valid(d)
    ensures MonthIndex(d) <= MonthIndex(Plus(d, 28)) <= MonthIndex(d) + 1
  {
    WithinAMonth(d, 28);
  }

  lemma MonthMonotone(a: Date, b: Date)
    requires Valid(a) && Valid(b) && AtOrBefore(a, b)
    ensures MonthIndex(a) <= MonthIndex(b)
  {
  }

  // ---------- ISO weeks (section 4.1.4 of ISO 8601:2004) ----------

  /** Weeks counted from the first Monday of the calendar. */
  function WeekIndex(d: Date): int
    requires 1 <= d.month <= 12
  {
    (Ordinal(d) - 1) / 7
  }

  /** The Monday of the week that holds the first Thursday from `first` on. */
  function MondayNear(first: int): int {
    var weekday := (first + 6) % 7;
    if weekday > 3 then first - weekday + 7 else first - weekday
  }

  lemma MondayIsNear(first: int)
    ensures (MondayNear(first) - 1) % 7 == 0 && first - 3 <= MondayNear(first) <= first + 3
  {
    var q, r := (first + 6) / 7, (first + 6) % 7;
    assert first + 6 == 7 * q + r;
    assert MondayNear(first) - 1 == (if r > 3 then 7 * q else 7 * (q - 1));
  }

  /** Week 1 of a year holds its first Thursday. */
  function Week1Monday(y: int): int {
    MondayNear(DaysBeforeYear(y) + 1)
  }

  lemma Week1IsNearJanuaryFirst(y: int)
    ensures (Week1Monday(y) - 1) % 7 == 0
    ensures DaysBeforeYear(y) - 2 <= Week1Monday(y) <= DaysBeforeYear(y) + 4
  {
    MondayIsNear(DaysBeforeYear(y) + 1);
  }

  lemma WeekYearsAreWholeWeeks(y: int)
    requires y >= 1
    ensures Week1Monday(y + 1) - Week1Monday(y) in {364, 371}
  {
    Week1IsNearJanuaryFirst(y);
    Week1IsNearJanuaryFirst(y + 1);
    var m, n := Week1Monday(y), Week1Monday(y + 1);
    assert n - m == 7 * ((n - 1) / 7 - (m - 1) / 7);
  }

  lemma {:induction false} WeekYearsInOrder(a: int, b: int)
    requires 1 <= a <= b
    ensures Week1Monday(a) <= Week1Monday(b)
    decreases b - a
  {
    if a < b {
      WeekYearsInOrder(a, b - 1);
      WeekYearsAreWholeWeeks(b - 1);
    }
  }

  function IsoYear(d: Date): int
    requires 1 <= d.month <= 12
  {
    if Ordinal(d) < Week1Monday(d.year) then d.year - 1
    else if Ordinal(d) >= Week1Monday(d.year + 1) then d.year + 1
    else d.year
  }

  function IsoWeek(d: Date): int
    requires 1 <= d.month <= 12
  {
    (Ordinal(d) - Week1Monday(IsoYear(d))) / 7 + 1
  }

  lemma IsoYearBrackets(d: Date)
    requires Valid(d)
    ensures IsoYear(d) >= 1 && Week1Monday(IsoYear(d)) <= Ordinal(d) < Week1Monday(IsoYear(d) + 1)
  {
    OrdinalWithinYear(d);
    WeekYearOf(d.year, Ordinal(d));
  }

  lemma WeekYearOf(y: int, n: int)
    requires y >= 1 && DaysBeforeYear(y) < n <= DaysBeforeYear(y + 1)
    ensures var w := if n < Week1Monday(y) then y - 1 else if n >= Week1Monday(y + 1) then y + 1 else y;
      w >= 1 && Week1Monday(w) <= n < Week1Monday(w + 1)
  {
    WeekYearsSpan(y, n);
  }

  /** A day of calendar year `y` falls in one of three week-years. */
  lemma WeekYearsSpan(y: int, n: int)
    requires y >= 1 && DaysBeforeYear(y) < n <= DaysBeforeYear(y + 1)
    ensures y == 1 ==> Week1Monday(y) <= n
    ensures y > 1 ==> Week1Monday(y - 1) <= n
    ensures n < Week1Monday(y + 2)
  {
    Week1IsNearJanuaryFirst(y + 1);
    WeekYearsAreWholeWeeks(y + 1);
    if y == 1 {
      assert DaysBeforeYear(1) == 0 && MondayNear(1) == 1;
    } else {
      Week1IsNearJanuaryFirst(y - 1);
      assert DaysBeforeYear(y) == DaysBeforeYear(y - 1) + YearLength(y - 1);
    }
  }

  lemma IsoWeekInRange(d: Date)
    requires Valid(d)
    ensures 1 <= IsoWeek(d) <= 53
  {
    IsoYearBrackets(d);
    WeekYearsAreWholeWeeks(IsoYear(d));
  }

  lemma WeekIndexFromIso(d: Date)
    requires Valid(d)
    ensures WeekIndex(d) == (Week1Monday(IsoYear(d)) - 1) / 7 + IsoWeek(d) - 1
  {
    Week1IsNearJanuaryFirst(IsoYear(d));
    IsoYearBrackets(d);
  }

  /** Later weeks have later (year, week) pairs, and a week has one pair. */
  lemma IsoOrder(a: Date, b: Date)
    requires Valid(a) && Valid(b)
    ensures WeekIndex(a) <= WeekIndex(b) <==>
      IsoYear(a) < IsoYear(b) || (IsoYear(a) == IsoYear(b) && IsoWeek(a) <= IsoWeek(b))
  {
    WeekIndexFromIso(a);
    WeekIndexFromIso(b);
    IsoYearBrackets(a);
    IsoYearBrackets(b);
    if IsoYear(a) < IsoYear(b) {
      LaterYearLaterWeek(a, b);
    } else if IsoYear(b) < IsoYear(a) {
      LaterYearLaterWeek(b, a);
    }
  }

  lemma LaterYearLaterWeek(a: Date, b: Date)
    requires Valid(a) && Valid(b) && IsoYear(a) < IsoYear(b)
    ensures WeekIndex(a) < WeekIndex(b)
  {
    IsoYearBrackets(a);
    IsoYearBrackets(b);
    MondayBetween(Ordinal(a), IsoYear(a), IsoYear(b), Ordinal(b));
  }

  lemma MondayBetween(m: int, y: int, z: int, n: int)
    requires 1 <= y < z && m < Week1Monday(y + 1) && Week1Monday(z) <= n
    ensures (m - 1) / 7 < (n - 1) / 7
  {
    WeekYearsInOrder(y + 1, z);
    Week1IsNearJanuaryFirst(z);
    WeeksApart(m, Week1Monday(z), n);
  }

  /** A Monday begins a later week than any day before it. */
  lemma WeeksApart(m: int, monday: int, n: int)
    requires m < monday <= n && (monday - 1) % 7 == 0
    ensures (m - 1) / 7 < (monday - 1) / 7 <= (n - 1) / 7
  {
  }

  lemma WeekStride(d: Date)
    requires Valid(d)
    ensures WeekIndex(Plus(d, 7)) == WeekIndex(d) + 1
  {
    OrdinalPlus(d, 7);
  }

  lemma WeekMonotone(a: Date, b: Date)
    requires Valid(a) && Valid(b) && AtOrBefore(a, b)
    ensures WeekIndex(a) <= WeekIndex(b)
  {
    OrdinalOrder(a, b);
  }

  // ---------- fixed points of the calendar ----------

  lemma MonthTable(y: int)
    ensures DaysInMonth(y, 1) == 31 && DaysInMonth(y, 3) == 31 && DaysInMonth(y, 5) == 31 && DaysInMonth(y, 7) == 31
    ensures DaysInMonth(y, 8) == 31 && DaysInMonth(y, 10) == 31 && DaysInMonth(y, 12) == 31
    ensures DaysInMonth(y, 4) == 30 && DaysInMonth(y, 6) == 30 && DaysInMonth(y, 9) == 30 && DaysInMonth(y, 11) == 30
    ensures DaysInMonth(y, 2) == 28 + (YearLength(y) - 365)
  {
  }

  /** The fourth of January is in the first week of its year and, next, the twenty-eighth of December in
  the last. */
  lemma JanuaryFourth(y: int)
    requires y >= 1
    ensures IsoYear(Date(y, 1, 4)) == y && IsoWeek(Date(y, 1, 4)) == 1
  {
    Week1IsNearJanuaryFirst(y);
    Week1IsNearJanuaryFirst(y + 1);
    assert Ordinal(Date(y, 1, 4)) == DaysBeforeYear(y) + 4;
    assert DaysBeforeYear(y + 1) == DaysBeforeYear(y) + YearLength(y);
  }

  lemma DecemberTwentyEighth(y: int)
    requires y >= 1
    ensures IsoYear(Date(y, 12, 28)) == y && Week1Monday(y + 1) - Ordinal(Date(y, 12, 28)) <= 7
  {
    Week1IsNearJanuaryFirst(y);
    Week1IsNearJanuaryFirst(y + 1);
    MonthsFillYear(y);
    assert DaysBeforeMonth(y, 13) == DaysBeforeMonth(y, 12) + 31;
    assert DaysBeforeYear(y + 1) == DaysBeforeYear(y) + YearLength(y);
    assert Ordinal(Date(y, 12, 28)) == DaysBeforeYear(y + 1) - 3;
  }

  /** The first of January 2024 was day 738,886, a Monday. */
  lemma NewYear2024()
    ensures Ordinal(Date(2024, 1, 1)) == 738886 && (738886 - 1) % 7 == 0
  {
    DaysBeforeYearClosed(2024);
    assert LeapsBefore(2024) == 490;
  }

  lemma SeventhsTurn(n: int)
    ensures n / 7 != (n - 1) / 7 <==> n % 7 == 0
  {
  }

  /** Weeks begin on Mondays. */
  lemma Mondays(d: Date)
    requires Valid(d)
    ensures WeekIndex(NextDay(d)) != WeekIndex(d) <==> (Ordinal(NextDay(d)) - 1) % 7 == 0
  {
    OrdinalNext(d);
    SeventhsTurn(Ordinal(d));
  }
}
