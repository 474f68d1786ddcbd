/** When the bucket keys of a range sort as strings the way their buckets follow in time. */
module KeyOrder {
  import opened Calendar
  import opened Text
  import opened Buckets

  function YearDigits(d: Date): nat
    requires Valid(d)
  {
    IsoYearBrackets(d);
    |Decimal(IsoYear(d))|
  }

  /** Week keys whose years have equally many digits compare as their weeks do. */
  lemma WeekKeyOrder(a: Date, b: Date)
    requires Valid(a) && Valid(b) && YearDigits(a) == YearDigits(b)
    ensures LexLe(BucketKey(a, Week), BucketKey(b, Week)) <==> WeekIndex(a) <= WeekIndex(b)
  {
    FourDigits();
    IsoWeekInRange(a);
    IsoWeekInRange(b);
    IsoYearBrackets(a);
    IsoYearBrackets(b);
    DecimalAtWidth(IsoYear(a));
    DecimalAtWidth(IsoYear(b));
    TwoPartOrder(IsoYear(a), IsoYear(b), YearDigits(a), "-W", IsoWeek(a), IsoWeek(b));
    WeekKeySpelled(a);
    WeekKeySpelled(b);
    IsoOrder(a, b);
  }

  lemma WeekKeySpelled(d: Date)
    requires Valid(d)
    ensures IsoYear(d) >= 1 && 1 <= IsoWeek(d) <= 53
    ensures BucketKey(d, Week) == Fixed(IsoYear(d), YearDigits(d)) + ("-W" + Fixed(IsoWeek(d), 2))
  {
    FourDigits();
    IsoWeekInRange(d);
    IsoYearBrackets(d);
    DecimalAtWidth(IsoYear(d));
  }

  /** Where the years gain a digit, the later week sorts before the earlier one. */
  lemma GainedDigitMisorders(a: Date, b: Date, w: nat)
    requires Valid(a) && Valid(b) && w >= 1 && IsoYear(a) == Pow10(w) - 1 && IsoYear(b) == Pow10(w)
    ensures !LexLe(BucketKey(a, Week), BucketKey(b, Week))
  {
    LeadingDigits(w);
    assert BucketKey(a, Week)[0] == Decimal(IsoYear(a))[0] == '9';
    assert BucketKey(b, Week)[0] == Decimal(IsoYear(b))[0] == '1';
  }

  ghost predicate Listed(keys: seq<string>, days: seq<Date>, start: Date, end: Date, g: Granularity) {
    && Valid(start) && Valid(end) && AtOrBefore(start, end)
    && Consecutive(keys, days, start, end, g) && |keys| == Index(end, g) - Index(start, g) + 1
  }

  ghost predicate Sorted(keys: seq<string>) {
    forall i, j :: 0 <= i <= j < |keys| ==> LexLe(keys[i], keys[j])
  }

  lemma YearsBetween(start: Date, d: Date, end: Date)
    requires Valid(start) && Valid(end) && Within(d, start, end)
    ensures 1 <= IsoYear(start) <= IsoYear(d) <= IsoYear(end)
    ensures YearDigits(start) <= YearDigits(d) <= YearDigits(end)
  {
    WeekMonotone(start, d);
    WeekMonotone(d, end);
    IsoOrder(start, d);
    IsoOrder(d, end);
    IsoYearBrackets(start);
    WidthMonotone(IsoYear(start), IsoYear(d));
    WidthMonotone(IsoYear(d), IsoYear(end));
  }

  /** The list passes from the last week of one year to the first of the next. */
  lemma TurnOfYear(keys: seq<string>, days: seq<Date>, start: Date, end: Date, y: int) returns (i: nat)
    requires Listed(keys, days, start, end, Week) && IsoYear(start) < y <= IsoYear(end)
    ensures i + 1 < |keys| == |days| && Valid(days[i]) && Valid(days[i + 1])
    ensures keys[i] == BucketKey(days[i], Week) && keys[i + 1] == BucketKey(days[i + 1], Week)
    ensures IsoYear(days[i]) == y - 1 && IsoYear(days[i + 1]) == y
  {
    var turn := YearTurns(start, end, y);
    i := turn - WeekIndex(start) - 1;
    TurnAt(keys, days, start, end, y, turn, i);
  }

  lemma TurnAt(keys: seq<string>, days: seq<Date>, start: Date, end: Date, y: int, turn: int, i: nat)
    requires Listed(keys, days, start, end, Week) && y >= 2 && Week1Monday(y) == 7 * turn + 1
    requires i + 1 < |keys| && WeekIndex(start) + i + 1 == turn
    ensures |days| == |keys| && Valid(days[i]) && Valid(days[i + 1])
    ensures keys[i] == BucketKey(days[i], Week) && keys[i + 1] == BucketKey(days[i + 1], Week)
    ensures IsoYear(days[i]) == y - 1 && IsoYear(days[i + 1]) == y
  {
    WeekAt(keys, days, start, end, i);
    WeekAt(keys, days, start, end, i + 1);
    YearOfWeek(days[i], y, turn);
    YearOfWeek(days[i + 1], y, turn);
  }

  lemma WeekAt(keys: seq<string>, days: seq<Date>, start: Date, end: Date, i: nat)
    requires Listed(keys, days, start, end, Week) && i < |keys|
    ensures |days| == |keys| && Valid(days[i]) && Within(days[i], start, end)
    ensures keys[i] == BucketKey(days[i], Week) && WeekIndex(days[i]) == WeekIndex(start) + i
  {
    ConsecutiveAt(keys, days, start, end, Week, i);
  }

  /** The index of week 1 of a year that begins inside the range. */
  lemma YearTurns(start: Date, end: Date, y: int) returns (turn: int)
    requires Valid(start) && Valid(end) && IsoYear(start) < y <= IsoYear(end)
    ensures y >= 2 && Week1Monday(y) == 7 * turn + 1 && WeekIndex(start) < turn <= WeekIndex(end)
  {
    IsoYearBrackets(start);
    IsoYearBrackets(end);
    var m := Week1Monday(y);
    Week1IsNearJanuaryFirst(y);
    WeekYearsInOrder(IsoYear(start) + 1, y);
    WeekYearsInOrder(y, IsoYear(end));
    WeeksApart(Ordinal(start), m, Ordinal(end));
    turn := (m - 1) / 7;
  }

  /** The weeks on either side of the turn of a year. */
  lemma YearOfWeek(d: Date, y: int, turn: int)
    requires Valid(d) && y >= 2 && Week1Monday(y) == 7 * turn + 1
    requires turn - 1 <= WeekIndex(d) <= turn
    ensures IsoYear(d) == if WeekIndex(d) == turn then y else y - 1
  {
    IsoYearBrackets(d);
    DaysOfWeek(Ordinal(d), turn);
    WeekYearsAreWholeWeeks(y);
    WeekYearsAreWholeWeeks(y - 1);
    OneYear(Ordinal(d), if WeekIndex(d) == turn then y else y - 1, IsoYear(d));
  }

  lemma DaysOfWeek(o: int, turn: int)
    requires turn - 1 <= (o - 1) / 7 <= turn
    ensures if (o - 1) / 7 == turn then 7 * turn + 1 <= o <= 7 * turn + 7 else 7 * turn - 6 <= o <= 7 * turn
  {
  }

  lemma OneYear(o: int, x: int, y: int)
    requires x >= 1 && y >= 1
    requires Week1Monday(x) <= o < Week1Monday(x + 1) && Week1Monday(y) <= o < Week1Monday(y + 1)
    ensures x == y
  {
    if x < y {
      WeekYearsInOrder(x + 1, y);
    } else if y < x {
      WeekYearsInOrder(y + 1, x);
    }
  }

  /** The week keys of a range are sorted exactly when the ISO years of its ends have equally many
  digits. */
  lemma WeekKeysSortedExact(keys: seq<string>, days: seq<Date>, start: Date, end: Date)
    requires Listed(keys, days, start, end, Week)
    ensures Sorted(keys) <==> YearDigits(start) == YearDigits(end)
  {
    YearsBetween(start, end, end);
    if YearDigits(start) == YearDigits(end) {
      forall i, j | 0 <= i <= j < |keys|
        ensures LexLe(keys[i], keys[j])
      {
        WeekAt(keys, days, start, end, i);
        WeekAt(keys, days, start, end, j);
        YearsBetween(start, days[i], end);
        YearsBetween(start, days[j], end);
        WeekKeyOrder(days[i], days[j]);
      }
    } else {
      var w := YearDigits(start);
      DecimalAtWidth(IsoYear(start));
      DecimalLength(IsoYear(end), w);
      var i := TurnOfYear(keys, days, start, end, Pow10(w));
      GainedDigitMisorders(days[i], days[i + 1], w);
      assert !LexLe(keys[i], keys[i + 1]);
    }
  }

  /** Month keys pad their year, so they are sorted over every range a Python date can span. */
  lemma MonthKeysSorted(keys: seq<string>, days: seq<Date>, start: Date, end: Date)
    requires Listed(keys, days, start, end, Month) && end.year <= 9999
    ensures Sorted(keys)
  {
    assert forall d :: Within(d, start, end) ==> FourDigitYear(d, Month);
    KeysAreExact(keys, days, start, end, Month);
  }

  const LAST_OF_999 := Date(999, 12, 28)
  const FIRST_OF_1000 := Date(1000, 1, 4)

  /** Two successive weeks whose keys sort the wrong way round. */
  lemma Year1000Misorders()
    ensures Valid(LAST_OF_999) && Valid(FIRST_OF_1000) && WeekIndex(FIRST_OF_1000) == WeekIndex(LAST_OF_999) + 1
    ensures IsoYear(LAST_OF_999) == 999 && IsoYear(FIRST_OF_1000) == 1000
    ensures !LexLe(BucketKey(LAST_OF_999, Week), BucketKey(FIRST_OF_1000, Week))
  {
    DaysBeforeYearClosed(999);
    DaysBeforeYearClosed(1000);
    DaysBeforeYearClosed(1001);
    MonthsFillYear(999);
    assert DaysBeforeMonth(999, 13) == DaysBeforeMonth(999, 12) + 31;
    FourDigits();
    GainedDigitMisorders(LAST_OF_999, FIRST_OF_1000, 3);
  }

  const LEAP_DAY := Date(2024, 2, 29)
  const NEXT_WEEK_YEAR := Date(2024, 12, 30)

  lemma FourDigitYearSpelled(y: int)
    requires 2024 <= y <= 2025
    ensures Fixed(y, 4) == if y == 2024 then "2024" else "2025"
  {
    assert Fixed(y / 1000, 1) == Fixed(0, 0) + [Digit(2)] == "2";
    assert Fixed(y / 100, 2) == Fixed(2, 1) + [Digit(0)] == "20";
    assert Fixed(y / 10, 3) == Fixed(20, 2) + [Digit(2)] == "202";
  }

  lemma TwoDigitsSpelled()
    ensures Fixed(2, 2) == "02" && Fixed(9, 2) == "09" && Fixed(1, 2) == "01"
  {
    assert Fixed(0, 1) == Fixed(0, 0) + [Digit(0)] == "0";
    assert Fixed(2, 2) == Fixed(0, 1) + [Digit(2)] && Fixed(9, 2) == Fixed(0, 1) + [Digit(9)];
    assert Fixed(1, 2) == Fixed(0, 1) + [Digit(1)];
  }

  lemma SampleWeeks()
    ensures IsoYear(LEAP_DAY) == 2024 && IsoWeek(LEAP_DAY) == 9
    ensures IsoYear(NEXT_WEEK_YEAR) == 2025 && IsoWeek(NEXT_WEEK_YEAR) == 1
  {
    DaysBeforeYearClosed(2024);
    DaysBeforeYearClosed(2025);
    DaysBeforeYearClosed(2026);
    assert Week1Monday(2024) == Ordinal(Date(2024, 1, 1)) && Week1Monday(2025) == Ordinal(NEXT_WEEK_YEAR);
    assert Ordinal(LEAP_DAY) == Ordinal(Date(2024, 1, 1)) + 59;
  }

  lemma WeekOf(d: Date, year: string, week: string)
    requires Valid(d) && 1000 <= IsoYear(d) <= 9999
    requires Fixed(IsoYear(d), 4) == year && IsoWeek(d) >= 0 && Fixed(IsoWeek(d), 2) == week
    ensures BucketKey(d, Week) == year + ("-W" + week)
  {
    WeekKeySpelled(d);
    FourDigits();
    DecimalLength(IsoYear(d), 4);
    DecimalLength(IsoYear(d), 3);
  }

  /** The keys of a leap day, and of a day whose week belongs to the next year. */
  lemma KeysSpelled()
    ensures BucketKey(LEAP_DAY, Month) == "2024-02" && BucketKey(LEAP_DAY, Week) == "2024-W09"
    ensures BucketKey(NEXT_WEEK_YEAR, Month) == "2024-12" && BucketKey(NEXT_WEEK_YEAR, Week) == "2025-W01"
  {
    FourDigits();
    FourDigitYearSpelled(2024);
    FourDigitYearSpelled(2025);
    TwoDigitsSpelled();
    SampleWeeks();
    WeekOf(LEAP_DAY, "2024", "09");
    WeekOf(NEXT_WEEK_YEAR, "2025", "01");
    assert Fixed(12, 2) == "12" by {
      assert Fixed(12, 2) == Fixed(1, 1) + [Digit(2)] && Fixed(1, 1) == Fixed(0, 0) + [Digit(1)];
    }
  }
}
