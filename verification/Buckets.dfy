/** The time buckets of build_trends.py: their keys, and the stepping that lists them. */
module Buckets {
  import opened Options
  import opened Calendar
  import opened Text

  datatype Granularity = Week | Month

  /** `bucket_key`: the year and month of a date, or its ISO year and week. */
  function BucketKey(d: Date, g: Granularity): string
    requires Valid(d)
  {
    match g
    case Month => Padded(d.year, 4) + "-" + Padded(d.month, 2)
    case Week =>
      IsoYearBrackets(d);
      IsoWeekInRange(d);
      Decimal(IsoYear(d)) + "-" + ("W" + Padded(IsoWeek(d), 2))
  }

  /** The position of a date's bucket on an endless line of buckets. */
  function Index(d: Date, g: Granularity): int
    requires Valid(d)
  {
    match g
    case Month => MonthIndex(d)
    case Week => WeekIndex(d)
  }

  function Stride(g: Granularity): nat {
    match g
    case Week => 7
    case Month => 28
  }

  /** One key per bucket and one bucket per key. */
  lemma KeyIdentifiesBucket(a: Date, b: Date, g: Granularity)
    requires Valid(a) && Valid(b)
    ensures BucketKey(a, g) == BucketKey(b, g) <==> Index(a, g) == Index(b, g)
  {
    match g
    case Month =>
      PaddedIsDigits(a.year, 4);
      PaddedIsDigits(b.year, 4);
      if BucketKey(a, g) == BucketKey(b, g) {
        DashSplits(Padded(a.year, 4), Padded(b.year, 4), Padded(a.month, 2), Padded(b.month, 2));
        PaddedInjective(a.year, b.year, 4);
        PaddedInjective(a.month, b.month, 2);
      }
    case Week =>
      IsoOrder(a, b);
      IsoOrder(b, a);
      IsoYearBrackets(a);
      IsoYearBrackets(b);
      IsoWeekInRange(a);
      IsoWeekInRange(b);
      DecimalIsDigits(IsoYear(a));
      DecimalIsDigits(IsoYear(b));
      if BucketKey(a, g) == BucketKey(b, g) {
        var x, y := "W" + Padded(IsoWeek(a), 2), "W" + Padded(IsoWeek(b), 2);
        DashSplits(Decimal(IsoYear(a)), Decimal(IsoYear(b)), x, y);
        DecimalInjective(IsoYear(a), IsoYear(b));
        assert x[1..] == Padded(IsoWeek(a), 2) && y[1..] == Padded(IsoWeek(b), 2);
        PaddedInjective(IsoWeek(a), IsoWeek(b), 2);
      }
  }

  /** The years in which keys of one scheme have one width. */
  predicate FourDigitYear(d: Date, g: Granularity)
    requires Valid(d)
  {
    match g
    case Month => d.year <= 9999
    case Week => 1000 <= IsoYear(d) <= 9999
  }

  lemma FourDigits()
    ensures Pow10(4) == 10000 && Pow10(3) == 1000 && Pow10(2) == 100
  {
    assert Pow10(1) == 10 * Pow10(0);
    assert Pow10(2) == 10 * Pow10(1);
    assert Pow10(3) == 10 * Pow10(2);
    assert Pow10(4) == 10 * Pow10(3);
  }

  lemma TwoPartOrder(a: nat, b: nat, w: nat, sep: string, m: nat, n: nat)
    requires a < Pow10(w) && b < Pow10(w) && m < 100 && n < 100
    ensures LexLe(Fixed(a, w) + (sep + Fixed(m, 2)), Fixed(b, w) + (sep + Fixed(n, 2)))
      <==> a < b || (a == b && m <= n)
  {
    FourDigits();
    FixedOrder(a, b, w);
    FixedOrder(m, n, 2);
    LexConcat(Fixed(a, w), Fixed(b, w), sep + Fixed(m, 2), sep + Fixed(n, 2));
    LexConcat(sep, sep, Fixed(m, 2), Fixed(n, 2));
  }

  /** Comparing keys as strings is comparing buckets in time, as the replay does throughout. */
  lemma KeyOrderIsTimeOrder(a: Date, b: Date, g: Granularity)
    requires Valid(a) && Valid(b) && FourDigitYear(a, g) && FourDigitYear(b, g)
    ensures LexLe(BucketKey(a, g), BucketKey(b, g)) <==> Index(a, g) <= Index(b, g)
  {
    FourDigits();
    match g
    case Month =>
      TwoPartOrder(a.year, b.year, 4, "-", a.month, b.month);
      assert BucketKey(a, g) == Fixed(a.year, 4) + ("-" + Fixed(a.month, 2));
      assert BucketKey(b, g) == Fixed(b.year, 4) + ("-" + Fixed(b.month, 2));
    case Week =>
      IsoWeekInRange(a);
      IsoWeekInRange(b);
      DecimalOfWidth(IsoYear(a), 4);
      DecimalOfWidth(IsoYear(b), 4);
      TwoPartOrder(IsoYear(a), IsoYear(b), 4, "-W", IsoWeek(a), IsoWeek(b));
      assert BucketKey(a, g) == Fixed(IsoYear(a), 4) + ("-W" + Fixed(IsoWeek(a), 2));
      assert BucketKey(b, g) == Fixed(IsoYear(b), 4) + ("-W" + Fixed(IsoWeek(b), 2));
      IsoOrder(a, b);
  }

  lemma StrideMissesNoBucket(d: Date, g: Granularity)
    requires Valid(d)
    ensures Index(d, g) <= Index(Plus(d, Stride(g)), g) <= Index(d, g) + 1
  {
    match g
    case Month => MonthStride(d);
    case Week => WeekStride(d);
  }

  lemma IndexMonotone(a: Date, b: Date, g: Granularity)
    requires Valid(a) && Valid(b) && AtOrBefore(a, b)
    ensures Index(a, g) <= Index(b, g)
  {
    match g
    case Month => MonthMonotone(a, b);
    case Week => WeekMonotone(a, b);
  }

  ghost predicate Within(d: Date, start: Date, end: Date) {
    Valid(d) && AtOrBefore(start, d) && AtOrBefore(d, end)
  }

  /** Each key in turn is that of the next bucket after the first, shown by a day of the range. */
  ghost predicate Consecutive(keys: seq<string>, days: seq<Date>, start: Date, end: Date, g: Granularity)
    requires Valid(start)
  {
    |keys| == |days| &&
    (keys == [] ||
     var k, d := keys[|keys| - 1], days[|keys| - 1];
     && Within(d, start, end) && k == BucketKey(d, g) && Index(d, g) == Index(start, g) + |keys| - 1
     && Consecutive(keys[..|keys| - 1], days[..|keys| - 1], start, end, g))
  }

  lemma {:induction false} ConsecutiveAt(keys: seq<string>, days: seq<Date>, start: Date, end: Date, g: Granularity, i: nat)
    requires Valid(start) && Consecutive(keys, days, start, end, g) && i < |keys|
    ensures Within(days[i], start, end) && keys[i] == BucketKey(days[i], g) && Index(days[i], g) == Index(start, g) + i
  {
    if i < |keys| - 1 {
      ConsecutiveAt(keys[..|keys| - 1], days[..|keys| - 1], start, end, g, i);
    }
  }

  lemma ConsecutiveSnoc(keys: seq<string>, days: seq<Date>, d: Date, start: Date, end: Date, g: Granularity, k: string)
    requires Valid(start) && Consecutive(keys, days, start, end, g) && Within(d, start, end)
    requires Index(d, g) == Index(start, g) + |keys| && k == BucketKey(d, g)
    ensures Consecutive(keys + [k], days + [d], start, end, g)
  {
    var longer, longerDays := keys + [k], days + [d];
    assert longer[..|keys|] == keys && longerDays[..|keys|] == days;
    assert longer[|keys|] == k && longerDays[|keys|] == d;
  }

  /** Add the key of `d` unless it is the last one listed. */
  method AddKey(keys: seq<string>, ghost days: seq<Date>, d: Date, ghost start: Date, ghost end: Date, g: Granularity)
    returns (longer: seq<string>, ghost longerDays: seq<Date>)
    requires Valid(start) && Consecutive(keys, days, start, end, g) && Within(d, start, end)
    requires |keys| - 1 <= Index(d, g) - Index(start, g) <= |keys|
    ensures Consecutive(longer, longerDays, start, end, g)
    ensures |longer| == Index(d, g) - Index(start, g) + 1
  {
    longer, longerDays := keys, days;
    var k := BucketKey(d, g);
    IndexMonotone(start, d, g);
    if keys != [] {
      KeyIdentifiesBucket(d, days[|days| - 1], g);
    }
    if keys == [] || keys[|keys| - 1] != k {
      ConsecutiveSnoc(keys, days, d, start, end, g, k);
      longer := keys + [k];
      longerDays := days + [d];
    }
  }

  lemma StrideStays(start: Date, last: Date, end: Date, g: Granularity)
    requires Valid(start) && Valid(last) && Valid(end) && AtOrBefore(start, last)
    ensures var d := Plus(last, Stride(g));
      && AtOrBefore(start, d) && Ordinal(d) == Ordinal(last) + Stride(g)
      && (Ordinal(last) <= Ordinal(end) <==> AtOrBefore(last, end))
      && (AtOrBefore(last, end) && !AtOrBefore(d, end) ==>
            Index(last, g) <= Index(end, g) <= Index(last, g) + 1)
  {
    var d := Plus(last, Stride(g));
    OrdinalPlus(last, Stride(g));
    OrdinalOrder(start, last);
    OrdinalOrder(start, d);
    OrdinalOrder(last, end);
    if AtOrBefore(last, end) && !AtOrBefore(d, end) {
      IndexMonotone(last, end, g);
      StrideMissesNoBucket(last, g);
      IndexMonotone(end, d, g);
    }
  }

  /** `enumerate_buckets`. It has nothing to return, and raises, when the range is empty. */
  method EnumerateBuckets(start: Date, end: Date, g: Granularity) returns (r: Option<seq<string>>, ghost days: seq<Date>)
    requires Valid(start) && Valid(end)
    ensures r.None? <==> !AtOrBefore(start, end)
    ensures r.Some? ==> Consecutive(r.value, days, start, end, g)
    ensures r.Some? ==> |r.value| == Index(end, g) - Index(start, g) + 1
  {
    var keys: seq<string> := [];
    days := [];
    var d := start;
    ghost var last := start;
    while AtOrBefore(d, end)
      invariant Valid(d) && Valid(last) && AtOrBefore(start, last) && AtOrBefore(start, d)
      invariant Consecutive(keys, days, start, end, g)
      invariant keys == [] ==> d == start
      invariant keys != [] ==> AtOrBefore(last, end) && d == Plus(last, Stride(g))
      invariant keys != [] ==> Index(last, g) == Index(start, g) + |keys| - 1
      decreases Ordinal(end) - Ordinal(d) + Stride(g)
    {
      StrideMissesNoBucket(last, g);
      keys, days := AddKey(keys, days, d, start, end, g);
      last := d;
      d := Plus(d, Stride(g));
      StrideStays(start, last, end, g);
    }
    if keys == [] {
      return None, days;
    }
    StrideStays(start, last, end, g);
    keys, days := AddKey(keys, days, end, start, end, g);
    r := Some(keys);
  }

  /** The keys listed are those of the dates in the range: none missing, none extra, none twice, and
  in the order of time. */
  lemma KeysAreExact(keys: seq<string>, days: seq<Date>, start: Date, end: Date, g: Granularity)
    requires Valid(start) && Valid(end) && AtOrBefore(start, end)
    requires Consecutive(keys, days, start, end, g) && |keys| == Index(end, g) - Index(start, g) + 1
    ensures forall d :: Within(d, start, end) ==> BucketKey(d, g) in keys
    ensures forall k :: k in keys ==> exists d :: Within(d, start, end) && BucketKey(d, g) == k
    ensures forall i, j :: 0 <= i < j < |keys| ==> keys[i] != keys[j]
    ensures (forall d :: Within(d, start, end) ==> FourDigitYear(d, g)) ==>
      forall i, j :: 0 <= i <= j < |keys| ==> LexLe(keys[i], keys[j])
  {
    forall i | 0 <= i < |keys|
      ensures Within(days[i], start, end) && keys[i] == BucketKey(days[i], g) && Index(days[i], g) == Index(start, g) + i
    {
      ConsecutiveAt(keys, days, start, end, g, i);
    }
    forall d | Within(d, start, end)
      ensures BucketKey(d, g) in keys
    {
      KeyOfDayListed(keys, days, start, end, g, d);
    }
    forall k | k in keys
      ensures exists d :: Within(d, start, end) && BucketKey(d, g) == k
    {
      var i :| 0 <= i < |keys| && keys[i] == k;
      assert Within(days[i], start, end) && BucketKey(days[i], g) == k;
    }
    forall i, j | 0 <= i < j < |keys|
      ensures keys[i] != keys[j]
    {
      KeyIdentifiesBucket(days[i], days[j], g);
    }
    if forall d :: Within(d, start, end) ==> FourDigitYear(d, g) {
      forall i, j | 0 <= i <= j < |keys|
        ensures LexLe(keys[i], keys[j])
      {
        KeyOrderIsTimeOrder(days[i], days[j], g);
      }
    }
  }

  lemma KeyOfDayListed(keys: seq<string>, days: seq<Date>, start: Date, end: Date, g: Granularity, d: Date)
    requires Valid(start) && Valid(end) && Within(d, start, end)
    requires Consecutive(keys, days, start, end, g) && |keys| == Index(end, g) - Index(start, g) + 1
    ensures BucketKey(d, g) in keys
  {
    IndexMonotone(start, d, g);
    IndexMonotone(d, end, g);
    var i := Index(d, g) - Index(start, g);
    ConsecutiveAt(keys, days, start, end, g, i);
    KeyIdentifiesBucket(d, days[i], g);
    assert keys[i] == BucketKey(d, g);
  }
}
