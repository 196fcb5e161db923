/** The hand-rolled calendar of src/alerts/delivery.rs against the Gregorian rules. */
module Calendar {
  datatype Date = Date(year: int, month: int, day: int)

  /** The year of a 400-year era, its leap days cancelled by three correction terms. */
  function YearOfEra(doe: int): int {
    (doe - doe / 1460 + doe / 36_524 - doe / 146_096) / 365
  }

  /** Days before the era year that starts in March. */
  function YearStart(yoe: int): int {
    365 * yoe + yoe / 4 - yoe / 100
  }

  /** Days since 1970-01-01 to a civil date, the way the server computes it. */
  function CivilFromDays(days: int): Date {
    var z := days + 719_468;
    var era := z / 146_097;
    var doe := z % 146_097;
    var yoe := YearOfEra(doe);
    var y := yoe + era * 400;
    var doy := doe - YearStart(yoe);
    var mp := (5 * doy + 2) / 153;
    var d := doy - (153 * mp + 2) / 5 + 1;
    var m := if mp < 10 then mp + 3 else mp - 9;
    Date(if m <= 2 then y + 1 else y, m, d)
  }

  // ---------- the Gregorian calendar ----------

  predicate IsLeap(year: int) {
    year % 4 == 0 && (year % 100 != 0 || year % 400 == 0)
  }

  function MonthLength(year: int, month: int): int {
    if month == 2 then (if IsLeap(year) then 29 else 28)
    else if month == 4 || month == 6 || month == 9 || month == 11 then 30
    else 31
  }

  predicate IsDate(d: Date) {
    1 <= d.month <= 12 && 1 <= d.day <= MonthLength(d.year, d.month)
  }

  function NextDay(d: Date): Date {
    if d.day < MonthLength(d.year, d.month) then Date(d.year, d.month, d.day + 1)
    else if d.month < 12 then Date(d.year, d.month + 1, 1)
    else Date(d.year + 1, 1, 1)
  }

  /** Years are ordered first, then months, then days. */
  predicate Before(a: Date, b: Date) {
    a.year < b.year || (a.year == b.year && (a.month < b.month || (a.month == b.month && a.day < b.day)))
  }

  /** Days from 0001-01-01 to the first of January. */
  function DaysBeforeYear(year: int): int {
    365 * (year - 1) + (year - 1) / 4 - (year - 1) / 100 + (year - 1) / 400
  }

  function DaysBeforeMonth(year: int, month: int): int {
    if month <= 1 then 0 else DaysBeforeMonth(year, month - 1) + MonthLength(year, month - 1)
  }

  /** Days since 1970-01-01, counted by the calendar's own rules. */
  function DaysFromCivil(d: Date): int {
    DaysBeforeYear(d.year) + DaysBeforeMonth(d.year, d.month) + d.day - 1 - 719_162
  }

  // ---------- the counting rules are a strictly increasing numbering ----------

  lemma YearLength(year: int)
    ensures DaysBeforeYear(year + 1) - DaysBeforeYear(year) == if IsLeap(year) then 366 else 365
    ensures DaysBeforeMonth(year, 12) + 31 == if IsLeap(year) then 366 else 365
  {
    LeapCount(year - 1, year);
    Months(year);
  }

  /** The leap-day count steps exactly at leap years. */
  lemma LeapCount(before: int, year: int)
    requires before == year - 1
    ensures year / 4 - before / 4 == if year % 4 == 0 then 1 else 0
    ensures year / 100 - before / 100 == if year % 100 == 0 then 1 else 0
    ensures year / 400 - before / 400 == if year % 400 == 0 then 1 else 0
    ensures year % 400 == 0 ==> year % 100 == 0
    ensures year % 100 == 0 ==> year % 4 == 0
  {
  }

  /** The month table the recursion produces. */
  lemma Months(year: int)
    ensures var leap := if IsLeap(year) then 1 else 0;
      && DaysBeforeMonth(year, 1) == 0 && DaysBeforeMonth(year, 2) == 31
      && DaysBeforeMonth(year, 3) == 59 + leap && DaysBeforeMonth(year, 4) == 90 + leap
      && DaysBeforeMonth(year, 5) == 120 + leap && DaysBeforeMonth(year, 6) == 151 + leap
      && DaysBeforeMonth(year, 7) == 181 + leap && DaysBeforeMonth(year, 8) == 212 + leap
      && DaysBeforeMonth(year, 9) == 243 + leap && DaysBeforeMonth(year, 10) == 273 + leap
      && DaysBeforeMonth(year, 11) == 304 + leap && DaysBeforeMonth(year, 12) == 334 + leap
  {
    assert DaysBeforeMonth(year, 2) == 31;
    assert DaysBeforeMonth(year, 4) == DaysBeforeMonth(year, 3) + 31;
    assert DaysBeforeMonth(year, 6) == DaysBeforeMonth(year, 5) + 31;
    assert DaysBeforeMonth(year, 8) == DaysBeforeMonth(year, 7) + 31;
    assert DaysBeforeMonth(year, 10) == DaysBeforeMonth(year, 9) + 30;
    assert DaysBeforeMonth(year, 12) == DaysBeforeMonth(year, 11) + 30;
  }

  /** The calendar's successor is the next number. */
  lemma NextDayCounts(d: Date)
    requires IsDate(d)
    ensures IsDate(NextDay(d)) && DaysFromCivil(NextDay(d)) == DaysFromCivil(d) + 1
  {
    YearLength(d.year);
  }

  lemma {:induction false} YearsIncrease(a: int, b: int)
    requires a <= b
    ensures DaysBeforeYear(a) + 365 * (b - a) <= DaysBeforeYear(b)
    decreases b - a
  {
    if a < b {
      YearLength(a);
      YearsIncrease(a + 1, b);
    }
  }

  lemma {:induction false} MonthsIncrease(year: int, a: int, b: int)
    requires 1 <= a < b
    ensures DaysBeforeMonth(year, a) + MonthLength(year, a) <= DaysBeforeMonth(year, b)
    decreases b
  {
    if a < b - 1 {
      MonthsIncrease(year, a, b - 1);
    }
  }

  lemma WithinYear(d: Date)
    requires IsDate(d)
    ensures 0 <= DaysFromCivil(d) + 719_162 - DaysBeforeYear(d.year) < DaysBeforeYear(d.year + 1) - DaysBeforeYear(d.year)
  {
    YearLength(d.year);
    Months(d.year);
  }

  lemma CountingIncreases(a: Date, b: Date)
    requires IsDate(a) && IsDate(b)
    ensures DaysFromCivil(a) < DaysFromCivil(b) <==> Before(a, b)
  {
    if a.year < b.year {
      WithinYear(a);
      WithinYear(b);
      YearsIncrease(a.year + 1, b.year);
    } else if b.year < a.year {
      WithinYear(a);
      WithinYear(b);
      YearsIncrease(b.year + 1, a.year);
    } else if a.month < b.month {
      MonthsIncrease(a.year, a.month, b.month);
    } else if b.month < a.month {
      MonthsIncrease(a.year, b.month, a.month);
    }
  }

  // ---------- the server's arithmetic, taken apart ----------

  function MonthStart(mp: int): int {
    (153 * mp + 2) / 5
  }

  /** A day of the 400-year era as century, four-year group, year and day of year. */
  ghost predicate Parts(doe: int, c: int, q: int, k: int, doy: int) {
    && 0 <= c <= 3 && 0 <= q <= 24 && 0 <= k <= 3 && 0 <= doy <= 365
    && doe == 36_524 * c + 1461 * q + 365 * k + doy
    && (doy == 365 ==> k == 3 && (q < 24 || c == 3))
  }

  lemma PartsExist(doe: int) returns (c: int, q: int, k: int, doy: int)
    requires 0 <= doe < 146_097
    ensures Parts(doe, c, q, k, doy)
  {
    c := if doe < 36_524 then 0 else if doe < 73_048 then 1 else if doe < 109_572 then 2 else 3;
    var r := doe - 36_524 * c;
    q := if r >= 36_524 then 24 else r / 1461;
    var s := r - 1461 * q;
    assert 0 <= s <= 1460;
    k := if s < 365 then 0 else if s < 730 then 1 else if s < 1095 then 2 else 3;
    doy := s - 365 * k;
  }

  lemma ProductsOrdered(a: int, b: int, d: int)
    requires a <= b && d > 0
    ensures a * d <= b * d
  {
    assert (b - a) * d >= 0;
  }

  lemma QuotientIs(x: int, d: int, n: int)
    requires d > 0 && n * d <= x < n * d + d
    ensures x / d == n
  {
    var m := x / d;
    assert m * d <= x < m * d + d by { assert x == m * d + x % d; }
    if m + 1 <= n {
      ProductsOrdered(m + 1, n, d);
    }
    if n + 1 <= m {
      ProductsOrdered(n + 1, m, d);
    }
  }

  /** The three correction terms cancel all leap days. */
  lemma YearFound(doe: int, c: int, q: int, k: int, doy: int)
    requires Parts(doe, c, q, k, doy)
    ensures YearOfEra(doe) == 100 * c + 4 * q + k
  {
    var e := if 24 * c + q + 365 * k + doy >= 1460 then 1 else 0;
    var last := if doe == 146_096 then 1 else 0;
    QuotientIs(doe, 1460, 25 * c + q + e);
    QuotientIs(doe, 36_524, c + last);
    QuotientIs(doe, 146_096, last);
    QuotientIs(365 * (100 * c + 4 * q + k) + doy - e, 365, 100 * c + 4 * q + k);
  }

  lemma YearStartIs(c: int, q: int, k: int)
    requires 0 <= c <= 3 && 0 <= q <= 24 && 0 <= k <= 3
    ensures YearStart(100 * c + 4 * q + k) == 36_524 * c + 1461 * q + 365 * k
  {
    QuotientIs(100 * c + 4 * q + k, 4, 25 * c + q);
    QuotientIs(100 * c + 4 * q + k, 100, c);
  }

  lemma MonthFound(doy: int)
    requires 0 <= doy <= 365
    ensures var mp := (5 * doy + 2) / 153;
      0 <= mp <= 11 && MonthStart(mp) <= doy < MonthStart(mp + 1)
  {
  }

  /** The year of the era and the day of that year. */
  lemma EraYear(doe: int) returns (c: int, q: int, yoe: int, doy: int)
    requires 0 <= doe < 146_097
    ensures yoe == YearOfEra(doe) && doe == YearStart(yoe) + doy
    ensures 0 <= yoe <= 399 && 0 <= doy <= 365
    ensures doy == 365 ==> 0 <= c <= 3 && 0 <= q <= 24 && (q < 24 || c == 3) && yoe == 100 * c + 4 * q + 3
  {
    var k;
    c, q, k, doy := PartsExist(doe);
    yoe := 100 * c + 4 * q + k;
    YearFound(doe, c, q, k, doy);
    YearStartIs(c, q, k);
  }

  /** What the server computes, in terms of the parts. */
  lemma CivilIs(days: int) returns (era: int, yoe: int, doy: int, mp: int)
    ensures days + 719_468 == 146_097 * era + YearStart(yoe) + doy
    ensures 0 <= yoe <= 399 && 0 <= doy <= 365 && 0 <= mp <= 11 && MonthStart(mp) <= doy < MonthStart(mp + 1)
    ensures doy == 365 ==> IsLeap(yoe + 1 + era * 400)
    ensures CivilFromDays(days) == FromMarch(yoe + era * 400, mp, doy)
  {
    var z := days + 719_468;
    era := z / 146_097;
    var c, q;
    c, q, yoe, doy := EraYear(z % 146_097);
    mp := (5 * doy + 2) / 153;
    MonthFound(doy);
    if doy == 365 {
      LeapAt(era, c, q, yoe);
    }
  }

  lemma LeapAt(era: int, c: int, q: int, yoe: int)
    requires 0 <= c <= 3 && 0 <= q <= 24 && (q < 24 || c == 3) && yoe == 100 * c + 4 * q + 3
    ensures IsLeap(yoe + 1 + era * 400)
  {
    var y := yoe + 1 + era * 400;
    assert y == 4 * (25 * c + q + 1 + 100 * era);
    if q < 24 {
      QuotientIs(y, 100, c + 4 * era);
      assert y % 100 == 4 * q + 4;
    } else {
      assert y == 400 * (era + 1);
    }
  }

  // ---------- main results ----------

  /** Every integer day number is given a valid Gregorian date. */
  lemma CivilIsDate(days: int)
    ensures IsDate(CivilFromDays(days))
  {
    var era, yoe, doy, mp := CivilIs(days);
    if mp == 11 {
      assert MonthStart(11) == 337 && MonthLength(yoe + 1 + era * 400, 2) >= (if doy == 365 then 29 else 28);
    } else {
      MonthRoom(mp, CivilFromDays(days).year);
    }
  }

  lemma MonthRoom(mp: int, year: int)
    requires 0 <= mp <= 10
    ensures MonthLength(year, if mp < 10 then mp + 3 else mp - 9) == MonthStart(mp + 1) - MonthStart(mp)
  {
  }

  /** Days from 0001-01-01 to the first of March. */
  lemma MarchFirst(era: int, yoe: int)
    requires 0 <= yoe <= 399
    ensures var y := yoe + era * 400;
      && DaysBeforeYear(y) + DaysBeforeMonth(y, 3) == 146_097 * era + YearStart(yoe) - 306
      && DaysBeforeYear(y + 1) == 146_097 * era + YearStart(yoe)
  {
    var y := yoe + era * 400;
    Months(y);
    LeapCount(y - 1, y);
    QuotientIs(y, 400, era);
    QuotientIs(y, 4, yoe / 4 + 100 * era);
    QuotientIs(y, 100, yoe / 100 + 4 * era);
  }

  /** The date `doy` days into the year that starts on 1 March of `y`, in its `mp`-th month. */
  function FromMarch(y: int, mp: int, doy: int): Date {
    Date(y + (if mp >= 10 then 1 else 0), if mp < 10 then mp + 3 else mp - 9, doy - MonthStart(mp) + 1)
  }

  lemma CountFromMarch(y: int, mp: int, doy: int)
    requires 0 <= mp <= 11
    ensures DaysFromCivil(FromMarch(y, mp, doy))
         == doy - 719_162 + if mp < 10 then DaysBeforeYear(y) + DaysBeforeMonth(y, 3) else DaysBeforeYear(y + 1) - 306
  {
    MonthTable(mp, y);
  }

  /** Counting the days of the computed date gives the number back. */
  lemma CivilRoundTrip(days: int)
    ensures DaysFromCivil(CivilFromDays(days)) == days
  {
    var era, yoe, doy, mp := CivilIs(days);
    MarchFirst(era, yoe);
    CountFromMarch(yoe + era * 400, mp, doy);
  }

  lemma MonthTable(mp: int, y: int)
    requires 0 <= mp <= 11
    ensures mp < 10 ==> DaysBeforeMonth(y, mp + 3) == DaysBeforeMonth(y, 3) + MonthStart(mp)
    ensures mp >= 10 ==> DaysBeforeMonth(y + 1, mp - 9) == MonthStart(mp) - 306
  {
    Months(y);
    Months(y + 1);
  }

  /** A date is the date of its own count: with the round trip above, a bijection. */
  lemma CountRoundTrip(d: Date)
    requires IsDate(d)
    ensures CivilFromDays(DaysFromCivil(d)) == d
  {
    var n := DaysFromCivil(d);
    CivilIsDate(n);
    CivilRoundTrip(n);
    CountingIncreases(d, CivilFromDays(n));
    CountingIncreases(CivilFromDays(n), d);
  }

  lemma DayAfter(d: Date, n: int)
    requires IsDate(d) && DaysFromCivil(d) == n
    ensures CivilFromDays(n + 1) == NextDay(d)
  {
    NextDayCounts(d);
    CountRoundTrip(NextDay(d));
  }

  /** Consecutive days get consecutive dates. */
  lemma SuccessorDay(days: int)
    ensures CivilFromDays(days + 1) == NextDay(CivilFromDays(days))
  {
    CivilIsDate(days);
    CivilRoundTrip(days);
    DayAfter(CivilFromDays(days), days);
  }

  lemma Epoch()
    ensures CivilFromDays(0) == Date(1970, 1, 1)
  {
    EpochCount();
    CountRoundTrip(Date(1970, 1, 1));
  }

  lemma EpochCount()
    ensures DaysFromCivil(Date(1970, 1, 1)) == 0
  {
    assert DaysBeforeYear(1970) == 719_162;
    assert DaysBeforeMonth(1970, 1) == 0;
  }

  /** Later days get later dates. */
  lemma CivilIncreases(a: int, b: int)
    ensures a < b <==> Before(CivilFromDays(a), CivilFromDays(b))
  {
    CivilIsDate(a);
    CivilIsDate(b);
    CivilRoundTrip(a);
    CivilRoundTrip(b);
    CountingIncreases(CivilFromDays(a), CivilFromDays(b));
  }
}
