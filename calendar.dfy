/**
 * The proleptic Gregorian calendar that JavaScript's Date uses, computed in
 * UTC: the day and time-of-day of a time value, the weekday, the year, month
 * and date of a day (`getFullYear`, `getMonth`, `getDate`, `getDay`), and
 * MakeDay, which `new Date(y, m, d)` and `setDate` use and which carries a
 * month outside 0..11 into the neighbouring years.
 */
module Calendar {

  const MsPerDay: int := 86400000

  /** The day number of a time value (day 0 is 1970-01-01). */
  function Day(t: int): int {
    t / MsPerDay
  }

  function TimeWithinDay(t: int): (r: int)
    ensures 0 <= r < MsPerDay
    ensures t == Day(t) * MsPerDay + r
  {
    t % MsPerDay
  }

  /** `getDay()`: 0 is Sunday, 1 is Monday; 1970-01-01 was a Thursday. */
  function WeekDay(t: int): (r: int)
    ensures 0 <= r < 7
  {
    (Day(t) + 4) % 7
  }

  /** A calendar date: `month` counts from 0 as `getMonth()` does, `date` from 1. */
  datatype CivilDate = CivilDate(year: int, month: int, date: int)

  /** Days before the start of year `yoe` of a 400-year era (years start on 1 March). */
  function EraYearStart(yoe: int): int {
    365 * yoe + yoe / 4 - yoe / 100
  }

  /** Days of a March-based year before the start of its month `mp` (0 is March). */
  function MonthStart(mp: int): int {
    (153 * mp + 2) / 5
  }

  /**
   * The year of a 400-year era (counted from 0, starting on 1 March) that
   * holds day `doe` of the era: whole centuries of 36524 days, whole 4-year
   * blocks of 1461 days and whole years of 365 days, where the last century
   * and the last year of a block take in the era's and the block's leap day.
   */
  function YearOfEra(doe: int): (yoe: int)
    requires 0 <= doe < 146097
    ensures 0 <= yoe < 400
    ensures 0 <= doe - EraYearStart(yoe) <= 365
  {
    var c := if doe / 36524 < 3 then doe / 36524 else 3;
    var inCentury := doe - 36524 * c;
    var f := inCentury / 1461;
    var inBlock := inCentury - 1461 * f;
    var y := if inBlock / 365 < 3 then inBlock / 365 else 3;
    assert 0 <= f <= 24 && 0 <= y <= 3;
    var yoe := 100 * c + 4 * f + y;
    assert yoe / 4 == 25 * c + f && yoe / 100 == c;
    yoe
  }

  /** The date of a day number. */
  function CivilFromDays(z: int): (r: CivilDate)
    ensures 0 <= r.month < 12 && 1 <= r.date <= 31
  {
    var z' := z + 719468;
    var era := z' / 146097;
    var doe := z' % 146097;
    var yoe := YearOfEra(doe);
    var doy := doe - EraYearStart(yoe);
    var mp := (5 * doy + 2) / 153;
    var d := doy - MonthStart(mp) + 1;
    var m := if mp < 10 then mp + 3 else mp - 9;
    CivilDate(yoe + era * 400 + (if m <= 2 then 1 else 0), m - 1, d)
  }

  /** The day number of a date whose month counts from 1 and lies in 1..12. */
  function DaysFromCivil(y: int, m: int, d: int): int
    requires 1 <= m <= 12
  {
    var y' := if m <= 2 then y - 1 else y;
    var era := y' / 400;
    var yoe := y' % 400;
    var mp := if m > 2 then m - 3 else m + 9;
    era * 146097 + EraYearStart(yoe) + MonthStart(mp) + d - 1 - 719468
  }

  /** ECMAScript MakeDay: the month may lie outside 0..11 and moves the year. */
  function MakeDay(year: int, month: int, date: int): int {
    DaysFromCivil(year + month / 12, month % 12 + 1, 1) + date - 1
  }

  /** Converting a day number to its date and back gives the same day. */
  lemma {:induction false} CivilRoundTrip(z: int)
    ensures var c := CivilFromDays(z);
            DaysFromCivil(c.year, c.month + 1, c.date) == z
  {
    var z' := z + 719468;
    var era := z' / 146097;
    var doe := z' % 146097;
    assert z' == era * 146097 + doe;
    var yoe := YearOfEra(doe);
    var doy := doe - EraYearStart(yoe);
    MonthOfDay(doy);
    var mp := (5 * doy + 2) / 153;
    DaysOfEraDate(era, yoe, mp, doy - MonthStart(mp) + 1);
  }

  /** The day number of a date given as an era, a year of the era and a March-based month. */
  lemma DaysOfEraDate(era: int, yoe: int, mp: int, d: int)
    requires 0 <= yoe < 400 && 0 <= mp < 12
    ensures var m := if mp < 10 then mp + 3 else mp - 9;
      DaysFromCivil(yoe + era * 400 + (if m <= 2 then 1 else 0), m, d)
        == era * 146097 + EraYearStart(yoe) + MonthStart(mp) + d - 1 - 719468
  {
    EraSplit(yoe + era * 400, era, yoe);
  }

  /** The March-based month of day `doy` of a year lies in 0..11 and starts on or before it. */
  lemma MonthOfDay(doy: int)
    requires 0 <= doy <= 365
    ensures var mp := (5 * doy + 2) / 153; 0 <= mp < 12 && MonthStart(mp) <= doy
  {
  }

  /** A year written as an era and a year of the era is split back into them. */
  lemma EraSplit(y: int, era: int, yoe: int)
    requires 0 <= yoe < 400 && y == yoe + era * 400
    ensures y / 400 == era && y % 400 == yoe
  {
  }

  /** The month start MakeDay computes for a month in 0..11 is a plain DaysFromCivil. */
  lemma MakeDayInYear(year: int, month: int, date: int)
    requires 0 <= month < 12
    ensures MakeDay(year, month, date) == DaysFromCivil(year, month + 1, date)
  {
  }

  /**
   * A day number moves by whole days when its date is rewritten within its
   * month (what `setDate` does): the new day is the old one plus the change of date.
   */
  lemma SetDateShift(z: int, newDate: int)
    ensures var c := CivilFromDays(z);
            MakeDay(c.year, c.month, newDate) == z + newDate - c.date
  {
    var c := CivilFromDays(z);
    CivilRoundTrip(z);
    MakeDayInYear(c.year, c.month, newDate);
  }

  /** A day within the first 365 of its era year is found in that year again. */
  lemma YearOfEraInverse(yoe: int, doy: int)
    requires 0 <= yoe < 400 && 0 <= doy < 365
    ensures YearOfEra(EraYearStart(yoe) + doy) == yoe
  {
    var c, f, y := yoe / 100, yoe % 100 / 4, yoe % 4;
    EraYearParts(yoe, c, f, y);
    var inBlock := 365 * y + doy;
    var inCentury := 1461 * f + inBlock;
    CenturyIndex(c, inCentury);
    BlockIndex(f, inBlock);
    YearIndex(y, doy);
  }

  /** A year of an era as centuries, 4-year blocks and years, and the days before it. */
  lemma EraYearParts(yoe: int, c: int, f: int, y: int)
    requires 0 <= yoe < 400 && c == yoe / 100 && f == yoe % 100 / 4 && y == yoe % 4
    ensures 0 <= c < 4 && 0 <= f < 25 && 0 <= y < 4 && yoe == 100 * c + 4 * f + y
    ensures EraYearStart(yoe) == 36524 * c + 1461 * f + 365 * y
  {
    assert yoe / 4 == 25 * c + f;
  }

  /** The century of an era that a day falls in, the last century taking in the era's leap day. */
  lemma CenturyIndex(c: int, rest: int)
    requires 0 <= c < 4 && 0 <= rest <= 36524 && (c < 3 ==> rest < 36524)
    ensures var n := 36524 * c + rest; (if n / 36524 < 3 then n / 36524 else 3) == c
  {
  }

  /** The 4-year block of a century that a day falls in. */
  lemma BlockIndex(f: int, rest: int)
    requires 0 <= f < 25 && 0 <= rest < 1461
    ensures (1461 * f + rest) / 1461 == f
  {
  }

  /** The year of a 4-year block that a day falls in, the last year taking in the block's leap day. */
  lemma YearIndex(y: int, doy: int)
    requires 0 <= y < 4 && 0 <= doy < 365
    ensures var n := 365 * y + doy; (if n / 365 < 3 then n / 365 else 3) == y
  {
  }

  /** The month of a March-based year whose first day is `MonthStart(mp)` is `mp` again. */
  lemma MonthStartInverse(mp: int)
    requires 0 <= mp < 12
    ensures (5 * MonthStart(mp) + 2) / 153 == mp
  {
    assert mp == 0 || mp == 1 || mp == 2 || mp == 3 || mp == 4 || mp == 5 || mp == 6
      || mp == 7 || mp == 8 || mp == 9 || mp == 10 || mp == 11;
  }

  /** The first day of month `mp` of year `yoe` of an era, found back as a date. */
  lemma FirstOfEraMonth(era: int, yoe: int, mp: int)
    requires 0 <= yoe < 400 && 0 <= mp < 12
    ensures CivilFromDays(era * 146097 + EraYearStart(yoe) + MonthStart(mp) - 719468)
         == CivilDate(yoe + era * 400 + (if mp >= 10 then 1 else 0), if mp < 10 then mp + 2 else mp - 10, 1)
  {
    MonthStartInverse(mp);
    YearOfEraInverse(yoe, MonthStart(mp));
    var doe := EraYearStart(yoe) + MonthStart(mp);
    assert 0 <= doe < 146097;
    var z' := era * 146097 + doe;
    assert z' / 146097 == era && z' % 146097 == doe;
  }

  /** The first day of a month is found in its own month, as its date 1. */
  lemma FirstOfMonth(year: int, month: int)
    requires 0 <= month < 12
    ensures CivilFromDays(MakeDay(year, month, 1)) == CivilDate(year, month, 1)
  {
    MakeDayInYear(year, month, 1);
    var m := month + 1;
    var y' := if m <= 2 then year - 1 else year;
    var mp := if m > 2 then m - 3 else m + 9;
    assert MakeDay(year, month, 1) == y' / 400 * 146097 + EraYearStart(y' % 400) + MonthStart(mp) - 719468;
    FirstOfEraMonth(y' / 400, y' % 400, mp);
    assert y' % 400 + y' / 400 * 400 == y';
  }

  /** MakeDay carries month -1 into December of the year before. */
  lemma MakeDayPreviousYear(year: int, date: int)
    ensures MakeDay(year, -1, date) == MakeDay(year - 1, 11, date)
  {
  }

  /** Day 0 of the time scale is 1 January 1970, a Thursday. */
  lemma Epoch()
    ensures CivilFromDays(0) == CivilDate(1970, 0, 1)
    ensures WeekDay(0) == 4
  {
    assert 719468 / 146097 == 4 && 719468 % 146097 == 135080;
    assert YearOfEra(135080) == 369;
    assert EraYearStart(369) == 134774;
    assert (5 * 306 + 2) / 153 == 10 && MonthStart(10) == 306;
  }

  /** Days before the March-based year `y` (the year that starts on 1 March of `y`). */
  function YearStart(y: int): int {
    y / 400 * 146097 + EraYearStart(y % 400)
  }

  /** A March-based year has 365 or 366 days. */
  lemma YearLength(y: int)
    ensures 365 <= YearStart(y + 1) - YearStart(y) <= 366
  {
    var k := y % 400;
    if k == 399 {
      assert (y + 1) / 400 == y / 400 + 1 && (y + 1) % 400 == 0;
    } else {
      assert (y + 1) / 400 == y / 400 && (y + 1) % 400 == k + 1;
      assert (k + 1) / 4 - k / 4 <= 1 && (k + 1) / 100 - k / 100 <= 1;
      assert (k + 1) / 100 > k / 100 ==> (k + 1) / 4 > k / 4;
    }
  }

  /** Every month has between 28 and 31 days. */
  lemma MonthLength(year: int, month: int)
    requires 0 <= month < 12
    ensures 28 <= MakeDay(year, month + 1, 1) - MakeDay(year, month, 1) <= 31
  {
    MakeDayInYear(year, month, 1);
    if month == 11 {
      assert MakeDay(year, 12, 1) == DaysFromCivil(year + 1, 1, 1);
    } else {
      MakeDayInYear(year, month + 1, 1);
      if month == 1 {
        assert DaysFromCivil(year, 2, 1) == YearStart(year - 1) + MonthStart(11) - 719468;
        assert DaysFromCivil(year, 3, 1) == YearStart(year) + MonthStart(0) - 719468;
        YearLength(year - 1);
      }
    }
  }

  /** Moving a time value back by whole days moves its day and weekday and keeps its time of day. */
  lemma ShiftDays(t: int, k: int)
    ensures Day(t - k * MsPerDay) == Day(t) - k
    ensures TimeWithinDay(t - k * MsPerDay) == TimeWithinDay(t)
    ensures WeekDay(t - k * MsPerDay) == (WeekDay(t) - k) % 7
  {
    var q, r := t / MsPerDay, t % MsPerDay;
    var u := t - k * MsPerDay;
    assert u == (q - k) * MsPerDay + r;
    assert u / MsPerDay == q - k && u % MsPerDay == r;
    var w := Day(t) + 4;
    assert (w - k) % 7 == (w % 7 - k) % 7;
  }

  /** Midnight of a day lies on that day. */
  lemma Midnight(d: int)
    ensures Day(d * MsPerDay) == d && TimeWithinDay(d * MsPerDay) == 0
  {
  }

  /** A day `k` days before the day of `t`, at the time of day of `t`, is `t` moved back `k` days. */
  lemma AtTimeOf(t: int, d: int, k: int)
    requires d == Day(t) - k
    ensures d * MsPerDay + TimeWithinDay(t) == t - k * MsPerDay
  {
    calc {
      d * MsPerDay + TimeWithinDay(t);
      (Day(t) - k) * MsPerDay + TimeWithinDay(t);
      { assert (Day(t) - k) * MsPerDay == Day(t) * MsPerDay - k * MsPerDay; }
      Day(t) * MsPerDay + TimeWithinDay(t) - k * MsPerDay;
    }
  }

  /** Midnights of days `lo` to `hi` days apart are `lo` to `hi` whole days apart. */
  lemma MidnightsApart(a: int, b: int, lo: int, hi: int)
    requires lo <= a - b <= hi
    ensures lo * MsPerDay <= a * MsPerDay - b * MsPerDay <= hi * MsPerDay
  {
    assert a * MsPerDay - b * MsPerDay == (a - b) * MsPerDay;
  }

  /** The month before a month 0..11 has 28 to 31 days, whether or not it lies in the year before. */
  lemma PreviousMonthLength(year: int, month: int)
    requires 0 <= month < 12
    ensures 28 <= MakeDay(year, month, 1) - MakeDay(year, month - 1, 1) <= 31
  {
    if month == 0 {
      MakeDayPreviousYear(year, 1);
      MonthLength(year - 1, 11);
      assert MakeDay(year - 1, 11 + 1, 1) == MakeDay(year, month, 1);
    } else {
      MonthLength(year, month - 1);
    }
  }

  /** The first day of the month before a month 0..11; before January it is December of the year before. */
  lemma PreviousMonthFirst(year: int, month: int)
    requires 0 <= month < 12
    ensures CivilFromDays(MakeDay(year, month - 1, 1))
         == if month == 0 then CivilDate(year - 1, 11, 1) else CivilDate(year, month - 1, 1)
  {
    if month == 0 {
      MakeDayPreviousYear(year, 1);
      FirstOfMonth(year - 1, 11);
    } else {
      FirstOfMonth(year, month - 1);
    }
  }
}
