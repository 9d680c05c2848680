/** Day numbers, after section 21.4.1 of ECMA-262, and what a round trip through them accepts. */
module CalendarDates {

  predicate IsLeap(y: int) {
    y % 4 == 0 && (y % 100 != 0 || y % 400 == 0)
  }

  function DaysInYear(y: int): int {
    if IsLeap(y) then 366 else 365
  }

  /** Days in month m, from 0 for January. */
  function DaysInMonth(y: int, m: int): int
    requires 0 <= m < 12
  {
    if m == 1 then (if IsLeap(y) then 29 else 28)
    else if m in {3, 5, 8, 10} then 30
    else 31
  }

  /** Day number of the first day of a year; day 0 is 1970-01-01. */
  function DayFromYear(y: int): int {
    365 * (y - 1970) + (y - 1969) / 4 - (y - 1901) / 100 + (y - 1601) / 400
  }

  /** Days of the year before month m. */
  function DaysBefore(y: int, m: int): (r: int)
    requires 0 <= m <= 12
    decreases m
  {
    if m == 0 then 0 else DaysBefore(y, m - 1) + DaysInMonth(y, m - 1)
  }

  /** Months beyond the year and days beyond the month carry over. */
  function MakeDay(y: int, m: int, d: int): int {
    DayFromYear(y + m / 12) + DaysBefore(y + m / 12, m % 12) + d - 1
  }

  lemma EveryFourth(y: int)
    ensures (y - 1968) / 4 == (y - 1969) / 4 + if y % 4 == 0 then 1 else 0
  {
  }

  lemma EveryHundredth(y: int)
    ensures (y - 1900) / 100 == (y - 1901) / 100 + if y % 100 == 0 then 1 else 0
  {
  }

  lemma EveryFourHundredth(y: int)
    ensures (y - 1600) / 400 == (y - 1601) / 400 + if y % 400 == 0 then 1 else 0
  {
  }

  lemma HundredthsAreFourths(y: int)
    requires y % 100 == 0
    ensures y % 4 == 0
  {
    var q := y / 100;
    assert y == 4 * (25 * q);
  }

  lemma FourHundredthsAreHundredths(y: int)
    requires y % 400 == 0
    ensures y % 100 == 0
  {
    var q := y / 400;
    assert y == 100 * (4 * q);
  }

  lemma LeapRule(y: int)
    ensures (if y % 4 == 0 then 1 else 0) - (if y % 100 == 0 then 1 else 0) + (if y % 400 == 0 then 1 else 0)
         == if IsLeap(y) then 1 else 0
  {
    if y % 100 == 0 {
      HundredthsAreFourths(y);
    }
    if y % 400 == 0 {
      FourHundredthsAreHundredths(y);
    }
  }

  lemma NextYear(y: int)
    ensures DayFromYear(y + 1) == DayFromYear(y) + DaysInYear(y)
  {
    EveryFourth(y);
    EveryHundredth(y);
    EveryFourHundredth(y);
    LeapRule(y);
  }

  /** The year a day number falls in, searched upwards or downwards. */
  function YearUp(day: int, y: int): (r: int)
    requires DayFromYear(y) <= day
    ensures DayFromYear(r) <= day < DayFromYear(r + 1)
    decreases day - DayFromYear(y)
  {
    NextYear(y);
    if day < DayFromYear(y + 1) then y else YearUp(day, y + 1)
  }

  function YearDown(day: int, y: int): (r: int)
    requires day < DayFromYear(y)
    ensures DayFromYear(r) <= day < DayFromYear(r + 1)
    decreases DayFromYear(y) - day
  {
    NextYear(y - 1);
    if DayFromYear(y - 1) <= day then y - 1 else YearDown(day, y - 1)
  }

  function YearFromDay(day: int): (y: int)
    ensures DayFromYear(y) <= day < DayFromYear(y + 1)
  {
    if DayFromYear(1970) <= day then YearUp(day, 1970) else YearDown(day, 1970)
  }

  /** The month that day k of a year falls in. */
  function MonthFrom(y: int, k: int, m: int): (r: int)
    requires 0 <= m < 12 && DaysBefore(y, m) <= k < DaysBefore(y, 12)
    ensures 0 <= r < 12 && DaysBefore(y, r) <= k < DaysBefore(y, r) + DaysInMonth(y, r)
    decreases 12 - m
  {
    if k < DaysBefore(y, m) + DaysInMonth(y, m) then m else MonthFrom(y, k, m + 1)
  }

  lemma YearLength(y: int)
    ensures DaysBefore(y, 12) == DaysInYear(y)
  {
    assert DaysBefore(y, 3) == DaysInYear(y) - 275;
    assert DaysBefore(y, 6) == DaysInYear(y) - 184;
    assert DaysBefore(y, 9) == DaysInYear(y) - 92;
  }

  datatype Fields = Fields(year: int, month: int, day: int)

  /** UTC year, month from 0, and day of the month of a day number. */
  function FromDay(day: int): (f: Fields)
    ensures 0 <= f.month < 12 && 1 <= f.day <= DaysInMonth(f.year, f.month)
    ensures DayFromYear(f.year) <= day < DayFromYear(f.year + 1)
  {
    var y := YearFromDay(day);
    var k := day - DayFromYear(y);
    NextYear(y);
    YearLength(y);
    var m := MonthFrom(y, k, 0);
    Fields(y, m, k - DaysBefore(y, m) + 1)
  }

  lemma {:induction false} YearsAscend(y: int, z: int)
    requires y <= z
    ensures DayFromYear(y) + 365 * (z - y) <= DayFromYear(z)
    decreases z - y
  {
    if y < z {
      YearsAscend(y, z - 1);
      NextYear(z - 1);
    }
  }

  lemma YearIsUnique(day: int, y: int, z: int)
    requires DayFromYear(y) <= day < DayFromYear(y + 1)
    requires DayFromYear(z) <= day < DayFromYear(z + 1)
    ensures y == z
  {
    if y < z {
      YearsAscend(y + 1, z);
    } else if z < y {
      YearsAscend(z + 1, y);
    }
  }

  lemma {:induction false} MonthsAscend(y: int, m: int, n: int)
    requires 0 <= m <= n <= 12
    ensures DaysBefore(y, m) + 28 * (n - m) <= DaysBefore(y, n)
    decreases n - m
  {
    if m < n {
      MonthsAscend(y, m, n - 1);
    }
  }

  lemma MonthIsUnique(y: int, k: int, m: int, n: int)
    requires 0 <= m < 12 && DaysBefore(y, m) <= k < DaysBefore(y, m) + DaysInMonth(y, m)
    requires 0 <= n < 12 && DaysBefore(y, n) <= k < DaysBefore(y, n) + DaysInMonth(y, n)
    ensures m == n
  {
    if m < n {
      MonthsAscend(y, m + 1, n);
    } else if n < m {
      MonthsAscend(y, n + 1, m);
    }
  }

  lemma DayWithinYear(y: int, m: int, d: int)
    requires 0 <= m < 12 && 1 <= d <= DaysInMonth(y, m)
    ensures 0 <= DaysBefore(y, m) + d - 1 < DaysInYear(y)
  {
    MonthsAscend(y, 0, m);
    MonthsAscend(y, m + 1, 12);
    YearLength(y);
  }

  lemma FieldsAreUnique(day: int, y: int, m: int, d: int)
    requires 0 <= m < 12 && 1 <= d <= DaysInMonth(y, m)
    requires DayFromYear(y) <= day < DayFromYear(y + 1) && day == DayFromYear(y) + DaysBefore(y, m) + d - 1
    ensures FromDay(day) == Fields(y, m, d)
  {
    YearIsUnique(day, y, YearFromDay(day));
    NextYear(y);
    YearLength(y);
    var k := day - DayFromYear(y);
    MonthIsUnique(y, k, m, MonthFrom(y, k, 0));
  }

  /** A calendar date comes back from its day number. */
  lemma DateComesBack(y: int, m: int, d: int)
    requires 0 <= m < 12 && 1 <= d <= DaysInMonth(y, m)
    ensures FromDay(MakeDay(y, m, d)) == Fields(y, m, d)
  {
    DayWithinYear(y, m, d);
    NextYear(y);
    assert m / 12 == 0 && m % 12 == m;
    FieldsAreUnique(MakeDay(y, m, d), y, m, d);
  }

  /** Date.UTC takes a year of at most two digits to be of the twentieth century (section 21.4.3.4). */
  function FullYear(y: int): int {
    if 0 <= y <= 99 then 1900 + y else y
  }

  function Utc(y: int, m: int, d: int): int {
    MakeDay(FullYear(y), m, d)
  }

  /** The check: the fields of the normalised date are the given ones. Months count from 1. */
  predicate SurvivesUtc(y: int, month: int, day: int) {
    FromDay(Utc(y, month - 1, day)) == Fields(y, month - 1, day)
  }

  predicate IsCalendarDate(y: int, month: int, day: int) {
    1 <= month <= 12 && 1 <= day <= DaysInMonth(y, month - 1)
  }

  lemma OldYearsMove(y: int, month: int, day: int)
    requires 0 <= y <= 99 && 0 <= month <= 99 && 0 <= day <= 99
    ensures FromDay(Utc(y, month - 1, day)).year > 99
  {
    var carried := FullYear(y) + (month - 1) / 12;
    assert carried >= 1899;
    var m := (month - 1) % 12;
    MonthsAscend(carried, 0, m);
    YearsAscend(1899, carried);
    NextYear(1898);
    var f := FromDay(Utc(y, month - 1, day));
    if f.year < 1898 {
      YearsAscend(f.year + 1, 1898);
    }
  }

  /** For four digits of year and two each of month and day, the check accepts exactly the dates of the
      proleptic Gregorian calendar with year 100 or later. */
  lemma UtcCheckIsExact(y: int, month: int, day: int)
    requires 0 <= y <= 9999 && 0 <= month <= 99 && 0 <= day <= 99
    ensures SurvivesUtc(y, month, day) <==> 100 <= y && IsCalendarDate(y, month, day)
  {
    if y <= 99 {
      OldYearsMove(y, month, day);
    } else if IsCalendarDate(y, month, day) {
      DateComesBack(y, month - 1, day);
    }
  }
}
