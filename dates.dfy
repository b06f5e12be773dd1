/** The parts of JavaScript's `Date` that the pay-cycle engine relies on.

    A calendar day is a `Day`, the number of days since 1970-01-01; an
    instant is a `Instant`, milliseconds since the epoch. Days have a fixed
    length of 86 400 000 ms (no time zones, no daylight saving).

    The civil calendar follows the ECMAScript definitions: `DayFromYear`
    and `MakeDay` are those of the language standard, and the setters
    `setDate`, `setMonth` and `setFullYear` recompose a date with
    `MakeDay`, so an out-of-range day of month rolls over into the next
    month (January 31 plus one month is March 2 or 3) instead of being
    clamped. */
module Dates {

  type Day = int
  type Instant = int

  const MsPerDay: int := 86400000

  // ---------------------------------------------------------------------
  // Instants and calendar days

  /** The calendar day an instant falls on. */
  function DayOf(t: Instant): Day {
    t / MsPerDay
  }

  /** `setHours(0, 0, 0, 0)` on a date of day `d`. */
  function StartOfDay(d: Day): Instant {
    d * MsPerDay
  }

  /** `setHours(23, 59, 59, 999)` on a date of day `d`. */
  function EndOfDay(d: Day): Instant {
    d * MsPerDay + (MsPerDay - 1)
  }

  /** Normalising an instant to either end of its day keeps its day, and
      the instant lies between the two. */
  lemma DayBounds(t: Instant)
    ensures StartOfDay(DayOf(t)) <= t <= EndOfDay(DayOf(t))
    ensures DayOf(StartOfDay(DayOf(t))) == DayOf(t)
    ensures DayOf(EndOfDay(DayOf(t))) == DayOf(t)
  {
  }

  /** An instant determines its day: `DayOf` of a start or an end of day `d` is `d`. */
  lemma DayOfNormalised(d: Day)
    ensures DayOf(StartOfDay(d)) == d
    ensures DayOf(EndOfDay(d)) == d
  {
  }

  /** Comparing a midnight with a midnight or with an end of day is a
      comparison of calendar days; in particular a midnight is strictly
      before 23:59:59.999 of day `b` exactly when its day is at most `b`. */
  lemma MidnightComparisons(a: Day, b: Day)
    ensures StartOfDay(a) < StartOfDay(b) <==> a < b
    ensures StartOfDay(a) >= StartOfDay(b) <==> a >= b
    ensures StartOfDay(a) < EndOfDay(b) <==> a <= b
    ensures StartOfDay(a) <= EndOfDay(b) <==> a <= b
    ensures StartOfDay(a) > EndOfDay(b) <==> a > b
  {
  }

  // ---------------------------------------------------------------------
  // The proleptic Gregorian calendar of ECMAScript

  predicate IsLeapYear(y: int) {
    y % 4 == 0 && (y % 100 != 0 || y % 400 == 0)
  }

  function DaysInYear(y: int): int {
    if IsLeapYear(y) then 366 else 365
  }

  /** Days in month `m` (0 = January, as `getMonth` counts) of year `y`. */
  function DaysInMonth(y: int, m: int): int
    requires 0 <= m < 12
  {
    if m == 1 then (if IsLeapYear(y) then 29 else 28)
    else if m == 3 || m == 5 || m == 8 || m == 10 then 30
    else 31
  }

  /** Days of year `y` before the first of month `m`. */
  function DaysBeforeMonth(y: int, m: int): int
    requires 0 <= m < 12
  {
    var common :=
      if m == 0 then 0 else if m == 1 then 31 else if m == 2 then 59
      else if m == 3 then 90 else if m == 4 then 120 else if m == 5 then 151
      else if m == 6 then 181 else if m == 7 then 212 else if m == 8 then 243
      else if m == 9 then 273 else if m == 10 then 304 else 334;
    if m >= 2 && IsLeapYear(y) then common + 1 else common
  }

  /** The day number of January 1 of year `y` (ECMAScript DayFromYear; the
      divisions are floor divisions, as Dafny's are for a positive divisor). */
  function DayFromYear(y: int): Day {
    365 * (y - 1970) + (y - 1969) / 4 - (y - 1901) / 100 + (y - 1601) / 400
  }

  /** ECMAScript MakeDay: the day of date `date` of month `month` of year
      `year`, where `month` may lie outside 0..11 (it carries into the
      year) and `date` may lie outside the month (it carries into the
      following or preceding months). */
  function MakeDay(year: int, month: int, date: int): Day {
    var ym := year + month / 12;
    var mn := month % 12;
    DayFromYear(ym) + DaysBeforeMonth(ym, mn) + date - 1
  }

  lemma DaysBeforeMonthStep(y: int, m: int)
    requires 0 <= m < 12
    ensures m < 11 ==> DaysBeforeMonth(y, m + 1) == DaysBeforeMonth(y, m) + DaysInMonth(y, m)
    ensures m == 11 ==> DaysBeforeMonth(y, m) + DaysInMonth(y, m) == DaysInYear(y)
  {
  }

  lemma FourYearStep(y: int)
    ensures (y - 1968) / 4 - (y - 1969) / 4 == if y % 4 == 0 then 1 else 0
  {
  }

  lemma CenturyStep(y: int)
    ensures (y - 1900) / 100 - (y - 1901) / 100 == if y % 100 == 0 then 1 else 0
  {
  }

  lemma QuadricentennialStep(y: int)
    ensures (y - 1600) / 400 - (y - 1601) / 400 == if y % 400 == 0 then 1 else 0
  {
  }

  /** Consecutive years start `DaysInYear` days apart. */
  lemma DayFromYearStep(y: int)
    ensures DayFromYear(y + 1) == DayFromYear(y) + DaysInYear(y)
  {
    FourYearStep(y);
    CenturyStep(y);
    QuadricentennialStep(y);
    LeapYearCount(y);
  }

  /** The length of a year counted the way `DayFromYear` counts leap days. */
  lemma LeapYearCount(y: int)
    ensures DaysInYear(y) == 365 + (if y % 4 == 0 then 1 else 0)
      - (if y % 100 == 0 then 1 else 0) + (if y % 400 == 0 then 1 else 0)
  {
    if y % 100 == 0 {
      var k := y / 100;
      assert y == 4 * (25 * k);
    }
    if y % 400 == 0 {
      var k := y / 400;
      assert y == 100 * (4 * k);
    }
  }

  /** Within the months 0..11 `MakeDay` adds no carry. */
  lemma MakeDayInYear(y: int, m: int, d: int)
    requires 0 <= m < 12
    ensures MakeDay(y, m, d) == DayFromYear(y) + DaysBeforeMonth(y, m) + d - 1
  {
    assert m / 12 == 0 && m % 12 == m;
  }

  /** Later years start later. */
  lemma {:induction false} DayFromYearMonotone(y: int, z: int)
    requires y < z
    ensures DayFromYear(y) + DaysInYear(y) <= DayFromYear(z)
    decreases z - y
  {
    DayFromYearStep(y);
    if y + 1 < z {
      DayFromYearMonotone(y + 1, z);
    }
  }

  // ---------------------------------------------------------------------
  // Decomposing a day number: getFullYear, getMonth, getDate

  /** A date as `getFullYear()`, `getMonth()` (0..11) and `getDate()` see it. */
  datatype CivilDate = CivilDate(year: int, month: int, date: int)

  predicate ValidCivil(c: CivilDate) {
    0 <= c.month < 12 && 1 <= c.date <= DaysInMonth(c.year, c.month)
  }

  function YearUp(n: Day, y: int): (r: int)
    requires DayFromYear(y) <= n
    ensures DayFromYear(r) <= n < DayFromYear(r) + DaysInYear(r)
    decreases n - DayFromYear(y)
  {
    DayFromYearStep(y);
    if n < DayFromYear(y + 1) then y else YearUp(n, y + 1)
  }

  function YearDown(n: Day, y: int): (r: int)
    requires n < DayFromYear(y) + DaysInYear(y)
    ensures DayFromYear(r) <= n < DayFromYear(r) + DaysInYear(r)
    decreases DayFromYear(y) + DaysInYear(y) - n
  {
    DayFromYearStep(y - 1);
    if DayFromYear(y) <= n then y else YearDown(n, y - 1)
  }

  /** The year a day falls in (ECMAScript YearFromTime). */
  function YearOf(n: Day): (y: int)
    ensures DayFromYear(y) <= n < DayFromYear(y) + DaysInYear(y)
  {
    if 0 <= n then YearUp(n, 1970) else YearDown(n, 1969)
  }

  function MonthSearch(y: int, offset: int, m: int): (r: int)
    requires 0 <= m < 12
    requires DaysBeforeMonth(y, m) <= offset < DaysInYear(y)
    ensures 0 <= r < 12
    ensures DaysBeforeMonth(y, r) <= offset < DaysBeforeMonth(y, r) + DaysInMonth(y, r)
    decreases 12 - m
  {
    DaysBeforeMonthStep(y, m);
    if m == 11 || offset < DaysBeforeMonth(y, m + 1) then m else MonthSearch(y, offset, m + 1)
  }

  /** The civil date of a day number; recomposing it with `MakeDay` gives
      the day back. */
  function ToCivil(n: Day): (c: CivilDate)
    ensures ValidCivil(c)
    ensures MakeDay(c.year, c.month, c.date) == n
  {
    var y := YearOf(n);
    var m := MonthSearch(y, n - DayFromYear(y), 0);
    var date := n - DayFromYear(y) - DaysBeforeMonth(y, m) + 1;
    MakeDayInYear(y, m, date);
    CivilDate(y, m, date)
  }

  /** A valid civil date lies within its year's days and its month's days. */
  lemma CivilBounds(c: CivilDate)
    requires ValidCivil(c)
    ensures DayFromYear(c.year) <= MakeDay(c.year, c.month, c.date) < DayFromYear(c.year) + DaysInYear(c.year)
  {
    MakeDayInYear(c.year, c.month, c.date);
    DaysBeforeMonthStep(c.year, c.month);
    if c.month < 11 {
      DaysBeforeMonthStep(c.year, 11);
      assert DaysBeforeMonth(c.year, c.month + 1) <= DaysBeforeMonth(c.year, 11);
    }
  }

  /** Two valid civil dates with the same day number are the same date. */
  lemma CivilUnique(c: CivilDate, d: CivilDate)
    requires ValidCivil(c) && ValidCivil(d)
    requires MakeDay(c.year, c.month, c.date) == MakeDay(d.year, d.month, d.date)
    ensures c == d
  {
    CivilBounds(c);
    CivilBounds(d);
    if c.year < d.year {
      DayFromYearMonotone(c.year, d.year);
    } else if d.year < c.year {
      DayFromYearMonotone(d.year, c.year);
    }
    assert c.year == d.year;
    var y := c.year;
    MakeDayInYear(y, c.month, c.date);
    MakeDayInYear(y, d.month, d.date);
    if c.month < d.month {
      MonthsApart(y, c.month, d.month);
    } else if d.month < c.month {
      MonthsApart(y, d.month, c.month);
    }
  }

  lemma {:induction false} MonthsApart(y: int, m: int, k: int)
    requires 0 <= m < k < 12
    ensures DaysBeforeMonth(y, m) + DaysInMonth(y, m) <= DaysBeforeMonth(y, k)
    decreases k - m
  {
    DaysBeforeMonthStep(y, m);
    if m + 1 < k {
      MonthsApart(y, m + 1, k);
    }
  }

  /** `ToCivil` undoes `MakeDay` on every valid civil date. */
  lemma ToCivilMakeDay(c: CivilDate)
    requires ValidCivil(c)
    ensures ToCivil(MakeDay(c.year, c.month, c.date)) == c
  {
    CivilUnique(ToCivil(MakeDay(c.year, c.month, c.date)), c);
  }

  // ---------------------------------------------------------------------
  // The Date setters used by the engine

  /** `d.setDate(date)` */
  function SetDate(n: Day, date: int): Day {
    var c := ToCivil(n);
    MakeDay(c.year, c.month, date)
  }

  /** `d.setMonth(month)` */
  function SetMonth(n: Day, month: int): Day {
    var c := ToCivil(n);
    MakeDay(c.year, month, c.date)
  }

  /** `d.setFullYear(year)` */
  function SetFullYear(n: Day, year: int): Day {
    var c := ToCivil(n);
    MakeDay(year, c.month, c.date)
  }

  /** `d.setDate(d.getDate() + k)`: exactly `k` days later, whatever the month. */
  function AddDays(n: Day, k: int): (r: Day)
    ensures r == n + k
  {
    SetDate(n, ToCivil(n).date + k)
  }

  /** `d.setMonth(d.getMonth() + k)` */
  function AddMonths(n: Day, k: int): Day {
    SetMonth(n, ToCivil(n).month + k)
  }

  /** `d.setFullYear(d.getFullYear() + k)` */
  function AddYears(n: Day, k: int): Day {
    SetFullYear(n, ToCivil(n).year + k)
  }

  lemma MakeDayNextMonth(y: int, m: int, d: int)
    requires 0 <= m < 12
    ensures MakeDay(y, m + 1, d) == MakeDay(y, m, d) + DaysInMonth(y, m)
  {
    MakeDayInYear(y, m, d);
    DaysBeforeMonthStep(y, m);
    if m == 11 {
      DayFromYearStep(y);
      assert (m + 1) / 12 == 1 && (m + 1) % 12 == 0;
      MakeDayInYear(y + 1, 0, d);
    } else {
      MakeDayInYear(y, m + 1, d);
    }
  }

  lemma MakeDayPreviousMonth(y: int, m: int, d: int)
    requires 0 <= m < 12
    ensures m == 0 ==> MakeDay(y, m - 1, d) == MakeDay(y, m, d) - DaysInMonth(y - 1, 11)
    ensures m > 0 ==> MakeDay(y, m - 1, d) == MakeDay(y, m, d) - DaysInMonth(y, m - 1)
  {
    MakeDayInYear(y, m, d);
    if m == 0 {
      DayFromYearStep(y - 1);
      DaysBeforeMonthStep(y - 1, 11);
      assert (m - 1) / 12 == -1 && (m - 1) % 12 == 11;
      MakeDayInYear(y - 1, 11, d);
    } else {
      DaysBeforeMonthStep(y, m - 1);
      MakeDayInYear(y, m - 1, d);
    }
  }

  /** One month later is 28 to 31 days later: the day of month is kept
      and the length of the current month is added. */
  lemma AddOneMonth(n: Day)
    ensures AddMonths(n, 1) == n + DaysInMonth(ToCivil(n).year, ToCivil(n).month)
    ensures n + 28 <= AddMonths(n, 1) <= n + 31
  {
    var c := ToCivil(n);
    MakeDayNextMonth(c.year, c.month, c.date);
  }

  /** One month earlier is 28 to 31 days earlier: the day of month is kept
      and the length of the previous month is subtracted. */
  lemma SubtractOneMonth(n: Day)
    ensures n - 31 <= AddMonths(n, -1) <= n - 28
  {
    var c := ToCivil(n);
    AddMonthsOfCivil(n, -1);
    MakeDayPreviousMonth(c.year, c.month, c.date);
    if c.month > 0 {
      MonthLengthBounds(c.year, c.month - 1);
    } else {
      MonthLengthBounds(c.year - 1, 11);
    }
  }

  lemma AddMonthsOfCivil(n: Day, k: int)
    ensures AddMonths(n, k) == MakeDay(ToCivil(n).year, ToCivil(n).month + k, ToCivil(n).date)
  {
  }

  lemma MonthLengthBounds(y: int, m: int)
    requires 0 <= m < 12
    ensures 28 <= DaysInMonth(y, m) <= 31
    ensures m == 11 ==> DaysInMonth(y, m) == 31
  {
  }

  /** One month back and one month forward never lands before the start:
      it is the same day when the day of month exists in the previous
      month, and otherwise a day in the following month (March 31 goes
      back to March 2 or 3 and forward to April 2 or 3). */
  lemma MonthBackThenForward(n: Day)
    ensures n <= AddMonths(AddMonths(n, -1), 1)
  {
    var c := ToCivil(n);
    AddMonthsOfCivil(n, -1);
    MonthAfterCivil(AddMonths(n, -1), MonthBefore(c));
  }

  /** One month after a valid civil date adds the length of its month. */
  lemma MonthAfterCivil(p: Day, b: CivilDate)
    requires ValidCivil(b) && p == MakeDay(b.year, b.month, b.date)
    ensures AddMonths(p, 1) == p + DaysInMonth(b.year, b.month)
  {
    ToCivilMakeDay(b);
    AddOneMonth(p);
  }

  /** The civil date `setMonth(getMonth() - 1)` lands on, and a bound
      saying that one month after it is not before `c`. */
  function MonthBefore(c: CivilDate): (b: CivilDate)
    requires ValidCivil(c)
    ensures ValidCivil(b)
    ensures MakeDay(c.year, c.month - 1, c.date) == MakeDay(b.year, b.month, b.date)
    ensures MakeDay(c.year, c.month, c.date) <= MakeDay(b.year, b.month, b.date) + DaysInMonth(b.year, b.month)
  {
    var py, pm := if c.month > 0 then c.year else c.year - 1, if c.month > 0 then c.month - 1 else 11;
    PreviousMonthDate(c.year, c.month, c.date);
    MakeDayPreviousMonth(c.year, c.month, c.date);
    if c.date <= DaysInMonth(py, pm) then
      CivilDate(py, pm, c.date)
    else
      SameMonthDates(c.year, c.month, c.date, c.date - DaysInMonth(py, pm));
      CivilDate(c.year, c.month, c.date - DaysInMonth(py, pm))
  }

  /** Month `m - 1` of year `y` is month 11 of the year before when `m` is 0. */
  lemma PreviousMonthDate(y: int, m: int, d: int)
    requires 0 <= m < 12
    ensures m == 0 ==> MakeDay(y, m - 1, d) == MakeDay(y - 1, 11, d)
  {
    if m == 0 {
      assert (m - 1) / 12 == -1 && (m - 1) % 12 == 11;
    }
  }

  /** One year later is 364 to 366 days later (February 29 rolls over to
      March 1). */
  lemma AddOneYear(n: Day)
    ensures n + 364 <= AddYears(n, 1) <= n + 366
  {
    var c := ToCivil(n);
    MakeDayNextYear(c.year, c.month, c.date);
  }

  /** One year earlier is 364 to 366 days earlier. */
  lemma SubtractOneYear(n: Day)
    ensures n - 366 <= AddYears(n, -1) <= n - 364
  {
    var c := ToCivil(n);
    MakeDayNextYear(c.year - 1, c.month, c.date);
  }

  /** The same month and date a year later is 365 or 366 days later. */
  lemma MakeDayNextYear(y: int, m: int, d: int)
    requires 0 <= m < 12
    ensures MakeDay(y, m, d) + 365 <= MakeDay(y + 1, m, d) <= MakeDay(y, m, d) + 366
  {
    DayFromYearStep(y);
    MakeDayInYear(y, m, d);
    MakeDayInYear(y + 1, m, d);
    NoConsecutiveLeapYears(y);
    var shift := DaysBeforeMonth(y + 1, m) - DaysBeforeMonth(y, m);
    if m < 2 {
      assert shift == 0;
    } else if IsLeapYear(y) {
      assert shift == -1 && DaysInYear(y) == 366;
    } else {
      assert 0 <= shift <= 1 && DaysInYear(y) == 365;
    }
  }

  lemma NoConsecutiveLeapYears(y: int)
    ensures IsLeapYear(y) ==> !IsLeapYear(y + 1)
  {
    if y % 4 == 0 {
      assert (y + 1) % 4 == 1;
    }
  }

  /** Two dates of the same month lie as many days apart as their numbers. */
  lemma SameMonthDates(y: int, m: int, a: int, b: int)
    requires 0 <= m < 12
    ensures MakeDay(y, m, b) == MakeDay(y, m, a) + (b - a)
  {
    MakeDayInYear(y, m, a);
    MakeDayInYear(y, m, b);
  }

  /** Adding a month and taking it away again need not give the date
      back: January 31 plus one month is March 2 (leap year) or March 3,
      and that date minus one month is February 2 or 3, not January 31. */
  lemma MonthStepsDoNotCancel(y: int)
    ensures AddMonths(MakeDay(y, 0, 31), 1) == MakeDay(y, 2, if IsLeapYear(y) then 2 else 3)
    ensures AddMonths(AddMonths(MakeDay(y, 0, 31), 1), -1) == MakeDay(y, 1, if IsLeapYear(y) then 2 else 3)
    ensures AddMonths(AddMonths(MakeDay(y, 0, 31), 1), -1) != MakeDay(y, 0, 31)
  {
    var spill := if IsLeapYear(y) then 2 else 3;
    var jan31 := MakeDay(y, 0, 31);
    MakeDayInYear(y, 0, 31);
    MakeDayInYear(y, 1, 31);
    MakeDayInYear(y, 2, spill);
    MakeDayInYear(y, 1, spill);
    ToCivilMakeDay(CivilDate(y, 0, 31));
    assert AddMonths(jan31, 1) == MakeDay(y, 1, 31);
    var march := MakeDay(y, 2, spill);
    assert MakeDay(y, 1, 31) == march;
    ToCivilMakeDay(CivilDate(y, 2, spill));
    assert AddMonths(march, -1) == MakeDay(y, 1, spill);
  }
}
