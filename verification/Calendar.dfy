/** The proleptic Gregorian calendar of RFC 3339 (section 5.7 and Appendix C), counted the simple way,
    and the closed-form day count the time parser uses instead. */
module Calendar {
  import opened Types

  datatype Date = Date(year: int, month: int, day: int)

  predicate IsLeap(y: int) {
    y % 4 == 0 && (y % 100 != 0 || y % 400 == 0)
  }

  function YearLength(y: int): int {
    if IsLeap(y) then 366 else 365
  }

  function MonthLength(y: int, m: int): int
    requires 1 <= m <= 12
  {
    if m == 2 then (if IsLeap(y) then 29 else 28)
    else if m == 4 || m == 6 || m == 9 || m == 11 then 30
    else 31
  }

  predicate ValidDate(d: Date) {
    1 <= d.month <= 12 && 1 <= d.day <= MonthLength(d.year, d.month)
  }

  // ---- The simple count ----

  /** Days from 1970-01-01 to January 1 of year `y`, year by year in either direction. */
  function DaysToYear(y: int): int
    decreases if y < 1970 then 1970 - y else y - 1970
  {
    if y == 1970 then 0
    else if y > 1970 then DaysToYear(y - 1) + YearLength(y - 1)
    else DaysToYear(y + 1) - YearLength(y)
  }

  /** Days from January 1 to the first of month `m`, month by month. */
  function DaysToMonth(y: int, m: int): int
    requires 1 <= m <= 12
  {
    if m == 1 then 0 else DaysToMonth(y, m - 1) + MonthLength(y, m - 1)
  }

  /** Days from 1970-01-01 to `d`. */
  function DayNumber(d: Date): int
    requires ValidDate(d)
  {
    DaysToYear(d.year) + DaysToMonth(d.year, d.month) + d.day - 1
  }

  // ---- The program's count ----

  /** Hinnant's closed form, with the unsigned 32-bit steps of the program: it is applied to unchecked dates too. */
  function CivilDays(year: int, m: int, d: int): int {
    var y := if m <= 2 then year - 1 else year;
    var era := TruncDiv(if y >= 0 then y else y - 399, 400);
    var yoe := (y - era * 400) % TWO_TO_THE_32;
    var doy := (TruncDiv(153 * (if m > 2 then m - 3 else m + 9) + 2, 5) + d - 1) % TWO_TO_THE_32;
    var doe := (yoe * 365 + yoe / 4 - yoe / 100 + doy) % TWO_TO_THE_32;
    era * 146097 + doe - 719468
  }

  // ---- They agree ----

  function LeapYearsBefore(y: int): int {
    (y - 1) / 4 - (y - 1) / 100 + (y - 1) / 400
  }

  lemma LeapYearStep(y: int)
    ensures LeapYearsBefore(y + 1) == LeapYearsBefore(y) + if IsLeap(y) then 1 else 0
  {
    DivStep(y, 4);
    DivStep(y, 100);
    DivStep(y, 400);
    if y % 400 == 0 {
      DivisibleBy100(y);
    }
    if y % 100 == 0 {
      DivisibleBy4(y);
    }
  }

  lemma DivStep(y: int, n: int)
    requires n == 4 || n == 100 || n == 400
    ensures y / n == (y - 1) / n + if y % n == 0 then 1 else 0
  {
  }

  lemma DivisibleBy100(y: int)
    requires y % 400 == 0
    ensures y % 100 == 0
  {
    assert y == 100 * (4 * (y / 400));
  }

  lemma DivisibleBy4(y: int)
    requires y % 100 == 0
    ensures y % 4 == 0
  {
    assert y == 4 * (25 * (y / 100));
  }

  lemma {:induction false} DaysToYearClosed(y: int)
    ensures DaysToYear(y) == 365 * (y - 1970) + LeapYearsBefore(y) - LeapYearsBefore(1970)
    decreases if y < 1970 then 1970 - y else y - 1970
  {
    if y > 1970 {
      DaysToYearClosed(y - 1);
      LeapYearStep(y - 1);
    } else if y < 1970 {
      DaysToYearClosed(y + 1);
      LeapYearStep(y);
    }
  }

  /** Day of the year counted from March 1, by month, as the closed form has it. */
  lemma MonthTable(y: int, m: int)
    requires 1 <= m <= 12
    ensures DaysToMonth(y, m) ==
            if m <= 2 then 31 * (m - 1)
            else 59 + (153 * (m - 3) + 2) / 5 + if IsLeap(y) then 1 else 0
  {
    MonthSteps(y);
  }

  lemma MonthSteps(y: int)
    ensures
      var leap := if IsLeap(y) then 1 else 0;
      && DaysToMonth(y, 1) == 0 && DaysToMonth(y, 2) == 31 && DaysToMonth(y, 3) == 59 + leap
      && DaysToMonth(y, 4) == 90 + leap && DaysToMonth(y, 5) == 120 + leap && DaysToMonth(y, 6) == 151 + leap
      && DaysToMonth(y, 7) == 181 + leap && DaysToMonth(y, 8) == 212 + leap && DaysToMonth(y, 9) == 243 + leap
      && DaysToMonth(y, 10) == 273 + leap && DaysToMonth(y, 11) == 304 + leap && DaysToMonth(y, 12) == 334 + leap
  {
    assert DaysToMonth(y, 4) == DaysToMonth(y, 3) + 31;
    assert DaysToMonth(y, 6) == DaysToMonth(y, 5) + 31;
    assert DaysToMonth(y, 8) == DaysToMonth(y, 7) + 31;
    assert DaysToMonth(y, 10) == DaysToMonth(y, 9) + 30;
    assert DaysToMonth(y, 12) == DaysToMonth(y, 11) + 30;
  }

  /** The era of 400 years is taken with floor division, also for negative years. */
  lemma EraIsFloor(y: int)
    ensures TruncDiv(if y >= 0 then y else y - 399, 400) == y / 400
    ensures 0 <= y - y / 400 * 400 < 400
  {
  }

  /** Splitting off whole eras: the day count inside the era and the era together count years from year 0. */
  lemma EraDays(y: int)
    ensures
      var era, yoe := y / 400, y % 400;
      era * 146097 + yoe * 365 + yoe / 4 - yoe / 100 == 365 * y + y / 4 - y / 100 + y / 400
  {
    var era, yoe := y / 400, y % 400;
    assert y == 400 * era + yoe;
    assert y / 4 == 100 * era + yoe / 4;
    assert y / 100 == 4 * era + yoe / 100;
  }

  lemma NoWrap(x: int)
    requires 0 <= x < TWO_TO_THE_32
    ensures x % TWO_TO_THE_32 == x
  {
  }

  /** Day of the year counted from March 1. */
  function DayFromMarch(m: int, d: int): int {
    (153 * (if m > 2 then m - 3 else m + 9) + 2) / 5 + d - 1
  }

  lemma CivilDaysWithoutWrap(d: Date)
    requires ValidDate(d)
    ensures
      var y := if d.month <= 2 then d.year - 1 else d.year;
      CivilDays(d.year, d.month, d.day) == 365 * y + y / 4 - y / 100 + y / 400 + DayFromMarch(d.month, d.day) - 719468
  {
    var y := if d.month <= 2 then d.year - 1 else d.year;
    EraIsFloor(y);
    EraDays(y);
    var era, yoe, doy := y / 400, y % 400, DayFromMarch(d.month, d.day);
    assert y - era * 400 == yoe;
    NoWrap(yoe);
    NoWrap(doy);
    NoWrap(yoe * 365 + yoe / 4 - yoe / 100 + doy);
  }

  /** The closed form equals the simple count on every valid date, including years at or below 0. */
  lemma CivilDaysIsDayNumber(d: Date)
    requires ValidDate(d)
    ensures CivilDays(d.year, d.month, d.day) == DayNumber(d)
  {
    CivilDaysWithoutWrap(d);
    DaysToYearClosed(d.year);
    MonthTable(d.year, d.month);
    LeapYearStep(d.year);
  }

  // ---- Order ----

  predicate Before(a: Date, b: Date) {
    a.year < b.year || (a.year == b.year && (a.month < b.month || (a.month == b.month && a.day < b.day)))
  }

  lemma {:induction false} DaysToYearGrows(y: int, z: int)
    requires y < z
    ensures DaysToYear(y) + YearLength(y) <= DaysToYear(z)
    decreases z - y
  {
    if y + 1 < z {
      DaysToYearGrows(y, z - 1);
    }
    assert DaysToYear(z) == DaysToYear(z - 1) + YearLength(z - 1);
  }

  lemma DayOfYearBounds(d: Date)
    requires ValidDate(d)
    ensures 0 <= DaysToMonth(d.year, d.month) + d.day - 1 < YearLength(d.year)
  {
    MonthSteps(d.year);
  }

  lemma {:induction false} DaysToMonthGrows(y: int, m: int, n: int)
    requires 1 <= m < n <= 12
    ensures DaysToMonth(y, m) + MonthLength(y, m) <= DaysToMonth(y, n)
    decreases n - m
  {
    if m + 1 < n {
      DaysToMonthGrows(y, m, n - 1);
    }
  }

  /** A later date has a larger day count. */
  lemma DayNumberIsMonotone(a: Date, b: Date)
    requires ValidDate(a) && ValidDate(b) && Before(a, b)
    ensures CivilDays(a.year, a.month, a.day) < CivilDays(b.year, b.month, b.day)
  {
    CivilDaysIsDayNumber(a);
    CivilDaysIsDayNumber(b);
    if a.year < b.year {
      DaysToYearGrows(a.year, b.year);
      DayOfYearBounds(a);
      DayOfYearBounds(b);
    } else if a.month < b.month {
      DaysToMonthGrows(a.year, a.month, b.month);
    }
  }

  /** Different valid dates have different day counts. */
  lemma DayNumberIsInjective(a: Date, b: Date)
    requires ValidDate(a) && ValidDate(b)
    requires CivilDays(a.year, a.month, a.day) == CivilDays(b.year, b.month, b.day)
    ensures a == b
  {
    if Before(a, b) {
      DayNumberIsMonotone(a, b);
    } else if Before(b, a) {
      DayNumberIsMonotone(b, a);
    }
  }

  // ---- From day counts back to dates ----

  function NextDay(d: Date): Date
    requires ValidDate(d)
  {
    if d.day < MonthLength(d.year, d.month) then d.(day := d.day + 1)
    else if d.month < 12 then Date(d.year, d.month + 1, 1)
    else Date(d.year + 1, 1, 1)
  }

  function PreviousDay(d: Date): Date
    requires ValidDate(d)
  {
    if d.day > 1 then d.(day := d.day - 1)
    else if d.month > 1 then Date(d.year, d.month - 1, MonthLength(d.year, d.month - 1))
    else Date(d.year - 1, 12, 31)
  }

  lemma DayNumberOfNeighbours(d: Date)
    requires ValidDate(d)
    ensures ValidDate(NextDay(d)) && DayNumber(NextDay(d)) == DayNumber(d) + 1
    ensures ValidDate(PreviousDay(d)) && DayNumber(PreviousDay(d)) == DayNumber(d) - 1
  {
    MonthSteps(d.year);
    MonthSteps(d.year - 1);
    assert DaysToYear(d.year + 1) == DaysToYear(d.year) + YearLength(d.year);
    assert DaysToYear(d.year) == DaysToYear(d.year - 1) + YearLength(d.year - 1);
  }

  /** The valid date that lies `days` days after 1970-01-01; by DayNumberIsInjective there is only one.
      This is all the model knows about `gmtime_r`. */
  function DateOf(days: int): (d: Date)
    ensures ValidDate(d) && DayNumber(d) == days
    decreases if days < 0 then -days else days
  {
    if days == 0 then Date(1970, 1, 1)
    else if days > 0 then
      var d := DateOf(days - 1);
      DayNumberOfNeighbours(d);
      NextDay(d)
    else
      var d := DateOf(days + 1);
      DayNumberOfNeighbours(d);
      PreviousDay(d)
  }
}
