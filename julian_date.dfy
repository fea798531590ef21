/** Calendar date to Julian Day, `date_to_jd` (the algorithm of Duffett-Smith
    and Zwart, "Practical Astronomy with your Calculator or Spreadsheet").

    The source computes the integer parts with `math.trunc` of floating-point
    products; each of them is an exact rational here:
      trunc(yearp / 100.)           = TruncDiv(yearp, 100)
      trunc(A / 4.)                 = TruncDiv(A, 4)
      trunc(365.25 * yearp)         = TruncDiv(1461 * yearp, 4)
      trunc(365.25 * yearp - 0.75)  = TruncDiv(1461 * yearp - 3, 4)
      trunc(30.6001 * (monthp + 1)) = TruncDiv(306001 * (monthp + 1), 10000)
    Dafny's own `/` on int rounds down (it is Euclidean), so truncation toward
    zero is written out in TruncDiv. */
module JulianDate {

  /** Python's `math.trunc(n / d)` for a positive divisor: the quotient rounded
      toward zero. */
  function TruncDiv(n: int, d: int): int
    requires d > 0
  {
    if n >= 0 then n / d else -((-n) / d)
  }

  /** True for dates before 15 October 1582, the first day of the Gregorian
      calendar; the test reads the year and month as given, not the shifted
      ones. */
  predicate BeforeGregorian(year: int, month: int, day: real) {
    || year < 1582
    || (year == 1582 && month < 10)
    || (year == 1582 && month == 10 && day < 15.0)
  }

  /** January and February count as months 13 and 14 of the previous year. */
  function ShiftedYear(year: int, month: int): int {
    if month == 1 || month == 2 then year - 1 else year
  }

  function ShiftedMonth(month: int): int {
    if month == 1 || month == 2 then month + 12 else month
  }

  /** The Gregorian correction B: zero before the reform; from 15 October 1582
      on, 2 - A + trunc(A/4) with A = trunc(yearp/100), which for the years
      concerned is 2 - yearp/100 + yearp/400: minus the number of days the
      reform has dropped by then (-10 in 1582, -13 in 2000). */
  function GregorianCorrection(year: int, month: int, day: real): (b: int)
    ensures BeforeGregorian(year, month, day) ==> b == 0
    ensures !BeforeGregorian(year, month, day) ==>
              b == 2 - ShiftedYear(year, month) / 100 + ShiftedYear(year, month) / 400
  {
    if BeforeGregorian(year, month, day) then 0
    else
      var a := TruncDiv(ShiftedYear(year, month), 100);
      CenturyQuotient(ShiftedYear(year, month));
      2 - a + TruncDiv(a, 4)
  }

  /** For a non-negative year, dividing by 100 and then by 4 is dividing by 400. */
  lemma CenturyQuotient(y: int)
    requires y >= 0
    ensures (y / 100) / 4 == y / 400
  {
    var q := y / 400;
    var r := y % 400;
    assert y == 400 * q + r && 0 <= r < 400;
    assert y / 100 == 4 * q + r / 100;
    assert (4 * q + r / 100) / 4 == q;
  }

  /** The whole days of the years before the shifted year, C. The source
      subtracts 0.75 before truncating when the year is negative; together
      with the truncation toward zero this makes C the floor of 365.25 * yearp
      for every year, so that a year divisible by 4 is a leap year on both
      sides of year 0. */
  function YearDays(yearp: int): (c: int)
    ensures c == (1461 * yearp) / 4
  {
    if yearp < 0 then TruncDiv(1461 * yearp - 3, 4) else TruncDiv(1461 * yearp, 4)
  }

  /** The whole days of the months before the shifted month, D. */
  function MonthDays(monthp: int): int {
    TruncDiv(306001 * (monthp + 1), 10000)
  }

  /** The integer part of the Julian Day, B + C + D + 1720994. */
  function DayNumber(year: int, month: int, day: real): int {
    GregorianCorrection(year, month, day)
      + YearDays(ShiftedYear(year, month))
      + MonthDays(ShiftedMonth(month))
      + 1720994
  }

  /** `date_to_jd`: the Julian Day of a calendar date whose day may carry a
      fraction. The result is always a whole number plus the day plus one
      half (Julian Days begin at noon). */
  function DateToJd(year: int, month: int, day: real): (jd: real)
    ensures jd == DayNumber(year, month, day) as real + day + 0.5
  {
    GregorianCorrection(year, month, day) as real
      + YearDays(ShiftedYear(year, month)) as real
      + MonthDays(ShiftedMonth(month)) as real
      + day + 1720994.5
  }

  // ---- properties ----

  /** The example of the function's documentation: 6 a.m. on 17 February 1985. */
  lemma DocumentationExample()
    ensures DateToJd(1985, 2, 17.25) == 2446113.75
  {
    assert GregorianCorrection(1985, 2, 17.25) == -13;
    assert YearDays(1984) == 724656;
    assert MonthDays(14) == 459;
  }

  /** The reform dropped ten days: Friday 15 October 1582 (Gregorian) follows
      Thursday 4 October 1582 (Julian), and October 1582 has 21 days. */
  lemma {:induction false} GregorianCutover()
    ensures DateToJd(1582, 10, 15.0) - DateToJd(1582, 10, 4.0) == 1.0
    ensures DateToJd(1582, 11, 1.0) - DateToJd(1582, 10, 1.0) == 21.0
  {
    assert GregorianCorrection(1582, 10, 15.0) == -10;
    assert GregorianCorrection(1582, 10, 4.0) == 0;
    assert GregorianCorrection(1582, 10, 1.0) == 0;
    assert GregorianCorrection(1582, 11, 1.0) == -10;
    assert MonthDays(10) == 336 && MonthDays(11) == 367;
  }

  /** Within one month and on one side of the reform, the Julian Day moves with
      the day: adding x to the day adds exactly x to the result. */
  lemma DayShift(year: int, month: int, day: real, x: real)
    requires BeforeGregorian(year, month, day) == BeforeGregorian(year, month, day + x)
    ensures DateToJd(year, month, day + x) == DateToJd(year, month, day) + x
  {
  }

  // ---- month lengths: DateToJd agrees with the calendar ----

  predicate IsLeapYear(year: int, gregorian: bool) {
    if gregorian then (year % 4 == 0 && year % 100 != 0) || year % 400 == 0
    else year % 4 == 0
  }

  function DaysInMonth(year: int, month: int, gregorian: bool): int
    requires 1 <= month <= 12
  {
    if month == 2 then (if IsLeapYear(year, gregorian) then 29 else 28)
    else if month == 4 || month == 6 || month == 9 || month == 11 then 30
    else 31
  }

  function NextMonth(month: int): int {
    if month == 12 then 1 else month + 1
  }

  function NextMonthYear(year: int, month: int): int {
    if month == 12 then year + 1 else year
  }

  /** Between the first of a Gregorian month and the first of the next month
      lie exactly as many days as the Gregorian calendar gives that month. */
  lemma {:induction false} GregorianMonthLength(year: int, month: int)
    requires 1 <= month <= 12
    requires !BeforeGregorian(year, month, 1.0)
    ensures DateToJd(NextMonthYear(year, month), NextMonth(month), 1.0) - DateToJd(year, month, 1.0)
         == DaysInMonth(year, month, true) as real
  {
    MonthDayValues();
    var ny, nm := NextMonthYear(year, month), NextMonth(month);
    if month == 2 {
      var y := year;
      assert y >= 1583;
      YearStep(y);
      LeapStep(y);
      assert GregorianCorrection(y, 3, 1.0) - GregorianCorrection(y, 2, 1.0)
          == -(y / 100 - (y - 1) / 100) + (y / 400 - (y - 1) / 400);
    } else {
      assert ShiftedYear(ny, nm) == ShiftedYear(year, month);
      assert GregorianCorrection(ny, nm, 1.0) == GregorianCorrection(year, month, 1.0);
    }
  }

  /** The same in the Julian calendar, for months that end before the reform. */
  lemma {:induction false} JulianMonthLength(year: int, month: int)
    requires 1 <= month <= 12
    requires BeforeGregorian(NextMonthYear(year, month), NextMonth(month), 1.0)
    ensures DateToJd(NextMonthYear(year, month), NextMonth(month), 1.0) - DateToJd(year, month, 1.0)
         == DaysInMonth(year, month, false) as real
  {
    MonthDayValues();
    var ny, nm := NextMonthYear(year, month), NextMonth(month);
    assert BeforeGregorian(year, month, 1.0);
    if month == 2 {
      YearStep(year);
      LeapStep(year);
    } else {
      assert ShiftedYear(ny, nm) == ShiftedYear(year, month);
    }
  }

  /** D for the shifted months 3..14 (March to February). */
  lemma MonthDayValues()
    ensures MonthDays(3) == 122 && MonthDays(4) == 153 && MonthDays(5) == 183
    ensures MonthDays(6) == 214 && MonthDays(7) == 244 && MonthDays(8) == 275
    ensures MonthDays(9) == 306 && MonthDays(10) == 336 && MonthDays(11) == 367
    ensures MonthDays(12) == 397 && MonthDays(13) == 428 && MonthDays(14) == 459
  {
  }

  /** C grows by 365 days per year, plus one when the year is divisible by 4. */
  lemma YearStep(y: int)
    ensures YearDays(y) - YearDays(y - 1) == 365 + (y / 4 - (y - 1) / 4)
    ensures YearDays(y) - YearDays(y - 1) == if y % 4 == 0 then 366 else 365
  {
    assert (1461 * y) / 4 == 365 * y + y / 4;
    assert (1461 * (y - 1)) / 4 == 365 * (y - 1) + (y - 1) / 4;
    LeapStep(y);
  }

  /** Stepping the year by one moves the number of multiples of 4, 100 and
      400 below it by one exactly when the divisor divides the year. */
  lemma LeapStep(y: int)
    ensures y / 4 - (y - 1) / 4 == if y % 4 == 0 then 1 else 0
    ensures y / 100 - (y - 1) / 100 == if y % 100 == 0 then 1 else 0
    ensures y / 400 - (y - 1) / 400 == if y % 400 == 0 then 1 else 0
  {
  }
}
