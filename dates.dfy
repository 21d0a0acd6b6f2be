/**
 * The calendar kernel the recurrence engine relies on: System.DateTime
 * restricted to its date part (every value the engine produces is a
 * midnight), in the proleptic Gregorian calendar.
 *
 * Dates are ordered and stepped through their day number, the count of days
 * since 0001-01-01 (DateTime.MinValue), so comparing two DateTime values is
 * comparing day numbers, as .NET compares ticks.
 */
module Dates {

  datatype Date = Date(year: int, month: int, day: int)
  {
    predicate Valid() {
      1 <= month <= 12 && 1 <= day <= DaysInMonth(year, month)
    }
  }

  /** A calendar date that exists (the model's DateTime). */
  type DateTime = d: Date | d.Valid() witness Date(1, 1, 1)

  const MinValue: DateTime := Date(1, 1, 1)
  const MaxValue: DateTime := Date(9999, 12, 31)

  // System.DayOfWeek
  const Sunday := 0
  const Monday := 1
  const Tuesday := 2
  const Wednesday := 3
  const Thursday := 4
  const Friday := 5
  const Saturday := 6

  predicate IsLeapYear(year: int) {
    year % 4 == 0 && (year % 100 != 0 || year % 400 == 0)
  }

  function DaysInMonth(year: int, month: int): (n: int)
    requires 1 <= month <= 12
    ensures 28 <= n <= 31
    ensures month == 2 ==> (n == 29 <==> IsLeapYear(year))
    ensures month != 2 ==> (n == 30 <==> month == 4 || month == 6 || month == 9 || month == 11)
  {
    if month == 2 then (if IsLeapYear(year) then 29 else 28)
    else if month == 4 || month == 6 || month == 9 || month == 11 then 30
    else 31
  }

  function DaysInYear(year: int): int {
    if IsLeapYear(year) then 366 else 365
  }

  /**
   * Days in the years 1 .. year-1 (negative before year 1), year by year;
   * DaysBeforeYearFormula gives the closed form.
   */
  function DaysBeforeYear(year: int): int
    decreases if year >= 1 then year - 1 else 1 - year
  {
    if year == 1 then 0
    else if year > 1 then DaysBeforeYear(year - 1) + DaysInYear(year - 1)
    else DaysBeforeYear(year + 1) - DaysInYear(year)
  }

  /** 365 days a year plus the leap days of the Gregorian rule. */
  function DaysBeforeYearFormula(year: int): int {
    var y := year - 1;
    365 * y + y / 4 - y / 100 + y / 400
  }

  /** Days in the months 1 .. month-1 of the given year. */
  function DaysBeforeMonth(year: int, month: int): int
    requires 1 <= month <= 12
  {
    var common :=
      if month <= 6 then
        if month == 1 then 0 else if month == 2 then 31 else if month == 3 then 59
        else if month == 4 then 90 else if month == 5 then 120 else 151
      else
        if month == 7 then 181 else if month == 8 then 212 else if month == 9 then 243
        else if month == 10 then 273 else if month == 11 then 304 else 334;
    common + if month > 2 && IsLeapYear(year) then 1 else 0
  }

  /** Days since 0001-01-01, which has day number 0. */
  function DayNumber(d: Date): int
    requires d.Valid()
  {
    DaysBeforeYear(d.year) + DaysBeforeMonth(d.year, d.month) + d.day - 1
  }

  /** DateTime.DayOfWeek: 0001-01-01 was a Monday. */
  function DayOfWeek(d: DateTime): (w: int)
    ensures 0 <= w < 7
  {
    (DayNumber(d) + 1) % 7
  }

  predicate IsWeekend(d: DateTime) {
    DayOfWeek(d) == Saturday || DayOfWeek(d) == Sunday
  }

  /** `a < b` on DateTime. */
  predicate Before(a: DateTime, b: DateTime) {
    DayNumber(a) < DayNumber(b)
  }

  /** `a <= b` on DateTime. */
  predicate AtMost(a: DateTime, b: DateTime) {
    DayNumber(a) <= DayNumber(b)
  }

  lemma BeforeTrans(a: DateTime, b: DateTime, c: DateTime)
    requires Before(a, b) && Before(b, c)
    ensures Before(a, c)
  {
  }

  predicate StrictlyIncreasing(s: seq<DateTime>) {
    forall i, j :: 0 <= i < j < |s| ==> Before(s[i], s[j])
  }

  function Min(a: int, b: int): int {
    if a <= b then a else b
  }

  function NextDay(d: DateTime): (r: DateTime)
    ensures DayNumber(r) == DayNumber(d) + 1
  {
    if d.day < DaysInMonth(d.year, d.month) then
      Date(d.year, d.month, d.day + 1)
    else if d.month < 12 then
      Date(d.year, d.month + 1, 1)
    else
      YearStep(d.year);
      Date(d.year + 1, 1, 1)
  }

  function PrevDay(d: DateTime): (r: DateTime)
    ensures DayNumber(r) == DayNumber(d) - 1
  {
    if d.day > 1 then
      Date(d.year, d.month, d.day - 1)
    else if d.month > 1 then
      Date(d.year, d.month - 1, DaysInMonth(d.year, d.month - 1))
    else
      YearStep(d.year - 1);
      Date(d.year - 1, 12, 31)
  }

  /**
   * DateTime.AddDays for a whole number of days: the date whose day number
   * is n more. It exists (DayNumberOnto) and is unique (DayNumberInjective).
   */
  function AddDays(d: DateTime, n: int): (r: DateTime)
    ensures DayNumber(r) == DayNumber(d) + n
  {
    DayNumberOnto(DayNumber(d) + n);
    DayNumberOneToOne();
    var r: DateTime :| DayNumber(r) == DayNumber(d) + n;
    r
  }

  /** Months since January of year 0; DateTime.AddMonths moves it by k. */
  function MonthIndex(d: Date): int {
    d.year * 12 + d.month - 1
  }

  /**
   * DateTime.AddMonths: the same day in the month k months away, clipped to
   * that month's last day.
   */
  function AddMonths(d: DateTime, k: int): (r: DateTime)
    ensures MonthIndex(r) == MonthIndex(d) + k
    ensures r.day == Min(d.day, DaysInMonth(r.year, r.month))
  {
    var mi := MonthIndex(d) + k;
    var y := mi / 12;
    var m := mi % 12 + 1;
    Date(y, m, Min(d.day, DaysInMonth(y, m)))
  }

  /** DateTime.AddYears: 29 February becomes 28 February in a common year. */
  function AddYears(d: DateTime, k: int): (r: DateTime)
    ensures r.year == d.year + k && r.month == d.month
    ensures r.day == Min(d.day, DaysInMonth(r.year, r.month))
  {
    Date(d.year + k, d.month, Min(d.day, DaysInMonth(d.year + k, d.month)))
  }

  // ---------------------------------------------------------------------
  // Calendar arithmetic

  lemma YearStep(year: int)
    ensures DaysBeforeYear(year + 1) == DaysBeforeYear(year) + DaysInYear(year)
  {
  }

  lemma FormulaStep(year: int)
    ensures DaysBeforeYearFormula(year + 1) == DaysBeforeYearFormula(year) + DaysInYear(year)
  {
    var y := year;
    assert y / 4 - (y - 1) / 4 == if y % 4 == 0 then 1 else 0;
    assert y / 100 - (y - 1) / 100 == if y % 100 == 0 then 1 else 0;
    assert y / 400 - (y - 1) / 400 == if y % 400 == 0 then 1 else 0;
  }

  /** The year-by-year count agrees with the closed form. */
  lemma {:induction false} DaysBeforeYearClosedForm(year: int)
    ensures DaysBeforeYear(year) == DaysBeforeYearFormula(year)
    decreases if year >= 1 then year - 1 else 1 - year
  {
    if year > 1 {
      DaysBeforeYearClosedForm(year - 1);
      FormulaStep(year - 1);
    } else if year < 1 {
      DaysBeforeYearClosedForm(year + 1);
      FormulaStep(year);
    }
  }

  /** The 1st of the following month comes a month's length after the 1st. */
  lemma NextMonthStart(y: int, m: int)
    requires 1 <= m <= 12
    ensures m < 12 ==> DayNumber(Date(y, m + 1, 1)) == DayNumber(Date(y, m, 1)) + DaysInMonth(y, m)
    ensures m == 12 ==> DayNumber(Date(y + 1, 1, 1)) == DayNumber(Date(y, m, 1)) + DaysInMonth(y, m)
  {
    if m == 12 {
      YearStep(y);
    }
  }

  /** Every day of an earlier month comes before the 1st of a later month. */
  lemma {:induction false} MonthStartMonotone(y1: int, m1: int, y2: int, m2: int)
    requires 1 <= m1 <= 12 && 1 <= m2 <= 12 && y1 * 12 + m1 < y2 * 12 + m2
    ensures DayNumber(Date(y1, m1, 1)) + DaysInMonth(y1, m1) <= DayNumber(Date(y2, m2, 1))
    decreases y2 * 12 + m2 - (y1 * 12 + m1)
  {
    NextMonthStart(y1, m1);
    if m1 < 12 {
      if y1 * 12 + m1 + 1 < y2 * 12 + m2 {
        MonthStartMonotone(y1, m1 + 1, y2, m2);
      } else {
        assert y1 == y2 && m1 + 1 == m2;
      }
    } else {
      if y1 * 12 + 13 < y2 * 12 + m2 {
        MonthStartMonotone(y1 + 1, 1, y2, m2);
      } else {
        assert y1 + 1 == y2 && m2 == 1;
      }
    }
  }

  /** Dates in an earlier month come first. */
  lemma MonthOrder(a: DateTime, b: DateTime)
    requires MonthIndex(a) < MonthIndex(b)
    ensures Before(a, b)
  {
    MonthStartMonotone(a.year, a.month, b.year, b.month);
  }

  /** Comparing dates in the same month is comparing days. */
  lemma SameMonthOrder(a: DateTime, b: DateTime)
    requires MonthIndex(a) == MonthIndex(b)
    ensures a.year == b.year && a.month == b.month
    ensures DayNumber(a) - DayNumber(b) == a.day - b.day
  {
  }

  /** DayNumber is one-to-one: DateTime values and day numbers correspond. */
  lemma DayNumberInjective(a: DateTime, b: DateTime)
    requires DayNumber(a) == DayNumber(b)
    ensures a == b
  {
    if MonthIndex(a) < MonthIndex(b) {
      MonthOrder(a, b);
    } else if MonthIndex(b) < MonthIndex(a) {
      MonthOrder(b, a);
    } else {
      SameMonthOrder(a, b);
    }
  }

  lemma AddDaysCompose(d: DateTime, m: int, n: int)
    ensures AddDays(AddDays(d, m), n) == AddDays(d, m + n)
  {
    DayNumberInjective(AddDays(AddDays(d, m), n), AddDays(d, m + n));
  }

  /** Every integer is the day number of some date. */
  lemma {:induction false} DayNumberOnto(x: int)
    ensures exists r: DateTime :: DayNumber(r) == x
    decreases if x < 0 then -x else x
  {
    if x == 0 {
      assert DayNumber(MinValue) == 0;
    } else if x > 0 {
      DayNumberOnto(x - 1);
      var p: DateTime :| DayNumber(p) == x - 1;
      assert DayNumber(NextDay(p)) == x;
    } else {
      DayNumberOnto(x + 1);
      var p: DateTime :| DayNumber(p) == x + 1;
      assert DayNumber(PrevDay(p)) == x;
    }
  }

  lemma DayNumberOneToOne()
    ensures forall a: DateTime, b: DateTime :: DayNumber(a) == DayNumber(b) ==> a == b
  {
    forall a: DateTime, b: DateTime | DayNumber(a) == DayNumber(b)
      ensures a == b
    {
      DayNumberInjective(a, b);
    }
  }

  lemma DayOfWeekAfter(d: DateTime, n: int)
    ensures DayOfWeek(AddDays(d, n)) == (DayOfWeek(d) + n) % 7
  {
    var x := DayNumber(d) + 1;
    var y := DayNumber(AddDays(d, n)) + 1;
    ModShift(x, n);
    assert DayOfWeek(AddDays(d, n)) == y % 7 && DayOfWeek(d) == x % 7;
  }

  /** The day of the week read off the day number, given the week it falls in. */
  lemma WeekdayOfNumber(d: DateTime, q: int, w: int)
    requires 0 <= w < 7 && DayNumber(d) + 1 == 7 * q + w
    ensures DayOfWeek(d) == w
  {
    var n := DayNumber(d) + 1;
    assert n % 7 == w by {
      WeekShift(w, q);
    }
  }

  lemma ModShift(x: int, n: int)
    ensures (x + n) % 7 == (x % 7 + n) % 7
  {
    var q := x / 7;
    assert x == 7 * q + x % 7;
    assert x + n == 7 * q + (x % 7 + n);
  }

  lemma WeekShift(x: int, k: int)
    ensures (x + 7 * k) % 7 == x % 7
  {
    var q := x / 7;
    assert x + 7 * k == 7 * (q + k) + x % 7;
  }

  /** Seven days later is the same day of the week. */
  lemma WeekLater(d: DateTime, k: int)
    ensures DayOfWeek(AddDays(d, 7 * k)) == DayOfWeek(d)
  {
    var x := DayNumber(d) + 1;
    var y := DayNumber(AddDays(d, 7 * k)) + 1;
    WeekShift(x, k);
    assert DayOfWeek(AddDays(d, 7 * k)) == y % 7 && DayOfWeek(d) == x % 7;
  }
}
