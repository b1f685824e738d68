/** Calendar dates and month addition with day clamping (`add_months`).

    Python's `date` type only holds valid Gregorian dates in years 1..9999;
    here a date is a plain triple and `ValidDate` is that invariant. */
module Calendar {

  const MinYear := 1
  const MaxYear := 9999

  datatype Date = Date(year: int, month: int, day: int)

  /** The Gregorian rule: every fourth year, except centuries not divisible by 400. */
  predicate IsLeapYear(y: int): (b: bool)
    ensures b ==> y % 4 == 0
    ensures y % 100 != 0 ==> (b <==> y % 4 == 0)
    ensures y % 100 == 0 ==> (b <==> y % 400 == 0)
  {
    y % 4 == 0 && (y % 100 != 0 || y % 400 == 0)
  }

  /** The twelve month lengths of year `y`, January first, as the source
      writes them out. */
  function MonthLengths(y: int): (t: seq<int>)
    ensures |t| == 12
    ensures t[1] == 29 <==> IsLeapYear(y)
    ensures t[1] == 28 <==> !IsLeapYear(y)
    ensures forall i :: 0 <= i < 12 && i != 1 ==> 30 <= t[i] <= 31
  {
    [31, if IsLeapYear(y) then 29 else 28, 31, 30, 31, 30, 31, 31, 30, 31, 30, 31]
  }

  /** Length of month `m` of year `y`: February by the leap-year rule, the
      four 30-day months, and 31 days for the rest. */
  function DaysInMonth(y: int, m: int): (n: int)
    requires 1 <= m <= 12
    ensures 28 <= n <= 31
    ensures n < 30 <==> m == 2
    ensures n == 29 <==> m == 2 && IsLeapYear(y)
    ensures n == 30 <==> m == 4 || m == 6 || m == 9 || m == 11
  {
    if m == 2 then (if IsLeapYear(y) then 29 else 28)
    else if m == 4 || m == 6 || m == 9 || m == 11 then 30
    else 31
  }

  /** The case formula agrees with the table lookup `MonthLengths(y)[m - 1]`. */
  lemma DaysInMonthIsTableLookup(y: int, m: int)
    requires 1 <= m <= 12
    ensures DaysInMonth(y, m) == MonthLengths(y)[m - 1]
  {
    var t := MonthLengths(y);
    assert t[0] == 31 && t[2] == 31 && t[4] == 31 && t[6] == 31 && t[7] == 31 && t[9] == 31 && t[11] == 31;
  }

  /** The year after a leap year is never one. */
  lemma NoConsecutiveLeapYears(y: int)
    requires IsLeapYear(y)
    ensures !IsLeapYear(y + 1)
  {
    var k := y / 4;
    assert y == 4 * k;
    assert (y + 1) % 4 == 1;
  }

  /** What a Python `date` object can hold. */
  predicate ValidDate(d: Date) {
    MinYear <= d.year <= MaxYear && 1 <= d.month <= 12 && 1 <= d.day <= DaysInMonth(d.year, d.month)
  }

  /** Number of months from January of year 0 to the month of `d`. */
  function MonthIndex(d: Date): int {
    d.year * 12 + (d.month - 1)
  }

  /** `add_months(d, months)` returns a date rather than raising: `d` is a
      date and the target year is one `date` accepts. */
  predicate CanAddMonths(d: Date, months: int) {
    ValidDate(d) && MinYear <= d.year + (d.month - 1 + months) / 12 <= MaxYear
  }

  /** Moves `d` by `months` calendar months (negative moves back) and clamps
      the day to the length of the month reached. For the positive divisor 12,
      Dafny's `/` and `%` are Python's `//` and `%`. */
  function AddMonths(d: Date, months: int): (r: Date)
    requires CanAddMonths(d, months)
    ensures ValidDate(r)
    ensures MonthIndex(r) == MonthIndex(d) + months
    ensures r.day <= d.day
    ensures r.day == d.day <==> d.day <= DaysInMonth(r.year, r.month)
    ensures r.day == d.day || r.day == DaysInMonth(r.year, r.month)
  {
    var y := d.year + (d.month - 1 + months) / 12;
    var m := (d.month - 1 + months) % 12 + 1;
    var lastDay := DaysInMonth(y, m);
    Date(y, m, if d.day <= lastDay then d.day else lastDay)
  }

  /** A year and a month in 1..12 are determined by their month index. */
  lemma MonthIndexInjective(a: Date, b: Date)
    requires 1 <= a.month <= 12 && 1 <= b.month <= 12
    requires MonthIndex(a) == MonthIndex(b)
    ensures a.year == b.year && a.month == b.month
  {
  }

  /** Adding no months gives the date back. */
  lemma AddMonthsZero(d: Date)
    requires ValidDate(d)
    ensures CanAddMonths(d, 0) && AddMonths(d, 0) == d
  {
    MonthIndexInjective(AddMonths(d, 0), d);
  }

  /** Adding twelve months keeps month and day and adds one to the year,
      except that February 29 becomes February 28. */
  lemma AddMonthsTwelve(d: Date)
    requires CanAddMonths(d, 12)
    ensures d.month == 2 && d.day == 29 ==> AddMonths(d, 12) == Date(d.year + 1, 2, 28)
    ensures !(d.month == 2 && d.day == 29) ==> AddMonths(d, 12) == Date(d.year + 1, d.month, d.day)
  {
    assert (d.month - 1 + 12) / 12 == 1 && (d.month - 1 + 12) % 12 == d.month - 1;
    var r := AddMonths(d, 12);
    assert r.year == d.year + 1 && r.month == d.month;
    if d.month == 2 {
      if d.day == 29 {
        NoConsecutiveLeapYears(d.year);
      }
    } else {
      assert DaysInMonth(r.year, r.month) == DaysInMonth(d.year, d.month);
    }
  }

  /** When no clamping happens, moving back by the same number of months
      returns the original date. */
  lemma AddMonthsRoundTrip(d: Date, months: int)
    requires CanAddMonths(d, months)
    requires AddMonths(d, months).day == d.day
    ensures CanAddMonths(AddMonths(d, months), -months)
    ensures AddMonths(AddMonths(d, months), -months) == d
  {
    var r := AddMonths(d, months);
    assert (r.month - 1 - months) / 12 == d.year - r.year by {
      assert MonthIndex(r) - months == MonthIndex(d);
    }
    var back := AddMonths(r, -months);
    MonthIndexInjective(back, d);
  }

  /** Two steps reach the same month as one combined step; the day can only
      be smaller, because each step may clamp it. */
  lemma AddMonthsCompose(d: Date, a: int, b: int)
    requires CanAddMonths(d, a) && CanAddMonths(AddMonths(d, a), b)
    ensures CanAddMonths(d, a + b)
    ensures AddMonths(AddMonths(d, a), b).year == AddMonths(d, a + b).year
    ensures AddMonths(AddMonths(d, a), b).month == AddMonths(d, a + b).month
    ensures AddMonths(AddMonths(d, a), b).day <= AddMonths(d, a + b).day
  {
    var two := AddMonths(AddMonths(d, a), b);
    assert (d.month - 1 + a + b) / 12 == two.year - d.year by {
      assert MonthIndex(two) == MonthIndex(d) + a + b;
    }
    var one := AddMonths(d, a + b);
    MonthIndexInjective(two, one);
  }

  /** January 31 plus one month is the last day of February: 29 in a leap
      year (2024, 2000) and 28 otherwise (2023, and the century 1900). */
  lemma EndOfJanuaryPlusOneMonth()
    ensures AddMonths(Date(2024, 1, 31), 1) == Date(2024, 2, 29)
    ensures AddMonths(Date(2023, 1, 31), 1) == Date(2023, 2, 28)
    ensures AddMonths(Date(2000, 1, 31), 1) == Date(2000, 2, 29)
    ensures AddMonths(Date(1900, 1, 31), 1) == Date(1900, 2, 28)
  {
  }

  /** Clamping makes month addition depend on the route taken:
      January 31 plus one month is February 29, and one more month gives
      March 29, but January 31 plus two months at once is March 31. A
      negative count moves back across a year. */
  lemma AddMonthsRouteMatters()
    ensures AddMonths(Date(2024, 1, 31), 1) == Date(2024, 2, 29)
    ensures AddMonths(Date(2024, 2, 29), 1) == Date(2024, 3, 29)
    ensures AddMonths(Date(2024, 1, 31), 2) == Date(2024, 3, 31)
    ensures AddMonths(Date(2024, 1, 15), -1) == Date(2023, 12, 15)
  {
  }
}
