/** The savings projection: a balance that grows by the monthly leftover,
    one exported row and one printed table line per month, and the first
    month whose closing balance reaches the savings target. */
module Projection {

  import opened Options
  import opened Calendar
  import opened CashFlow

  /** One exported row: the month number, the calendar month it falls in and
      the summary figures, with the balance at the end of that month.
      Amounts are kept unrounded. */
  datatype Row = Row(
    monthNumber: int,
    monthDate: Date,
    grossMonth: real,
    netMonth: real,
    isaMonth: real,
    fixedOutgoings: real,
    loanPayments: real,
    totalExpensesPlusIsa: real,
    leftoverMonth: real,
    savingsEnd: real)

  /** One printed line of the projection table: month, closing balance and
      the change over the month. */
  datatype TableLine = TableLine(month: int, savingsEnd: real, change: real)

  /** How the goal is reported after the projection: the month it is first
      reached and that month's date, or how far the final balance falls short. */
  datatype GoalReport = Hit(month: int, date: Date) | Short(shortBy: real)

  /** The balance after `m` months, one accrual of the leftover per month.
      A non-negative leftover never takes it below the start, a non-positive
      one never above. */
  function BalanceAfter(start: real, leftover: real, m: nat): (b: real)
    ensures leftover >= 0.0 ==> b >= start
    ensures leftover <= 0.0 ==> b <= start
  {
    if m == 0 then start else BalanceAfter(start, leftover, m - 1) + leftover
  }

  /** The balance grows linearly in the number of months. */
  lemma {:induction false} BalanceClosedForm(start: real, leftover: real, m: nat)
    ensures BalanceAfter(start, leftover, m) == start + (m as real) * leftover
  {
    if m > 0 {
      BalanceClosedForm(start, leftover, m - 1);
      assert ((m - 1) as real) * leftover + leftover == (m as real) * leftover;
    }
  }

  /** Balances rise, fall or stay put from month to month according to the
      sign of the leftover. */
  lemma {:induction false} BalanceTrend(start: real, leftover: real, i: nat, j: nat)
    requires i < j
    ensures leftover > 0.0 ==> BalanceAfter(start, leftover, i) < BalanceAfter(start, leftover, j)
    ensures leftover < 0.0 ==> BalanceAfter(start, leftover, i) > BalanceAfter(start, leftover, j)
    ensures leftover == 0.0 ==> BalanceAfter(start, leftover, i) == BalanceAfter(start, leftover, j)
  {
    if i + 1 < j {
      BalanceTrend(start, leftover, i, j - 1);
    }
  }

  /** The month the goal is latched by a scan of months 1..n that records the
      first month whose closing balance reaches the target and then keeps it.
      None when no month of the horizon reaches it. */
  function GoalMonth(start: real, leftover: real, target: real, n: nat): (g: Option<int>)
    ensures g.Some? ==> 1 <= g.value <= n && BalanceAfter(start, leftover, g.value) >= target
    ensures g.Some? ==> forall k :: 1 <= k < g.value ==> BalanceAfter(start, leftover, k) < target
    ensures g.None? ==> forall k :: 1 <= k <= n ==> BalanceAfter(start, leftover, k) < target
  {
    if n == 0 then None
    else
      var earlier := GoalMonth(start, leftover, target, n - 1);
      if earlier.Some? then earlier
      else if BalanceAfter(start, leftover, n) >= target then Some(n)
      else None
  }

  /** Once latched the goal month is never overwritten: a longer horizon
      reports the same month. This follows from the minimality that
      `GoalMonth` guarantees. */
  lemma GoalMonthStable(start: real, leftover: real, target: real, n: nat, n': nat)
    requires n <= n'
    requires GoalMonth(start, leftover, target, n).Some?
    ensures GoalMonth(start, leftover, target, n') == GoalMonth(start, leftover, target, n)
  {
  }

  /** The goal is only checked after a month's accrual, so savings that
      already meet the target are reported as reached in month 1, not 0. */
  lemma AlreadyMetReportsMonthOne(start: real, leftover: real, target: real, n: nat)
    requires start >= target && leftover >= 0.0 && n >= 1
    ensures GoalMonth(start, leftover, target, n) == Some(1)
  {
    assert BalanceAfter(start, leftover, 1) == start + leftover;
    GoalMonthStable(start, leftover, target, 1, n);
  }

  /** ...and with a negative leftover, savings that met the target at the
      start are reported as not reaching it once the first month dips below. */
  lemma AlreadyMetCanBeMissed()
    ensures GoalMonth(100.0, -1.0, 100.0, 3) == None
    ensures 100.0 - BalanceAfter(100.0, -1.0, 3) == 3.0
  {
  }

  /** With a non-negative leftover the balances never fall, so the goal is
      reached within the horizon exactly when the final balance reaches it. */
  lemma {:induction false} GoalWithNonNegativeLeftover(start: real, leftover: real, target: real, n: nat)
    requires leftover >= 0.0
    ensures GoalMonth(start, leftover, target, n).Some? <==> n >= 1 && BalanceAfter(start, leftover, n) >= target
  {
    var g := GoalMonth(start, leftover, target, n);
    if g.Some? && g.value < n {
      BalanceTrend(start, leftover, g.value, n);
    }
  }

  /** With a negative leftover the balances only fall, so the goal is reached
      within the horizon exactly when the first month reaches it, and then it
      is month 1. */
  lemma GoalWithNegativeLeftover(start: real, leftover: real, target: real, n: nat)
    requires leftover < 0.0
    ensures GoalMonth(start, leftover, target, n).Some? <==> n >= 1 && BalanceAfter(start, leftover, 1) >= target
    ensures GoalMonth(start, leftover, target, n).Some? ==> GoalMonth(start, leftover, target, n).value == 1
  {
    if n >= 1 && BalanceAfter(start, leftover, 1) >= target {
      GoalMonthStable(start, leftover, target, 1, n);
    }
  }

  /** The exported row for month `m`. */
  function MakeRow(s: Summary, m: int, date: Date, savingsEnd: real): (r: Row)
    ensures r.monthNumber == m && r.monthDate == date && r.savingsEnd == savingsEnd
    ensures r.leftoverMonth == s.leftoverMonth && r.totalExpensesPlusIsa == s.expensesMonth
    ensures r.grossMonth == s.grossMonth && r.netMonth == s.netMonth && r.isaMonth == s.isaMonth
    ensures r.fixedOutgoings == s.monthlyOutgoings && r.loanPayments == s.monthlyLoan
  {
    Row(m, date, s.grossMonth, s.netMonth, s.isaMonth, s.monthlyOutgoings, s.monthlyLoan,
        s.expensesMonth, s.leftoverMonth, savingsEnd)
  }

  /** Every month of the horizon falls on a date `add_months` can produce:
      the start is a date and the last month's year is at most 9999. */
  predicate HorizonFits(startDate: Date, months: nat) {
    months == 0 || CanAddMonths(startDate, months - 1)
  }

  /** A horizon that fits covers each of its months, and so does every
      shorter horizon. */
  lemma HorizonFitsEach(startDate: Date, months: nat, i: nat)
    requires HorizonFits(startDate, months) && i < months
    ensures CanAddMonths(startDate, i) && HorizonFits(startDate, i) && HorizonFits(startDate, i + 1)
  {
    assert (startDate.month - 1 + i) / 12 <= (startDate.month - 1 + months - 1) / 12;
    if i > 0 {
      assert (startDate.month - 1 + i - 1) / 12 <= (startDate.month - 1 + months - 1) / 12;
    }
  }

  /** The rows a projection of `n` months exports, month 1 first: month `m`
      is dated `startDate` plus `m - 1` months and closes at the balance
      after `m` accruals. */
  function ProjectedRows(s: Summary, startingSavings: real, startDate: Date, n: nat): (rows: seq<Row>)
    requires HorizonFits(startDate, n)
    ensures |rows| == n
    ensures n > 0 ==> rows[n - 1].savingsEnd == BalanceAfter(startingSavings, s.leftoverMonth, n)
  {
    if n == 0 then []
    else
      HorizonFitsEach(startDate, n, n - 1);
      ProjectedRows(s, startingSavings, startDate, n - 1)
        + [MakeRow(s, n, AddMonths(startDate, n - 1), BalanceAfter(startingSavings, s.leftoverMonth, n))]
  }

  /** A projection of `n` months is the one of `n - 1` months followed by
      the row for month `n`. */
  lemma ProjectedRowsStep(s: Summary, startingSavings: real, startDate: Date, n: nat)
    requires n >= 1 && HorizonFits(startDate, n)
    ensures HorizonFits(startDate, n - 1) && CanAddMonths(startDate, n - 1)
    ensures ProjectedRows(s, startingSavings, startDate, n)
         == ProjectedRows(s, startingSavings, startDate, n - 1)
            + [MakeRow(s, n, AddMonths(startDate, n - 1), BalanceAfter(startingSavings, s.leftoverMonth, n))]
  {
    HorizonFitsEach(startDate, n, n - 1);
  }

  /** Row `i` (from 0) of a projection is month `i + 1`, dated `i` months
      after the start, closing at the balance after `i + 1` accruals. */
  lemma {:induction false} ProjectedRowsAt(s: Summary, startingSavings: real, startDate: Date, n: nat, i: nat)
    requires HorizonFits(startDate, n) && i < n
    ensures CanAddMonths(startDate, i)
    ensures ProjectedRows(s, startingSavings, startDate, n)[i]
         == MakeRow(s, i + 1, AddMonths(startDate, i), BalanceAfter(startingSavings, s.leftoverMonth, i + 1))
  {
    HorizonFitsEach(startDate, n, i);
    HorizonFitsEach(startDate, n, n - 1);
    if i < n - 1 {
      ProjectedRowsAt(s, startingSavings, startDate, n - 1, i);
    }
  }

  /** The table a projection of `n` months prints: month, closing balance
      and a change equal to the leftover. */
  function TableLines(startingSavings: real, leftover: real, n: nat): (lines: seq<TableLine>)
    ensures |lines| == n
    ensures n > 0 ==> lines[n - 1].savingsEnd == BalanceAfter(startingSavings, leftover, n)
  {
    if n == 0 then []
    else TableLines(startingSavings, leftover, n - 1)
           + [TableLine(n, BalanceAfter(startingSavings, leftover, n), leftover)]
  }

  /** Line `i` (from 0) of the table is month `i + 1`, its closing balance
      and the leftover as the change. */
  lemma {:induction false} TableLinesAt(startingSavings: real, leftover: real, n: nat, i: nat)
    requires i < n
    ensures TableLines(startingSavings, leftover, n)[i]
         == TableLine(i + 1, BalanceAfter(startingSavings, leftover, i + 1), leftover)
  {
    if i < n - 1 {
      TableLinesAt(startingSavings, leftover, n - 1, i);
    }
  }

  /** The projection loop of version 2: starting from `startingSavings`, each
      month adds the leftover, prints a table line, appends a row dated
      `startDate` plus (month - 1) months, and latches the first month whose
      closing balance reaches `target`. */
  method Project(s: Summary, startingSavings: real, months: nat, startDate: Date, target: real)
    returns (rows: seq<Row>, lines: seq<TableLine>, savings: real, goalHit: Option<int>)
    requires HorizonFits(startDate, months)
    ensures rows == ProjectedRows(s, startingSavings, startDate, months)
    ensures lines == TableLines(startingSavings, s.leftoverMonth, months)
    ensures savings == BalanceAfter(startingSavings, s.leftoverMonth, months)
    ensures goalHit == GoalMonth(startingSavings, s.leftoverMonth, target, months)
  {
    savings := startingSavings;
    goalHit := None;
    rows := [];
    lines := [];
    for m := 1 to months + 1
      invariant HorizonFits(startDate, m - 1)
      invariant rows == ProjectedRows(s, startingSavings, startDate, m - 1)
      invariant lines == TableLines(startingSavings, s.leftoverMonth, m - 1)
      invariant savings == BalanceAfter(startingSavings, s.leftoverMonth, m - 1)
      invariant goalHit == GoalMonth(startingSavings, s.leftoverMonth, target, m - 1)
    {
      var savingsBefore := savings;
      savings := savings + s.leftoverMonth;
      var change := savings - savingsBefore;
      assert savings == BalanceAfter(startingSavings, s.leftoverMonth, m) && change == s.leftoverMonth;
      lines := lines + [TableLine(m, savings, change)];

      HorizonFitsEach(startDate, months, m - 1);
      ProjectedRowsStep(s, startingSavings, startDate, m);
      var monthDate := AddMonths(startDate, m - 1);
      rows := rows + [MakeRow(s, m, monthDate, savings)];

      if goalHit.None? && savings >= target {
        goalHit := Some(m);
      }
    }
  }

  /** The goal message of version 2, from the loop's latched month and final
      balance: the hit month's date is recomputed with `add_months`. */
  function ReportGoal(startDate: Date, goalHit: Option<int>, target: real, finalSavings: real): (r: GoalReport)
    requires goalHit.Some? ==> goalHit.value >= 1 && CanAddMonths(startDate, goalHit.value - 1)
    ensures r.Hit? <==> goalHit.Some?
    ensures r.Hit? ==> r.month == goalHit.value && MonthIndex(r.date) == MonthIndex(startDate) + r.month - 1
    ensures r.Hit? ==> ValidDate(r.date) && r.date.day <= startDate.day
    ensures r.Short? ==> r.shortBy + finalSavings == target
  {
    match goalHit
    case Some(k) => Hit(k, AddMonths(startDate, k - 1))
    case None => Short(target - finalSavings)
  }

  /** After a projection of at least one month, a hit is reported with the
      date of that month's row, and a miss with a positive shortfall. */
  lemma ReportAfterProjection(s: Summary, startingSavings: real, months: nat, startDate: Date, target: real)
    requires months >= 1 && HorizonFits(startDate, months)
    ensures var g := GoalMonth(startingSavings, s.leftoverMonth, target, months);
            g.Some? ==> 1 <= g.value <= months && CanAddMonths(startDate, g.value - 1) &&
                        ReportGoal(startDate, g, target, BalanceAfter(startingSavings, s.leftoverMonth, months))
                        == Hit(g.value, ProjectedRows(s, startingSavings, startDate, months)[g.value - 1].monthDate)
    ensures var g := GoalMonth(startingSavings, s.leftoverMonth, target, months);
            var finalSavings := BalanceAfter(startingSavings, s.leftoverMonth, months);
            g.None? ==> ReportGoal(startDate, g, target, finalSavings) == Short(target - finalSavings) &&
                        target - finalSavings > 0.0
  {
    var g := GoalMonth(startingSavings, s.leftoverMonth, target, months);
    if g.Some? {
      ProjectedRowsAt(s, startingSavings, startDate, months, g.value - 1);
    }
  }

  /** The projection loop of version 1: the same monthly accrual and table,
      without rows or goal. Its input check does not enforce a minimum, so
      `months` may be zero or negative, and then the loop does not run. */
  method ProjectSavingsV1(startingSavings: real, leftoverMonth: real, months: int)
    returns (lines: seq<TableLine>, savings: real)
    ensures lines == TableLines(startingSavings, leftoverMonth, if months > 0 then months else 0)
    ensures savings == BalanceAfter(startingSavings, leftoverMonth, if months > 0 then months else 0)
  {
    savings := startingSavings;
    lines := [];
    var m := 1;
    while m <= months
      invariant 1 <= m <= (if months > 0 then months else 0) + 1
      invariant lines == TableLines(startingSavings, leftoverMonth, m - 1)
      invariant savings == BalanceAfter(startingSavings, leftoverMonth, m - 1)
    {
      var savingsBefore := savings;
      savings := savings + leftoverMonth;
      var change := savings - savingsBefore;
      lines := lines + [TableLine(m, savings, change)];
      m := m + 1;
    }
  }

  /** The worked example: 1810/3 a month from nothing over three months from
      2024-01-15 reaches a target of 1000 in month 2, dated 2024-02-15, and
      ends at exactly 1810. */
  lemma ExampleProjection()
    ensures GoalMonth(0.0, 1810.0 / 3.0, 1000.0, 3) == Some(2)
    ensures BalanceAfter(0.0, 1810.0 / 3.0, 3) == 1810.0
    ensures ReportGoal(Date(2024, 1, 15), Some(2), 1000.0, 1810.0) == Hit(2, Date(2024, 2, 15))
  {
  }
}
