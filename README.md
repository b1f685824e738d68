# Budget simulator: verified model of the projection engine

The budget simulator is a command-line calculator. It reads pay, tax and
outgoing figures, works out a monthly cash flow, and projects a savings
balance forward month by month. Version 2 (`budget_simulator_v2.py`) also
dates each projected month, records the first month in which the balance
reaches a savings target, and can export the rows. Version 1
(`budget_simulator.py`) has the same cash-flow block and a plain balance loop.

This project models the calculation layer of both versions in Dafny:

- `calendar.dfy` (module `Calendar`): `add_months`. It moves a date by a
  signed number of months. It splits the month offset with floor division
  and modulo by 12, finds the month length by the Gregorian leap-year rule,
  and clamps the day to that length.
- `cash_flow.dfy` (module `CashFlow`): `weekly_gross`, `monthly_from_weekly`
  (the fixed 52/12 factor) and the straight-line block of `main`. That block
  gives gross, net, ISA per month, total expenses and a signed leftover.
- `projection.dfy` (module `Projection`): the version 2 projection loop as a
  method with loop invariants. Each month it accrues the leftover, records a
  printed table line and an exported row, and latches the goal month once.
  The module also has the goal/shortfall report after the loop and the
  version 1 accumulation loop. Both loops are proved against recursive
  specification functions (`BalanceAfter`, `GoalMonth`, `ProjectedRows`,
  `TableLines`), and lemmas state what the program promises about those.
- `input_guard.dfy` (module `InputGuard`): the lower-bound test in the
  number prompts of both versions, as a pure verdict. It documents the
  version 1 defect listed under Findings.
- `options.dfy` (module `Options`): the `Option` type standing in for
  Python's `None`.

Money is an exact `real`, standing in for a Python float. Dates are
`Date(year, month, day)` triples. `ValidDate` holds the invariant of
Python's `date`: year 1..9999, month 1..12, day within the month. Python's
`//` and `%` floor. For the positive divisors used here (12, 4, 100, 400),
they agree with Dafny's Euclidean `/` and `%`. So a negative month count is
modelled exactly.

Two behaviours of the code are worth stating plainly:

- The exported rows (`budget_simulator_v2.py:128-139`) have no change
  field. The month's change is computed and printed
  (`budget_simulator_v2.py:123-125`) but not stored. The model's `Row`
  mirrors the exported dictionary, and the change is carried by the printed
  `TableLine`.
- The goal is tested after each month's accrual
  (`budget_simulator_v2.py:141`). So even with a negative leftover the goal
  is hit in month 1 whenever the starting savings plus one month's leftover
  reach the target. `GoalWithNegativeLeftover` states the exact rule.

## Model

| member | source | states |
|---|---|---|
| `Calendar.IsLeapYear` | budget_simulator_v2.py:64 | a leap year is divisible by 4; outside century years it is exactly a year divisible by 4, and a century year is one exactly when divisible by 400 |
| `Calendar.MonthLengths` | budget_simulator_v2.py:64-65 | twelve month lengths, January first: February has 29 days exactly in a leap year and 28 otherwise, every other month 30 or 31 |
| `Calendar.DaysInMonth` | budget_simulator_v2.py:64-65 | a month has 28 to 31 days; under 30 exactly for February; 29 exactly for February of a Gregorian leap year; 30 exactly for April, June, September, November |
| `Calendar.DaysInMonthIsTableLookup` | budget_simulator_v2.py:64-65 | the case formula equals entry `m - 1` of the twelve-entry table of month lengths |
| `Calendar.NoConsecutiveLeapYears` | budget_simulator_v2.py:64 | the year after a leap year is not a leap year |
| `Calendar.AddMonths` | budget_simulator_v2.py:57-67 | the result is a valid date; its month index (12·year + month − 1) is the input's plus `months`, so the month is in 1..12 and the year carries; the day is the minimum of the input day and the target month's length (never larger than the input day, unchanged exactly when it fits) |
| `Calendar.AddMonthsZero` | budget_simulator_v2.py:57-67 | adding 0 months returns a valid date unchanged |
| `Calendar.AddMonthsTwelve` | budget_simulator_v2.py:57-67 | adding 12 months keeps month and day and adds one to the year; February 29 becomes February 28 of the next year |
| `Calendar.AddMonthsRoundTrip` | budget_simulator_v2.py:57-67 | when the day was not clamped, subtracting the same number of months gives back the original date |
| `Calendar.AddMonthsCompose` | budget_simulator_v2.py:57-67 | two steps of `a` and `b` months reach the same year and month as one step of `a + b`, with a day no larger |
| `Calendar.EndOfJanuaryPlusOneMonth` | budget_simulator_v2.py:64-66 | January 31 plus one month is February 29 in 2024 and 2000, February 28 in 2023 and 1900 |
| `Calendar.AddMonthsRouteMatters` | budget_simulator_v2.py:59-66 | 2024-01-31 plus 1 then 1 month is March 29, plus 2 months is March 31; 2024-01-15 minus 1 month is 2023-12-15 |
| `CashFlow.WeeklyGross` | budget_simulator.py:34-37 | weekly pay is the hourly rate times the paid hours, with overtime hours weighted by the multiplier |
| `CashFlow.WeeklyGrossNonNegative` | budget_simulator_v2.py:49-52 | non-negative rate, hours and multiplier give a non-negative weekly gross |
| `CashFlow.MonthlyFromWeekly` | budget_simulator.py:39-40 | twelve converted months equal 52 weeks of the input; the sign is kept |
| `CashFlow.MonthlyFromWeeklyLinear` | budget_simulator_v2.py:54-55 | the conversion is additive and commutes with scaling |
| `CashFlow.Summarize` | budget_simulator_v2.py:90-98 | 12 × leftover = 52 × weekly gross × (1 − tax/100) − 12 × (outgoings + loan) − 52 × weekly ISA, with no error case and any sign; gross per month and ISA per month are the weekly gross and the weekly ISA converted by 52/12; the tax taken is gross × tax/100; leftover plus expenses is net; expenses minus ISA is outgoings plus loan |
| `CashFlow.NetWithinGross` | budget_simulator.py:62-66 | with non-negative pay inputs and tax in 0..100, net monthly income is between 0 and the gross |
| `CashFlow.TaxAboveHundredGivesNegativeNet` | budget_simulator_v2.py:93-94 | a tax percentage above 100, which the input check allows, makes a positive gross give a negative net |
| `CashFlow.LeftoverSensitivity` | budget_simulator.py:68-71 | raising outgoings or loan by d lowers the leftover by d; raising the weekly ISA by d lowers it by d × 52/12 |
| `CashFlow.ExampleSummary` | budget_simulator_v2.py:90-98 | 15/h for 35 h, 20% tax, 800 + 200 outgoings, 50/week ISA: gross 2275, net 1820, leftover 1810/3 |
| `Projection.BalanceAfter` | budget_simulator_v2.py:121-122 | the running balance after m accruals of the leftover; a non-negative leftover never takes it below the starting savings, a non-positive one never above |
| `Projection.BalanceClosedForm` | budget_simulator_v2.py:111-123 | the balance after m months is starting savings + m × leftover |
| `Projection.BalanceTrend` | budget_simulator_v2.py:121-123 | balances strictly rise, strictly fall or stay constant over the months according to the sign of the leftover |
| `Projection.GoalMonth` | budget_simulator_v2.py:141-142 | a latched month m is in 1..n, its balance reaches the target, and every earlier month's balance is below it; no month latched means every balance in 1..n is below the target |
| `Projection.GoalMonthStable` | budget_simulator_v2.py:141-142 | once latched the month is never overwritten: any longer horizon reports the same month |
| `Projection.AlreadyMetReportsMonthOne` | budget_simulator_v2.py:120-142 | starting savings already at the target with a non-negative leftover are reported as reached in month 1, never month 0 |
| `Projection.AlreadyMetCanBeMissed` | budget_simulator_v2.py:141-155 | savings of 100 against a target of 100 with leftover −1 are reported as missed over 3 months, short by 3 |
| `Projection.GoalWithNonNegativeLeftover` | budget_simulator_v2.py:141-142 | with a leftover ≥ 0 the goal is hit within the horizon iff the horizon is at least one month and the final balance reaches the target |
| `Projection.GoalWithNegativeLeftover` | budget_simulator_v2.py:141-142 | with a leftover < 0 the goal is hit iff the first month's balance reaches the target, and then it is month 1 |
| `Projection.MakeRow` | budget_simulator_v2.py:128-139 | a row carries its month number, date and closing balance, and copies the summary's gross, net, ISA, fixed outgoings, loan payments, total expenses and leftover |
| `Projection.ProjectedRows` | budget_simulator_v2.py:127-139 | a projection of n months has exactly n rows, the last closing at the balance after n months |
| `Projection.ProjectedRowsAt` | budget_simulator_v2.py:120-139 | row i holds month number i + 1, the date `add_months(start, i)` and the balance after i + 1 months |
| `Projection.TableLines` | budget_simulator_v2.py:120-125 | the printed table of n months has n lines, the last with the final balance |
| `Projection.TableLinesAt` | budget_simulator.py:90-94 | line i shows month i + 1, the balance after i + 1 months, and a change equal to the leftover |
| `Projection.Project` | budget_simulator_v2.py:111-142 | the loop returns exactly the specified rows and table lines, the final balance after `months` accruals, and the latched goal month of `GoalMonth` |
| `Projection.ReportGoal` | budget_simulator_v2.py:150-155 | a hit is reported iff a month was latched, with that month number and a valid date (month − 1) months after the start, with a day no later than the start's; otherwise the shortfall plus the final balance is the target |
| `Projection.ReportAfterProjection` | budget_simulator_v2.py:150-155 | after at least one month, a hit is reported with the date of that month's row, and a miss with a positive shortfall equal to target minus final balance |
| `Projection.ProjectSavingsV1` | budget_simulator.py:85-94 | the version 1 loop prints one line per month (none when months ≤ 0) with change equal to the leftover, and ends at the balance after max(months, 0) accruals |
| `Projection.ExampleProjection` | budget_simulator_v2.py:111-155 | 1810/3 a month from 0 over 3 months reaches a target of 1000 in month 2, dated 2024-02-15 from 2024-01-15, and ends at exactly 1810 |
| `InputGuard.GuardV1` | budget_simulator.py:15 | version 1's check never asks again: with a minimum it accepts every value, including those below it; without one the comparison with `None` crashes |
| `InputGuard.GuardV1IgnoresMinimum` | budget_simulator.py:15-18 | a value below the minimum is accepted by version 1 and re-prompted by version 2 |
| `InputGuard.GuardV1AcceptsMinusFive` | budget_simulator.py:11-18 | −5 is accepted against the minimum 0 |
| `InputGuard.GuardV2` | budget_simulator_v2.py:19-22 | accepts exactly when there is no minimum or the value is at least the minimum, and re-prompts exactly otherwise |

## Left out

- Prompting and input: `ask_float`, `ask_int`, `ask_yes_no` and `input()` with their retry loops and parse errors. Only the lower-bound test inside them is modelled, in `InputGuard`. The model assumes no input range that the code does not enforce.
- Presentation: `money`, every `print`, the negative-leftover advice, and `strftime` and `isoformat`. A row holds a `Date` rather than its ISO string. A printed table line holds the numbers rather than formatted text.
- The CSV export (`budget_simulator_v2.py:161-172`): file I/O and `OSError` handling.
- Rounding: `round(..., 2)` on the exported amounts and IEEE float arithmetic. Amounts are exact reals and rows are unrounded. With floats, the computed `change` (`budget_simulator_v2.py:123`) can differ from the leftover in its last bits, though it is printed rounded to 2 decimals. In the worked example the float balance after 3 months is 1809.9999999999998 rather than 1810; it still prints as 1,810.00 and rounds to 1810.0 in the export.
- `date.today()`: the start date is a parameter.
- `Calendar.AddMonths`: the `ValueError` that `date(y, m, day)` raises for a year outside 1..9999 is not modelled. The precondition `CanAddMonths` excludes it, and `Projection.Project` requires `HorizonFits` so that every month's date exists.
- `Projection.Project`: takes `months` as a natural number. Version 2's prompt guarantees at least 1. The zero case is harmless: no rows and no goal.

## Findings

| source | as written | input that shows it | evidently intended | confidence | as-written member | corrected member |
|---|---|---|---|---|---|---|
| budget_simulator.py:15 | `min_value is None and value < min_value` is false whenever a minimum is given, so every value is accepted; the same test at budget_simulator.py:27 lets `months` be 0 or negative | `ask_float("...", 0)` given -5 returns -5 | `min_value is not None and value < min_value`, as in budget_simulator_v2.py:19 and budget_simulator_v2.py:30 | high; not executed | `InputGuard.GuardV1IgnoresMinimum` | `InputGuard.GuardV2` |

Because of this defect, version 1's loop is modelled over any integer
`months` (`Projection.ProjectSavingsV1`), including the zero and negative
counts that its prompt lets through.
