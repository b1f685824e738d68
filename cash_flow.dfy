/** The cash-flow calculator: weekly pay, the 52/12 weekly-to-monthly
    conversion and the monthly summary. Both versions of the program compute
    it with the same functions and the same straight-line block; money is an
    exact `real` standing in for a Python float. */
module CashFlow {

  const WeeksPerYear: real := 52.0
  const MonthsPerYear: real := 12.0

  /** Pay for one week: base hours at the hourly rate plus overtime hours at
      the rate times the overtime multiplier. */
  function WeeklyGross(hourlyRate: real, baseHours: real, otHours: real, otMult: real): (g: real)
    ensures g == hourlyRate * (baseHours + otMult * otHours)
  {
    var basePay := hourlyRate * baseHours;
    var otPay := hourlyRate * otMult * otHours;
    basePay + otPay
  }

  /** Non-negative inputs give a non-negative weekly gross. */
  lemma WeeklyGrossNonNegative(hourlyRate: real, baseHours: real, otHours: real, otMult: real)
    requires hourlyRate >= 0.0 && baseHours >= 0.0 && otHours >= 0.0 && otMult >= 0.0
    ensures WeeklyGross(hourlyRate, baseHours, otHours, otMult) >= 0.0
  {
    assert otMult * otHours >= 0.0;
    assert hourlyRate * (baseHours + otMult * otHours) >= 0.0;
  }

  /** The average monthly figure of a weekly amount: twelve of these months
      hold exactly the 52 weeks of a year. */
  function MonthlyFromWeekly(weeklyAmount: real): (m: real)
    ensures m * MonthsPerYear == weeklyAmount * WeeksPerYear
    ensures (m < 0.0 <==> weeklyAmount < 0.0) && (m == 0.0 <==> weeklyAmount == 0.0)
  {
    weeklyAmount * (WeeksPerYear / MonthsPerYear)
  }

  /** The conversion is linear. */
  lemma MonthlyFromWeeklyLinear(a: real, b: real, k: real)
    ensures MonthlyFromWeekly(a + b) == MonthlyFromWeekly(a) + MonthlyFromWeekly(b)
    ensures MonthlyFromWeekly(k * a) == k * MonthlyFromWeekly(a)
  {
  }

  /** The pay inputs. */
  datatype Income = Income(hourlyRate: real, baseHours: real, otHours: real, otMult: real)

  /** The deduction and outgoing inputs; `taxPercent` is a flat percentage. */
  datatype Expenses = Expenses(taxPercent: real, monthlyOutgoings: real, monthlyLoan: real, weeklyIsa: real)

  /** The monthly summary the program prints and copies into each exported row. */
  datatype Summary = Summary(
    grossWeek: real,
    grossMonth: real,
    netMonth: real,
    isaMonth: real,
    monthlyOutgoings: real,
    monthlyLoan: real,
    expensesMonth: real,
    leftoverMonth: real)

  /** The calculation block of `main`. There is no error case: a deficit is a
      negative leftover. The ensures give the leftover in closed form over the
      inputs (multiplied by 12 to clear the 52/12 constant) and how the
      summary's figures relate. */
  function Summarize(inc: Income, exp: Expenses): (s: Summary)
    ensures s.grossWeek == WeeklyGross(inc.hourlyRate, inc.baseHours, inc.otHours, inc.otMult)
    ensures s.grossMonth == MonthlyFromWeekly(s.grossWeek)
    ensures s.isaMonth == MonthlyFromWeekly(exp.weeklyIsa)
    ensures 12.0 * s.leftoverMonth
         == 52.0 * s.grossWeek * (1.0 - exp.taxPercent / 100.0)
          - 12.0 * (exp.monthlyOutgoings + exp.monthlyLoan)
          - 52.0 * exp.weeklyIsa
    ensures s.grossMonth - s.netMonth == s.grossMonth * exp.taxPercent / 100.0
    ensures s.leftoverMonth + s.expensesMonth == s.netMonth
    ensures s.monthlyOutgoings == exp.monthlyOutgoings && s.monthlyLoan == exp.monthlyLoan
    ensures s.expensesMonth - s.isaMonth == exp.monthlyOutgoings + exp.monthlyLoan
  {
    var grossWeek := WeeklyGross(inc.hourlyRate, inc.baseHours, inc.otHours, inc.otMult);
    var grossMonth := MonthlyFromWeekly(grossWeek);
    var taxRate := exp.taxPercent / 100.0;
    var netMonth := grossMonth * (1.0 - taxRate);
    var isaMonth := MonthlyFromWeekly(exp.weeklyIsa);
    var expensesMonth := exp.monthlyOutgoings + exp.monthlyLoan + isaMonth;
    var leftoverMonth := netMonth - expensesMonth;
    Summary(grossWeek, grossMonth, netMonth, isaMonth, exp.monthlyOutgoings, exp.monthlyLoan,
            expensesMonth, leftoverMonth)
  }

  /** With non-negative pay inputs and a tax rate of at most 100%, the net
      monthly income lies between zero and the gross. */
  lemma NetWithinGross(inc: Income, exp: Expenses)
    requires inc.hourlyRate >= 0.0 && inc.baseHours >= 0.0 && inc.otHours >= 0.0 && inc.otMult >= 0.0
    requires 0.0 <= exp.taxPercent <= 100.0
    ensures 0.0 <= Summarize(inc, exp).netMonth <= Summarize(inc, exp).grossMonth
  {
    var s := Summarize(inc, exp);
    WeeklyGrossNonNegative(inc.hourlyRate, inc.baseHours, inc.otHours, inc.otMult);
    assert s.grossMonth >= 0.0;
    assert s.grossMonth * exp.taxPercent / 100.0 <= s.grossMonth by {
      assert s.grossMonth * exp.taxPercent <= s.grossMonth * 100.0;
    }
  }

  /** Only a lower bound is placed on the tax percentage, so a rate above
      100% is accepted and turns any positive gross into a negative net. */
  lemma TaxAboveHundredGivesNegativeNet(inc: Income, exp: Expenses)
    requires exp.taxPercent > 100.0
    requires Summarize(inc, exp).grossMonth > 0.0
    ensures Summarize(inc, exp).netMonth < 0.0
  {
    var s := Summarize(inc, exp);
    var keep := 1.0 - exp.taxPercent / 100.0;
    assert keep < 0.0;
    assert s.netMonth == s.grossMonth * keep;
    assert s.grossMonth * keep < 0.0;
  }

  /** Each monthly outgoing reduces the leftover pound for pound; a weekly
      contribution reduces it by 52/12 of its amount. */
  lemma LeftoverSensitivity(inc: Income, exp: Expenses, delta: real)
    ensures Summarize(inc, exp.(monthlyOutgoings := exp.monthlyOutgoings + delta)).leftoverMonth
         == Summarize(inc, exp).leftoverMonth - delta
    ensures Summarize(inc, exp.(monthlyLoan := exp.monthlyLoan + delta)).leftoverMonth
         == Summarize(inc, exp).leftoverMonth - delta
    ensures Summarize(inc, exp.(weeklyIsa := exp.weeklyIsa + delta)).leftoverMonth
         == Summarize(inc, exp).leftoverMonth - MonthlyFromWeekly(delta)
  {
  }

  /** A worked example: 35 hours at 15 an hour, 20% tax, 800 outgoings,
      200 loan and 50 a week into the ISA leave 1810/3 (about 603.33) a month. */
  lemma ExampleSummary()
    ensures Summarize(Income(15.0, 35.0, 0.0, 1.5), Expenses(20.0, 800.0, 200.0, 50.0))
         == Summary(525.0, 2275.0, 1820.0, 650.0 / 3.0, 800.0, 200.0, 3650.0 / 3.0, 1810.0 / 3.0)
  {
  }
}
