/** The lower-bound check applied to each number typed in, as a pure
    verdict on a value already parsed; reading and re-prompting stay outside. */
module InputGuard {

  import opened Options

  /** Accept the value, ask again, or fail with an uncaught `TypeError`
      (a number compared with `None`). */
  datatype Verdict = Accept | Reprompt | Crash

  /** Version 1's check, `min_value is None and value < min_value`: with a
      minimum the conjunction is false at once and every value is accepted;
      without one the comparison with `None` raises. */
  function GuardV1(value: real, minValue: Option<real>): (v: Verdict)
    ensures v != Reprompt
    ensures minValue.Some? ==> v == Accept
    ensures minValue.None? ==> v == Crash
  {
    match minValue
    case None => Crash
    case Some(_) => Accept
  }

  /** Version 1 accepts any value whatever minimum it is given, so a negative
      amount, or zero or negative months, reaches the calculation. */
  lemma GuardV1IgnoresMinimum(value: real, min: real)
    requires value < min
    ensures GuardV1(value, Some(min)) == Accept
    ensures GuardV2(value, Some(min)) == Reprompt
  {
  }

  /** The concrete case: -5 against the minimum 0 used for every amount. */
  lemma GuardV1AcceptsMinusFive()
    ensures GuardV1(-5.0, Some(0.0)) == Accept
  {
  }

  /** Version 2's check, `min_value is not None and value < min_value`:
      re-prompt exactly for values below a given minimum. */
  function GuardV2(value: real, minValue: Option<real>): (v: Verdict)
    ensures v == Accept <==> minValue.None? || value >= minValue.value
    ensures v == Reprompt <==> minValue.Some? && value < minValue.value
  {
    if minValue.Some? && value < minValue.value then Reprompt else Accept
  }
}
