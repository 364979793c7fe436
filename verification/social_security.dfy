/** Capped social-security amounts (main.py,
    `_calculate_employee_social_security_tax` and
    `_calculate_employer_social_security_contribution`). */
module SocialSecurity {
  import opened Wrappers
  import opened RealArith

  /** The `social_security` section of the configuration. An absent rate
      counts as 0; an absent maximum means no cap. */
  datatype SocialSecurityRule = SocialSecurityRule(
    employeeRate: Option<real>,
    employerRate: Option<real>,
    maxEmployeeContribution: Option<real>,
    maxEmployerContribution: Option<real>)

  /** `gross * rate`, capped at `cap` when there is one. */
  function Capped(gross: real, rate: Option<real>, cap: Option<real>): (c: real)
    ensures c <= gross * rate.GetOr(0.0)
    ensures cap.Some? ==> c <= cap.value
    ensures c == gross * rate.GetOr(0.0) || (cap.Some? && c == cap.value)
  {
    AtMost(gross * rate.GetOr(0.0), cap)
  }

  /** `min(c, cap)`, with an absent cap standing for infinity. */
  function AtMost(c: real, cap: Option<real>): (m: real) {
    match cap
    case None => c
    case Some(m) => if c <= m then c else m
  }

  lemma AtMostMonotone(c1: real, c2: real, cap: Option<real>)
    requires c1 <= c2
    ensures AtMost(c1, cap) <= AtMost(c2, cap)
  {
  }

  /** The employee side, which is withheld from net pay: the employee rate
      applied to gross pay, at most the employee maximum. */
  function EmployeeContribution(gross: real, ss: SocialSecurityRule): (c: real)
    ensures c <= gross * ss.employeeRate.GetOr(0.0)
    ensures ss.maxEmployeeContribution.Some? ==> c <= ss.maxEmployeeContribution.value
    ensures c == gross * ss.employeeRate.GetOr(0.0)
            || (ss.maxEmployeeContribution.Some? && c == ss.maxEmployeeContribution.value)
  {
    Capped(gross, ss.employeeRate, ss.maxEmployeeContribution)
  }

  /** The employer side, which is only reported: the employer rate applied to
      gross pay, at most the employer maximum. */
  function EmployerContribution(gross: real, ss: SocialSecurityRule): (c: real)
    ensures c <= gross * ss.employerRate.GetOr(0.0)
    ensures ss.maxEmployerContribution.Some? ==> c <= ss.maxEmployerContribution.value
    ensures c == gross * ss.employerRate.GetOr(0.0)
            || (ss.maxEmployerContribution.Some? && c == ss.maxEmployerContribution.value)
  {
    Capped(gross, ss.employerRate, ss.maxEmployerContribution)
  }

  /** Below the cap the contribution is exactly the rate times gross pay. */
  lemma CappedBelowCap(gross: real, rate: Option<real>, cap: Option<real>)
    requires cap.None? || gross * rate.GetOr(0.0) <= cap.value
    ensures Capped(gross, rate, cap) == gross * rate.GetOr(0.0)
  {
  }

  /** With a non-negative rate the contribution never falls as gross pay rises. */
  lemma CappedMonotone(g1: real, g2: real, rate: Option<real>, cap: Option<real>)
    requires g1 <= g2 && rate.GetOr(0.0) >= 0.0
    ensures Capped(g1, rate, cap) <= Capped(g2, rate, cap)
  {
    var r := rate.GetOr(0.0);
    MulMonotone(g1, g2, r);
    AtMostMonotone(g1 * r, g2 * r, cap);
  }

  /** With a positive rate, every gross pay from `cap / rate` on yields exactly
      the cap. */
  lemma CappedSaturates(gross: real, rate: real, cap: real)
    requires rate > 0.0
    requires gross >= cap / rate
    ensures Capped(gross, Some(rate), Some(cap)) == cap
  {
    assert gross * rate >= (cap / rate) * rate by {
      assert gross * rate - (cap / rate) * rate == (gross - cap / rate) * rate;
    }
    assert (cap / rate) * rate == cap;
  }
}
