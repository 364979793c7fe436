/** One payroll pass (main.py, `PayrollCalculator.calculate_payroll`), its
    summary (`PayrollResult.get_summary`) and the batch over every registered
    employee (`PayrollSystem.process_all_payroll`). */
module Payroll {
  import opened Wrappers
  import opened OrderedMap
  import opened Deductions
  import opened Employees
  import opened Taxation
  import opened SocialSecurity

  /** Breakdown labels, as the calculator writes them. */
  const IncomeTaxLabel := "Подоходный налог"
  const EmployeeSocialSecurityLabel := "Социальное страхование (сотрудник)"
  const EmployerSocialSecurityLabel := "Социальное страхование (работодатель)"

  /** The rules in force for a pass: the brackets, the social-security
      section and the default deductions in configuration order. The brackets
      are assumed already sorted by floor, as the calculator sorts them when it
      is built; nothing here sorts them, and the lemmas that need the order
      require `SortedByMin` or `WellFormed`. */
  datatype RuleConfig = RuleConfig(
    brackets: seq<Bracket>,
    socialSecurity: SocialSecurityRule,
    defaultDeductions: Entries<DeductionRule>)

  datatype PayrollResult = PayrollResult(
    grossPay: real,
    netPay: real,
    taxes: Entries<real>,
    deductions: Entries<real>,
    employerContributions: Entries<real>)

  /** Sum of the values of a breakdown. */
  function Total(m: Entries<real>): (sum: real)
    decreases |m|
  {
    if |m| == 0 then 0.0 else Total(m[..|m| - 1]) + m[|m| - 1].1
  }

  /** The payroll of one employee. It fails exactly when gross pay cannot be
      computed; otherwise net pay is what is left of gross pay after both
      breakdowns, without any floor, and the employer contribution is reported
      beside them. */
  function CalculatePayroll(e: Employee, cfg: RuleConfig): (r: Result<PayrollResult, PayrollError>)
    ensures r.Failure? <==> (e.basis.Hourly? && e.hoursWorked.None?) || (e.basis.Daily? && e.daysWorked.None?)
    ensures r.Failure? ==> r.error == (if e.basis.Hourly? then MissingHours else MissingDays)
    ensures r.Success? ==>
              var p := r.value;
              && GrossPay(e) == Success(p.grossPay)
              && Keys(p.taxes) == [IncomeTaxLabel, EmployeeSocialSecurityLabel]
              && p.taxes[0].1 == IncomeTax(p.grossPay, e.taxExemptions, cfg.brackets)
              && p.taxes[1].1 == EmployeeContribution(p.grossPay, cfg.socialSecurity)
              && p.deductions == Merge(p.grossPay, cfg.defaultDeductions, e.customDeductions)
              && Keys(p.employerContributions) == [EmployerSocialSecurityLabel]
              && p.employerContributions[0].1 == EmployerContribution(p.grossPay, cfg.socialSecurity)
              && p.netPay + Total(p.taxes) + Total(p.deductions) == p.grossPay
  {
    var gross :- GrossPay(e);
    var incomeTax := IncomeTax(gross, e.taxExemptions, cfg.brackets);
    var employeeShare := EmployeeContribution(gross, cfg.socialSecurity);
    var taxes := [(IncomeTaxLabel, incomeTax), (EmployeeSocialSecurityLabel, employeeShare)];
    assert taxes[..1] == [(IncomeTaxLabel, incomeTax)];
    var deductions := Merge(gross, cfg.defaultDeductions, e.customDeductions);
    var net := gross - Total(taxes) - Total(deductions);
    var employer := [(EmployerSocialSecurityLabel, EmployerContribution(gross, cfg.socialSecurity))];
    Success(PayrollResult(gross, net, taxes, deductions, employer))
  }

  /** Net pay is gross pay less income tax, less the employee's social
      security, less every deduction in the breakdown. */
  lemma NetPayFormula(e: Employee, cfg: RuleConfig)
    requires CalculatePayroll(e, cfg).Success?
    ensures var p := CalculatePayroll(e, cfg).value;
            p.netPay == p.grossPay
                        - (IncomeTax(p.grossPay, e.taxExemptions, cfg.brackets)
                           + EmployeeContribution(p.grossPay, cfg.socialSecurity))
                        - Total(p.deductions)
  {
    var p := CalculatePayroll(e, cfg).value;
    assert |p.taxes| == |Keys(p.taxes)| == 2;
    assert p.taxes[..1][..0] == [];
    assert Total(p.taxes[..1]) == p.taxes[0].1;
    assert Total(p.taxes) == p.taxes[0].1 + p.taxes[1].1;
  }

  /** The employer side is reported only: changing the employer rate or cap
      changes neither net pay nor either breakdown withheld from the employee. */
  lemma EmployerSideNotWithheld(e: Employee, cfg: RuleConfig, rate: Option<real>, cap: Option<real>)
    ensures var cfg' := cfg.(socialSecurity := cfg.socialSecurity.(employerRate := rate, maxEmployerContribution := cap));
            var r, r' := CalculatePayroll(e, cfg), CalculatePayroll(e, cfg');
            r.Success? ==> r'.Success? && r'.value.netPay == r.value.netPay
                           && r'.value.taxes == r.value.taxes
                           && r'.value.deductions == r.value.deductions
  {
  }

  /** The built-in configuration. */
  const DefaultConfig := RuleConfig(
    DefaultBrackets,
    SocialSecurityRule(Some(0.08), Some(0.12), Some(400.0), Some(600.0)),
    DefaultDeductions)

  /** A monthly salary of 6000 under the built-in configuration: income tax
      1199.5, employee social security capped at 400, pension 300 and health
      insurance 50, so net pay 4050.5; the employer side is capped at 600. */
  lemma DefaultConfigExample()
    ensures var e := Employee("e1", "A", Monthly, 6000.0, [], [], None, None, 0.0);
            var r := CalculatePayroll(e, DefaultConfig);
            && r.Success?
            && r.value.taxes == [(IncomeTaxLabel, 1199.5), (EmployeeSocialSecurityLabel, 400.0)]
            && r.value.deductions == [("pension", 300.0), ("health_insurance", 50.0)]
            && r.value.netPay == 4050.5
            && r.value.employerContributions == [(EmployerSocialSecurityLabel, 600.0)]
  {
    var e := Employee("e1", "A", Monthly, 6000.0, [], [], None, None, 0.0);
    DefaultBracketsExample();
    var ds := Evaluated(6000.0, DefaultDeductions);
    assert ds == [("pension", 300.0), ("health_insurance", 50.0)];
    assert NoDupKeys(ds);
    PutAllFresh(ds);
    var cs := Evaluated(6000.0, []);
    assert cs == [];
    var r := CalculatePayroll(e, DefaultConfig);
    assert r.value.deductions == ds;
    assert ds[..1] == [("pension", 300.0)] && ds[..1][..0] == [];
    assert Total(ds) == 350.0;
    NetPayFormula(e, DefaultConfig);
  }

  /** Net pay is not floored at zero: a fixed deduction larger than what is
      left yields a negative net pay. */
  lemma NetPayMayBeNegative()
    ensures var e := Employee("e1", "A", Monthly, 100.0, [], [("loan", Fixed(500.0))], None, None, 0.0);
            var r := CalculatePayroll(e, RuleConfig([], SocialSecurityRule(None, None, None, None), []));
            r.Success? && r.value.netPay == -400.0
  {
    var e := Employee("e1", "A", Monthly, 100.0, [], [("loan", Fixed(500.0))], None, None, 0.0);
    var cfg := RuleConfig([], SocialSecurityRule(None, None, None, None), []);
    var cs := Evaluated(100.0, [("loan", Fixed(500.0))]);
    assert cs == [("loan", 500.0)];
    assert cs[..0] == [];
    var p := CalculatePayroll(e, cfg).value;
    assert p.deductions == [("loan", 500.0)];
    assert p.deductions[..0] == [];
    NetPayFormula(e, cfg);
  }

  // ---------------------------------------------------------------------------
  // Summary

  /** One line of the printed summary; amounts are kept exact rather than
      rendered with two decimals. */
  datatype SummaryLine =
    | Title
    | GrossLine(amount: real)
    | EmployeeHeading
    | Item(name: string, amount: real)
    | NetLine(amount: real)
    | EmployerHeading

  function Items(m: Entries<real>): (ls: seq<SummaryLine>)
    ensures |ls| == |m|
    ensures forall i :: 0 <= i < |m| ==> ls[i] == Item(m[i].0, m[i].1)
  {
    seq(|m|, i requires 0 <= i < |m| => Item(m[i].0, m[i].1))
  }

  /** The summary: title, gross pay, the taxes then the deductions in
      breakdown order, net pay, then the employer section only when there is
      something in it. */
  function Summary(p: PayrollResult): (ls: seq<SummaryLine>)
    ensures |ls| == 4 + |p.taxes| + |p.deductions|
                    + (if |p.employerContributions| == 0 then 0 else 1 + |p.employerContributions|)
    ensures ls[0] == Title && ls[1] == GrossLine(p.grossPay) && ls[2] == EmployeeHeading
    ensures forall i :: 0 <= i < |p.taxes| ==> ls[3 + i] == Item(p.taxes[i].0, p.taxes[i].1)
    ensures forall j :: 0 <= j < |p.deductions| ==>
              ls[3 + |p.taxes| + j] == Item(p.deductions[j].0, p.deductions[j].1)
    ensures ls[3 + |p.taxes| + |p.deductions|] == NetLine(p.netPay)
    ensures |p.employerContributions| > 0 ==>
              && ls[4 + |p.taxes| + |p.deductions|] == EmployerHeading
              && forall k :: 0 <= k < |p.employerContributions| ==>
                   ls[5 + |p.taxes| + |p.deductions| + k]
                   == Item(p.employerContributions[k].0, p.employerContributions[k].1)
  {
    [Title, GrossLine(p.grossPay), EmployeeHeading]
    + Items(p.taxes) + Items(p.deductions)
    + [NetLine(p.netPay)]
    + (if |p.employerContributions| == 0 then [] else [EmployerHeading] + Items(p.employerContributions))
  }

  /** The summary of a calculated payroll: income tax on the fourth line and
      employee social security on the fifth, one line per deduction after
      them, and an employer section closing with the employer contribution. */
  lemma SummaryOfPayroll(e: Employee, cfg: RuleConfig)
    requires CalculatePayroll(e, cfg).Success?
    ensures var p := CalculatePayroll(e, cfg).value;
            var ls := Summary(p);
            && |ls| == 8 + |p.deductions|
            && ls[3] == Item(IncomeTaxLabel, IncomeTax(p.grossPay, e.taxExemptions, cfg.brackets))
            && ls[4] == Item(EmployeeSocialSecurityLabel, EmployeeContribution(p.grossPay, cfg.socialSecurity))
            && ls[5 + |p.deductions|] == NetLine(p.netPay)
            && ls[6 + |p.deductions|] == EmployerHeading
            && ls[7 + |p.deductions|] == Item(EmployerSocialSecurityLabel, EmployerContribution(p.grossPay, cfg.socialSecurity))
  {
    var p := CalculatePayroll(e, cfg).value;
    assert Keys(p.taxes)[0] == IncomeTaxLabel && Keys(p.taxes)[1] == EmployeeSocialSecurityLabel;
    assert Keys(p.employerContributions)[0] == EmployerSocialSecurityLabel;
  }

  // ---------------------------------------------------------------------------
  // Batch

  /** Every registered employee in registry order: a successful calculation is
      recorded under the employee's id, a failed one is skipped and the batch
      goes on. */
  function ProcessAll(registry: Entries<Employee>, cfg: RuleConfig): (results: Entries<PayrollResult>)
    ensures NoDupKeys(results)
    ensures KeySet(results) <= KeySet(registry)
    decreases |registry|
  {
    if |registry| == 0 then []
    else
      var front := registry[..|registry| - 1];
      var (id, e) := registry[|registry| - 1];
      var done := ProcessAll(front, cfg);
      KeySetOfPrefix(registry);
      match CalculatePayroll(e, cfg)
      case Success(p) => Put(done, id, p)
      case Failure(_) => done
  }

  /** The ids of the registered employees whose calculation succeeds, in
      registry order. */
  function Succeeded(registry: Entries<Employee>, cfg: RuleConfig): (ids: seq<string>)
    decreases |registry|
  {
    if |registry| == 0 then []
    else
      var front := registry[..|registry| - 1];
      var (id, e) := registry[|registry| - 1];
      Succeeded(front, cfg) + (if CalculatePayroll(e, cfg).Success? then [id] else [])
  }

  /** Each employee's entry depends on that employee alone: there is a result
      under an id exactly when that employee's own calculation succeeds, and it
      is that calculation's result. A failing employee does not disturb any
      other. */
  lemma {:induction false} ProcessAllLookup(registry: Entries<Employee>, cfg: RuleConfig, id: string)
    requires NoDupKeys(registry)
    ensures Get(ProcessAll(registry, cfg), id) ==
              match Get(registry, id)
              case None => None
              case Some(e) =>
                match CalculatePayroll(e, cfg)
                case Success(p) => Some(p)
                case Failure(_) => None
    decreases |registry|
  {
    if |registry| > 0 {
      var front := registry[..|registry| - 1];
      var (k, e) := registry[|registry| - 1];
      KeySetOfPrefix(registry);
      assert registry == front + [(k, e)];
      assert k !in KeySet(front);
      assert Put(front, k, e) == registry;
      ProcessAllLookup(front, cfg, id);
    }
  }

  /** Results keep registry order: their ids are exactly the succeeding ids. */
  lemma {:induction false} ProcessAllOrder(registry: Entries<Employee>, cfg: RuleConfig)
    requires NoDupKeys(registry)
    ensures Keys(ProcessAll(registry, cfg)) == Succeeded(registry, cfg)
    decreases |registry|
  {
    if |registry| > 0 {
      var front := registry[..|registry| - 1];
      var (k, e) := registry[|registry| - 1];
      KeySetOfPrefix(registry);
      assert k !in KeySet(front);
      ProcessAllOrder(front, cfg);
      var done := ProcessAll(front, cfg);
      assert k !in KeySet(done);
      if CalculatePayroll(e, cfg).Success? {
        assert Keys(done + [(k, CalculatePayroll(e, cfg).value)]) == Keys(done) + [k];
      }
    }
  }
}
