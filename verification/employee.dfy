/** An employee record and its gross pay (main.py, class `Employee`). */
module Employees {
  import opened Wrappers
  import opened OrderedMap
  import opened Deductions

  /** Why the payroll of one employee cannot be produced. */
  datatype PayrollError =
    | InvalidPayBasis(tag: string)  // construction with an unknown salary type
    | MissingHours                  // hourly pay without hours worked
    | MissingDays                   // daily pay without days worked

  /** The salary type: the base value is a monthly salary, an hourly rate or a
      daily rate. */
  datatype PayBasis = Monthly | Hourly | Daily

  /** The kind of a bonus entry; any type other than `amount` or `percentage`
      (or no type at all) is `OtherBonus`. */
  datatype BonusKind = AmountBonus | PercentageBonus | OtherBonus

  /** A bonus entry; an absent `value` counts as 0. */
  datatype Bonus = Bonus(kind: BonusKind, value: Option<real>)

  datatype Employee = Employee(
    id: string,
    name: string,
    basis: PayBasis,
    baseValue: real,
    bonuses: seq<Bonus>,
    customDeductions: Entries<DeductionRule>,
    hoursWorked: Option<real>,
    daysWorked: Option<real>,
    taxExemptions: real)

  /** The salary-type tag as written in an employee record. */
  function BasisTag(b: PayBasis): (tag: string) {
    match b
    case Monthly => "monthly"
    case Hourly => "hourly"
    case Daily => "daily"
  }

  /** Reads a salary-type tag; only the three known tags are accepted. */
  function ParseBasis(tag: string): (r: Result<PayBasis, PayrollError>)
    ensures r.Success? <==> tag in {"monthly", "hourly", "daily"}
    ensures r.Success? ==> BasisTag(r.value) == tag
    ensures r.Failure? ==> r.error == InvalidPayBasis(tag)
  {
    if tag == "monthly" then Success(Monthly)
    else if tag == "hourly" then Success(Hourly)
    else if tag == "daily" then Success(Daily)
    else Failure(InvalidPayBasis(tag))
  }

  /** Every salary type survives writing its tag and reading it back. */
  lemma ParseBasisRoundTrip(b: PayBasis)
    ensures ParseBasis(BasisTag(b)) == Success(b)
  {
  }

  /** The constructor: rejects an unknown salary type and otherwise stores
      the fields unchanged. */
  function MakeEmployee(
    id: string, name: string, basisTag: string, baseValue: real,
    bonuses: seq<Bonus>, customDeductions: Entries<DeductionRule>,
    hoursWorked: Option<real>, daysWorked: Option<real>, taxExemptions: real
  ): (r: Result<Employee, PayrollError>)
    ensures r.Failure? <==> basisTag !in {"monthly", "hourly", "daily"}
    ensures r.Failure? ==> r.error == InvalidPayBasis(basisTag)
    ensures r.Success? ==>
              && BasisTag(r.value.basis) == basisTag
              && r.value.id == id && r.value.name == name
              && r.value.baseValue == baseValue && r.value.bonuses == bonuses
              && r.value.customDeductions == customDeductions
              && r.value.hoursWorked == hoursWorked && r.value.daysWorked == daysWorked
              && r.value.taxExemptions == taxExemptions
  {
    var basis :- ParseBasis(basisTag);
    Success(Employee(id, name, basis, baseValue, bonuses, customDeductions,
                     hoursWorked, daysWorked, taxExemptions))
  }

  /** Pay before bonuses. */
  function BasePay(e: Employee): (r: Result<real, PayrollError>)
    ensures r.Failure? <==> (e.basis.Hourly? && e.hoursWorked.None?) || (e.basis.Daily? && e.daysWorked.None?)
    ensures r.Failure? ==> r.error == (if e.basis.Hourly? then MissingHours else MissingDays)
    ensures r.Success? && e.basis.Monthly? ==> r.value == e.baseValue
    ensures r.Success? && e.basis.Hourly? ==> r.value == e.baseValue * e.hoursWorked.value
    ensures r.Success? && e.basis.Daily? ==> r.value == e.baseValue * e.daysWorked.value
  {
    match e.basis
    case Monthly => Success(e.baseValue)
    case Hourly =>
      if e.hoursWorked.None? then Failure(MissingHours)
      else Success(e.baseValue * e.hoursWorked.value)
    case Daily =>
      if e.daysWorked.None? then Failure(MissingDays)
      else Success(e.baseValue * e.daysWorked.value)
  }

  /** One bonus applied to the running total; a percentage compounds on the
      total so far. */
  function ApplyBonus(total: real, b: Bonus): (t: real) {
    match b.kind
    case AmountBonus => total + b.value.GetOr(0.0)
    case PercentageBonus => total + total * b.value.GetOr(0.0)
    case OtherBonus => total
  }

  /** The bonuses applied in list order. */
  function ApplyBonuses(total: real, bs: seq<Bonus>): (t: real)
    decreases |bs|
  {
    if |bs| == 0 then total else ApplyBonus(ApplyBonuses(total, bs[..|bs| - 1]), bs[|bs| - 1])
  }

  /** Gross pay: the base pay with every bonus applied. */
  function GrossPay(e: Employee): (r: Result<real, PayrollError>)
    ensures r.Failure? <==> BasePay(e).Failure?
    ensures r.Failure? ==> r.error == BasePay(e).error
    ensures r.Success? ==> r.value == ApplyBonuses(BasePay(e).value, e.bonuses)
  {
    var base :- BasePay(e);
    Success(ApplyBonuses(base, e.bonuses))
  }

  /** Applying two lists of bonuses one after the other is applying their
      concatenation: bonuses form a left-to-right pipeline. */
  lemma {:induction false} ApplyBonusesAppend(total: real, xs: seq<Bonus>, ys: seq<Bonus>)
    ensures ApplyBonuses(total, xs + ys) == ApplyBonuses(ApplyBonuses(total, xs), ys)
    decreases |ys|
  {
    if |ys| == 0 {
      assert xs + ys == xs;
    } else {
      assert (xs + ys)[..|xs + ys| - 1] == xs + ys[..|ys| - 1];
      assert (xs + ys)[|xs + ys| - 1] == ys[|ys| - 1];
      ApplyBonusesAppend(total, xs, ys[..|ys| - 1]);
    }
  }

  /** Sum of the values of a list of bonuses (absent values count as 0). */
  function BonusValueSum(bs: seq<Bonus>): (sum: real)
    decreases |bs|
  {
    if |bs| == 0 then 0.0 else BonusValueSum(bs[..|bs| - 1]) + bs[|bs| - 1].value.GetOr(0.0)
  }

  /** Product of `1 + value` over a list of bonuses. */
  function GrowthFactor(bs: seq<Bonus>): (factor: real)
    decreases |bs|
  {
    if |bs| == 0 then 1.0 else GrowthFactor(bs[..|bs| - 1]) * (1.0 + bs[|bs| - 1].value.GetOr(0.0))
  }

  /** Amount bonuses alone add up: the total grows by the sum of their values. */
  lemma {:induction false} AmountBonusesAdd(total: real, bs: seq<Bonus>)
    requires forall i :: 0 <= i < |bs| ==> bs[i].kind == AmountBonus
    ensures ApplyBonuses(total, bs) == total + BonusValueSum(bs)
    decreases |bs|
  {
    if |bs| > 0 {
      AmountBonusesAdd(total, bs[..|bs| - 1]);
    }
  }

  /** Percentage bonuses alone compound: the total is multiplied by the
      product of `1 + value`. */
  lemma {:induction false} PercentageBonusesCompound(total: real, bs: seq<Bonus>)
    requires forall i :: 0 <= i < |bs| ==> bs[i].kind == PercentageBonus
    ensures ApplyBonuses(total, bs) == total * GrowthFactor(bs)
    decreases |bs|
  {
    if |bs| > 0 {
      var front := bs[..|bs| - 1];
      var v := bs[|bs| - 1].value.GetOr(0.0);
      PercentageBonusesCompound(total, front);
      calc {
        ApplyBonuses(total, bs);
        total * GrowthFactor(front) + total * GrowthFactor(front) * v;
        total * (GrowthFactor(front) * (1.0 + v));
      }
    }
  }

  /** Bonus entries of an unknown type change nothing. */
  lemma {:induction false} OtherBonusesIgnored(total: real, bs: seq<Bonus>)
    requires forall i :: 0 <= i < |bs| ==> bs[i].kind == OtherBonus
    ensures ApplyBonuses(total, bs) == total
    decreases |bs|
  {
    if |bs| > 0 {
      OtherBonusesIgnored(total, bs[..|bs| - 1]);
    }
  }

  /** With a non-negative starting total and non-negative bonus values, bonuses
      never lower pay. */
  lemma {:induction false} BonusesNeverLower(total: real, bs: seq<Bonus>)
    requires total >= 0.0
    requires forall i :: 0 <= i < |bs| ==> bs[i].value.GetOr(0.0) >= 0.0
    ensures ApplyBonuses(total, bs) >= total
    decreases |bs|
  {
    if |bs| > 0 {
      BonusesNeverLower(total, bs[..|bs| - 1]);
      var t := ApplyBonuses(total, bs[..|bs| - 1]);
      var v := bs[|bs| - 1].value.GetOr(0.0);
      assert t * v >= 0.0;
    }
  }

  /** A monthly salary of 1000 with an amount bonus of 100 followed by a 10%
      bonus gives 1210: the percentage applies to 1100. In the opposite order
      the same bonuses give 1200. */
  lemma BonusOrderExample()
    ensures GrossPay(Employee("e1", "A", Monthly, 1000.0,
                              [Bonus(AmountBonus, Some(100.0)), Bonus(PercentageBonus, Some(0.10))],
                              [], None, None, 0.0)) == Success(1210.0)
    ensures GrossPay(Employee("e1", "A", Monthly, 1000.0,
                              [Bonus(PercentageBonus, Some(0.10)), Bonus(AmountBonus, Some(100.0))],
                              [], None, None, 0.0)) == Success(1200.0)
  {
    var bs := [Bonus(AmountBonus, Some(100.0)), Bonus(PercentageBonus, Some(0.10))];
    assert bs[..1] == [Bonus(AmountBonus, Some(100.0))];
    assert bs[..1][..0] == [];
    assert ApplyBonuses(1000.0, bs[..1]) == 1100.0;
    assert ApplyBonuses(1000.0, bs) == 1210.0;
    var cs := [Bonus(PercentageBonus, Some(0.10)), Bonus(AmountBonus, Some(100.0))];
    assert cs[..1] == [Bonus(PercentageBonus, Some(0.10))];
    assert cs[..1][..0] == [];
    assert ApplyBonuses(1000.0, cs[..1]) == 1100.0;
    assert ApplyBonuses(1000.0, cs) == 1200.0;
  }
}
