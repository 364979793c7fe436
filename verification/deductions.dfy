/** Named deductions: the configuration's default deductions, overlaid by an
    employee's custom deductions (main.py, `_calculate_other_deductions`). */
module Deductions {
  import opened Wrappers
  import opened OrderedMap

  /** How one deduction is computed. The configuration spells a fixed default
      as `{type: fixed, amount}` and a percentage default as
      `{type: percentage, rate}`; a custom deduction carries `type` and `value`.
      Both become the same tagged rule. Any other type is `OtherKind`. */
  datatype DeductionRule = Fixed(amount: real) | Percentage(rate: real) | OtherKind

  /** The amount a rule takes from `gross`. */
  function Amount(rule: DeductionRule, gross: real): (a: real) {
    match rule
    case Fixed(v) => v
    case Percentage(p) => gross * p
    case OtherKind => 0.0
  }

  /** Every named rule evaluated against `gross`, names and order unchanged. */
  function Evaluated(gross: real, rules: Entries<DeductionRule>): (es: Entries<real>)
    ensures |es| == |rules|
    ensures forall i :: 0 <= i < |rules| ==> es[i] == (rules[i].0, Amount(rules[i].1, gross))
  {
    seq(|rules|, i requires 0 <= i < |rules| => (rules[i].0, Amount(rules[i].1, gross)))
  }

  lemma EvaluatedKeys(gross: real, rules: Entries<DeductionRule>)
    ensures Keys(Evaluated(gross, rules)) == Keys(rules)
    ensures KeySet(Evaluated(gross, rules)) == KeySet(rules)
  {
    var es := Evaluated(gross, rules);
    assert Keys(es) == Keys(rules);
    forall x | x in KeySet(rules) ensures x in KeySet(es) {
      var j :| 0 <= j < |rules| && rules[j].0 == x;
      assert es[j].0 == x;
    }
  }

  lemma {:induction false} LastValueEvaluated(gross: real, rules: Entries<DeductionRule>, k: string)
    requires k in KeySet(rules)
    ensures LastValue(Evaluated(gross, rules), k) == Some(Amount(LastValue(rules, k).value, gross))
    decreases |rules|
  {
    var n := |rules|;
    var es := Evaluated(gross, rules);
    assert es[..n - 1] == Evaluated(gross, rules[..n - 1]);
    if rules[n - 1].0 != k {
      KeySetOfPrefix(rules);
      LastValueEvaluated(gross, rules[..n - 1], k);
    }
  }

  /** The deductions breakdown: defaults first, in configuration order, then
      each custom deduction in list order, a custom one replacing a default
      (or an earlier custom one) of the same name in place. */
  function Merge(gross: real, defaults: Entries<DeductionRule>, customs: Entries<DeductionRule>): (r: Entries<real>)
    ensures NoDupKeys(r)
    ensures KeySet(r) == KeySet(defaults) + KeySet(customs)
  {
    var ds := Evaluated(gross, defaults);
    var cs := Evaluated(gross, customs);
    var base := PutAll([], ds);
    EvaluatedKeys(gross, defaults);
    EvaluatedKeys(gross, customs);
    PutAllNoDup([], ds);
    PutAllNoDup(base, cs);
    KeySetPutAll([], ds);
    KeySetPutAll(base, cs);
    assert KeySet<real>([]) == {};
    PutAll(base, cs)
  }

  /** Order of the breakdown: the defaults keep their configuration order,
      including those a custom deduction overwrote, and the names that only
      custom deductions introduce follow in the order of their first
      occurrence. */
  lemma MergeOrder(gross: real, defaults: Entries<DeductionRule>, customs: Entries<DeductionRule>)
    requires NoDupKeys(defaults)
    ensures Keys(Merge(gross, defaults, customs)) == Keys(defaults) + NewKeys(Keys(customs), KeySet(defaults))
  {
    var ds := Evaluated(gross, defaults);
    var cs := Evaluated(gross, customs);
    EvaluatedKeys(gross, defaults);
    EvaluatedKeys(gross, customs);
    assert NoDupKeys(ds);
    PutAllFresh(ds);
    KeysPutAll(ds, cs);
  }

  /** Last write wins: a name set by a custom deduction takes the amount of the
      last custom deduction with that name; a name only among the defaults
      takes its default amount; any other name is absent. */
  lemma MergeLookup(gross: real, defaults: Entries<DeductionRule>, customs: Entries<DeductionRule>, k: string)
    ensures Get(Merge(gross, defaults, customs), k) ==
              if k in KeySet(customs) then Some(Amount(LastValue(customs, k).value, gross))
              else if k in KeySet(defaults) then Some(Amount(LastValue(defaults, k).value, gross))
              else None
  {
    var ds := Evaluated(gross, defaults);
    var cs := Evaluated(gross, customs);
    EvaluatedKeys(gross, defaults);
    EvaluatedKeys(gross, customs);
    GetPutAll(PutAll([], ds), cs, k);
    GetPutAll([], ds, k);
    if k in KeySet(customs) {
      LastValueEvaluated(gross, customs, k);
    } else if k in KeySet(defaults) {
      LastValueEvaluated(gross, defaults, k);
    } else {
      assert KeySet<real>([]) == {};
    }
  }

  /** The default deductions of the built-in configuration: a 5% pension and a
      fixed health insurance of 50. */
  const DefaultDeductions: Entries<DeductionRule> :=
    [("pension", Percentage(0.05)), ("health_insurance", Fixed(50.0))]

  /** A custom pension replaces the default one in first position; a new name
      is appended after the defaults. */
  lemma MergeOverrideExample()
    ensures Merge(1000.0, DefaultDeductions, [("pension", Fixed(10.0)), ("gym", Fixed(20.0))])
            == [("pension", 10.0), ("health_insurance", 50.0), ("gym", 20.0)]
  {
    var customs := [("pension", Fixed(10.0)), ("gym", Fixed(20.0))];
    assert Amount(Percentage(0.05), 1000.0) == 50.0;
    assert Amount(Fixed(50.0), 1000.0) == 50.0;
    assert Amount(Fixed(10.0), 1000.0) == 10.0;
    assert Amount(Fixed(20.0), 1000.0) == 20.0;
    var ds := Evaluated(1000.0, DefaultDeductions);
    assert ds == [("pension", 50.0), ("health_insurance", 50.0)];
    assert ds[..1] == [("pension", 50.0)];
    assert PutAll([], ds[..1]) == [("pension", 50.0)];
    var base := PutAll([], ds);
    assert base == [("pension", 50.0), ("health_insurance", 50.0)];
    var cs := Evaluated(1000.0, customs);
    assert cs == [("pension", 10.0), ("gym", 20.0)];
    assert cs[..1] == [("pension", 10.0)];
    assert IndexOf(base, "pension") == Some(0);
    assert PutAll(base, cs[..1]) == [("pension", 10.0), ("health_insurance", 50.0)];
  }
}
