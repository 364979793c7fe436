# Payroll calculation engine — Dafny model

This project models the calculation engine of a desktop payroll tool. Given
an employee record and a set of rules, the engine computes the following:

- **gross pay**, from a monthly, hourly or daily salary with bonuses applied
  in list order;
- a **progressive income tax** over brackets sorted by floor;
- the **employee and employer social-security amounts**, each capped;
- a **deductions breakdown**, where the configured default deductions are
  overlaid by the employee's custom deductions, name by name;
- the resulting **net pay**, and the **summary** printed for the result.

The project also models the batch pass over every registered employee. That
pass keeps one result per employee whose calculation succeeds and skips the
others.

Money is Dafny `real`. Python's insertion-ordered dictionaries are sequences
of `(name, value)` pairs with dictionary assignment semantics (module
`OrderedMap`). An overwritten key keeps its place, and a new key is
appended. The engine's errors are `Result` values rather than exceptions.

Modules:

- `Wrappers`: `Option` (a dictionary lookup with a fallback) and `Result`.
- `RealArith`: one multiplication fact about reals.
- `OrderedMap`: ordered dictionaries, lookup, assignment and series of
  assignments.
- `Deductions`: deduction rules and the merge of defaults with custom
  deductions.
- `Employees`: the employee record, its constructor, base pay and bonuses.
- `Taxation`: brackets and the income-tax loop, with two reference
  definitions.
- `SocialSecurity`: capped contributions.
- `Payroll`: the full calculation, the summary and the batch.

The built-in bracket table (main.py:17-25) is 10% from 0 to 1000, 20% from
1001 to 5000 and 30% from 5001 on. The units from 1000 to 1001 and from 5000
to 5001 therefore lie in no bracket and are never taxed, so a gross pay of 6000
is taxed 100 + 799.8 + 299.7 = 1199.5 rather than 1200
(`Taxation.DefaultBracketsExample`).

## Model

| member | source | states |
|---|---|---|
| Employees.ParseBasis | main.py:109-110 | A salary type is accepted exactly when it is `monthly`, `hourly` or `daily`; any other tag fails with `InvalidPayBasis`; an accepted tag reads back as itself |
| Employees.MakeEmployee | main.py:109-120 | Construction fails exactly for an unknown salary type, with `InvalidPayBasis`; otherwise every field passed is stored unchanged |
| Employees.BasePay | main.py:122-133 | Hourly pay fails exactly when hours are absent, and daily pay exactly when days are absent. Otherwise monthly pay is the base value, hourly pay is base × hours and daily pay is base × days |
| Employees.GrossPay | main.py:122-140 | Gross pay fails exactly when base pay fails, with the same error; otherwise it is the base pay with every bonus applied in list order (`ApplyBonuses`) |
| Employees.ApplyBonus | main.py:136-139 | No contract of its own: one bonus applied to the running total. Its meaning is stated by `AmountBonusesAdd`, `PercentageBonusesCompound` and `OtherBonusesIgnored` |
| Employees.ApplyBonuses | main.py:135-139 | No contract of its own: the bonus loop. `ApplyBonusesAppend` states that it runs left to right, and `BonusesNeverLower` bounds it |
| Employees.ApplyBonusesAppend | main.py:135-139 | Bonuses are a left-to-right pipeline: applying `xs + ys` is applying `xs`, then `ys` to that total |
| Employees.AmountBonusesAdd | main.py:136-137 | A list of amount bonuses raises the total by the sum of their values, an absent value counting 0 |
| Employees.PercentageBonusesCompound | main.py:138-139 | A list of percentage bonuses multiplies the total by the product of (1 + value): each compounds on the running total |
| Employees.OtherBonusesIgnored | main.py:135-139 | Bonuses of any other type leave the total unchanged |
| Employees.BonusesNeverLower | main.py:135-139 | From a non-negative total, bonuses with non-negative values never lower pay |
| Employees.BonusOrderExample | main.py:135-140 | 1000 with [amount 100, percentage 0.10] gives 1210; the reverse order gives 1200 |
| Taxation.TaxFrom | main.py:181-201 | No contract of its own: the bracket loop as written, with its cursor, early exit and absent rate read as 0. `EarlyExitIsShortcut` and `TaxFromIsMarginal` state what it computes |
| Taxation.IncomeTax | main.py:177-201 | No contract of its own: the loop started on the taxable income with the cursor at 0. `IncomeTaxIsMarginal` states its meaning; the lemmas below bound it |
| Taxation.Taxable | main.py:178 | Taxable income is gross − exemptions when that is positive and 0 otherwise |
| Taxation.EarlyExitIsShortcut | main.py:183-189 | On brackets sorted by floor, the loop with its early exit gives the same tax as the loop without it |
| Taxation.IncomeTaxIsMarginal | main.py:177-201 | On well-formed brackets the cursor loop equals the marginal tax. Well-formed means floors ≥ 0 and ascending, and each ceiling at most the next floor. The marginal tax is Σ rate × (part of taxable income between a bracket's floor and ceiling), so income in a gap is untaxed |
| Taxation.IncomeTaxNonNegative | main.py:177-201 | With non-negative rates the tax is ≥ 0 for any brackets |
| Taxation.IncomeTaxZeroWhenExempt | main.py:178-201 | When exemptions reach gross pay the tax is exactly 0, for any brackets |
| Taxation.IncomeTaxMonotone | main.py:177-201 | On well-formed brackets with non-negative rates, more gross pay never gives less tax |
| Taxation.IncomeTaxAtMostTaxable | main.py:177-201 | On well-formed brackets with rates in [0, 1], the tax never exceeds taxable income |
| Taxation.SingleUnboundedBracket | main.py:183-200 | One bracket {min 0, no max, rate r} taxes taxable × r; with the rate absent it taxes nothing |
| Taxation.DefaultBracketsExample | main.py:17-25 | Under the built-in table: 6000 is taxed 1199.5; 1001 is taxed as 1000 is (100); 5001 is taxed as 5000 is (899.8) |
| SocialSecurity.Capped | main.py:203-215 | The shared shape of both contributions: the amount is at most gross × rate (absent rate = 0), at most the cap when there is one, and equal to one of the two |
| SocialSecurity.EmployeeContribution | main.py:203-208 | The employee amount is at most gross × employee rate (absent rate = 0), at most the employee cap when there is one, and equal to one of the two |
| SocialSecurity.EmployerContribution | main.py:210-215 | The same for the employer side, using the employer rate and cap only |
| SocialSecurity.CappedBelowCap | main.py:203-208 | Under the cap, or with no cap, the amount is exactly gross × rate |
| SocialSecurity.CappedMonotone | main.py:203-208 | With a non-negative rate the amount never falls as gross pay rises |
| SocialSecurity.CappedSaturates | main.py:203-208 | With a positive rate, any gross ≥ cap / rate yields exactly the cap |
| OrderedMap.Put | main.py:226 | Assignment keeps keys unique, keeps the key order when the key exists, and appends otherwise. Lookup of the key gives the new value; every other key is unchanged |
| OrderedMap.GetPutAll | main.py:228-235 | After a series of assignments, a key takes its last written value; keys never written keep their earlier value |
| OrderedMap.KeysPutAll | main.py:228-235 | After a series of assignments, existing keys keep their positions; new keys follow in order of first write |
| Deductions.Amount | main.py:221-225 | No contract of its own: a fixed rule takes its amount, a percentage rule gross × rate, any other type 0. `MergeLookup` states it for every name of the breakdown |
| Deductions.LastValueEvaluated | main.py:220-235 | Evaluating the rules in place commutes with last-write lookup: for any name among the rules, the last amount written for it is the amount of the last rule with that name |
| Deductions.Merge | main.py:217-237 | The breakdown has one entry per name, and its names are exactly the default names plus the custom names |
| Deductions.MergeLookup | main.py:217-237 | A name set by a custom deduction takes the last such custom's amount (fixed → value, percentage → gross × value, other → 0); a name only among defaults takes the default's amount (fixed → amount, percentage → gross × rate); other names are absent |
| Deductions.MergeOrder | main.py:217-237 | With distinct default names, the breakdown lists the defaults in configuration order, overwritten ones included, then the custom-only names in order of first occurrence |
| Deductions.MergeOverrideExample | main.py:220-235 | Built-in defaults with customs [pension fixed 10, gym fixed 20] at gross 1000 give [pension 10, health_insurance 50, gym 20] |
| Payroll.CalculatePayroll | main.py:239-262 | A payroll fails exactly for missing hours (hourly) or days (daily), with that error. Otherwise there are exactly two taxes, income tax first, then employee social security. Deductions are the merge. The employer breakdown is one entry. net + Σ taxes + Σ deductions = gross |
| Payroll.Total | main.py:249-252 | No contract of its own: the `sum` of a breakdown's values. `CalculatePayroll` and `NetPayFormula` state net pay through it |
| Payroll.NetPayFormula | main.py:249-254 | net = gross − (income tax + employee social security) − Σ deductions |
| Payroll.EmployerSideNotWithheld | main.py:256-259 | Changing the employer rate or cap changes neither net pay nor the taxes or deductions breakdowns |
| Payroll.NetPayMayBeNegative | main.py:254 | Net pay is not floored: monthly 100 with a fixed deduction of 500 and no other rules nets −400 |
| Payroll.DefaultConfigExample | main.py:239-262 | Monthly 6000 under the built-in configuration gives the following. Taxes: 1199.5 and 400 (capped). Deductions: pension 300 and health insurance 50. Net pay: 4050.5. Employer side: 600 (capped) |
| Payroll.Summary | main.py:88-102 | The summary lines are, in order: title; gross; heading; one line per tax, in breakdown order; one line per deduction, in breakdown order; net. An employer heading and its lines follow only when that breakdown is non-empty |
| Payroll.SummaryOfPayroll | main.py:88-102 | For a calculated payroll the summary has 8 + (number of deductions) lines. Income tax is line 4 and employee social security line 5. The last line is the employer contribution |
| Payroll.ProcessAll | main.py:327-338 | Batch results have distinct ids, all taken from the registry |
| Payroll.ProcessAllLookup | main.py:335-348 | With unique ids, an id has a result exactly when that employee's own calculation succeeds, and it is that calculation's result; one failure never affects another employee |
| Payroll.ProcessAllOrder | main.py:335-338 | With unique ids, the results list exactly the succeeding ids in registry order |

## Left out

- Employees.MakeEmployee: the constructor's default arguments
  (main.py:106-108) are not modelled, so every field is passed explicitly.
  An absent bonus or custom-deduction list is passed as `[]`, which is what
  main.py:116-117 stores for `None`. Tax exemptions are always passed; the
  source's default is 0. Absent hours and days are `None`, as in the source.
- Configuration loading and saving, and the fallback to the built-in
  configuration (main.py:43-77). These are file I/O and message boxes. The
  configuration is an already-parsed value, `RuleConfig`. `DefaultConfig`
  holds the built-in values.
- Sorting the brackets by `min_income` when the calculator is built
  (main.py:173). Brackets arrive already sorted, and the lemmas that need
  order take it as a precondition (`SortedByMin`, `WellFormed`). The loop
  itself is modelled for any bracket list, so on an unsorted list the model's
  tax can differ from the source's, which would sort the list first.
- Dictionary-shaped inputs: `.get` defaults and missing keys. These are
  modelled as `Option`: a bonus's absent `value`, a bracket's absent rate
  (read as 0) or ceiling (no ceiling), and absent social-security rates (0)
  or caps (no cap). A bonus with no `type` is `OtherBonus`. Two cases are
  not modelled and belong to parsing: an absent bracket floor, which the
  loop reads as 0, is taken as already filled in; a deduction missing its
  `type`, `amount`, `rate`, `value` or `name` key raises a `KeyError`.
- Both exception branches of the batch (main.py:341-348) are a skipped
  employee. Errors other than missing hours or days cannot arise in the
  typed model. The activity log and message boxes are dropped.
- Employee JSON persistence, `to_dict`/`from_dict`, the activity logger and
  `clear_all_data` (main.py:142-167, 265-295, 352-420). These are file I/O.
- All PyQt windows and dialogs (main.py:423 onward), including the GUI's
  checks that base salary, hours, days and exemptions are non-negative.
  Lemmas that need non-negativity take it as a precondition.
- Payroll.Summary: lines are kept as (label, exact amount) values. The
  summary does not render the two-decimal text, and IEEE float rounding is
  not modelled: amounts are exact reals.
- Idempotence of a calculation needs no lemma: every operation is a pure
  function.
