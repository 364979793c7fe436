/** Progressive income tax over brackets (main.py, `_calculate_income_tax`).
    Brackets arrive sorted by `min_income`, as the calculator sorts them when
    it is built. */
module Taxation {
  import opened Wrappers
  import opened RealArith

  /** A tax bracket; an absent `maxIncome` means the bracket is unbounded and
      an absent `rate` is read as 0. */
  datatype Bracket = Bracket(minIncome: real, maxIncome: Option<real>, rate: Option<real>)

  /** The rate the loop applies in bracket `b`. */
  function Rate(b: Bracket): (r: real) { b.rate.GetOr(0.0) }

  function Max(a: real, b: real): (m: real) { if a >= b then a else b }
  function Min(a: real, b: real): (m: real) { if a <= b then a else b }

  /** Income subject to tax: gross pay less exemptions, never below zero. */
  function Taxable(gross: real, exemptions: real): (t: real)
    ensures t >= 0.0 && t >= gross - exemptions
    ensures t == 0.0 || t == gross - exemptions
  {
    Max(0.0, gross - exemptions)
  }

  /** Upper end of the part of `taxable` that falls in bracket `b`. */
  function TierTop(b: Bracket, taxable: real): (top: real) {
    match b.maxIncome
    case None => taxable
    case Some(m) => Min(taxable, m)
  }

  /** The early exit: a bracket starting at or above the taxable income ends
      the computation, unless it starts at zero. */
  predicate StopsAt(b: Bracket, taxable: real) {
    taxable <= b.minIncome && b.minIncome != 0.0
  }

  /** The bracket loop as written: `cursor` is the highest bracket ceiling seen
      so far (starting at 0, and taken as the taxable income itself after an
      unbounded bracket), and no income below it is taxed again. */
  function TaxFrom(bs: seq<Bracket>, taxable: real, cursor: real): (tax: real)
    decreases |bs|
  {
    if |bs| == 0 then 0.0
    else
      var b := bs[0];
      if StopsAt(b, taxable) then 0.0
      else
        var inTier := Max(0.0, TierTop(b, taxable) - Max(b.minIncome, cursor));
        inTier * Rate(b) + TaxFrom(bs[1..], taxable, Max(cursor, b.maxIncome.GetOr(taxable)))
  }

  /** Income tax on `gross` after `exemptions`. */
  function IncomeTax(gross: real, exemptions: real, bs: seq<Bracket>): (tax: real) {
    TaxFrom(bs, Taxable(gross, exemptions), 0.0)
  }

  // ---------------------------------------------------------------------------
  // Reference definitions

  /** The same loop without the early exit. */
  function TaxNoExit(bs: seq<Bracket>, taxable: real, cursor: real): (tax: real)
    decreases |bs|
  {
    if |bs| == 0 then 0.0
    else
      var b := bs[0];
      var inTier := Max(0.0, TierTop(b, taxable) - Max(b.minIncome, cursor));
      inTier * Rate(b) + TaxNoExit(bs[1..], taxable, Max(cursor, b.maxIncome.GetOr(taxable)))
  }

  /** Textbook marginal tax: each bracket's rate times the part of the taxable
      income lying between the bracket's floor and ceiling. */
  function Marginal(bs: seq<Bracket>, taxable: real): (tax: real)
    decreases |bs|
  {
    if |bs| == 0 then 0.0
    else Width(bs[0], taxable) * Rate(bs[0]) + Marginal(bs[1..], taxable)
  }

  /** The part of `taxable` lying between the bracket's floor and ceiling. */
  function Width(b: Bracket, taxable: real): (w: real) {
    Max(0.0, TierTop(b, taxable) - b.minIncome)
  }

  predicate SortedByMin(bs: seq<Bracket>) {
    forall i, j :: 0 <= i < j < |bs| ==> bs[i].minIncome <= bs[j].minIncome
  }

  predicate RatesNonNegative(bs: seq<Bracket>) {
    forall i :: 0 <= i < |bs| ==> Rate(bs[i]) >= 0.0
  }

  predicate RatesAtMostOne(bs: seq<Bracket>) {
    forall i :: 0 <= i < |bs| ==> Rate(bs[i]) <= 1.0
  }

  /** Brackets that do not overlap: floors are non-negative and ascending, and
      every bracket but the last has a ceiling no higher than the next floor.
      Gaps between a ceiling and the next floor are allowed. */
  predicate WellFormed(bs: seq<Bracket>) {
    && SortedByMin(bs)
    && (forall i :: 0 <= i < |bs| ==> bs[i].minIncome >= 0.0)
    && (forall i :: 0 <= i < |bs| - 1 ==>
          bs[i].maxIncome.Some? && bs[i].maxIncome.value <= bs[i + 1].minIncome)
  }

  // ---------------------------------------------------------------------------
  // The early exit changes nothing on sorted brackets

  lemma {:induction false} NoExitZeroBelowFloor(bs: seq<Bracket>, taxable: real, cursor: real)
    requires SortedByMin(bs)
    requires |bs| > 0 && taxable <= bs[0].minIncome
    ensures TaxNoExit(bs, taxable, cursor) == 0.0
    decreases |bs|
  {
    if |bs| > 1 {
      assert bs[0].minIncome <= bs[1].minIncome;
      NoExitZeroBelowFloor(bs[1..], taxable, Max(cursor, bs[0].maxIncome.GetOr(taxable)));
    }
  }

  /** On brackets sorted by floor the early exit is only a shortcut: the loop
      gives the same tax with or without it. */
  lemma {:induction false} EarlyExitIsShortcut(bs: seq<Bracket>, taxable: real, cursor: real)
    requires SortedByMin(bs)
    ensures TaxFrom(bs, taxable, cursor) == TaxNoExit(bs, taxable, cursor)
    decreases |bs|
  {
    if |bs| > 0 {
      if StopsAt(bs[0], taxable) {
        NoExitZeroBelowFloor(bs, taxable, cursor);
      } else {
        EarlyExitIsShortcut(bs[1..], taxable, Max(cursor, bs[0].maxIncome.GetOr(taxable)));
      }
    }
  }

  // ---------------------------------------------------------------------------
  // The loop computes the marginal tax on well-formed brackets

  lemma {:induction false} MarginalZeroBelowFloor(bs: seq<Bracket>, taxable: real)
    requires SortedByMin(bs)
    requires |bs| > 0 && taxable <= bs[0].minIncome
    ensures Marginal(bs, taxable) == 0.0
    decreases |bs|
  {
    if |bs| > 1 {
      assert bs[0].minIncome <= bs[1].minIncome;
      MarginalZeroBelowFloor(bs[1..], taxable);
    }
  }

  lemma WellFormedTail(bs: seq<Bracket>)
    requires WellFormed(bs) && |bs| > 0
    ensures WellFormed(bs[1..])
  {
    forall i | 0 <= i < |bs[1..]| - 1
      ensures bs[1..][i].maxIncome.Some? && bs[1..][i].maxIncome.value <= bs[1..][i + 1].minIncome
    {
      assert bs[1..][i] == bs[i + 1] && bs[1..][i + 1] == bs[i + 2];
    }
  }

  lemma {:induction false} TaxFromIsMarginal(bs: seq<Bracket>, taxable: real, cursor: real)
    requires WellFormed(bs)
    requires |bs| > 0 ==> cursor <= bs[0].minIncome
    ensures TaxFrom(bs, taxable, cursor) == Marginal(bs, taxable)
    decreases |bs|
  {
    if |bs| > 0 {
      if StopsAt(bs[0], taxable) {
        MarginalZeroBelowFloor(bs, taxable);
      } else {
        var next := Max(cursor, bs[0].maxIncome.GetOr(taxable));
        if |bs| > 1 {
          assert bs[0].minIncome <= bs[1].minIncome;
          assert bs[0].maxIncome.value <= bs[1].minIncome;
        }
        WellFormedTail(bs);
        TaxFromIsMarginal(bs[1..], taxable, next);
      }
    }
  }

  /** On well-formed brackets the income tax is the marginal tax on the taxable
      income: every part of it is taxed once, at the rate of the bracket it lies
      in, and a part lying in a gap between brackets is not taxed. */
  lemma IncomeTaxIsMarginal(gross: real, exemptions: real, bs: seq<Bracket>)
    requires WellFormed(bs)
    ensures IncomeTax(gross, exemptions, bs) == Marginal(bs, Taxable(gross, exemptions))
  {
    TaxFromIsMarginal(bs, Taxable(gross, exemptions), 0.0);
  }

  // ---------------------------------------------------------------------------
  // Bounds

  lemma {:induction false} TaxFromNonNegative(bs: seq<Bracket>, taxable: real, cursor: real)
    requires RatesNonNegative(bs)
    ensures TaxFrom(bs, taxable, cursor) >= 0.0
    decreases |bs|
  {
    if |bs| > 0 && !StopsAt(bs[0], taxable) {
      TaxFromNonNegative(bs[1..], taxable, Max(cursor, bs[0].maxIncome.GetOr(taxable)));
      var inTier := Max(0.0, TierTop(bs[0], taxable) - Max(bs[0].minIncome, cursor));
      assert inTier * Rate(bs[0]) >= 0.0;
    }
  }

  /** With non-negative rates the tax is never negative, whatever the brackets. */
  lemma IncomeTaxNonNegative(gross: real, exemptions: real, bs: seq<Bracket>)
    requires RatesNonNegative(bs)
    ensures IncomeTax(gross, exemptions, bs) >= 0.0
  {
    TaxFromNonNegative(bs, Taxable(gross, exemptions), 0.0);
  }

  lemma {:induction false} TaxFromNothingTaxable(bs: seq<Bracket>, cursor: real)
    requires cursor >= 0.0
    ensures TaxFrom(bs, 0.0, cursor) == 0.0
    decreases |bs|
  {
    if |bs| > 0 && !StopsAt(bs[0], 0.0) {
      TaxFromNothingTaxable(bs[1..], Max(cursor, bs[0].maxIncome.GetOr(0.0)));
    }
  }

  /** Exemptions that reach the gross pay leave nothing to tax, whatever the
      brackets and rates. */
  lemma IncomeTaxZeroWhenExempt(gross: real, exemptions: real, bs: seq<Bracket>)
    requires exemptions >= gross
    ensures IncomeTax(gross, exemptions, bs) == 0.0
  {
    TaxFromNothingTaxable(bs, 0.0);
  }

  lemma {:induction false} MarginalMonotone(bs: seq<Bracket>, t1: real, t2: real)
    requires RatesNonNegative(bs)
    requires t1 <= t2
    ensures Marginal(bs, t1) <= Marginal(bs, t2)
    decreases |bs|
  {
    if |bs| > 0 {
      var b := bs[0];
      MarginalMonotone(bs[1..], t1, t2);
      var w1, w2, rate := Width(b, t1), Width(b, t2), Rate(b);
      WidthMonotone(b, t1, t2);
      MulMonotone(w1, w2, rate);
      assert Marginal(bs, t1) == w1 * rate + Marginal(bs[1..], t1);
      assert Marginal(bs, t2) == w2 * rate + Marginal(bs[1..], t2);
    }
  }

  lemma WidthMonotone(b: Bracket, t1: real, t2: real)
    requires t1 <= t2
    ensures Width(b, t1) <= Width(b, t2)
  {
  }

  /** On well-formed brackets with non-negative rates, more gross pay never
      means less income tax. */
  lemma IncomeTaxMonotone(g1: real, g2: real, exemptions: real, bs: seq<Bracket>)
    requires WellFormed(bs) && RatesNonNegative(bs)
    requires g1 <= g2
    ensures IncomeTax(g1, exemptions, bs) <= IncomeTax(g2, exemptions, bs)
  {
    IncomeTaxIsMarginal(g1, exemptions, bs);
    IncomeTaxIsMarginal(g2, exemptions, bs);
    MarginalMonotone(bs, Taxable(g1, exemptions), Taxable(g2, exemptions));
  }

  lemma ShareAtMostWidth(b: Bracket, taxable: real)
    requires 0.0 <= Rate(b) <= 1.0
    ensures Width(b, taxable) * Rate(b) <= Width(b, taxable)
  {
    MulMonotone(Rate(b), 1.0, Width(b, taxable));
  }

  lemma {:induction false} MarginalAtMostSpan(bs: seq<Bracket>, taxable: real)
    requires WellFormed(bs) && RatesNonNegative(bs) && RatesAtMostOne(bs)
    requires |bs| > 0
    ensures Marginal(bs, taxable) <= Max(0.0, taxable - bs[0].minIncome)
    decreases |bs|
  {
    var b := bs[0];
    var w := Width(b, taxable);
    ShareAtMostWidth(b, taxable);
    var share := w * Rate(b);
    assert share <= w;
    var rest := Marginal(bs[1..], taxable);
    assert Marginal(bs, taxable) == share + rest;
    if |bs| == 1 {
      assert rest == 0.0;
      assert w <= Max(0.0, taxable - b.minIncome);
    } else {
      WellFormedTail(bs);
      MarginalAtMostSpan(bs[1..], taxable);
      assert b.minIncome <= bs[1].minIncome;
      assert b.maxIncome.value <= bs[1].minIncome;
      SpanStep(b, bs[1].minIncome, taxable, rest);
    }
  }

  /** One step of `MarginalAtMostSpan`: a bracket's width plus whatever lies
      above the next floor is at most what lies above this floor. */
  lemma SpanStep(b: Bracket, nextFloor: real, taxable: real, rest: real)
    requires b.minIncome <= nextFloor
    requires b.maxIncome.Some? && b.maxIncome.value <= nextFloor
    requires rest <= Max(0.0, taxable - nextFloor)
    ensures Width(b, taxable) + rest <= Max(0.0, taxable - b.minIncome)
  {
  }

  /** On well-formed brackets with rates between 0 and 1, the income tax never
      exceeds the taxable income. */
  lemma IncomeTaxAtMostTaxable(gross: real, exemptions: real, bs: seq<Bracket>)
    requires WellFormed(bs) && RatesNonNegative(bs) && RatesAtMostOne(bs)
    ensures IncomeTax(gross, exemptions, bs) <= Taxable(gross, exemptions)
  {
    IncomeTaxIsMarginal(gross, exemptions, bs);
    if |bs| > 0 {
      MarginalAtMostSpan(bs, Taxable(gross, exemptions));
    }
  }

  // ---------------------------------------------------------------------------
  // Particular bracket tables

  /** One unbounded bracket from zero is a flat tax. */
  lemma SingleUnboundedBracket(gross: real, exemptions: real, rate: Option<real>)
    ensures IncomeTax(gross, exemptions, [Bracket(0.0, None, rate)]) == Taxable(gross, exemptions) * rate.GetOr(0.0)
  {
    var bs := [Bracket(0.0, None, rate)];
    var t := Taxable(gross, exemptions);
    assert bs[1..] == [];
    assert !StopsAt(bs[0], t);
    assert TaxFrom(bs, t, 0.0) == Max(0.0, t - Max(0.0, 0.0)) * rate.GetOr(0.0) + TaxFrom(bs[1..], t, Max(0.0, t));
    assert Max(0.0, t - Max(0.0, 0.0)) == t;
  }

  /** The built-in table: 10% up to 1000, 20% from 1001 to 5000, 30% from 5001. */
  const DefaultBrackets: seq<Bracket> := [
    Bracket(0.0, Some(1000.0), Some(0.10)),
    Bracket(1001.0, Some(5000.0), Some(0.20)),
    Bracket(5001.0, None, Some(0.30))
  ]

  /** On the built-in table, 6000 is taxed 100 + 3999 * 0.2 + 999 * 0.3 =
      1199.5: the unit from 1000 to 1001 and the unit from 5000 to 5001 lie in
      no bracket. Income of 1001 is taxed as 1000 is, and 5001 as 5000 is. */
  lemma DefaultBracketsExample()
    ensures IncomeTax(6000.0, 0.0, DefaultBrackets) == 1199.5
    ensures IncomeTax(1000.0, 0.0, DefaultBrackets) == 100.0
    ensures IncomeTax(1001.0, 0.0, DefaultBrackets) == 100.0
    ensures IncomeTax(5000.0, 0.0, DefaultBrackets) == 899.8
    ensures IncomeTax(5001.0, 0.0, DefaultBrackets) == 899.8
  {
    var bs := DefaultBrackets;
    assert bs[1..] == [bs[1], bs[2]];
    assert bs[1..][1..] == [bs[2]];
    assert bs[1..][1..][1..] == [];
    assert WellFormed(bs);
    IncomeTaxIsMarginal(6000.0, 0.0, bs);
    IncomeTaxIsMarginal(1000.0, 0.0, bs);
    IncomeTaxIsMarginal(1001.0, 0.0, bs);
    IncomeTaxIsMarginal(5000.0, 0.0, bs);
    IncomeTaxIsMarginal(5001.0, 0.0, bs);
  }
}
