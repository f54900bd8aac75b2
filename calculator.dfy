/** Absolute and percentage variance of actual against budget, for one row or a list of rows. */
module Calculator {
  import opened Wrappers
  import opened Models

  /**
   * The absolute variance `actual - budget` and the percentage variance relative to the
   * budget; the percentage is absent exactly when the budget is zero. A present percentage
   * applied to the budget gives back the actual figure, whatever the signs.
   */
  function CalculateVariance(actual: real, budget: real): (r: (real, Option<real>))
    ensures budget + r.0 == actual
    ensures r.1.None? <==> budget == 0.0
    ensures r.1.Some? ==> budget + budget * r.1.value / 100.0 == actual
    ensures r.1.Some? ==> r.1.value * budget == r.0 * 100.0
  {
    var absoluteVariance := actual - budget;
    if budget == 0.0 then (absoluteVariance, None)
    else (absoluteVariance, Some(absoluteVariance / budget * 100.0))
  }

  /** The percentage is positive exactly when actual lies beyond the budget in the budget's own direction. */
  lemma PercentageSign(actual: real, budget: real)
    requires budget != 0.0
    ensures var p := CalculateVariance(actual, budget).1.value;
      (p > 0.0 <==> (if budget > 0.0 then actual > budget else actual < budget))
      && (p == 0.0 <==> actual == budget)
  {
    var p := CalculateVariance(actual, budget).1.value;
    assert p * budget == (actual - budget) * 100.0;
    if budget > 0.0 {
      assert p > 0.0 ==> p * budget > 0.0;
      assert p < 0.0 ==> p * budget < 0.0;
    } else {
      assert p > 0.0 ==> p * budget < 0.0;
      assert p < 0.0 ==> p * budget > 0.0;
    }
  }

  /** The figures that document the formula. */
  lemma KnownVariances()
    ensures CalculateVariance(100.0, 80.0) == (20.0, Some(25.0))
    ensures CalculateVariance(50.0, 100.0) == (-50.0, Some(-50.0))
    ensures CalculateVariance(100.0, 100.0) == (0.0, Some(0.0))
    ensures CalculateVariance(100.0, 0.0) == (100.0, None)
    ensures CalculateVariance(0.0, 0.0) == (0.0, None)
    ensures CalculateVariance(-100.0, -80.0) == (-20.0, Some(25.0))
    ensures CalculateVariance(0.0, 100.0) == (-100.0, Some(-100.0))
    ensures CalculateVariance(1000.0, 800.0) == (200.0, Some(25.0))
  {
  }

  /** The row's variance fields hold what the formula gives for its actual and budget. */
  ghost predicate IsComputed(row: VarianceRow)
    reads row
  {
    (row.absoluteVariance, row.percentageVariance) == (Some(CalculateVariance(row.actual, row.budget).0),
                                                       CalculateVariance(row.actual, row.budget).1)
  }

  /** A computed row counts as calculated exactly when its budget is not zero. */
  lemma ComputedRowCalculated(row: VarianceRow)
    requires IsComputed(row)
    ensures row.HasVarianceCalculated() <==> row.budget != 0.0
    ensures row.absoluteVariance == Some(row.actual - row.budget)
  {
  }

  /**
   * Fills in the row's two variance fields in place and hands back the same row. The
   * labels and amounts stay as they were, and a second call changes nothing more.
   */
  method CalculateVarianceForRow(row: VarianceRow) returns (result: VarianceRow)
    modifies row
    ensures result == row
    ensures row.account == old(row.account) && row.period == old(row.period)
    ensures row.actual == old(row.actual) && row.budget == old(row.budget)
    ensures IsComputed(row)
    ensures row.HasVarianceCalculated() <==> row.budget != 0.0
    ensures old(IsComputed(row)) ==> row.Data() == old(row.Data())
  {
    row.absoluteVariance := Some(CalculateVariance(row.actual, row.budget).0);
    row.percentageVariance := CalculateVariance(row.actual, row.budget).1;
    result := row;
  }

  /**
   * Computes the variances of every row of the list in place and returns the same list.
   * A row listed twice is simply computed twice, to the same values.
   */
  method CalculateVarianceBulk(rows: seq<VarianceRow>) returns (result: seq<VarianceRow>)
    modifies set r | r in rows
    ensures result == rows
    ensures forall r :: r in rows ==> IsComputed(r)
    ensures forall r :: r in rows ==>
      r.account == old(r.account) && r.period == old(r.period) &&
      r.actual == old(r.actual) && r.budget == old(r.budget)
  {
    var i := 0;
    while i < |rows|
      invariant 0 <= i <= |rows|
      invariant forall j :: 0 <= j < i ==> IsComputed(rows[j])
      invariant forall r :: r in rows ==>
        r.account == old(r.account) && r.period == old(r.period) &&
        r.actual == old(r.actual) && r.budget == old(r.budget)
    {
      var _ := CalculateVarianceForRow(rows[i]);
      i := i + 1;
    }
    result := rows;
  }
}
