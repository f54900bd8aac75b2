/**
 * Row filters: by absolute and percentage thresholds, by period and account lists, and the
 * pipeline that chains them. Every filter keeps the rows that pass, in their input order,
 * as the same objects.
 */
module Filters {
  import opened Wrappers
  import opened Seqs
  import opened Models

  /** One filter condition. */
  datatype Criterion =
    | InPeriods(periods: seq<string>)
    | InAccounts(accounts: seq<string>)
    | AbsoluteAtLeast(minAbsolute: real)
    | PercentageAtLeast(minPercentage: real)

  /** Whether a row passes one condition; a row without a percentage never passes a percentage threshold. */
  predicate Satisfies(r: VarianceRow, c: Criterion)
    reads r
  {
    match c
    case InPeriods(periods) => r.period in periods
    case InAccounts(accounts) => r.account in accounts
    case AbsoluteAtLeast(t) => r.absoluteVariance.Some? && Abs(r.absoluteVariance.value) >= t
    case PercentageAtLeast(t) => r.percentageVariance.Some? && Abs(r.percentageVariance.value) >= t
  }

  predicate PassesAll(r: VarianceRow, cs: seq<Criterion>)
    reads r
  {
    forall i :: 0 <= i < |cs| ==> Satisfies(r, cs[i])
  }

  lemma PassesSingle(r: VarianceRow, c: Criterion)
    ensures PassesAll(r, [c]) <==> Satisfies(r, c)
  {
    assert [c][0] == c;
  }

  /** The rows that pass every condition of `cs`, in input order. */
  function Passing(rows: seq<VarianceRow>, cs: seq<Criterion>): (kept: seq<VarianceRow>)
    reads rows
    ensures |kept| <= |rows|
    decreases |rows|
  {
    if rows == [] then []
    else
      var last := rows[|rows| - 1];
      Passing(rows[..|rows| - 1], cs) + (if PassesAll(last, cs) then [last] else [])
  }

  /** The pass/fail flag of each row. */
  function PassFlags(rows: seq<VarianceRow>, cs: seq<Criterion>): (keep: seq<bool>)
    reads rows
    ensures |keep| == |rows|
    ensures forall i :: 0 <= i < |rows| ==> keep[i] == PassesAll(rows[i], cs)
  {
    seq(|rows|, i reads rows requires 0 <= i < |rows| => PassesAll(rows[i], cs))
  }

  /** A row is kept exactly when it is one of the rows and passes every condition. */
  lemma {:induction false} PassingMembers(rows: seq<VarianceRow>, cs: seq<Criterion>, r: VarianceRow)
    ensures r in Passing(rows, cs) <==> r in rows && PassesAll(r, cs)
    decreases |rows|
  {
    if rows != [] {
      var n := |rows| - 1;
      PassingMembers(rows[..n], cs, r);
      assert rows == rows[..n] + [rows[n]];
    }
  }

  /** The kept rows are the input with the failing rows deleted and the order kept. */
  lemma {:induction false} PassingSelects(rows: seq<VarianceRow>, cs: seq<Criterion>)
    ensures Passing(rows, cs) == Select(rows, PassFlags(rows, cs))
    decreases |rows|
  {
    if rows != [] {
      var n := |rows| - 1;
      PassingSelects(rows[..n], cs);
      assert PassFlags(rows, cs)[..n] == PassFlags(rows[..n], cs);
    }
  }

  lemma PassingSubsequence(rows: seq<VarianceRow>, cs: seq<Criterion>)
    ensures IsSubsequence(Passing(rows, cs), rows)
  {
    PassingSelects(rows, cs);
  }

  /** Passing two lists of conditions is passing each of them. */
  lemma PassesAllAppend(r: VarianceRow, cs: seq<Criterion>, ds: seq<Criterion>)
    ensures PassesAll(r, cs + ds) <==> PassesAll(r, cs) && PassesAll(r, ds)
  {
    assert forall i :: 0 <= i < |cs| ==> (cs + ds)[i] == cs[i];
    assert forall i :: 0 <= i < |ds| ==> (cs + ds)[|cs| + i] == ds[i];
  }

  /** Filtering by `cs` and then by `ds` is filtering by both at once. */
  lemma {:induction false} PassingCompose(rows: seq<VarianceRow>, cs: seq<Criterion>, ds: seq<Criterion>)
    ensures Passing(Passing(rows, cs), ds) == Passing(rows, cs + ds)
    decreases |rows|
  {
    if rows != [] {
      var n := |rows| - 1;
      var last := rows[n];
      PassingCompose(rows[..n], cs, ds);
      var front := Passing(rows[..n], cs);
      PassesAllAppend(last, cs, ds);
      assert Passing(rows, cs + ds) == Passing(rows[..n], cs + ds) + (if PassesAll(last, cs + ds) then [last] else []);
      if PassesAll(last, cs) {
        var s := front + [last];
        assert Passing(rows, cs) == s;
        assert s[..|s| - 1] == front;
        assert Passing(s, ds) == Passing(front, ds) + (if PassesAll(last, ds) then [last] else []);
        assert Passing(front, ds) == Passing(rows[..n], cs + ds);
        assert PassesAll(last, cs + ds) == PassesAll(last, ds);
        assert Passing(Passing(rows, cs), ds) == Passing(s, ds);
      } else {
        assert Passing(rows, cs) == front + [];
        assert front + [] == front;
      }
    }
  }

  /** Conditions that accept the same rows filter the same way. */
  lemma {:induction false} PassingAgree(rows: seq<VarianceRow>, cs: seq<Criterion>, ds: seq<Criterion>)
    requires forall r :: r in rows ==> (PassesAll(r, cs) <==> PassesAll(r, ds))
    ensures Passing(rows, cs) == Passing(rows, ds)
    decreases |rows|
  {
    if rows != [] {
      var n := |rows| - 1;
      assert rows == rows[..n] + [rows[n]];
      PassingAgree(rows[..n], cs, ds);
    }
  }

  /** Only which conditions are applied matters, not how they are listed. */
  lemma PassingSameConditions(rows: seq<VarianceRow>, cs: seq<Criterion>, ds: seq<Criterion>)
    requires forall c :: c in cs <==> c in ds
    ensures Passing(rows, cs) == Passing(rows, ds)
  {
    forall r | r in rows ensures PassesAll(r, cs) <==> PassesAll(r, ds) {
      if PassesAll(r, cs) {
        forall j | 0 <= j < |ds| ensures Satisfies(r, ds[j]) {
          assert ds[j] in ds;
          var i :| 0 <= i < |cs| && cs[i] == ds[j];
        }
      }
      if PassesAll(r, ds) {
        forall j | 0 <= j < |cs| ensures Satisfies(r, cs[j]) {
          assert cs[j] in cs;
          var i :| 0 <= i < |ds| && ds[i] == cs[j];
        }
      }
    }
    PassingAgree(rows, cs, ds);
  }

  /** Two conditions commute: the filter order does not change the result. */
  lemma FiltersCommute(rows: seq<VarianceRow>, c: Criterion, d: Criterion)
    ensures Passing(Passing(rows, [c]), [d]) == Passing(Passing(rows, [d]), [c])
  {
    PassingCompose(rows, [c], [d]);
    PassingCompose(rows, [d], [c]);
    forall r | r in rows ensures PassesAll(r, [c] + [d]) <==> PassesAll(r, [d] + [c]) {
      PassesAllAppend(r, [c], [d]);
      PassesAllAppend(r, [d], [c]);
    }
    PassingAgree(rows, [c] + [d], [d] + [c]);
  }

  /** A condition implied by the one already applied removes nothing more, so raising a threshold only narrows. */
  lemma NarrowerAfterWider(rows: seq<VarianceRow>, c: Criterion, d: Criterion)
    requires forall r :: r in rows && Satisfies(r, d) ==> Satisfies(r, c)
    ensures Passing(Passing(rows, [c]), [d]) == Passing(rows, [d])
  {
    PassingCompose(rows, [c], [d]);
    forall r | r in rows ensures PassesAll(r, [c] + [d]) <==> PassesAll(r, [d]) {
      PassesAllAppend(r, [c], [d]);
      PassesSingle(r, c);
      PassesSingle(r, d);
    }
    PassingAgree(rows, [c] + [d], [d]);
  }

  /** A higher absolute threshold keeps a subsequence of what a lower one keeps. */
  lemma AbsoluteThresholdMonotone(rows: seq<VarianceRow>, low: real, high: real)
    requires low <= high
    ensures Passing(Passing(rows, [AbsoluteAtLeast(low)]), [AbsoluteAtLeast(high)]) == Passing(rows, [AbsoluteAtLeast(high)])
  {
    NarrowerAfterWider(rows, AbsoluteAtLeast(low), AbsoluteAtLeast(high));
  }

  /** A higher percentage threshold keeps a subsequence of what a lower one keeps. */
  lemma PercentageThresholdMonotone(rows: seq<VarianceRow>, low: real, high: real)
    requires low <= high
    ensures Passing(Passing(rows, [PercentageAtLeast(low)]), [PercentageAtLeast(high)]) == Passing(rows, [PercentageAtLeast(high)])
  {
    NarrowerAfterWider(rows, PercentageAtLeast(low), PercentageAtLeast(high));
  }

  /** A condition every row passes keeps the whole list. */
  lemma {:induction false} PassingKeepsAll(rows: seq<VarianceRow>, cs: seq<Criterion>)
    requires forall r :: r in rows ==> PassesAll(r, cs)
    ensures Passing(rows, cs) == rows
    decreases |rows|
  {
    if rows != [] {
      var n := |rows| - 1;
      assert rows == rows[..n] + [rows[n]];
      PassingKeepsAll(rows[..n], cs);
    }
  }

  /** A zero absolute threshold keeps every row whose absolute variance is known. */
  lemma ZeroAbsoluteThresholdKeepsAll(rows: seq<VarianceRow>)
    requires forall r :: r in rows ==> r.absoluteVariance.Some?
    ensures Passing(rows, [AbsoluteAtLeast(0.0)]) == rows
  {
    PassingKeepsAll(rows, [AbsoluteAtLeast(0.0)]);
  }

  /** A zero percentage threshold drops exactly the rows without a percentage. */
  lemma ZeroPercentageThreshold(rows: seq<VarianceRow>, r: VarianceRow)
    ensures r in Passing(rows, [PercentageAtLeast(0.0)]) <==> r in rows && r.percentageVariance.Some?
  {
    PassingMembers(rows, [PercentageAtLeast(0.0)], r);
    PassesSingle(r, PercentageAtLeast(0.0));
  }

  /** An empty period list or account list keeps nothing. */
  lemma {:induction false} EmptyListKeepsNothing(rows: seq<VarianceRow>, c: Criterion)
    requires c == InPeriods([]) || c == InAccounts([])
    ensures Passing(rows, [c]) == []
    decreases |rows|
  {
    if rows != [] {
      EmptyListKeepsNothing(rows[..|rows| - 1], c);
      PassesSingle(rows[|rows| - 1], c);
    }
  }

  /** Keeps the rows whose absolute variance has magnitude at least the threshold. */
  method FilterByAbsoluteThreshold(rows: seq<VarianceRow>, minThreshold: real) returns (filtered: seq<VarianceRow>)
    requires forall r :: r in rows ==> r.absoluteVariance.Some?
    ensures filtered == Passing(rows, [AbsoluteAtLeast(minThreshold)])
  {
    filtered := [];
    var i := 0;
    while i < |rows|
      invariant 0 <= i <= |rows|
      invariant filtered == Passing(rows[..i], [AbsoluteAtLeast(minThreshold)])
    {
      var row := rows[i];
      assert rows[..i + 1][..i] == rows[..i];
      PassesSingle(row, AbsoluteAtLeast(minThreshold));
      if Abs(row.absoluteVariance.value) >= minThreshold {
        filtered := filtered + [row];
      }
      i := i + 1;
    }
    assert rows[..i] == rows;
  }

  /** Keeps the rows whose percentage variance is present and has magnitude at least the threshold. */
  method FilterByPercentageThreshold(rows: seq<VarianceRow>, minThreshold: real) returns (filtered: seq<VarianceRow>)
    ensures filtered == Passing(rows, [PercentageAtLeast(minThreshold)])
  {
    filtered := [];
    var i := 0;
    while i < |rows|
      invariant 0 <= i <= |rows|
      invariant filtered == Passing(rows[..i], [PercentageAtLeast(minThreshold)])
    {
      var row := rows[i];
      assert rows[..i + 1][..i] == rows[..i];
      PassesSingle(row, PercentageAtLeast(minThreshold));
      if row.percentageVariance.Some? && Abs(row.percentageVariance.value) >= minThreshold {
        filtered := filtered + [row];
      }
      i := i + 1;
    }
    assert rows[..i] == rows;
  }

  /** The rows whose period is one of `periods`, in input order. */
  function FilterByPeriods(rows: seq<VarianceRow>, periods: seq<string>): (kept: seq<VarianceRow>)
    reads rows
    ensures forall i :: 0 <= i < |kept| ==> kept[i] in rows && kept[i].period in periods
    ensures forall i {:trigger rows[i] in kept} :: 0 <= i < |rows| && rows[i].period in periods ==> rows[i] in kept
  {
    PassingSingleMembers(rows, InPeriods(periods));
    Passing(rows, [InPeriods(periods)])
  }

  /** The rows whose account is one of `accounts`, in input order. */
  function FilterByAccounts(rows: seq<VarianceRow>, accounts: seq<string>): (kept: seq<VarianceRow>)
    reads rows
    ensures forall i :: 0 <= i < |kept| ==> kept[i] in rows && kept[i].account in accounts
    ensures forall i {:trigger rows[i] in kept} :: 0 <= i < |rows| && rows[i].account in accounts ==> rows[i] in kept
  {
    PassingSingleMembers(rows, InAccounts(accounts));
    Passing(rows, [InAccounts(accounts)])
  }

  /** With one condition, a row is kept exactly when it is one of the rows and satisfies it. */
  lemma PassingSingleMembers(rows: seq<VarianceRow>, c: Criterion)
    ensures forall r :: r in Passing(rows, [c]) ==> r in rows && Satisfies(r, c)
    ensures forall r :: r in rows && Satisfies(r, c) ==> r in Passing(rows, [c])
  {
    forall r ensures r in Passing(rows, [c]) <==> r in rows && Satisfies(r, c) {
      PassingMembers(rows, [c], r);
      PassesSingle(r, c);
    }
  }

  /** The label conditions of the parameters: a list that is not given is not applied. */
  function LabelCriteria(params: AnalysisParams): seq<Criterion>
  {
    (if params.periods.Some? then [InPeriods(params.periods.value)] else [])
    + (if params.accounts.Some? then [InAccounts(params.accounts.value)] else [])
  }

  /** Every condition the pipeline applies, in its order. */
  function ActiveCriteria(params: AnalysisParams): seq<Criterion>
  {
    LabelCriteria(params)
    + [AbsoluteAtLeast(params.minAbsoluteThreshold), PercentageAtLeast(params.minPercentageThreshold)]
  }

  /** The period and account stages together filter by the label conditions. */
  lemma LabelStages(rows: seq<VarianceRow>, params: AnalysisParams)
    ensures var afterPeriods := if params.periods.Some? then FilterByPeriods(rows, params.periods.value) else rows;
      var afterAccounts := if params.accounts.Some? then FilterByAccounts(afterPeriods, params.accounts.value) else afterPeriods;
      afterAccounts == Passing(rows, LabelCriteria(params))
  {
    PassingKeepsAll(rows, []);
    var first := if params.periods.Some? then [InPeriods(params.periods.value)] else [];
    if params.accounts.Some? {
      PassingCompose(rows, first, [InAccounts(params.accounts.value)]);
    } else {
      assert LabelCriteria(params) == first;
    }
  }

  /** Three filter stages in a row filter by all their conditions at once. */
  lemma ThreeStages(rows: seq<VarianceRow>, cs: seq<Criterion>, c: Criterion, d: Criterion)
    ensures Passing(Passing(Passing(rows, cs), [c]), [d]) == Passing(rows, cs + [c, d])
  {
    PassingCompose(rows, cs, [c]);
    PassingCompose(rows, cs + [c], [d]);
    assert cs + [c] + [d] == cs + [c, d];
  }

  /** Rows that pass the label conditions are rows of the input, and so have an absolute variance. */
  lemma LabelPassersComputed(rows: seq<VarianceRow>, labels: seq<Criterion>)
    requires forall r :: r in rows && PassesAll(r, labels) ==> r.absoluteVariance.Some?
    ensures forall r :: r in Passing(rows, labels) ==> r in rows && r.absoluteVariance.Some?
  {
    forall r | r in Passing(rows, labels) ensures r in rows && r.absoluteVariance.Some? {
      PassingMembers(rows, labels, r);
    }
  }

  /**
   * Periods (when given), then accounts (when given), then the absolute threshold, then the
   * percentage threshold. Rows reaching the absolute threshold must have an absolute variance.
   */
  method ApplyFilters(rows: seq<VarianceRow>, params: AnalysisParams) returns (filtered: seq<VarianceRow>)
    requires forall r :: r in rows && PassesAll(r, LabelCriteria(params)) ==> r.absoluteVariance.Some?
    ensures filtered == Passing(rows, ActiveCriteria(params))
  {
    filtered := rows;
    if params.periods.Some? {
      filtered := FilterByPeriods(rows, params.periods.value);
    }
    if params.accounts.Some? {
      filtered := FilterByAccounts(filtered, params.accounts.value);
    }
    var labels := LabelCriteria(params);
    assert filtered == Passing(rows, labels) by {
      LabelStages(rows, params);
    }
    LabelPassersComputed(rows, labels);
    ghost var labelled := filtered;
    ghost var absolute := AbsoluteAtLeast(params.minAbsoluteThreshold);
    ghost var percentage := PercentageAtLeast(params.minPercentageThreshold);
    filtered := FilterByAbsoluteThreshold(filtered, params.minAbsoluteThreshold);
    assert labelled == Passing(rows, labels);
    ghost var thresholded := filtered;
    filtered := FilterByPercentageThreshold(filtered, params.minPercentageThreshold);
    assert labelled == Passing(rows, labels) && thresholded == Passing(labelled, [absolute]);
    ThreeStages(rows, labels, absolute, percentage);
    assert ActiveCriteria(params) == labels + [absolute, percentage];
  }

  /** With the default parameters the pipeline keeps exactly the rows that have both variances. */
  lemma DefaultParamsKeepComputedRows(rows: seq<VarianceRow>, r: VarianceRow)
    ensures r in Passing(rows, ActiveCriteria(AnalysisParams())) <==>
      r in rows && r.absoluteVariance.Some? && r.percentageVariance.Some?
  {
    var cs := ActiveCriteria(AnalysisParams());
    assert cs == [AbsoluteAtLeast(0.0), PercentageAtLeast(0.0)];
    PassingMembers(rows, cs, r);
    assert PassesAll(r, cs) <==> Satisfies(r, cs[0]) && Satisfies(r, cs[1]);
  }

  /** The pipeline keeps a row exactly when it passes every active condition. */
  lemma ApplyFiltersMembers(rows: seq<VarianceRow>, params: AnalysisParams, r: VarianceRow)
    ensures r in Passing(rows, ActiveCriteria(params)) <==>
      && r in rows
      && (params.periods.Some? ==> r.period in params.periods.value)
      && (params.accounts.Some? ==> r.account in params.accounts.value)
      && r.absoluteVariance.Some? && Abs(r.absoluteVariance.value) >= params.minAbsoluteThreshold
      && r.percentageVariance.Some? && Abs(r.percentageVariance.value) >= params.minPercentageThreshold
  {
    var cs := ActiveCriteria(params);
    PassingMembers(rows, cs, r);
    var labels := LabelCriteria(params);
    assert cs[|labels|] == AbsoluteAtLeast(params.minAbsoluteThreshold);
    assert cs[|labels| + 1] == PercentageAtLeast(params.minPercentageThreshold);
    if params.periods.Some? {
      assert cs[0] == InPeriods(params.periods.value);
    }
    if params.accounts.Some? {
      assert cs[|labels| - 1] == InAccounts(params.accounts.value);
    }
  }
}
