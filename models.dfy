/**
 * The record model: the variance row, the filter parameters, the report with its top-N
 * ranking, and the two records the column mapper produces.
 */
module Models {
  import opened Wrappers
  import opened Seqs
  import opened StableSort

  function Abs(x: real): real
  {
    if x < 0.0 then -x else x
  }

  /** The six fields of a row at one moment, as a value. */
  datatype RowData = RowData(
    account: string,
    period: string,
    actual: real,
    budget: real,
    absoluteVariance: Option<real>,
    percentageVariance: Option<real>)

  /** One line of a variance analysis; the variance fields are filled in place by the calculator. */
  class VarianceRow {
    var account: string
    var period: string
    var actual: real
    var budget: real
    var absoluteVariance: Option<real>
    var percentageVariance: Option<real>

    /** Like the dataclass, the two variance fields default to absent. */
    constructor (account: string, period: string, actual: real, budget: real,
                 absoluteVariance: Option<real> := None, percentageVariance: Option<real> := None)
      ensures Data() == RowData(account, period, actual, budget, absoluteVariance, percentageVariance)
    {
      this.account := account;
      this.period := period;
      this.actual := actual;
      this.budget := budget;
      this.absoluteVariance := absoluteVariance;
      this.percentageVariance := percentageVariance;
    }

    function Data(): RowData
      reads this
    {
      RowData(account, period, actual, budget, absoluteVariance, percentageVariance)
    }

    /** Both variance fields are present; a zero-budget row therefore never qualifies. */
    predicate HasVarianceCalculated(): (r: bool)
      reads this
      ensures r <==> Data().absoluteVariance != None && Data().percentageVariance != None
    {
      absoluteVariance.Some? && percentageVariance.Some?
    }
  }

  /** Filter parameters; the defaults keep everything except rows without a percentage. */
  datatype AnalysisParams = AnalysisParams(
    minAbsoluteThreshold: real := 0.0,
    minPercentageThreshold: real := 0.0,
    periods: Option<seq<string>> := None,
    accounts: Option<seq<string>> := None)

  /** The ranking criterion of `get_top_variances`. */
  datatype Metric = Absolute | Percentage

  /** Only the two literal selector names are accepted. */
  function ParseMetric(criterion: string): (m: Option<Metric>)
    ensures m == Some(Absolute) <==> criterion == "absolute"
    ensures m == Some(Percentage) <==> criterion == "percentage"
  {
    if criterion == "absolute" then Some(Absolute)
    else if criterion == "percentage" then Some(Percentage)
    else None
  }

  const InvalidMetricMessage: string := "Не задан критерий сортировки 'absolute' или 'percentage'."

  /** The sort key: the magnitude of the chosen variance, with an absent one counted as 0. */
  function Magnitude(r: VarianceRow, metric: Metric): real
    reads r
  {
    match metric
    case Absolute => Abs(r.absoluteVariance.GetOr(0.0))
    case Percentage => Abs(r.percentageVariance.GetOr(0.0))
  }

  /** Each row paired with its sort key, which Python computes once per element. */
  function Decorate(rows: seq<VarianceRow>, metric: Metric): (d: seq<(real, VarianceRow)>)
    reads rows
    ensures |d| == |rows|
    ensures forall i :: 0 <= i < |rows| ==> d[i] == (Magnitude(rows[i], metric), rows[i])
  {
    seq(|rows|, i reads rows requires 0 <= i < |rows| => (Magnitude(rows[i], metric), rows[i]))
  }

  function Undecorate(d: seq<(real, VarianceRow)>): (rows: seq<VarianceRow>)
    ensures |rows| == |d|
    ensures forall i :: 0 <= i < |d| ==> rows[i] == d[i].1
  {
    seq(|d|, i requires 0 <= i < |d| => d[i].1)
  }

  /** `sorted(rows, key=..., reverse=True)`, still decorated with the keys. */
  function Ranked(rows: seq<VarianceRow>, metric: Metric): seq<(real, VarianceRow)>
    reads rows
  {
    SortDescending(Decorate(rows, metric))
  }

  /** Every entry of the ranking carries the key of its own row. */
  lemma RankedKeys(rows: seq<VarianceRow>, metric: Metric)
    ensures var s := Ranked(rows, metric);
      forall i :: 0 <= i < |s| ==> s[i].0 == Magnitude(s[i].1, metric)
  {
    var d := Decorate(rows, metric);
    var s := Ranked(rows, metric);
    forall i | 0 <= i < |s| ensures s[i].0 == Magnitude(s[i].1, metric) {
      assert s[i] in multiset(s);
      assert s[i] in multiset(d);
      var j :| 0 <= j < |d| && d[j] == s[i];
    }
  }

  /** The ranking, without its keys, is a permutation of the rows. */
  lemma RankedPermutation(rows: seq<VarianceRow>, metric: Metric)
    ensures multiset(Undecorate(Ranked(rows, metric))) == multiset(rows)
  {
    var d := Decorate(rows, metric);
    var s := Ranked(rows, metric);
    SortSeconds(d);
    assert Undecorate(s) == Seconds(s);
    assert rows == Seconds(d);
  }

  /** A prefix and the rest of the ranking split the rows between them. */
  lemma RankedSplit(rows: seq<VarianceRow>, metric: Metric, m: nat)
    requires m <= |rows|
    ensures var s := Ranked(rows, metric);
      multiset(rows) == multiset(Undecorate(s[..m])) + multiset(Undecorate(s[m..]))
  {
    var s := Ranked(rows, metric);
    RankedPermutation(rows, metric);
    assert Undecorate(s) == Undecorate(s[..m]) + Undecorate(s[m..]);
  }

  /** The ranking's magnitudes never increase. */
  lemma RankedOrder(rows: seq<VarianceRow>, metric: Metric)
    ensures var s := Ranked(rows, metric);
      forall i, j :: 0 <= i < j < |s| ==> Magnitude(s[i].1, metric) >= Magnitude(s[j].1, metric)
  {
    SortIsDescending(Decorate(rows, metric));
    RankedKeys(rows, metric);
  }

  /** A row that the first `m` entries of the ranking leave out ranks no higher than any of them. */
  lemma LeftOutRanksLower(rows: seq<VarianceRow>, metric: Metric, m: nat, x: VarianceRow, i: nat)
    requires m <= |rows|
    requires x in multiset(rows) - multiset(Undecorate(Ranked(rows, metric)[..m]))
    requires i < m
    ensures Magnitude(x, metric) <= Magnitude(Ranked(rows, metric)[i].1, metric)
  {
    var s := Ranked(rows, metric);
    var rest := Undecorate(s[m..]);
    RankedSplit(rows, metric, m);
    assert x in multiset(rest);
    var j :| 0 <= j < |rest| && rest[j] == x;
    assert s[m + j].1 == x;
    RankedOrder(rows, metric);
  }

  /** The rows of the ranking's first `m` entries are a sub-multiset of `rows`, in
      non-increasing magnitude, and every row outside them ranks no higher than every row inside. */
  lemma PrefixOfRanking(rows: seq<VarianceRow>, metric: Metric, m: nat)
    requires m <= |rows|
    ensures var top := Undecorate(Ranked(rows, metric)[..m]);
      && multiset(top) <= multiset(rows)
      && (forall i, j :: 0 <= i < j < |top| ==> Magnitude(top[i], metric) >= Magnitude(top[j], metric))
      && (forall x, i :: x in multiset(rows) - multiset(top) && 0 <= i < |top| ==>
            Magnitude(x, metric) <= Magnitude(top[i], metric))
  {
    var s := Ranked(rows, metric);
    var top := Undecorate(s[..m]);
    RankedSplit(rows, metric, m);
    RankedOrder(rows, metric);
    forall x, i | x in multiset(rows) - multiset(top) && 0 <= i < |top|
      ensures Magnitude(x, metric) <= Magnitude(top[i], metric)
    {
      LeftOutRanksLower(rows, metric, m, x, i);
    }
  }

  /** The first `n` rows of the ranking, `n` read as a Python slice bound. */
  function TopRows(rows: seq<VarianceRow>, metric: Metric, n: int): (top: seq<VarianceRow>)
    reads rows
    ensures n >= 0 ==> |top| == Min(n, |rows|)
    ensures n < 0 ==> |top| == Max(0, |rows| + n)
    ensures multiset(top) <= multiset(rows)
    ensures n >= |rows| ==> multiset(top) == multiset(rows)
    ensures forall i, j :: 0 <= i < j < |top| ==> Magnitude(top[i], metric) >= Magnitude(top[j], metric)
    ensures forall x, i :: x in multiset(rows) - multiset(top) && 0 <= i < |top| ==>
      Magnitude(x, metric) <= Magnitude(top[i], metric)
  {
    var s := Ranked(rows, metric);
    var pre := PyPrefix(s, n);
    PrefixOfRanking(rows, metric, |pre|);
    if n >= |rows| then
      RankedPermutation(rows, metric);
      assert pre == s;
      Undecorate(pre)
    else
      Undecorate(pre)
  }

  /** The result of an analysis run. */
  datatype VarianceReport = VarianceReport(
    rows: seq<VarianceRow>,
    params: AnalysisParams,
    totalRows: int,
    filteredRows: int)
  {
    /**
     * The `n` rows of largest variance magnitude under the selector `criterion`. Any selector
     * other than the two names fails, whatever the rows. `n` is used as a Python slice bound.
     */
    function GetTopVariances(n: int := 10, criterion: string := "absolute"): (r: Result<seq<VarianceRow>, string>)
      reads rows
      ensures r.Failure? <==> criterion != "absolute" && criterion != "percentage"
      ensures r.Failure? ==> r.error == InvalidMetricMessage
      ensures r.Success? ==> r.value == TopRows(rows, ParseMetric(criterion).value, n)
    {
      match ParseMetric(criterion)
      case None => Failure(InvalidMetricMessage)
      case Some(metric) => Success(TopRows(rows, metric, n))
    }
  }

  /** Re-attaching the keys to the top rows gives back the head of the ranking. */
  lemma TopRowsKeys(rows: seq<VarianceRow>, metric: Metric, n: int)
    ensures Decorate(TopRows(rows, metric, n), metric) == PyPrefix(Ranked(rows, metric), n)
  {
    var s := Ranked(rows, metric);
    var pre := PyPrefix(s, n);
    RankedKeys(rows, metric);
    assert TopRows(rows, metric, n) == Undecorate(pre);
  }

  /**
   * Stability of the ranking: for every magnitude `k`, the returned rows of magnitude `k` are
   * the first of the input's rows of magnitude `k`, in input order.
   */
  lemma TopRowsStable(rows: seq<VarianceRow>, metric: Metric, n: int, k: real)
    ensures var top := WithKey(Decorate(TopRows(rows, metric, n), metric), k);
      var all := WithKey(Decorate(rows, metric), k);
      |top| <= |all| && top == all[..|top|]
  {
    var s := Ranked(rows, metric);
    var pre := PyPrefix(s, n);
    TopRowsKeys(rows, metric, n);
    SortIsStable(Decorate(rows, metric), k);
    assert s == pre + s[|pre|..];
    FilterAppend(pre, s[|pre|..], (p: (real, VarianceRow)) => p.0 == k);
  }

  /** The slot type of a column as `analyze_columns` reports it. */
  datatype ColumnType = Number | Date | Text
  {
    /** The tag string the source uses. */
    function Tag(): string
    {
      match this
      case Number => "number"
      case Date => "date"
      case Text => "string"
    }
  }

  /** Which source column feeds each of the four canonical fields, with a heuristic score. */
  datatype ColumnMapping = ColumnMapping(
    account: string,
    period: string,
    actual: string,
    budget: string,
    confidence: real)

  /** Descriptive facts about an uploaded file. */
  datatype FileMetadata = FileMetadata(
    filename: string,
    rows: int,
    columns: seq<string>,
    fileType: string,
    sizeBytes: int,
    columnTypes: map<string, ColumnType>)
}
