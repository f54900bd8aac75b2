/**
 * Loading a report: the mandatory-column checks on a CSV or spreadsheet table, normalisation
 * (exact column set, no empty cells, one row per (account, period), numeric amounts), the
 * conversion of table rows into `VarianceRow` objects, and the dispatch on the file type.
 * Reading the file is not modelled: the table pandas would produce is an input.
 */
module Loader {
  import opened Wrappers
  import opened Seqs
  import opened Tables
  import opened Models

  const Mandatory: set<string> := {"account", "period", "actual", "budget"}

  datatype LoadError =
    | FileNotFound
    | MissingMandatoryColumns
    | UnsupportedFileType(fileType: string)
    | NotConvertible(column: string, text: string)

  /**
   * A file on disk: whether it exists, the table `read_csv` gives, and the table
   * `read_excel` gives for each sheet name.
   */
  datatype SourceFile = SourceFile(present: bool, asCsv: Table, sheets: string -> Table)

  /** The set of column names of a header. */
  function NameSet(names: seq<string>): set<string>
  {
    set c | c in names
  }

  /** The header has all four mandatory columns; other columns may be present too. */
  function CheckMandatoryColumns(t: Table): (r: Result<Table, LoadError>)
    ensures r.Success? <==> "account" in t.columns && "period" in t.columns && "actual" in t.columns && "budget" in t.columns
    ensures r.Success? ==> r.value == t
    ensures r.Failure? ==> r.error == MissingMandatoryColumns
  {
    if Mandatory <= NameSet(t.columns) then Success(t) else Failure(MissingMandatoryColumns)
  }

  /** `load_csv`: a missing file fails first; otherwise the table is accepted when its header has the mandatory columns. */
  function LoadCsv(source: SourceFile): (r: Result<Table, LoadError>)
    ensures !source.present ==> r == Failure(FileNotFound)
    ensures source.present ==> r == CheckMandatoryColumns(source.asCsv)
  {
    if !source.present then Failure(FileNotFound) else CheckMandatoryColumns(source.asCsv)
  }

  /** `load_excel`: as `load_csv`, on the named sheet. */
  function LoadExcel(source: SourceFile, sheetName: string := "Sheet1"): (r: Result<Table, LoadError>)
    ensures !source.present ==> r == Failure(FileNotFound)
    ensures source.present ==> r == CheckMandatoryColumns(source.sheets(sheetName))
  {
    if !source.present then Failure(FileNotFound) else CheckMandatoryColumns(source.sheets(sheetName))
  }

  /**
   * The dispatch of `load_report`: exactly "csv" reads CSV, any tag starting with "xls" reads a
   * sheet, and every other tag is refused by name.
   */
  function LoadTable(source: SourceFile, fileType: string, sheetName: string): (r: Result<Table, LoadError>)
    ensures fileType == "csv" ==> r == LoadCsv(source)
    ensures fileType != "csv" && StartsWith(fileType, "xls") ==> r == LoadExcel(source, sheetName)
    ensures r == Failure(UnsupportedFileType(fileType)) <==> fileType != "csv" && !StartsWith(fileType, "xls")
  {
    if fileType == "csv" then LoadCsv(source)
    else if StartsWith(fileType, "xls") then LoadExcel(source, sheetName)
    else Failure(UnsupportedFileType(fileType))
  }

  /** Which loader each file-type tag reaches; every other tag is refused by name. */
  lemma LoadTableDispatch(source: SourceFile, sheetName: string)
    ensures LoadTable(source, "csv", sheetName) == LoadCsv(source)
    ensures LoadTable(source, "xlsx", sheetName) == LoadExcel(source, sheetName)
    ensures LoadTable(source, "xls", sheetName) == LoadExcel(source, sheetName)
    ensures LoadTable(source, "json", sheetName) == Failure(UnsupportedFileType("json"))
    ensures LoadTable(source, "CSV", sheetName) == Failure(UnsupportedFileType("CSV"))
  {
    assert StartsWith("xlsx", "xls") && StartsWith("xls", "xls");
    assert "json"[0] != "xls"[0];
    assert "CSV"[0] != "xls"[0];
  }

  /** No cell of the row is empty. */
  predicate NoNulls(r: seq<Cell>)
  {
    forall i :: 0 <= i < |r| ==> r[i] != Null
  }

  /** `dropna`: the rows without an empty cell, in order. */
  function DropNulls(rows: seq<seq<Cell>>): seq<seq<Cell>>
  {
    Filter(rows, NoNulls)
  }

  /** The (account, period) key of a row, given the two column positions. */
  function KeyOf(ia: nat, ip: nat): seq<Cell> -> (Cell, Cell)
  {
    (r: seq<Cell>) => (CellAt(r, ia), CellAt(r, ip))
  }

  /** `drop_duplicates` on the key: the first row of each key, in order. */
  function DropDuplicates(rows: seq<seq<Cell>>, ia: nat, ip: nat): seq<seq<Cell>>
  {
    DistinctBy(rows, KeyOf(ia, ip))
  }

  /** The original text of a cell that failed to convert, for the error. */
  function Shown(c: Cell, conv: Conversions): string
  {
    match c
    case Null => ""
    case Num(x) => conv.showReal(x)
    case Str(s) => s
  }

  /**
   * `astype(float)` on column `c`: every cell becomes a number, or the whole conversion
   * fails on the first cell that is not one.
   */
  function CoerceColumn(rows: seq<seq<Cell>>, c: nat, name: string, conv: Conversions): (r: Result<seq<seq<Cell>>, LoadError>)
    requires forall k :: 0 <= k < |rows| ==> c < |rows[k]|
    ensures r.Success? <==> forall k :: 0 <= k < |rows| ==> ToFloat(rows[k][c], conv).Some?
    ensures r.Success? ==> |r.value| == |rows|
    ensures r.Success? ==> forall k :: 0 <= k < |rows| ==>
      r.value[k] == rows[k][c := Num(ToFloat(rows[k][c], conv).value)]
    ensures r.Failure? ==> r.error.NotConvertible? && r.error.column == name
    decreases |rows|
  {
    if rows == [] then Success([])
    else
      var v := ToFloat(rows[0][c], conv);
      if v.None? then Failure(NotConvertible(name, Shown(rows[0][c], conv)))
      else
        assert rows[1..] == rows[1..];
        match CoerceColumn(rows[1..], c, name, conv)
        case Failure(e) => Failure(e)
        case Success(rest) =>
          assert forall k :: 1 <= k < |rows| ==> rows[k] == rows[1..][k - 1];
          Success([rows[0][c := Num(v.value)]] + rest)
  }

  /** The header is exactly the four mandatory columns. */
  predicate ExactColumns(t: Table)
  {
    NameSet(t.columns) == Mandatory
  }

  predicate HasMandatory(names: seq<string>)
  {
    "account" in names && "period" in names && "actual" in names && "budget" in names
  }

  lemma ExactHasMandatory(t: Table)
    requires ExactColumns(t)
    ensures HasMandatory(t.columns)
  {
    assert "account" in NameSet(t.columns) && "period" in NameSet(t.columns);
    assert "actual" in NameSet(t.columns) && "budget" in NameSet(t.columns);
  }

  /** Where the four mandatory columns sit in a row. */
  datatype Layout = Layout(account: nat, period: nat, actual: nat, budget: nat)

  /** The positions of the mandatory columns in a header; they are four different positions. */
  function LayoutOf(names: seq<string>): (l: Layout)
    requires HasMandatory(names)
    ensures l.account < |names| && l.period < |names| && l.actual < |names| && l.budget < |names|
    ensures names[l.account] == "account" && names[l.period] == "period"
    ensures names[l.actual] == "actual" && names[l.budget] == "budget"
    ensures l.account != l.period && l.account != l.actual && l.account != l.budget
    ensures l.period != l.actual && l.period != l.budget && l.actual != l.budget
  {
    assert "actual"[0] != "budget"[0];
    Layout(IndexOf(names, "account"), IndexOf(names, "period"), IndexOf(names, "actual"), IndexOf(names, "budget"))
  }

  /** The rows normalisation keeps, before the amounts are converted. */
  function Survivors(rows: seq<seq<Cell>>, l: Layout): seq<seq<Cell>>
  {
    DropDuplicates(DropNulls(rows), l.account, l.period)
  }

  /** The surviving rows are among the rows, have no empty cell, and do not outnumber them. */
  lemma SurvivorsAreRows(rows: seq<seq<Cell>>, l: Layout)
    ensures var s := Survivors(rows, l);
      |s| <= |rows| && forall k :: 0 <= k < |s| ==> s[k] in rows && NoNulls(s[k])
  {
    var nonNull := DropNulls(rows);
    var s := Survivors(rows, l);
    forall k | 0 <= k < |s| ensures s[k] in rows && NoNulls(s[k]) {
      DistinctByMembers(nonNull, KeyOf(l.account, l.period), s[k]);
      FilterMembers(rows, NoNulls, s[k]);
    }
  }

  /** The surviving rows are the input rows with some deleted, in their input order. */
  lemma SurvivorsSubsequence(rows: seq<seq<Cell>>, l: Layout)
    ensures IsSubsequence(Survivors(rows, l), rows)
  {
    var nonNull := DropNulls(rows);
    var key := KeyOf(l.account, l.period);
    FilterSubsequence(rows, NoNulls);
    assert IsSubsequence(Survivors(rows, l), nonNull) by {
      assert Survivors(rows, l) == Select(nonNull, FirstMask(nonNull, key));
    }
    SubsequenceTransitive(Survivors(rows, l), nonNull, rows);
  }

  /** No two surviving rows share an (account, period). */
  lemma SurvivorsKeysDistinct(rows: seq<seq<Cell>>, l: Layout)
    ensures var s := Survivors(rows, l);
      forall i, j :: 0 <= i < j < |s| ==>
        (CellAt(s[i], l.account), CellAt(s[i], l.period)) != (CellAt(s[j], l.account), CellAt(s[j], l.period))
  {
    var key := KeyOf(l.account, l.period);
    DistinctByKeys(DropNulls(rows), key);
    var s := Survivors(rows, l);
    assert forall i :: 0 <= i < |s| ==> key(s[i]) == (CellAt(s[i], l.account), CellAt(s[i], l.period));
  }

  /**
   * A row survives exactly when it is a complete row that no earlier complete row shares
   * the (account, period) of: the first complete occurrence is the one kept.
   */
  lemma SurvivorsKeepFirst(rows: seq<seq<Cell>>, l: Layout, row: seq<Cell>)
    ensures var nonNull := DropNulls(rows);
      row in Survivors(rows, l) <==>
        exists i :: 0 <= i < |nonNull| && nonNull[i] == row && FirstAt(nonNull, KeyOf(l.account, l.period), i)
  {
    DistinctByMembers(DropNulls(rows), KeyOf(l.account, l.period), row);
  }

  /** Complete rows are exactly the rows without an empty cell. */
  lemma CompleteRows(rows: seq<seq<Cell>>, row: seq<Cell>)
    ensures row in DropNulls(rows) <==> row in rows && NoNulls(row)
  {
    FilterMembers(rows, NoNulls, row);
  }

  /** Every (account, period) of a complete input row is still present after normalisation. */
  lemma SurvivorsCoverKeys(rows: seq<seq<Cell>>, l: Layout, row: seq<Cell>)
    requires row in rows && NoNulls(row)
    ensures exists s :: s in Survivors(rows, l) && CellAt(s, l.account) == CellAt(row, l.account)
                                              && CellAt(s, l.period) == CellAt(row, l.period)
  {
    var nonNull := DropNulls(rows);
    var key := KeyOf(l.account, l.period);
    FilterMembers(rows, NoNulls, row);
    var i :| 0 <= i < |nonNull| && nonNull[i] == row;
    DistinctByCovers(nonNull, key, i);
    var s :| s in Survivors(rows, l) && key(s) == key(row);
  }

  /** The surviving rows with the actual and then the budget column converted to numbers. */
  function NormalizeRows(rows: seq<seq<Cell>>, l: Layout, conv: Conversions): (r: Result<seq<seq<Cell>>, LoadError>)
    requires forall k :: 0 <= k < |rows| ==> l.actual < |rows[k]| && l.budget < |rows[k]|
  {
    var kept := Survivors(rows, l);
    SurvivorsAreRows(rows, l);
    match CoerceColumn(kept, l.actual, "actual", conv)
    case Failure(e) => Failure(e)
    case Success(withActual) => CoerceColumn(withActual, l.budget, "budget", conv)
  }

  /**
   * `normalize_dataframe`: refuse any header other than exactly the mandatory columns, drop
   * rows with an empty cell, keep the first row of each (account, period), then convert the
   * actual and then the budget column to numbers, marking both dtypes float64.
   */
  function NormalizeDataFrame(t: Table, conv: Conversions): (r: Result<Table, LoadError>)
    requires WellFormed(t)
    ensures r == Failure(MissingMandatoryColumns) <==> !ExactColumns(t)
    ensures r.Success? ==> r.value.columns == t.columns && |r.value.dtypes| == |t.dtypes|
  {
    if !ExactColumns(t) then Failure(MissingMandatoryColumns)
    else
      ExactHasMandatory(t);
      var l := LayoutOf(t.columns);
      assert forall k :: 0 <= k < |t.rows| ==> t.rows[k] in t.rows;
      match NormalizeRows(t.rows, l, conv)
      case Failure(e) => Failure(e)
      case Success(rows) => Success(Table(t.columns, t.dtypes[l.actual := "float64"][l.budget := "float64"], rows))
  }

  /** A row ready to become a `VarianceRow`: labels present, amounts numbers. */
  predicate Complete(r: seq<Cell>, l: Layout)
  {
    && l.account < |r| && l.period < |r| && l.actual < |r| && l.budget < |r|
    && r[l.account] != Null && r[l.period] != Null && r[l.actual].Num? && r[l.budget].Num?
  }

  /** A normalised table: well formed, with the mandatory columns, and every row complete. */
  predicate Materializable(t: Table)
  {
    && WellFormed(t)
    && HasMandatory(t.columns)
    && forall k :: 0 <= k < |t.rows| ==> Complete(t.rows[k], LayoutOf(t.columns))
  }

  /**
   * Converting two different columns in turn: each row keeps its width, gets both amounts
   * as numbers, and keeps every other cell, so a row without empty cells stays without.
   */
  lemma CoerceTwo(rows: seq<seq<Cell>>, a: nat, b: nat, conv: Conversions)
    requires a != b
    requires forall k :: 0 <= k < |rows| ==> a < |rows[k]| && b < |rows[k]|
    requires CoerceColumn(rows, a, "actual", conv).Success?
    requires CoerceColumn(CoerceColumn(rows, a, "actual", conv).value, b, "budget", conv).Success?
    ensures var n := CoerceColumn(CoerceColumn(rows, a, "actual", conv).value, b, "budget", conv).value;
      && |n| == |rows|
      && (forall k :: 0 <= k < |rows| ==>
            n[k] == rows[k][a := Num(ToFloat(rows[k][a], conv).value)][b := Num(ToFloat(rows[k][b], conv).value)])
      && (forall k :: 0 <= k < |rows| ==> |n[k]| == |rows[k]| && n[k][a].Num? && n[k][b].Num?)
      && (forall k, i :: 0 <= k < |rows| && 0 <= i < |rows[k]| && i != a && i != b ==> n[k][i] == rows[k][i])
  {
    var m := CoerceColumn(rows, a, "actual", conv).value;
    var n := CoerceColumn(m, b, "budget", conv).value;
    forall k | 0 <= k < |rows|
      ensures n[k] == rows[k][a := Num(ToFloat(rows[k][a], conv).value)][b := Num(ToFloat(rows[k][b], conv).value)]
    {
      assert m[k][b] == rows[k][b];
    }
  }

  /** The normalised rows are the survivors with both amounts converted and nothing else changed. */
  lemma NormalizeRowsValue(rows: seq<seq<Cell>>, l: Layout, conv: Conversions)
    requires l.actual != l.budget
    requires forall k :: 0 <= k < |rows| ==> l.actual < |rows[k]| && l.budget < |rows[k]|
    requires NormalizeRows(rows, l, conv).Success?
    ensures var n := NormalizeRows(rows, l, conv).value;
      var s := Survivors(rows, l);
      && |n| == |s| <= |rows|
      && (forall k :: 0 <= k < |s| ==> l.actual < |s[k]| && l.budget < |s[k]|)
      && (forall k :: 0 <= k < |s| ==>
            n[k] == s[k][l.actual := Num(ToFloat(s[k][l.actual], conv).value)]
                        [l.budget := Num(ToFloat(s[k][l.budget], conv).value)])
      && (forall k :: 0 <= k < |s| ==> NoNulls(n[k]) && s[k] in rows && |n[k]| == |s[k]|)
      && (forall k :: 0 <= k < |s| ==> n[k][l.actual].Num? && n[k][l.budget].Num?)
  {
    var s := Survivors(rows, l);
    SurvivorsAreRows(rows, l);
    assert forall k :: 0 <= k < |s| ==> s[k] in rows;
    assert forall k :: 0 <= k < |s| ==> l.actual < |s[k]| && l.budget < |s[k]| by {
      forall k | 0 <= k < |s| ensures l.actual < |s[k]| && l.budget < |s[k]| {
        var j :| 0 <= j < |rows| && rows[j] == s[k];
      }
    }
    CoerceTwo(s, l.actual, l.budget, conv);
    var n := NormalizeRows(rows, l, conv).value;
    forall k | 0 <= k < |s| ensures NoNulls(n[k]) {
      assert NoNulls(s[k]);
    }
  }

  /** Rows of the header's width, under distinct names with one dtype each, make a well-formed table. */
  lemma WellFormedByIndex(t: Table)
    requires |t.dtypes| == |t.columns| && DistinctNames(t.columns)
    requires forall k :: 0 <= k < |t.rows| ==> |t.rows[k]| == |t.columns|
    ensures WellFormed(t)
  {
    forall r | r in t.rows ensures |r| == |t.columns| {
      var k :| 0 <= k < |t.rows| && t.rows[k] == r;
    }
  }

  /** Normalised rows of a uniform width keep that width and are complete. */
  lemma NormalizedRowsComplete(rows: seq<seq<Cell>>, l: Layout, conv: Conversions, width: nat)
    requires l.actual != l.budget
    requires l.account < width && l.period < width && l.actual < width && l.budget < width
    requires forall k :: 0 <= k < |rows| ==> |rows[k]| == width
    requires NormalizeRows(rows, l, conv).Success?
    ensures var n := NormalizeRows(rows, l, conv).value;
      forall k :: 0 <= k < |n| ==> |n[k]| == width && Complete(n[k], l)
  {
    NormalizeRowsValue(rows, l, conv);
    var n := NormalizeRows(rows, l, conv).value;
    forall k | 0 <= k < |n| ensures |n[k]| == width && Complete(n[k], l) {
      var s := Survivors(rows, l);
      var j :| 0 <= j < |rows| && rows[j] == s[k];
      assert n[k][l.account] != Null && n[k][l.period] != Null;
    }
  }

  /**
   * A successful normalisation gives a table ready for `dataframe_to_rows`: the header is
   * kept, the two amount dtypes become float64, the rows are the normalised rows, and every
   * row has its labels present and its amounts as numbers.
   */
  lemma NormalizedRows(t: Table, conv: Conversions)
    requires WellFormed(t)
    requires NormalizeDataFrame(t, conv).Success?
    ensures ExactColumns(t) && HasMandatory(t.columns)
    ensures var n := NormalizeDataFrame(t, conv).value;
      var l := LayoutOf(t.columns);
      && (forall k :: 0 <= k < |t.rows| ==> l.actual < |t.rows[k]| && l.budget < |t.rows[k]|)
      && NormalizeRows(t.rows, l, conv).Success?
      && n == Table(t.columns, t.dtypes[l.actual := "float64"][l.budget := "float64"], NormalizeRows(t.rows, l, conv).value)
      && Materializable(n)
  {
    ExactHasMandatory(t);
    assert forall k :: 0 <= k < |t.rows| ==> |t.rows[k]| == |t.columns| by {
      assert forall k :: 0 <= k < |t.rows| ==> t.rows[k] in t.rows;
    }
    var l := LayoutOf(t.columns);
    var rows := NormalizeRows(t.rows, l, conv).value;
    var n := Table(t.columns, t.dtypes[l.actual := "float64"][l.budget := "float64"], rows);
    assert NormalizeDataFrame(t, conv).value == n;
    NormalizedRowsComplete(t.rows, l, conv, |t.columns|);
    WellFormedByIndex(n);
  }

  /** Converting two columns in turn fails exactly when some row has a non-number in one of them. */
  lemma CoerceTwoFails(rows: seq<seq<Cell>>, a: nat, b: nat, conv: Conversions)
    requires a != b
    requires forall k :: 0 <= k < |rows| ==> a < |rows[k]| && b < |rows[k]|
    ensures (CoerceColumn(rows, a, "actual", conv).Failure?
             || CoerceColumn(CoerceColumn(rows, a, "actual", conv).value, b, "budget", conv).Failure?)
            <==> exists k :: 0 <= k < |rows| && (ToFloat(rows[k][a], conv).None? || ToFloat(rows[k][b], conv).None?)
  {
    var first := CoerceColumn(rows, a, "actual", conv);
    if first.Success? {
      var withActual := first.value;
      assert forall k :: 0 <= k < |rows| ==> withActual[k][b] == rows[k][b];
    }
  }

  /**
   * When the header is right, normalisation fails exactly when some surviving row has an
   * amount that is not a number, and then the error names the column.
   */
  lemma NormalizeFailsOnText(t: Table, conv: Conversions)
    requires WellFormed(t) && ExactColumns(t)
    ensures HasMandatory(t.columns)
    ensures var l := LayoutOf(t.columns);
      var s := Survivors(t.rows, l);
      (NormalizeDataFrame(t, conv).Failure? <==>
        exists k :: 0 <= k < |s| && (ToFloat(CellAt(s[k], l.actual), conv).None? || ToFloat(CellAt(s[k], l.budget), conv).None?))
    ensures NormalizeDataFrame(t, conv).Failure? ==> NormalizeDataFrame(t, conv).error.NotConvertible?
  {
    ExactHasMandatory(t);
    var l := LayoutOf(t.columns);
    var s := Survivors(t.rows, l);
    SurvivorsAreRows(t.rows, l);
    assert forall k :: 0 <= k < |t.rows| ==> t.rows[k] in t.rows;
    assert NormalizeDataFrame(t, conv).Failure? <==> NormalizeRows(t.rows, l, conv).Failure?;
    assert forall k :: 0 <= k < |s| ==> |s[k]| == |t.columns|;
    CoerceTwoFails(s, l.actual, l.budget, conv);
    assert forall k :: 0 <= k < |s| ==> CellAt(s[k], l.actual) == s[k][l.actual] && CellAt(s[k], l.budget) == s[k][l.budget];
  }

  /** The `VarianceRow` fields a complete row gives: labels as text, amounts as numbers, no variances. */
  function RowOf(r: seq<Cell>, l: Layout, conv: Conversions): RowData
    requires Complete(r, l)
  {
    RowData(ToText(r[l.account], conv), ToText(r[l.period], conv), r[l.actual].value, r[l.budget].value, None, None)
  }

  /** One new row object per complete row, in order, carrying that row's values and no variances. */
  method MaterializeRows(cells: seq<seq<Cell>>, l: Layout, conv: Conversions) returns (rows: seq<VarianceRow>)
    requires forall k :: 0 <= k < |cells| ==> Complete(cells[k], l)
    ensures |rows| == |cells|
    ensures forall i :: 0 <= i < |rows| ==> fresh(rows[i]) && rows[i].Data() == RowOf(cells[i], l, conv)
    ensures forall i, j :: 0 <= i < j < |rows| ==> rows[i] != rows[j]
  {
    rows := [];
    var i := 0;
    while i < |cells|
      invariant 0 <= i <= |cells| && |rows| == i
      invariant forall k :: 0 <= k < i ==> fresh(rows[k])
      invariant forall k :: 0 <= k < i ==> rows[k].Data() == RowOf(cells[k], l, conv)
      invariant forall k, m :: 0 <= k < m < i ==> rows[k] != rows[m]
    {
      var values := RowOf(cells[i], l, conv);
      var row := new VarianceRow(values.account, values.period, values.actual, values.budget);
      assert row.Data() == values;
      rows := rows + [row];
      i := i + 1;
    }
  }

  /** `dataframe_to_rows`: one new row object per table row, in order, carrying that row's values. */
  method DataframeToRows(t: Table, conv: Conversions) returns (rows: seq<VarianceRow>)
    requires Materializable(t)
    ensures |rows| == |t.rows|
    ensures forall i :: 0 <= i < |rows| ==> fresh(rows[i]) && rows[i].Data() == RowOf(t.rows[i], LayoutOf(t.columns), conv)
    ensures forall i, j :: 0 <= i < j < |rows| ==> rows[i] != rows[j]
  {
    rows := MaterializeRows(t.rows, LayoutOf(t.columns), conv);
  }

  /**
   * `load_report`: load by file type, normalise, and build the rows. The error of the first
   * failing step is the error of the whole.
   */
  method LoadReport(source: SourceFile, conv: Conversions, fileType: string := "csv", sheetName: string := "Sheet1")
    returns (r: Result<seq<VarianceRow>, LoadError>)
    requires WellFormed(source.asCsv) && WellFormed(source.sheets(sheetName))
    ensures var loaded := LoadTable(source, fileType, sheetName);
      r.Success? <==> loaded.Success? && NormalizeDataFrame(loaded.value, conv).Success?
    ensures var loaded := LoadTable(source, fileType, sheetName);
      loaded.Failure? ==> r == Failure(loaded.error)
    ensures var loaded := LoadTable(source, fileType, sheetName);
      loaded.Success? && NormalizeDataFrame(loaded.value, conv).Failure? ==>
        r == Failure(NormalizeDataFrame(loaded.value, conv).error)
    ensures r.Success? ==>
      var n := NormalizeDataFrame(LoadTable(source, fileType, sheetName).value, conv).value;
      && Materializable(n)
      && |r.value| == |n.rows|
      && forall i :: 0 <= i < |r.value| ==> fresh(r.value[i]) && r.value[i].Data() == RowOf(n.rows[i], LayoutOf(n.columns), conv)
  {
    var loaded: Result<Table, LoadError>;
    if fileType == "csv" {
      loaded := LoadCsv(source);
    } else if StartsWith(fileType, "xls") {
      loaded := LoadExcel(source, sheetName);
    } else {
      loaded := Failure(UnsupportedFileType(fileType));
    }
    if loaded.Failure? {
      return Failure(loaded.error);
    }
    var normalized := NormalizeDataFrame(loaded.value, conv);
    if normalized.Failure? {
      return Failure(normalized.error);
    }
    NormalizedRows(loaded.value, conv);
    var rows := DataframeToRows(normalized.value, conv);
    return Success(rows);
  }
}
