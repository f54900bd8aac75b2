/**
 * The column mapper for files whose headers are not the canonical names: a per-column
 * analysis, the keyword-then-type heuristic that suggests which column feeds account,
 * period, actual and budget, the validation and application of a mapping, and the file
 * metadata. Python's `str.lower` is a parameter `lower`, since the keywords include
 * Cyrillic and case folding is not modelled.
 */
module Mapper {
  import opened Wrappers
  import opened Seqs
  import opened Tables
  import opened Models
  import opened Calculator
  import opened Loader

  /** What `analyze_columns` reports about one column. */
  datatype ColumnInfo = ColumnInfo(dtype: ColumnType, sampleValues: seq<Cell>, nullCount: nat, uniqueCount: nat)

  /** A dictionary from column name to its analysis, in the insertion order of its keys. */
  type Analysis = seq<(string, ColumnInfo)>

  /**
   * The type tag of a pandas dtype string, read from its prefix: int and float dtypes are
   * numbers, datetime dtypes dates, and every other dtype text.
   */
  function TypeOf(dtype: string): (tag: ColumnType)
    ensures tag == Number <==> StartsWith(dtype, "int") || StartsWith(dtype, "float")
    ensures tag == Date <==> StartsWith(dtype, "datetime")
    ensures tag == Text <==> !StartsWith(dtype, "int") && !StartsWith(dtype, "float") && !StartsWith(dtype, "datetime")
  {
    assert StartsWith(dtype, "datetime") ==> dtype[..1] == "d";
    assert StartsWith(dtype, "int") ==> dtype[..1] == "i";
    assert StartsWith(dtype, "float") ==> dtype[..1] == "f";
    if StartsWith(dtype, "int") || StartsWith(dtype, "float") then Number
    else if StartsWith(dtype, "datetime") then Date
    else Text
  }

  /** Every integer and float dtype is a number, every datetime dtype a date, and the rest text. */
  lemma TypeOfPrefixes(suffix: string)
    ensures TypeOf("int" + suffix) == Number && TypeOf("float" + suffix) == Number
    ensures TypeOf("datetime" + suffix) == Date
    ensures TypeOf("object") == Text && TypeOf("bool") == Text && TypeOf("category") == Text
    ensures TypeOf("uint8") == Text
  {
    assert ("int" + suffix)[..3] == "int";
    assert ("float" + suffix)[..5] == "float";
    assert ("datetime" + suffix)[..8] == "datetime";
    assert "datetime"[0] != "int"[0] && "datetime"[0] != "float"[0];
    assert "object"[0] != "int"[0] && "object"[0] != "float"[0] && "object"[0] != "datetime"[0];
    assert "bool"[0] != "int"[0] && "bool"[0] != "float"[0] && "bool"[0] != "datetime"[0];
    assert "category"[0] != "int"[0] && "category"[0] != "float"[0] && "category"[0] != "datetime"[0];
    assert "uint8"[0] != "int"[0] && "uint8"[0] != "float"[0] && "uint8"[0] != "datetime"[0];
  }

  predicate IsNull(c: Cell)
  {
    c.Null?
  }

  predicate IsPresent(c: Cell)
  {
    !c.Null?
  }

  /**
   * The analysis of the column at position `i`: its type tag, its first five cells, how
   * many of its cells are empty and how many distinct values the others hold. The samples
   * are the column's first min(5, rows) cells; the empty cells and the distinct values
   * together never outnumber the rows, and there is no value exactly when every cell is empty.
   */
  function InfoOf(t: Table, i: nat): (info: ColumnInfo)
    requires i < |t.dtypes|
    ensures info.dtype == TypeOf(t.dtypes[i])
    ensures |info.sampleValues| == Min(5, |t.rows|)
    ensures forall k :: 0 <= k < |info.sampleValues| ==> info.sampleValues[k] == CellAt(t.rows[k], i)
    ensures info.nullCount + info.uniqueCount <= |t.rows|
    ensures info.uniqueCount == 0 <==> info.nullCount == |t.rows|
  {
    var cells := ColumnAt(t, i);
    FilterComplement(cells, IsNull, IsPresent);
    ElementsAtMostLength(Filter(cells, IsPresent));
    ColumnInfo(TypeOf(t.dtypes[i]), PyPrefix(cells, 5), Count(cells, IsNull), |Elements(Filter(cells, IsPresent))|)
  }

  /** `analyze_columns`: one entry per column, in column order, holding that column's analysis. */
  method AnalyzeColumns(t: Table) returns (analysis: Analysis)
    requires WellFormed(t)
    ensures |analysis| == |t.columns|
    ensures forall i :: 0 <= i < |t.columns| ==> analysis[i] == (t.columns[i], InfoOf(t, i))
  {
    analysis := [];
    var i := 0;
    while i < |t.columns|
      invariant 0 <= i <= |t.columns| && |analysis| == i
      invariant forall j :: 0 <= j < i ==> analysis[j] == (t.columns[j], InfoOf(t, j))
    {
      var cells := ColumnAt(t, i);
      var dataType := TypeOf(t.dtypes[i]);
      var samples := PyPrefix(cells, 5);
      var nullCount := Count(cells, IsNull);
      var uniqueCount := |Elements(Filter(cells, IsPresent))|;
      analysis := analysis + [(t.columns[i], ColumnInfo(dataType, samples, nullCount, uniqueCount))];
      i := i + 1;
    }
  }

  /** The keys of an analysis, in order. */
  function Names(info: Analysis): (names: seq<string>)
    ensures |names| == |info|
    ensures forall i :: 0 <= i < |info| ==> names[i] == info[i].0
  {
    seq(|info|, i requires 0 <= i < |info| => info[i].0)
  }

  const AccountKeywords: seq<string> := ["account", "статья", "item", "category", "name", "счет", "наименование"]
  const PeriodKeywords: seq<string> := ["period", "date", "month", "период", "дата", "месяц", "quarter", "year"]
  const ActualKeywords: seq<string> := ["actual", "фактический", "fact", "real", "факт"]
  const BudgetKeywords: seq<string> := ["budget", "бюджет", "plan", "planned", "план"]

  /** The lowered column name contains one of the keywords. */
  predicate Matches(name: string, keywords: seq<string>, lower: string -> string)
  {
    ContainsAny(lower(name), keywords)
  }

  /** Column `i` matches and no column before it does. */
  predicate FirstMatchAt(columns: seq<string>, keywords: seq<string>, lower: string -> string, i: nat)
    requires i < |columns|
  {
    Matches(columns[i], keywords, lower) && forall j :: 0 <= j < i ==> !Matches(columns[j], keywords, lower)
  }

  /** What `find_column` answers: the first column whose lowered name contains one of the keywords. */
  function FirstMatch(columns: seq<string>, keywords: seq<string>, lower: string -> string): Option<string>
    decreases |columns|
  {
    if columns == [] then None
    else if Matches(columns[0], keywords, lower) then Some(columns[0])
    else FirstMatch(columns[1..], keywords, lower)
  }

  /**
   * The column found is the first, in column order, whose lowered name contains any of the
   * keywords, so column order wins over keyword order; nothing is found exactly when no
   * column matches.
   */
  lemma {:induction false} FirstMatchIsFirst(columns: seq<string>, keywords: seq<string>, lower: string -> string)
    ensures var r := FirstMatch(columns, keywords, lower);
      && (r.None? <==> forall i :: 0 <= i < |columns| ==> !Matches(columns[i], keywords, lower))
      && (r.Some? ==> exists i :: 0 <= i < |columns| && columns[i] == r.value && FirstMatchAt(columns, keywords, lower, i))
    decreases |columns|
  {
    if columns != [] {
      if Matches(columns[0], keywords, lower) {
        assert FirstMatchAt(columns, keywords, lower, 0);
      } else {
        FirstMatchIsFirst(columns[1..], keywords, lower);
        assert forall i :: 1 <= i < |columns| ==> columns[i] == columns[1..][i - 1];
        var rest := FirstMatch(columns[1..], keywords, lower);
        if rest.Some? {
          var i :| 0 <= i < |columns| - 1 && columns[1..][i] == rest.value && FirstMatchAt(columns[1..], keywords, lower, i);
          assert FirstMatchAt(columns, keywords, lower, i + 1);
        }
      }
    }
  }

  /** A column found is one of the columns. */
  lemma FirstMatchMember(columns: seq<string>, keywords: seq<string>, lower: string -> string)
    ensures FirstMatch(columns, keywords, lower).Some? ==> FirstMatch(columns, keywords, lower).value in columns
  {
    FirstMatchIsFirst(columns, keywords, lower);
  }

  /** `find_column`: the nested search over columns and then keywords, returning at the first hit. */
  method FindColumn(columns: seq<string>, keywords: seq<string>, lower: string -> string) returns (r: Option<string>)
    ensures r == FirstMatch(columns, keywords, lower)
  {
    var i := 0;
    while i < |columns|
      invariant 0 <= i <= |columns|
      invariant FirstMatch(columns, keywords, lower) == FirstMatch(columns[i..], keywords, lower)
    {
      var colLower := lower(columns[i]);
      var k := 0;
      while k < |keywords|
        invariant 0 <= k <= |keywords|
        invariant forall m :: 0 <= m < k ==> !Contains(colLower, keywords[m])
      {
        if Contains(colLower, keywords[k]) {
          assert columns[i..][0] == columns[i];
          return Some(columns[i]);
        }
        k := k + 1;
      }
      assert columns[i..][1..] == columns[i + 1..];
      i := i + 1;
    }
    return None;
  }

  /** Entry `i` has one of the type tags and is not the excluded name. */
  predicate OfType(info: Analysis, types: set<ColumnType>, except: Option<string>, i: nat)
    requires i < |info|
  {
    info[i].1.dtype in types && Some(info[i].0) != except
  }

  /** The names of the columns tagged with one of `types`, other than `except`, in column order. */
  function NamesWithType(info: Analysis, types: set<ColumnType>, except: Option<string>): (names: seq<string>)
    ensures |names| <= |info|
    decreases |info|
  {
    if info == [] then []
    else if OfType(info, types, except, 0) then [info[0].0] + NamesWithType(info[1..], types, except)
    else NamesWithType(info[1..], types, except)
  }

  /**
   * A name is listed exactly when its column has one of the tags and is not excluded; the
   * first listed is the first such column; nothing is listed exactly when no column qualifies.
   */
  lemma {:induction false} NamesWithTypeMembers(info: Analysis, types: set<ColumnType>, except: Option<string>)
    ensures var names := NamesWithType(info, types, except);
      && (forall c :: c in names <==> exists i :: 0 <= i < |info| && info[i].0 == c && OfType(info, types, except, i))
      && (names != [] ==> exists i :: 0 <= i < |info| && info[i].0 == names[0] && OfType(info, types, except, i)
                                      && forall j :: 0 <= j < i ==> !OfType(info, types, except, j))
      && (names == [] <==> forall i :: 0 <= i < |info| ==> !OfType(info, types, except, i))
    decreases |info|
  {
    if info != [] {
      NamesWithTypeMembers(info[1..], types, except);
      var rest := NamesWithType(info[1..], types, except);
      assert forall i :: 1 <= i < |info| ==> info[i] == info[1..][i - 1];
      assert forall i :: 1 <= i < |info| ==> (OfType(info, types, except, i) <==> OfType(info[1..], types, except, i - 1));
      if !OfType(info, types, except, 0) && rest != [] {
        var i :| 0 <= i < |info| - 1 && info[1..][i].0 == rest[0] && OfType(info[1..], types, except, i)
                 && forall j :: 0 <= j < i ==> !OfType(info[1..], types, except, j);
        assert OfType(info, types, except, i + 1);
      }
    }
  }

  /** A slot counts as found only when it names a column and that name is not empty, as Python's truthiness has it. */
  predicate Resolved(slot: Option<string>)
  {
    slot.Some? && slot.value != ""
  }

  /** The four slots after the keyword search and the type fallbacks. */
  datatype Slots = Slots(account: Option<string>, period: Option<string>, actual: Option<string>, budget: Option<string>)

  /** Account: the keyword match, else the first text column. */
  function AccountSlot(info: Analysis, lower: string -> string): Option<string>
  {
    var found := FirstMatch(Names(info), AccountKeywords, lower);
    var strings := NamesWithType(info, {Text}, None);
    if !Resolved(found) && strings != [] then Some(strings[0]) else found
  }

  /** Period: the keyword match, else the first date or text column, or the second one when the first is the account. */
  function PeriodSlot(info: Analysis, lower: string -> string, account: Option<string>): Option<string>
  {
    var found := FirstMatch(Names(info), PeriodKeywords, lower);
    var dates := NamesWithType(info, {Date, Text}, None);
    if Resolved(found) || dates == [] then found
    else if Some(dates[0]) != account then Some(dates[0])
    else if |dates| > 1 then Some(dates[1])
    else None
  }

  /** Actual: the keyword match, else the first number column. */
  function ActualSlot(info: Analysis, lower: string -> string): Option<string>
  {
    var found := FirstMatch(Names(info), ActualKeywords, lower);
    var numbers := NamesWithType(info, {Number}, None);
    if !Resolved(found) && numbers != [] then Some(numbers[0]) else found
  }

  /** Budget: the keyword match, else the first number column other than the actual one. */
  function BudgetSlot(info: Analysis, lower: string -> string, actual: Option<string>): Option<string>
  {
    var found := FirstMatch(Names(info), BudgetKeywords, lower);
    var numbers := NamesWithType(info, {Number}, actual);
    if !Resolved(found) && numbers != [] then Some(numbers[0]) else found
  }

  function Resolve(info: Analysis, lower: string -> string): Slots
  {
    var account := AccountSlot(info, lower);
    var actual := ActualSlot(info, lower);
    Slots(account, PeriodSlot(info, lower, account), actual, BudgetSlot(info, lower, actual))
  }

  /** The names of the unresolved slots, in the order account, period, actual, budget. */
  function MissingSlots(s: Slots): seq<string>
  {
    (if Resolved(s.account) then [] else ["account"]) +
    (if Resolved(s.period) then [] else ["period"]) +
    (if Resolved(s.actual) then [] else ["actual"]) +
    (if Resolved(s.budget) then [] else ["budget"])
  }

  /** Every slot is unresolved exactly when its name is listed; nothing else is listed. */
  lemma MissingSlotsListed(s: Slots)
    ensures MissingSlots(s) == [] <==> Resolved(s.account) && Resolved(s.period) && Resolved(s.actual) && Resolved(s.budget)
    ensures "account" in MissingSlots(s) <==> !Resolved(s.account)
    ensures "period" in MissingSlots(s) <==> !Resolved(s.period)
    ensures "actual" in MissingSlots(s) <==> !Resolved(s.actual)
    ensures "budget" in MissingSlots(s) <==> !Resolved(s.budget)
    ensures forall x :: x in MissingSlots(s) ==> x in ["account", "period", "actual", "budget"]
  {
    assert "account"[0] != "period"[0] && "account"[0] != "budget"[0] && "period"[0] != "actual"[0];
    assert "period"[0] != "budget"[0] && "actual"[0] != "budget"[0] && "account"[2] != "actual"[2];
  }

  const SuggestErrorPrefix: string := "Не удалось автоматически определить столбцы: "

  /** The number of chosen columns whose lowered name contains one of their own slot's keywords. */
  function Hits(account: string, period: string, actual: string, budget: string, lower: string -> string): (k: nat)
    ensures k <= 4
  {
    (if Matches(account, AccountKeywords, lower) then 1 else 0) +
    (if Matches(period, PeriodKeywords, lower) then 1 else 0) +
    (if Matches(actual, ActualKeywords, lower) then 1 else 0) +
    (if Matches(budget, BudgetKeywords, lower) then 1 else 0)
  }

  function RealMin(a: real, b: real): real
  {
    if a <= b then a else b
  }

  /** The suggestion `suggest_mapping` makes, or its error naming the slots it could not fill. */
  function Suggested(info: Analysis, lower: string -> string): (r: Result<ColumnMapping, string>)
  {
    var s := Resolve(info, lower);
    if MissingSlots(s) != [] then Failure(SuggestErrorPrefix + Join(", ", MissingSlots(s)))
    else
      var k := Hits(s.account.value, s.period.value, s.actual.value, s.budget.value, lower);
      Success(ColumnMapping(s.account.value, s.period.value, s.actual.value, s.budget.value,
                            RealMin(0.8 + 0.05 * (k as real), 1.0)))
  }

  /**
   * The slot search of `suggest_mapping`: the keyword search for each slot, then the type
   * fallback for each slot still unresolved, account before period and actual before budget.
   */
  method ResolveSlots(info: Analysis, lower: string -> string) returns (account: Option<string>, period: Option<string>,
                                                                       actual: Option<string>, budget: Option<string>)
    ensures Slots(account, period, actual, budget) == Resolve(info, lower)
  {
    var columns := Names(info);
    account := FindColumn(columns, AccountKeywords, lower);
    period := FindColumn(columns, PeriodKeywords, lower);
    actual := FindColumn(columns, ActualKeywords, lower);
    budget := FindColumn(columns, BudgetKeywords, lower);

    if !Resolved(account) {
      var stringCols := NamesWithType(info, {Text}, None);
      if stringCols != [] {
        account := Some(stringCols[0]);
      }
    }
    if !Resolved(period) {
      var dateCols := NamesWithType(info, {Date, Text}, None);
      if dateCols != [] {
        period := if Some(dateCols[0]) != account then Some(dateCols[0])
                  else if |dateCols| > 1 then Some(dateCols[1]) else None;
      }
    }
    if !Resolved(actual) {
      var numberCols := NamesWithType(info, {Number}, None);
      if numberCols != [] {
        actual := Some(numberCols[0]);
      }
    }
    if !Resolved(budget) {
      var numberCols := NamesWithType(info, {Number}, actual);
      if numberCols != [] {
        budget := Some(numberCols[0]);
      }
    }
  }

  /**
   * `suggest_mapping`: resolve the slots, fail naming every unresolved slot, and otherwise
   * add 0.05 to a base of 0.8 for each chosen column that carries one of its slot's
   * keywords, capped at 1.0.
   */
  method SuggestMapping(info: Analysis, lower: string -> string) returns (r: Result<ColumnMapping, string>)
    ensures r == Suggested(info, lower)
  {
    var account, period, actual, budget := ResolveSlots(info, lower);

    if !(Resolved(account) && Resolved(period) && Resolved(actual) && Resolved(budget)) {
      var missing: seq<string> := [];
      if !Resolved(account) { missing := missing + ["account"]; }
      if !Resolved(period) { missing := missing + ["period"]; }
      if !Resolved(actual) { missing := missing + ["actual"]; }
      if !Resolved(budget) { missing := missing + ["budget"]; }
      assert missing == MissingSlots(Resolve(info, lower));
      return Failure(SuggestErrorPrefix + Join(", ", missing));
    }

    var confidence := 0.8;
    if ContainsAny(lower(account.value), AccountKeywords) { confidence := confidence + 0.05; }
    if ContainsAny(lower(period.value), PeriodKeywords) { confidence := confidence + 0.05; }
    if ContainsAny(lower(actual.value), ActualKeywords) { confidence := confidence + 0.05; }
    if ContainsAny(lower(budget.value), BudgetKeywords) { confidence := confidence + 0.05; }
    assert confidence == 0.8 + 0.05 * (Hits(account.value, period.value, actual.value, budget.value, lower) as real);
    return Success(ColumnMapping(account.value, period.value, actual.value, budget.value, RealMin(confidence, 1.0)));
  }

  /**
   * The suggestion fails exactly when a slot stays unresolved, and its message then names
   * the unresolved slots in the order account, period, actual, budget. A suggestion names
   * resolved columns, and its confidence is 0.8 plus 0.05 per keyword-bearing choice,
   * always within [0.8, 1.0].
   */
  lemma SuggestedOutcome(info: Analysis, lower: string -> string)
    ensures var s := Resolve(info, lower);
      Suggested(info, lower).Failure? <==>
        !(Resolved(s.account) && Resolved(s.period) && Resolved(s.actual) && Resolved(s.budget))
    ensures var s := Resolve(info, lower);
      Suggested(info, lower).Failure? ==>
        Suggested(info, lower).error == SuggestErrorPrefix + Join(", ", MissingSlots(s)) && MissingSlots(s) != []
    ensures var r := Suggested(info, lower);
      r.Success? ==>
        && (forall c :: c in [r.value.account, r.value.period, r.value.actual, r.value.budget] ==> c != "" && c in Names(info))
        && r.value.confidence == 0.8 + 0.05 * (Hits(r.value.account, r.value.period, r.value.actual, r.value.budget, lower) as real)
        && 0.8 <= r.value.confidence <= 1.0
  {
    var s := Resolve(info, lower);
    MissingSlotsListed(s);
    var names := Names(info);
    var r := Suggested(info, lower);
    if r.Success? {
      SlotNamesAColumn(info, lower);
    }
  }

  /** Every resolved slot names a column of the analysis. */
  lemma SlotNamesAColumn(info: Analysis, lower: string -> string)
    ensures var s := Resolve(info, lower);
      && (s.account.Some? ==> s.account.value in Names(info))
      && (s.period.Some? ==> s.period.value in Names(info))
      && (s.actual.Some? ==> s.actual.value in Names(info))
      && (s.budget.Some? ==> s.budget.value in Names(info))
  {
    var names := Names(info);
    FirstMatchMember(names, AccountKeywords, lower);
    FirstMatchMember(names, PeriodKeywords, lower);
    FirstMatchMember(names, ActualKeywords, lower);
    FirstMatchMember(names, BudgetKeywords, lower);
    forall types: set<ColumnType>, except: Option<string>, c | c in NamesWithType(info, types, except)
      ensures c in names
    {
      NamesWithTypeMembers(info, types, except);
      var i :| 0 <= i < |info| && info[i].0 == c && OfType(info, types, except, i);
      assert names[i] == c;
    }
  }

  /** A slot whose keyword search found a non-empty name keeps that name, whatever the types. */
  lemma KeywordsWin(info: Analysis, lower: string -> string)
    ensures var s := Resolve(info, lower);
      var names := Names(info);
      && (Resolved(FirstMatch(names, AccountKeywords, lower)) ==> s.account == FirstMatch(names, AccountKeywords, lower))
      && (Resolved(FirstMatch(names, PeriodKeywords, lower)) ==> s.period == FirstMatch(names, PeriodKeywords, lower))
      && (Resolved(FirstMatch(names, ActualKeywords, lower)) ==> s.actual == FirstMatch(names, ActualKeywords, lower))
      && (Resolved(FirstMatch(names, BudgetKeywords, lower)) ==> s.budget == FirstMatch(names, BudgetKeywords, lower))
  {
  }

  /** Excluding a name that no column has changes nothing. */
  lemma {:induction false} NamesWithTypeAbsentExcept(info: Analysis, types: set<ColumnType>, a: string)
    requires forall i :: 0 <= i < |info| ==> info[i].0 != a
    ensures NamesWithType(info, types, Some(a)) == NamesWithType(info, types, None)
    decreases |info|
  {
    if info != [] {
      assert forall i :: 0 <= i < |info| - 1 ==> info[1..][i] == info[i + 1];
      NamesWithTypeAbsentExcept(info[1..], types, a);
    }
  }

  /**
   * With distinct names, excluding `a` from the columns of a type drops `a` when it is the
   * first of them and otherwise keeps the same first column.
   */
  lemma {:induction false} NamesWithTypeSkipFirst(info: Analysis, types: set<ColumnType>, a: string)
    requires DistinctNames(Names(info))
    requires NamesWithType(info, types, None) != []
    ensures var all := NamesWithType(info, types, None);
      var other := NamesWithType(info, types, Some(a));
      && (all[0] == a ==> other == all[1..])
      && (all[0] != a ==> other != [] && other[0] == all[0])
    decreases |info|
  {
    var all := NamesWithType(info, types, None);
    assert Names(info[1..]) == Names(info)[1..];
    if OfType(info, types, None, 0) {
      if info[0].0 == a {
        forall i | 0 <= i < |info| - 1 ensures info[1..][i].0 != a {
          assert Names(info)[i + 1] == info[1..][i].0 && Names(info)[0] == a;
        }
        NamesWithTypeAbsentExcept(info[1..], types, a);
      }
    } else {
      NamesWithTypeSkipFirst(info[1..], types, a);
    }
  }

  /**
   * The type fallbacks: a slot whose keyword search failed takes the first column of its
   * type; the period takes the first date or text column other than the account, which is
   * the second such column when the first is the account; the budget takes the first number
   * column other than the actual one.
   */
  lemma TypeFallbacks(info: Analysis, lower: string -> string)
    requires DistinctNames(Names(info))
    ensures var s := Resolve(info, lower);
      var names := Names(info);
      && (!Resolved(FirstMatch(names, AccountKeywords, lower)) && Resolved(s.account) ==>
            exists i :: 0 <= i < |info| && info[i].0 == s.account.value && OfType(info, {Text}, None, i)
                        && forall j :: 0 <= j < i ==> !OfType(info, {Text}, None, j))
      && (!Resolved(FirstMatch(names, PeriodKeywords, lower)) && Resolved(s.period) ==>
            s.period != s.account
            && exists i :: 0 <= i < |info| && info[i].0 == s.period.value && OfType(info, {Date, Text}, s.account, i)
                           && forall j :: 0 <= j < i ==> !OfType(info, {Date, Text}, s.account, j))
      && (!Resolved(FirstMatch(names, ActualKeywords, lower)) && Resolved(s.actual) ==>
            exists i :: 0 <= i < |info| && info[i].0 == s.actual.value && OfType(info, {Number}, None, i)
                        && forall j :: 0 <= j < i ==> !OfType(info, {Number}, None, j))
      && (!Resolved(FirstMatch(names, BudgetKeywords, lower)) && Resolved(s.budget) ==>
            s.budget != s.actual
            && exists i :: 0 <= i < |info| && info[i].0 == s.budget.value && OfType(info, {Number}, s.actual, i)
                           && forall j :: 0 <= j < i ==> !OfType(info, {Number}, s.actual, j))
  {
    var s := Resolve(info, lower);
    var names := Names(info);
    NamesWithTypeMembers(info, {Text}, None);
    NamesWithTypeMembers(info, {Number}, None);
    NamesWithTypeMembers(info, {Number}, s.actual);
    NamesWithTypeMembers(info, {Date, Text}, s.account);
    var dates := NamesWithType(info, {Date, Text}, None);
    var others := NamesWithType(info, {Date, Text}, s.account);
    if !Resolved(FirstMatch(names, PeriodKeywords, lower)) && Resolved(s.period) {
      if s.account.Some? {
        NamesWithTypeSkipFirst(info, {Date, Text}, s.account.value);
        if dates[0] == s.account.value {
          assert s.period == Some(dates[1]) && others[0] == dates[1];
        }
      }
      assert s.period == Some(others[0]);
    }
  }

  /** With distinct column names, the names of a type are distinct too. */
  lemma {:induction false} NamesWithTypeDistinct(info: Analysis, types: set<ColumnType>, except: Option<string>)
    requires DistinctNames(Names(info))
    ensures DistinctNames(NamesWithType(info, types, except))
    decreases |info|
  {
    if info != [] {
      assert Names(info[1..]) == Names(info)[1..];
      NamesWithTypeDistinct(info[1..], types, except);
      NamesWithTypeMembers(info[1..], types, except);
      var rest := NamesWithType(info[1..], types, except);
      if OfType(info, types, except, 0) {
        forall c | c in rest ensures c != info[0].0 {
          var i :| 0 <= i < |info| - 1 && info[1..][i].0 == c && OfType(info[1..], types, except, i);
          assert Names(info)[i + 1] == c;
        }
        var names := [info[0].0] + rest;
        assert NamesWithType(info, types, except) == names;
        forall i, j | 0 <= i < j < |names| ensures names[i] != names[j] {
          if i == 0 {
            assert names[j] == rest[j - 1] && rest[j - 1] in rest;
          } else {
            assert names[i] == rest[i - 1] && names[j] == rest[j - 1];
          }
        }
      }
    }
  }

  /** Every character of `s` belongs to `allowed`. */
  predicate DrawnFrom(s: string, allowed: string)
  {
    forall j :: 0 <= j < |s| ==> s[j] in allowed
  }

  /** Some character of `kw` is outside `allowed`. */
  predicate HasForeignChar(kw: string, allowed: string)
  {
    exists j :: 0 <= j < |kw| && kw[j] !in allowed
  }

  /** Each keyword has a character outside `allowed`. */
  predicate Foreign(keywords: seq<string>, allowed: string)
  {
    forall k :: 0 <= k < |keywords| ==> HasForeignChar(keywords[k], allowed)
  }

  /** A name drawn from characters that every keyword lacks one of contains no keyword. */
  lemma NoKeywordIn(s: string, keywords: seq<string>, allowed: string)
    requires DrawnFrom(s, allowed) && Foreign(keywords, allowed)
    ensures !ContainsAny(s, keywords)
  {
    forall k | 0 <= k < |keywords| ensures !Contains(s, keywords[k]) {
      var j :| 0 <= j < |keywords[k]| && keywords[k][j] !in allowed;
      MissingCharacter(s, keywords[k], keywords[k][j]);
    }
  }

  /** Every account keyword holds a letter that no lowered "Col" name has. */
  lemma AccountKeywordsForeign()
    ensures Foreign(AccountKeywords, "col1234")
  {
    var kws := AccountKeywords;
    forall k | 0 <= k < |kws| ensures HasForeignChar(kws[k], "col1234") {
      if k == 0 {
        assert kws[0][0] !in "col1234";
      } else if k == 1 {
        assert kws[1][0] !in "col1234";
      } else if k == 2 {
        assert kws[2][0] !in "col1234";
      } else if k == 3 {
        assert kws[3][1] !in "col1234";
      } else if k == 4 {
        assert kws[4][0] !in "col1234";
      } else if k == 5 {
        assert kws[5][0] !in "col1234";
      } else {
        assert kws[6][0] !in "col1234";
      }
    }
  }

  /** Every period keyword holds a letter that no lowered "Col" name has. */
  lemma PeriodKeywordsForeign()
    ensures Foreign(PeriodKeywords, "col1234")
  {
    var kws := PeriodKeywords;
    forall k | 0 <= k < |kws| ensures HasForeignChar(kws[k], "col1234") {
      if k == 0 {
        assert kws[0][0] !in "col1234";
      } else if k == 1 {
        assert kws[1][0] !in "col1234";
      } else if k == 2 {
        assert kws[2][0] !in "col1234";
      } else if k == 3 {
        assert kws[3][0] !in "col1234";
      } else if k == 4 {
        assert kws[4][0] !in "col1234";
      } else if k == 5 {
        assert kws[5][0] !in "col1234";
      } else if k == 6 {
        assert kws[6][0] !in "col1234";
      } else {
        assert kws[7][0] !in "col1234";
      }
    }
  }

  /** Every actual keyword holds a letter that no lowered "Col" name has. */
  lemma ActualKeywordsForeign()
    ensures Foreign(ActualKeywords, "col1234")
  {
    var kws := ActualKeywords;
    forall k | 0 <= k < |kws| ensures HasForeignChar(kws[k], "col1234") {
      if k == 0 {
        assert kws[0][0] !in "col1234";
      } else if k == 1 {
        assert kws[1][0] !in "col1234";
      } else if k == 2 {
        assert kws[2][0] !in "col1234";
      } else if k == 3 {
        assert kws[3][0] !in "col1234";
      } else {
        assert kws[4][0] !in "col1234";
      }
    }
  }

  /** Every budget keyword holds a letter that no lowered "Col" name has. */
  lemma BudgetKeywordsForeign()
    ensures Foreign(BudgetKeywords, "col1234")
  {
    var kws := BudgetKeywords;
    forall k | 0 <= k < |kws| ensures HasForeignChar(kws[k], "col1234") {
      if k == 0 {
        assert kws[0][0] !in "col1234";
      } else if k == 1 {
        assert kws[1][0] !in "col1234";
      } else if k == 2 {
        assert kws[2][0] !in "col1234";
      } else if k == 3 {
        assert kws[3][0] !in "col1234";
      } else {
        assert kws[4][0] !in "col1234";
      }
    }
  }

  /** Every slot's keywords hold a letter that no lowered "Col" name has. */
  lemma KeywordsForeignToCol()
    ensures Foreign(AccountKeywords, "col1234") && Foreign(PeriodKeywords, "col1234")
    ensures Foreign(ActualKeywords, "col1234") && Foreign(BudgetKeywords, "col1234")
  {
    AccountKeywordsForeign();
    PeriodKeywordsForeign();
    ActualKeywordsForeign();
    BudgetKeywordsForeign();
  }

  /** A lowered "Col" name matches no slot's keywords. */
  lemma NoSlotKeyword(s: string)
    requires DrawnFrom(s, "col1234")
    ensures !ContainsAny(s, AccountKeywords) && !ContainsAny(s, PeriodKeywords)
    ensures !ContainsAny(s, ActualKeywords) && !ContainsAny(s, BudgetKeywords)
  {
    KeywordsForeignToCol();
    NoKeywordIn(s, AccountKeywords, "col1234");
    NoKeywordIn(s, PeriodKeywords, "col1234");
    NoKeywordIn(s, ActualKeywords, "col1234");
    NoKeywordIn(s, BudgetKeywords, "col1234");
  }

  /** When no lowered column name can spell a keyword, the keyword search finds nothing for any slot. */
  lemma NoKeywordMatches(info: Analysis, lower: string -> string)
    requires forall i :: 0 <= i < |info| ==> DrawnFrom(lower(info[i].0), "col1234")
    ensures var names := Names(info);
      && FirstMatch(names, AccountKeywords, lower) == None && FirstMatch(names, PeriodKeywords, lower) == None
      && FirstMatch(names, ActualKeywords, lower) == None && FirstMatch(names, BudgetKeywords, lower) == None
  {
    var names := Names(info);
    forall i | 0 <= i < |names|
      ensures !Matches(names[i], AccountKeywords, lower) && !Matches(names[i], PeriodKeywords, lower)
      ensures !Matches(names[i], ActualKeywords, lower) && !Matches(names[i], BudgetKeywords, lower)
    {
      NoSlotKeyword(lower(names[i]));
    }
    FirstMatchIsFirst(names, AccountKeywords, lower);
    FirstMatchIsFirst(names, PeriodKeywords, lower);
    FirstMatchIsFirst(names, ActualKeywords, lower);
    FirstMatchIsFirst(names, BudgetKeywords, lower);
  }

  /**
   * Columns named "Col1".."Col4" (text, text, number, number) carry no keyword, so the type
   * fallbacks choose them in order and the confidence stays at its base of 0.8.
   */
  lemma UnclearColumnNames(info: Analysis, lower: string -> string)
    requires |info| == 4
    requires info[0].0 == "Col1" && info[1].0 == "Col2" && info[2].0 == "Col3" && info[3].0 == "Col4"
    requires info[0].1.dtype == Text && info[1].1.dtype == Text
    requires info[2].1.dtype == Number && info[3].1.dtype == Number
    requires lower("Col1") == "col1" && lower("Col2") == "col2" && lower("Col3") == "col3" && lower("Col4") == "col4"
    ensures Suggested(info, lower) == Success(ColumnMapping("Col1", "Col2", "Col3", "Col4", 0.8))
  {
    assert DrawnFrom("col1", "col1234") && DrawnFrom("col2", "col1234");
    assert DrawnFrom("col3", "col1234") && DrawnFrom("col4", "col1234");
    NoKeywordMatches(info, lower);
    assert "Col1"[3] != "Col2"[3] && "Col3"[3] != "Col4"[3];
    var tail3 := info[3..];
    var tail2 := info[2..];
    var tail1 := info[1..];
    assert NamesWithType(tail3, {Text}, None) == [] && NamesWithType(tail2, {Text}, None) == [];
    assert NamesWithType(info, {Text}, None) == ["Col1"] + NamesWithType(tail1, {Text}, None);
    assert NamesWithType(tail2, {Date, Text}, None) == [];
    assert NamesWithType(tail1, {Date, Text}, None) == ["Col2"];
    assert NamesWithType(info, {Date, Text}, None) == ["Col1", "Col2"];
    assert NamesWithType(tail3, {Number}, None) == ["Col4"];
    assert NamesWithType(tail1, {Number}, None) == ["Col3", "Col4"];
    assert NamesWithType(info, {Number}, None) == ["Col3", "Col4"];
    assert NamesWithType(tail2, {Number}, Some("Col3")) == ["Col4"];
    assert NamesWithType(info, {Number}, Some("Col3")) == ["Col4"];
    var s := Resolve(info, lower);
    assert s == Slots(Some("Col1"), Some("Col2"), Some("Col3"), Some("Col4"));
    NoSlotKeyword("col1");
    NoSlotKeyword("col2");
    NoSlotKeyword("col3");
    NoSlotKeyword("col4");
    assert Hits("Col1", "Col2", "Col3", "Col4", lower) == 0;
  }

  /** A table of one number column "col1" fills only the actual slot; the error names the other three. */
  lemma SingleNumberColumn(info: Analysis, lower: string -> string)
    requires |info| == 1 && info[0].0 == "col1" && info[0].1.dtype == Number && lower("col1") == "col1"
    ensures Suggested(info, lower) == Failure(SuggestErrorPrefix + "account, period, budget")
  {
    assert DrawnFrom("col1", "col1234");
    NoKeywordMatches(info, lower);
    assert NamesWithType(info, {Text}, None) == [];
    assert NamesWithType(info, {Date, Text}, None) == [];
    assert NamesWithType(info, {Number}, None) == ["col1"];
    assert NamesWithType(info, {Number}, Some("col1")) == [];
    var missing := ["account", "period", "budget"];
    assert MissingSlots(Resolve(info, lower)) == missing;
    assert missing[..2] == ["account", "period"] && missing[..2][..1] == ["account"];
    assert Join(", ", missing[..2]) == "account, period";
    assert Join(", ", missing) == "account, period, budget";
  }

  /** The four mapped column names, in the order of the canonical fields. */
  function Required(m: ColumnMapping): seq<string>
  {
    [m.account, m.period, m.actual, m.budget]
  }

  /** The mapped names that the table lacks, in the order of the canonical fields. */
  function Absent(t: Table, m: ColumnMapping): (missing: seq<string>)
    ensures forall c :: c in missing <==> c in Required(m) && c !in t.columns
    ensures missing == [] <==> forall c :: c in Required(m) ==> c in t.columns
  {
    var keep := (c: string) => c !in t.columns;
    FilterMembers(Required(m), keep, m.account);
    FilterMembers(Required(m), keep, m.period);
    FilterMembers(Required(m), keep, m.actual);
    FilterMembers(Required(m), keep, m.budget);
    assert forall c :: c in Filter(Required(m), keep) ==> c in Required(m) by {
      forall c | c in Filter(Required(m), keep) ensures c in Required(m) {
        FilterMembers(Required(m), keep, c);
      }
    }
    var missing := Filter(Required(m), keep);
    assert missing != [] ==> missing[0] in missing;
    missing
  }

  /** Where the mapped columns sit in the table. */
  function MappedLayout(t: Table, m: ColumnMapping): (l: Layout)
    requires Absent(t, m) == []
    ensures l.account < |t.columns| && l.period < |t.columns| && l.actual < |t.columns| && l.budget < |t.columns|
    ensures t.columns[l.account] == m.account && t.columns[l.period] == m.period
    ensures t.columns[l.actual] == m.actual && t.columns[l.budget] == m.budget
  {
    assert forall c :: c in Required(m) ==> c in t.columns by {
      forall c | c in Required(m) ensures c in t.columns {
        assert c !in Absent(t, m);
      }
    }
    Layout(IndexOf(t.columns, m.account), IndexOf(t.columns, m.period), IndexOf(t.columns, m.actual), IndexOf(t.columns, m.budget))
  }

  /** `df[[account, period, actual, budget]]`: the four mapped cells of every row, in order. */
  function Projected(t: Table, m: ColumnMapping): (rows: seq<seq<Cell>>)
    requires Absent(t, m) == []
    ensures |rows| == |t.rows|
    ensures forall k :: 0 <= k < |t.rows| ==> |rows[k]| == 4
  {
    var l := MappedLayout(t, m);
    seq(|t.rows|, k requires 0 <= k < |t.rows| =>
      [CellAt(t.rows[k], l.account), CellAt(t.rows[k], l.period), CellAt(t.rows[k], l.actual), CellAt(t.rows[k], l.budget)])
  }

  const MissingColumnsPrefix: string := "Столбцы отсутствуют в файле: "
  const NoRowsMessage: string := "После удаления пустых значений не осталось данных"

  /**
   * `validate_mapping`: valid exactly when the table has all four mapped columns and some
   * row has all four of them filled. Otherwise the message lists the absent names, or says
   * that no complete row is left. Text in the amount columns is not a reason to refuse.
   */
  function ValidateMapping(t: Table, m: ColumnMapping): (r: (bool, string))
    ensures r.0 <==> Absent(t, m) == [] && exists k :: 0 <= k < |t.rows| && NoNulls(Projected(t, m)[k])
    ensures r.0 ==> r.1 == ""
    ensures Absent(t, m) != [] ==> r.1 == MissingColumnsPrefix + Join(", ", Absent(t, m))
    ensures Absent(t, m) == [] && !r.0 ==> r.1 == NoRowsMessage
  {
    var missing := Absent(t, m);
    if missing != [] then (false, MissingColumnsPrefix + Join(", ", missing))
    else
      var kept := DropNulls(Projected(t, m));
      assert forall k :: 0 <= k < |t.rows| && NoNulls(Projected(t, m)[k]) ==> Projected(t, m)[k] in kept by {
        forall k | 0 <= k < |t.rows| && NoNulls(Projected(t, m)[k]) ensures Projected(t, m)[k] in kept {
          CompleteRows(Projected(t, m), Projected(t, m)[k]);
        }
      }
      if |kept| == 0 then (false, NoRowsMessage)
      else
        CompleteRows(Projected(t, m), kept[0]);
        (true, "")
  }

  /** The header used by the mapping examples. */
  const ExampleHeader: seq<string> := ["Account Name", "Period", "Actual Amount", "Budget Amount"]

  /** On a table whose one row fills the four named columns, mapping them by name is valid. */
  lemma ValidMappingExample(t: Table)
    requires t.columns == ExampleHeader
    requires |t.rows| == 1 && t.rows[0] == [Str("Revenue"), Str("2024-01"), Num(12000.0), Num(10000.0)]
    ensures ValidateMapping(t, ColumnMapping("Account Name", "Period", "Actual Amount", "Budget Amount", 0.0)) == (true, "")
  {
    var m := ColumnMapping("Account Name", "Period", "Actual Amount", "Budget Amount", 0.0);
    assert forall c :: c in Required(m) ==> c in t.columns;
    assert NoNulls(Projected(t, m)[0]);
  }

  /** A mapped name the table lacks is reported by name. */
  lemma MissingColumnExample(t: Table)
    requires t.columns == ExampleHeader
    ensures ValidateMapping(t, ColumnMapping("NonExistent", "Period", "Actual Amount", "Budget Amount", 0.0))
            == (false, MissingColumnsPrefix + "NonExistent")
  {
    var m := ColumnMapping("NonExistent", "Period", "Actual Amount", "Budget Amount", 0.0);
    assert "NonExistent"[0] != "Account Name"[0] && "NonExistent"[0] != "Period"[0];
    assert "NonExistent"[0] != "Actual Amount"[0] && "NonExistent"[0] != "Budget Amount"[0];
    assert "NonExistent" !in t.columns;
    var req := Required(m);
    var keep := (c: string) => c !in t.columns;
    assert req[..3][..2][..1] == ["NonExistent"];
    assert Filter(req[..3][..2][..1], keep) == ["NonExistent"];
    assert Filter(req[..3][..2], keep) == ["NonExistent"];
    assert Filter(req[..3], keep) == ["NonExistent"];
    assert Absent(t, m) == ["NonExistent"];
  }

  /** Why `apply_mapping` raises: the mapping is invalid, or an amount is text that is not a number. */
  datatype ApplyError = InvalidMapping(message: string) | NotANumber(text: string)

  /**
   * The row `apply_mapping` makes from a complete projected row: labels as text, amounts as
   * numbers, and both variances computed; none when an amount is not a number.
   */
  function MappedData(cells: seq<Cell>, conv: Conversions): (d: Option<RowData>)
    requires |cells| == 4 && NoNulls(cells)
    ensures d.Some? <==> ToFloat(cells[2], conv).Some? && ToFloat(cells[3], conv).Some?
    ensures d.Some? ==>
      && d.value.absoluteVariance == Some(d.value.actual - d.value.budget)
      && (d.value.percentageVariance.None? <==> d.value.budget == 0.0)
      && d.value.account == ToText(cells[0], conv) && d.value.period == ToText(cells[1], conv)
      && Some(d.value.actual) == ToFloat(cells[2], conv) && Some(d.value.budget) == ToFloat(cells[3], conv)
    ensures d.Some? ==> d.value.percentageVariance == CalculateVariance(d.value.actual, d.value.budget).1
  {
    match (ToFloat(cells[2], conv), ToFloat(cells[3], conv))
    case (Some(actual), Some(budget)) =>
      var v := CalculateVariance(actual, budget);
      Some(RowData(ToText(cells[0], conv), ToText(cells[1], conv), actual, budget, Some(v.0), v.1))
    case _ => None
  }

  /** The rows `apply_mapping` keeps: the complete projected rows, in order, duplicates included. */
  function MappedRows(t: Table, m: ColumnMapping): (kept: seq<seq<Cell>>)
    requires Absent(t, m) == []
    ensures forall k :: 0 <= k < |kept| ==> |kept[k]| == 4 && NoNulls(kept[k])
  {
    var kept := DropNulls(Projected(t, m));
    assert forall k :: 0 <= k < |kept| ==> |kept[k]| == 4 && NoNulls(kept[k]) by {
      forall k | 0 <= k < |kept| ensures |kept[k]| == 4 && NoNulls(kept[k]) {
        CompleteRows(Projected(t, m), kept[k]);
      }
    }
    kept
  }

  /** The kept rows are the projected rows with an empty mapped cell removed, in their order. */
  lemma MappedRowsKept(t: Table, m: ColumnMapping)
    requires Absent(t, m) == []
    ensures IsSubsequence(MappedRows(t, m), Projected(t, m))
    ensures forall cells :: cells in MappedRows(t, m) <==> cells in Projected(t, m) && NoNulls(cells)
    ensures |MappedRows(t, m)| <= |t.rows|
  {
    FilterSubsequence(Projected(t, m), NoNulls);
    forall cells ensures cells in MappedRows(t, m) <==> cells in Projected(t, m) && NoNulls(cells) {
      CompleteRows(Projected(t, m), cells);
    }
  }

  /** One new computed row per kept row, in order; fails at the first amount that is not a number. */
  method BuildMappedRows(kept: seq<seq<Cell>>, conv: Conversions) returns (r: Result<seq<VarianceRow>, ApplyError>)
    requires forall k :: 0 <= k < |kept| ==> |kept[k]| == 4 && NoNulls(kept[k])
    ensures r.Success? <==> forall k :: 0 <= k < |kept| ==> MappedData(kept[k], conv).Some?
    ensures r.Failure? ==> r.error.NotANumber?
    ensures r.Success? ==> |r.value| == |kept| && forall i :: 0 <= i < |kept| ==>
      fresh(r.value[i]) && r.value[i].Data() == MappedData(kept[i], conv).value
  {
    var rows: seq<VarianceRow> := [];
    var i := 0;
    while i < |kept|
      invariant 0 <= i <= |kept| && |rows| == i
      invariant forall k :: 0 <= k < i ==> MappedData(kept[k], conv).Some?
      invariant forall k :: 0 <= k < i ==> fresh(rows[k])
      invariant forall k :: 0 <= k < i ==> rows[k].Data() == MappedData(kept[k], conv).value
    {
      var cells := kept[i];
      var actual := ToFloat(cells[2], conv);
      if actual.None? {
        return Failure(NotANumber(Shown(cells[2], conv)));
      }
      var budget := ToFloat(cells[3], conv);
      if budget.None? {
        return Failure(NotANumber(Shown(cells[3], conv)));
      }
      var row := new VarianceRow(ToText(cells[0], conv), ToText(cells[1], conv), actual.value, budget.value);
      var _ := CalculateVarianceForRow(row);
      assert row.Data() == MappedData(cells, conv).value;
      rows := rows + [row];
      i := i + 1;
    }
    return Success(rows);
  }

  /**
   * `apply_mapping`: refuse an invalid mapping with the validation message; otherwise one
   * computed row per kept row, in order, or an error at an amount that is not a number.
   */
  method ApplyMapping(t: Table, m: ColumnMapping, conv: Conversions) returns (r: Result<seq<VarianceRow>, ApplyError>)
    ensures !ValidateMapping(t, m).0 ==> r == Failure(InvalidMapping(ValidateMapping(t, m).1))
    ensures ValidateMapping(t, m).0 ==>
      var kept := MappedRows(t, m);
      && (r.Success? <==> forall k :: 0 <= k < |kept| ==> MappedData(kept[k], conv).Some?)
      && (r.Failure? ==> r.error.NotANumber?)
      && (r.Success? ==> |r.value| == |kept| && forall i :: 0 <= i < |kept| ==>
            fresh(r.value[i]) && r.value[i].Data() == MappedData(kept[i], conv).value)
  {
    var (isValid, errorMessage) := ValidateMapping(t, m);
    if !isValid {
      return Failure(InvalidMapping(errorMessage));
    }
    var kept := MappedRows(t, m);
    r := BuildMappedRows(kept, conv);
  }

  /** The type tag of every analysed column, keyed by its name. */
  function ColumnTypes(analysis: Analysis): (types: map<string, ColumnType>)
    requires DistinctNames(Names(analysis))
    ensures types.Keys == set i | 0 <= i < |analysis| :: analysis[i].0
    ensures forall i :: 0 <= i < |analysis| ==> types[analysis[i].0] == analysis[i].1.dtype
  {
    assert forall i, j :: 0 <= i < |analysis| && 0 <= j < |analysis| && analysis[i].0 == analysis[j].0 ==> i == j by {
      forall i, j | 0 <= i < |analysis| && 0 <= j < |analysis| && analysis[i].0 == analysis[j].0 ensures i == j {
        assert Names(analysis)[i] == analysis[i].0 && Names(analysis)[j] == analysis[j].0;
      }
    }
    map i | 0 <= i < |analysis| :: analysis[i].0 := analysis[i].1.dtype
  }

  /**
   * `create_file_metadata`: the row count, the column names in order, and each column's
   * type tag as `analyze_columns` reports it, beside the given name, file type and size.
   */
  method CreateFileMetadata(filename: string, t: Table, fileType: string, sizeBytes: int) returns (md: FileMetadata)
    requires WellFormed(t)
    ensures md.filename == filename && md.fileType == fileType && md.sizeBytes == sizeBytes
    ensures md.rows == |t.rows| && md.columns == t.columns
    ensures md.columnTypes.Keys == NameSet(t.columns)
    ensures forall i :: 0 <= i < |t.columns| ==> md.columnTypes[t.columns[i]] == InfoOf(t, i).dtype
  {
    var analysis := AnalyzeColumns(t);
    assert Names(analysis) == t.columns;
    var columnTypes := ColumnTypes(analysis);
    assert columnTypes.Keys == NameSet(t.columns) by {
      forall c | c in NameSet(t.columns) ensures c in columnTypes.Keys {
        var i :| 0 <= i < |t.columns| && t.columns[i] == c;
        assert analysis[i].0 == c;
      }
    }
    md := FileMetadata(filename, |t.rows|, t.columns, fileType, sizeBytes, columnTypes);
  }
}
