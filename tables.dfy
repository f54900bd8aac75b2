/**
 * The in-memory table the loader and the mapper work on: named columns, a pandas dtype
 * string per column, and rows of cells. A cell is empty (NaN/None), a number or text.
 */
module Tables {
  import opened Wrappers

  datatype Cell = Null | Num(value: real) | Str(text: string)

  datatype Table = Table(columns: seq<string>, dtypes: seq<string>, rows: seq<seq<Cell>>)

  /** Column names are distinct, as pandas makes them when reading a file. */
  predicate DistinctNames(names: seq<string>)
  {
    forall i, j :: 0 <= i < j < |names| ==> names[i] != names[j]
  }

  /** One dtype per column, distinct column names, and every row as wide as the header. */
  predicate WellFormed(t: Table)
  {
    && |t.dtypes| == |t.columns|
    && DistinctNames(t.columns)
    && forall r :: r in t.rows ==> |r| == |t.columns|
  }

  /** The position of a column name in the header. */
  function IndexOf(names: seq<string>, name: string): (i: nat)
    requires name in names
    ensures i < |names| && names[i] == name
    ensures forall j :: 0 <= j < i ==> names[j] != name
  {
    if names[0] == name then 0 else 1 + IndexOf(names[1..], name)
  }

  /** With distinct names, a name's position is the only one holding it. */
  lemma IndexOfDistinct(names: seq<string>, name: string, j: nat)
    requires DistinctNames(names) && j < |names| && names[j] == name
    ensures IndexOf(names, name) == j
  {
  }

  /** The cell at position `i`, or an empty cell outside the row. */
  function CellAt(r: seq<Cell>, i: nat): Cell
  {
    if i < |r| then r[i] else Null
  }

  /** The cells of the column at position `i`, top to bottom. */
  function ColumnAt(t: Table, i: nat): (cells: seq<Cell>)
    ensures |cells| == |t.rows|
    ensures forall k :: 0 <= k < |t.rows| ==> cells[k] == CellAt(t.rows[k], i)
  {
    seq(|t.rows|, k requires 0 <= k < |t.rows| => CellAt(t.rows[k], i))
  }

  /**
   * Python's `float(x)` and `str(x)` on cell values, supplied by the caller: `parseReal`
   * reads a number from text, failing on text that is not one; `showReal` prints a number.
   */
  datatype Conversions = Conversions(parseReal: string -> Option<real>, showReal: real -> string)

  /** `float(cell)`: a number is itself, text is parsed, an empty cell has no value. */
  function ToFloat(c: Cell, conv: Conversions): (v: Option<real>)
    ensures c.Num? ==> v == Some(c.value)
    ensures c.Null? ==> v.None?
  {
    match c
    case Null => None
    case Num(x) => Some(x)
    case Str(s) => conv.parseReal(s)
  }

  /** `str(cell)`: text is itself, a number is printed. An empty cell is never rendered. */
  function ToText(c: Cell, conv: Conversions): string
    requires c != Null
  {
    match c
    case Num(x) => conv.showReal(x)
    case Str(s) => s
  }
}
