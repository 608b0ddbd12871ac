/**
 * The in-memory tables the processor works on: a list of labelled columns, each
 * with the kind of values it holds, and rows of cells aligned with the columns.
 */
module Tables {
  import opened Wrappers

  /** One spreadsheet cell; `Missing` is an empty cell (a NaN once loaded). */
  datatype Cell = Missing | Num(x: real) | Text(s: string)

  /** What a column holds: numbers, text (possibly mixed), or anything else (dates, flags). */
  datatype Kind = Numeric | Textual | OtherKind

  datatype Column = Column(name: string, kind: Kind)

  type Row = seq<Cell>

  datatype Table = Table(columns: seq<Column>, rows: seq<Row>)

  /** Cell `j` of a row; a row shorter than the header reads as empty there. */
  function CellOf(row: Row, j: nat): Cell {
    if j < |row| then row[j] else Missing
  }

  /** The numeric value of a cell as arithmetic sees it once gaps are filled with 0. */
  function Value(c: Cell): real {
    if c.Num? then c.x else 0.0
  }

  function Names(columns: seq<Column>): (r: seq<string>)
    ensures |r| == |columns|
    ensures forall j :: 0 <= j < |columns| ==> r[j] == columns[j].name
  {
    seq(|columns|, j requires 0 <= j < |columns| => columns[j].name)
  }

  /** The first position at or after `from` holding `name`. */
  function IndexFrom(names: seq<string>, name: string, from: nat): (r: Option<nat>)
    ensures r.Some? ==> from <= r.value < |names| && names[r.value] == name
    ensures r.Some? ==> forall k :: from <= k < r.value ==> names[k] != name
    ensures r.None? ==> forall k :: from <= k < |names| ==> names[k] != name
    decreases |names| - from
  {
    if from >= |names| then None
    else if names[from] == name then Some(from)
    else IndexFrom(names, name, from + 1)
  }

  /** The position of the first column labelled `name`, as a label lookup finds it. */
  function ColumnIndex(columns: seq<Column>, name: string): (r: Option<nat>)
    ensures r.Some? ==> r.value < |columns| && columns[r.value].name == name
    ensures r.Some? ==> forall k :: 0 <= k < r.value ==> columns[k].name != name
    ensures r.None? ==> forall k :: 0 <= k < |columns| ==> columns[k].name != name
  {
    IndexFrom(Names(columns), name, 0)
  }

  predicate Has(t: Table, name: string) {
    ColumnIndex(t.columns, name).Some?
  }

  /** The table has a column labelled `name` and its first such column holds numbers. */
  predicate IsNumeric(t: Table, name: string) {
    match ColumnIndex(t.columns, name)
    case None => false
    case Some(j) => t.columns[j].kind == Numeric
  }

  /** The cell of row `i` in the column labelled `name`; empty when there is no such column. */
  function Lookup(t: Table, i: nat, name: string): Cell
    requires i < |t.rows|
  {
    match ColumnIndex(t.columns, name)
    case None => Missing
    case Some(j) => CellOf(t.rows[i], j)
  }

  /** Appending a column with a new label leaves every other label where it was. */
  lemma IndexAfterAppend(columns: seq<Column>, c: Column, name: string)
    ensures name != c.name ==> ColumnIndex(columns + [c], name) == ColumnIndex(columns, name)
    ensures name == c.name && ColumnIndex(columns, name).None? ==> ColumnIndex(columns + [c], name) == Some(|columns|)
  {
    var a, b := ColumnIndex(columns + [c], name), ColumnIndex(columns, name);
    assert (columns + [c])[|columns|] == c;
    if b.Some? {
      assert (columns + [c])[b.value] == columns[b.value];
    }
    if a.Some? && a.value < |columns| {
      assert (columns + [c])[a.value] == columns[a.value];
    }
  }

  /**
   * Assigning a whole column, as `df[name] = values` does: the column labelled
   * `name` is overwritten in place, or appended when there is none.
   */
  function SetColumn(t: Table, name: string, kind: Kind, values: seq<Cell>): (r: Table)
    requires |values| == |t.rows|
    ensures |r.rows| == |t.rows|
    ensures Has(r, name)
    ensures forall m :: m != name ==> ColumnIndex(r.columns, m) == ColumnIndex(t.columns, m)
    ensures forall i :: 0 <= i < |t.rows| ==> Lookup(r, i, name) == values[i]
    ensures forall i, m :: 0 <= i < |t.rows| && m != name ==> Lookup(r, i, m) == Lookup(t, i, m)
  {
    match ColumnIndex(t.columns, name)
    case Some(j) =>
      var columns := t.columns[j := Column(name, kind)];
      assert Names(columns) == Names(t.columns);
      Table(columns,
            seq(|t.rows|, i requires 0 <= i < |t.rows| =>
              seq(|columns|, k requires 0 <= k < |columns| => if k == j then values[i] else CellOf(t.rows[i], k))))
    case None =>
      var columns := t.columns + [Column(name, kind)];
      IndexAfterAppend(t.columns, Column(name, kind), name);
      forall m | m != name
        ensures ColumnIndex(columns, m) == ColumnIndex(t.columns, m)
      {
        IndexAfterAppend(t.columns, Column(name, kind), m);
      }
      Table(columns,
            seq(|t.rows|, i requires 0 <= i < |t.rows| =>
              seq(|columns|, k requires 0 <= k < |columns| => if k == |t.columns| then values[i] else CellOf(t.rows[i], k))))
  }
}
