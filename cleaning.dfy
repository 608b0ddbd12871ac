/**
 * Cleaning a table: rows whose every cell is empty are dropped, then columns
 * that are empty in every remaining row, and the gaps left in numeric columns
 * become 0 and those in text columns become "Unknown".
 */
module Cleaning {
  import opened Tables

  /** Every cell of the row, across `width` columns, is empty. */
  predicate Blank(row: Row, width: nat) {
    forall j :: 0 <= j < width ==> CellOf(row, j) == Missing
  }

  /** Column `j` holds a value in at least one of the rows. */
  predicate Occupied(rows: seq<Row>, j: nat) {
    exists i :: 0 <= i < |rows| && CellOf(rows[i], j) != Missing
  }

  /** The positions, in increasing order, at or after `from` where the mask is set. */
  function Positions(mask: seq<bool>, from: nat): (r: seq<nat>)
    requires from <= |mask|
    ensures forall k :: 0 <= k < |r| ==> from <= r[k] < |mask| && mask[r[k]]
    ensures forall k, l :: 0 <= k < l < |r| ==> r[k] < r[l]
    ensures forall i :: from <= i < |mask| && mask[i] ==> i in r
    decreases |mask| - from
  {
    if from == |mask| then []
    else if mask[from] then [from] + Positions(mask, from + 1)
    else Positions(mask, from + 1)
  }

  /** The positions lo, lo + 1, ..., hi - 1. */
  function Range(lo: nat, hi: nat): (r: seq<nat>)
    ensures |r| == if lo <= hi then hi - lo else 0
    ensures forall k :: 0 <= k < |r| ==> r[k] == lo + k
    decreases hi - lo
  {
    if lo >= hi then [] else [lo] + Range(lo + 1, hi)
  }

  /** When the mask is set everywhere, every position is selected, in order. */
  lemma {:induction false} PositionsAll(mask: seq<bool>, from: nat)
    requires from <= |mask|
    requires forall i :: from <= i < |mask| ==> mask[i]
    ensures Positions(mask, from) == Range(from, |mask|)
    decreases |mask| - from
  {
    if from < |mask| {
      PositionsAll(mask, from + 1);
    }
  }

  /** The rows that survive the first step: those with at least one value. */
  function RowMask(t: Table): seq<bool> {
    seq(|t.rows|, i requires 0 <= i < |t.rows| => !Blank(t.rows[i], |t.columns|))
  }

  function KeptRows(t: Table): (r: seq<nat>)
    ensures forall k :: 0 <= k < |r| ==> r[k] < |t.rows|
    ensures forall k, l :: 0 <= k < l < |r| ==> r[k] < r[l]
    ensures forall i :: 0 <= i < |t.rows| ==> (i in r <==> !Blank(t.rows[i], |t.columns|))
  {
    Positions(RowMask(t), 0)
  }

  function Remaining(t: Table): (r: seq<Row>)
    ensures |r| == |KeptRows(t)|
  {
    var keep := KeptRows(t);
    seq(|keep|, k requires 0 <= k < |keep| => t.rows[keep[k]])
  }

  /** The columns that survive the second step: those holding a value in a surviving row. */
  function ColumnMask(t: Table): seq<bool> {
    var rows := Remaining(t);
    seq(|t.columns|, j requires 0 <= j < |t.columns| => Occupied(rows, j))
  }

  function KeptColumns(t: Table): (r: seq<nat>)
    ensures forall k :: 0 <= k < |r| ==> r[k] < |t.columns|
    ensures forall k, l :: 0 <= k < l < |r| ==> r[k] < r[l]
    ensures forall j :: 0 <= j < |t.columns| ==> (j in r <==> Occupied(Remaining(t), j))
  {
    Positions(ColumnMask(t), 0)
  }

  /** The fill rule: 0 in a numeric column, "Unknown" in a text column, no change elsewhere. */
  function Fill(kind: Kind, c: Cell): (r: Cell)
    ensures c != Missing ==> r == c
    ensures r == Missing <==> c == Missing && kind == OtherKind
    ensures c == Missing && kind == Numeric ==> r == Num(0.0)
    ensures c == Missing && kind == Textual ==> r == Text("Unknown")
  {
    if c != Missing then c
    else match kind
      case Numeric => Num(0.0)
      case Textual => Text("Unknown")
      case OtherKind => Missing
  }

  function Clean(t: Table): (r: Table)
    ensures |r.rows| == |KeptRows(t)| && |r.columns| == |KeptColumns(t)|
    ensures forall k :: 0 <= k < |r.columns| ==> r.columns[k] == t.columns[KeptColumns(t)[k]]
    ensures forall i :: 0 <= i < |r.rows| ==> |r.rows[i]| == |r.columns|
  {
    var rows := Remaining(t);
    var keep := KeptColumns(t);
    var columns := seq(|keep|, k requires 0 <= k < |keep| => t.columns[keep[k]]);
    Table(columns,
          seq(|rows|, i requires 0 <= i < |rows| =>
            seq(|keep|, k requires 0 <= k < |keep| => Fill(columns[k].kind, CellOf(rows[i], keep[k])))))
  }

  /** Cell `k` of cleaned row `i` is the original cell it came from, filled. */
  lemma CleanCell(t: Table, i: nat, k: nat)
    requires i < |Clean(t).rows| && k < |Clean(t).columns|
    ensures Clean(t).rows[i][k] ==
      Fill(Clean(t).columns[k].kind, CellOf(t.rows[KeptRows(t)[i]], KeptColumns(t)[k]))
  {
  }

  /** A row is kept exactly when it holds a value; a column exactly when a kept row has a value in it. */
  lemma CleanKeepsExactly(t: Table)
    ensures forall i :: 0 <= i < |t.rows| ==> (i in KeptRows(t) <==> !Blank(t.rows[i], |t.columns|))
    ensures forall j :: 0 <= j < |t.columns| ==>
      (j in KeptColumns(t) <==> exists i :: i in KeptRows(t) && CellOf(t.rows[i], j) != Missing)
  {
    var keep, rows := KeptRows(t), Remaining(t);
    forall j | 0 <= j < |t.columns|
      ensures Occupied(rows, j) <==> exists i :: i in keep && CellOf(t.rows[i], j) != Missing
    {
      if Occupied(rows, j) {
        var k :| 0 <= k < |rows| && CellOf(rows[k], j) != Missing;
        assert keep[k] in keep && CellOf(t.rows[keep[k]], j) != Missing;
      }
      if i :| i in keep && CellOf(t.rows[i], j) != Missing {
        var k :| 0 <= k < |keep| && keep[k] == i;
        assert CellOf(rows[k], j) != Missing;
      }
    }
  }

  /** After cleaning no cell of a numeric or text column is empty. */
  lemma CleanFillsGaps(t: Table)
    ensures forall i, k ::
      (0 <= i < |Clean(t).rows| && 0 <= k < |Clean(t).columns| && Clean(t).columns[k].kind != OtherKind)
      ==> Clean(t).rows[i][k] != Missing
  {
  }

  /** Cleaning never alters a value that was present. */
  lemma CleanKeepsValues(t: Table, i: nat, k: nat)
    requires i < |Clean(t).rows| && k < |Clean(t).columns|
    requires CellOf(t.rows[KeptRows(t)[i]], KeptColumns(t)[k]) != Missing
    ensures Clean(t).rows[i][k] == CellOf(t.rows[KeptRows(t)[i]], KeptColumns(t)[k])
  {
  }

  /**
   * A table cleaning leaves as it is: rows as wide as the header, none blank,
   * every column holding a value, and no gap the fill rule would fill.
   */
  predicate Tight(u: Table) {
    (forall i :: 0 <= i < |u.rows| ==> |u.rows[i]| == |u.columns| && !Blank(u.rows[i], |u.columns|)) &&
    (forall k :: 0 <= k < |u.columns| ==> Occupied(u.rows, k)) &&
    (forall i, k :: 0 <= i < |u.rows| && 0 <= k < |u.columns| ==> Fill(u.columns[k].kind, u.rows[i][k]) == u.rows[i][k])
  }

  lemma FillTwice(kind: Kind, c: Cell)
    ensures Fill(kind, Fill(kind, c)) == Fill(kind, c)
  {
  }

  lemma {:induction false} CleanRowsHoldValues(t: Table)
    ensures forall i :: 0 <= i < |Clean(t).rows| ==> !Blank(Clean(t).rows[i], |Clean(t).columns|)
  {
    var c, keepRows, keepCols, rows := Clean(t), KeptRows(t), KeptColumns(t), Remaining(t);
    forall i | 0 <= i < |c.rows|
      ensures !Blank(c.rows[i], |c.columns|)
    {
      var row := t.rows[keepRows[i]];
      assert keepRows[i] in keepRows;
      assert !Blank(row, |t.columns|);
      var j :| 0 <= j < |t.columns| && CellOf(row, j) != Missing;
      assert rows[i] == row;
      assert Occupied(rows, j);
      assert j in keepCols;
      var k :| 0 <= k < |keepCols| && keepCols[k] == j;
      CleanCell(t, i, k);
      assert c.rows[i][k] == CellOf(row, j);
      assert CellOf(c.rows[i], k) != Missing;
    }
  }

  lemma {:induction false} CleanColumnsHoldValues(t: Table)
    ensures forall k :: 0 <= k < |Clean(t).columns| ==> Occupied(Clean(t).rows, k)
  {
    var c, keepCols, rows := Clean(t), KeptColumns(t), Remaining(t);
    forall k | 0 <= k < |c.columns|
      ensures Occupied(c.rows, k)
    {
      var j := keepCols[k];
      assert Occupied(rows, j);
      var i :| 0 <= i < |rows| && CellOf(rows[i], j) != Missing;
      CleanCell(t, i, k);
      assert CellOf(c.rows[i], k) != Missing;
    }
  }

  lemma {:induction false} CleanLeavesNothingToFill(t: Table)
    ensures forall i, k :: 0 <= i < |Clean(t).rows| && 0 <= k < |Clean(t).columns| ==>
      Fill(Clean(t).columns[k].kind, Clean(t).rows[i][k]) == Clean(t).rows[i][k]
  {
    var c := Clean(t);
    forall i, k | 0 <= i < |c.rows| && 0 <= k < |c.columns|
      ensures Fill(c.columns[k].kind, c.rows[i][k]) == c.rows[i][k]
    {
      CleanCell(t, i, k);
      FillTwice(c.columns[k].kind, CellOf(t.rows[KeptRows(t)[i]], KeptColumns(t)[k]));
    }
  }

  /** The output of cleaning is tight: no row is blank and every column holds a value. */
  lemma CleanIsTight(t: Table)
    ensures Tight(Clean(t))
  {
    CleanRowsHoldValues(t);
    CleanColumnsHoldValues(t);
    CleanLeavesNothingToFill(t);
  }

  /** Cleaning keeps every row and column of a tight table. */
  lemma TightKeepsAll(u: Table)
    requires Tight(u)
    ensures KeptRows(u) == Range(0, |u.rows|)
    ensures Remaining(u) == u.rows
    ensures KeptColumns(u) == Range(0, |u.columns|)
  {
    PositionsAll(RowMask(u), 0);
    assert Remaining(u) == u.rows;
    PositionsAll(ColumnMask(u), 0);
  }

  lemma TightCell(u: Table, i: nat, k: nat)
    requires Tight(u) && i < |u.rows| && k < |u.columns|
    requires KeptRows(u) == Range(0, |u.rows|) && KeptColumns(u) == Range(0, |u.columns|)
    ensures Clean(u).rows[i][k] == u.rows[i][k]
  {
    CleanCell(u, i, k);
    assert KeptRows(u)[i] == i && KeptColumns(u)[k] == k;
    assert Clean(u).columns[k] == u.columns[k];
  }

  lemma SameRow(a: Row, b: Row)
    requires |a| == |b| && forall k :: 0 <= k < |a| ==> a[k] == b[k]
    ensures a == b
  {
  }

  lemma TightRowUnchanged(u: Table, i: nat)
    requires Tight(u) && i < |u.rows|
    ensures |Clean(u).rows| == |u.rows|
    ensures Clean(u).rows[i] == u.rows[i]
  {
    TightKeepsAll(u);
    forall k | 0 <= k < |u.columns|
      ensures Clean(u).rows[i][k] == u.rows[i][k]
    {
      TightCell(u, i, k);
    }
    SameRow(Clean(u).rows[i], u.rows[i]);
  }

  lemma TightColumnsUnchanged(u: Table)
    requires Tight(u)
    ensures Clean(u).columns == u.columns && |Clean(u).rows| == |u.rows|
  {
    TightKeepsAll(u);
  }

  lemma SameTable(a: Table, b: Table)
    requires a.columns == b.columns && |a.rows| == |b.rows|
    requires forall i :: 0 <= i < |a.rows| ==> a.rows[i] == b.rows[i]
    ensures a == b
  {
  }

  /** Cleaning a tight table changes nothing. */
  lemma {:induction false} CleanTightUnchanged(u: Table)
    requires Tight(u)
    ensures Clean(u) == u
  {
    var d := Clean(u);
    TightColumnsUnchanged(u);
    forall i | 0 <= i < |u.rows|
      ensures d.rows[i] == u.rows[i]
    {
      TightRowUnchanged(u, i);
    }
    SameTable(d, u);
  }

  /** Cleaning a cleaned table changes nothing. */
  lemma CleanIdempotent(t: Table)
    ensures Clean(Clean(t)) == Clean(t)
  {
    CleanIsTight(t);
    CleanTightUnchanged(Clean(t));
  }
}
