/**
 * The processor object: it holds the loaded workbook and the datasets prepared
 * from it, and the later stages read the prepared datasets.
 */
module Processor {
  import opened Wrappers
  import opened Tables
  import opened Sheets
  import opened Columns
  import opened Cleaning
  import opened Categories
  import opened MinStock
  import opened Orders

  /**
   * The column labels of a sheet once prepared for `role`: stripped and lower-cased,
   * and for the ADS sheet renamed to the canonical field names it recognises.
   */
  function Labels(t: Table, role: Dataset): (r: seq<string>)
    ensures |r| == |t.columns|
    ensures role != Ads ==> r == StandardNames(t.columns)
    ensures role == Ads ==> forall j :: 0 <= j < |r| ==>
      r[j] == FieldFor(StandardName(t.columns[j].name)).GetOr(StandardName(t.columns[j].name))
  {
    var names := StandardNames(t.columns);
    if role == Ads then Renamed(names, ColumnMapping(names)) else names
  }

  /** A sheet's table, relabelled and cleaned; labels that collide are refused. */
  function Prepare(t: Table, role: Dataset): (r: Result<Table>)
    ensures r.Err? <==> !Distinct(Labels(t, role))
    ensures r.Err? ==> r.error.DuplicateColumn? && exists i, j :: 0 <= i < j < |t.columns| && Labels(t, role)[i] == Labels(t, role)[j] == r.error.name
    ensures r.Ok? ==> r.value == Clean(Relabel(t, Labels(t, role)))
  {
    var names := Labels(t, role);
    assert names[..0] == [];
    match DuplicateFrom(names, 0)
    case Some(n) => Err(DuplicateColumn(n))
    case None => Ok(Clean(Relabel(t, names)))
  }

  /** The dataset of a role, from the named sheet or else the first sheet whose name suits the role. */
  function DatasetOf(book: Workbook, role: Dataset, sheetName: Option<string>): (r: Result<Table>)
    ensures book == [] ==> r == Err(NotLoaded)
    ensures SelectSheet(book, role, sheetName).Err? ==> r == Err(SelectSheet(book, role, sheetName).error)
    ensures SelectSheet(book, role, sheetName).Ok? ==> r == Prepare(book[SelectSheet(book, role, sheetName).value].table, role)
  {
    var i :- SelectSheet(book, role, sheetName);
    Prepare(book[i].table, role)
  }

  /** Cleaning keeps a subsequence of the columns, so distinct labels stay distinct. */
  lemma CleanKeepsDistinct(t: Table)
    requires Distinct(Names(t.columns))
    ensures Distinct(Names(Clean(t).columns))
  {
    var c, keep := Clean(t), KeptColumns(t);
    forall i, j | 0 <= i < j < |c.columns|
      ensures Names(c.columns)[i] != Names(c.columns)[j]
    {
      assert c.columns[i] == t.columns[keep[i]] && c.columns[j] == t.columns[keep[j]];
      assert Names(t.columns)[keep[i]] != Names(t.columns)[keep[j]];
    }
  }

  /** A prepared dataset has no empty row, no empty column, no gap and no repeated label. */
  lemma PreparedIsClean(t: Table, role: Dataset)
    requires Prepare(t, role).Ok?
    ensures Tight(Prepare(t, role).value)
    ensures Distinct(Names(Prepare(t, role).value.columns))
    ensures Clean(Prepare(t, role).value) == Prepare(t, role).value
  {
    var u := Relabel(t, Labels(t, role));
    CleanIsTight(u);
    CleanKeepsDistinct(u);
    CleanIdempotent(u);
  }

  class ExcelDataProcessor {
    /** The loaded workbook, sheets in file order. */
    var rawData: Workbook
    /** The prepared datasets, by role. */
    var processedData: map<Dataset, Table>

    /** Every prepared dataset is clean and its labels are distinct. */
    ghost predicate Valid()
      reads this
    {
      forall d :: d in processedData ==> Tight(processedData[d]) && Distinct(Names(processedData[d].columns))
    }

    constructor()
      ensures rawData == [] && processedData == map[]
      ensures Valid()
    {
      rawData := [];
      processedData := map[];
    }

    /** Replaces the workbook; prepared datasets stay as they were. */
    method LoadExcelFile(book: Workbook)
      requires Valid()
      modifies this
      ensures rawData == book && processedData == old(processedData)
      ensures Valid()
    {
      rawData := book;
    }

    method ProcessAdsData(sheetName: Option<string> := None) returns (r: Result<Table>)
      requires Valid()
      modifies this
      ensures r == DatasetOf(old(rawData), Ads, sheetName)
      ensures rawData == old(rawData)
      ensures processedData == if r.Ok? then old(processedData)[Ads := r.value] else old(processedData)
      ensures Valid()
    {
      r := DatasetOf(rawData, Ads, sheetName);
      if r.Ok? {
        PreparedIsClean(rawData[SelectSheet(rawData, Ads, sheetName).value].table, Ads);
        processedData := processedData[Ads := r.value];
      }
    }

    method ProcessStockData(sheetName: Option<string> := None) returns (r: Result<Table>)
      requires Valid()
      modifies this
      ensures r == DatasetOf(old(rawData), Stock, sheetName)
      ensures rawData == old(rawData)
      ensures processedData == if r.Ok? then old(processedData)[Stock := r.value] else old(processedData)
      ensures Valid()
    {
      r := DatasetOf(rawData, Stock, sheetName);
      if r.Ok? {
        PreparedIsClean(rawData[SelectSheet(rawData, Stock, sheetName).value].table, Stock);
        processedData := processedData[Stock := r.value];
      }
    }

    method ProcessMinTargetData(sheetName: Option<string> := None) returns (r: Result<Table>)
      requires Valid()
      modifies this
      ensures r == DatasetOf(old(rawData), MinTarget, sheetName)
      ensures rawData == old(rawData)
      ensures processedData == if r.Ok? then old(processedData)[MinTarget := r.value] else old(processedData)
      ensures Valid()
    {
      r := DatasetOf(rawData, MinTarget, sheetName);
      if r.Ok? {
        PreparedIsClean(rawData[SelectSheet(rawData, MinTarget, sheetName).value].table, MinTarget);
        processedData := processedData[MinTarget := r.value];
      }
    }

    /** The category analysis of the prepared ADS dataset. */
    method CalculateCategoryAnalysis() returns (r: Result<map<Cell, CategoryStat>>)
      requires Valid()
      ensures Ads !in processedData ==> r == Err(NotProcessed(Ads))
      ensures Ads in processedData ==> r == CategoryStats(processedData[Ads])
      ensures Ads in processedData && r.Ok? && Filled(processedData[Ads], "category") && Filled(processedData[Ads], "sku") ==>
        forall ks :: DistinctCells(ks) && (forall k :: k in ks <==> k in r.value) ==>
          SumItemCounts(r.value, ks) == |processedData[Ads].rows|
    {
      if Ads !in processedData {
        return Err(NotProcessed(Ads));
      }
      var t := processedData[Ads];
      r := CategoryAnalysis(t);
      if r.Ok? && Filled(t, "category") && Filled(t, "sku") {
        forall ks | DistinctCells(ks) && (forall k :: k in ks <==> k in r.value)
          ensures SumItemCounts(r.value, ks) == |t.rows|
        {
          ItemCountsRowCount(t, r.value, ks);
        }
      }
    }

    /** The minimum stock table of the prepared ADS dataset; ten days of supply unless told otherwise. */
    method CalculateMinimumStock(days: int := 10) returns (r: Result<Table>)
      ensures Ads !in processedData ==> r == Err(NotProcessed(Ads))
      ensures Ads in processedData ==> r == MinimumStock(processedData[Ads], days)
    {
      if Ads !in processedData {
        return Err(NotProcessed(Ads));
      }
      r := MinimumStock(processedData[Ads], days);
    }

    /** The order list, against the prepared stock dataset when there is one; a safety factor of 1.2 unless told otherwise. */
    method GenerateOrderList(minStock: Table, safetyFactor: real := 1.2) returns (r: Result<seq<OrderLine>>)
      ensures Stock !in processedData ==> r == GenerateOrders(minStock, None, safetyFactor)
      ensures Stock in processedData ==> r == GenerateOrders(minStock, Some(processedData[Stock]), safetyFactor)
    {
      var stock := if Stock in processedData then Some(processedData[Stock]) else None;
      r := GenerateOrders(minStock, stock, safetyFactor);
    }
  }
}
