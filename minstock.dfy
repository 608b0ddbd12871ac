/**
 * The minimum stock to hold: each row of the ADS table needs its daily sales
 * times the days of supply, and when rows carry a category, the group total of
 * that minimum is written beside every row of the group.
 */
module MinStock {
  import opened Wrappers
  import opened Tables
  import opened Categories

  /** A cell scaled by a factor, as column arithmetic does it: an empty cell stays empty. */
  function Times(c: Cell, factor: real): (r: Cell)
    ensures c.Num? ==> r == Num(c.x * factor)
    ensures !c.Num? ==> r == Missing
    ensures Value(r) == Value(c) * factor
  {
    if c.Num? then Num(c.x * factor) else Missing
  }

  /** The minimum stock of row `i`: its ADS times the days of supply. */
  function MinStockCell(t: Table, days: int, i: nat): (r: Cell)
    requires i < |t.rows|
    ensures Lookup(t, i, "ads").Num? ==> r == Num(Lookup(t, i, "ads").x * days as real)
    ensures !Lookup(t, i, "ads").Num? ==> r == Missing
  {
    Times(Lookup(t, i, "ads"), days as real)
  }

  /** Sum of the minimum stock over the rows among the first `n` whose category is `key`. */
  function GroupMinStock(t: Table, days: int, key: Cell, n: nat): real
    requires n <= |t.rows|
  {
    if n == 0 then 0.0
    else GroupMinStock(t, days, key, n - 1) + (if CategoryOf(t, n - 1) == key then Value(MinStockCell(t, days, n - 1)) else 0.0)
  }

  /** The group total written beside a row; a row without a category belongs to no group. */
  function CategoryMinStockCell(t: Table, days: int, i: nat): (r: Cell)
    requires i < |t.rows|
    ensures CategoryOf(t, i) == Missing ==> r == Missing
    ensures CategoryOf(t, i) != Missing ==> r == Num(GroupAds(t, CategoryOf(t, i), |t.rows|) * days as real)
  {
    if CategoryOf(t, i) == Missing then Missing
    else
      GroupMinStockIsScaledAds(t, days, CategoryOf(t, i), |t.rows|);
      assert GroupMinStock(t, days, CategoryOf(t, i), |t.rows|) == GroupAds(t, CategoryOf(t, i), |t.rows|) * days as real;
      Num(GroupMinStock(t, days, CategoryOf(t, i), |t.rows|))
  }

  /** Why the minimum stock cannot be computed: no ADS column, or one that does not hold numbers. */
  function MinStockError(t: Table): (r: Option<Error>)
    ensures r.None? <==> IsNumeric(t, "ads")
    ensures !Has(t, "ads") ==> r == Some(MissingColumn("ads"))
  {
    if !Has(t, "ads") then Some(MissingColumn("ads"))
    else if !IsNumeric(t, "ads") then Some(NonNumericColumn("ads"))
    else None
  }

  /** The ADS table with the minimum stock columns added. */
  function MinimumStock(t: Table, days: int): (r: Result<Table>)
    ensures r.Err? <==> MinStockError(t).Some?
    ensures r.Err? ==> r.error == MinStockError(t).value
    ensures r.Ok? ==> |r.value.rows| == |t.rows|
    ensures r.Ok? ==> forall i :: 0 <= i < |t.rows| ==>
      Lookup(r.value, i, "min_stock") == MinStockCell(t, days, i) &&
      Lookup(r.value, i, "days_supply") == Num(days as real)
    ensures r.Ok? && Has(t, "category") ==> forall i :: 0 <= i < |t.rows| ==>
      Lookup(r.value, i, "category_min_stock") == CategoryMinStockCell(t, days, i)
    ensures r.Ok? ==> forall i, m :: 0 <= i < |t.rows| && m != "min_stock" && m != "days_supply" && m != "category_min_stock" ==>
      Lookup(r.value, i, m) == Lookup(t, i, m)
    ensures r.Ok? ==> forall m :: m != "min_stock" && m != "days_supply" && m != "category_min_stock" ==>
      ColumnIndex(r.value.columns, m) == ColumnIndex(t.columns, m)
  {
    match MinStockError(t)
    case Some(e) => Err(e)
    case None =>
      var n := |t.rows|;
      var withMin := SetColumn(t, "min_stock", Numeric, seq(n, i requires 0 <= i < n => MinStockCell(t, days, i)));
      var withDays := SetColumn(withMin, "days_supply", Numeric, seq(n, i requires 0 <= i < n => Num(days as real)));
      if Has(t, "category") then
        Ok(SetColumn(withDays, "category_min_stock", Numeric, seq(n, i requires 0 <= i < n => CategoryMinStockCell(t, days, i))))
      else
        Ok(withDays)
  }

  /** A group's minimum stock is its ADS sum times the days of supply. */
  lemma {:induction false} GroupMinStockIsScaledAds(t: Table, days: int, key: Cell, n: nat)
    requires n <= |t.rows|
    ensures GroupMinStock(t, days, key, n) == GroupAds(t, key, n) * days as real
  {
    if n > 0 {
      GroupMinStockIsScaledAds(t, days, key, n - 1);
    }
  }
}
