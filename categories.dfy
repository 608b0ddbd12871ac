/**
 * Category analysis of the ADS dataset: rows are grouped by their `category`
 * cell and each group gets its item count, its share of all rows, its ADS sum
 * and mean, and its share of the ADS grand total.
 */
module Categories {
  import opened Wrappers
  import opened Numbers
  import opened Tables
  import opened Cleaning

  datatype CategoryStat = CategoryStat(
    itemCount: nat,       // rows of the group with an SKU
    percentage: real,     // item count as a percentage of all rows
    totalAds: real,       // ADS sum of the group, rounded to two decimals
    avgAds: Option<real>, // ADS mean of the group, rounded to two decimals; None (NaN) without any ADS value
    adsPercentage: real)  // rounded ADS sum as a percentage of the ADS grand total

  /**
   * Why the analysis cannot run: the category column is checked first, then the
   * columns the aggregation reads. The ADS column must hold numbers, and so must
   * the price column when there is one, since its mean is taken too.
   */
  function AnalysisError(t: Table): (r: Option<Error>)
    ensures r.None? <==>
      Has(t, "category") && Has(t, "sku") && IsNumeric(t, "ads") && (Has(t, "price") ==> IsNumeric(t, "price"))
    ensures !Has(t, "category") ==> r == Some(MissingColumn("category"))
    ensures Has(t, "category") && !Has(t, "sku") ==> r == Some(MissingColumn("sku"))
    ensures r == Some(NonNumericColumn("price")) <==>
      Has(t, "category") && Has(t, "sku") && IsNumeric(t, "ads") && Has(t, "price") && !IsNumeric(t, "price")
  {
    if !Has(t, "category") then Some(MissingColumn("category"))
    else if !Has(t, "sku") then Some(MissingColumn("sku"))
    else if !Has(t, "ads") then Some(MissingColumn("ads"))
    else if !IsNumeric(t, "ads") then Some(NonNumericColumn("ads"))
    else if Has(t, "price") && !IsNumeric(t, "price") then Some(NonNumericColumn("price"))
    else None
  }

  /**
   * The checks as the code performs them: the aggregation also names the price
   * column, so a table without one is refused even though price is optional.
   */
  function AnalysisErrorAsWritten(t: Table): (r: Option<Error>)
    ensures r.None? <==> AnalysisError(t).None? && Has(t, "price")
    ensures AnalysisError(t).None? && !Has(t, "price") ==> r == Some(MissingColumn("price"))
    ensures r == Some(NonNumericColumn("price")) <==> AnalysisError(t) == Some(NonNumericColumn("price"))
  {
    if AnalysisError(t).Some? then AnalysisError(t)
    else if !Has(t, "price") then Some(MissingColumn("price"))
    else None
  }

  /** The category of row `i`; `Missing` rows belong to no group. */
  function CategoryOf(t: Table, i: nat): Cell
    requires i < |t.rows|
  {
    Lookup(t, i, "category")
  }

  /** Row `i` is in the group and has an SKU, so the SKU count includes it. */
  predicate CountedIn(t: Table, key: Cell, i: nat)
    requires i < |t.rows|
  {
    CategoryOf(t, i) == key && Lookup(t, i, "sku") != Missing
  }

  /** Rows among the first `n` whose category is `key`: the group's size. */
  function GroupSize(t: Table, key: Cell, n: nat): (r: nat)
    requires n <= |t.rows|
    ensures r <= n
  {
    if n == 0 then 0
    else GroupSize(t, key, n - 1) + (if CategoryOf(t, n - 1) == key then 1 else 0)
  }

  /** Rows among the first `n` counted in group `key`. */
  function SkuCount(t: Table, key: Cell, n: nat): (r: nat)
    requires n <= |t.rows|
    ensures r <= GroupSize(t, key, n)
  {
    if n == 0 then 0
    else SkuCount(t, key, n - 1) + (if CountedIn(t, key, n - 1) then 1 else 0)
  }

  /**
   * Rows among the first `n` of group `key` whose ADS cell holds a number: the
   * divisor of the ADS mean, which skips empty cells.
   */
  function AdsCount(t: Table, key: Cell, n: nat): (r: nat)
    requires n <= |t.rows|
    ensures r <= GroupSize(t, key, n)
  {
    if n == 0 then 0
    else AdsCount(t, key, n - 1) + (if CategoryOf(t, n - 1) == key && Lookup(t, n - 1, "ads").Num? then 1 else 0)
  }

  /** Every ADS value among the first `n` rows is non-negative. */
  predicate NonNegativeAds(t: Table, n: nat)
    requires n <= |t.rows|
  {
    forall i :: 0 <= i < n ==> Value(Lookup(t, i, "ads")) >= 0.0
  }

  /** ADS sum over the rows among the first `n` whose category is `key`; empty cells add nothing. */
  function GroupAds(t: Table, key: Cell, n: nat): real
    requires n <= |t.rows|
  {
    if n == 0 then 0.0
    else GroupAds(t, key, n - 1) + (if CategoryOf(t, n - 1) == key then Value(Lookup(t, n - 1, "ads")) else 0.0)
  }

  /** ADS sum over the first `n` rows. */
  function TotalAds(t: Table, n: nat): real
    requires n <= |t.rows|
  {
    if n == 0 then 0.0 else TotalAds(t, n - 1) + Value(Lookup(t, n - 1, "ads"))
  }

  /** With non-negative ADS values a group's ADS sum is a part of the grand total. */
  lemma {:induction false} GroupAdsWithinTotal(t: Table, key: Cell, n: nat)
    requires n <= |t.rows| && NonNegativeAds(t, n)
    ensures 0.0 <= GroupAds(t, key, n) <= TotalAds(t, n)
  {
    if n > 0 {
      GroupAdsWithinTotal(t, key, n - 1);
    }
  }

  /** The distinct categories, the index of the grouped result. */
  function CategorySet(t: Table): (r: set<Cell>)
    ensures forall k :: k in r <==> k != Missing && exists i :: 0 <= i < |t.rows| && CategoryOf(t, i) == k
  {
    set i | 0 <= i < |t.rows| && CategoryOf(t, i) != Missing :: CategoryOf(t, i)
  }

  /** The ADS share of a group in percent; a zero grand total gives 0 instead of NaN. */
  function AdsShare(total: real, grand: real): (r: real)
    ensures grand == 0.0 ==> r == 0.0
    ensures grand != 0.0 ==> total / grand * 100.0 - 0.005 < r <= total / grand * 100.0 + 0.005
  {
    if grand == 0.0 then 0.0 else Round2(total / grand * 100.0)
  }

  /** The ADS share as the code computes it: undefined (NaN or infinite) when the grand total is 0. */
  function AdsShareAsWritten(total: real, grand: real): (r: Option<real>)
    ensures r.None? <==> grand == 0.0
    ensures r.Some? ==> r.value == AdsShare(total, grand)
  {
    if grand == 0.0 then None else Some(Round2(total / grand * 100.0))
  }

  function StatFor(t: Table, key: Cell): (r: CategoryStat)
    ensures r.itemCount == SkuCount(t, key, |t.rows|)
    ensures |t.rows| > 0 ==>
      Abs(r.percentage - r.itemCount as real / |t.rows| as real * 100.0) <= 0.005
    ensures Abs(r.totalAds - GroupAds(t, key, |t.rows|)) <= 0.005
    ensures r.avgAds.None? <==> AdsCount(t, key, |t.rows|) == 0
    ensures r.avgAds.Some? ==>
      Abs(r.avgAds.value - GroupAds(t, key, |t.rows|) / AdsCount(t, key, |t.rows|) as real) <= 0.005
    ensures r.adsPercentage == AdsShare(r.totalAds, TotalAds(t, |t.rows|))
  {
    var n := |t.rows|;
    var size := AdsCount(t, key, n);
    var sum := GroupAds(t, key, n);
    var count := SkuCount(t, key, n);
    var total := Round2(sum);
    CategoryStat(
      count,
      Round2(if n == 0 then 0.0 else count as real / n as real * 100.0),
      total,
      if size == 0 then None else Some(Round2(sum / size as real)),
      AdsShare(total, TotalAds(t, n)))
  }

  /** The statistics the analysis returns: one entry for each distinct category. */
  function CategoryStats(t: Table): (r: Result<map<Cell, CategoryStat>>)
    ensures r.Err? <==> AnalysisError(t).Some?
    ensures r.Err? ==> r.error == AnalysisError(t).value
    ensures r.Ok? ==> r.value.Keys == CategorySet(t)
    ensures r.Ok? ==> forall k :: k in r.value ==> r.value[k] == StatFor(t, k)
  {
    match AnalysisError(t)
    case Some(e) => Err(e)
    case None => Ok(map k | k in CategorySet(t) :: StatFor(t, k))
  }

  /** Fills the result dictionary one category at a time. */
  method CategoryAnalysis(t: Table) returns (r: Result<map<Cell, CategoryStat>>)
    ensures r == CategoryStats(t)
  {
    var err := AnalysisError(t);
    if err.Some? {
      return Err(err.value);
    }
    var keys := CategorySet(t);
    var stats: map<Cell, CategoryStat> := map[];
    var remaining := keys;
    while remaining != {}
      invariant remaining <= keys
      invariant forall k :: k in stats <==> k in keys && k !in remaining
      invariant forall k :: k in stats ==> stats[k] == StatFor(t, k)
      decreases remaining
    {
      var k :| k in remaining;
      stats := stats[k := StatFor(t, k)];
      remaining := remaining - {k};
    }
    var expected := CategoryStats(t).value;
    assert forall k :: k in stats <==> k in expected;
    assert forall k :: k in stats ==> stats[k] == expected[k];
    assert stats == expected;
    return Ok(stats);
  }

  // ---------------------------------------------------------------------------
  // Totals over all categories

  predicate DistinctCells(ks: seq<Cell>) {
    forall i, j :: 0 <= i < j < |ks| ==> ks[i] != ks[j]
  }

  /** Rows among the first `n` with both a category and an SKU. */
  function Counted(t: Table, n: nat): (r: nat)
    requires n <= |t.rows|
    ensures r <= n
  {
    if n == 0 then 0
    else Counted(t, n - 1) + (if CountedIn(t, CategoryOf(t, n - 1), n - 1) && CategoryOf(t, n - 1) != Missing then 1 else 0)
  }

  /** Total of the SKU counts of the groups listed in `ks`, over the first `n` rows. */
  function SumSkuCounts(t: Table, ks: seq<Cell>, n: nat): nat
    requires n <= |t.rows|
  {
    if ks == [] then 0 else SkuCount(t, ks[0], n) + SumSkuCounts(t, ks[1..], n)
  }

  /** Adding one row adds one to the total exactly when the row is counted in a listed group. */
  lemma {:induction false} SumSkuCountsStep(t: Table, ks: seq<Cell>, n: nat)
    requires n < |t.rows|
    requires DistinctCells(ks)
    ensures SumSkuCounts(t, ks, n + 1) ==
      SumSkuCounts(t, ks, n) + (if CategoryOf(t, n) in ks && Lookup(t, n, "sku") != Missing then 1 else 0)
  {
    if ks != [] {
      SumSkuCountsStep(t, ks[1..], n);
      if CategoryOf(t, n) == ks[0] {
        assert CategoryOf(t, n) !in ks[1..];
      } else if CategoryOf(t, n) in ks {
        assert CategoryOf(t, n) in ks[1..];
      }
    }
  }

  lemma {:induction false} NoRowsNoCounts(t: Table, ks: seq<Cell>)
    ensures SumSkuCounts(t, ks, 0) == 0
  {
    if ks != [] {
      NoRowsNoCounts(t, ks[1..]);
    }
  }

  /** Over any list of the distinct categories, the SKU counts add up to the rows having both a category and an SKU. */
  lemma {:induction false} ItemCountsSum(t: Table, ks: seq<Cell>, n: nat)
    requires n <= |t.rows|
    requires DistinctCells(ks)
    requires forall i :: 0 <= i < n && CategoryOf(t, i) != Missing ==> CategoryOf(t, i) in ks
    requires Missing !in ks
    ensures SumSkuCounts(t, ks, n) == Counted(t, n)
  {
    if n > 0 {
      ItemCountsSum(t, ks, n - 1);
      SumSkuCountsStep(t, ks, n - 1);
      var c := CategoryOf(t, n - 1);
      assert c in ks <==> c != Missing;
      assert CountedIn(t, c, n - 1) <==> Lookup(t, n - 1, "sku") != Missing;
    } else {
      NoRowsNoCounts(t, ks);
    }
  }

  /** Total of the ADS sums of the groups listed in `ks`, over the first `n` rows. */
  function SumGroupAds(t: Table, ks: seq<Cell>, n: nat): real
    requires n <= |t.rows|
  {
    if ks == [] then 0.0 else GroupAds(t, ks[0], n) + SumGroupAds(t, ks[1..], n)
  }

  /** Adding one row adds its ADS to the total exactly when its category is listed. */
  lemma {:induction false} SumGroupAdsStep(t: Table, ks: seq<Cell>, n: nat)
    requires n < |t.rows|
    requires DistinctCells(ks)
    ensures SumGroupAds(t, ks, n + 1) ==
      SumGroupAds(t, ks, n) + (if CategoryOf(t, n) in ks then Value(Lookup(t, n, "ads")) else 0.0)
  {
    if ks != [] {
      SumGroupAdsStep(t, ks[1..], n);
      if CategoryOf(t, n) == ks[0] {
        assert CategoryOf(t, n) !in ks[1..];
      } else if CategoryOf(t, n) in ks {
        assert CategoryOf(t, n) in ks[1..];
      }
    }
  }

  lemma {:induction false} NoRowsNoAds(t: Table, ks: seq<Cell>)
    ensures SumGroupAds(t, ks, 0) == 0.0
  {
    if ks != [] {
      NoRowsNoAds(t, ks[1..]);
    }
  }

  /** When every row falls in one of the listed distinct groups, the groups' ADS sums add up to the grand total. */
  lemma {:induction false} GroupAdsPartition(t: Table, ks: seq<Cell>, n: nat)
    requires n <= |t.rows|
    requires DistinctCells(ks)
    requires forall i :: 0 <= i < n ==> CategoryOf(t, i) in ks
    ensures SumGroupAds(t, ks, n) == TotalAds(t, n)
  {
    if n > 0 {
      GroupAdsPartition(t, ks, n - 1);
      SumGroupAdsStep(t, ks, n - 1);
    } else {
      NoRowsNoAds(t, ks);
    }
  }

  /** Total of the item counts the statistics give the categories in `ks`. */
  function SumItemCounts(stats: map<Cell, CategoryStat>, ks: seq<Cell>): nat
    requires forall j :: 0 <= j < |ks| ==> ks[j] in stats
  {
    if ks == [] then 0 else stats[ks[0]].itemCount + SumItemCounts(stats, ks[1..])
  }

  /** Total of the percentages the statistics give the categories in `ks`. */
  function SumPercentages(stats: map<Cell, CategoryStat>, ks: seq<Cell>): real
    requires forall j :: 0 <= j < |ks| ==> ks[j] in stats
  {
    if ks == [] then 0.0 else stats[ks[0]].percentage + SumPercentages(stats, ks[1..])
  }

  lemma {:induction false} SumItemCountsIsSumSkuCounts(t: Table, stats: map<Cell, CategoryStat>, ks: seq<Cell>)
    requires forall j :: 0 <= j < |ks| ==> ks[j] in stats && stats[ks[j]] == StatFor(t, ks[j])
    ensures SumItemCounts(stats, ks) == SumSkuCounts(t, ks, |t.rows|)
  {
    if ks != [] {
      SumItemCountsIsSumSkuCounts(t, stats, ks[1..]);
    }
  }

  /** The item counts of the result, listed once per category, add up to the rows with a category and an SKU. */
  lemma ItemCountsTotal(t: Table, stats: map<Cell, CategoryStat>, ks: seq<Cell>)
    requires CategoryStats(t) == Ok(stats)
    requires DistinctCells(ks) && forall k :: k in ks <==> k in stats
    ensures SumItemCounts(stats, ks) == Counted(t, |t.rows|)
  {
    assert forall j :: 0 <= j < |ks| ==> ks[j] in stats && stats[ks[j]] == StatFor(t, ks[j]);
    SumItemCountsIsSumSkuCounts(t, stats, ks);
    forall i | 0 <= i < |t.rows| && CategoryOf(t, i) != Missing
      ensures CategoryOf(t, i) in ks
    {
      assert CategoryOf(t, i) in CategorySet(t);
    }
    ItemCountsSum(t, ks, |t.rows|);
  }

  /** The column `name` exists and is one the cleaning fills, holding numbers or text. */
  predicate Filled(t: Table, name: string) {
    match ColumnIndex(t.columns, name)
    case None => false
    case Some(j) => t.columns[j].kind != OtherKind
  }

  /** In a cleaned table whose category and SKU columns are filled, every row has both. */
  lemma {:induction false} CleanedRowsCounted(t: Table, n: nat)
    requires Tight(t) && n <= |t.rows|
    requires Filled(t, "category") && Filled(t, "sku")
    ensures Counted(t, n) == n
  {
    if n > 0 {
      CleanedRowsCounted(t, n - 1);
      var a, b := ColumnIndex(t.columns, "category").value, ColumnIndex(t.columns, "sku").value;
      assert Fill(t.columns[a].kind, t.rows[n - 1][a]) == t.rows[n - 1][a];
      assert Fill(t.columns[b].kind, t.rows[n - 1][b]) == t.rows[n - 1][b];
    }
  }

  /** For a cleaned ADS dataset with filled category and SKU columns, the item counts add up to the row count. */
  lemma ItemCountsRowCount(t: Table, stats: map<Cell, CategoryStat>, ks: seq<Cell>)
    requires CategoryStats(t) == Ok(stats)
    requires DistinctCells(ks) && forall k :: k in ks <==> k in stats
    requires Tight(t) && Filled(t, "category") && Filled(t, "sku")
    ensures SumItemCounts(stats, ks) == |t.rows|
  {
    ItemCountsTotal(t, stats, ks);
    CleanedRowsCounted(t, |t.rows|);
  }

  lemma ShareOfSum(a: real, b: real, n: real)
    requires n > 0.0
    ensures (a + b) / n * 100.0 == a / n * 100.0 + b / n * 100.0
  {
  }

  lemma WholeShare(n: real)
    requires n > 0.0
    ensures n / n * 100.0 == 100.0
  {
  }

  /** Each percentage is within 1/200 of the exact share, so their total is within |ks|/200 of the exact total. */
  lemma {:induction false} PercentagesNearShares(t: Table, stats: map<Cell, CategoryStat>, ks: seq<Cell>)
    requires |t.rows| > 0
    requires forall j :: 0 <= j < |ks| ==> ks[j] in stats && stats[ks[j]] == StatFor(t, ks[j])
    ensures Abs(SumPercentages(stats, ks) - SumItemCounts(stats, ks) as real / |t.rows| as real * 100.0)
      <= |ks| as real * 0.005
  {
    if ks != [] {
      PercentagesNearShares(t, stats, ks[1..]);
      var a, b := stats[ks[0]].itemCount as real, SumItemCounts(stats, ks[1..]) as real;
      ShareOfSum(a, b, |t.rows| as real);
    }
  }

  lemma PercentagesTotalOf(t: Table, stats: map<Cell, CategoryStat>, ks: seq<Cell>)
    requires |t.rows| > 0
    requires forall j :: 0 <= j < |ks| ==> ks[j] in stats && stats[ks[j]] == StatFor(t, ks[j])
    requires SumItemCounts(stats, ks) == |t.rows|
    ensures Abs(SumPercentages(stats, ks) - 100.0) <= |ks| as real * 0.005
  {
    PercentagesNearShares(t, stats, ks);
    WholeShare(|t.rows| as real);
  }

  /**
   * When every row has a category and an SKU, the percentages of the result add
   * up to 100 up to the rounding of each one.
   */
  lemma PercentagesTotal(t: Table, stats: map<Cell, CategoryStat>, ks: seq<Cell>)
    requires CategoryStats(t) == Ok(stats) && |t.rows| > 0
    requires DistinctCells(ks) && forall k :: k in ks <==> k in stats
    requires Counted(t, |t.rows|) == |t.rows|
    ensures Abs(SumPercentages(stats, ks) - 100.0) <= |ks| as real * 0.005
  {
    ItemCountsTotal(t, stats, ks);
    assert forall j :: 0 <= j < |ks| ==> ks[j] in stats && stats[ks[j]] == StatFor(t, ks[j]);
    PercentagesTotalOf(t, stats, ks);
  }

  /** With a zero ADS grand total every category's ADS share is 0. */
  lemma ZeroAdsGivesZeroShares(t: Table)
    requires CategoryStats(t).Ok? && TotalAds(t, |t.rows|) == 0.0
    ensures forall k :: k in CategoryStats(t).value ==> CategoryStats(t).value[k].adsPercentage == 0.0
  {
  }

  /**
   * The group's ADS sum is rounded before it is divided by the unrounded grand
   * total, so a share can exceed 100: a single row with ADS 0.006 gets 166.67.
   */
  lemma RoundedSumShareExceedsHundred()
    ensures Round2(0.006) == 0.01
    ensures AdsShare(Round2(0.006), 0.006) == 166.67
  {
    assert (0.006 * 100.0 + 0.5).Floor == 1;
    assert 0.01 / 0.006 * 100.0 == 500.0 / 3.0;
    assert (500.0 / 3.0 * 100.0 + 0.5).Floor == 16667;
  }

  // ---------------------------------------------------------------------------
  // Findings

  /** One row of category "A", SKU "1", ADS 0 and no price column. */
  function NoPriceTable(): Table {
    Table([Column("category", Textual), Column("sku", Textual), Column("ads", Numeric)],
          [[Text("A"), Text("1"), Num(0.0)]])
  }

  /** The code refuses a table without a price column; the optional-price reading analyses it. */
  lemma PriceColumnDemanded()
    ensures AnalysisErrorAsWritten(NoPriceTable()) == Some(MissingColumn("price"))
    ensures AnalysisError(NoPriceTable()).None?
  {
    var t := NoPriceTable();
    assert Names(t.columns) == ["category", "sku", "ads"];
    assert ColumnIndex(t.columns, "category") == Some(0);
    assert ColumnIndex(t.columns, "sku") == Some(1);
    assert ColumnIndex(t.columns, "ads") == Some(2);
    assert ColumnIndex(t.columns, "price") == None;
  }

  /** One row of category "A", SKU "1", ADS 1 and a price column holding text. */
  function TextPriceTable(): Table {
    Table([Column("category", Textual), Column("sku", Textual), Column("ads", Numeric), Column("price", Textual)],
          [[Text("A"), Text("1"), Num(1.0), Text("n/a")]])
  }

  /** The mean of a text price column fails, in the code and in the corrected checks alike. */
  lemma TextPriceRefused()
    ensures AnalysisError(TextPriceTable()) == Some(NonNumericColumn("price"))
    ensures AnalysisErrorAsWritten(TextPriceTable()) == Some(NonNumericColumn("price"))
    ensures CategoryStats(TextPriceTable()) == Err(NonNumericColumn("price"))
  {
    var t := TextPriceTable();
    assert ColumnIndex(t.columns, "category") == Some(0);
    assert ColumnIndex(t.columns, "sku") == Some(1);
    assert ColumnIndex(t.columns, "ads") == Some(2);
    assert ColumnIndex(t.columns, "price") == Some(3);
  }

  /** With every ADS value 0 the code's share is undefined, where the intended share is 0. */
  lemma ZeroAdsShareUndefined()
    ensures AdsShareAsWritten(Round2(0.0), 0.0).None?
    ensures AdsShare(Round2(0.0), 0.0) == 0.0
  {
  }
}
