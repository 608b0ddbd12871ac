/**
 * What is handed over for export: the orders, a summary of their totals, and
 * the category analysis and shelf distribution when they are given and hold
 * at least one category.
 */
module Export {
  import opened Wrappers
  import opened Tables
  import opened Categories
  import opened Space
  import opened Orders
  import opened Packages

  datatype Summary = Summary(totalPositions: nat, totalQuantity: real, totalValue: real)

  datatype ExportData = ExportData(
    orders: seq<OrderLine>,
    summary: Summary,
    categoryAnalysis: Option<map<Cell, CategoryStat>>,
    spaceDistribution: Option<map<Cell, Allocation>>)

  /** The sum of the quantities; never negative when no quantity is. */
  function TotalQuantity(lines: seq<OrderLine>): (r: real)
    ensures (forall i :: 0 <= i < |lines| ==> lines[i].quantity >= 0.0) ==> r >= 0.0
  {
    if lines == [] then 0.0 else lines[0].quantity + TotalQuantity(lines[1..])
  }

  /** The sum of the line values; never negative when no value is. */
  function TotalValue(lines: seq<OrderLine>): (r: real)
    ensures (forall i :: 0 <= i < |lines| ==> lines[i].value >= 0.0) ==> r >= 0.0
  {
    if lines == [] then 0.0 else lines[0].value + TotalValue(lines[1..])
  }

  function Summarise(lines: seq<OrderLine>): (r: Summary)
    ensures r.totalPositions == |lines|
  {
    Summary(|lines|, TotalQuantity(lines), TotalValue(lines))
  }

  /** An empty dictionary is left out just like an absent one. */
  function NonEmpty<K, V>(m: Option<map<K, V>>): (r: Option<map<K, V>>)
    ensures r.Some? <==> m.Some? && m.value != map[]
    ensures r.Some? ==> r == m
  {
    if m.Some? && m.value != map[] then m else None
  }

  function ExportResults(orders: seq<OrderLine>, stats: Option<map<Cell, CategoryStat>> := None,
                         space: Option<map<Cell, Allocation>> := None): (r: ExportData)
    ensures r.orders == orders && r.summary == Summarise(orders)
    ensures r.categoryAnalysis.Some? <==> stats.Some? && stats.value != map[]
    ensures r.spaceDistribution.Some? <==> space.Some? && space.value != map[]
    ensures r.categoryAnalysis.Some? ==> r.categoryAnalysis == stats
    ensures r.spaceDistribution.Some? ==> r.spaceDistribution == space
  {
    ExportData(orders, Summarise(orders), NonEmpty(stats), NonEmpty(space))
  }

  // ---------------------------------------------------------------------------
  // Totals

  lemma {:induction false} QuantitiesPositive(lines: seq<OrderLine>)
    requires forall i :: 0 <= i < |lines| ==> lines[i].quantity > 0.0
    ensures lines != [] ==> TotalQuantity(lines) > 0.0
    ensures TotalQuantity(lines) >= 0.0
  {
    if lines != [] {
      QuantitiesPositive(lines[1..]);
    }
  }

  /** A non-empty order list always asks for a positive total quantity. */
  lemma GeneratedTotalPositive(m: Table, stock: Option<Table>, safetyFactor: real)
    requires GenerateOrders(m, stock, safetyFactor).Ok?
    requires GenerateOrders(m, stock, safetyFactor).value != []
    ensures Summarise(GenerateOrders(m, stock, safetyFactor).value).totalQuantity > 0.0
  {
    var lines := GenerateOrders(m, stock, safetyFactor).value;
    forall i | 0 <= i < |lines|
      ensures lines[i].quantity > 0.0
    {
      OrdersPositive(m, stock, safetyFactor, lines[i]);
    }
    QuantitiesPositive(lines);
  }

  /** Rounding to pack sizes keeps the positions and never lowers the total quantity. */
  lemma {:induction false} PackingRaisesTotal(orders: seq<OrderLine>, multiples: Option<map<Cell, int>>)
    ensures Summarise(PackAll(orders, multiples)).totalPositions == |orders|
    ensures TotalQuantity(PackAll(orders, multiples)) >= TotalQuantity(orders)
  {
    if orders != [] {
      PackingRaisesTotal(orders[1..], multiples);
      PackingNeverLowers(orders[0], multiples.GetOr(map[]));
      assert PackAll(orders, multiples)[1..] == PackAll(orders[1..], multiples);
    }
  }

  /** Moving a line into a list adds its quantity to the total. */
  lemma {:induction false} InsertTotal(x: OrderLine, s: seq<OrderLine>)
    ensures TotalQuantity(Insert(x, s)) == x.quantity + TotalQuantity(s)
    ensures TotalValue(Insert(x, s)) == x.value + TotalValue(s)
  {
    if s != [] && !Before(x, s[0]) {
      InsertTotal(x, s[1..]);
      assert Insert(x, s)[1..] == Insert(x, s[1..]);
    } else if s != [] {
      assert Insert(x, s)[1..] == s;
    }
  }

  /** Sorting the order list leaves its totals as they were. */
  lemma {:induction false} SortKeepsTotals(s: seq<OrderLine>)
    ensures TotalQuantity(Sort(s)) == TotalQuantity(s)
    ensures TotalValue(Sort(s)) == TotalValue(s)
  {
    if s != [] {
      SortKeepsTotals(s[1..]);
      InsertTotal(s[0], Sort(s[1..]));
    }
  }

  /** The summary totals are those of the unsorted lines of the rows. */
  lemma SummaryOfRows(m: Table, stock: Option<Table>, safetyFactor: real)
    requires GenerateOrders(m, stock, safetyFactor).Ok?
    ensures Summarise(GenerateOrders(m, stock, safetyFactor).value) == Summarise(Lines(m, stock, safetyFactor, |m.rows|))
  {
    var lines := Lines(m, stock, safetyFactor, |m.rows|);
    if Has(m, "category") {
      SortKeepsTotals(lines);
      assert |Sort(lines)| == |lines| by {
        assert |multiset(Sort(lines))| == |multiset(lines)|;
      }
    }
  }
}
