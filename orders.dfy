/**
 * The order list: every row of the minimum-stock table is compared with its
 * current stock, the deficit is scaled by a safety factor, rows with nothing to
 * order are dropped, each line gets its value, and the lines are ordered by
 * category and then by quantity, largest first.
 */
module Orders {
  import opened Wrappers
  import opened Numbers
  import opened Tables
  import MinStock

  datatype OrderLine = OrderLine(
    sku: Option<Cell>,              // None when the orders have no `sku` column
    category: Option<Cell>,         // None when the orders have no `category` column
    minStock: real,
    currentStock: real,
    deficit: real,                  // minimum stock minus current stock
    quantity: real,                 // the deficit times the safety factor
    price: Option<real>,            // None when the orders have no `price` column
    value: real,                    // quantity times price, 0 without prices
    packageMultiple: Option<int>)   // the pack size, once package rounding has run

  /**
   * The number a cell holds for arithmetic; an empty cell is NaN (None). A text
   * cell cannot take part in the arithmetic at all (Python raises), so callers
   * rule it out first.
   */
  function Number(c: Cell): (r: Option<real>)
    requires !c.Text?
    ensures r.Some? <==> c.Num?
    ensures r.Some? ==> r.value == c.x
  {
    if c.Num? then Some(c.x) else None
  }

  /** The first row of `s`, at or after `from`, whose SKU is `sku`. */
  function FirstWithSku(s: Table, sku: Cell, from: nat): (r: Option<nat>)
    ensures r.Some? ==> from <= r.value < |s.rows| && Lookup(s, r.value, "sku") == sku
    ensures r.None? ==> forall j :: from <= j < |s.rows| ==> Lookup(s, j, "sku") != sku
    ensures r.Some? ==> forall j :: from <= j < r.value ==> Lookup(s, j, "sku") != sku
    decreases |s.rows| - from
  {
    if from >= |s.rows| then None
    else if Lookup(s, from, "sku") == sku then Some(from)
    else FirstWithSku(s, sku, from + 1)
  }

  /** Stock tables are joined to the orders only when both sides have an SKU column. */
  predicate Joined(m: Table, stock: Option<Table>) {
    stock.Some? && Has(m, "sku") && Has(stock.value, "sku")
  }

  /**
   * The `current_stock` cell of row `i`: zero without a joinable stock table;
   * otherwise the row's own `stock` cell when it has one, else the `stock` cell
   * of the first stock row with the same SKU, empty (NaN) when no row has it,
   * and zero when neither table has a `stock` column.
   */
  function StockCell(m: Table, stock: Option<Table>, i: nat): (r: Cell)
    requires i < |m.rows|
    ensures !Joined(m, stock) ==> r == Num(0.0)
    ensures Joined(m, stock) && Has(m, "stock") ==> r == Lookup(m, i, "stock")
    ensures Joined(m, stock) && !Has(m, "stock") && !Has(stock.value, "stock") ==> r == Num(0.0)
    ensures Joined(m, stock) && !Has(m, "stock") && Has(stock.value, "stock") ==>
      (r == Missing && forall j :: 0 <= j < |stock.value.rows| ==> Lookup(stock.value, j, "sku") != Lookup(m, i, "sku")) ||
      (exists j :: 0 <= j < |stock.value.rows| && Lookup(stock.value, j, "sku") == Lookup(m, i, "sku") &&
         (forall k :: 0 <= k < j ==> Lookup(stock.value, k, "sku") != Lookup(m, i, "sku")) &&
         r == Lookup(stock.value, j, "stock"))
  {
    if !Joined(m, stock) then Num(0.0)
    else if Has(m, "stock") then Lookup(m, i, "stock")
    else if Has(stock.value, "stock") then
      match FirstWithSku(stock.value, Lookup(m, i, "sku"), 0)
      case None => Missing
      case Some(j) => Lookup(stock.value, j, "stock")
    else Num(0.0)
  }

  /** The cells the deficit of row `i` is computed from hold no text. */
  predicate Operands(m: Table, stock: Option<Table>, i: nat)
    requires i < |m.rows|
  {
    !Lookup(m, i, "min_stock").Text? && !StockCell(m, stock, i).Text?
  }

  /** The current stock of row `i` as a number; None is NaN. */
  function CurrentStock(m: Table, stock: Option<Table>, i: nat): (r: Option<real>)
    requires i < |m.rows| && !StockCell(m, stock, i).Text?
    ensures !Joined(m, stock) ==> r == Some(0.0)
    ensures r.None? <==> StockCell(m, stock, i).Missing?
    ensures r.Some? ==> StockCell(m, stock, i) == Num(r.value)
  {
    Number(StockCell(m, stock, i))
  }

  /** `max(0, x)` as Python evaluates it: a NaN argument (None) loses to 0. */
  function QuantityOf(deficit: Option<real>, safetyFactor: real): (r: real)
    ensures r >= 0.0
    ensures deficit.Some? ==> r >= deficit.value * safetyFactor
    ensures deficit.Some? && deficit.value * safetyFactor > 0.0 ==> r == deficit.value * safetyFactor
    ensures deficit.None? || deficit.value * safetyFactor <= 0.0 ==> r == 0.0
  {
    match deficit
    case None => 0.0
    case Some(d) => Max(0.0, d * safetyFactor)
  }

  /** The order quantity of row `i`, before the rows with nothing to order are dropped. */
  function Quantity(m: Table, stock: Option<Table>, safetyFactor: real, i: nat): (r: real)
    requires i < |m.rows| && Operands(m, stock, i)
    ensures r >= 0.0
    ensures r > 0.0 <==>
      Lookup(m, i, "min_stock").Num? && CurrentStock(m, stock, i).Some? &&
      (Lookup(m, i, "min_stock").x - CurrentStock(m, stock, i).value) * safetyFactor > 0.0
  {
    var minStock := Number(Lookup(m, i, "min_stock"));
    var current := CurrentStock(m, stock, i);
    QuantityOf(if minStock.Some? && current.Some? then Some(minStock.value - current.value) else None, safetyFactor)
  }

  /**
   * Row `i` can be computed without a type error: its deficit operands hold no
   * text, and when it is ordered and the orders have prices, its price is no text.
   */
  predicate Computable(m: Table, stock: Option<Table>, safetyFactor: real, i: nat)
    requires i < |m.rows|
  {
    Operands(m, stock, i) &&
    (Has(m, "price") && Quantity(m, stock, safetyFactor, i) > 0.0 ==> !Lookup(m, i, "price").Text?)
  }

  function ColumnCell(m: Table, i: nat, name: string): Option<Cell>
    requires i < |m.rows|
  {
    if Has(m, name) then Some(Lookup(m, i, name)) else None
  }

  /** The order line of row `i`, if the row has something to order. */
  function LineFor(m: Table, stock: Option<Table>, safetyFactor: real, i: nat): (r: Option<OrderLine>)
    requires i < |m.rows| && Computable(m, stock, safetyFactor, i)
    ensures r.Some? <==> Quantity(m, stock, safetyFactor, i) > 0.0
    ensures r.Some? ==> r.value.quantity > 0.0
    ensures r.Some? ==> Lookup(m, i, "min_stock") == Num(r.value.minStock)
    ensures r.Some? ==> StockCell(m, stock, i) == Num(r.value.currentStock)
    ensures r.Some? ==> r.value.deficit == r.value.minStock - r.value.currentStock
    ensures r.Some? ==> r.value.quantity == r.value.deficit * safetyFactor
    ensures r.Some? ==> (r.value.price.Some? <==> Has(m, "price"))
    ensures r.Some? && Has(m, "price") ==> r.value.price.value == Value(Lookup(m, i, "price"))
    ensures r.Some? ==> r.value.value == (if r.value.price.Some? then r.value.quantity * r.value.price.value else 0.0)
    ensures r.Some? ==> r.value.sku == ColumnCell(m, i, "sku") && r.value.category == ColumnCell(m, i, "category")
    ensures r.Some? ==> r.value.packageMultiple.None?
  {
    var minStock := Number(Lookup(m, i, "min_stock"));
    var current := CurrentStock(m, stock, i);
    var quantity := Quantity(m, stock, safetyFactor, i);
    if quantity > 0.0 then
      var price := if Has(m, "price") then Some(Value(Lookup(m, i, "price"))) else None;
      var value := if price.Some? then quantity * price.value else 0.0;
      Some(OrderLine(ColumnCell(m, i, "sku"), ColumnCell(m, i, "category"), minStock.value, current.value,
                     minStock.value - current.value, quantity, price, value, None))
    else None
  }

  /** Every one of the first `n` rows can be computed. */
  predicate AllComputable(m: Table, stock: Option<Table>, safetyFactor: real, n: nat)
    requires n <= |m.rows|
  {
    forall i :: 0 <= i < n ==> Computable(m, stock, safetyFactor, i)
  }

  /** The lines of the first `n` rows, in row order. */
  function Lines(m: Table, stock: Option<Table>, safetyFactor: real, n: nat): (r: seq<OrderLine>)
    requires n <= |m.rows| && AllComputable(m, stock, safetyFactor, n)
    ensures |r| <= n
  {
    if n == 0 then []
    else
      var rest := Lines(m, stock, safetyFactor, n - 1);
      match LineFor(m, stock, safetyFactor, n - 1)
      case None => rest
      case Some(l) => rest + [l]
  }

  /** A line is in the list exactly when some row produces it. */
  lemma {:induction false} LinesFromRows(m: Table, stock: Option<Table>, safetyFactor: real, n: nat, l: OrderLine)
    requires n <= |m.rows| && AllComputable(m, stock, safetyFactor, n)
    ensures l in Lines(m, stock, safetyFactor, n) <==> exists i :: 0 <= i < n && LineFor(m, stock, safetyFactor, i) == Some(l)
  {
    if n > 0 {
      LinesFromRows(m, stock, safetyFactor, n - 1, l);
      var rest := Lines(m, stock, safetyFactor, n - 1);
      if LineFor(m, stock, safetyFactor, n - 1).Some? {
        assert Lines(m, stock, safetyFactor, n) == rest + [LineFor(m, stock, safetyFactor, n - 1).value];
      }
    }
  }

  lemma PositiveProduct(d: real, f: real)
    requires f > 0.0
    ensures d * f > 0.0 <==> d > 0.0
  {
    if d > 0.0 {
      assert d * f > 0.0;
    } else {
      assert d * f <= 0.0 by {
        assert (-d) * f >= 0.0;
      }
    }
  }

  /** With a positive safety factor a row is ordered exactly when its stock is known and below the minimum. */
  lemma OrderedIffDeficit(m: Table, stock: Option<Table>, safetyFactor: real, i: nat)
    requires i < |m.rows| && Computable(m, stock, safetyFactor, i) && safetyFactor > 0.0
    ensures LineFor(m, stock, safetyFactor, i).Some? <==>
      Lookup(m, i, "min_stock").Num? && CurrentStock(m, stock, i).Some? &&
      Lookup(m, i, "min_stock").x - CurrentStock(m, stock, i).value > 0.0
  {
    var c := Lookup(m, i, "min_stock");
    var current := CurrentStock(m, stock, i);
    if c.Num? && current.Some? {
      PositiveProduct(c.x - current.value, safetyFactor);
    }
  }

  /** Without a stock table nothing is on hand, so the order is the minimum stock times the factor. */
  lemma NoStockOrdersMinimum(m: Table, safetyFactor: real, i: nat)
    requires i < |m.rows| && Computable(m, None, safetyFactor, i)
    requires LineFor(m, None, safetyFactor, i).Some?
    ensures LineFor(m, None, safetyFactor, i).value.currentStock == 0.0
    ensures LineFor(m, None, safetyFactor, i).value.quantity == LineFor(m, None, safetyFactor, i).value.minStock * safetyFactor
  {
  }

  /** An SKU the stock table does not list has an unknown stock, and its row is not ordered. */
  lemma UnmatchedSkuNotOrdered(m: Table, s: Table, safetyFactor: real, i: nat)
    requires i < |m.rows| && !Lookup(m, i, "min_stock").Text?
    requires Has(m, "sku") && Has(s, "sku") && !Has(m, "stock") && Has(s, "stock")
    requires forall j :: 0 <= j < |s.rows| ==> Lookup(s, j, "sku") != Lookup(m, i, "sku")
    ensures Computable(m, Some(s), safetyFactor, i)
    ensures CurrentStock(m, Some(s), i).None?
    ensures LineFor(m, Some(s), safetyFactor, i).None?
  {
    assert FirstWithSku(s, Lookup(m, i, "sku"), 0).None?;
  }

  /**
   * Why the order list cannot be computed: the `min_stock` column is missing,
   * or a text cell meets arithmetic. The minimum stock and the current stock of
   * every row enter the deficit; the price enters only for rows still ordered.
   */
  function OrderError(m: Table, stock: Option<Table>, safetyFactor: real): (r: Option<Error>)
    ensures r.None? <==> Has(m, "min_stock") && AllComputable(m, stock, safetyFactor, |m.rows|)
    ensures !Has(m, "min_stock") ==> r == Some(MissingColumn("min_stock"))
    ensures r == Some(NonNumericColumn("min_stock")) <==>
      Has(m, "min_stock") && exists i :: 0 <= i < |m.rows| && Lookup(m, i, "min_stock").Text?
    ensures r == Some(NonNumericColumn("stock")) <==>
      Has(m, "min_stock") && (forall i :: 0 <= i < |m.rows| ==> !Lookup(m, i, "min_stock").Text?) &&
      exists i :: 0 <= i < |m.rows| && StockCell(m, stock, i).Text?
    ensures r == Some(NonNumericColumn("price")) <==>
      Has(m, "min_stock") && (forall i :: 0 <= i < |m.rows| ==> Operands(m, stock, i)) &&
      exists i :: 0 <= i < |m.rows| && !Computable(m, stock, safetyFactor, i)
  {
    if !Has(m, "min_stock") then Some(MissingColumn("min_stock"))
    else if exists i :: 0 <= i < |m.rows| && Lookup(m, i, "min_stock").Text? then
      assert !AllComputable(m, stock, safetyFactor, |m.rows|) && exists i :: 0 <= i < |m.rows| && !Operands(m, stock, i) by {
        var i :| 0 <= i < |m.rows| && Lookup(m, i, "min_stock").Text?;
        assert !Operands(m, stock, i) && !Computable(m, stock, safetyFactor, i);
      }
      Some(NonNumericColumn("min_stock"))
    else if exists i :: 0 <= i < |m.rows| && StockCell(m, stock, i).Text? then
      assert !AllComputable(m, stock, safetyFactor, |m.rows|) && exists i :: 0 <= i < |m.rows| && !Operands(m, stock, i) by {
        var i :| 0 <= i < |m.rows| && StockCell(m, stock, i).Text?;
        assert !Operands(m, stock, i) && !Computable(m, stock, safetyFactor, i);
      }
      Some(NonNumericColumn("stock"))
    else if exists i :: 0 <= i < |m.rows| && !Computable(m, stock, safetyFactor, i) then Some(NonNumericColumn("price"))
    else None
  }

  // ---------------------------------------------------------------------------
  // Ordering: category ascending, then quantity descending

  /** Strict lexicographic order on strings, by code point. */
  predicate StringLess(a: string, b: string) {
    |b| > 0 && (|a| == 0 || a[0] < b[0] || (a[0] == b[0] && StringLess(a[1..], b[1..])))
  }

  lemma {:induction false} StringLessTotal(a: string, b: string)
    ensures a == b || StringLess(a, b) || StringLess(b, a)
  {
    if |a| > 0 && |b| > 0 && a[0] == b[0] {
      StringLessTotal(a[1..], b[1..]);
      if a[1..] == b[1..] {
        assert a == [a[0]] + a[1..] && b == [b[0]] + b[1..];
      }
    }
  }

  lemma {:induction false} StringLessTransitive(a: string, b: string, c: string)
    requires StringLess(a, b) && StringLess(b, c)
    ensures StringLess(a, c)
  {
    if |a| > 0 && a[0] == b[0] && b[0] == c[0] {
      StringLessTransitive(a[1..], b[1..], c[1..]);
    }
  }

  lemma {:induction false} StringLessIrreflexive(a: string)
    ensures !StringLess(a, a)
  {
    if |a| > 0 {
      StringLessIrreflexive(a[1..]);
    }
  }

  /** Numbers sort before text, and empty cells last. */
  function Rank(c: Cell): nat {
    match c
    case Num(_) => 0
    case Text(_) => 1
    case Missing => 2
  }

  predicate CellLess(a: Cell, b: Cell) {
    Rank(a) < Rank(b) ||
    (a.Num? && b.Num? && a.x < b.x) ||
    (a.Text? && b.Text? && StringLess(a.s, b.s))
  }

  lemma CellLessTotal(a: Cell, b: Cell)
    ensures a == b || CellLess(a, b) || CellLess(b, a)
  {
    if a.Text? && b.Text? {
      StringLessTotal(a.s, b.s);
    }
  }

  lemma CellLessTransitive(a: Cell, b: Cell, c: Cell)
    requires CellLess(a, b) && CellLess(b, c)
    ensures CellLess(a, c)
  {
    if a.Text? && b.Text? && c.Text? {
      StringLessTransitive(a.s, b.s, c.s);
    }
  }

  lemma CellLessIrreflexive(a: Cell)
    ensures !CellLess(a, a)
  {
    if a.Text? {
      StringLessIrreflexive(a.s);
    }
  }

  function CategoryKey(l: OrderLine): Cell {
    l.category.GetOr(Missing)
  }

  /** Line `a` may stand before line `b`. */
  predicate Before(a: OrderLine, b: OrderLine) {
    CellLess(CategoryKey(a), CategoryKey(b)) ||
    (CategoryKey(a) == CategoryKey(b) && a.quantity >= b.quantity)
  }

  lemma BeforeTotal(a: OrderLine, b: OrderLine)
    ensures Before(a, b) || Before(b, a)
  {
    CellLessTotal(CategoryKey(a), CategoryKey(b));
  }

  lemma BeforeTransitive(a: OrderLine, b: OrderLine, c: OrderLine)
    requires Before(a, b) && Before(b, c)
    ensures Before(a, c)
  {
    var ka, kb, kc := CategoryKey(a), CategoryKey(b), CategoryKey(c);
    if CellLess(ka, kb) && CellLess(kb, kc) {
      CellLessTransitive(ka, kb, kc);
    }
  }

  predicate Sorted(s: seq<OrderLine>) {
    forall i, j :: 0 <= i < j < |s| ==> Before(s[i], s[j])
  }

  /** Puts `x` in front of the first line it may precede. */
  function Insert(x: OrderLine, s: seq<OrderLine>): (r: seq<OrderLine>)
    ensures |r| == |s| + 1
    ensures multiset(r) == multiset(s) + multiset{x}
  {
    if s == [] then [x]
    else if Before(x, s[0]) then [x] + s
    else
      assert s == [s[0]] + s[1..];
      [s[0]] + Insert(x, s[1..])
  }

  lemma {:induction false} InsertSorted(x: OrderLine, s: seq<OrderLine>)
    requires Sorted(s)
    ensures Sorted(Insert(x, s))
  {
    if s != [] && !Before(x, s[0]) {
      InsertSorted(x, s[1..]);
      BeforeTotal(x, s[0]);
      var r := Insert(x, s[1..]);
      assert multiset(r) == multiset(s[1..]) + multiset{x};
      forall j | 0 <= j < |r|
        ensures Before(s[0], r[j])
      {
        assert r[j] in multiset(r);
        if r[j] != x {
          assert r[j] in multiset(s[1..]);
          var k :| 0 <= k < |s[1..]| && s[1..][k] == r[j];
          assert s[k + 1] == r[j];
        }
      }
    } else if s != [] {
      forall j | 0 <= j < |s|
        ensures Before(x, s[j])
      {
        if j > 0 {
          BeforeTransitive(x, s[0], s[j]);
        }
      }
    }
  }

  /** Insertion sort by category, then by quantity, largest first. */
  function Sort(s: seq<OrderLine>): (r: seq<OrderLine>)
    ensures multiset(r) == multiset(s)
  {
    if s == [] then []
    else
      assert s == [s[0]] + s[1..];
      Insert(s[0], Sort(s[1..]))
  }

  lemma {:induction false} SortSorted(s: seq<OrderLine>)
    ensures Sorted(Sort(s))
  {
    if s != [] {
      SortSorted(s[1..]);
      InsertSorted(s[0], Sort(s[1..]));
    }
  }

  // ---------------------------------------------------------------------------
  // The order list

  /**
   * The order list for a minimum-stock table: refused when `min_stock` is missing
   * or text meets arithmetic, otherwise the lines of the rows, sorted when the
   * orders have a category column.
   */
  function GenerateOrders(m: Table, stock: Option<Table>, safetyFactor: real): (r: Result<seq<OrderLine>>)
    ensures r.Err? <==> OrderError(m, stock, safetyFactor).Some?
    ensures r.Err? ==> r.error == OrderError(m, stock, safetyFactor).value
    ensures r.Ok? ==> AllComputable(m, stock, safetyFactor, |m.rows|)
    ensures r.Ok? ==> multiset(r.value) == multiset(Lines(m, stock, safetyFactor, |m.rows|))
    ensures r.Ok? && !Has(m, "category") ==> r.value == Lines(m, stock, safetyFactor, |m.rows|)
  {
    match OrderError(m, stock, safetyFactor)
    case Some(e) => Err(e)
    case None =>
      var lines := Lines(m, stock, safetyFactor, |m.rows|);
      Ok(if Has(m, "category") then Sort(lines) else lines)
  }

  /** With a category column the list is ordered by category, then by quantity descending. */
  lemma OrdersSorted(m: Table, stock: Option<Table>, safetyFactor: real)
    requires Has(m, "category") && GenerateOrders(m, stock, safetyFactor).Ok?
    ensures Sorted(GenerateOrders(m, stock, safetyFactor).value)
  {
    SortSorted(Lines(m, stock, safetyFactor, |m.rows|));
  }

  /** Every listed line has a positive quantity. */
  lemma OrdersPositive(m: Table, stock: Option<Table>, safetyFactor: real, l: OrderLine)
    requires GenerateOrders(m, stock, safetyFactor).Ok?
    requires l in GenerateOrders(m, stock, safetyFactor).value
    ensures l.quantity > 0.0
  {
    var lines := Lines(m, stock, safetyFactor, |m.rows|);
    assert l in multiset(lines);
    LinesFromRows(m, stock, safetyFactor, |m.rows|, l);
  }

  // ---------------------------------------------------------------------------
  // Worked example: ADS 5 over 10 days, 20 on hand, safety factor 1.2

  /** One ADS row: SKU "A1" sells 5 a day. */
  function ExampleAds(): Table {
    Table([Column("sku", Textual), Column("ads", Numeric)], [[Text("A1"), Num(5.0)]])
  }

  /** Its minimum stock over 10 days of supply, computed by the minimum-stock rule. */
  function ExampleMinStock(): Table {
    Table([Column("sku", Textual), Column("min_stock", Numeric)], [[Text("A1"), MinStock.MinStockCell(ExampleAds(), 10, 0)]])
  }

  function ExampleStock(): Table {
    Table([Column("sku", Textual), Column("stock", Numeric)], [[Text("A1"), Num(20.0)]])
  }

  lemma OrderExample()
    ensures Lookup(ExampleMinStock(), 0, "min_stock") == Num(50.0)
    ensures Computable(ExampleMinStock(), Some(ExampleStock()), 1.2, 0)
    ensures LineFor(ExampleMinStock(), Some(ExampleStock()), 1.2, 0).Some?
    ensures LineFor(ExampleMinStock(), Some(ExampleStock()), 1.2, 0).value.quantity == 36.0
  {
    var m, s := ExampleMinStock(), ExampleStock();
    assert ColumnIndex(ExampleAds().columns, "ads") == Some(1);
    assert MinStock.MinStockCell(ExampleAds(), 10, 0) == Num(50.0);
    assert ColumnIndex(m.columns, "sku") == Some(0);
    assert ColumnIndex(m.columns, "min_stock") == Some(1);
    assert !Has(m, "stock") && !Has(m, "price");
    assert ColumnIndex(s.columns, "sku") == Some(0);
    assert ColumnIndex(s.columns, "stock") == Some(1);
    assert FirstWithSku(s, Text("A1"), 0) == Some(0);
    assert StockCell(m, Some(s), 0) == Num(20.0);
  }
}
