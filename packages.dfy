/**
 * Package rounding: every order quantity is raised to the next whole multiple
 * of the SKU's pack size, the pack size is recorded on the line, and the line
 * value is recomputed from the new quantity when the orders carry prices.
 */
module Packages {
  import opened Wrappers
  import opened Numbers
  import opened Tables
  import opened Orders

  /** The quantity rounded up to a multiple of the pack size; pack sizes up to 1 leave it alone. */
  function RoundToMultiple(quantity: real, multiple: int): (r: real)
    ensures multiple <= 1 ==> r == quantity
  {
    if multiple <= 1 then quantity else Ceil(quantity / multiple as real) as real * multiple as real
  }

  predicate IsWhole(x: real) {
    x.Floor as real == x
  }

  lemma WholeQuotient(r: real, c: int, m: real)
    requires m > 0.0 && r == c as real * m
    ensures IsWhole(r / m)
  {
    assert r / m == c as real;
    assert (c as real).Floor == c;
  }

  lemma ScaleLess(a: real, b: real, m: real)
    requires a < b && m > 0.0
    ensures a * m < b * m
  {
    assert b * m - a * m == (b - a) * m;
  }

  lemma ScaleAtMost(a: real, b: real, m: real)
    requires a <= b && m > 0.0
    ensures a * m <= b * m
  {
    assert b * m - a * m == (b - a) * m;
  }

  lemma QuotientTimes(x: real, m: real)
    requires m != 0.0
    ensures x / m * m == x
  {
  }

  /** Scaling `y <= c < y + 1` by `m`, where `y` is `x / m`. */
  lemma CeilingBounds(x: real, y: real, c: real, m: real)
    requires m > 0.0 && y * m == x && y <= c < y + 1.0
    ensures x <= c * m < x + m
  {
    ScaleAtMost(y, c, m);
    ScaleLess(c, y + 1.0, m);
    assert (y + 1.0) * m == y * m + m;
  }

  /** For a pack size above 1 the result is a whole multiple of the pack size, and the least one not below the quantity. */
  lemma RoundingLaw(quantity: real, multiple: int)
    requires multiple > 1
    ensures IsWhole(RoundToMultiple(quantity, multiple) / multiple as real)
    ensures quantity <= RoundToMultiple(quantity, multiple) < quantity + multiple as real
  {
    var c := Ceil(quantity / multiple as real);
    var r := RoundToMultiple(quantity, multiple);
    assert r == c as real * multiple as real;
    WholeQuotient(r, c, multiple as real);
    QuotientTimes(quantity, multiple as real);
    CeilingBounds(quantity, quantity / multiple as real, c as real, multiple as real);
  }

  /** The pack size of a line: the SKU's entry in the table, 1 when absent; a line without an SKU looks up "". */
  function MultipleFor(l: OrderLine, multiples: map<Cell, int>): (r: int)
    ensures l.sku.Some? && l.sku.value in multiples ==> r == multiples[l.sku.value]
    ensures l.sku.Some? && l.sku.value !in multiples ==> r == 1
    ensures l.sku.None? ==> r == (if Text("") in multiples then multiples[Text("")] else 1)
  {
    var key := l.sku.GetOr(Text(""));
    if key in multiples then multiples[key] else 1
  }

  function Pack(l: OrderLine, multiples: map<Cell, int>): (r: OrderLine)
    ensures r.packageMultiple == Some(MultipleFor(l, multiples))
    ensures r.quantity == RoundToMultiple(l.quantity, MultipleFor(l, multiples))
    ensures r.value == (if l.price.Some? then r.quantity * l.price.value else l.value)
    ensures r.(quantity := l.quantity, value := l.value, packageMultiple := l.packageMultiple) == l
  {
    var multiple := MultipleFor(l, multiples);
    var quantity := RoundToMultiple(l.quantity, multiple);
    l.(quantity := quantity,
       packageMultiple := Some(multiple),
       value := if l.price.Some? then quantity * l.price.value else l.value)
  }

  /** Every line packed; an absent table of pack sizes is an empty one. */
  function PackAll(orders: seq<OrderLine>, multiples: Option<map<Cell, int>>): (r: seq<OrderLine>)
    ensures |r| == |orders|
    ensures forall i :: 0 <= i < |orders| ==> r[i] == Pack(orders[i], multiples.GetOr(map[]))
  {
    seq(|orders|, i requires 0 <= i < |orders| => Pack(orders[i], multiples.GetOr(map[])))
  }

  /** Rewrites the quantity, pack size and value of each line of a copy of the orders, in place. */
  method ApplyPackageMultiples(orders: seq<OrderLine>, multiples: Option<map<Cell, int>> := None) returns (r: seq<OrderLine>)
    ensures r == PackAll(orders, multiples)
  {
    var table := multiples.GetOr(map[]);
    var lines := new OrderLine[|orders|](i requires 0 <= i < |orders| => orders[i]);
    for i := 0 to lines.Length
      invariant forall k :: 0 <= k < i ==> lines[k] == Pack(orders[k], table)
      invariant forall k :: i <= k < lines.Length ==> lines[k] == orders[k]
    {
      lines[i] := Pack(lines[i], table);
    }
    r := lines[..];
  }

  /** Packing never lowers a quantity, so every line still orders something. */
  lemma PackingNeverLowers(l: OrderLine, multiples: map<Cell, int>)
    ensures Pack(l, multiples).quantity >= l.quantity
  {
    var m := MultipleFor(l, multiples);
    if m > 1 {
      RoundingLaw(l.quantity, m);
    }
  }

  /** Example: 36 units in packs of 10 become 40. */
  lemma PackExample()
    ensures RoundToMultiple(36.0, 10) == 40.0
  {
    assert 36.0 / 10 as real == 3.6;
    assert Ceil(3.6) == 4;
  }
}
