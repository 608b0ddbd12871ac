/**
 * Shelf allocation: every category gets a whole number of shelves in proportion
 * to its share of the ADS grand total, rounded toward zero, and the number of
 * its items that then share one shelf.
 */
module Space {
  import opened Wrappers
  import opened Numbers
  import opened Tables
  import opened Categories

  datatype Allocation = Allocation(
    shelves: int,          // shelves given to the category
    percentage: real,      // the category's ADS share, copied from the analysis
    itemsPerShelf: real)   // items of the category per allocated shelf

  /** The exact, untruncated shelf share of a category. */
  function Share(adsPercentage: real, totalShelves: int): (r: real)
    ensures adsPercentage >= 0.0 && totalShelves >= 0 ==> r >= 0.0
    ensures adsPercentage == 100.0 ==> r == totalShelves as real
  {
    adsPercentage / 100.0 * totalShelves as real
  }

  /** The shelves a category with the given ADS share receives out of `totalShelves`. */
  function Shelves(adsPercentage: real, totalShelves: int): (r: int)
    ensures adsPercentage >= 0.0 && totalShelves >= 0 ==>
      0 <= r && r as real <= Share(adsPercentage, totalShelves) < r as real + 1.0
  {
    Trunc(Share(adsPercentage, totalShelves))
  }

  /** The divisor for items per shelf: the shelves, but never less than one. */
  function AtLeastOne(n: int): (r: int)
    ensures r >= 1 && r >= n && (n >= 1 ==> r == n)
  {
    if n >= 1 then n else 1
  }

  function Allocate(totalShelves: int, stat: CategoryStat): (r: Allocation)
    ensures r.shelves == Shelves(stat.adsPercentage, totalShelves)
    ensures r.percentage == stat.adsPercentage
    ensures r.itemsPerShelf * AtLeastOne(r.shelves) as real == stat.itemCount as real
    ensures r.itemsPerShelf >= 0.0
  {
    var shelves := Shelves(stat.adsPercentage, totalShelves);
    Allocation(shelves, stat.adsPercentage, stat.itemCount as real / AtLeastOne(shelves) as real)
  }

  /** The distribution over all categories of the analysis. */
  function Distribution(totalShelves: int, stats: map<Cell, CategoryStat>): (r: map<Cell, Allocation>)
    ensures r.Keys == stats.Keys
    ensures forall k :: k in r ==> r[k] == Allocate(totalShelves, stats[k])
  {
    map k | k in stats :: Allocate(totalShelves, stats[k])
  }

  /** Fills the distribution one category at a time. */
  method SpaceDistribution(totalShelves: int, stats: map<Cell, CategoryStat>) returns (r: map<Cell, Allocation>)
    ensures r == Distribution(totalShelves, stats)
  {
    r := map[];
    var remaining := stats.Keys;
    while remaining != {}
      invariant remaining <= stats.Keys
      invariant forall k :: k in r <==> k in stats && k !in remaining
      invariant forall k :: k in r ==> r[k] == Allocate(totalShelves, stats[k])
      decreases remaining
    {
      var k :| k in remaining;
      r := r[k := Allocate(totalShelves, stats[k])];
      remaining := remaining - {k};
    }
    var expected := Distribution(totalShelves, stats);
    assert forall k :: k in r <==> k in expected;
    assert forall k :: k in r ==> r[k] == expected[k];
  }

  // ---------------------------------------------------------------------------
  // The shelf budget

  function SumShelves(dist: map<Cell, Allocation>, ks: seq<Cell>): int
    requires forall j :: 0 <= j < |ks| ==> ks[j] in dist
  {
    if ks == [] then 0 else dist[ks[0]].shelves + SumShelves(dist, ks[1..])
  }

  function SumAdsPercentages(stats: map<Cell, CategoryStat>, ks: seq<Cell>): real
    requires forall j :: 0 <= j < |ks| ==> ks[j] in stats
  {
    if ks == [] then 0.0 else stats[ks[0]].adsPercentage + SumAdsPercentages(stats, ks[1..])
  }

  function SumShares(stats: map<Cell, CategoryStat>, ks: seq<Cell>, totalShelves: int): real
    requires forall j :: 0 <= j < |ks| ==> ks[j] in stats
  {
    if ks == [] then 0.0 else Share(stats[ks[0]].adsPercentage, totalShelves) + SumShares(stats, ks[1..], totalShelves)
  }

  lemma Distribute(a: real, b: real, n: int)
    ensures Share(a + b, n) == Share(a, n) + Share(b, n)
  {
  }

  /** The exact shares add up to the share of the summed percentages. */
  lemma {:induction false} SharesAdd(stats: map<Cell, CategoryStat>, ks: seq<Cell>, totalShelves: int)
    requires forall j :: 0 <= j < |ks| ==> ks[j] in stats
    ensures SumShares(stats, ks, totalShelves) == Share(SumAdsPercentages(stats, ks), totalShelves)
  {
    if ks != [] {
      SharesAdd(stats, ks[1..], totalShelves);
      Distribute(stats[ks[0]].adsPercentage, SumAdsPercentages(stats, ks[1..]), totalShelves);
    }
  }

  /** Truncation never hands out more than the exact shares. */
  lemma {:induction false} ShelvesBelowShares(totalShelves: int, stats: map<Cell, CategoryStat>, ks: seq<Cell>)
    requires totalShelves >= 0
    requires forall j :: 0 <= j < |ks| ==> ks[j] in stats && stats[ks[j]].adsPercentage >= 0.0
    ensures SumShelves(Distribution(totalShelves, stats), ks) as real <= SumShares(stats, ks, totalShelves)
  {
    if ks != [] {
      ShelvesBelowShares(totalShelves, stats, ks[1..]);
      var d := Distribution(totalShelves, stats);
      assert d[ks[0]].shelves as real <= Share(stats[ks[0]].adsPercentage, totalShelves);
    }
  }

  lemma ShareAtMostWhole(s: real, n: int)
    requires s <= 100.0 && n >= 0
    ensures Share(s, n) <= n as real
  {
    assert n as real - Share(s, n) == (1.0 - s / 100.0) * n as real;
  }

  /** Shares of at most 100 percent in total never allocate more shelves than there are. */
  lemma ShelfBudget(totalShelves: int, stats: map<Cell, CategoryStat>, ks: seq<Cell>)
    requires totalShelves >= 0
    requires forall j :: 0 <= j < |ks| ==> ks[j] in stats && stats[ks[j]].adsPercentage >= 0.0
    requires SumAdsPercentages(stats, ks) <= 100.0
    ensures SumShelves(Distribution(totalShelves, stats), ks) <= totalShelves
  {
    ShelvesBelowShares(totalShelves, stats, ks);
    SharesAdd(stats, ks, totalShelves);
    ShareAtMostWhole(SumAdsPercentages(stats, ks), totalShelves);
  }

  /** A category without sales gets no shelf, and all its items count against one shelf. */
  lemma NoSalesNoShelf(totalShelves: int, stat: CategoryStat)
    requires stat.adsPercentage == 0.0
    ensures Allocate(totalShelves, stat).shelves == 0
    ensures Allocate(totalShelves, stat).itemsPerShelf == stat.itemCount as real
  {
  }

  // ---------------------------------------------------------------------------
  // Worked example: 786 shelves over shares of 40, 35 and 25 percent

  function ShareStat(adsPercentage: real): CategoryStat {
    CategoryStat(10, 0.0, 0.0, None, adsPercentage)
  }

  lemma ThreeCategoriesExample()
    ensures Allocate(786, ShareStat(40.0)).shelves == 314
    ensures Allocate(786, ShareStat(35.0)).shelves == 275
    ensures Allocate(786, ShareStat(25.0)).shelves == 196
  {
    assert 40.0 / 100.0 * 786.0 == 314.4;
    assert 35.0 / 100.0 * 786.0 == 275.1;
    assert 25.0 / 100.0 * 786.0 == 196.5;
  }

  /** The truncation loses a shelf: the three allocations add up to 785 of 786. */
  lemma ThreeCategoriesLeaveOneShelf()
    ensures var m := map[Text("A") := ShareStat(40.0), Text("B") := ShareStat(35.0), Text("C") := ShareStat(25.0)];
      SumShelves(Distribution(786, m), [Text("A"), Text("B"), Text("C")]) == 785
  {
    var m := map[Text("A") := ShareStat(40.0), Text("B") := ShareStat(35.0), Text("C") := ShareStat(25.0)];
    var d := Distribution(786, m);
    ThreeCategoriesExample();
    assert d[Text("A")].shelves == 314 && d[Text("B")].shelves == 275 && d[Text("C")].shelves == 196;
    assert [Text("A"), Text("B"), Text("C")][1..] == [Text("B"), Text("C")];
    assert [Text("B"), Text("C")][1..] == [Text("C")];
    assert SumShelves(d, [Text("C")]) == 196;
    assert SumShelves(d, [Text("B"), Text("C")]) == 471;
  }
}
