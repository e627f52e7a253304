/** The dashboard chart's grouping of stock by location. The source folds the
    items into an accumulator list, adding to the entry of an already-seen
    location in place and appending an entry for a new one; the method below
    runs that loop over a sequence of entries. */
module InventoryChart {
  import opened Data
  import opened Dashboard

  datatype LocationTotal = LocationTotal(name: string, total: int)

  /** The item locations, each once, in order of first occurrence. */
  function DistinctLocations(items: seq<InventoryItem>): (locs: seq<string>)
    decreases |items|
  {
    if items == [] then []
    else
      var seen := DistinctLocations(items[..|items| - 1]);
      var loc := items[|items| - 1].location;
      if loc in seen then seen else seen + [loc]
  }

  /** The stock held at location `loc`. */
  function StockAt(items: seq<InventoryItem>, loc: string): int
    decreases |items|
  {
    if items == [] then 0
    else
      var last := items[|items| - 1];
      StockAt(items[..|items| - 1], loc) + (if last.location == loc then last.stock else 0)
  }

  function Names(entries: seq<LocationTotal>): (names: seq<string>)
    ensures |names| == |entries|
    ensures forall i :: 0 <= i < |entries| ==> names[i] == entries[i].name
  {
    seq(|entries|, i requires 0 <= i < |entries| => entries[i].name)
  }

  function SumTotals(entries: seq<LocationTotal>): int
    decreases |entries|
  {
    if entries == [] then 0 else SumTotals(entries[..|entries| - 1]) + entries[|entries| - 1].total
  }

  predicate NoDuplicates(s: seq<string>)
  {
    forall i, j :: 0 <= i < j < |s| ==> s[i] != s[j]
  }

  /** Some item sits at `loc`. */
  ghost predicate SomeItemAt(items: seq<InventoryItem>, loc: string)
  {
    exists k :: 0 <= k < |items| && items[k].location == loc
  }

  /** The first-occurrence list has no repeats, lists exactly the item
      locations, and is no longer than the item list. */
  lemma {:induction false} DistinctLocationsSpec(items: seq<InventoryItem>)
    ensures NoDuplicates(DistinctLocations(items))
    ensures forall loc :: loc in DistinctLocations(items) <==> SomeItemAt(items, loc)
    ensures |DistinctLocations(items)| <= |items|
    decreases |items|
  {
    if items != [] {
      var init := items[..|items| - 1];
      DistinctLocationsSpec(init);
      forall loc ensures SomeItemAt(items, loc) <==> SomeItemAt(init, loc) || items[|items| - 1].location == loc
      {
        if exists k :: 0 <= k < |items| && items[k].location == loc {
          var k :| 0 <= k < |items| && items[k].location == loc;
          if k < |init| {
            assert init[k].location == loc;
          }
        }
        if exists k :: 0 <= k < |init| && init[k].location == loc {
          var k :| 0 <= k < |init| && init[k].location == loc;
          assert items[k].location == loc;
        }
      }
    }
  }

  /** A location no item has holds no stock. */
  lemma {:induction false} StockAtAbsent(items: seq<InventoryItem>, loc: string)
    requires loc !in DistinctLocations(items)
    ensures StockAt(items, loc) == 0
    decreases |items|
  {
    if items != [] {
      var init := items[..|items| - 1];
      assert DistinctLocations(init) <= DistinctLocations(items);
      StockAtAbsent(init, loc);
    }
  }

  lemma {:induction false} SumTotalsBump(entries: seq<LocationTotal>, k: nat, delta: int)
    requires k < |entries|
    ensures SumTotals(entries[k := entries[k].(total := entries[k].total + delta)]) == SumTotals(entries) + delta
    decreases |entries|
  {
    var e := entries[k := entries[k].(total := entries[k].total + delta)];
    var n := |entries|;
    if k < n - 1 {
      assert e[..n - 1] == entries[..n - 1][k := entries[k].(total := entries[k].total + delta)];
      SumTotalsBump(entries[..n - 1], k, delta);
    } else {
      assert e[..n - 1] == entries[..n - 1];
    }
  }

  /** The invariant of the fold after the first `i` items. */
  ghost predicate Grouped(items: seq<InventoryItem>, acc: seq<LocationTotal>)
  {
    && Names(acc) == DistinctLocations(items)
    && (forall j :: 0 <= j < |acc| ==> acc[j].total == StockAt(items, acc[j].name))
    && SumTotals(acc) == TotalStock(items)
  }

  /** Appending an item adds its stock to its own location only. */
  lemma StockAtSnoc(done: seq<InventoryItem>, item: InventoryItem, loc: string)
    ensures StockAt(done + [item], loc) == StockAt(done, loc) + (if item.location == loc then item.stock else 0)
  {
    var next := done + [item];
    assert next[..|next| - 1] == done;
  }

  lemma TotalStockSnoc(done: seq<InventoryItem>, item: InventoryItem)
    ensures TotalStock(done + [item]) == TotalStock(done) + item.stock
  {
    var next := done + [item];
    assert next[..|next| - 1] == done;
  }

  /** Appending an item of an already-seen location: the first-occurrence
      list stays, so bumping that location's entry keeps the invariant. */
  lemma {:induction false} GroupedBump(acc: seq<LocationTotal>, done: seq<InventoryItem>, item: InventoryItem, k: nat)
    requires Grouped(done, acc)
    requires k < |acc| && acc[k].name == item.location
    ensures Grouped(done + [item], acc[k := acc[k].(total := acc[k].total + item.stock)])
  {
    var next := done + [item];
    var acc' := acc[k := acc[k].(total := acc[k].total + item.stock)];
    assert next[..|next| - 1] == done;
    assert item.location in DistinctLocations(done) by {
      assert Names(acc)[k] == item.location;
    }
    assert Names(acc') == Names(acc);
    DistinctLocationsSpec(done);
    forall j | 0 <= j < |acc'| ensures acc'[j].total == StockAt(next, acc'[j].name) {
      StockAtSnoc(done, item, acc'[j].name);
      if j != k {
        assert Names(acc)[j] != Names(acc)[k];
      }
    }
    SumTotalsBump(acc, k, item.stock);
    TotalStockSnoc(done, item);
  }

  /** Appending an item of a new location: a new entry at the end, holding
      the item's stock, keeps the invariant. */
  lemma {:induction false} GroupedAppend(acc: seq<LocationTotal>, done: seq<InventoryItem>, item: InventoryItem)
    requires Grouped(done, acc)
    requires forall j :: 0 <= j < |acc| ==> acc[j].name != item.location
    ensures Grouped(done + [item], acc + [LocationTotal(item.location, item.stock)])
  {
    var next := done + [item];
    var acc' := acc + [LocationTotal(item.location, item.stock)];
    assert next[..|next| - 1] == done;
    assert item.location !in Names(acc);
    StockAtAbsent(done, item.location);
    assert Names(acc') == Names(acc) + [item.location];
    assert acc'[..|acc'| - 1] == acc;
    forall j | 0 <= j < |acc'| ensures acc'[j].total == StockAt(next, acc'[j].name) {
      StockAtSnoc(done, item, acc'[j].name);
      if j < |acc| {
        assert acc'[j] == acc[j];
      }
    }
    TotalStockSnoc(done, item);
  }

  /** One step of the fold: add the item's stock to its location's entry, or
      append a new entry when the location has not been seen. */
  method AddToGroup(acc: seq<LocationTotal>, ghost done: seq<InventoryItem>, item: InventoryItem)
    returns (acc': seq<LocationTotal>)
    requires Grouped(done, acc)
    ensures Grouped(done + [item], acc')
  {
    var k := 0;
    while k < |acc| && acc[k].name != item.location
      invariant 0 <= k <= |acc|
      invariant forall j :: 0 <= j < k ==> acc[j].name != item.location
    {
      k := k + 1;
    }
    if k < |acc| {
      acc' := acc[k := acc[k].(total := acc[k].total + item.stock)];
      GroupedBump(acc, done, item, k);
    } else {
      acc' := acc + [LocationTotal(item.location, item.stock)];
      GroupedAppend(acc, done, item);
    }
  }

  /** The chart data: one entry per distinct location, in order of first
      occurrence, each holding the stock at that location; the totals add up
      to the total stock. */
  method StockByLocation(items: seq<InventoryItem>) returns (data: seq<LocationTotal>)
    ensures Names(data) == DistinctLocations(items)
    ensures NoDuplicates(Names(data))
    ensures forall k :: 0 <= k < |items| ==> items[k].location in Names(data)
    ensures forall j :: 0 <= j < |data| ==> data[j].total == StockAt(items, data[j].name)
    ensures SumTotals(data) == TotalStock(items)
    ensures |data| <= |items|
  {
    data := [];
    var i := 0;
    while i < |items|
      invariant 0 <= i <= |items|
      invariant Grouped(items[..i], data)
    {
      assert items[..i + 1] == items[..i] + [items[i]];
      data := AddToGroup(data, items[..i], items[i]);
      i := i + 1;
    }
    assert items[..i] == items;
    DistinctLocationsSpec(items);
  }
}
