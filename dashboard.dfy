/** The dashboard's summary figures over the loaded collections. */
module Dashboard {
  import opened Lists
  import opened Data
  import opened InventoryPage

  /** The sum of all stocks, accumulated left to right as `reduce` does. */
  function TotalStock(items: seq<InventoryItem>): (total: int)
    ensures items == [] ==> total == 0
    ensures (forall i :: 0 <= i < |items| ==> items[i].stock >= 0) ==> total >= 0
    decreases |items|
  {
    if items == [] then 0 else TotalStock(items[..|items| - 1]) + items[|items| - 1].stock
  }

  /** Summing two stretches of items one after the other adds their totals. */
  lemma {:induction false} TotalStockAppend(a: seq<InventoryItem>, b: seq<InventoryItem>)
    ensures TotalStock(a + b) == TotalStock(a) + TotalStock(b)
    decreases |b|
  {
    if b == [] {
      assert a + b == a;
    } else {
      var ab := a + b;
      assert ab[..|ab| - 1] == a + b[..|b| - 1];
      TotalStockAppend(a, b[..|b| - 1]);
    }
  }

  /** The number of pre-orders still waiting for a decision. */
  function PendingPreOrders(orders: seq<PreOrder>): (n: nat)
    ensures n <= |orders|
    ensures n == 0 <==> forall i :: 0 <= i < |orders| ==> orders[i].status != Pending
  {
    var pending := Filter(orders, IsPendingOrder);
    assert forall o :: o in pending <==> o in orders && IsPendingOrder(o) by {
      forall o ensures o in pending <==> o in orders && IsPendingOrder(o) {
        FilterMembership(orders, IsPendingOrder, o);
      }
    }
    assert forall i :: 0 <= i < |orders| ==> orders[i] in orders;
    |pending|
  }

  predicate IsLowOnStock(item: InventoryItem)
  {
    item.stock < LowStockThreshold
  }

  /** The number of items with fewer than ten units, out-of-stock ones included. */
  function LowStockItems(items: seq<InventoryItem>): (n: nat)
    ensures n <= |items|
  {
    |Filter(items, IsLowOnStock)|
  }

  predicate NotInStock(item: InventoryItem)
  {
    DeriveStatus(item.stock) != InStock
  }

  /** The raw `< 10` count is the count of items whose derived status is Low
      Stock or Out of Stock: both kinds are counted. */
  lemma LowStockMeansNotInStock(items: seq<InventoryItem>)
    ensures LowStockItems(items) == |Filter(items, NotInStock)|
  {
    FilterPointwise(items, IsLowOnStock, NotInStock);
  }

  /** The first five transactions (all of them when there are fewer), in order. */
  function RecentTransactions(ts: seq<Transaction>): (r: seq<Transaction>)
    ensures |r| == if |ts| < 5 then |ts| else 5
    ensures forall i :: 0 <= i < |r| ==> r[i] == ts[i]
  {
    if |ts| < 5 then ts else ts[..5]
  }

  /** Stocks 120, 8 and 0 give a total of 128 and two low-stock items. */
  lemma DashboardExample(a: InventoryItem, b: InventoryItem, c: InventoryItem)
    requires a.stock == 120 && b.stock == 8 && c.stock == 0
    ensures TotalStock([a, b, c]) == 128
    ensures LowStockItems([a, b, c]) == 2
  {
    assert [a, b, c][..2] == [a, b];
    assert [a, b][..1] == [a];
    assert [a][..0] == [];
    assert TotalStock([a]) == 120;
    assert TotalStock([a, b]) == 128;
  }
}
