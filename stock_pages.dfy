/** The stock-in page: its own copy of the movement list, the movement
    recorded for a delivery, and the list of deliveries it shows. The
    inventory it looks items up in is the fixed seed list, and recording a
    delivery does not change any item's stock. */
module StockInPage {
  import opened Lists
  import opened Text
  import opened Data
  import opened AddStockInDialog

  /** The movement recorded for a delivery of `item` when the list holds
      `count` movements: id `T` and `count + 1` padded to three digits, the
      item's name, the form's id, quantity and supplier, user `Admin`, and no
      approval status, destination or description. */
  function NewStockIn(item: InventoryItem, v: StockInValues, count: nat, now: Instant): (t: Transaction)
    ensures t.id == SerialId("T", count + 1) && t.kind == In && t.date == now && t.user == "Admin"
    ensures t.item == item.name && t.itemId == v.itemId && t.quantity == v.quantity
    ensures t.supplier == Some(v.supplier)
    ensures t.status.None? && t.destination.None? && t.description.None?
  {
    Transaction(SerialId("T", count + 1), In, item.name, v.itemId, v.quantity, now, "Admin",
                None, None, Some(v.supplier), None)
  }

  /** The list after a delivery: unchanged when the id names no item of the
      inventory, otherwise the new movement in front of the old list. */
  function RecordStockIn(inventory: seq<InventoryItem>, ts: seq<Transaction>, v: StockInValues, now: Instant): (r: seq<Transaction>)
    ensures FindItem(inventory, v.itemId).None? ==> r == ts
    ensures FindItem(inventory, v.itemId).Some? ==> |r| == |ts| + 1 && r[1..] == ts
    ensures FindItem(inventory, v.itemId).Some? ==> r[0] == NewStockIn(FindItem(inventory, v.itemId).value, v, |ts|, now)
  {
    match FindItem(inventory, v.itemId)
    case None => ts
    case Some(item) => [NewStockIn(item, v, |ts|, now)] + ts
  }

  predicate IsStockIn(t: Transaction)
  {
    t.kind == In
  }

  /** The movements the page lists: the deliveries, in list order. */
  function StockInTransactions(ts: seq<Transaction>): (r: seq<Transaction>)
    ensures forall i :: 0 <= i < |r| ==> r[i].kind == In
    ensures forall x :: multiset(r)[x] == if x.kind == In then multiset(ts)[x] else 0
    ensures IsSubsequence(r, ts)
  {
    Filter(ts, IsStockIn)
  }

  /** A recorded delivery shows at the top of the page's list. */
  lemma RecordedDeliveryIsListed(inventory: seq<InventoryItem>, ts: seq<Transaction>, v: StockInValues, now: Instant)
    ensures var r := RecordStockIn(inventory, ts, v, now);
      StockInTransactions(r) == if r == ts then StockInTransactions(ts) else [r[0]] + StockInTransactions(ts)
  {
    var r := RecordStockIn(inventory, ts, v, now);
    if r != ts {
      assert r == [r[0]] + ts;
      FilterPrepend(r[0], ts, IsStockIn);
    }
  }

  /** Every movement of the list names an item of the inventory by id and
      name. */
  ghost predicate MovementsReferItems(inventory: seq<InventoryItem>, ts: seq<Transaction>)
  {
    forall i :: 0 <= i < |ts| ==> RefersTo(inventory, ts[i].itemId, ts[i].item)
  }

  lemma RecordKeepsReferences(inventory: seq<InventoryItem>, ts: seq<Transaction>, v: StockInValues, now: Instant)
    requires MovementsReferItems(inventory, ts)
    ensures MovementsReferItems(inventory, RecordStockIn(inventory, ts, v, now))
  {
    var r := RecordStockIn(inventory, ts, v, now);
    if r != ts {
      assert forall i :: 1 <= i < |r| ==> r[i] == ts[i - 1];
    }
  }

  /** A valid form for an id the inventory lacks passes the dialog, which
      confirms it under the name `Item`, and the page records nothing. */
  lemma UnknownItemConfirmedButDropped(inventory: seq<InventoryItem>, ts: seq<Transaction>, v: StockInValues, now: Instant)
    requires Issues(v) == {}
    requires forall j :: 0 <= j < |inventory| ==> inventory[j].id != v.itemId
    ensures Submit(v) == Some(v)
    ensures ConfirmationName(inventory, v.itemId) == "Item"
    ensures RecordStockIn(inventory, ts, Submit(v).value, now) == ts
  {
  }

  /** With the five seed movements loaded, the first new one is `T006`, the
      id the second seed approval request points at. */
  lemma FirstNewIdAfterSeeds(item: InventoryItem, v: StockInValues, now: Instant)
    ensures NewStockIn(item, v, |SeedTransactions(now)|, now).id == "T006"
    ensures NewStockIn(item, v, |SeedTransactions(now)|, now).id == SeedApprovalRequests(now)[1].transactionId
  {
    SmallSerial("T", 6);
  }

  /** The page state: the fixed inventory it looks items up in, the movement
      list, and, as ghost state, the serial number behind each id. */
  class StockInLedger {
    const inventory: seq<InventoryItem>
    var transactions: seq<Transaction>
    ghost var serials: seq<nat>

    ghost predicate Valid()
      reads this
    {
      SerialNumbered(TransactionIds(transactions), "T", serials)
    }

    constructor (now: Instant)
      ensures inventory == SeedItems() && transactions == SeedTransactions(now)
      ensures Valid()
    {
      inventory := SeedItems();
      transactions := SeedTransactions(now);
      serials := [1, 2, 3, 4, 5];
      SeedTransactionsNumbered(now);
    }

    /** Records a delivery; an unknown item id returns early and changes
        nothing. The ids stay distinct either way. */
    method AddStockIn(v: StockInValues, now: Instant)
      requires Valid()
      modifies this
      ensures transactions == RecordStockIn(inventory, old(transactions), v, now)
      ensures Valid() && PairwiseDistinct(TransactionIds(transactions))
    {
      var found := FindItem(inventory, v.itemId);
      if found.None? {
        SerialNumberedDistinct(TransactionIds(transactions), "T", serials);
        return;
      }
      var t := NewStockIn(found.value, v, |transactions|, now);
      NumberedTransactionPrepend(t, transactions, serials);
      serials := [|transactions| + 1] + serials;
      transactions := [t] + transactions;
    }
  }
}

/** The stock-out page: its own copy of the movement list, the movement
    recorded for an outgoing delivery, and the list of those it shows. The
    page neither checks nor lowers the item's stock, and it ignores the user
    the form asks for. */
module StockOutPage {
  import opened Lists
  import opened Text
  import opened Data
  import opened AddStockOutDialog

  /** The movement recorded when the list holds `count` movements: id `T`
      and `count + 1` padded to three digits, the item's name, the form's id,
      quantity and purpose, user `Admin`, and no approval status, destination
      or supplier. */
  function NewStockOut(item: InventoryItem, v: StockOutValues, count: nat, now: Instant): (t: Transaction)
    ensures t.id == SerialId("T", count + 1) && t.kind == Out && t.date == now && t.user == "Admin"
    ensures t.item == item.name && t.itemId == v.itemId && t.quantity == v.quantity
    ensures t.description == Some(v.description)
    ensures t.status.None? && t.destination.None? && t.supplier.None?
  {
    Transaction(SerialId("T", count + 1), Out, item.name, v.itemId, v.quantity, now, "Admin",
                None, None, None, Some(v.description))
  }

  function RecordStockOut(inventory: seq<InventoryItem>, ts: seq<Transaction>, v: StockOutValues, now: Instant): (r: seq<Transaction>)
    ensures FindItem(inventory, v.itemId).None? ==> r == ts
    ensures FindItem(inventory, v.itemId).Some? ==> |r| == |ts| + 1 && r[1..] == ts
    ensures FindItem(inventory, v.itemId).Some? ==> r[0] == NewStockOut(FindItem(inventory, v.itemId).value, v, |ts|, now)
  {
    match FindItem(inventory, v.itemId)
    case None => ts
    case Some(item) => [NewStockOut(item, v, |ts|, now)] + ts
  }

  /** The user picked in the form has no effect on what is recorded. */
  lemma UserIsIgnored(inventory: seq<InventoryItem>, ts: seq<Transaction>, v: StockOutValues, u: string, now: Instant)
    ensures RecordStockOut(inventory, ts, v.(user := u), now) == RecordStockOut(inventory, ts, v, now)
  {
  }

  /** An item with no stock left is still recorded as going out: only the
      dialog's product list keeps it from being chosen. */
  lemma EmptyItemStillRecorded(inventory: seq<InventoryItem>, ts: seq<Transaction>, v: StockOutValues, now: Instant)
    requires exists j :: 0 <= j < |inventory| && inventory[j].id == v.itemId && inventory[j].stock == 0
    ensures |RecordStockOut(inventory, ts, v, now)| == |ts| + 1
    ensures RecordStockOut(inventory, ts, v, now)[0].itemId == v.itemId
    ensures RecordStockOut(inventory, ts, v, now)[0].kind == Out
  {
  }

  predicate IsStockOut(t: Transaction)
  {
    t.kind == Out
  }

  /** The movements the page lists: the outgoing ones, in list order. */
  function StockOutTransactions(ts: seq<Transaction>): (r: seq<Transaction>)
    ensures forall i :: 0 <= i < |r| ==> r[i].kind == Out
    ensures forall x :: multiset(r)[x] == if x.kind == Out then multiset(ts)[x] else 0
    ensures IsSubsequence(r, ts)
  {
    Filter(ts, IsStockOut)
  }

  lemma RecordedStockOutIsListed(inventory: seq<InventoryItem>, ts: seq<Transaction>, v: StockOutValues, now: Instant)
    ensures var r := RecordStockOut(inventory, ts, v, now);
      StockOutTransactions(r) == if r == ts then StockOutTransactions(ts) else [r[0]] + StockOutTransactions(ts)
  {
    var r := RecordStockOut(inventory, ts, v, now);
    if r != ts {
      assert r == [r[0]] + ts;
      FilterPrepend(r[0], ts, IsStockOut);
    }
  }

  /** A valid form for an id the inventory lacks passes the dialog, which
      confirms it under the name `Item`, and the page records nothing. */
  lemma UnknownItemConfirmedButDropped(inventory: seq<InventoryItem>, ts: seq<Transaction>, v: StockOutValues, now: Instant)
    requires Issues(v) == {}
    requires forall j :: 0 <= j < |inventory| ==> inventory[j].id != v.itemId
    ensures Submit(v) == Some(v)
    ensures ConfirmationName(inventory, v.itemId) == "Item"
    ensures RecordStockOut(inventory, ts, Submit(v).value, now) == ts
  {
  }

  class StockOutLedger {
    const inventory: seq<InventoryItem>
    var transactions: seq<Transaction>
    ghost var serials: seq<nat>

    ghost predicate Valid()
      reads this
    {
      SerialNumbered(TransactionIds(transactions), "T", serials)
    }

    constructor (now: Instant)
      ensures inventory == SeedItems() && transactions == SeedTransactions(now)
      ensures Valid()
    {
      inventory := SeedItems();
      transactions := SeedTransactions(now);
      serials := [1, 2, 3, 4, 5];
      SeedTransactionsNumbered(now);
    }

    method AddStockOut(v: StockOutValues, now: Instant)
      requires Valid()
      modifies this
      ensures transactions == RecordStockOut(inventory, old(transactions), v, now)
      ensures Valid() && PairwiseDistinct(TransactionIds(transactions))
    {
      var found := FindItem(inventory, v.itemId);
      if found.None? {
        SerialNumberedDistinct(TransactionIds(transactions), "T", serials);
        return;
      }
      var t := NewStockOut(found.value, v, |transactions|, now);
      NumberedTransactionPrepend(t, transactions, serials);
      serials := [|transactions| + 1] + serials;
      transactions := [t] + transactions;
    }
  }
}
