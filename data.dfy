/** The records of the dashboard (inventory items, stock movements, pre-orders,
    approval requests, combobox options) and the seed tables the pages start
    from. Timestamps are opaque instants in milliseconds; the seeds that the
    source dates relative to the current clock take that clock as a parameter. */
module Data {
  import opened Lists
  import opened Text

  /** Milliseconds since the epoch. */
  type Instant = int

  const DayMs: int := 24 * 60 * 60 * 1000

  datatype StockStatus = InStock | LowStock | OutOfStock {
    function Label(): string
    {
      match this
      case InStock => "In Stock"
      case LowStock => "Low Stock"
      case OutOfStock => "Out of Stock"
    }
  }

  /** The two warehouse sites a stock-out goes to or a pre-order belongs to. */
  datatype Site = Jakarta | Surabaya {
    function Label(): string
    {
      match this
      case Jakarta => "Jakarta"
      case Surabaya => "Surabaya"
    }
  }

  datatype MovementType = In | Out

  /** The optional approval state of a stock movement. */
  datatype MovementStatus = MovementPending | MovementApproved | MovementRejected

  /** The pre-order life cycle. The record type declares only Pending and
      Fulfilled; the approvals page also assigns Approved and Rejected. */
  datatype PreOrderStatus = Pending | Approved | Rejected | Fulfilled

  /** An inventory item. `imageUrl` and `dataAiHint` may be absent from a
      stored record; `dataAiHint` is not declared on the record type but the
      edit dialog reads and writes it. */
  datatype InventoryItem = InventoryItem(
    id: string,
    name: string,
    stock: int,
    status: StockStatus,
    imageUrl: Option<string>,
    location: string,
    dataAiHint: Option<string>)

  /** A stock movement. `description` is not declared on the record type but
      the stock-out page sets it. */
  datatype Transaction = Transaction(
    id: string,
    kind: MovementType,
    item: string,
    itemId: string,
    quantity: int,
    date: Instant,
    user: string,
    status: Option<MovementStatus>,
    destination: Option<Site>,
    supplier: Option<string>,
    description: Option<string>)

  /** A pre-order line. The record type and the seed table name the buyer
      `customer`; the dialog writes, and every page reads, `company`. A record
      carries whichever of the two it was created with, so both are optional. */
  datatype PreOrder = PreOrder(
    id: string,
    company: Option<string>,
    customer: Option<string>,
    item: string,
    itemId: string,
    quantity: int,
    orderDate: Instant,
    status: PreOrderStatus,
    location: Site)

  datatype ApprovalRequest = ApprovalRequest(
    id: string,
    transactionId: string,
    item: string,
    quantity: int,
    destination: Site,
    requester: string,
    requestDate: Instant)

  /** An entry of a combobox's option list. */
  datatype ComboOption = ComboOption(value: string, caption: string)

  // ---------------------------------------------------------------------
  // Lookups by id (`Array.prototype.find`)

  /** The index of the first item whose id is `id`, or -1. */
  function IndexOfItem(items: seq<InventoryItem>, id: string): (k: int)
    ensures -1 <= k < |items|
    ensures k == -1 <==> forall j :: 0 <= j < |items| ==> items[j].id != id
    ensures k >= 0 ==> items[k].id == id && forall j :: 0 <= j < k ==> items[j].id != id
    decreases |items|
  {
    if items == [] then -1
    else if items[0].id == id then 0
    else
      var k := IndexOfItem(items[1..], id);
      if k == -1 then -1 else k + 1
  }

  /** The first item whose id is `id`, if there is one. */
  function FindItem(items: seq<InventoryItem>, id: string): (r: Option<InventoryItem>)
    ensures r.None? <==> forall j :: 0 <= j < |items| ==> items[j].id != id
    ensures r.Some? ==> r.value.id == id && r.value in items
    ensures r.Some? ==> exists k :: 0 <= k < |items| && items[k] == r.value && forall j :: 0 <= j < k ==> items[j].id != id
  {
    var k := IndexOfItem(items, id);
    if k == -1 then None else Some(items[k])
  }

  /** `itemId` names an item of `items` whose name is `name`. */
  predicate RefersTo(items: seq<InventoryItem>, itemId: string, name: string)
  {
    FindItem(items, itemId).Some? && FindItem(items, itemId).value.name == name
  }

  /** The name shown in a stock dialog's confirmation: the matched item's
      name, or `Item` when nothing matches or the name is empty (the source
      writes `find(...)?.name || 'Item'`). */
  function ConfirmationName(items: seq<InventoryItem>, id: string): (r: string)
    ensures r != ""
    ensures FindItem(items, id).None? ==> r == "Item"
    ensures FindItem(items, id).Some? && FindItem(items, id).value.name != "" ==> r == FindItem(items, id).value.name
    ensures FindItem(items, id).Some? && FindItem(items, id).value.name == "" ==> r == "Item"
  {
    match FindItem(items, id)
    case None => "Item"
    case Some(it) => if it.name == "" then "Item" else it.name
  }

  predicate IsPendingOrder(o: PreOrder)
  {
    o.status == Pending
  }

  // ---------------------------------------------------------------------
  // Seed tables

  const Placeholder: string := "https://placehold.co/100x100.png"

  function SeedItem(id: string, name: string, stock: int, status: StockStatus, location: string): InventoryItem
  {
    InventoryItem(id, name, stock, status, Some(Placeholder), location, None)
  }

  /** The six seed items, each with the placeholder image and no hint. */
  function SeedItems(): (r: seq<InventoryItem>)
    ensures |r| == 6
    ensures forall i :: 0 <= i < |r| ==> r[i].imageUrl == Some(Placeholder) && r[i].dataAiHint.None?
  {
    [
      SeedItem("1", "Wireless Mouse", 120, InStock, "R1B1T1"),
      SeedItem("2", "Mechanical Keyboard", 8, LowStock, "R1B1T2"),
      SeedItem("3", "27\" 4K Monitor", 35, InStock, "R1B1T3"),
      SeedItem("4", "Ergonomic Office Chair", 0, OutOfStock, "R1B1T4"),
      SeedItem("5", "USB-C Hub", 250, InStock, "R1B2T1"),
      SeedItem("6", "Standing Desk", 5, LowStock, "R1B2T2")
    ]
  }

  function StockInSeed(id: string, item: string, itemId: string, quantity: int, date: Instant, user: string, supplier: string): Transaction
  {
    Transaction(id, In, item, itemId, quantity, date, user, None, None, Some(supplier), None)
  }

  function StockOutSeed(id: string, item: string, itemId: string, quantity: int, date: Instant, user: string,
                        status: MovementStatus, destination: Site): Transaction
  {
    Transaction(id, Out, item, itemId, quantity, date, user, Some(status), Some(destination), None, None)
  }

  /** The five seed movements, dated one to four days before `now`. */
  function SeedTransactions(now: Instant): (r: seq<Transaction>)
    ensures |r| == 5
    ensures forall i :: 0 <= i < |r| ==> now - 4 * DayMs <= r[i].date < now
  {
    [
      StockInSeed("T001", "Wireless Mouse", "1", 50, now - 1 * DayMs, "John Doe", "TechSupplies Inc."),
      StockOutSeed("T002", "27\" 4K Monitor", "3", 5, now - 2 * DayMs, "Jane Smith", MovementApproved, Jakarta),
      StockOutSeed("T003", "Mechanical Keyboard", "2", 10, now - 2 * DayMs, "Jane Smith", MovementPending, Surabaya),
      StockInSeed("T004", "USB-C Hub", "5", 100, now - 3 * DayMs, "John Doe", "Gadgettronics"),
      StockOutSeed("T005", "Wireless Mouse", "1", 20, now - 4 * DayMs, "Mike Ross", MovementApproved, Jakarta)
    ]
  }

  /** The three seed orders, dated five to ten days before `now`, each
      with its buyer under `customer` and no company. */
  function SeedPreOrders(now: Instant): (r: seq<PreOrder>)
    ensures |r| == 3
    ensures forall i :: 0 <= i < |r| ==> now - 10 * DayMs <= r[i].orderDate < now
    ensures forall i :: 0 <= i < |r| ==> r[i].company.None? && r[i].customer.Some?
  {
    [
      PreOrder("PO-001", None, Some("Alpha Corp"), "Ergonomic Office Chair", "4", 20, now - 5 * DayMs, Pending, Jakarta),
      PreOrder("PO-002", None, Some("Beta LLC"), "Standing Desk", "6", 10, now - 7 * DayMs, Pending, Surabaya),
      PreOrder("PO-003", None, Some("Gamma Inc."), "Mechanical Keyboard", "2", 50, now - 10 * DayMs, Fulfilled, Jakarta)
    ]
  }

  /** The two seed approval requests, dated one and two days before `now`. */
  function SeedApprovalRequests(now: Instant): (r: seq<ApprovalRequest>)
    ensures |r| == 2
    ensures forall i :: 0 <= i < |r| ==> now - 2 * DayMs <= r[i].requestDate < now
  {
    [
      ApprovalRequest("AR-001", "T003", "Mechanical Keyboard", 10, Surabaya, "Jane Smith", now - 2 * DayMs),
      ApprovalRequest("AR-002", "T006", "27\" 4K Monitor", 15, Jakarta, "Mike Ross", now - 1 * DayMs)
    ]
  }

  function Loc(code: string): ComboOption
  {
    ComboOption(code, code)
  }

  /** The 31 bin codes, each captioned with its own code (stated by
      `SeedLocationsWellFormed`). */
  function SeedLocations(): (r: seq<ComboOption>)
    ensures |r| == 31
  {
    [
      Loc("R1B1T1"), Loc("R1B1T2"), Loc("R1B1T3"), Loc("R1B1T4"),
      Loc("R1B2T1"), Loc("R1B2T2"), Loc("R1B2T3"), Loc("R1B2T4"),
      Loc("R2B1T1"), Loc("R2B1T2"), Loc("R2B1T3"), Loc("R2B1T4"),
      Loc("R2B2T1"), Loc("R2B2T2"), Loc("R2B2T3"), Loc("R2B2T4"),
      Loc("R3B1T1"), Loc("R3B1T2"), Loc("R3B1T3"), Loc("R3B1T4"),
      Loc("R3B2T1"), Loc("R3B2T2"), Loc("R3B2T3"), Loc("R3B2T4"),
      Loc("R3B3T1"), Loc("R3B3T2"), Loc("R3B3T3"), Loc("R3B3T4"),
      Loc("L4B1T1"), Loc("L4B1T2"), Loc("L4B1T3")
    ]
  }

  // ---------------------------------------------------------------------
  // Consistency facts about the seeds

  lemma SeedItemIdsDistinctAndStocksNonNegative()
    ensures forall i, j :: 0 <= i < j < |SeedItems()| ==> SeedItems()[i].id != SeedItems()[j].id
    ensures forall i :: 0 <= i < |SeedItems()| ==> SeedItems()[i].stock >= 0
  {
  }

  /** In a list with distinct ids, looking up an item's id finds that item. */
  lemma FindListed(items: seq<InventoryItem>, k: nat)
    requires k < |items|
    requires forall i, j :: 0 <= i < j < |items| ==> items[i].id != items[j].id
    ensures FindItem(items, items[k].id) == Some(items[k])
  {
    var m := IndexOfItem(items, items[k].id);
    assert m == k;
  }

  /** Every seed movement names an existing item by id and by its name. */
  lemma SeedTransactionsReferenceItems(now: Instant)
    ensures forall i :: 0 <= i < |SeedTransactions(now)| ==>
      RefersTo(SeedItems(), SeedTransactions(now)[i].itemId, SeedTransactions(now)[i].item)
  {
    var ts := SeedTransactions(now);
    SeedItemIdsDistinctAndStocksNonNegative();
    forall i | 0 <= i < |ts| ensures RefersTo(SeedItems(), ts[i].itemId, ts[i].item) {
      var k := if i == 0 || i == 4 then 0 else if i == 1 then 2 else if i == 2 then 1 else 4;
      assert ts[i].itemId == SeedItems()[k].id && ts[i].item == SeedItems()[k].name;
      FindListed(SeedItems(), k);
    }
  }

  /** Stock-outs carry an approval status and a destination; stock-ins carry a
      supplier and no status. */
  lemma SeedMovementShapes(now: Instant)
    ensures forall t :: t in SeedTransactions(now) && t.kind == Out ==>
      t.status.Some? && t.destination.Some? && t.supplier.None?
    ensures forall t :: t in SeedTransactions(now) && t.kind == In ==>
      t.supplier.Some? && t.status.None? && t.destination.None?
  {
  }

  lemma SeedPreOrdersReferenceItems(now: Instant)
    ensures forall i :: 0 <= i < |SeedPreOrders(now)| ==>
      RefersTo(SeedItems(), SeedPreOrders(now)[i].itemId, SeedPreOrders(now)[i].item) && SeedPreOrders(now)[i].quantity > 0
  {
    var os := SeedPreOrders(now);
    SeedItemIdsDistinctAndStocksNonNegative();
    forall i | 0 <= i < |os| ensures RefersTo(SeedItems(), os[i].itemId, os[i].item) && os[i].quantity > 0 {
      var k := if i == 0 then 3 else if i == 1 then 5 else 1;
      assert os[i].itemId == SeedItems()[k].id && os[i].item == SeedItems()[k].name;
      FindListed(SeedItems(), k);
    }
  }

  /** AR-001 points at a seed movement; AR-002 points at `T006`, which is not
      one, so a dangling reference is part of the seed data. */
  lemma SeedApprovalReferences(now: Instant)
    ensures exists t :: t in SeedTransactions(now) && t.id == SeedApprovalRequests(now)[0].transactionId
    ensures forall t :: t in SeedTransactions(now) ==> t.id != SeedApprovalRequests(now)[1].transactionId
  {
    assert SeedTransactions(now)[2].id == "T003";
  }

  predicate ValuesDistinct(options: seq<ComboOption>)
  {
    forall i, j :: 0 <= i < j < |options| ==> options[i].value != options[j].value
  }

  predicate HasValue(options: seq<ComboOption>, v: string)
  {
    exists i :: 0 <= i < |options| && options[i].value == v
  }

  /** A numeric key read off the digits of a six-character location code
      (`R1B2T3` gives the char codes of 1, 2 and 3 as three places). */
  function LocationKey(code: string): int
  {
    if |code| < 6 then 0 else (code[1] as int) * 10000 + (code[3] as int) * 100 + code[5] as int
  }

  lemma {:induction false} KeysIncrease(options: seq<ComboOption>, i: nat, j: nat)
    requires forall k :: 0 <= k < |options| - 1 ==> LocationKey(options[k].value) < LocationKey(options[k + 1].value)
    requires i < j < |options|
    ensures LocationKey(options[i].value) < LocationKey(options[j].value)
    decreases j - i
  {
    if i + 1 < j {
      KeysIncrease(options, i + 1, j);
    }
  }

  /** The seed location codes are listed in increasing key order, checked
      three neighbours at a time. */
  lemma SeedLocationKeysIncrease1()
    ensures forall k :: 0 <= k < 3 ==>
      LocationKey(SeedLocations()[k].value) < LocationKey(SeedLocations()[k + 1].value)
  {
    var s := SeedLocations();
    assert LocationKey(s[0].value) < LocationKey(s[1].value);
    assert LocationKey(s[1].value) < LocationKey(s[2].value);
    assert LocationKey(s[2].value) < LocationKey(s[3].value);
  }

  lemma SeedLocationKeysIncrease2()
    ensures forall k :: 3 <= k < 6 ==>
      LocationKey(SeedLocations()[k].value) < LocationKey(SeedLocations()[k + 1].value)
  {
    var s := SeedLocations();
    assert LocationKey(s[3].value) < LocationKey(s[4].value);
    assert LocationKey(s[4].value) < LocationKey(s[5].value);
    assert LocationKey(s[5].value) < LocationKey(s[6].value);
  }

  lemma SeedLocationKeysIncrease3()
    ensures forall k :: 6 <= k < 9 ==>
      LocationKey(SeedLocations()[k].value) < LocationKey(SeedLocations()[k + 1].value)
  {
    var s := SeedLocations();
    assert LocationKey(s[6].value) < LocationKey(s[7].value);
    assert LocationKey(s[7].value) < LocationKey(s[8].value);
    assert LocationKey(s[8].value) < LocationKey(s[9].value);
  }

  lemma SeedLocationKeysIncrease4()
    ensures forall k :: 9 <= k < 12 ==>
      LocationKey(SeedLocations()[k].value) < LocationKey(SeedLocations()[k + 1].value)
  {
    var s := SeedLocations();
    assert LocationKey(s[9].value) < LocationKey(s[10].value);
    assert LocationKey(s[10].value) < LocationKey(s[11].value);
    assert LocationKey(s[11].value) < LocationKey(s[12].value);
  }

  lemma SeedLocationKeysIncrease5()
    ensures forall k :: 12 <= k < 15 ==>
      LocationKey(SeedLocations()[k].value) < LocationKey(SeedLocations()[k + 1].value)
  {
    var s := SeedLocations();
    assert LocationKey(s[12].value) < LocationKey(s[13].value);
    assert LocationKey(s[13].value) < LocationKey(s[14].value);
    assert LocationKey(s[14].value) < LocationKey(s[15].value);
  }

  lemma SeedLocationKeysIncrease6()
    ensures forall k :: 15 <= k < 18 ==>
      LocationKey(SeedLocations()[k].value) < LocationKey(SeedLocations()[k + 1].value)
  {
    var s := SeedLocations();
    assert LocationKey(s[15].value) < LocationKey(s[16].value);
    assert LocationKey(s[16].value) < LocationKey(s[17].value);
    assert LocationKey(s[17].value) < LocationKey(s[18].value);
  }

  lemma SeedLocationKeysIncrease7()
    ensures forall k :: 18 <= k < 21 ==>
      LocationKey(SeedLocations()[k].value) < LocationKey(SeedLocations()[k + 1].value)
  {
    var s := SeedLocations();
    assert LocationKey(s[18].value) < LocationKey(s[19].value);
    assert LocationKey(s[19].value) < LocationKey(s[20].value);
    assert LocationKey(s[20].value) < LocationKey(s[21].value);
  }

  lemma SeedLocationKeysIncrease8()
    ensures forall k :: 21 <= k < 24 ==>
      LocationKey(SeedLocations()[k].value) < LocationKey(SeedLocations()[k + 1].value)
  {
    var s := SeedLocations();
    assert LocationKey(s[21].value) < LocationKey(s[22].value);
    assert LocationKey(s[22].value) < LocationKey(s[23].value);
    assert LocationKey(s[23].value) < LocationKey(s[24].value);
  }

  lemma SeedLocationKeysIncrease9()
    ensures forall k :: 24 <= k < 27 ==>
      LocationKey(SeedLocations()[k].value) < LocationKey(SeedLocations()[k + 1].value)
  {
    var s := SeedLocations();
    assert LocationKey(s[24].value) < LocationKey(s[25].value);
    assert LocationKey(s[25].value) < LocationKey(s[26].value);
    assert LocationKey(s[26].value) < LocationKey(s[27].value);
  }

  lemma SeedLocationKeysIncrease10()
    ensures forall k :: 27 <= k < 30 ==>
      LocationKey(SeedLocations()[k].value) < LocationKey(SeedLocations()[k + 1].value)
  {
    var s := SeedLocations();
    assert LocationKey(s[27].value) < LocationKey(s[28].value);
    assert LocationKey(s[28].value) < LocationKey(s[29].value);
    assert LocationKey(s[29].value) < LocationKey(s[30].value);
  }

  lemma SeedLocationKeysIncrease()
    ensures forall k :: 0 <= k < |SeedLocations()| - 1 ==>
      LocationKey(SeedLocations()[k].value) < LocationKey(SeedLocations()[k + 1].value)
  {
    SeedLocationKeysIncrease1();
    SeedLocationKeysIncrease2();
    SeedLocationKeysIncrease3();
    SeedLocationKeysIncrease4();
    SeedLocationKeysIncrease5();
    SeedLocationKeysIncrease6();
    SeedLocationKeysIncrease7();
    SeedLocationKeysIncrease8();
    SeedLocationKeysIncrease9();
    SeedLocationKeysIncrease10();
  }

  lemma SeedLocationsWellFormed()
    ensures ValuesDistinct(SeedLocations())
    ensures forall i :: 0 <= i < |SeedLocations()| ==> SeedLocations()[i].caption == SeedLocations()[i].value
  {
    SeedLocationKeysIncrease();
    forall i, j | 0 <= i < j < |SeedLocations()| ensures SeedLocations()[i].value != SeedLocations()[j].value {
      KeysIncrease(SeedLocations(), i, j);
    }
  }

  lemma SeedItemLocationsListed()
    ensures forall i :: 0 <= i < |SeedItems()| ==> HasValue(SeedLocations(), SeedItems()[i].location)
  {
    var locations, items := SeedLocations(), SeedItems();
    forall i | 0 <= i < |items| ensures HasValue(locations, items[i].location) {
      assert locations[i].value == items[i].location;
    }
  }

  // ---------------------------------------------------------------------
  // Record ids

  function TransactionIds(ts: seq<Transaction>): (ids: seq<string>)
    ensures |ids| == |ts|
    ensures forall i :: 0 <= i < |ts| ==> ids[i] == ts[i].id
  {
    seq(|ts|, i requires 0 <= i < |ts| => ts[i].id)
  }

  function PreOrderIds(orders: seq<PreOrder>): (ids: seq<string>)
    ensures |ids| == |orders|
    ensures forall i :: 0 <= i < |orders| ==> ids[i] == orders[i].id
  {
    seq(|orders|, i requires 0 <= i < |orders| => orders[i].id)
  }

  lemma TransactionIdsPrepend(t: Transaction, ts: seq<Transaction>)
    ensures TransactionIds([t] + ts) == [t.id] + TransactionIds(ts)
  {
    var ids, ids' := TransactionIds(ts), TransactionIds([t] + ts);
    assert forall i :: 1 <= i < |ids'| ==> ids'[i] == ids[i - 1];
  }

  lemma PreOrderIdsPrepend(o: PreOrder, orders: seq<PreOrder>)
    ensures PreOrderIds([o] + orders) == [o.id] + PreOrderIds(orders)
  {
    var ids, ids' := PreOrderIds(orders), PreOrderIds([o] + orders);
    assert forall i :: 1 <= i < |ids'| ==> ids'[i] == ids[i - 1];
  }

  /** Putting in front a movement numbered `length + 1` keeps the list
      serially numbered, so its ids stay distinct. */
  lemma NumberedTransactionPrepend(t: Transaction, ts: seq<Transaction>, serials: seq<nat>)
    requires SerialNumbered(TransactionIds(ts), "T", serials)
    requires t.id == SerialId("T", |ts| + 1)
    ensures SerialNumbered(TransactionIds([t] + ts), "T", [|ts| + 1] + serials)
    ensures PairwiseDistinct(TransactionIds([t] + ts))
  {
    TransactionIdsPrepend(t, ts);
    SerialNumberedPrepend(TransactionIds(ts), "T", serials);
    SerialNumberedDistinct([t.id] + TransactionIds(ts), "T", [|ts| + 1] + serials);
  }

  /** The same for a pre-order numbered `length + 1`. */
  lemma NumberedPreOrderPrepend(o: PreOrder, orders: seq<PreOrder>, serials: seq<nat>)
    requires SerialNumbered(PreOrderIds(orders), "PO-", serials)
    requires o.id == SerialId("PO-", |orders| + 1)
    ensures SerialNumbered(PreOrderIds([o] + orders), "PO-", [|orders| + 1] + serials)
    ensures PairwiseDistinct(PreOrderIds([o] + orders))
  {
    PreOrderIdsPrepend(o, orders);
    SerialNumberedPrepend(PreOrderIds(orders), "PO-", serials);
    SerialNumberedDistinct([o.id] + PreOrderIds(orders), "PO-", [|orders| + 1] + serials);
  }

  /** The seed movements are numbered `T001` to `T005`. */
  lemma SeedTransactionsNumbered(now: Instant)
    ensures SerialNumbered(TransactionIds(SeedTransactions(now)), "T", [1, 2, 3, 4, 5])
  {
    var ids := TransactionIds(SeedTransactions(now));
    forall i | 0 <= i < 5 ensures ids[i] == "T" + ['0', '0', DigitChar(i + 1)] {
    }
    CountingUpNumbered(ids, "T", [1, 2, 3, 4, 5]);
  }

  /** The seed pre-orders are numbered `PO-001` to `PO-003`. */
  lemma SeedPreOrdersNumbered(now: Instant)
    ensures SerialNumbered(PreOrderIds(SeedPreOrders(now)), "PO-", [1, 2, 3])
  {
    var ids := PreOrderIds(SeedPreOrders(now));
    forall i | 0 <= i < 3 ensures ids[i] == "PO-" + ['0', '0', DigitChar(i + 1)] {
    }
    CountingUpNumbered(ids, "PO-", [1, 2, 3]);
  }

}
