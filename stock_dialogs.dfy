/** The stock-in dialog: its schema, its defaults, the values it hands to the
    stock-in page, and the item name its confirmation shows. */
module AddStockInDialog {
  import opened Lists
  import opened Data

  /** The form and the values the page receives are the same record. */
  datatype StockInValues = StockInValues(itemId: string, quantity: int, supplier: string)

  datatype Field = ItemId | Quantity | Supplier

  function Issues(v: StockInValues): (r: set<Field>)
    ensures ItemId in r <==> v.itemId == ""
    ensures Quantity in r <==> v.quantity < 1
    ensures Supplier in r <==> v.supplier == ""
  {
    (if v.itemId == "" then {ItemId} else {})
    + (if v.quantity < 1 then {Quantity} else {})
    + (if v.supplier == "" then {Supplier} else {})
  }

  const Defaults: StockInValues := StockInValues("", 1, "")

  /** The untouched form fails on the item and the supplier only. */
  lemma DefaultsRejected()
    ensures Issues(Defaults) == {ItemId, Supplier}
  {
    assert ItemId in Issues(Defaults) && Supplier in Issues(Defaults);
  }

  /** Submitting forwards the validated values unchanged, whether or not the
      id names an item; the page decides what an unknown id does. */
  function Submit(v: StockInValues): (r: Option<StockInValues>)
    ensures r.Some? <==> Issues(v) == {}
    ensures r.Some? ==> r.value == v
  {
    if Issues(v) == {} then Some(v) else None
  }
}

/** The stock-out dialog: its schema, the fixed list of purposes, the products
    it offers, its defaults and the name its confirmation shows. */
module AddStockOutDialog {
  import opened Lists
  import opened Data

  /** The form and the values the page receives are the same record; the
      page reads every field but `user`. */
  datatype StockOutValues = StockOutValues(itemId: string, quantity: int, description: string, user: string)

  datatype Field = ItemId | Quantity | Description | User

  function Issues(v: StockOutValues): (r: set<Field>)
    ensures ItemId in r <==> v.itemId == ""
    ensures Quantity in r <==> v.quantity < 1
    ensures Description in r <==> v.description == ""
    ensures User in r <==> v.user == ""
  {
    (if v.itemId == "" then {ItemId} else {})
    + (if v.quantity < 1 then {Quantity} else {})
    + (if v.description == "" then {Description} else {})
    + (if v.user == "" then {User} else {})
  }

  const Defaults: StockOutValues := StockOutValues("", 1, "", "")

  /** The untouched form fails on the product, the purpose and the user. */
  lemma DefaultsRejected()
    ensures Issues(Defaults) == {ItemId, Description, User}
  {
    assert ItemId in Issues(Defaults) && Description in Issues(Defaults) && User in Issues(Defaults);
  }

  function Submit(v: StockOutValues): (r: Option<StockOutValues>)
    ensures r.Some? <==> Issues(v) == {}
    ensures r.Some? ==> r.value == v
  {
    if Issues(v) == {} then Some(v) else None
  }

  /** The purposes the "For" field offers. */
  const Descriptions: seq<string> := [
    "Jakarta's Needs",
    "Surabaya's Needs",
    "Customer Purchases",
    "Production",
    "QC",
    "External Service",
    "Internal Service",
    "Damage"
  ]

  lemma DescriptionsDistinct()
    ensures |Descriptions| == 8
    ensures forall i, j :: 0 <= i < j < |Descriptions| ==> Descriptions[i] != Descriptions[j]
    ensures forall i :: 0 <= i < |Descriptions| ==> Descriptions[i] != ""
  {
  }

  predicate HasStock(item: InventoryItem)
  {
    item.stock > 0
  }

  /** The products offered: the items with stock left, in inventory order. */
  function SelectableProducts(items: seq<InventoryItem>): (r: seq<InventoryItem>)
    ensures forall i :: 0 <= i < |r| ==> r[i].stock > 0
    ensures forall x :: multiset(r)[x] == if x.stock > 0 then multiset(items)[x] else 0
    ensures IsSubsequence(r, items)
  {
    Filter(items, HasStock)
  }

  /** Of the seed items only the office chair, with no stock, is not offered. */
  lemma SeedSelectableProducts()
    ensures forall i :: 0 <= i < |SeedItems()| ==> (SeedItems()[i] in SelectableProducts(SeedItems()) <==> i != 3)
  {
    SeedStocks();
    OfferedIffStocked(SeedItems());
  }

  /** An item of the list is offered exactly when it has stock. */
  lemma OfferedIffStocked(items: seq<InventoryItem>)
    ensures forall i :: 0 <= i < |items| ==> (items[i] in SelectableProducts(items) <==> HasStock(items[i]))
  {
    forall i | 0 <= i < |items| ensures items[i] in SelectableProducts(items) <==> HasStock(items[i]) {
      FilterMembership(items, HasStock, items[i]);
    }
  }

  lemma SeedStocks()
    ensures |SeedItems()| == 6
    ensures forall i :: 0 <= i < |SeedItems()| ==> (HasStock(SeedItems()[i]) <==> i != 3)
  {
  }

  /** When a select field offers no options it keeps its default, the empty
      string; a form whose user select has no options therefore never passes. */
  lemma NoUserOptionsNoSubmit(v: StockOutValues, userOptions: seq<string>)
    requires v.user == "" || v.user in userOptions
    requires userOptions == []
    ensures Submit(v).None?
  {
    assert User in Issues(v);
  }

  /** The confirmation names the seed keyboard by its name and falls back
      to `Item` for an id no seed item has. */
  lemma SeedConfirmationNames()
    ensures ConfirmationName(SeedItems(), "2") == "Mechanical Keyboard"
    ensures ConfirmationName(SeedItems(), "7") == "Item"
  {
    var keyboard := SeedItems()[1];
    assert keyboard.id == "2" && keyboard.name == "Mechanical Keyboard";
    assert FindItem(SeedItems(), "2") == Some(keyboard) by {
      SeedItemIdsDistinctAndStocksNonNegative();
      FindListed(SeedItems(), 1);
    }
    assert FindItem(SeedItems(), "7").None? by {
      assert forall j :: 0 <= j < |SeedItems()| ==> SeedItems()[j].id != "7";
    }
  }
}
