/** The create-pre-order dialog: its form schema, its default values, and the
    draft it hands to the pre-orders page after looking the item up. */
module AddPreOrderDialog {
  import opened Lists
  import opened Data

  /** What the form holds. The company is picked from a list that is not part
      of this model, so any string may arrive here. */
  datatype PreOrderForm = PreOrderForm(company: string, itemId: string, quantity: int)

  datatype Field = Company | ItemId | Quantity

  /** The fields the schema rejects. */
  function Issues(form: PreOrderForm): (r: set<Field>)
    ensures Company in r <==> form.company == ""
    ensures ItemId in r <==> form.itemId == ""
    ensures Quantity in r <==> form.quantity < 1
  {
    (if form.company == "" then {Company} else {})
    + (if form.itemId == "" then {ItemId} else {})
    + (if form.quantity < 1 then {Quantity} else {})
  }

  const Defaults: PreOrderForm := PreOrderForm("", "", 1)

  /** The untouched form fails on the company and the item, not on the
      quantity of one. */
  lemma DefaultsRejected()
    ensures Issues(Defaults) == {Company, ItemId}
  {
    assert Company in Issues(Defaults) && ItemId in Issues(Defaults);
  }

  /** What reaches the page: the record without its id, date, status and
      location, which the page fills in. */
  datatype PreOrderDraft = PreOrderDraft(company: string, item: string, itemId: string, quantity: int)

  /** Submitting: nothing is emitted when a field fails or when the id
      matches no inventory item; otherwise the draft carries the company, the
      matched item's name, the id and the quantity. */
  function Submit(items: seq<InventoryItem>, form: PreOrderForm): (r: Option<PreOrderDraft>)
    ensures r.Some? <==> Issues(form) == {} && exists j :: 0 <= j < |items| && items[j].id == form.itemId
    ensures r.Some? ==> r.value.company == form.company && r.value.itemId == form.itemId
    ensures r.Some? ==> r.value.quantity == form.quantity
    ensures r.Some? ==> r.value.item == FindItem(items, form.itemId).value.name
  {
    if Issues(form) != {} then None
    else
      match FindItem(items, form.itemId)
      case None => None
      case Some(it) => Some(PreOrderDraft(form.company, it.name, form.itemId, form.quantity))
  }

  /** A draft from the dialog names an existing item by its id and its name,
      has a company, and orders at least one unit. */
  lemma SubmittedDraftIsSound(items: seq<InventoryItem>, form: PreOrderForm)
    requires Submit(items, form).Some?
    ensures var d := Submit(items, form).value;
      RefersTo(items, d.itemId, d.item) && d.company != "" && d.quantity >= 1
  {
    assert Company !in Issues(form) && Quantity !in Issues(form);
  }
}
