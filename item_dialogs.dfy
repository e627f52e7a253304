/** The add-item dialog: its form schema, its default values and the values
    it hands to the inventory page. */
module AddItemDialog {
  import opened Lists
  import opened Data
  import opened InventoryPage

  /** What the form holds; `location` is unset until a choice is made. */
  datatype AddItemForm = AddItemForm(name: string, imageUrl: Option<string>, stock: int, location: Option<string>)

  datatype Field = Name | ImageUrl | Stock | Location

  /** The fields the schema rejects. */
  function Issues(form: AddItemForm, isUrl: string -> bool): (r: set<Field>)
    ensures Name in r <==> form.name == ""
    ensures ImageUrl in r <==> !ImageUrlAccepted(form.imageUrl, isUrl)
    ensures Stock in r <==> form.stock < 0
    ensures Location in r <==> form.location.None? || form.location.value !in LocationChoices
  {
    (if form.name == "" then {Name} else {})
    + (if ImageUrlAccepted(form.imageUrl, isUrl) then {} else {ImageUrl})
    + (if form.stock < 0 then {Stock} else {})
    + (if form.location.Some? && form.location.value in LocationChoices then {} else {Location})
  }

  const Defaults: AddItemForm := AddItemForm("", Some(""), 0, None)

  /** The untouched form fails on the name and the location only: the empty
      image URL and the zero stock are accepted. */
  lemma DefaultsRejected(isUrl: string -> bool)
    ensures Issues(Defaults, isUrl) == {Name, Location}
  {
    assert ImageUrlAccepted(Defaults.imageUrl, isUrl);
  }

  /** Submitting: nothing reaches the page unless every field passes; then the
      validated fields are forwarded unchanged, without an id or a status. */
  function Submit(form: AddItemForm, isUrl: string -> bool): (r: Option<NewItemValues>)
    ensures r.Some? <==> Issues(form, isUrl) == {}
    ensures r.Some? ==> r.value.name == form.name && r.value.imageUrl == form.imageUrl
    ensures r.Some? ==> r.value.stock == form.stock && Some(r.value.location) == form.location
  {
    if Issues(form, isUrl) == {} then
      Some(NewItemValues(form.name, form.imageUrl, form.stock, form.location.value))
    else
      assert Issues(form, isUrl) != {};
      None
  }

  /** An item added through the dialog has a non-empty name, a stock of at
      least zero, one of the offered locations, and the status its stock
      implies; a low-stock item so added holds between one and nine units. */
  lemma AddedItemIsConsistent(form: AddItemForm, isUrl: string -> bool, assignedId: string)
    requires Submit(form, isUrl).Some?
    ensures var item := HandleAddItem(Submit(form, isUrl).value, assignedId);
      && item.name != "" && item.stock >= 0 && item.location in LocationChoices
      && StatusMatchesStock(item)
      && (item.status == LowStock ==> 1 <= item.stock <= 9)
  {
    var v := Submit(form, isUrl).value;
    assert Name !in Issues(form, isUrl) && Stock !in Issues(form, isUrl) && Location !in Issues(form, isUrl);
  }
}

/** The edit-item dialog: its schema, the initial form values taken from the
    item, and the record it hands back with a re-derived status. */
module EditItemDialog {
  import opened Lists
  import opened Data
  import opened InventoryPage

  datatype EditItemForm = EditItemForm(
    name: string,
    imageUrl: Option<string>,
    stock: int,
    location: string,
    dataAiHint: Option<string>)

  datatype Field = Name | ImageUrl | Stock | Location

  /** The fields the schema rejects; the image hint is optional free text. */
  function Issues(form: EditItemForm, isUrl: string -> bool): (r: set<Field>)
    ensures Name in r <==> form.name == ""
    ensures ImageUrl in r <==> !ImageUrlAccepted(form.imageUrl, isUrl)
    ensures Stock in r <==> form.stock < 0
    ensures Location in r <==> form.location !in LocationChoices
  {
    (if form.name == "" then {Name} else {})
    + (if ImageUrlAccepted(form.imageUrl, isUrl) then {} else {ImageUrl})
    + (if form.stock < 0 then {Stock} else {})
    + (if form.location in LocationChoices then {} else {Location})
  }

  /** The form opens on the item's current fields. */
  function InitialValues(item: InventoryItem): (form: EditItemForm)
    ensures form.name == item.name && form.imageUrl == item.imageUrl && form.stock == item.stock
    ensures form.location == item.location && form.dataAiHint == item.dataAiHint
  {
    EditItemForm(item.name, item.imageUrl, item.stock, item.location, item.dataAiHint)
  }

  /** `{ ...item, ...values, status }`: the id is kept, every field the form
      holds overrides the item's, an optional field the form leaves out keeps
      the item's value, and the status is re-derived from the new stock. */
  function MergeEdit(item: InventoryItem, form: EditItemForm): (r: InventoryItem)
    ensures r.id == item.id
    ensures r.name == form.name && r.stock == form.stock && r.location == form.location
    ensures r.imageUrl == if form.imageUrl.Some? then form.imageUrl else item.imageUrl
    ensures r.dataAiHint == if form.dataAiHint.Some? then form.dataAiHint else item.dataAiHint
    ensures StatusMatchesStock(r)
  {
    InventoryItem(
      item.id, form.name, form.stock, DeriveStatus(form.stock),
      if form.imageUrl.Some? then form.imageUrl else item.imageUrl,
      form.location,
      if form.dataAiHint.Some? then form.dataAiHint else item.dataAiHint)
  }

  /** Submitting: the page receives the merged record only when the form passes. */
  function Submit(item: InventoryItem, form: EditItemForm, isUrl: string -> bool): (r: Option<InventoryItem>)
    ensures r.Some? <==> Issues(form, isUrl) == {}
    ensures r.Some? ==> r.value == MergeEdit(item, form)
  {
    if Issues(form, isUrl) == {} then Some(MergeEdit(item, form)) else None
  }

  /** Saving the form unchanged gives back the item itself, provided its
      status already matched its stock. */
  lemma UnchangedEditIsIdentity(item: InventoryItem)
    requires StatusMatchesStock(item)
    ensures MergeEdit(item, InitialValues(item)) == item
  {
  }

  /** The schema accepts only Jakarta, Surabaya or Both as a location, while
      every seed item sits in a bin code such as `R1B1T1`: a seed item cannot
      be saved from the edit dialog without changing its location. */
  lemma SeedItemsNeedNewLocation(isUrl: string -> bool)
    ensures forall i :: 0 <= i < |SeedItems()| ==> Location in Issues(InitialValues(SeedItems()[i]), isUrl)
    ensures forall i :: 0 <= i < |SeedItems()| ==> Submit(SeedItems()[i], InitialValues(SeedItems()[i]), isUrl).None?
  {
  }
}
