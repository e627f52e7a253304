/** The inventory page: the stock-status rule, the badge and colour chosen for
    each status, the image placeholder, the record built when an item is
    added, and the case-insensitive name search over the loaded items. */
module InventoryPage {
  import opened Lists
  import opened Text
  import opened Data

  /** Below this stock an item is low on stock. */
  const LowStockThreshold: int := 10

  /** The status an item's stock implies: none left, fewer than ten, or plenty.
      A negative stock falls in the middle branch, as in the source's ternary. */
  function DeriveStatus(stock: int): (s: StockStatus)
    ensures s == OutOfStock <==> stock == 0
    ensures s == LowStock <==> stock != 0 && stock < LowStockThreshold
    ensures s == InStock <==> stock >= LowStockThreshold
  {
    if stock == 0 then OutOfStock else if stock < LowStockThreshold then LowStock else InStock
  }

  /** The invariant every stored item should keep. */
  predicate StatusMatchesStock(item: InventoryItem)
  {
    item.status == DeriveStatus(item.stock)
  }

  lemma DeriveStatusBoundaries()
    ensures DeriveStatus(0) == OutOfStock
    ensures DeriveStatus(1) == LowStock && DeriveStatus(9) == LowStock
    ensures DeriveStatus(10) == InStock && DeriveStatus(120) == InStock
  {
  }

  function Severity(s: StockStatus): nat
  {
    match s
    case InStock => 0
    case LowStock => 1
    case OutOfStock => 2
  }

  /** More stock never makes the status more severe. */
  lemma DeriveStatusMonotone(a: int, b: int)
    requires 0 <= a <= b
    ensures Severity(DeriveStatus(b)) <= Severity(DeriveStatus(a))
  {
  }

  /** Every seed item is stored with the status its stock implies. */
  lemma SeedStatusesMatchStock()
    ensures forall i :: 0 <= i < |SeedItems()| ==> StatusMatchesStock(SeedItems()[i])
  {
  }

  // ---------------------------------------------------------------------
  // Badges

  datatype BadgeVariant = Default | Secondary | Destructive

  /** The badge variant of a stock status: the default badge in stock,
      secondary when low, destructive when out. */
  function StatusVariant(s: StockStatus): (v: BadgeVariant)
    ensures v == Default <==> s == InStock
    ensures v == Secondary <==> s == LowStock
    ensures v == Destructive <==> s == OutOfStock
  {
    match s
    case InStock => Default
    case LowStock => Secondary
    case OutOfStock => Destructive
  }

  function StatusColor(s: StockStatus): (c: string)
    ensures c != ""
  {
    match s
    case InStock => "bg-green-500/20 text-green-400 border-green-500/30"
    case LowStock => "bg-yellow-500/20 text-yellow-400 border-yellow-500/30"
    case OutOfStock => "bg-red-500/20 text-red-400 border-red-500/30"
  }

  /** Each status has its own badge variant and its own colour class. */
  lemma BadgesTellStatusesApart(s: StockStatus, t: StockStatus)
    ensures StatusVariant(s) == StatusVariant(t) <==> s == t
    ensures StatusColor(s) == StatusColor(t) <==> s == t
  {
  }

  // ---------------------------------------------------------------------
  // Images

  /** The image shown for an item: its URL, or the placeholder when the URL
      is absent or empty (the source writes `imageUrl || placeholder`). */
  function DisplayImage(url: Option<string>): (src: string)
    ensures src != ""
    ensures url.Some? && url.value != "" ==> src == url.value
    ensures url.None? || url.value == "" ==> src == Placeholder
  {
    if url.Some? && url.value != "" then url.value else Placeholder
  }

  // ---------------------------------------------------------------------
  // Rules both item dialogs' schemas share

  /** The locations the add and edit dialogs offer and accept. */
  const LocationChoices: set<string> := {"Jakarta", "Surabaya", "Both"}

  /** An image URL field passes when it is absent, empty, or a URL; what
      counts as a URL is left to the `isUrl` parameter. */
  predicate ImageUrlAccepted(url: Option<string>, isUrl: string -> bool)
  {
    url.None? || url.value == "" || isUrl(url.value)
  }

  // ---------------------------------------------------------------------
  // Adding an item

  /** The fields the add dialog hands to the page. */
  datatype NewItemValues = NewItemValues(name: string, imageUrl: Option<string>, stock: int, location: string)

  /** The record stored for a new item: the dialog's fields unchanged, plus
      the status derived from the stock. The store assigns the id, which is
      therefore a parameter. */
  function HandleAddItem(values: NewItemValues, assignedId: string): (item: InventoryItem)
    ensures item.id == assignedId
    ensures item.name == values.name && item.stock == values.stock
    ensures item.imageUrl == values.imageUrl && item.location == values.location
    ensures item.dataAiHint.None?
    ensures StatusMatchesStock(item)
  {
    InventoryItem(assignedId, values.name, values.stock, DeriveStatus(values.stock),
                  values.imageUrl, values.location, None)
  }

  // ---------------------------------------------------------------------
  // Name search

  predicate NameMatches(item: InventoryItem, query: string)
  {
    MatchesIgnoringCase(item.name, query)
  }

  /** The items whose lower-cased name contains the lower-cased query, in
      their original order, each kept as often as it occurs. */
  function SearchByName(items: seq<InventoryItem>, query: string): (r: seq<InventoryItem>)
    ensures forall i :: 0 <= i < |r| ==> NameMatches(r[i], query)
    ensures forall x :: multiset(r)[x] == if NameMatches(x, query) then multiset(items)[x] else 0
    ensures IsSubsequence(r, items)
  {
    Filter(items, x => NameMatches(x, query))
  }

  /** An empty search box shows every item. */
  lemma EmptySearchKeepsAll(items: seq<InventoryItem>)
    ensures SearchByName(items, "") == items
  {
    forall i | 0 <= i < |items| ensures NameMatches(items[i], "") {
      assert ToLower("") == "";
      IncludesEmpty(ToLower(items[i].name));
    }
    FilterKeepsAll(items, x => NameMatches(x, ""));
  }

  /** The search ignores the case of the query. */
  lemma SearchIgnoresQueryCase(items: seq<InventoryItem>, query: string)
    ensures SearchByName(items, ToLower(query)) == SearchByName(items, query)
  {
    var q := ToLower(query);
    assert ToLower(q) == q;
    FilterPointwise(items, x => NameMatches(x, q), x => NameMatches(x, query));
  }
}
