/** The pre-orders page: the order list held in page state, the active
    location tab, the record built for a new order, the per-location lists
    and the status badge. */
module PreOrdersPage {
  import opened Lists
  import opened Text
  import opened Data
  import opened InventoryPage
  import opened AddPreOrderDialog

  datatype Tab = JakartaTab | SurabayaTab

  /** The site a new order gets: Jakarta on the Jakarta tab, else Surabaya. */
  function TabSite(tab: Tab): (s: Site)
    ensures s == Jakarta <==> tab == JakartaTab
  {
    if tab == JakartaTab then Jakarta else Surabaya
  }

  /** The order created from a draft when the list holds `count` orders: the
      draft's fields, the id `PO-` and `count + 1` padded to three digits, the
      given time, status Pending and the active tab's site. */
  function NewPreOrder(d: PreOrderDraft, count: nat, tab: Tab, now: Instant): (o: PreOrder)
    ensures o.company == Some(d.company) && o.customer.None? && o.item == d.item && o.itemId == d.itemId && o.quantity == d.quantity
    ensures o.id == SerialId("PO-", count + 1)
    ensures o.orderDate == now && o.status == Pending && o.location == TabSite(tab)
  {
    PreOrder(SerialId("PO-", count + 1), Some(d.company), None, d.item, d.itemId, d.quantity, now, Pending, TabSite(tab))
  }

  /** The text of an order's company cell: the company, or nothing when the
      record has none (React renders an undefined field as empty). */
  function CompanyCell(o: PreOrder): (c: string)
    ensures o.company.Some? ==> c == o.company.value
    ensures o.company.None? ==> c == ""
  {
    match o.company
    case Some(name) => name
    case None => ""
  }

  /** The seed orders store their buyer as `customer`, so their company cell
      is empty; an order added through the dialog shows the dialog's company. */
  lemma SeedCompanyCellsEmpty(now: Instant, d: PreOrderDraft, count: nat, tab: Tab)
    ensures forall i :: 0 <= i < |SeedPreOrders(now)| ==>
      CompanyCell(SeedPreOrders(now)[i]) == "" && SeedPreOrders(now)[i].customer.Some?
    ensures CompanyCell(NewPreOrder(d, count, tab, now)) == d.company
  {
  }

  /** With the three seed orders loaded, the first new order is `PO-004`. */
  lemma FirstNewIdAfterSeeds(d: PreOrderDraft, tab: Tab, now: Instant)
    ensures NewPreOrder(d, |SeedPreOrders(now)|, tab, now).id == "PO-004"
  {
    SmallSerial("PO-", 4);
  }

  /** The test each tab's list applies. */
  function AtSite(site: Site): PreOrder -> bool
  {
    (o: PreOrder) => o.location == site
  }

  /** The orders at one site, in list order. */
  function OrdersAt(orders: seq<PreOrder>, site: Site): (r: seq<PreOrder>)
    ensures forall i :: 0 <= i < |r| ==> r[i].location == site
    ensures forall x :: multiset(r)[x] == if x.location == site then multiset(orders)[x] else 0
    ensures IsSubsequence(r, orders)
  {
    Filter(orders, AtSite(site))
  }

  /** The two tabs split the orders between them: every order is on exactly
      one of them, as often as it occurs. */
  lemma TabsPartitionOrders(orders: seq<PreOrder>)
    ensures multiset(OrdersAt(orders, Jakarta)) + multiset(OrdersAt(orders, Surabaya)) == multiset(orders)
    ensures |OrdersAt(orders, Jakarta)| + |OrdersAt(orders, Surabaya)| == |orders|
  {
    FilterPartition(orders, AtSite(Jakarta), AtSite(Surabaya));
  }

  /** A new order shows at the top of the active tab's list, and the other
      tab's list does not change. */
  lemma NewOrderShowsOnActiveTab(orders: seq<PreOrder>, d: PreOrderDraft, tab: Tab, now: Instant)
    ensures var o := NewPreOrder(d, |orders|, tab, now);
      && OrdersAt([o] + orders, TabSite(tab)) == [o] + OrdersAt(orders, TabSite(tab))
      && OrdersAt([o] + orders, TabSite(if tab == JakartaTab then SurabayaTab else JakartaTab)) ==
         OrdersAt(orders, TabSite(if tab == JakartaTab then SurabayaTab else JakartaTab))
  {
    var o := NewPreOrder(d, |orders|, tab, now);
    FilterPrepend(o, orders, AtSite(TabSite(tab)));
    var other := TabSite(if tab == JakartaTab then SurabayaTab else JakartaTab);
    FilterPrepend(o, orders, AtSite(other));
  }

  /** The badge of an order status: secondary while pending, the default
      badge once approved or fulfilled, destructive when rejected. */
  function OrderBadge(s: PreOrderStatus): (v: BadgeVariant)
    ensures v == Secondary <==> s == Pending
    ensures v == Default <==> s == Approved || s == Fulfilled
    ensures v == Destructive <==> s == Rejected
  {
    match s
    case Pending => Secondary
    case Approved => Default
    case Fulfilled => Default
    case Rejected => Destructive
  }

  function OrderBadgeColor(s: PreOrderStatus): (c: string)
    ensures c != ""
  {
    if s == Pending then "bg-yellow-500/20 text-yellow-400 border-yellow-500/30"
    else if s == Approved then "bg-blue-500/20 text-blue-400 border-blue-500/30"
    else if s == Fulfilled then "bg-green-500/20 text-green-400 border-green-500/30"
    else "bg-red-500/20 text-red-400 border-red-500/30"
  }

  /** Approved and fulfilled orders share a badge variant but each status has
      a colour of its own. */
  lemma BadgeColorsTellStatusesApart(s: PreOrderStatus, t: PreOrderStatus)
    ensures OrderBadgeColor(s) == OrderBadgeColor(t) <==> s == t
  {
  }

  /** Every order of the list names an inventory item by id and name and
      orders at least one unit. */
  ghost predicate OrdersReferItems(items: seq<InventoryItem>, orders: seq<PreOrder>)
  {
    forall i :: 0 <= i < |orders| ==> RefersTo(items, orders[i].itemId, orders[i].item) && orders[i].quantity >= 1
  }

  /** Adding the draft the dialog emits keeps every order pointing at an
      existing item. */
  lemma DialogOrdersKeepReferences(items: seq<InventoryItem>, orders: seq<PreOrder>, form: PreOrderForm, tab: Tab, now: Instant)
    requires OrdersReferItems(items, orders)
    requires Submit(items, form).Some?
    ensures OrdersReferItems(items, [NewPreOrder(Submit(items, form).value, |orders|, tab, now)] + orders)
  {
    SubmittedDraftIsSound(items, form);
    var all := [NewPreOrder(Submit(items, form).value, |orders|, tab, now)] + orders;
    assert forall i :: 1 <= i < |all| ==> all[i] == orders[i - 1];
  }

  /** The page state: the order list, the active tab, and, as ghost state,
      the serial number behind each order's id. */
  class PreOrderBook {
    var orders: seq<PreOrder>
    var activeTab: Tab
    ghost var serials: seq<nat>

    /** Every id is `PO-` and a serial; serials are distinct and at most the
        list length, so the next `length + 1` is fresh. */
    ghost predicate Valid()
      reads this
    {
      SerialNumbered(PreOrderIds(orders), "PO-", serials)
    }

    /** The page opens on the seed orders and the Jakarta tab. */
    constructor (now: Instant)
      ensures orders == SeedPreOrders(now) && activeTab == JakartaTab
      ensures Valid()
    {
      orders := SeedPreOrders(now);
      activeTab := JakartaTab;
      serials := [1, 2, 3];
      SeedPreOrdersNumbered(now);
    }

    method SelectTab(tab: Tab)
      requires Valid()
      modifies this
      ensures activeTab == tab && orders == old(orders)
      ensures Valid()
    {
      activeTab := tab;
    }

    /** Puts the new order in front; the earlier orders follow unchanged and
        every id stays distinct. */
    method AddPreOrder(d: PreOrderDraft, now: Instant)
      requires Valid()
      modifies this
      ensures orders == [NewPreOrder(d, |old(orders)|, old(activeTab), now)] + old(orders)
      ensures activeTab == old(activeTab)
      ensures Valid() && PairwiseDistinct(PreOrderIds(orders))
    {
      var o := NewPreOrder(d, |orders|, activeTab, now);
      NumberedPreOrderPrepend(o, orders, serials);
      serials := [|orders| + 1] + serials;
      orders := [o] + orders;
    }
  }
}
