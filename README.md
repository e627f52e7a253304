# Inventory dashboard model

A Dafny model of the inventory dashboard for two warehouse sites (Jakarta and
Surabaya). The model covers:

- **Records and seed tables.** Inventory items, stock movements (IN and OUT
  transactions), pre-orders, approval requests and bin locations.
- **Stock status.** A stock of 0 is Out of Stock, below 10 is Low Stock,
  otherwise In Stock.
- **Inventory page.** The status badges, the image placeholder, the record
  stored for a new item, and the case-insensitive name search.
- **Item dialogs.** The add-item and edit-item form schemas, and the record
  the edit dialog merges.
- **Dashboard.** The total stock, the pending and low-stock counts, and the
  five most recent movements. The chart groups stock by location with an
  accumulator loop.
- **Pre-orders page.** `PO-###` ids numbered from the list length, the active
  location tab, the per-site lists, and the status badges. The pre-order
  dialog looks its item up and emits nothing when it is missing.
- **Approvals page.** A decision sets the status of the order with the given
  id. The page also keeps the queue of pending orders.
- **Stock-in and stock-out pages.** `T###` ids numbered from the list
  length. An unknown item id is a silent no-op; otherwise the new movement is
  put in front. Each page shows the movements of its own kind.
- **Stock dialogs.** Their schemas, their defaults, the fixed list of
  purposes, the in-stock product list, and the `Item` fallback name.
- **Searchable pickers.** The bin-location and supplier pickers are
  stand-alone components; the item and stock-in dialogs use plain selects
  instead. The two pickers share the same rules: add-if-absent, substring filter, the "Add" entry, the
  select-to-toggle rule, and the caption shown for the selected value.

Each page keeps its own state, so each is a class whose methods update its
fields:

- `PreOrdersPage.PreOrderBook`: the pre-order list and the active tab.
- `ApprovalsPage.ApprovalQueue`: the approvals page's list.
- `StockInPage.StockInLedger` and `StockOutPage.StockOutLedger`: the movement lists.
- `Combobox.Picker`: a picker's options, selected value, search text and open state.

The chart's grouping is a method with a loop, proved against a definition
that sums stock per location.

Every record id handed out as `length + 1` is tracked by a ghost list of
serial numbers. The class invariant says these serials are distinct and at
most the list length, so every id the pages create stays distinct. Lemmas in
`Text` prove that a serial id can be read back: the decimal rendering, the
zero padding and the id prefix are each proved injective.

Modelling conventions:

- Strings are `seq<char>`.
- Lower-casing is ASCII lower-casing.
- Timestamps are integers (milliseconds). The seeds that the source dates
  relative to the current clock take the clock as a parameter `now`.
- Whether an image URL is a valid URL is left to a parameter `isUrl`.
- A form's number fields are integers: the string-to-number conversion is
  not part of this model.

Where the record types and the code disagree, the model follows the code:

- Pre-order status has four values. The record type declares only Pending
  and Fulfilled, but the approvals page sets Approved and Rejected.
- The buyer field: the record type and the seed table call it `customer`.
  The dialog writes `company` and the pages read `company`. A pre-order
  keeps both as optional fields. The seed orders have only `customer`, so
  their company cell is empty; an order added through the dialog has only
  `company` (`PreOrdersPage.SeedCompanyCellsEmpty`).
- Movements carry an optional `description`. The stock-out page writes it,
  but the record type does not declare it.
- Items carry an optional `dataAiHint`, which the edit dialog reads and
  writes.
- `handleApproval` does not check the current status; the page offers the
  approve and reject buttons only on pending orders, and a decided order
  leaves that queue (`ApprovalsPage.DecidedOrderLeavesQueue`).

Observations the lemmas make explicit:

- The item dialogs accept only `Jakarta`, `Surabaya` or `Both` as a
  location, while every seed item sits in a bin code such as `R1B1T1`.
  Saving a seed item unchanged through the edit dialog fails validation
  (`EditItemDialog.SeedItemsNeedNewLocation`).
- The first movement either stock page creates from the seeds is `T006`.
  That is the id the second seed approval request already points at, though
  no seed movement has it (`StockInPage.FirstNewIdAfterSeeds`).
- A stock dialog confirms a valid submission even when the page then drops
  it for an unknown item id (`StockInPage.UnknownItemConfirmedButDropped`).
- The stock-out page never lowers or checks an item's stock
  (`StockOutPage.EmptyItemStillRecorded`). It records user `Admin` whatever
  user the form holds (`StockOutPage.UserIsIgnored`).

## Model

| member | source | states |
|---|---|---|
| Lists.Filter | src/app/inventory/page.tsx:122-124 | `Array.prototype.filter`: the kept elements pass the test; each element is kept as often as it occurs exactly when it passes; the result is a subsequence, so order is preserved |
| Lists.FilterMembership | src/app/approvals/page.tsx:36 | an element is in a filter's result iff it is in the list and passes the test |
| Lists.FilterKeepsAll | src/app/inventory/page.tsx:122-124 | a filter whose test every element passes returns the list itself |
| Lists.FilterPointwise | src/app/page.tsx:36 | two tests that agree on every element give the same filter result |
| Lists.FilterPartition | src/app/pre-orders/page.tsx:36-41 | filtering by a test and by its negation splits the list, as multisets and in length |
| Lists.FilterPrepend | src/app/stock-in/page.tsx:43-46 | filtering a list with one element put in front keeps that element in front exactly when it passes |
| Text.LowerChar | src/app/inventory/page.tsx:123 | an ASCII capital becomes the lower-case letter at the same position in the alphabet; every other character is unchanged; the result is never a capital |
| Text.ToLower | src/app/inventory/page.tsx:123 | lower-casing keeps the length and maps every character |
| Text.Includes | src/app/inventory/page.tsx:123 | `String.prototype.includes`: true iff the needle occurs at some index of the haystack |
| Text.IncludesEmpty | src/app/inventory/page.tsx:122-124 | the empty string occurs in every string |
| Text.MatchesIgnoringCase | src/app/inventory/page.tsx:123 | true iff the lower-cased query occurs in the lower-cased text; an empty query always matches |
| Text.NatToDecimal | src/app/pre-orders/page.tsx:28 | `Number.prototype.toString` on a count: at least one character, all decimal digits |
| Text.DecimalRoundTrip | src/app/pre-orders/page.tsx:28 | the decimal rendering of `n` reads back as `n` |
| Text.PadStart | src/app/stock-in/page.tsx:34 | `padStart`: the result has the larger of the two lengths, ends with the input, and is filled in front |
| Text.LeadingZeros | src/app/stock-in/page.tsx:34 | leading zeros do not change the value a digit string denotes |
| Text.ZerosValue | src/app/stock-in/page.tsx:34 | a string of zeros denotes 0 |
| Text.Serial3 | src/app/stock-out/page.tsx:29 | the three-digit serial is all digits and at least three long |
| Text.Serial3Value | src/app/stock-out/page.tsx:29 | the padded serial reads back as the number it renders |
| Text.SmallSerial | src/app/pre-orders/page.tsx:28 | a one-digit serial gets two leading zeros (`PO-004`, `T006`) |
| Text.SerialId | src/app/pre-orders/page.tsx:28 | an id starts with its prefix and has at least three digits after it |
| Text.SerialIdInjective | src/app/pre-orders/page.tsx:28 | two ids with the same prefix are equal iff their serial numbers are |
| Text.SerialNumberedDistinct | src/app/pre-orders/page.tsx:28-33 | ids numbered by distinct serials are pairwise distinct |
| Text.SerialNumberedPrepend | src/app/pre-orders/page.tsx:28-33 | putting in front the id numbered `length + 1` keeps a list serially numbered |
| Data.IndexOfItem | src/app/stock-in/page.tsx:30 | `find` by id: -1 iff no item has the id, otherwise the first index whose item has it |
| Data.FindListed | src/app/stock-in/page.tsx:30-31 | when ids are distinct, looking up an item's id finds that very item |
| Data.FindItem | src/app/stock-in/page.tsx:30-31 | no result iff no item has the id; a result has that id and is the first item with it, as `find` returns |
| Data.ConfirmationName | src/components/stock-in/add-stock-in-dialog.tsx:66 | `find(...)?.name \|\| 'Item'`: the matched item's name, or `Item` when nothing matches or the name is empty; never empty |
| Data.SeedItems | src/lib/data.ts:45-94 | the six seed items, each with the placeholder image and no hint |
| Data.SeedTransactions | src/lib/data.ts:96-150 | the five seed movements, dated between four days and one day before now |
| Data.SeedPreOrders | src/lib/data.ts:152-183 | the three seed orders, dated between ten and five days before now, each with its buyer under `customer` and no company |
| Data.SeedApprovalRequests | src/lib/data.ts:185-204 | the two seed approval requests, dated within two days before now |
| Data.SeedLocations | src/lib/data.ts:206-238 | the table holds 31 bin codes; their key order, distinct values and captions are stated by `Data.SeedLocationsWellFormed` |
| Data.SeedItemIdsDistinctAndStocksNonNegative | src/lib/data.ts:45-94 | the seed item ids are pairwise distinct and no seed stock is negative |
| Data.SeedTransactionsReferenceItems | src/lib/data.ts:96-150 | every seed movement names a seed item by its id and by its name |
| Data.SeedMovementShapes | src/lib/data.ts:96-150 | seed OUT movements carry a status and a destination and no supplier; seed IN movements carry a supplier and neither of the others |
| Data.SeedPreOrdersReferenceItems | src/lib/data.ts:152-183 | every seed pre-order names a seed item by id and name and has a positive quantity |
| Data.SeedApprovalReferences | src/lib/data.ts:185-204 | AR-001 points at a seed movement; AR-002 points at `T006`, which no seed movement has |
| Data.KeysIncrease | src/lib/data.ts:206-238 | keys that increase from each element to the next increase between any two elements |
| Data.SeedLocationsWellFormed | src/lib/data.ts:206-238 | the seed location values are pairwise distinct and each caption equals its value |
| Data.SeedItemLocationsListed | src/lib/data.ts:52-92 | every seed item's location is one of the seed location values |
| Data.TransactionIds | src/lib/data.ts:11-22 | the ids of a movement list, position by position |
| Data.PreOrderIds | src/lib/data.ts:24-33 | the ids of a pre-order list, position by position |
| Data.TransactionIdsPrepend | src/app/stock-in/page.tsx:43 | the ids of a list with a movement put in front are its id followed by the old ids |
| Data.PreOrderIdsPrepend | src/app/pre-orders/page.tsx:33 | the same for a pre-order put in front |
| Data.NumberedTransactionPrepend | src/app/stock-in/page.tsx:34-43 | putting in front a movement numbered `length + 1` keeps the list serially numbered and its ids distinct |
| Data.NumberedPreOrderPrepend | src/app/pre-orders/page.tsx:28-33 | putting in front a pre-order numbered `length + 1` keeps the list serially numbered and its ids distinct |
| Data.SeedTransactionsNumbered | src/lib/data.ts:96-150 | the seed movements carry the ids `T001` to `T005` |
| Data.SeedPreOrdersNumbered | src/lib/data.ts:152-183 | the seed pre-orders carry the ids `PO-001` to `PO-003` |
| InventoryPage.DeriveStatus | src/app/inventory/page.tsx:99 | Out of Stock iff the stock is 0, Low Stock iff it is non-zero and below 10, In Stock iff it is at least 10; exactly one holds for every stock |
| InventoryPage.DeriveStatusBoundaries | src/app/inventory/page.tsx:99 | 0 gives Out of Stock, 1 and 9 give Low Stock, 10 and 120 give In Stock |
| InventoryPage.DeriveStatusMonotone | src/app/inventory/page.tsx:99 | among non-negative stocks, more stock never gives a more severe status |
| InventoryPage.SeedStatusesMatchStock | src/lib/data.ts:45-94 | every seed item is stored with the status its stock implies |
| InventoryPage.StatusVariant | src/app/inventory/page.tsx:44-48 | the default badge iff in stock, secondary iff low, destructive iff out of stock |
| InventoryPage.StatusColor | src/app/inventory/page.tsx:50-54 | every status has a non-empty colour class |
| InventoryPage.BadgesTellStatusesApart | src/app/inventory/page.tsx:44-54 | two statuses share a badge variant, or a colour class, iff they are the same status |
| InventoryPage.DisplayImage | src/app/inventory/page.tsx:175 | a non-empty image URL is shown as it is; an absent or empty one is shown as the placeholder |
| InventoryPage.HandleAddItem | src/app/inventory/page.tsx:98-100 | a new item keeps the submitted name, image, stock and location, gets the assigned id, and is stored with the status its stock implies |
| InventoryPage.SearchByName | src/app/inventory/page.tsx:122-124 | the search keeps exactly the items whose lower-cased name contains the lower-cased filter, in their order |
| InventoryPage.EmptySearchKeepsAll | src/app/inventory/page.tsx:122-124 | an empty filter keeps every item |
| InventoryPage.SearchIgnoresQueryCase | src/app/inventory/page.tsx:123 | lower-casing the filter first changes nothing |
| AddItemDialog.Issues | src/components/inventory/add-item-dialog.tsx:39-44 | the schema rejects an empty name, a non-URL image other than the empty string, a negative stock, and a missing or unknown location, and nothing else |
| AddItemDialog.DefaultsRejected | src/components/inventory/add-item-dialog.tsx:59-63 | the default form fails on the name and the location only |
| AddItemDialog.Submit | src/components/inventory/add-item-dialog.tsx:66-67 | values reach the page iff the form passes, and then unchanged and without a status |
| AddItemDialog.AddedItemIsConsistent | src/components/inventory/add-item-dialog.tsx:39-44 | an item added through the dialog has a name, a stock of at least 0, an offered location and the status its stock implies |
| EditItemDialog.Issues | src/components/inventory/edit-item-dialog.tsx:36-42 | the schema rejects an empty name, a non-URL image other than the empty string, a negative stock, and a location outside Jakarta, Surabaya and Both; the image hint is optional |
| EditItemDialog.InitialValues | src/components/inventory/edit-item-dialog.tsx:57-63 | the form opens on the item's own name, image, stock, location and hint |
| EditItemDialog.MergeEdit | src/components/inventory/edit-item-dialog.tsx:77-79 | `{ ...item, ...values, status }`: the id is kept, the form's fields override, an absent optional field keeps the item's value, and the status is re-derived from the new stock |
| EditItemDialog.Submit | src/components/inventory/edit-item-dialog.tsx:77-79 | the page receives the merged record iff the form passes |
| EditItemDialog.UnchangedEditIsIdentity | src/components/inventory/edit-item-dialog.tsx:66-79 | saving the untouched form gives back the item itself, when its status matched its stock |
| EditItemDialog.SeedItemsNeedNewLocation | src/components/inventory/edit-item-dialog.tsx:40 | every seed item's own location fails the schema, so no seed item can be saved unchanged |
| Dashboard.TotalStock | src/app/page.tsx:32 | the sum of stocks is 0 for no items and non-negative when every stock is |
| Dashboard.TotalStockAppend | src/app/page.tsx:32 | the sum over two lists one after the other is the sum of their sums |
| Dashboard.PendingPreOrders | src/app/page.tsx:33-35 | the pending count is at most the number of orders, and it is 0 iff no order is pending |
| Dashboard.LowStockItems | src/app/page.tsx:36 | the low-stock count is at most the number of items |
| Dashboard.LowStockMeansNotInStock | src/app/page.tsx:36 | the `< 10` count is the number of items whose derived status is Low Stock or Out of Stock |
| Dashboard.RecentTransactions | src/app/page.tsx:90 | the first min(5, n) movements, in order |
| Dashboard.DashboardExample | src/app/page.tsx:32-36 | stocks 120, 8 and 0 give a total of 128 and two low-stock items |
| InventoryChart.DistinctLocationsSpec | src/components/dashboard/inventory-chart.tsx:20-28 | the locations in first-occurrence order have no repeats, are exactly the item locations, and are no more than the items |
| InventoryChart.StockAtAbsent | src/components/dashboard/inventory-chart.tsx:21-26 | a location no item has holds no stock |
| InventoryChart.SumTotalsBump | src/components/dashboard/inventory-chart.tsx:23 | adding to one entry's total adds the same to the sum of totals |
| InventoryChart.StockAtSnoc | src/components/dashboard/inventory-chart.tsx:21-26 | one more item adds its stock to its own location's total and to no other |
| InventoryChart.GroupedBump | src/components/dashboard/inventory-chart.tsx:21-23 | adding the stock of an item at a seen location to that entry keeps the grouping invariant |
| InventoryChart.GroupedAppend | src/components/dashboard/inventory-chart.tsx:24-25 | appending an entry for an item at an unseen location keeps the grouping invariant |
| InventoryChart.AddToGroup | src/components/dashboard/inventory-chart.tsx:21-27 | one fold step: finding the item's location and adding to it, or appending an entry, keeps the grouping invariant |
| InventoryChart.StockByLocation | src/components/dashboard/inventory-chart.tsx:20-28 | one entry per distinct location, in first-occurrence order, no location twice, each total the stock at that location, totals adding up to the total stock, no more entries than items |
| AddPreOrderDialog.Issues | src/components/pre-orders/add-pre-order-dialog.tsx:38-42 | the schema rejects an empty company, an empty item id and a quantity below 1, and nothing else |
| AddPreOrderDialog.DefaultsRejected | src/components/pre-orders/add-pre-order-dialog.tsx:59-63 | the default form fails on the company and the item only |
| AddPreOrderDialog.Submit | src/components/pre-orders/add-pre-order-dialog.tsx:66-75 | a draft is emitted iff the form passes and some item has the id; it carries the company, the matched item's name, the id and the quantity, and no id, date, status or location |
| AddPreOrderDialog.SubmittedDraftIsSound | src/components/pre-orders/add-pre-order-dialog.tsx:67-75 | an emitted draft names an inventory item by id and name, has a company and a quantity of at least 1 |
| PreOrdersPage.TabSite | src/app/pre-orders/page.tsx:31 | a new order goes to Jakarta iff the Jakarta tab is active |
| PreOrdersPage.NewPreOrder | src/app/pre-orders/page.tsx:26-32 | the new order keeps the draft's fields and gets id `PO-` with `length + 1` padded to three digits, the current time, status Pending and the tab's site |
| PreOrdersPage.CompanyCell | src/app/pre-orders/page.tsx:61 | the company cell shows the record's company, and nothing when it has none |
| PreOrdersPage.SeedCompanyCellsEmpty | src/lib/data.ts:152-183 | the seed orders show an empty company cell and carry a customer; a dialog order shows the dialog's company |
| PreOrdersPage.FirstNewIdAfterSeeds | src/app/pre-orders/page.tsx:28 | after the three seed orders the first new id is `PO-004` |
| PreOrdersPage.OrdersAt | src/app/pre-orders/page.tsx:36-41 | a tab's list keeps exactly the orders at its site, in order |
| PreOrdersPage.TabsPartitionOrders | src/app/pre-orders/page.tsx:36-41 | the Jakarta and Surabaya lists together hold every order exactly once |
| PreOrdersPage.NewOrderShowsOnActiveTab | src/app/pre-orders/page.tsx:31-41 | a new order appears first on the active tab's list, and the other tab's list is unchanged |
| PreOrdersPage.OrderBadge | src/app/pre-orders/page.tsx:69-73 | secondary iff pending, default iff approved or fulfilled, destructive iff rejected |
| PreOrdersPage.OrderBadgeColor | src/app/pre-orders/page.tsx:74-79 | every status has a non-empty colour class |
| PreOrdersPage.BadgeColorsTellStatusesApart | src/app/pre-orders/page.tsx:74-79 | two statuses share a colour class iff they are the same status |
| PreOrdersPage.DialogOrdersKeepReferences | src/app/pre-orders/page.tsx:25-33 | adding the draft the dialog emits keeps every order pointing at an existing item with a quantity of at least 1 |
| PreOrdersPage.PreOrderBook.constructor | src/app/pre-orders/page.tsx:22-23 | the page opens on the seed orders and the Jakarta tab, with serially numbered ids |
| PreOrdersPage.PreOrderBook.SelectTab | src/app/pre-orders/page.tsx:23 | switching tabs leaves the orders as they are |
| PreOrdersPage.PreOrderBook.AddPreOrder | src/app/pre-orders/page.tsx:25-34 | the new order goes in front of the unchanged old list, the tab is kept, and all ids stay pairwise distinct |
| ApprovalsPage.Decision.Status | src/app/approvals/page.tsx:76-85 | the approve button sets Approved and the reject button sets Rejected, in both directions; neither leaves an order pending |
| ApprovalsPage.Decide | src/app/approvals/page.tsx:26-28 | an order with the decided id gets the decision's status and keeps every other field; any other order is unchanged |
| ApprovalsPage.ApplyDecision | src/app/approvals/page.tsx:24-29 | length and order are kept; every order with the id gets the decision's status and keeps its other fields; every other order is unchanged |
| ApprovalsPage.AbsentIdChangesNothing | src/app/approvals/page.tsx:26-28 | an id no order has leaves the list unchanged |
| ApprovalsPage.LaterDecisionWins | src/app/approvals/page.tsx:26-28 | deciding twice on an id leaves the second decision; repeating a decision changes nothing |
| ApprovalsPage.DecisionsCommute | src/app/approvals/page.tsx:26-28 | decisions on two different ids can be taken in either order |
| ApprovalsPage.PendingApprovals | src/app/approvals/page.tsx:36 | the queue keeps exactly the pending orders, in order |
| ApprovalsPage.PendingCountIsQueueLength | src/app/page.tsx:33-35 | the dashboard's pending figure equals the length of the approvals queue |
| ApprovalsPage.ApplyDecisionCons | src/app/approvals/page.tsx:26-28 | deciding on a list with an order in front decides on that order and on the rest |
| ApprovalsPage.QueueAfterDecision | src/app/approvals/page.tsx:24-36 | after a decision on an id the queue is the pending orders without that id, in order |
| ApprovalsPage.DecidedOrderLeavesQueue | src/app/approvals/page.tsx:24-36 | after a decision on an id, an order is queued iff it was pending and has another id |
| ApprovalsPage.QueueOfThree | src/app/approvals/page.tsx:24-36 | deciding on the first of three orders, when only the second of the rest is pending, queues the second alone |
| ApprovalsPage.SeedApprovalExample | src/app/approvals/page.tsx:24-36 | approving `PO-001` on the seeds leaves only `PO-002` queued |
| ApprovalsPage.ApprovalQueue.constructor | src/app/approvals/page.tsx:21 | the approvals page opens on its own copy of the seed orders |
| ApprovalsPage.ApprovalQueue.HandleApproval | src/app/approvals/page.tsx:24-29 | the page's list becomes the list with the decision applied |
| AddStockInDialog.Issues | src/components/stock-in/add-stock-in-dialog.tsx:38-42 | the schema rejects an empty item id, a quantity below 1 and an empty supplier, and nothing else |
| AddStockInDialog.DefaultsRejected | src/components/stock-in/add-stock-in-dialog.tsx:57-61 | the default form fails on the item and the supplier only |
| AddStockInDialog.Submit | src/components/stock-in/add-stock-in-dialog.tsx:64-65 | the values reach the page unchanged iff the form passes |
| AddStockOutDialog.Issues | src/components/stock-out/add-stock-out-dialog.tsx:38-43 | the schema rejects an empty item id, a quantity below 1, an empty purpose and an empty user, and nothing else |
| AddStockOutDialog.DefaultsRejected | src/components/stock-out/add-stock-out-dialog.tsx:70-75 | the default form fails on the product, the purpose and the user |
| AddStockOutDialog.Submit | src/components/stock-out/add-stock-out-dialog.tsx:78-79 | the values reach the page unchanged iff the form passes |
| AddStockOutDialog.DescriptionsDistinct | src/components/stock-out/add-stock-out-dialog.tsx:53-62 | the purposes list has eight non-empty, pairwise distinct entries |
| AddStockOutDialog.SelectableProducts | src/components/stock-out/add-stock-out-dialog.tsx:127-128 | the products offered are exactly the items with stock above 0, in inventory order |
| AddStockOutDialog.OfferedIffStocked | src/components/stock-out/add-stock-out-dialog.tsx:127-128 | an item of the list is offered exactly when its stock is above 0 |
| AddStockOutDialog.SeedSelectableProducts | src/components/stock-out/add-stock-out-dialog.tsx:127-128 | of the seed items, all but the office chair with no stock are offered |
| AddStockOutDialog.NoUserOptionsNoSubmit | src/components/stock-out/add-stock-out-dialog.tsx:155-181 | with no user options the user stays empty and the form never passes |
| AddStockOutDialog.SeedConfirmationNames | src/components/stock-out/add-stock-out-dialog.tsx:80 | the confirmation names a seed item by its name and says `Item` for an unknown id |
| StockInPage.NewStockIn | src/app/stock-in/page.tsx:33-42 | the new movement is IN, with id `T` and `length + 1` padded, the item's name, the form's id, quantity and supplier, user `Admin`, and no status, destination or description |
| StockInPage.RecordStockIn | src/app/stock-in/page.tsx:29-43 | an unknown item id leaves the list unchanged; otherwise the new movement goes in front of the unchanged old list |
| StockInPage.StockInTransactions | src/app/stock-in/page.tsx:46 | the page lists exactly the IN movements, in order |
| StockInPage.RecordedDeliveryIsListed | src/app/stock-in/page.tsx:43-46 | a recorded delivery appears first on the page's list, which is otherwise unchanged |
| StockInPage.RecordKeepsReferences | src/app/stock-in/page.tsx:30-43 | recording keeps every movement pointing at an inventory item by id and name |
| StockInPage.UnknownItemConfirmedButDropped | src/app/stock-in/page.tsx:30-31 | a valid form for an unknown id passes the dialog and is confirmed as `Item`, while the page records nothing |
| StockInPage.FirstNewIdAfterSeeds | src/app/stock-in/page.tsx:34 | after the five seed movements the first new id is `T006`, the id of AR-002's dangling reference |
| StockInPage.StockInLedger.constructor | src/app/stock-in/page.tsx:27 | the page opens on the seed movements over the seed inventory, with serially numbered ids |
| StockInPage.StockInLedger.AddStockIn | src/app/stock-in/page.tsx:29-44 | the list becomes the recorded list, returning early on an unknown id; the inventory is a constant, so no stock changes; ids stay pairwise distinct |
| StockOutPage.NewStockOut | src/app/stock-out/page.tsx:28-37 | the new movement is OUT, with id `T` and `length + 1` padded, the item's name, the form's id, quantity and purpose, user `Admin`, and no status, destination or supplier |
| StockOutPage.RecordStockOut | src/app/stock-out/page.tsx:24-38 | an unknown item id leaves the list unchanged; otherwise the new movement goes in front of the unchanged old list |
| StockOutPage.UserIsIgnored | src/app/stock-out/page.tsx:36 | the user in the form has no effect on what is recorded |
| StockOutPage.EmptyItemStillRecorded | src/app/stock-out/page.tsx:25-38 | an item with no stock left is still recorded: the list grows by one and its new head is an outgoing movement of that item |
| StockOutPage.StockOutTransactions | src/app/stock-out/page.tsx:41 | the page lists exactly the OUT movements, in order |
| StockOutPage.RecordedStockOutIsListed | src/app/stock-out/page.tsx:38-41 | a recorded movement appears first on the page's list, which is otherwise unchanged |
| StockOutPage.UnknownItemConfirmedButDropped | src/app/stock-out/page.tsx:25-26 | a valid form for an unknown id passes the dialog and is confirmed as `Item`, while the page records nothing |
| StockOutPage.StockOutLedger.constructor | src/app/stock-out/page.tsx:22 | the page opens on the seed movements over the seed inventory, with serially numbered ids |
| StockOutPage.StockOutLedger.AddStockOut | src/app/stock-out/page.tsx:24-39 | the list becomes the recorded list, returning early on an unknown id, and ids stay pairwise distinct |
| Combobox.AddIfAbsent | src/components/inventory/location-combobox.tsx:99-103 | after the step the value is listed; the old options are kept in front; exactly one option, the value as its own caption, is appended iff no option had that value |
| Combobox.EnsureListed | src/components/inventory/location-combobox.tsx:34-40 | a non-empty value is listed afterwards; an empty or already listed value changes nothing; at most one option is appended |
| Combobox.AddIfAbsentKeepsDistinct | src/components/inventory/location-combobox.tsx:36-38 | the step keeps option values distinct |
| Combobox.EnsureListedIsStable | src/components/stock-in/supplier-combobox.tsx:34-40 | running the effect a second time adds nothing |
| Combobox.CaptionOf | src/components/inventory/location-combobox.tsx:60-62 | a caption is shown iff some option has the value, and it is the caption of the first option with that value |
| Combobox.ListedValueHasCaption | src/components/inventory/location-combobox.tsx:34-62 | after the effect a selected value always has a caption to show |
| Combobox.FilteredOptions | src/components/inventory/location-combobox.tsx:42-46 | all options for an empty search; otherwise exactly those whose lower-cased caption contains the lower-cased text, in order |
| Combobox.AnyValueMatches | src/components/stock-in/supplier-combobox.tsx:48 | `some`: true iff some option value equals the text up to case |
| Combobox.ShowAddNew | src/components/inventory/location-combobox.tsx:48 | the "Add" entry shows iff the text is non-empty and no option value equals it up to case |
| Combobox.AddNewAppendsOne | src/components/stock-in/supplier-combobox.tsx:95-103 | whenever "Add" is offered, choosing it appends exactly one option |
| Combobox.Toggle | src/components/inventory/location-combobox.tsx:81 | choosing the selected option yields the empty value; choosing another yields that option |
| Combobox.ToggleTwice | src/components/stock-in/supplier-combobox.tsx:81 | choosing the same option twice clears the value, unless the value was already that option, in which case it is selected again |
| Combobox.Picker.constructor | src/components/inventory/location-combobox.tsx:30-32 | the picker opens closed, on the seed options, with an empty search |
| Combobox.Picker.SetOpen | src/components/inventory/location-combobox.tsx:52 | opening or closing the popover changes nothing else |
| Combobox.Picker.TypeInput | src/components/inventory/location-combobox.tsx:68-72 | typing sets the search text and changes nothing else |
| Combobox.Picker.SyncValue | src/components/inventory/location-combobox.tsx:34-40 | the options become the effect's result and stay distinct; nothing else changes |
| Combobox.Picker.SelectOption | src/components/inventory/location-combobox.tsx:80-84 | the value toggles, the search text is cleared and the popover closes; the options are unchanged |
| Combobox.Picker.SelectAddNew | src/components/inventory/location-combobox.tsx:98-106 | the search text becomes the value and is appended unless exactly listed; the options stay distinct; the search clears and the popover closes |

## Left out

- ApprovalsPage.ApprovalQueue.HandleApproval: may be called with any id,
  including one of an order that is no longer pending; the page itself
  reaches it only through the buttons of the pending rows, and the model
  does not restrict the call to those ids.
- Firestore access, the asynchronous loading of the dashboard and inventory
  page, database seeding, toasts, and dialog open and close state are not
  modelled. They are I/O or UI plumbing with no rule of their own.
- Deleting and updating items on the inventory page are calls into the
  store and are not part of this model. The record the edit dialog hands
  over is modelled (`EditItemDialog.MergeEdit`).
- A form's number fields are integers in the model. The string-to-number
  coercion of the form library is not modelled.
- What counts as a valid image URL is the parameter `isUrl`.
- Lower-casing is ASCII only; Unicode case mapping is not modelled.
- Dates are opaque integers. Date formatting and relative-time rendering
  are not modelled.
- The picker library's value normalisation is not modelled. The value it
  passes to a selection handler is taken to be the option's value as
  listed.
- The supplier and company option lists are not defined in the data module.
  Any string can stand for them.
- The stock-out page does not pass the user options its dialog requires.
  The rendering failure that follows is not modelled. The lemma
  `AddStockOutDialog.NoUserOptionsNoSubmit` states the consequence for the
  form.
- The form value a picker shows belongs to the parent form in the source.
  `Combobox.Picker` holds it as a field.
- Rendering-only components are not part of this model: the layout, the
  stat cards, the recent-movements table, the history page and the
  pre-order details dialog.
- `Dashboard.PendingPreOrders`: its own contract states the bound and when
  the count is 0, not the exact count. The exact count is stated by
  `ApprovalsPage.PendingCountIsQueueLength`: it is the length of
  `ApprovalsPage.PendingApprovals`, whose contents are characterised.
- The pages compute a new record's id from the list as last rendered
  (`length + 1`) but insert it with a functional update of the latest list.
  Two submissions within one render would both get the same id. The model
  takes each update against the state it has just produced, one render at a
  time. That is why the serial-id invariants of `PreOrdersPage.PreOrderBook`,
  `StockInPage.StockInLedger` and `StockOutPage.StockOutLedger` hold.
- `Dashboard.LowStockItems`: its contract states only the bound. The
  meaning of the count is stated by `Dashboard.LowStockMeansNotInStock`.
