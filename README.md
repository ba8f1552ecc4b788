# Inventory Control System: the stock ledger

This project models the stock ledger of a small inventory service. The
service has products, suppliers, customer orders and purchase orders. Every
product has a stock level. Every change of stock is recorded in an
append-only log of inventory transactions, of three kinds:

- IN records come from order cancellation and purchase-order receipt;
- OUT records come from order creation;
- ADJUSTMENT records come from manual stock adjustment.

Files:

- `wrappers.dfy` holds `Option` and `Result`.
- `inventory.dfy` holds the table rows and status constants, the whole
  database as a value (`Db`) with its invariant (`Db.Valid`), and the
  `Database` class. The class holds the same tables as fields, and the
  handlers update them in place.
- `stock.dfy` holds the stock arithmetic all handlers share. `Supply` is
  the quantity a list of items holds of a product. `Net` is IN minus OUT of
  a log for one product. `Restocked` and `Deducted` are the product table
  after a movement. `Restock` is the restocking loop that order
  cancellation, order deletion and purchase-order receipt all run.
- `orders.dfy`, `suppliers.dfy` and `products.dfy` follow the three route
  files. Each holds two kinds of member:
  - A pure specification per handler (`CreateOrderSpec`, ...). It gives the
    new tables or the error, with lemmas about it.
  - The handler itself, as a method over a `Database`. It has the source's
    loops. Its `ensures` says the new tables are exactly what the
    specification gives, and that a rejected request leaves them unchanged.
- `ledger.dfy` treats the service as a sequence of requests. It proves that
  the invariant holds after any sequence. Among other things, that means
  no stock level ever goes negative, with the corrections listed under
  "## Findings" applied. It also proves three more things:
  - the log only grows at its end;
  - outside manual adjustments, every stock change is what the appended
    IN and OUT records say;
  - a purchase order is received at most once.

Modelling decisions:

- Money is exact decimal in the source and integer cents here.
- Statuses are strings, as in the source. Any status may be requested.
  `Pending`, `Cancelled` and `Delivered` are the ones the handlers compare against.
- A request field that is absent is `None`.
- When a handler returns early, the database session discards its staged
  work. The model stages that work in local variables and commits only at
  the end, so a rejected request changes nothing.
- The item loop of order creation checks each item against the running
  stock. That stock has already been lowered by earlier items of the same
  order. `Orders.AdmitAllSucceedsIff` proves this is the same as checking
  each product's total demand against its stock before the order.
- A SKU is checked in two layers:
  - The handler looks for a duplicate only when the requested SKU is
    non-empty. A duplicate found there is `DuplicateSku`.
  - The column's unique constraint applies to every non-null SKU, the
    empty one included. A duplicate caught there is `UniqueViolation`.

## Model

| member | source | states |
|---|---|---|
| `Stock.Restock` | src/routes/orders.py:172-187 | the restocking loop adds each item's quantity to its product when the product still exists and appends one IN record with the given reference for exactly those items; the new tables equal `Restocked` of the old ones and the old log plus those records |
| `Stock.RestockKeepsValid` | src/routes/suppliers.py:265-280 | restocking by positive quantities keeps every stock level non-negative and appends only well-formed IN records |
| `Stock.NetRecords` | src/routes/orders.py:115-123 | the IN records of a list of items add up, for every product, to the quantity the items hold of it; the OUT records to its negation |
| `Stock.SupplyPresent` | src/routes/suppliers.py:265-268 | skipping the items of products that no longer exist changes nothing for any product that does exist |
| `Stock.RestockUndoesDeduct` | src/routes/orders.py:211-215 | giving back the quantities an order took returns the product table to what it was |
| `Orders.AdmitAllErrPersists` | src/routes/orders.py:78-94 | once an item is rejected, the rest of the list does not matter: the first rejected item decides the error |
| `Orders.AdmitAllEffect` | src/routes/orders.py:78-123 | a successful item loop stores one item per request, in order, with the request's price or else the product's unit price; lowers each product by what is ordered of it; logs one OUT/ORDER record per item with the order's id; and its total is the sum of the item totals |
| `Orders.AdmitAllSucceedsIff` | src/routes/orders.py:86-94 | the item loop succeeds if and only if every item names an existing product with a positive quantity and no product's total demand exceeds its stock, repeated products included |
| `Orders.CreateOrderSucceedsIff` | src/routes/orders.py:60-94 | order creation succeeds if and only if the item list is present and non-empty and the items are admissible as above |
| `Orders.CreateOrderEffect` | src/routes/orders.py:53-133 | a created order takes a fresh id and the requested status, Pending by default; stock drops by the quantities ordered and stays at or above zero; exactly one OUT record per item is appended; the stock change equals IN minus OUT of the appended records; total = sum of unit price times quantity; suppliers and purchase orders are unchanged |
| `Orders.CreateOrderPreservesValid` | src/routes/orders.py:91-123 | a created order keeps the ledger invariant |
| `Orders.InsufficientStockExample` | src/routes/orders.py:91-94 | with stocks 20 and 10, items (1, 5) and (2, 1000) are rejected with the second product's available and requested quantities |
| `Orders.DeleteOrderSpec` | src/routes/orders.py:161-195 | deleting an order succeeds if and only if it exists and is Pending or Cancelled; the order goes with its items; a Cancelled order's deletion changes nothing else |
| `Orders.UpdateOrderStatusSpec` | src/routes/orders.py:197-235 | a status change succeeds if and only if the order exists and a status is given; any change other than Pending to Cancelled sets the status and nothing else |
| `Orders.ReleaseEffect` | src/routes/orders.py:171-187 | giving back an order's stock raises each product by exactly the quantities its items hold of it, appends IN/ORDER_CANCELLATION records whose net is that rise, and keeps the invariant |
| `Orders.DeleteOrderPreservesValid` | src/routes/orders.py:167-190 | deleting an order keeps the ledger invariant |
| `Orders.UpdateOrderStatusPreservesValid` | src/routes/orders.py:204-230 | a status change keeps the ledger invariant |
| `Orders.DeleteAndCancelAgree` | src/routes/orders.py:171-187 | deleting a Pending order and cancelling it restore the same stock and append the same records |
| `Orders.CreateThenCancelRestores` | src/routes/orders.py:211-229 | creating a Pending order and then cancelling it returns every product to its stock before the order, and the two steps' records cancel out; deleting instead also removes the order |
| `Orders.CreateOrder` | src/routes/orders.py:53-133 | the handler's item loop computes exactly `CreateOrderSpec`; an early return leaves the tables unchanged |
| `Orders.DeleteOrder` | src/routes/orders.py:161-195 | the handler computes exactly `DeleteOrderSpec` |
| `Orders.UpdateOrderStatus` | src/routes/orders.py:197-235 | the handler computes exactly `UpdateOrderStatusSpec` |
| `Suppliers.PriceItemsErrPersists` | src/routes/suppliers.py:200-206 | the first rejected purchase item decides the error |
| `Suppliers.PriceItemsEffect` | src/routes/suppliers.py:197-224 | the purchase item loop succeeds if and only if every item has product, quantity and unit cost and names an existing product; it stores one item per request with total cost = unit cost times quantity, and the total is their sum |
| `Suppliers.CreatePurchaseOrderEffect` | src/routes/suppliers.py:168-231 | creating a purchase order succeeds if and only if a supplier id and a non-empty item list are given, the supplier exists and every item is well formed; it stores the order under a fresh id, with the requested status (Pending by default), and changes no stock and no log record |
| `Suppliers.CreatePurchaseOrderPreservesValid` | src/routes/suppliers.py:187-226 | purchase-order creation keeps the ledger invariant |
| `Suppliers.ReceivePurchaseOrderSpec` | src/routes/suppliers.py:255-293 | a receipt succeeds if and only if the purchase order exists and is not Delivered; a Delivered one is rejected with AlreadyReceived |
| `Suppliers.ReceiveEffect` | src/routes/suppliers.py:264-283 | a receipt raises each product by the quantities of its items, skips items of missing products, appends one IN/PURCHASE_ORDER record per stocked item, sets the status to Delivered and keeps the invariant; the stock change equals the net of the appended records |
| `Suppliers.ReceiveOnce` | src/routes/suppliers.py:261-283 | after a receipt the purchase order is Delivered and a second receipt is rejected |
| `Suppliers.DeletePurchaseOrderSpec` | src/routes/suppliers.py:295-310 | a purchase order can be deleted, with its items, if and only if it exists and is Pending or Cancelled |
| `Suppliers.CreateSupplierSpec` | src/routes/suppliers.py:48-73 | creating a supplier succeeds if and only if a name is given; it adds a fresh id and keeps the invariant |
| `Suppliers.DeleteSupplierSpec` | src/routes/suppliers.py:105-121 | a supplier can be deleted if and only if it exists, no product names it as supplier, and no purchase order belongs to it; a supplier with products is SupplierHasProducts; one with purchase orders fails at commit, because the orders' supplier id would be set to null (src/models/inventory.py:41, 147) |
| `Suppliers.NegativeQuantityReceipt` | src/routes/suppliers.py:208-210 | as written, a purchase item of quantity -3 is accepted, and receiving it drives a stock of 0 to -3; with the quantity check the request is rejected |
| `Suppliers.CreatePurchaseOrder` | src/routes/suppliers.py:168-231 | the handler's item loop computes exactly `CreatePurchaseOrderSpec`, the creation with the correction listed under "## Findings"; an early return leaves the tables unchanged |
| `Suppliers.ReceivePurchaseOrder` | src/routes/suppliers.py:255-293 | the handler computes exactly `ReceivePurchaseOrderSpec` |
| `Suppliers.DeletePurchaseOrder` | src/routes/suppliers.py:295-310 | the handler computes exactly `DeletePurchaseOrderSpec` |
| `Suppliers.CreateSupplier` | src/routes/suppliers.py:48-73 | the handler computes exactly `CreateSupplierSpec` |
| `Suppliers.DeleteSupplier` | src/routes/suppliers.py:105-121 | the handler computes exactly `DeleteSupplierSpec` |
| `Products.SkusDistinctPut` | src/models/inventory.py:67 | storing a product keeps SKUs unique if and only if it has no SKU or no other product carries its SKU |
| `Products.CreateProductEffect` | src/routes/products.py:58-93 | creation succeeds if and only if name and unit price are given, the opening stock is not negative and the SKU, if any, is free; a taken non-empty SKU is DuplicateSku; the stored product has stock 0 and reorder level 10 unless given, takes a fresh id, and nothing else changes |
| `Products.NegativeOpeningStock` | src/routes/products.py:81 | as written, a product created with stock level -5 is stored and breaks the invariant; with the stock check it is rejected |
| `Products.UpdateProductEffect` | src/routes/products.py:95-133 | an update succeeds if and only if the product exists and a given SKU is not another product's; each given field (name, description, category, unit price, reorder level, supplier, SKU) replaces the stored one and every other field is kept; the stock level never changes; no other product and no log record changes |
| `Products.AdjustStockSpec` | src/routes/products.py:147-187 | an adjustment succeeds if and only if the product exists, an adjustment is given and stock plus adjustment is not negative; otherwise it is NegativeStock |
| `Products.AdjustStockEffect` | src/routes/products.py:157-178 | after an adjustment the stock is old stock plus the adjustment and not negative; exactly one ADJUSTMENT record is appended, without reference id, whose quantity is the size of the change; no other product changes |
| `Products.AdjustStockBoundary` | src/routes/products.py:161-163 | from stock 5, -5 gives 0 and -6 is rejected; a missing adjustment is rejected |
| `Products.RestockLeavesLowStock` | src/routes/products.py:193-195 | restocking never adds a product to the low-stock selection |
| `Products.DeductKeepsLowStock` | src/routes/products.py:25 | taking stock for an order never removes a product from the low-stock selection |
| `Products.AdjustLowStock` | src/models/inventory.py:91 | after an adjustment the adjusted product is low on stock if and only if its new level is at most its reorder level; no other product's flag changes |
| `Products.CreateProduct` | src/routes/products.py:58-93 | the handler computes exactly `CreateProductSpec`, the creation with the correction listed under "## Findings" |
| `Products.UpdateProduct` | src/routes/products.py:95-133 | the handler's field-by-field assignments compute exactly `UpdateProductSpec` |
| `Products.AdjustStock` | src/routes/products.py:147-187 | the handler computes exactly `AdjustStockSpec` |
| `Ledger.StepPreservesValid` | src/models/inventory.py:64 | every request keeps the ledger invariant |
| `Ledger.RunPreservesValid` | src/routes/products.py:160-163 | with the corrections listed under "## Findings", after any sequence of requests every stock level is at or above zero and the invariant holds |
| `Ledger.StepAppends` | src/models/inventory.py:191-201 | no request removes a product or changes or removes a logged record |
| `Ledger.RunAppends` | src/routes/orders.py:123 | across any sequence of requests the old log is a prefix of the new one |
| `Ledger.StepAccounted` | src/routes/suppliers.py:271-280 | every request other than a manual adjustment changes a product's stock by exactly IN minus OUT of the records it appends |
| `Ledger.RunAccounted` | src/routes/orders.py:115-122 | over any sequence of requests without manual adjustment, each product's stock change equals IN minus OUT of the appended records |
| `Ledger.AdjustmentSignLost` | src/routes/products.py:170-176 | raising and lowering a stock by 3 append the same record, so the log alone cannot account for adjustments |
| `Ledger.StepKeepsDelivered` | src/routes/suppliers.py:301-302 | a Delivered purchase order is left exactly as it is by every request |
| `Ledger.RunKeepsDelivered` | src/routes/suppliers.py:283 | a Delivered purchase order stays Delivered, with the same items, across any sequence of requests |
| `Ledger.ReceiptAtMostOnce` | src/routes/suppliers.py:261-262 | once received, a purchase order is rejected with AlreadyReceived after any later sequence of requests |
| `Ledger.Serve` | src/routes/orders.py:128-133 | answering a request with its handler leaves the tables as `Step` says: the handler's result on success, unchanged on error |

## Left out

- Reads are not modelled: every GET endpoint, pagination, free-text search and serialisation. `get_order_stats` and its revenue sum are out too.
- The routes in `src/routes/reports.py` are not part of this model. They are SQL aggregation queries answered by the database.
- Updates of orders, purchase orders and suppliers (`update_order`, `update_purchase_order`, `update_supplier`) are not modelled. They are outside the stock ledger. Note that `update_purchase_order` can set any status, so it could move a Delivered purchase order back to Pending and allow a second receipt.
- Ledger.ReceiptAtMostOnce: holds only for sequences of the requests modelled here, because the purchase-order update above is not among them.
- `delete_product` is not modelled: it lies outside the stock ledger. Its order items, purchase-order items and transaction records keep a non-null product id (src/models/inventory.py:127, 175, 195), so deleting a product that has any of them fails at commit.
- Categories and `create_category` are not modelled. Parts of rows that no rule reads are not modelled either: customer and contact fields, notes, dates and timestamps.
- Foreign keys from products to suppliers and categories are not enforced by the database in use, and are not modelled.
- Requests are taken as already parsed. The model does not distinguish a key that is absent from one that is present with a null value. It does not model a failed integer or decimal conversion: the source would answer 500 and roll back.
- Money is integer cents. The declared column width (ten digits, two decimals) and rounding of prices with more digits are not modelled.
- HTTP status codes and error texts are reduced to the `Error` constructors.
- Concurrent requests and isolation are not modelled. Requests are sequential and atomic.
- Ids come from counters that are never reused. The database may reuse the highest id after a deletion. No rule here depends on the difference.
- Ledger.RunAccounted: excludes manual adjustments, because an ADJUSTMENT record stores the size of the change, not its sign. It also excludes products created during the run, because their opening stock has no record.

## Findings

| source | as written | input that shows it | evidently intended | confidence | as-written member | corrected member |
|---|---|---|---|---|---|---|
| src/routes/suppliers.py:208-210 | a purchase item's quantity is taken as given, zero and negative included, and receipt adds it to stock | a purchase order for product 1 with quantity -3 and unit cost 250, received while the product's stock is 0, leaves stock -3 and logs an IN record of -3 | reject a quantity of zero or less, as order creation does at src/routes/orders.py:87-88 | medium, not executed | `Suppliers.NegativeQuantityReceipt` | `Suppliers.CreatePurchaseOrderEffect` |
| src/routes/products.py:81 | the opening stock level is stored as given, negative included | creating a product with stock level -5 in empty tables stores stock -5 | reject a negative opening stock, as a manual adjustment does at src/routes/products.py:161-163 | medium, not executed | `Products.NegativeOpeningStock` | `Products.CreateProductEffect` |

Both rows have two halves in the Dafny:

- `Suppliers.CreatePurchaseOrderAsWritten` models purchase-order creation as written. `Suppliers.CreatePurchaseOrderSpec` carries the quantity check, and the purchase-order handler follows it.
- `Products.CreateProductAsWritten` and `Products.CreateProductSpec` are the two halves for products, in the same way.

The whole-run lemmas in `ledger.dfy` rely on the corrected versions.
