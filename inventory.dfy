/**
 * The persistent tables of the inventory system and their rows: products,
 * suppliers, customer orders with their items, purchase orders with their
 * items, and the append-only log of inventory transactions.
 *
 * Money columns are exact decimals with two places; they are kept here as
 * integer cents. Free-text columns (notes, customer details, addresses) and
 * timestamps do not take part in any rule and are not modelled.
 */
module Inventory {
  import opened Wrappers

  /** An amount of money in cents. */
  type Cents = int

  const PENDING: string := "Pending"
  const CANCELLED: string := "Cancelled"
  const DELIVERED: string := "Delivered"

  /** Column defaults of a product row. */
  const DEFAULT_STOCK_LEVEL: int := 0
  const DEFAULT_REORDER_LEVEL: int := 10

  datatype Product = Product(
    name: string,
    description: Option<string>,
    categoryId: Option<int>,
    unitPrice: Cents,
    stockLevel: int,
    reorderLevel: int,
    supplierId: Option<int>,
    sku: Option<string>)

  /** The `is_low_stock` flag of a product: on hand at or below its reorder level. */
  predicate IsLowStock(p: Product) {
    p.stockLevel <= p.reorderLevel
  }

  datatype OrderItem = OrderItem(productId: int, quantity: int, unitPrice: Cents, totalPrice: Cents)

  /** A customer order owns its items: deleting the order deletes them. */
  datatype Order = Order(status: string, totalAmount: Cents, items: seq<OrderItem>)

  datatype PurchaseOrderItem = PurchaseOrderItem(productId: int, quantity: int, unitCost: Cents, totalCost: Cents)

  /** A purchase order owns its items: deleting it deletes them. */
  datatype PurchaseOrder = PurchaseOrder(supplierId: int, status: string, totalAmount: Cents, items: seq<PurchaseOrderItem>)

  datatype TxnType = In | Out | Adjustment

  datatype RefType = OrderRef | OrderCancellation | PurchaseOrderRef | AdjustmentRef

  /** One inventory transaction: product, type and quantity are always set. */
  datatype Txn = Txn(productId: int, kind: TxnType, quantity: int, refType: RefType, refId: Option<int>)

  /** The errors the handlers answer with; each leaves the tables as they were. */
  datatype Error =
    | NotFound                                  // the addressed row does not exist
    | MissingField(field: string)               // a required request field is absent
    | NoItems                                   // an order or purchase order with no items
    | IncompleteItem                            // an item without one of its required fields
    | ProductNotFound(productId: int)
    | InvalidQuantity
    | InsufficientStock(available: int, requested: int)
    | NegativeStock
    | AlreadyReceived
    | SupplierNotFound
    | IllegalStatus(status: string)             // deleting an order in a status that forbids it
    | SupplierHasProducts
    | NotNullViolation                          // a commit that would leave a NOT NULL column empty
    | DuplicateSku                              // the handler's own SKU check
    | UniqueViolation                           // the database's unique constraint on the SKU column

  /** The shape every record the handlers append has: an IN or OUT record
      names the order or purchase order behind it and moves a positive
      quantity; an adjustment has no reference id. */
  predicate WellFormedTxn(t: Txn) {
    match t.kind
    case Out => t.quantity > 0 && t.refType == OrderRef && t.refId.Some?
    case In => t.quantity > 0 && (t.refType == OrderCancellation || t.refType == PurchaseOrderRef) && t.refId.Some?
    case Adjustment => t.quantity >= 0 && t.refType == AdjustmentRef && t.refId.None?
  }

  /** No two products carry the same (non-null) SKU. */
  predicate SkusDistinct(products: map<int, Product>) {
    forall a, b :: a in products && b in products && a != b && products[a].sku.Some? ==> products[a].sku != products[b].sku
  }

  predicate OrderItemsPositive(items: seq<OrderItem>) {
    forall k :: 0 <= k < |items| ==> items[k].quantity > 0
  }

  predicate PurchaseItemsPositive(items: seq<PurchaseOrderItem>) {
    forall k :: 0 <= k < |items| ==> items[k].quantity > 0
  }

  /** The whole database as a value. Row ids are handed out by counters, as
      the database's integer primary keys are. */
  datatype Db = Db(
    products: map<int, Product>,
    suppliers: set<int>,
    orders: map<int, Order>,
    purchaseOrders: map<int, PurchaseOrder>,
    transactions: seq<Txn>,
    nextProductId: int,
    nextSupplierId: int,
    nextOrderId: int,
    nextPurchaseOrderId: int)
  {
    /** The invariant of the stock ledger: no stock level is negative, SKUs
        are unique, ids are below their counters, every stored item moves a
        positive quantity and every logged record is well formed. */
    predicate Valid() {
      && (forall pid :: pid in products ==> products[pid].stockLevel >= 0 && pid < nextProductId)
      && SkusDistinct(products)
      && (forall s :: s in suppliers ==> s < nextSupplierId)
      && (forall oid :: oid in orders ==> oid < nextOrderId && OrderItemsPositive(orders[oid].items))
      && (forall poid :: poid in purchaseOrders ==> poid < nextPurchaseOrderId && PurchaseItemsPositive(purchaseOrders[poid].items))
      && (forall k :: 0 <= k < |transactions| ==> WellFormedTxn(transactions[k]))
    }
  }

  /** The tables, updated in place by the request handlers. */
  class Database {
    var products: map<int, Product>
    var suppliers: set<int>
    var orders: map<int, Order>
    var purchaseOrders: map<int, PurchaseOrder>
    var transactions: seq<Txn>
    var nextProductId: int
    var nextSupplierId: int
    var nextOrderId: int
    var nextPurchaseOrderId: int

    /** The tables as a value. */
    function Value(): Db
      reads this
    {
      Db(products, suppliers, orders, purchaseOrders, transactions,
         nextProductId, nextSupplierId, nextOrderId, nextPurchaseOrderId)
    }

    predicate Valid()
      reads this
    {
      Value().Valid()
    }

    /** Empty tables; the first id of every table is 1. */
    constructor ()
      ensures Valid()
      ensures Value() == Db(map[], {}, map[], map[], [], 1, 1, 1, 1)
    {
      products, suppliers, orders, purchaseOrders, transactions := map[], {}, map[], map[], [];
      nextProductId, nextSupplierId, nextOrderId, nextPurchaseOrderId := 1, 1, 1, 1;
    }
  }
}
