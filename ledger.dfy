/**
 * The whole service as a sequence of requests: each request is answered by
 * one handler, a rejected request leaves the tables as they were, and the
 * properties of the stock ledger hold across any sequence of requests.
 */
module Ledger {
  import opened Wrappers
  import opened Inventory
  import opened Stock
  import opened Orders
  import opened Suppliers
  import opened Products

  /** One call of a state-changing endpoint. */
  datatype Request =
    | CreateOrderReq(order: OrderRequest)
    | DeleteOrderReq(orderId: int)
    | UpdateOrderStatusReq(orderId: int, status: Option<string>)
    | CreatePurchaseOrderReq(purchase: PurchaseOrderRequest)
    | ReceivePurchaseOrderReq(purchaseOrderId: int)
    | DeletePurchaseOrderReq(purchaseOrderId: int)
    | CreateSupplierReq(name: Option<string>)
    | DeleteSupplierReq(supplierId: int)
    | CreateProductReq(product: ProductRequest)
    | UpdateProductReq(productId: int, product: ProductRequest)
    | AdjustStockReq(productId: int, adjustment: Option<int>)

  function Tables(r: Result<(Db, int), Error>): Result<Db, Error> {
    match r
    case Ok((d1, _)) => Ok(d1)
    case Err(e) => Err(e)
  }

  /** The new tables, or the error, that the handler of `rq` answers with. */
  function Outcome(d: Db, rq: Request): Result<Db, Error> {
    match rq
    case CreateOrderReq(o) => Tables(CreateOrderSpec(d, o))
    case DeleteOrderReq(id) => DeleteOrderSpec(d, id)
    case UpdateOrderStatusReq(id, s) => UpdateOrderStatusSpec(d, id, s)
    case CreatePurchaseOrderReq(po) => Tables(CreatePurchaseOrderSpec(d, po))
    case ReceivePurchaseOrderReq(id) => ReceivePurchaseOrderSpec(d, id)
    case DeletePurchaseOrderReq(id) => DeletePurchaseOrderSpec(d, id)
    case CreateSupplierReq(name) => Tables(CreateSupplierSpec(d, name))
    case DeleteSupplierReq(id) => DeleteSupplierSpec(d, id)
    case CreateProductReq(p) => Tables(CreateProductSpec(d, p))
    case UpdateProductReq(id, p) => UpdateProductSpec(d, id, p)
    case AdjustStockReq(id, a) => AdjustStockSpec(d, id, a)
  }

  /** The tables after `rq`: a rejected request rolls back and changes nothing. */
  function Step(d: Db, rq: Request): Db {
    match Outcome(d, rq)
    case Ok(d1) => d1
    case Err(_) => d
  }

  /** The tables after the requests `rs`, answered in order. */
  function Run(d: Db, rs: seq<Request>): Db
    decreases |rs|
  {
    if rs == [] then d else Step(Run(d, rs[..|rs| - 1]), rs[|rs| - 1])
  }

  /** Every handler keeps the ledger invariant; no stock level becomes negative. */
  lemma StepPreservesValid(d: Db, rq: Request)
    requires d.Valid()
    ensures Step(d, rq).Valid()
  {
    if Outcome(d, rq).Ok? {
      match rq
      case CreateOrderReq(o) => CreateOrderPreservesValid(d, o);
      case DeleteOrderReq(id) => DeleteOrderPreservesValid(d, id);
      case UpdateOrderStatusReq(id, s) => UpdateOrderStatusPreservesValid(d, id, s);
      case CreatePurchaseOrderReq(po) => CreatePurchaseOrderPreservesValid(d, po);
      case ReceivePurchaseOrderReq(id) => ReceiveEffect(d, id);
      case DeletePurchaseOrderReq(id) =>
      case CreateSupplierReq(name) =>
      case DeleteSupplierReq(id) =>
      case CreateProductReq(p) => CreateProductEffect(d, p);
      case UpdateProductReq(id, p) => UpdateProductEffect(d, id, p);
      case AdjustStockReq(id, a) => AdjustStockEffect(d, id, a);
    }
  }

  /** From valid tables, any sequence of requests leaves valid tables: in
      particular every stock level stays at or above zero. */
  lemma {:induction false} RunPreservesValid(d: Db, rs: seq<Request>)
    requires d.Valid()
    ensures Run(d, rs).Valid()
    ensures forall pid :: pid in Run(d, rs).products ==> Run(d, rs).products[pid].stockLevel >= 0
  {
    if rs != [] {
      RunPreservesValid(d, rs[..|rs| - 1]);
      StepPreservesValid(Run(d, rs[..|rs| - 1]), rs[|rs| - 1]);
    }
  }

  /** No handler removes a product, rewrites or removes a logged record:
      the log only grows at its end. */
  lemma StepAppends(d: Db, rq: Request)
    requires d.Valid()
    ensures d.products.Keys <= Step(d, rq).products.Keys
    ensures |d.transactions| <= |Step(d, rq).transactions|
    ensures Step(d, rq).transactions[..|d.transactions|] == d.transactions
  {
    if Outcome(d, rq).Ok? {
      match rq
      case CreateOrderReq(o) => CreateOrderEffect(d, o);
      case DeleteOrderReq(id) =>
        if d.orders[id].status == PENDING {
          ReleaseEffect(d, id);
        }
      case UpdateOrderStatusReq(id, s) =>
        if d.orders[id].status == PENDING && s.value == CANCELLED {
          ReleaseEffect(d, id);
        }
      case CreatePurchaseOrderReq(po) => CreatePurchaseOrderEffect(d, po);
      case ReceivePurchaseOrderReq(id) => ReceiveEffect(d, id);
      case DeletePurchaseOrderReq(id) =>
      case CreateSupplierReq(name) =>
      case DeleteSupplierReq(id) =>
      case CreateProductReq(p) => CreateProductEffect(d, p);
      case UpdateProductReq(id, p) => UpdateProductEffect(d, id, p);
      case AdjustStockReq(id, a) => AdjustStockEffect(d, id, a);
    }
  }

  /** Across any sequence of requests the log is append-only and no product disappears. */
  lemma {:induction false} RunAppends(d: Db, rs: seq<Request>)
    requires d.Valid()
    ensures d.products.Keys <= Run(d, rs).products.Keys
    ensures |d.transactions| <= |Run(d, rs).transactions|
    ensures Run(d, rs).transactions[..|d.transactions|] == d.transactions
  {
    if rs != [] {
      var mid := Run(d, rs[..|rs| - 1]);
      RunAppends(d, rs[..|rs| - 1]);
      RunPreservesValid(d, rs[..|rs| - 1]);
      StepAppends(mid, rs[|rs| - 1]);
      assert Run(d, rs).transactions[..|mid.transactions|][..|d.transactions|] == Run(d, rs).transactions[..|d.transactions|];
    }
  }

  /** The stock change of product `pid` between `d` and `d1` is accounted for
      by the IN and OUT records `d1` appends to `d`'s log. */
  predicate Accounted(d: Db, d1: Db, pid: int)
    requires pid in d.products && pid in d1.products
  {
    d1.products[pid].stockLevel - d.products[pid].stockLevel == Net(d1.transactions, pid) - Net(d.transactions, pid)
  }

  /** Every request other than a manual adjustment moves a product's stock by
      exactly IN minus OUT of the records it appends. */
  lemma StepAccounted(d: Db, rq: Request, pid: int)
    requires d.Valid() && !rq.AdjustStockReq? && pid in d.products
    ensures pid in Step(d, rq).products && Accounted(d, Step(d, rq), pid)
  {
    StepAppends(d, rq);
    if Outcome(d, rq).Ok? {
      match rq
      case CreateOrderReq(o) => CreateOrderEffect(d, o);
      case DeleteOrderReq(id) =>
        if d.orders[id].status == PENDING {
          ReleaseEffect(d, id);
        }
      case UpdateOrderStatusReq(id, s) =>
        if d.orders[id].status == PENDING && s.value == CANCELLED {
          ReleaseEffect(d, id);
        }
      case CreatePurchaseOrderReq(po) => CreatePurchaseOrderEffect(d, po);
      case ReceivePurchaseOrderReq(id) => ReceiveEffect(d, id);
      case DeletePurchaseOrderReq(id) =>
      case CreateSupplierReq(name) =>
      case DeleteSupplierReq(id) =>
      case CreateProductReq(p) => CreateProductEffect(d, p);
      case UpdateProductReq(id, p) => UpdateProductEffect(d, id, p);
    }
  }

  /** With no manual adjustment among the requests, the log accounts for
      every stock change of every product that existed at the start. */
  lemma {:induction false} RunAccounted(d: Db, rs: seq<Request>, pid: int)
    requires d.Valid() && pid in d.products
    requires forall k :: 0 <= k < |rs| ==> !rs[k].AdjustStockReq?
    ensures pid in Run(d, rs).products && Accounted(d, Run(d, rs), pid)
  {
    if rs != [] {
      var pre := rs[..|rs| - 1];
      var mid := Run(d, pre);
      assert forall k :: 0 <= k < |pre| ==> pre[k] == rs[k];
      RunAccounted(d, pre, pid);
      RunPreservesValid(d, pre);
      StepAccounted(mid, rs[|rs| - 1], pid);
    }
  }

  /** Why adjustments are excluded above: the record of an adjustment keeps
      only its magnitude, so raising and lowering a stock by the same amount
      log the same record. */
  lemma AdjustmentSignLost(d: Db, id: int)
    requires id in d.products && d.products[id].stockLevel >= 3
    ensures AdjustStockSpec(d, id, Some(3)).Ok? && AdjustStockSpec(d, id, Some(-3)).Ok?
    ensures AdjustStockSpec(d, id, Some(3)).value.transactions == AdjustStockSpec(d, id, Some(-3)).value.transactions
    ensures AdjustStockSpec(d, id, Some(3)).value.products[id].stockLevel
         == AdjustStockSpec(d, id, Some(-3)).value.products[id].stockLevel + 6
  {
  }

  /** A Delivered purchase order stays as it is: it cannot be deleted, and
      no other request touches it. */
  lemma StepKeepsDelivered(d: Db, rq: Request, id: int)
    requires d.Valid() && id in d.purchaseOrders && d.purchaseOrders[id].status == DELIVERED
    ensures id in Step(d, rq).purchaseOrders && Step(d, rq).purchaseOrders[id] == d.purchaseOrders[id]
  {
    if Outcome(d, rq).Ok? {
      match rq
      case CreateOrderReq(o) => CreateOrderEffect(d, o);
      case CreatePurchaseOrderReq(po) => CreatePurchaseOrderEffect(d, po);
      case CreateProductReq(p) => CreateProductEffect(d, p);
      case UpdateProductReq(pid, p) => UpdateProductEffect(d, pid, p);
      case _ =>
    }
  }

  /** A purchase order is received at most once: once received, it is
      rejected with AlreadyReceived after any later sequence of requests. */
  lemma {:induction false} ReceiptAtMostOnce(d: Db, id: int, rs: seq<Request>)
    requires d.Valid() && ReceivePurchaseOrderSpec(d, id).Ok?
    ensures var d1 := ReceivePurchaseOrderSpec(d, id).value;
      ReceivePurchaseOrderSpec(Run(d1, rs), id) == Err(AlreadyReceived)
  {
    var d1 := ReceivePurchaseOrderSpec(d, id).value;
    ReceiveEffect(d, id);
    RunKeepsDelivered(d1, rs, id);
  }

  lemma {:induction false} RunKeepsDelivered(d: Db, rs: seq<Request>, id: int)
    requires d.Valid() && id in d.purchaseOrders && d.purchaseOrders[id].status == DELIVERED
    ensures id in Run(d, rs).purchaseOrders && Run(d, rs).purchaseOrders[id] == d.purchaseOrders[id]
  {
    if rs != [] {
      RunKeepsDelivered(d, rs[..|rs| - 1], id);
      RunPreservesValid(d, rs[..|rs| - 1]);
      StepKeepsDelivered(Run(d, rs[..|rs| - 1]), rs[|rs| - 1], id);
    }
  }

  /** Answers one request with its handler; the tables end up as `Step` says. */
  method Serve(db: Database, rq: Request) returns (r: Result<(), Error>)
    requires db.Valid()
    modifies db
    ensures db.Valid()
    ensures db.Value() == Step(old(db.Value()), rq)
    ensures r.Ok? <==> Outcome(old(db.Value()), rq).Ok?
    ensures r.Err? ==> Outcome(old(db.Value()), rq) == Err(r.error)
  {
    match rq {
      case CreateOrderReq(o) =>
        var res := CreateOrder(db, o);
        r := if res.Ok? then Ok(()) else Err(res.error);
      case DeleteOrderReq(id) =>
        r := DeleteOrder(db, id);
      case UpdateOrderStatusReq(id, s) =>
        r := UpdateOrderStatus(db, id, s);
      case CreatePurchaseOrderReq(po) =>
        var res := CreatePurchaseOrder(db, po);
        r := if res.Ok? then Ok(()) else Err(res.error);
      case ReceivePurchaseOrderReq(id) =>
        r := ReceivePurchaseOrder(db, id);
      case DeletePurchaseOrderReq(id) =>
        r := DeletePurchaseOrder(db, id);
      case CreateSupplierReq(name) =>
        var res := CreateSupplier(db, name);
        r := if res.Ok? then Ok(()) else Err(res.error);
      case DeleteSupplierReq(id) =>
        r := DeleteSupplier(db, id);
      case CreateProductReq(p) =>
        var res := CreateProduct(db, p);
        r := if res.Ok? then Ok(()) else Err(res.error);
      case UpdateProductReq(id, p) =>
        r := UpdateProduct(db, id, p);
      case AdjustStockReq(id, a) =>
        r := AdjustStock(db, id, a);
    }
  }
}
