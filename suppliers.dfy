/**
 * Suppliers and purchase orders: creating a purchase order (which only
 * prices its items), receiving it (which adds its items to stock, logs IN
 * records and marks it Delivered), and the guards on deleting purchase
 * orders and suppliers.
 */
module Suppliers {
  import opened Wrappers
  import opened Inventory
  import opened Stock

  datatype PurchaseItemRequest = PurchaseItemRequest(productId: Option<int>, quantity: Option<int>, unitCost: Option<Cents>)

  datatype PurchaseOrderRequest = PurchaseOrderRequest(
    supplierId: Option<int>, items: Option<seq<PurchaseItemRequest>>, status: Option<string>)

  /** The items and the running total staged while a purchase order's items are processed. */
  datatype Priced = Priced(items: seq<PurchaseOrderItem>, total: Cents)

  /** One pass of the item loop. The handler checks the three fields and the
      product; `checkQuantity` adds the positive-quantity check it lacks. */
  function PriceItem(pr: Priced, products: map<int, Product>, req: PurchaseItemRequest, checkQuantity: bool): Result<Priced, Error> {
    if req.productId.None? || req.quantity.None? || req.unitCost.None? then Err(IncompleteItem)
    else if req.productId.value !in products then Err(ProductNotFound(req.productId.value))
    else if checkQuantity && req.quantity.value <= 0 then Err(InvalidQuantity)
    else
      var cost := req.unitCost.value * req.quantity.value;
      Ok(Priced(pr.items + [PurchaseOrderItem(req.productId.value, req.quantity.value, req.unitCost.value, cost)], pr.total + cost))
  }

  /** The item loop over `reqs`; the first rejected item decides the error. */
  function PriceItems(products: map<int, Product>, reqs: seq<PurchaseItemRequest>, checkQuantity: bool): Result<Priced, Error>
    decreases |reqs|
  {
    if reqs == [] then Ok(Priced([], 0))
    else
      match PriceItems(products, reqs[..|reqs| - 1], checkQuantity)
      case Err(e) => Err(e)
      case Ok(pr) => PriceItem(pr, products, reqs[|reqs| - 1], checkQuantity)
  }

  lemma {:induction false} PriceItemsErrPersists(products: map<int, Product>, reqs: seq<PurchaseItemRequest>, checkQuantity: bool, i: nat)
    requires i <= |reqs| && PriceItems(products, reqs[..i], checkQuantity).Err?
    ensures PriceItems(products, reqs, checkQuantity) == PriceItems(products, reqs[..i], checkQuantity)
  {
    if i == |reqs| {
      assert reqs[..i] == reqs;
    } else {
      var pre := reqs[..|reqs| - 1];
      assert pre[..i] == reqs[..i];
      PriceItemsErrPersists(products, pre, checkQuantity, i);
    }
  }

  predicate WellFormedPurchaseItem(products: map<int, Product>, r: PurchaseItemRequest, checkQuantity: bool) {
    && r.productId.Some? && r.quantity.Some? && r.unitCost.Some?
    && r.productId.value in products
    && (checkQuantity ==> r.quantity.value > 0)
  }

  /** The stored item for an accepted request: its total cost is unit cost times quantity. */
  function PurchaseItemFor(r: PurchaseItemRequest): PurchaseOrderItem
    requires r.productId.Some? && r.quantity.Some? && r.unitCost.Some?
  {
    PurchaseOrderItem(r.productId.value, r.quantity.value, r.unitCost.value, r.unitCost.value * r.quantity.value)
  }

  /** The sum of the items' total costs. */
  function PurchaseTotal(items: seq<PurchaseOrderItem>): Cents
    decreases |items|
  {
    if items == [] then 0 else PurchaseTotal(items[..|items| - 1]) + items[|items| - 1].totalCost
  }

  /** The item loop succeeds exactly when every item is well formed; it then
      stores one item per request, in order, and the total is the sum of
      unit cost times quantity. */
  lemma PriceItemsEffect(products: map<int, Product>, reqs: seq<PurchaseItemRequest>, checkQuantity: bool)
    ensures PriceItems(products, reqs, checkQuantity).Ok? <==>
      forall k :: 0 <= k < |reqs| ==> WellFormedPurchaseItem(products, reqs[k], checkQuantity)
    ensures PriceItems(products, reqs, checkQuantity).Ok? ==>
      var pr := PriceItems(products, reqs, checkQuantity).value;
      && |pr.items| == |reqs|
      && (forall k :: 0 <= k < |reqs| ==> WellFormedPurchaseItem(products, reqs[k], checkQuantity) && pr.items[k] == PurchaseItemFor(reqs[k]))
      && pr.total == PurchaseTotal(pr.items)
  {
    PriceItemsSucceedsIff(products, reqs, checkQuantity);
    if PriceItems(products, reqs, checkQuantity).Ok? {
      PriceItemsItems(products, reqs, checkQuantity);
    }
  }

  lemma {:induction false} PriceItemsSucceedsIff(products: map<int, Product>, reqs: seq<PurchaseItemRequest>, checkQuantity: bool)
    ensures PriceItems(products, reqs, checkQuantity).Ok? <==>
      forall k :: 0 <= k < |reqs| ==> WellFormedPurchaseItem(products, reqs[k], checkQuantity)
  {
    if reqs != [] {
      var pre := reqs[..|reqs| - 1];
      PriceItemsSucceedsIff(products, pre, checkQuantity);
      assert forall k :: 0 <= k < |pre| ==> pre[k] == reqs[k];
    }
  }

  lemma {:induction false} PriceItemsItems(products: map<int, Product>, reqs: seq<PurchaseItemRequest>, checkQuantity: bool)
    requires PriceItems(products, reqs, checkQuantity).Ok?
    ensures var pr := PriceItems(products, reqs, checkQuantity).value;
      && |pr.items| == |reqs|
      && (forall k :: 0 <= k < |reqs| ==> WellFormedPurchaseItem(products, reqs[k], checkQuantity) && pr.items[k] == PurchaseItemFor(reqs[k]))
      && pr.total == PurchaseTotal(pr.items)
  {
    if reqs != [] {
      var n := |reqs|;
      var pre, last := reqs[..n - 1], reqs[n - 1];
      PriceItemsItems(products, pre, checkQuantity);
      var prev := PriceItems(products, pre, checkQuantity).value;
      var pr := PriceItems(products, reqs, checkQuantity).value;
      assert pr.items == prev.items + [PurchaseItemFor(last)];
      assert pr.items[..n - 1] == prev.items;
      forall k | 0 <= k < n
        ensures WellFormedPurchaseItem(products, reqs[k], checkQuantity) && pr.items[k] == PurchaseItemFor(reqs[k])
      {
        if k < n - 1 {
          assert pre[k] == reqs[k];
          assert pr.items[k] == prev.items[k];
        }
      }
    }
  }

  /** A new purchase order, or the error of the first rejected check. */
  function NewPurchaseOrder(d: Db, req: PurchaseOrderRequest, checkQuantity: bool): Result<(Db, int), Error> {
    if req.supplierId.None? then Err(MissingField("supplier_id"))
    else if req.items.None? || req.items.value == [] then Err(NoItems)
    else if req.supplierId.value !in d.suppliers then Err(SupplierNotFound)
    else
      var id := d.nextPurchaseOrderId;
      match PriceItems(d.products, req.items.value, checkQuantity)
      case Err(e) => Err(e)
      case Ok(pr) =>
        Ok((d.(purchaseOrders := d.purchaseOrders[id := PurchaseOrder(req.supplierId.value, req.status.GetOr(PENDING), pr.total, pr.items)],
               nextPurchaseOrderId := id + 1), id))
  }

  /** Purchase-order creation as the handler is written: an item's quantity
      is taken as given, zero and negative included. */
  function CreatePurchaseOrderAsWritten(d: Db, req: PurchaseOrderRequest): Result<(Db, int), Error> {
    NewPurchaseOrder(d, req, false)
  }

  /** Purchase-order creation with the positive-quantity check that order
      creation has; the handler below follows this one. */
  function CreatePurchaseOrderSpec(d: Db, req: PurchaseOrderRequest): Result<(Db, int), Error> {
    NewPurchaseOrder(d, req, true)
  }

  /** Creating a purchase order succeeds exactly when a supplier id and a
      non-empty item list are given, the supplier exists and every item is
      well formed; it stores the order under a fresh id with the requested
      status (Pending by default) and total = sum of unit cost times
      quantity, and changes no stock and no transaction. */
  lemma CreatePurchaseOrderEffect(d: Db, req: PurchaseOrderRequest)
    requires d.Valid()
    ensures CreatePurchaseOrderSpec(d, req).Ok? <==>
      && req.supplierId.Some? && req.items.Some? && req.items.value != []
      && req.supplierId.value in d.suppliers
      && (forall k :: 0 <= k < |req.items.value| ==> WellFormedPurchaseItem(d.products, req.items.value[k], true))
    ensures CreatePurchaseOrderSpec(d, req).Ok? ==>
      var (d1, id) := CreatePurchaseOrderSpec(d, req).value;
      var reqs := req.items.value;
      && id !in d.purchaseOrders && id in d1.purchaseOrders
      && d1.purchaseOrders == d.purchaseOrders[id := d1.purchaseOrders[id]]
      && d1.purchaseOrders[id].supplierId == req.supplierId.value
      && d1.purchaseOrders[id].status == req.status.GetOr(PENDING)
      && |d1.purchaseOrders[id].items| == |reqs|
      && (forall k :: 0 <= k < |reqs| ==> WellFormedPurchaseItem(d.products, reqs[k], true) && d1.purchaseOrders[id].items[k] == PurchaseItemFor(reqs[k]))
      && d1.purchaseOrders[id].totalAmount == PurchaseTotal(d1.purchaseOrders[id].items)
      && d1.products == d.products && d1.transactions == d.transactions
      && d1.orders == d.orders && d1.suppliers == d.suppliers
  {
    if req.items.Some? {
      PriceItemsEffect(d.products, req.items.value, true);
    }
  }

  lemma CreatePurchaseOrderPreservesValid(d: Db, req: PurchaseOrderRequest)
    requires d.Valid() && CreatePurchaseOrderSpec(d, req).Ok?
    ensures CreatePurchaseOrderSpec(d, req).value.0.Valid()
  {
    var (d1, id) := CreatePurchaseOrderSpec(d, req).value;
    var reqs := req.items.value;
    PriceItemsEffect(d.products, reqs, true);
    var pr := PriceItems(d.products, reqs, true).value;
    forall k | 0 <= k < |pr.items|
      ensures pr.items[k].quantity > 0
    {
      assert WellFormedPurchaseItem(d.products, reqs[k], true);
    }
    var po := PurchaseOrder(req.supplierId.value, req.status.GetOr(PENDING), pr.total, pr.items);
    assert d1 == d.(purchaseOrders := d.purchaseOrders[id := po], nextPurchaseOrderId := id + 1);
  }

  /** Receiving a purchase order: rejected once it is Delivered; otherwise
      each item's quantity goes to its product (items of products that no
      longer exist are skipped), one IN / PURCHASE_ORDER record per restocked
      item, and the order becomes Delivered. */
  function ReceivePurchaseOrderSpec(d: Db, id: int): (r: Result<Db, Error>)
    ensures r.Ok? <==> id in d.purchaseOrders && d.purchaseOrders[id].status != DELIVERED
    ensures id in d.purchaseOrders && d.purchaseOrders[id].status == DELIVERED ==> r == Err(AlreadyReceived)
  {
    if id !in d.purchaseOrders then Err(NotFound)
    else
      var po := d.purchaseOrders[id];
      if po.status == DELIVERED then Err(AlreadyReceived)
      else
        var lines := PurchaseLines(po.items);
        Ok(d.(products := Restocked(d.products, lines),
              transactions := d.transactions + Records(Present(lines, d.products.Keys), In, PurchaseOrderRef, id),
              purchaseOrders := d.purchaseOrders[id := po.(status := DELIVERED)]))
  }

  /** A receipt: each product gains the quantities the order's items hold of
      it, the stock change equals IN minus OUT of the appended records, the
      order is Delivered and keeps its items, and the invariant holds. */
  lemma ReceiveEffect(d: Db, id: int)
    requires d.Valid() && ReceivePurchaseOrderSpec(d, id).Ok?
    ensures var d1, lines := ReceivePurchaseOrderSpec(d, id).value, PurchaseLines(d.purchaseOrders[id].items);
      && d1.products.Keys == d.products.Keys
      && (forall pid :: pid in d.products ==>
            d1.products[pid] == d.products[pid].(stockLevel := d.products[pid].stockLevel + Supply(lines, pid))
            && d1.products[pid].stockLevel >= d.products[pid].stockLevel
            && d1.products[pid].stockLevel - d.products[pid].stockLevel == Net(d1.transactions, pid) - Net(d.transactions, pid))
      && d1.transactions == d.transactions + Records(Present(lines, d.products.Keys), In, PurchaseOrderRef, id)
      && d1.purchaseOrders == d.purchaseOrders[id := d.purchaseOrders[id].(status := DELIVERED)]
      && d1.Valid()
  {
    var d1, lines := ReceivePurchaseOrderSpec(d, id).value, PurchaseLines(d.purchaseOrders[id].items);
    var added := Records(Present(lines, d.products.Keys), In, PurchaseOrderRef, id);
    assert Positive(lines);
    forall pid | pid in d.products
      ensures d1.products[pid].stockLevel - d.products[pid].stockLevel == Net(d1.transactions, pid) - Net(d.transactions, pid)
      ensures d1.products[pid].stockLevel >= d.products[pid].stockLevel
    {
      NetAppend(d.transactions, added, pid);
      NetRecords(Present(lines, d.products.Keys), PurchaseOrderRef, id, pid);
      SupplyPresent(lines, d.products.Keys, pid);
      SupplyNonNegative(lines, pid);
    }
    RestockKeepsValid(d, lines, PurchaseOrderRef, id);
    var mid := d.(products := d1.products, transactions := d1.transactions);
    assert d1 == mid.(purchaseOrders := d1.purchaseOrders);
  }

  /** A purchase order is received at most once: after a receipt it is
      Delivered and a second receipt is rejected with the tables unchanged. */
  lemma ReceiveOnce(d: Db, id: int)
    requires ReceivePurchaseOrderSpec(d, id).Ok?
    ensures var d1 := ReceivePurchaseOrderSpec(d, id).value;
      && id in d1.purchaseOrders && d1.purchaseOrders[id].status == DELIVERED
      && ReceivePurchaseOrderSpec(d1, id) == Err(AlreadyReceived)
  {
  }

  /** Deleting a purchase order (with its items): only while Pending or Cancelled. */
  function DeletePurchaseOrderSpec(d: Db, id: int): (r: Result<Db, Error>)
    ensures r.Ok? <==> id in d.purchaseOrders && (d.purchaseOrders[id].status == PENDING || d.purchaseOrders[id].status == CANCELLED)
    ensures r.Ok? ==> r.value == d.(purchaseOrders := d.purchaseOrders - {id})
  {
    if id !in d.purchaseOrders then Err(NotFound)
    else
      var status := d.purchaseOrders[id].status;
      if status != PENDING && status != CANCELLED then Err(IllegalStatus(status))
      else Ok(d.(purchaseOrders := d.purchaseOrders - {id}))
  }

  /** Creating a supplier: the name is required; the supplier takes the next id. */
  function CreateSupplierSpec(d: Db, name: Option<string>): (r: Result<(Db, int), Error>)
    ensures r.Ok? <==> name.Some?
    ensures r.Ok? ==> r.value.0 == d.(suppliers := d.suppliers + {r.value.1}, nextSupplierId := r.value.1 + 1)
    ensures r.Ok? && d.Valid() ==> r.value.1 !in d.suppliers && r.value.0.Valid()
  {
    if name.None? then Err(MissingField("supplier_name"))
    else
      var id := d.nextSupplierId;
      Ok((d.(suppliers := d.suppliers + {id}, nextSupplierId := id + 1), id))
  }

  /** Deleting a supplier is refused while any product names it as its supplier. */
  function DeleteSupplierSpec(d: Db, id: int): (r: Result<Db, Error>)
    ensures r.Ok? <==>
      && id in d.suppliers
      && (forall pid :: pid in d.products ==> d.products[pid].supplierId != Some(id))
      && (forall poid :: poid in d.purchaseOrders ==> d.purchaseOrders[poid].supplierId != id)
    ensures id in d.suppliers && (exists pid :: pid in d.products && d.products[pid].supplierId == Some(id)) ==>
      r == Err(SupplierHasProducts)
    ensures
      (&& id in d.suppliers
       && (forall pid :: pid in d.products ==> d.products[pid].supplierId != Some(id))
       && (exists poid :: poid in d.purchaseOrders && d.purchaseOrders[poid].supplierId == id))
      ==> r == Err(NotNullViolation)
    ensures r.Ok? ==> r.value == d.(suppliers := d.suppliers - {id})
  {
    if id !in d.suppliers then Err(NotFound)
    else if exists pid :: pid in d.products && d.products[pid].supplierId == Some(id) then Err(SupplierHasProducts)
    else if exists poid :: poid in d.purchaseOrders && d.purchaseOrders[poid].supplierId == id then Err(NotNullViolation)
    else Ok(d.(suppliers := d.suppliers - {id}))
  }

  /** The source's missing quantity check, exhibited: a purchase order with
      an item of quantity -3 is accepted as written, and receiving it drives
      the product's stock from 0 to -3 and logs an IN record of -3. With the
      check, the same request is rejected. */
  lemma NegativeQuantityReceipt()
    ensures var d := Db(map[1 := Product("Widget", None, None, 100, 0, 10, None, None)], {1}, map[], map[], [], 2, 2, 1, 1);
      var req := PurchaseOrderRequest(Some(1), Some([PurchaseItemRequest(Some(1), Some(-3), Some(250))]), None);
      && d.Valid()
      && CreatePurchaseOrderAsWritten(d, req).Ok?
      && (var (d1, id) := CreatePurchaseOrderAsWritten(d, req).value;
          && ReceivePurchaseOrderSpec(d1, id).Ok?
          && ReceivePurchaseOrderSpec(d1, id).value.products[1].stockLevel == -3
          && !ReceivePurchaseOrderSpec(d1, id).value.Valid())
      && CreatePurchaseOrderSpec(d, req) == Err(InvalidQuantity)
  {
    var d := Db(map[1 := Product("Widget", None, None, 100, 0, 10, None, None)], {1}, map[], map[], [], 2, 2, 1, 1);
    var item := PurchaseItemRequest(Some(1), Some(-3), Some(250));
    var reqs := [item];
    assert reqs[..0] == [];
    assert PriceItems(d.products, [], false) == Ok(Priced([], 0));
    assert 1 in d.products;
    assert item.unitCost.value * item.quantity.value == -750;
    var i0 := PurchaseOrderItem(1, -3, 250, -750);
    assert [] + [i0] == [i0];
    assert PriceItem(Priced([], 0), d.products, item, false) == Ok(Priced([i0], -750));
    assert PriceItems(d.products, reqs, false) == Ok(Priced([PurchaseOrderItem(1, -3, 250, -750)], -750));
    assert PriceItems(d.products, reqs, true) == Err(InvalidQuantity);
    var lines := PurchaseLines([PurchaseOrderItem(1, -3, 250, -750)]);
    assert lines == [Line(1, -3)] && lines[..0] == [];
    assert Supply(lines, 1) == -3;
  }

  /** POST /purchase-orders. The item loop stages the new order's items in
      the session; on the first rejected item the handler returns and the
      staged work is discarded. */
  method CreatePurchaseOrder(db: Database, req: PurchaseOrderRequest) returns (r: Result<int, Error>)
    requires db.Valid()
    modifies db
    ensures db.Valid()
    ensures r.Ok? ==> CreatePurchaseOrderSpec(old(db.Value()), req) == Ok((db.Value(), r.value))
    ensures r.Err? ==> CreatePurchaseOrderSpec(old(db.Value()), req) == Err(r.error) && db.Value() == old(db.Value())
  {
    if req.supplierId.None? {
      return Err(MissingField("supplier_id"));
    }
    if req.items.None? || |req.items.value| == 0 {
      return Err(NoItems);
    }
    var supplierId := req.supplierId.value;
    if supplierId !in db.suppliers {
      return Err(SupplierNotFound);
    }
    var reqs := req.items.value;
    var id := db.nextPurchaseOrderId;
    var items: seq<PurchaseOrderItem> := [];
    var total: Cents := 0;
    var i := 0;
    while i < |reqs|
      invariant 0 <= i <= |reqs|
      invariant PriceItems(db.products, reqs[..i], true) == Ok(Priced(items, total))
    {
      var item := reqs[i];
      assert reqs[..i + 1][..i] == reqs[..i];
      if item.productId.None? || item.quantity.None? || item.unitCost.None? {
        PriceItemsErrPersists(db.products, reqs, true, i + 1);
        return Err(IncompleteItem);
      }
      var pid := item.productId.value;
      if pid !in db.products {
        PriceItemsErrPersists(db.products, reqs, true, i + 1);
        return Err(ProductNotFound(pid));
      }
      var quantity := item.quantity.value;
      if quantity <= 0 {
        PriceItemsErrPersists(db.products, reqs, true, i + 1);
        return Err(InvalidQuantity);
      }
      var unitCost := item.unitCost.value;
      var totalCost := unitCost * quantity;
      items := items + [PurchaseOrderItem(pid, quantity, unitCost, totalCost)];
      total := total + totalCost;
      i := i + 1;
    }
    assert reqs[..i] == reqs;
    CreatePurchaseOrderPreservesValid(db.Value(), req);
    db.purchaseOrders := db.purchaseOrders[id := PurchaseOrder(supplierId, req.status.GetOr(PENDING), total, items)];
    db.nextPurchaseOrderId := id + 1;
    r := Ok(id);
  }

  /** POST /purchase-orders/<id>/receive. */
  method ReceivePurchaseOrder(db: Database, id: int) returns (r: Result<(), Error>)
    requires db.Valid()
    modifies db
    ensures db.Valid()
    ensures r.Ok? ==> ReceivePurchaseOrderSpec(old(db.Value()), id) == Ok(db.Value())
    ensures r.Err? ==> ReceivePurchaseOrderSpec(old(db.Value()), id) == Err(r.error) && db.Value() == old(db.Value())
  {
    if id !in db.purchaseOrders {
      return Err(NotFound);
    }
    var po := db.purchaseOrders[id];
    if po.status == DELIVERED {
      return Err(AlreadyReceived);
    }
    ReceiveEffect(db.Value(), id);
    Restock(db, PurchaseLines(po.items), PurchaseOrderRef, id);
    db.purchaseOrders := db.purchaseOrders[id := po.(status := DELIVERED)];
    r := Ok(());
  }

  /** DELETE /purchase-orders/<id>. */
  method DeletePurchaseOrder(db: Database, id: int) returns (r: Result<(), Error>)
    requires db.Valid()
    modifies db
    ensures db.Valid()
    ensures r.Ok? ==> DeletePurchaseOrderSpec(old(db.Value()), id) == Ok(db.Value())
    ensures r.Err? ==> DeletePurchaseOrderSpec(old(db.Value()), id) == Err(r.error) && db.Value() == old(db.Value())
  {
    if id !in db.purchaseOrders {
      return Err(NotFound);
    }
    var status := db.purchaseOrders[id].status;
    if status != PENDING && status != CANCELLED {
      return Err(IllegalStatus(status));
    }
    db.purchaseOrders := db.purchaseOrders - {id};
    r := Ok(());
  }

  /** POST /suppliers. */
  method CreateSupplier(db: Database, name: Option<string>) returns (r: Result<int, Error>)
    requires db.Valid()
    modifies db
    ensures db.Valid()
    ensures r.Ok? ==> CreateSupplierSpec(old(db.Value()), name) == Ok((db.Value(), r.value))
    ensures r.Err? ==> CreateSupplierSpec(old(db.Value()), name) == Err(r.error) && db.Value() == old(db.Value())
  {
    if name.None? {
      return Err(MissingField("supplier_name"));
    }
    var id := db.nextSupplierId;
    db.suppliers := db.suppliers + {id};
    db.nextSupplierId := id + 1;
    r := Ok(id);
  }

  /** DELETE /suppliers/<id>. */
  method DeleteSupplier(db: Database, id: int) returns (r: Result<(), Error>)
    requires db.Valid()
    modifies db
    ensures db.Valid()
    ensures r.Ok? ==> DeleteSupplierSpec(old(db.Value()), id) == Ok(db.Value())
    ensures r.Err? ==> DeleteSupplierSpec(old(db.Value()), id) == Err(r.error) && db.Value() == old(db.Value())
  {
    if id !in db.suppliers {
      return Err(NotFound);
    }
    if exists pid :: pid in db.products && db.products[pid].supplierId == Some(id) {
      return Err(SupplierHasProducts);
    }
    if exists poid :: poid in db.purchaseOrders && db.purchaseOrders[poid].supplierId == id {
      return Err(NotNullViolation);
    }
    db.suppliers := db.suppliers - {id};
    r := Ok(());
  }
}
