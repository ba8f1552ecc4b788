/**
 * Customer orders: creation (which takes stock and logs OUT records),
 * deletion and the status change to Cancelled (which give the stock back and
 * log IN records), each as a pure specification and as the handler that
 * updates the tables in place.
 */
module Orders {
  import opened Wrappers
  import opened Inventory
  import opened Stock

  /** One requested item; every field may be absent from the request. */
  datatype ItemRequest = ItemRequest(productId: Option<int>, quantity: Option<int>, unitPrice: Option<Cents>)

  datatype OrderRequest = OrderRequest(items: Option<seq<ItemRequest>>, status: Option<string>)

  /** The work staged in the session while the items of a new order are
      processed: the in-session products, the items, the records and the
      running total. Nothing of it is kept if an item is rejected. */
  datatype Draft = Draft(products: map<int, Product>, items: seq<OrderItem>, log: seq<Txn>, total: Cents)

  /** One pass of the item loop. The checks come in the handler's order, and
      the stock check reads the in-session product, already lowered by the
      earlier items of the same order. */
  function Admit(dr: Draft, req: ItemRequest, orderId: int): Result<Draft, Error> {
    if req.productId.None? || req.quantity.None? then Err(IncompleteItem)
    else if req.productId.value !in dr.products then Err(ProductNotFound(req.productId.value))
    else if req.quantity.value <= 0 then Err(InvalidQuantity)
    else
      var pid, q := req.productId.value, req.quantity.value;
      var p := dr.products[pid];
      if p.stockLevel < q then Err(InsufficientStock(p.stockLevel, q))
      else
        var price := req.unitPrice.GetOr(p.unitPrice);
        Ok(Draft(dr.products[pid := p.(stockLevel := p.stockLevel - q)],
                 dr.items + [OrderItem(pid, q, price, price * q)],
                 dr.log + [Txn(pid, Out, q, OrderRef, Some(orderId))],
                 dr.total + price * q))
  }

  /** The item loop over `reqs`; the first rejected item decides the error. */
  function AdmitAll(products: map<int, Product>, reqs: seq<ItemRequest>, orderId: int): Result<Draft, Error>
    decreases |reqs|
  {
    if reqs == [] then Ok(Draft(products, [], [], 0))
    else
      match AdmitAll(products, reqs[..|reqs| - 1], orderId)
      case Err(e) => Err(e)
      case Ok(dr) => Admit(dr, reqs[|reqs| - 1], orderId)
  }

  lemma {:induction false} AdmitAllErrPersists(products: map<int, Product>, reqs: seq<ItemRequest>, orderId: int, i: nat)
    requires i <= |reqs| && AdmitAll(products, reqs[..i], orderId).Err?
    ensures AdmitAll(products, reqs, orderId) == AdmitAll(products, reqs[..i], orderId)
  {
    if i == |reqs| {
      assert reqs[..i] == reqs;
    } else {
      var pre := reqs[..|reqs| - 1];
      assert pre[..i] == reqs[..i];
      AdmitAllErrPersists(products, pre, orderId, i);
    }
  }

  /** An item the handler accepts, stock aside. */
  predicate WellFormedItem(products: map<int, Product>, r: ItemRequest) {
    r.productId.Some? && r.quantity.Some? && r.productId.value in products && r.quantity.value > 0
  }

  /** The stored item for an accepted request: the price defaults to the product's unit price. */
  function ItemFor(products: map<int, Product>, r: ItemRequest): OrderItem
    requires WellFormedItem(products, r)
  {
    var price := r.unitPrice.GetOr(products[r.productId.value].unitPrice);
    OrderItem(r.productId.value, r.quantity.value, price, price * r.quantity.value)
  }

  /** The (product, quantity) pairs a request asks for. */
  function RequestedLines(reqs: seq<ItemRequest>): seq<Line> {
    seq(|reqs|, k requires 0 <= k < |reqs| => Line(reqs[k].productId.GetOr(0), reqs[k].quantity.GetOr(0)))
  }

  /** The sum of the items' total prices. */
  function Total(items: seq<OrderItem>): Cents
    decreases |items|
  {
    if items == [] then 0 else Total(items[..|items| - 1]) + items[|items| - 1].totalPrice
  }

  /** Every item well formed, and no product asked for more than it has on hand. */
  predicate Admissible(products: map<int, Product>, reqs: seq<ItemRequest>) {
    && (forall k :: 0 <= k < |reqs| ==> WellFormedItem(products, reqs[k]))
    && (forall pid :: pid in products ==> Supply(RequestedLines(reqs), pid) <= products[pid].stockLevel)
  }

  lemma RequestedLinesSnoc(reqs: seq<ItemRequest>)
    requires reqs != []
    ensures var last := reqs[|reqs| - 1];
      RequestedLines(reqs) == RequestedLines(reqs[..|reqs| - 1]) + [Line(last.productId.GetOr(0), last.quantity.GetOr(0))]
  {
  }

  /** What a successful item loop staged: one item and one OUT record per
      request, in order; each product lowered by the quantity asked of it;
      the total is the sum of the item totals. */
  lemma AdmitAllEffect(products: map<int, Product>, reqs: seq<ItemRequest>, orderId: int)
    requires AdmitAll(products, reqs, orderId).Ok?
    ensures var dr := AdmitAll(products, reqs, orderId).value;
      && |dr.items| == |reqs|
      && (forall k :: 0 <= k < |reqs| ==> WellFormedItem(products, reqs[k]) && dr.items[k] == ItemFor(products, reqs[k]))
      && OrderLines(dr.items) == RequestedLines(reqs)
      && dr.products == Deducted(products, RequestedLines(reqs))
      && dr.log == Records(RequestedLines(reqs), Out, OrderRef, orderId)
      && dr.total == Total(dr.items)
  {
    AdmitAllItems(products, reqs, orderId);
    AdmitAllStaged(products, reqs, orderId);
  }

  lemma {:induction false} AdmitAllItems(products: map<int, Product>, reqs: seq<ItemRequest>, orderId: int)
    requires AdmitAll(products, reqs, orderId).Ok?
    ensures var dr := AdmitAll(products, reqs, orderId).value;
      && dr.products.Keys == products.Keys
      && (forall pid :: pid in products ==> dr.products[pid].unitPrice == products[pid].unitPrice)
      && |dr.items| == |reqs|
      && (forall k :: 0 <= k < |reqs| ==> WellFormedItem(products, reqs[k]) && dr.items[k] == ItemFor(products, reqs[k]))
      && dr.total == Total(dr.items)
  {
    if reqs != [] {
      var dr := AdmitAll(products, reqs, orderId).value;
      var n := |reqs|;
      var pre, last := reqs[..n - 1], reqs[n - 1];
      var prev := AdmitAll(products, pre, orderId);
      assert prev.Ok?;
      AdmitAllItems(products, pre, orderId);
      var d := prev.value;
      assert Admit(d, last, orderId) == Ok(dr);
      assert WellFormedItem(products, last);
      assert dr.items == d.items + [ItemFor(products, last)];
      forall k | 0 <= k < n
        ensures WellFormedItem(products, reqs[k]) && dr.items[k] == ItemFor(products, reqs[k])
      {
        if k < n - 1 {
          assert reqs[k] == pre[k];
        }
      }
      assert dr.items[..n - 1] == d.items;
    }
  }

  lemma {:induction false} AdmitAllStaged(products: map<int, Product>, reqs: seq<ItemRequest>, orderId: int)
    requires AdmitAll(products, reqs, orderId).Ok?
    ensures var dr := AdmitAll(products, reqs, orderId).value;
      && OrderLines(dr.items) == RequestedLines(reqs)
      && dr.products == Deducted(products, RequestedLines(reqs))
      && dr.log == Records(RequestedLines(reqs), Out, OrderRef, orderId)
  {
    var dr := AdmitAll(products, reqs, orderId).value;
    if reqs == [] {
      assert Deducted(products, []) == products;
    } else {
      var n := |reqs|;
      var pre, last := reqs[..n - 1], reqs[n - 1];
      var prev := AdmitAll(products, pre, orderId);
      assert prev.Ok?;
      AdmitAllStaged(products, pre, orderId);
      var d := prev.value;
      assert Admit(d, last, orderId) == Ok(dr);
      var l := Line(last.productId.value, last.quantity.value);
      RequestedLinesSnoc(reqs);
      assert RequestedLines(reqs) == RequestedLines(pre) + [l];
      assert OrderLines(dr.items) == OrderLines(d.items) + [l];
      forall x | x in products
        ensures Deducted(products, RequestedLines(reqs))[x] == dr.products[x]
      {
        SupplySnoc(RequestedLines(pre), l, x);
      }
      RecordsSnoc(RequestedLines(pre), l, Out, OrderRef, orderId);
    }
  }

  /** The item loop succeeds exactly when every item is well formed and no
      product is asked, over all the items naming it, for more than its
      stock: checking each item against the running stock amounts to checking
      the product's total demand against its stock before the order. */
  lemma {:induction false} AdmitAllSucceedsIff(products: map<int, Product>, reqs: seq<ItemRequest>, orderId: int)
    requires forall pid :: pid in products ==> products[pid].stockLevel >= 0
    ensures AdmitAll(products, reqs, orderId).Ok? <==> Admissible(products, reqs)
  {
    if reqs != [] {
      var pre := reqs[..|reqs| - 1];
      AdmitAllSucceedsIff(products, pre, orderId);
      AdmissibleSnoc(products, reqs);
      if AdmitAll(products, pre, orderId).Ok? {
        AdmitAllEffect(products, pre, orderId);
      }
    }
  }

  /** Admissibility of a list is admissibility of all but its last item,
      plus the last item fitting into what the others leave. */
  lemma AdmissibleSnoc(products: map<int, Product>, reqs: seq<ItemRequest>)
    requires reqs != []
    ensures var pre, last := reqs[..|reqs| - 1], reqs[|reqs| - 1];
      Admissible(products, reqs) <==>
        && Admissible(products, pre)
        && WellFormedItem(products, last)
        && Supply(RequestedLines(pre), last.productId.value) + last.quantity.value <= products[last.productId.value].stockLevel
  {
    var n := |reqs|;
    var pre, last := reqs[..n - 1], reqs[n - 1];
    var ll := Line(last.productId.GetOr(0), last.quantity.GetOr(0));
    RequestedLinesSnoc(reqs);
    forall pid
      ensures Supply(RequestedLines(reqs), pid) == Supply(RequestedLines(pre), pid) + (if ll.productId == pid then ll.quantity else 0)
    {
      SupplySnoc(RequestedLines(pre), ll, pid);
    }
    assert forall k :: 0 <= k < n - 1 ==> pre[k] == reqs[k];
    if Admissible(products, reqs) {
      assert WellFormedItem(products, reqs[n - 1]);
    }
  }

  /** The new order, or the error of the first rejected check. An order takes
      the next id; its status is the requested one, Pending by default. */
  function CreateOrderSpec(d: Db, req: OrderRequest): Result<(Db, int), Error> {
    if req.items.None? || req.items.value == [] then Err(NoItems)
    else
      var id := d.nextOrderId;
      match AdmitAll(d.products, req.items.value, id)
      case Err(e) => Err(e)
      case Ok(dr) =>
        Ok((d.(products := dr.products,
               orders := d.orders[id := Order(req.status.GetOr(PENDING), dr.total, dr.items)],
               transactions := d.transactions + dr.log,
               nextOrderId := id + 1), id))
  }

  /** Order creation succeeds exactly when the item list is present and
      non-empty, every item is well formed, and no product's total demand
      exceeds its stock. */
  lemma CreateOrderSucceedsIff(d: Db, req: OrderRequest)
    requires d.Valid()
    ensures CreateOrderSpec(d, req).Ok? <==>
      req.items.Some? && req.items.value != [] && Admissible(d.products, req.items.value)
  {
    if req.items.Some? {
      AdmitAllSucceedsIff(d.products, req.items.value, d.nextOrderId);
    }
  }

  /** A created order: it takes a fresh id; each product's stock drops by the
      quantities ordered of it and stays non-negative; one OUT record per
      item, with the item's quantity and the order's id, is appended to the
      log and nothing else changes in it; the stock change of every product
      equals IN minus OUT of the appended records; the order's total is the
      sum of unit price times quantity over its items. */
  lemma CreateOrderEffect(d: Db, req: OrderRequest)
    requires d.Valid() && CreateOrderSpec(d, req).Ok?
    ensures var (d1, id) := CreateOrderSpec(d, req).value;
      var reqs := req.items.value;
      var lines := RequestedLines(reqs);
      && id == d.nextOrderId && id !in d.orders
      && d1.products.Keys == d.products.Keys
      && (forall pid :: pid in d.products ==>
            d1.products[pid] == d.products[pid].(stockLevel := d.products[pid].stockLevel - Supply(lines, pid))
            && d1.products[pid].stockLevel >= 0
            && d1.products[pid].stockLevel - d.products[pid].stockLevel == Net(d1.transactions, pid) - Net(d.transactions, pid))
      && d1.transactions == d.transactions + Records(lines, Out, OrderRef, id)
      && id in d1.orders
      && d1.orders[id].status == req.status.GetOr(PENDING)
      && |d1.orders[id].items| == |reqs|
      && (forall k :: 0 <= k < |reqs| ==> WellFormedItem(d.products, reqs[k]) && d1.orders[id].items[k] == ItemFor(d.products, reqs[k]))
      && d1.orders[id].totalAmount == Total(d1.orders[id].items)
      && d1.orders == d.orders[id := d1.orders[id]]
      && d1.suppliers == d.suppliers && d1.purchaseOrders == d.purchaseOrders
  {
    var (d1, id) := CreateOrderSpec(d, req).value;
    var reqs := req.items.value;
    var lines := RequestedLines(reqs);
    AdmitAllEffect(d.products, reqs, id);
    AdmitAllSucceedsIff(d.products, reqs, id);
    forall pid | pid in d.products
      ensures d1.products[pid].stockLevel - d.products[pid].stockLevel == Net(d1.transactions, pid) - Net(d.transactions, pid)
    {
      NetAppend(d.transactions, Records(lines, Out, OrderRef, id), pid);
      NetRecords(lines, OrderRef, id, pid);
    }
  }

  lemma CreateOrderPreservesValid(d: Db, req: OrderRequest)
    requires d.Valid() && CreateOrderSpec(d, req).Ok?
    ensures CreateOrderSpec(d, req).value.0.Valid()
  {
    var (d1, id) := CreateOrderSpec(d, req).value;
    CreateOrderEffect(d, req);
    var reqs := req.items.value;
    var added := Records(RequestedLines(reqs), Out, OrderRef, id);
    assert OrderItemsPositive(d1.orders[id].items);
    forall k | 0 <= k < |d1.transactions|
      ensures WellFormedTxn(d1.transactions[k])
    {
      if k >= |d.transactions| {
        var j := k - |d.transactions|;
        assert d1.transactions[k] == added[j];
        assert WellFormedItem(d.products, reqs[j]);
      }
    }
  }

  /** The error answered for two items of which the second asks for more than
      its product has: the order is rejected as a whole. */
  lemma InsufficientStockExample(d: Db)
    requires 1 in d.products && 2 in d.products
    requires d.products[1].stockLevel == 20 && d.products[2].stockLevel == 10
    ensures CreateOrderSpec(d, OrderRequest(Some([ItemRequest(Some(1), Some(5), None), ItemRequest(Some(2), Some(1000), None)]), None))
      == Err(InsufficientStock(10, 1000))
  {
    var reqs := [ItemRequest(Some(1), Some(5), None), ItemRequest(Some(2), Some(1000), None)];
    var id := d.nextOrderId;
    var one := reqs[..1];
    assert one == [reqs[0]] && one[..|one| - 1] == [];
    assert AdmitAll(d.products, [], id) == Ok(Draft(d.products, [], [], 0));
    var first := AdmitAll(d.products, one, id);
    assert first == Admit(Draft(d.products, [], [], 0), reqs[0], id);
    assert first.Ok? && first.value.products[2] == d.products[2];
    assert AdmitAll(d.products, reqs, id) == Admit(first.value, reqs[1], id);
  }

  /** The cancellation loop: every item's quantity goes back to its product
      (items of products that no longer exist are skipped), one IN record per
      restored item, referencing the order. */
  function Release(d: Db, id: int): Db
    requires id in d.orders
  {
    var lines := OrderLines(d.orders[id].items);
    d.(products := Restocked(d.products, lines),
       transactions := d.transactions + Records(Present(lines, d.products.Keys), In, OrderCancellation, id))
  }

  /** Deleting an order: allowed only while it is Pending or Cancelled; a
      Pending order gives its stock back first; the order goes with its items. */
  function DeleteOrderSpec(d: Db, id: int): (r: Result<Db, Error>)
    ensures r.Ok? <==> id in d.orders && (d.orders[id].status == PENDING || d.orders[id].status == CANCELLED)
    ensures r.Ok? ==> r.value.orders == d.orders - {id}
    ensures r.Ok? && d.orders[id].status == CANCELLED ==> r.value == d.(orders := d.orders - {id})
  {
    if id !in d.orders then Err(NotFound)
    else
      var status := d.orders[id].status;
      if status != PENDING && status != CANCELLED then Err(IllegalStatus(status))
      else
        var d' := if status == PENDING then Release(d, id) else d;
        Ok(d'.(orders := d'.orders - {id}))
  }

  /** Setting an order's status. Only Pending to Cancelled gives stock back;
      every other change sets the status and nothing else. */
  function UpdateOrderStatusSpec(d: Db, id: int, status: Option<string>): (r: Result<Db, Error>)
    ensures r.Ok? <==> id in d.orders && status.Some?
    ensures r.Ok? ==> r.value.orders == d.orders[id := d.orders[id].(status := status.value)]
    ensures r.Ok? && !(d.orders[id].status == PENDING && status.value == CANCELLED) ==>
      r.value == d.(orders := d.orders[id := d.orders[id].(status := status.value)])
  {
    if id !in d.orders then Err(NotFound)
    else if status.None? then Err(MissingField("status"))
    else
      var o := d.orders[id];
      var d' := if o.status == PENDING && status.value == CANCELLED then Release(d, id) else d;
      Ok(d'.(orders := d'.orders[id := o.(status := status.value)]))
  }

  /** Giving an order's stock back: each product gains the quantities of the
      order's items naming it; exactly the items whose product exists get an
      IN / ORDER_CANCELLATION record with the order's id; the stock change
      equals IN minus OUT of the appended records; the invariant holds. */
  lemma ReleaseEffect(d: Db, id: int)
    requires d.Valid() && id in d.orders
    ensures var d1, lines := Release(d, id), OrderLines(d.orders[id].items);
      && d1.products.Keys == d.products.Keys
      && (forall pid :: pid in d.products ==>
            d1.products[pid] == d.products[pid].(stockLevel := d.products[pid].stockLevel + Supply(lines, pid))
            && d1.products[pid].stockLevel >= d.products[pid].stockLevel
            && d1.products[pid].stockLevel - d.products[pid].stockLevel == Net(d1.transactions, pid) - Net(d.transactions, pid))
      && d1.transactions == d.transactions + Records(Present(lines, d.products.Keys), In, OrderCancellation, id)
      && d1.Valid()
  {
    var d1, lines := Release(d, id), OrderLines(d.orders[id].items);
    var added := Records(Present(lines, d.products.Keys), In, OrderCancellation, id);
    assert Positive(lines);
    forall pid | pid in d.products
      ensures d1.products[pid].stockLevel - d.products[pid].stockLevel == Net(d1.transactions, pid) - Net(d.transactions, pid)
      ensures d1.products[pid].stockLevel >= d.products[pid].stockLevel
    {
      NetAppend(d.transactions, added, pid);
      NetRecords(Present(lines, d.products.Keys), OrderCancellation, id, pid);
      SupplyPresent(lines, d.products.Keys, pid);
      SupplyNonNegative(lines, pid);
    }
    RestockKeepsValid(d, lines, OrderCancellation, id);
  }

  lemma DeleteOrderPreservesValid(d: Db, id: int)
    requires d.Valid() && DeleteOrderSpec(d, id).Ok?
    ensures DeleteOrderSpec(d, id).value.Valid()
  {
    if d.orders[id].status == PENDING {
      ReleaseEffect(d, id);
    }
  }

  lemma UpdateOrderStatusPreservesValid(d: Db, id: int, status: Option<string>)
    requires d.Valid() && UpdateOrderStatusSpec(d, id, status).Ok?
    ensures UpdateOrderStatusSpec(d, id, status).value.Valid()
  {
    if d.orders[id].status == PENDING && status.value == CANCELLED {
      ReleaseEffect(d, id);
    }
  }

  /** Deleting a Pending order and cancelling it give back the same stock and
      append the same records. */
  lemma DeleteAndCancelAgree(d: Db, id: int)
    requires id in d.orders && d.orders[id].status == PENDING
    ensures DeleteOrderSpec(d, id).Ok? && UpdateOrderStatusSpec(d, id, Some(CANCELLED)).Ok?
    ensures DeleteOrderSpec(d, id).value.products == UpdateOrderStatusSpec(d, id, Some(CANCELLED)).value.products
    ensures DeleteOrderSpec(d, id).value.transactions == UpdateOrderStatusSpec(d, id, Some(CANCELLED)).value.transactions
  {
  }

  /** Creating a Pending order and then cancelling it returns every product to
      its stock before the order, and the records of the two steps cancel out
      for every product; deleting it instead also removes the order again. */
  lemma CreateThenCancelRestores(d: Db, req: OrderRequest)
    requires d.Valid() && CreateOrderSpec(d, req).Ok?
    requires req.status.GetOr(PENDING) == PENDING
    ensures var (d1, id) := CreateOrderSpec(d, req).value;
      && UpdateOrderStatusSpec(d1, id, Some(CANCELLED)).Ok?
      && UpdateOrderStatusSpec(d1, id, Some(CANCELLED)).value.products == d.products
      && (forall pid :: Net(UpdateOrderStatusSpec(d1, id, Some(CANCELLED)).value.transactions, pid) == Net(d.transactions, pid))
      && DeleteOrderSpec(d1, id).Ok?
      && DeleteOrderSpec(d1, id).value.products == d.products
      && DeleteOrderSpec(d1, id).value.orders == d.orders
  {
    var (d1, id) := CreateOrderSpec(d, req).value;
    var reqs := req.items.value;
    var lines := RequestedLines(reqs);
    CreateOrderEffect(d, req);
    AdmitAllEffect(d.products, reqs, id);
    assert OrderLines(d1.orders[id].items) == lines;
    PresentAll(lines, d1.products.Keys);
    assert d1.products == Deducted(d.products, lines);
    RestockUndoesDeduct(d.products, lines);
    var d2 := UpdateOrderStatusSpec(d1, id, Some(CANCELLED)).value;
    assert d2.products == Release(d1, id).products;
    assert d2.transactions == d.transactions + Records(lines, Out, OrderRef, id) + Records(lines, In, OrderCancellation, id);
    forall pid
      ensures Net(d2.transactions, pid) == Net(d.transactions, pid)
    {
      NetAppend(d.transactions + Records(lines, Out, OrderRef, id), Records(lines, In, OrderCancellation, id), pid);
      NetAppend(d.transactions, Records(lines, Out, OrderRef, id), pid);
      NetRecords(lines, OrderRef, id, pid);
      NetRecords(lines, OrderCancellation, id, pid);
    }
    assert d1.orders - {id} == d.orders;
  }

  /** POST /orders: the item loop stages its work in the session; on the
      first rejected item the handler returns and the staged work is
      discarded, so the tables are as before. */
  method CreateOrder(db: Database, req: OrderRequest) returns (r: Result<int, Error>)
    requires db.Valid()
    modifies db
    ensures db.Valid()
    ensures r.Ok? ==> CreateOrderSpec(old(db.Value()), req) == Ok((db.Value(), r.value))
    ensures r.Err? ==> CreateOrderSpec(old(db.Value()), req) == Err(r.error) && db.Value() == old(db.Value())
  {
    if req.items.None? || |req.items.value| == 0 {
      return Err(NoItems);
    }
    var reqs := req.items.value;
    var orderId := db.nextOrderId;
    var products := db.products;
    var items: seq<OrderItem> := [];
    var log: seq<Txn> := [];
    var total: Cents := 0;
    var i := 0;
    while i < |reqs|
      invariant 0 <= i <= |reqs|
      invariant AdmitAll(db.products, reqs[..i], orderId) == Ok(Draft(products, items, log, total))
    {
      var item := reqs[i];
      assert reqs[..i + 1][..i] == reqs[..i];
      if item.productId.None? || item.quantity.None? {
        AdmitAllErrPersists(db.products, reqs, orderId, i + 1);
        return Err(IncompleteItem);
      }
      var pid := item.productId.value;
      if pid !in products {
        AdmitAllErrPersists(db.products, reqs, orderId, i + 1);
        return Err(ProductNotFound(pid));
      }
      var quantity := item.quantity.value;
      if quantity <= 0 {
        AdmitAllErrPersists(db.products, reqs, orderId, i + 1);
        return Err(InvalidQuantity);
      }
      var product := products[pid];
      if product.stockLevel < quantity {
        AdmitAllErrPersists(db.products, reqs, orderId, i + 1);
        return Err(InsufficientStock(product.stockLevel, quantity));
      }
      var unitPrice := item.unitPrice.GetOr(product.unitPrice);
      var totalPrice := unitPrice * quantity;
      items := items + [OrderItem(pid, quantity, unitPrice, totalPrice)];
      total := total + totalPrice;
      products := products[pid := product.(stockLevel := product.stockLevel - quantity)];
      log := log + [Txn(pid, Out, quantity, OrderRef, Some(orderId))];
      i := i + 1;
    }
    assert reqs[..i] == reqs;
    CreateOrderPreservesValid(db.Value(), req);
    db.products := products;
    db.orders := db.orders[orderId := Order(req.status.GetOr(PENDING), total, items)];
    db.transactions := db.transactions + log;
    db.nextOrderId := orderId + 1;
    r := Ok(orderId);
  }

  /** DELETE /orders/<id>. */
  method DeleteOrder(db: Database, id: int) returns (r: Result<(), Error>)
    requires db.Valid()
    modifies db
    ensures db.Valid()
    ensures r.Ok? ==> DeleteOrderSpec(old(db.Value()), id) == Ok(db.Value())
    ensures r.Err? ==> DeleteOrderSpec(old(db.Value()), id) == Err(r.error) && db.Value() == old(db.Value())
  {
    if id !in db.orders {
      return Err(NotFound);
    }
    var order := db.orders[id];
    if order.status != PENDING && order.status != CANCELLED {
      return Err(IllegalStatus(order.status));
    }
    DeleteOrderPreservesValid(db.Value(), id);
    if order.status == PENDING {
      Restock(db, OrderLines(order.items), OrderCancellation, id);
    }
    db.orders := db.orders - {id};
    r := Ok(());
  }

  /** PUT /orders/<id>/status. */
  method UpdateOrderStatus(db: Database, id: int, status: Option<string>) returns (r: Result<(), Error>)
    requires db.Valid()
    modifies db
    ensures db.Valid()
    ensures r.Ok? ==> UpdateOrderStatusSpec(old(db.Value()), id, status) == Ok(db.Value())
    ensures r.Err? ==> UpdateOrderStatusSpec(old(db.Value()), id, status) == Err(r.error) && db.Value() == old(db.Value())
  {
    if id !in db.orders {
      return Err(NotFound);
    }
    if status.None? {
      return Err(MissingField("status"));
    }
    var order := db.orders[id];
    var newStatus := status.value;
    UpdateOrderStatusPreservesValid(db.Value(), id, status);
    if order.status == PENDING && newStatus == CANCELLED {
      Restock(db, OrderLines(order.items), OrderCancellation, id);
    }
    db.orders := db.orders[id := order.(status := newStatus)];
    r := Ok(());
  }
}
