/**
 * Products: creation and update with their SKU checks, the manual stock
 * adjustment, and the low-stock selection.
 *
 * A SKU is checked twice. The handler looks for another product with the
 * same SKU only when the request's SKU is non-empty; the SKU column's
 * unique constraint then rejects, at commit, any table in which two
 * products share a SKU (the empty SKU included).
 */
module Products {
  import opened Wrappers
  import opened Inventory
  import opened Stock

  /** The fields of a create or update request; `None` is an absent key. */
  datatype ProductRequest = ProductRequest(
    name: Option<string>,
    description: Option<string>,
    categoryId: Option<int>,
    unitPrice: Option<Cents>,
    stockLevel: Option<int>,
    reorderLevel: Option<int>,
    supplierId: Option<int>,
    sku: Option<string>)

  /** The handlers look a SKU up only when it is present and non-empty. */
  predicate Checked(sku: Option<string>) {
    sku.Some? && sku.value != ""
  }

  /** Some product other than `except` carries `sku`. */
  predicate SkuTaken(products: map<int, Product>, sku: string, except: Option<int>) {
    exists pid :: pid in products && Some(pid) != except && products[pid].sku == Some(sku)
  }

  /** Storing `p` under `id` keeps the SKUs distinct exactly when `p` has no
      SKU or no other product carries it. */
  lemma SkusDistinctPut(products: map<int, Product>, id: int, p: Product)
    requires SkusDistinct(products)
    ensures SkusDistinct(products[id := p]) <==> p.sku.None? || !SkuTaken(products, p.sku.value, Some(id))
  {
    var ps := products[id := p];
    if p.sku.Some? && SkuTaken(products, p.sku.value, Some(id)) {
      var other :| other in products && Some(other) != Some(id) && products[other].sku == p.sku;
      assert ps[id].sku == ps[other].sku;
    }
    if p.sku.None? || !SkuTaken(products, p.sku.value, Some(id)) {
      forall a, b | a in ps && b in ps && a != b && ps[a].sku.Some?
        ensures ps[a].sku != ps[b].sku
      {
        if a == id {
          assert !(b in products && Some(b) != Some(id) && products[b].sku == Some(p.sku.value));
        } else if b == id && p.sku.Some? {
          assert !(a in products && Some(a) != Some(id) && products[a].sku == Some(p.sku.value));
        }
      }
    }
  }

  /** A new product, or the error of the first rejected check. The source's
      creation takes the stock level as given; `rejectNegative` adds the
      check the rest of the ledger relies on. */
  function NewProduct(d: Db, req: ProductRequest, rejectNegative: bool): Result<(Db, int), Error> {
    if req.name.None? then Err(MissingField("product_name"))
    else if req.unitPrice.None? then Err(MissingField("unit_price"))
    else if Checked(req.sku) && SkuTaken(d.products, req.sku.value, None) then Err(DuplicateSku)
    else
      var stock := req.stockLevel.GetOr(DEFAULT_STOCK_LEVEL);
      if rejectNegative && stock < 0 then Err(NegativeStock)
      else
        var id := d.nextProductId;
        var p := Product(req.name.value, req.description, req.categoryId, req.unitPrice.value, stock,
                         req.reorderLevel.GetOr(DEFAULT_REORDER_LEVEL), req.supplierId, req.sku);
        var ps := d.products[id := p];
        if !SkusDistinct(ps) then Err(UniqueViolation)
        else Ok((d.(products := ps, nextProductId := id + 1), id))
  }

  /** Product creation as the handler is written: a negative stock level is stored. */
  function CreateProductAsWritten(d: Db, req: ProductRequest): Result<(Db, int), Error> {
    NewProduct(d, req, false)
  }

  /** Product creation that refuses a negative opening stock, as an
      adjustment does; the handler below follows this one. */
  function CreateProductSpec(d: Db, req: ProductRequest): Result<(Db, int), Error> {
    NewProduct(d, req, true)
  }

  /** The row a successful creation stores: absent stock and reorder levels take their defaults. */
  function Defaulted(req: ProductRequest): Product
    requires req.name.Some? && req.unitPrice.Some?
  {
    Product(req.name.value, req.description, req.categoryId, req.unitPrice.value,
            req.stockLevel.GetOr(DEFAULT_STOCK_LEVEL), req.reorderLevel.GetOr(DEFAULT_REORDER_LEVEL), req.supplierId, req.sku)
  }

  /** Creation succeeds exactly when the name and the unit price are given,
      the opening stock is not negative and the SKU (if any) is free; a
      non-empty taken SKU is the handler's own DuplicateSku. The product is
      stored under a fresh id and nothing else changes. */
  lemma CreateProductEffect(d: Db, req: ProductRequest)
    requires d.Valid()
    ensures CreateProductSpec(d, req).Ok? <==>
      && req.name.Some? && req.unitPrice.Some?
      && req.stockLevel.GetOr(DEFAULT_STOCK_LEVEL) >= 0
      && (req.sku.Some? ==> !SkuTaken(d.products, req.sku.value, None))
    ensures req.name.Some? && req.unitPrice.Some? && Checked(req.sku) && SkuTaken(d.products, req.sku.value, None) ==>
      CreateProductSpec(d, req) == Err(DuplicateSku)
    ensures CreateProductSpec(d, req).Ok? ==>
      var (d1, id) := CreateProductSpec(d, req).value;
      && id !in d.products
      && d1 == d.(products := d.products[id := Defaulted(req)], nextProductId := id + 1)
      && d1.Valid()
  {
    if req.name.Some? && req.unitPrice.Some? {
      var id := d.nextProductId;
      SkusDistinctPut(d.products, id, Defaulted(req));
      if req.sku.Some? {
        assert SkuTaken(d.products, req.sku.value, None) <==> SkuTaken(d.products, req.sku.value, Some(id));
      }
    }
  }

  /** The source's missing stock check, exhibited: with empty tables, a
      product created with stock level -5 is stored as written, and the
      tables then break the ledger invariant. With the stock check, the request
      is rejected. */
  lemma NegativeOpeningStock()
    ensures var d := Db(map[], {}, map[], map[], [], 1, 1, 1, 1);
      var req := ProductRequest(Some("Widget"), None, None, Some(100), Some(-5), None, None, None);
      && d.Valid()
      && CreateProductAsWritten(d, req).Ok?
      && CreateProductAsWritten(d, req).value.0.products[1].stockLevel == -5
      && !CreateProductAsWritten(d, req).value.0.Valid()
      && CreateProductSpec(d, req) == Err(NegativeStock)
  {
    var p := Product("Widget", None, None, 100, -5, DEFAULT_REORDER_LEVEL, None, None);
    SkusDistinctPut(map[], 1, p);
  }

  /** `b` where it is given, `a` otherwise. */
  function Override<T>(a: Option<T>, b: Option<T>): Option<T> {
    if b.Some? then b else a
  }

  /** The row after an update: every given field replaces the stored one,
      except the stock level, which an update never touches. */
  function Patched(p: Product, req: ProductRequest): Product {
    Product(req.name.GetOr(p.name), Override(p.description, req.description), Override(p.categoryId, req.categoryId),
            req.unitPrice.GetOr(p.unitPrice), p.stockLevel, req.reorderLevel.GetOr(p.reorderLevel),
            Override(p.supplierId, req.supplierId), Override(p.sku, req.sku))
  }

  function UpdateProductSpec(d: Db, id: int, req: ProductRequest): Result<Db, Error> {
    if id !in d.products then Err(NotFound)
    else if Checked(req.sku) && SkuTaken(d.products, req.sku.value, Some(id)) then Err(DuplicateSku)
    else
      var ps := d.products[id := Patched(d.products[id], req)];
      if !SkusDistinct(ps) then Err(UniqueViolation)
      else Ok(d.(products := ps))
  }

  /** An update succeeds exactly when the product exists and a given SKU is
      not carried by another product; it replaces the given fields of that
      one product, keeps its stock level, and changes nothing else. */
  lemma UpdateProductEffect(d: Db, id: int, req: ProductRequest)
    requires d.Valid()
    ensures UpdateProductSpec(d, id, req).Ok? <==>
      id in d.products && (req.sku.Some? ==> !SkuTaken(d.products, req.sku.value, Some(id)))
    ensures id in d.products && Checked(req.sku) && SkuTaken(d.products, req.sku.value, Some(id)) ==>
      UpdateProductSpec(d, id, req) == Err(DuplicateSku)
    ensures UpdateProductSpec(d, id, req).Ok? ==>
      var d1 := UpdateProductSpec(d, id, req).value;
      && d1.products.Keys == d.products.Keys
      && d1.products[id] == Patched(d.products[id], req)
      && d1.products[id].stockLevel == d.products[id].stockLevel
      && d1.products[id].name == req.name.GetOr(d.products[id].name)
      && d1.products[id].description == (if req.description.Some? then req.description else d.products[id].description)
      && d1.products[id].categoryId == (if req.categoryId.Some? then req.categoryId else d.products[id].categoryId)
      && d1.products[id].supplierId == (if req.supplierId.Some? then req.supplierId else d.products[id].supplierId)
      && d1.products[id].unitPrice == req.unitPrice.GetOr(d.products[id].unitPrice)
      && d1.products[id].reorderLevel == req.reorderLevel.GetOr(d.products[id].reorderLevel)
      && d1.products[id].sku == (if req.sku.Some? then req.sku else d.products[id].sku)
      && (forall pid :: pid in d.products && pid != id ==> d1.products[pid] == d.products[pid])
      && d1 == d.(products := d1.products)
      && d1.Valid()
  {
    if id in d.products {
      var p := d.products[id];
      SkusDistinctPut(d.products, id, Patched(p, req));
      if req.sku.None? && p.sku.Some? {
        assert !SkuTaken(d.products, p.sku.value, Some(id));
      }
    }
  }

  /** Replacing a product by a row with a non-negative stock keeps the
      invariant when the SKUs stay distinct. */
  lemma ReplaceKeepsValid(d: Db, id: int, q: Product)
    requires d.Valid() && id in d.products && q.stockLevel >= 0 && SkusDistinct(d.products[id := q])
    ensures d.(products := d.products[id := q]).Valid()
  {
  }

  function Abs(x: int): nat {
    if x < 0 then -x else x
  }

  /** A manual adjustment: the signed change is applied unless the result
      would be negative, and one ADJUSTMENT record of its magnitude, with no
      reference id, is appended. */
  function AdjustStockSpec(d: Db, id: int, adjustment: Option<int>): (r: Result<Db, Error>)
    ensures r.Ok? <==> id in d.products && adjustment.Some? && d.products[id].stockLevel + adjustment.value >= 0
    ensures id in d.products && adjustment.Some? && d.products[id].stockLevel + adjustment.value < 0 ==> r == Err(NegativeStock)
  {
    if id !in d.products then Err(NotFound)
    else if adjustment.None? then Err(MissingField("adjustment"))
    else
      var p := d.products[id];
      var newStock := p.stockLevel + adjustment.value;
      if newStock < 0 then Err(NegativeStock)
      else Ok(d.(products := d.products[id := p.(stockLevel := newStock)],
                 transactions := d.transactions + [Txn(id, Adjustment, Abs(adjustment.value), AdjustmentRef, None)]))
  }

  /** After an adjustment the product holds old stock plus the change, which
      is not negative; exactly one record is appended and its quantity is
      the size of the stock change; no other product changes, IN minus OUT
      is unaffected, and the invariant holds. */
  lemma AdjustStockEffect(d: Db, id: int, adjustment: Option<int>)
    requires d.Valid() && AdjustStockSpec(d, id, adjustment).Ok?
    ensures var d1 := AdjustStockSpec(d, id, adjustment).value;
      && d1.products.Keys == d.products.Keys
      && d1.products[id].stockLevel == d.products[id].stockLevel + adjustment.value >= 0
      && |d1.transactions| == |d.transactions| + 1
      && d1.transactions[..|d.transactions|] == d.transactions
      && (var t := d1.transactions[|d.transactions|];
          t.productId == id && t.kind == Adjustment && t.refType == AdjustmentRef && t.refId.None?
          && t.quantity == Abs(d1.products[id].stockLevel - d.products[id].stockLevel))
      && (forall pid :: pid in d.products && pid != id ==> d1.products[pid] == d.products[pid])
      && (forall pid :: Net(d1.transactions, pid) == Net(d.transactions, pid))
      && d1.Valid()
  {
    var d1 := AdjustStockSpec(d, id, adjustment).value;
    var t := Txn(id, Adjustment, Abs(adjustment.value), AdjustmentRef, None);
    forall pid
      ensures Net(d1.transactions, pid) == Net(d.transactions, pid)
    {
      NetSnoc(d.transactions, t, pid);
    }
    var p := d.products[id].(stockLevel := d1.products[id].stockLevel);
    SkusDistinctPut(d.products, id, p);
    if p.sku.Some? {
      assert !SkuTaken(d.products, p.sku.value, Some(id));
    }
  }

  /** The boundary of the negative-stock check: from 5, an adjustment of -5
      leaves 0 and one of -6 is rejected. */
  lemma AdjustStockBoundary(d: Db, id: int)
    requires id in d.products && d.products[id].stockLevel == 5
    ensures AdjustStockSpec(d, id, Some(-5)).Ok? && AdjustStockSpec(d, id, Some(-5)).value.products[id].stockLevel == 0
    ensures AdjustStockSpec(d, id, Some(-6)) == Err(NegativeStock)
    ensures AdjustStockSpec(d, id, None) == Err(MissingField("adjustment"))
  {
  }

  /** The products the low-stock filter selects. */
  function LowStock(products: map<int, Product>): set<int> {
    set pid | pid in products && IsLowStock(products[pid])
  }

  /** Restocking never puts a product on the low-stock list. */
  lemma RestockLeavesLowStock(products: map<int, Product>, lines: seq<Line>)
    requires Positive(lines)
    ensures LowStock(Restocked(products, lines)) <= LowStock(products)
  {
    forall pid | pid in LowStock(Restocked(products, lines))
      ensures pid in LowStock(products)
    {
      SupplyNonNegative(lines, pid);
    }
  }

  /** Taking stock for an order never takes a product off the low-stock list. */
  lemma DeductKeepsLowStock(products: map<int, Product>, lines: seq<Line>)
    requires Positive(lines)
    ensures LowStock(products) <= LowStock(Deducted(products, lines))
  {
    forall pid | pid in LowStock(products)
      ensures pid in LowStock(Deducted(products, lines))
    {
      SupplyNonNegative(lines, pid);
    }
  }

  /** An adjustment moves only the adjusted product on or off the list, by its new level. */
  lemma AdjustLowStock(d: Db, id: int, adjustment: Option<int>)
    requires AdjustStockSpec(d, id, adjustment).Ok?
    ensures var d1 := AdjustStockSpec(d, id, adjustment).value;
      LowStock(d1.products) - {id} == LowStock(d.products) - {id}
      && (id in LowStock(d1.products) <==> d.products[id].stockLevel + adjustment.value <= d.products[id].reorderLevel)
  {
  }

  /** POST /products. */
  method CreateProduct(db: Database, req: ProductRequest) returns (r: Result<int, Error>)
    requires db.Valid()
    modifies db
    ensures db.Valid()
    ensures r.Ok? ==> CreateProductSpec(old(db.Value()), req) == Ok((db.Value(), r.value))
    ensures r.Err? ==> CreateProductSpec(old(db.Value()), req) == Err(r.error) && db.Value() == old(db.Value())
  {
    if req.name.None? {
      return Err(MissingField("product_name"));
    }
    if req.unitPrice.None? {
      return Err(MissingField("unit_price"));
    }
    if Checked(req.sku) && SkuTaken(db.products, req.sku.value, None) {
      return Err(DuplicateSku);
    }
    var stock := req.stockLevel.GetOr(DEFAULT_STOCK_LEVEL);
    if stock < 0 {
      return Err(NegativeStock);
    }
    var id := db.nextProductId;
    var p := Product(req.name.value, req.description, req.categoryId, req.unitPrice.value, stock,
                     req.reorderLevel.GetOr(DEFAULT_REORDER_LEVEL), req.supplierId, req.sku);
    if !SkusDistinct(db.products[id := p]) {
      return Err(UniqueViolation);
    }
    CreateProductEffect(db.Value(), req);
    db.products := db.products[id := p];
    db.nextProductId := id + 1;
    r := Ok(id);
  }

  /** PUT /products/<id>. */
  method UpdateProduct(db: Database, id: int, req: ProductRequest) returns (r: Result<(), Error>)
    requires db.Valid()
    modifies db
    ensures db.Valid()
    ensures r.Ok? ==> UpdateProductSpec(old(db.Value()), id, req) == Ok(db.Value())
    ensures r.Err? ==> UpdateProductSpec(old(db.Value()), id, req) == Err(r.error) && db.Value() == old(db.Value())
  {
    if id !in db.products {
      return Err(NotFound);
    }
    if Checked(req.sku) && SkuTaken(db.products, req.sku.value, Some(id)) {
      return Err(DuplicateSku);
    }
    var p := db.products[id];
    var q := p;
    if req.name.Some? {
      q := q.(name := req.name.value);
    }
    if req.description.Some? {
      q := q.(description := req.description);
    }
    if req.categoryId.Some? {
      q := q.(categoryId := req.categoryId);
    }
    if req.unitPrice.Some? {
      q := q.(unitPrice := req.unitPrice.value);
    }
    if req.reorderLevel.Some? {
      q := q.(reorderLevel := req.reorderLevel.value);
    }
    if req.supplierId.Some? {
      q := q.(supplierId := req.supplierId);
    }
    if req.sku.Some? {
      q := q.(sku := req.sku);
    }
    assert q == Patched(p, req);
    if !SkusDistinct(db.products[id := q]) {
      return Err(UniqueViolation);
    }
    ReplaceKeepsValid(db.Value(), id, q);
    db.products := db.products[id := q];
    r := Ok(());
  }

  /** POST /products/<id>/adjust-stock. */
  method AdjustStock(db: Database, id: int, adjustment: Option<int>) returns (r: Result<(), Error>)
    requires db.Valid()
    modifies db
    ensures db.Valid()
    ensures r.Ok? ==> AdjustStockSpec(old(db.Value()), id, adjustment) == Ok(db.Value())
    ensures r.Err? ==> AdjustStockSpec(old(db.Value()), id, adjustment) == Err(r.error) && db.Value() == old(db.Value())
  {
    if id !in db.products {
      return Err(NotFound);
    }
    if adjustment.None? {
      return Err(MissingField("adjustment"));
    }
    var p := db.products[id];
    var newStock := p.stockLevel + adjustment.value;
    if newStock < 0 {
      return Err(NegativeStock);
    }
    AdjustStockEffect(db.Value(), id, adjustment);
    db.products := db.products[id := p.(stockLevel := newStock)];
    db.transactions := db.transactions + [Txn(id, Adjustment, Abs(adjustment.value), AdjustmentRef, None)];
    r := Ok(());
  }
}
