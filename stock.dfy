/**
 * Stock movements shared by the handlers: the quantity a list of items moves
 * per product, the records a movement appends to the transaction log, the
 * net effect of a log on one product, and the restocking loop that order
 * cancellation, order deletion and purchase-order receipt all run.
 */
module Stock {
  import opened Wrappers
  import opened Inventory

  /** One item of an order or of a purchase order, reduced to what moves stock. */
  datatype Line = Line(productId: int, quantity: int)

  function OrderLines(items: seq<OrderItem>): seq<Line> {
    seq(|items|, k requires 0 <= k < |items| => Line(items[k].productId, items[k].quantity))
  }

  function PurchaseLines(items: seq<PurchaseOrderItem>): seq<Line> {
    seq(|items|, k requires 0 <= k < |items| => Line(items[k].productId, items[k].quantity))
  }

  predicate Positive(lines: seq<Line>) {
    forall k :: 0 <= k < |lines| ==> lines[k].quantity > 0
  }

  /** The total quantity `lines` hold of product `pid`. */
  function Supply(lines: seq<Line>, pid: int): int
    decreases |lines|
  {
    if lines == [] then 0
    else
      var last := lines[|lines| - 1];
      Supply(lines[..|lines| - 1], pid) + (if last.productId == pid then last.quantity else 0)
  }

  lemma SupplySnoc(lines: seq<Line>, l: Line, pid: int)
    ensures Supply(lines + [l], pid) == Supply(lines, pid) + (if l.productId == pid then l.quantity else 0)
  {
    assert (lines + [l])[..|lines|] == lines;
  }

  lemma {:induction false} SupplyNonNegative(lines: seq<Line>, pid: int)
    requires Positive(lines)
    ensures Supply(lines, pid) >= 0
  {
    if lines != [] {
      SupplyNonNegative(lines[..|lines| - 1], pid);
    }
  }

  /** The lines whose product is among `keys`, in their order. */
  function Present(lines: seq<Line>, keys: set<int>): seq<Line>
    decreases |lines|
  {
    if lines == [] then []
    else
      var last := lines[|lines| - 1];
      Present(lines[..|lines| - 1], keys) + (if last.productId in keys then [last] else [])
  }

  /** Skipping the lines of absent products does not change what a present product receives. */
  lemma {:induction false} SupplyPresent(lines: seq<Line>, keys: set<int>, pid: int)
    requires pid in keys
    ensures Supply(Present(lines, keys), pid) == Supply(lines, pid)
  {
    if lines != [] {
      var pre, last := lines[..|lines| - 1], lines[|lines| - 1];
      SupplyPresent(pre, keys, pid);
      if last.productId in keys {
        SupplySnoc(Present(pre, keys), last, pid);
      } else {
        assert Present(pre, keys) + [] == Present(pre, keys);
      }
    }
  }

  lemma {:induction false} PresentAll(lines: seq<Line>, keys: set<int>)
    requires forall k :: 0 <= k < |lines| ==> lines[k].productId in keys
    ensures Present(lines, keys) == lines
  {
    if lines != [] {
      PresentAll(lines[..|lines| - 1], keys);
      assert lines == lines[..|lines| - 1] + [lines[|lines| - 1]];
    }
  }

  lemma {:induction false} PresentPositive(lines: seq<Line>, keys: set<int>)
    requires Positive(lines)
    ensures Positive(Present(lines, keys))
  {
    if lines != [] {
      PresentPositive(lines[..|lines| - 1], keys);
    }
  }

  /** The records appended for `lines`, one per line, in order. */
  function Records(lines: seq<Line>, kind: TxnType, ref: RefType, refId: int): seq<Txn> {
    seq(|lines|, k requires 0 <= k < |lines| => Txn(lines[k].productId, kind, lines[k].quantity, ref, Some(refId)))
  }

  lemma RecordsSnoc(lines: seq<Line>, l: Line, kind: TxnType, ref: RefType, refId: int)
    ensures Records(lines + [l], kind, ref, refId) == Records(lines, kind, ref, refId) + [Txn(l.productId, kind, l.quantity, ref, Some(refId))]
  {
  }

  /** The stock change a record stands for: an adjustment records no sign. */
  function Signed(t: Txn): int {
    match t.kind
    case In => t.quantity
    case Out => -t.quantity
    case Adjustment => 0
  }

  /** IN minus OUT over the records of product `pid`. */
  function Net(log: seq<Txn>, pid: int): int
    decreases |log|
  {
    if log == [] then 0
    else
      var last := log[|log| - 1];
      Net(log[..|log| - 1], pid) + (if last.productId == pid then Signed(last) else 0)
  }

  lemma NetSnoc(log: seq<Txn>, t: Txn, pid: int)
    ensures Net(log + [t], pid) == Net(log, pid) + (if t.productId == pid then Signed(t) else 0)
  {
    assert (log + [t])[..|log|] == log;
  }

  lemma {:induction false} NetAppend(a: seq<Txn>, b: seq<Txn>, pid: int)
    ensures Net(a + b, pid) == Net(a, pid) + Net(b, pid)
  {
    if b == [] {
      assert a + b == a;
    } else {
      var pre, last := b[..|b| - 1], b[|b| - 1];
      NetAppend(a, pre, pid);
      assert a + b == (a + pre) + [last];
      NetSnoc(a + pre, last, pid);
    }
  }

  /** IN records of `lines` add up to what the lines supply; OUT records to its negation. */
  lemma {:induction false} NetRecords(lines: seq<Line>, ref: RefType, refId: int, pid: int)
    ensures Net(Records(lines, In, ref, refId), pid) == Supply(lines, pid)
    ensures Net(Records(lines, Out, ref, refId), pid) == -Supply(lines, pid)
  {
    if lines != [] {
      var pre, last := lines[..|lines| - 1], lines[|lines| - 1];
      assert lines == pre + [last];
      NetRecords(pre, ref, refId, pid);
      RecordsSnoc(pre, last, In, ref, refId);
      RecordsSnoc(pre, last, Out, ref, refId);
      NetSnoc(Records(pre, In, ref, refId), Txn(last.productId, In, last.quantity, ref, Some(refId)), pid);
      NetSnoc(Records(pre, Out, ref, refId), Txn(last.productId, Out, last.quantity, ref, Some(refId)), pid);
    }
  }

  /** Every product's stock raised by what `lines` supply of it; lines of
      products not in the table change nothing. */
  function Restocked(products: map<int, Product>, lines: seq<Line>): map<int, Product> {
    map pid | pid in products :: products[pid].(stockLevel := products[pid].stockLevel + Supply(lines, pid))
  }

  /** Every product's stock lowered by what `lines` take of it. */
  function Deducted(products: map<int, Product>, lines: seq<Line>): map<int, Product> {
    map pid | pid in products :: products[pid].(stockLevel := products[pid].stockLevel - Supply(lines, pid))
  }

  /** Taking `lines` away and giving them back leaves the product table as it was. */
  lemma RestockUndoesDeduct(products: map<int, Product>, lines: seq<Line>)
    ensures Restocked(Deducted(products, lines), lines) == products
  {
    var r := Restocked(Deducted(products, lines), lines);
    forall pid | pid in products
      ensures r[pid] == products[pid]
    {
    }
  }

  /** One pass of the restocking loop. */
  lemma RestockStep(products: map<int, Product>, lines: seq<Line>, i: nat, ref: RefType, refId: int)
    requires i < |lines|
    ensures var l, before := lines[i], Restocked(products, lines[..i]);
      Restocked(products, lines[..i + 1])
        == if l.productId in products then before[l.productId := before[l.productId].(stockLevel := before[l.productId].stockLevel + l.quantity)] else before
    ensures var l := lines[i];
      Records(Present(lines[..i + 1], products.Keys), In, ref, refId)
        == Records(Present(lines[..i], products.Keys), In, ref, refId)
           + (if l.productId in products then [Txn(l.productId, In, l.quantity, ref, Some(refId))] else [])
  {
    var l, pre, next := lines[i], lines[..i], lines[..i + 1];
    assert next == pre + [l];
    assert next[..i] == pre;
    var before, after := Restocked(products, pre), Restocked(products, next);
    forall pid | pid in products
      ensures after[pid].stockLevel == before[pid].stockLevel + (if l.productId == pid then l.quantity else 0)
    {
      SupplySnoc(pre, l, pid);
    }
    if l.productId in products {
      RecordsSnoc(Present(pre, products.Keys), l, In, ref, refId);
    } else {
      assert Present(next, products.Keys) == Present(pre, products.Keys) + [];
      assert Present(pre, products.Keys) + [] == Present(pre, products.Keys);
    }
  }

  /** The restocking loop: every line whose product still exists adds its
      quantity to that product and appends one IN record with the given
      reference; lines of products that no longer exist are skipped. */
  method Restock(db: Database, lines: seq<Line>, ref: RefType, refId: int)
    modifies db
    ensures db.Value() == old(db.Value()).(
      products := Restocked(old(db.products), lines),
      transactions := old(db.transactions) + Records(Present(lines, old(db.products).Keys), In, ref, refId))
  {
    ghost var d0 := db.Value();
    var i := 0;
    while i < |lines|
      invariant 0 <= i <= |lines|
      invariant db.Value() == d0.(
        products := Restocked(d0.products, lines[..i]),
        transactions := d0.transactions + Records(Present(lines[..i], d0.products.Keys), In, ref, refId))
    {
      var line := lines[i];
      RestockStep(d0.products, lines, i, ref, refId);
      if line.productId in db.products {
        var p := db.products[line.productId];
        db.products := db.products[line.productId := p.(stockLevel := p.stockLevel + line.quantity)];
        db.transactions := db.transactions + [Txn(line.productId, In, line.quantity, ref, Some(refId))];
      }
      i := i + 1;
    }
    assert lines[..i] == lines;
  }

  /** Restocking by positive quantities keeps the ledger invariant: stock only
      grows, and every appended record is a well-formed IN record. */
  lemma RestockKeepsValid(d: Db, lines: seq<Line>, ref: RefType, refId: int)
    requires d.Valid() && Positive(lines)
    requires ref == OrderCancellation || ref == PurchaseOrderRef
    ensures d.(products := Restocked(d.products, lines),
               transactions := d.transactions + Records(Present(lines, d.products.Keys), In, ref, refId)).Valid()
  {
    var ps := Restocked(d.products, lines);
    var added := Records(Present(lines, d.products.Keys), In, ref, refId);
    var log := d.transactions + added;
    forall pid | pid in ps
      ensures ps[pid].stockLevel >= 0
    {
      SupplyNonNegative(lines, pid);
    }
    PresentPositive(lines, d.products.Keys);
    forall k | 0 <= k < |log|
      ensures WellFormedTxn(log[k])
    {
      if k >= |d.transactions| {
        assert log[k] == added[k - |d.transactions|];
      }
    }
  }
}
