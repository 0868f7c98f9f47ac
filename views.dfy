/**
 * The three read-only views over the ledger: every ledger key with its total, one product's
 * entries with their total, and the cross-section of one warehouse over all products.
 */
module Views {
  import opened Outcomes
  import opened Catalog
  import opened Ledger

  /** A product's entries with their total. `product` is None when the product has been
      deleted from the catalog after its entries were recorded. */
  datatype Summary = Summary(product: Option<Product>, inventory: seq<Entry>, totalQuantity: int)

  /** One entry of the per-warehouse view. */
  datatype Line = Line(product: Option<Product>, warehouseId: WarehouseId, quantity: int)

  /** The catalog record for `sku`, if there still is one. */
  function Lookup(products: map<Sku, Product>, sku: Sku): (r: Option<Product>)
    ensures r.Some? <==> sku in products
    ensures r.Some? ==> r.value == products[sku]
  {
    if sku in products then Some(products[sku]) else None
  }

  function SummaryOf(products: map<Sku, Product>, sku: Sku, entries: seq<Entry>): Summary {
    Summary(Lookup(products, sku), entries, Total(entries))
  }

  /** Every key of `order` has a list in the ledger. */
  ghost predicate Listed(order: seq<Sku>, inventory: map<Sku, seq<Entry>>) {
    forall sku :: sku in order ==> sku in inventory
  }

  /** One summary per key of `order`, in that order. */
  function GlobalView(order: seq<Sku>, inventory: map<Sku, seq<Entry>>, products: map<Sku, Product>): (r: seq<Summary>)
    requires Listed(order, inventory)
    ensures |r| == |order|
    ensures forall i :: 0 <= i < |order| ==>
      && r[i].inventory == inventory[order[i]]
      && r[i].totalQuantity == Total(r[i].inventory)
      && r[i].product == Lookup(products, order[i])
  {
    if order == [] then []
    else
      var sku := order[|order| - 1];
      GlobalView(order[..|order| - 1], inventory, products) + [SummaryOf(products, sku, inventory[sku])]
  }

  /** One product's summary, or not-found when it has no entries (no list, or an empty one). */
  function ProductView(inventory: map<Sku, seq<Entry>>, products: map<Sku, Product>, sku: Sku): (r: Response<Summary>)
    ensures r.Ok? || r == NotFound(InventoryKind)
    ensures r.NotFound? <==> sku !in inventory || inventory[sku] == []
    ensures r.Ok? ==> r.value.inventory == inventory[sku] && r.value.totalQuantity == Total(r.value.inventory)
    ensures r.Ok? ==> r.value.product == Lookup(products, sku)
  {
    var entries := EntriesOf(inventory, sku);
    if entries == [] then NotFound(InventoryKind) else Ok(SummaryOf(products, sku, entries))
  }

  /** The lines that one product's entries contribute to the view of `warehouseId`. */
  function LinesFor(product: Option<Product>, entries: seq<Entry>, warehouseId: WarehouseId): (r: seq<Line>)
    ensures |r| <= |entries|
    ensures forall line :: line in r ==> line.product == product && line.warehouseId == warehouseId
  {
    if entries == [] then []
    else
      var last := entries[|entries| - 1];
      LinesFor(product, entries[..|entries| - 1], warehouseId)
        + (if last.warehouseId == warehouseId then [Line(product, warehouseId, last.quantity)] else [])
  }

  /** The lines of every listed product for `warehouseId`, products in `order`, entries in list order. */
  function WarehouseView(order: seq<Sku>, inventory: map<Sku, seq<Entry>>, products: map<Sku, Product>, warehouseId: WarehouseId): (r: seq<Line>)
    requires Listed(order, inventory)
    ensures forall line :: line in r ==> line.warehouseId == warehouseId
  {
    if order == [] then []
    else
      var sku := order[|order| - 1];
      WarehouseView(order[..|order| - 1], inventory, products, warehouseId)
        + LinesFor(Lookup(products, sku), inventory[sku], warehouseId)
  }

  /** `line` reports some entry for `warehouseId` of some product of `order`, with its quantity. */
  ghost predicate Reports(order: seq<Sku>, inventory: map<Sku, seq<Entry>>, products: map<Sku, Product>, warehouseId: WarehouseId, line: Line)
    requires Listed(order, inventory)
  {
    exists i, k :: 0 <= i < |order| && 0 <= k < |inventory[order[i]]|
      && inventory[order[i]][k].warehouseId == warehouseId
      && line == Line(Lookup(products, order[i]), warehouseId, inventory[order[i]][k].quantity)
  }

  lemma {:induction false} LinesForExactly(product: Option<Product>, entries: seq<Entry>, warehouseId: WarehouseId, line: Line)
    ensures line in LinesFor(product, entries, warehouseId) <==>
      exists k :: 0 <= k < |entries| && entries[k].warehouseId == warehouseId
        && line == Line(product, warehouseId, entries[k].quantity)
    decreases |entries|
  {
    if entries != [] {
      var init := entries[..|entries| - 1];
      LinesForExactly(product, init, warehouseId, line);
      if exists k :: 0 <= k < |init| && init[k].warehouseId == warehouseId && line == Line(product, warehouseId, init[k].quantity) {
        var k :| 0 <= k < |init| && init[k].warehouseId == warehouseId && line == Line(product, warehouseId, init[k].quantity);
        assert entries[k] == init[k];
      }
    }
  }

  /** With at most one entry per warehouse, a product contributes at most one line. */
  lemma {:induction false} LinesForUnique(product: Option<Product>, entries: seq<Entry>, warehouseId: WarehouseId)
    requires UniqueWarehouses(entries)
    ensures |LinesFor(product, entries, warehouseId)| <= 1
    ensures |LinesFor(product, entries, warehouseId)| == 1 <==> Holds(entries, warehouseId)
    decreases |entries|
  {
    if entries != [] {
      var init := entries[..|entries| - 1];
      LinesForUnique(product, init, warehouseId);
      if entries[|entries| - 1].warehouseId == warehouseId {
        assert forall k :: 0 <= k < |init| ==> init[k].warehouseId != warehouseId by {
          forall k | 0 <= k < |init| ensures init[k].warehouseId != warehouseId {
            assert init[k] == entries[k];
          }
        }
      } else if exists k :: 0 <= k < |entries| && entries[k].warehouseId == warehouseId {
        var k :| 0 <= k < |entries| && entries[k].warehouseId == warehouseId;
        assert init[k] == entries[k];
      }
    }
  }

  /**
   * The per-warehouse view holds exactly the entries for `warehouseId` across all listed
   * products: each line reports one such entry with its quantity, and each such entry is reported.
   */
  lemma {:induction false} WarehouseViewExactly(order: seq<Sku>, inventory: map<Sku, seq<Entry>>, products: map<Sku, Product>, warehouseId: WarehouseId, line: Line)
    requires Listed(order, inventory)
    ensures line in WarehouseView(order, inventory, products, warehouseId) <==> Reports(order, inventory, products, warehouseId, line)
    decreases |order|
  {
    if order != [] {
      var init, sku := order[..|order| - 1], order[|order| - 1];
      assert Listed(init, inventory);
      WarehouseViewExactly(init, inventory, products, warehouseId, line);
      LinesForExactly(Lookup(products, sku), inventory[sku], warehouseId, line);
      if Reports(init, inventory, products, warehouseId, line) {
        var i, k :| 0 <= i < |init| && 0 <= k < |inventory[init[i]]|
          && inventory[init[i]][k].warehouseId == warehouseId
          && line == Line(Lookup(products, init[i]), warehouseId, inventory[init[i]][k].quantity);
        assert order[i] == init[i];
      }
      if Reports(order, inventory, products, warehouseId, line) {
        var i, k :| 0 <= i < |order| && 0 <= k < |inventory[order[i]]|
          && inventory[order[i]][k].warehouseId == warehouseId
          && line == Line(Lookup(products, order[i]), warehouseId, inventory[order[i]][k].quantity);
        if i < |init| {
          assert init[i] == order[i];
        }
      }
    }
  }

  /** The per-warehouse view is empty, not an error, exactly when no listed product has an
      entry for the warehouse. */
  lemma WarehouseViewEmpty(order: seq<Sku>, inventory: map<Sku, seq<Entry>>, products: map<Sku, Product>, warehouseId: WarehouseId)
    requires Listed(order, inventory)
    ensures WarehouseView(order, inventory, products, warehouseId) == [] <==>
      forall i, k :: 0 <= i < |order| && 0 <= k < |inventory[order[i]]| ==> inventory[order[i]][k].warehouseId != warehouseId
  {
    var r := WarehouseView(order, inventory, products, warehouseId);
    if r != [] {
      WarehouseViewExactly(order, inventory, products, warehouseId, r[0]);
    }
    if i, k :| 0 <= i < |order| && 0 <= k < |inventory[order[i]]| && inventory[order[i]][k].warehouseId == warehouseId {
      var line := Line(Lookup(products, order[i]), warehouseId, inventory[order[i]][k].quantity);
      WarehouseViewExactly(order, inventory, products, warehouseId, line);
    }
  }

  /** One product contributes one line per entry for `warehouseId`, with no aggregation. */
  lemma {:induction false} LinesForCount(product: Option<Product>, entries: seq<Entry>, warehouseId: WarehouseId)
    ensures |LinesFor(product, entries, warehouseId)| == |set k | 0 <= k < |entries| && entries[k].warehouseId == warehouseId|
    decreases |entries|
  {
    if entries != [] {
      var n := |entries| - 1;
      var init := entries[..n];
      LinesForCount(product, init, warehouseId);
      var before := set k | 0 <= k < |init| && init[k].warehouseId == warehouseId;
      var after := set k | 0 <= k < |entries| && entries[k].warehouseId == warehouseId;
      assert forall k :: 0 <= k < n ==> init[k] == entries[k];
      if entries[n].warehouseId == warehouseId {
        assert after == before + {n};
      } else {
        assert after == before;
      }
    }
  }

  /** The positions of `order` whose product has an entry for `warehouseId`. */
  ghost function Stocking(order: seq<Sku>, inventory: map<Sku, seq<Entry>>, warehouseId: WarehouseId): set<int>
    requires Listed(order, inventory)
  {
    set i | 0 <= i < |order| && Holds(inventory[order[i]], warehouseId)
  }

  /** Some entry of `entries` is for `warehouseId`. */
  ghost predicate Holds(entries: seq<Entry>, warehouseId: WarehouseId) {
    exists k :: 0 <= k < |entries| && entries[k].warehouseId == warehouseId
  }

  lemma StockingStep(order: seq<Sku>, inventory: map<Sku, seq<Entry>>, warehouseId: WarehouseId)
    requires Listed(order, inventory) && order != []
    ensures Listed(order[..|order| - 1], inventory)
    ensures var n := |order| - 1;
      && n !in Stocking(order[..n], inventory, warehouseId)
      && Stocking(order, inventory, warehouseId) ==
         Stocking(order[..n], inventory, warehouseId) + (if Holds(inventory[order[n]], warehouseId) then {n} else {})
  {
    var n := |order| - 1;
    var init := order[..n];
    assert Listed(init, inventory);
    forall i | 0 <= i < n
      ensures i in Stocking(order, inventory, warehouseId) <==> i in Stocking(init, inventory, warehouseId)
    {
      assert init[i] == order[i];
    }
  }

  /**
   * When every list has at most one entry per warehouse, the view has exactly one line for
   * each ledger key that has an entry for the warehouse, and none for the others.
   */
  lemma {:induction false} WarehouseViewCount(order: seq<Sku>, inventory: map<Sku, seq<Entry>>, products: map<Sku, Product>, warehouseId: WarehouseId)
    requires Listed(order, inventory)
    requires forall sku :: sku in inventory ==> UniqueWarehouses(inventory[sku])
    ensures |WarehouseView(order, inventory, products, warehouseId)| == |Stocking(order, inventory, warehouseId)|
    decreases |order|
  {
    if order != [] {
      var n := |order| - 1;
      var init, sku := order[..n], order[n];
      assert Listed(init, inventory);
      WarehouseViewCount(init, inventory, products, warehouseId);
      LinesForUnique(Lookup(products, sku), inventory[sku], warehouseId);
      StockingStep(order, inventory, warehouseId);
    }
  }

  /** The per-product view of a ledger key is the global view's summary for that key. */
  lemma ProductViewInGlobal(order: seq<Sku>, inventory: map<Sku, seq<Entry>>, products: map<Sku, Product>, i: nat)
    requires Listed(order, inventory)
    requires i < |order| && inventory[order[i]] != []
    ensures ProductView(inventory, products, order[i]) == Ok(GlobalView(order, inventory, products)[i])
  {
  }
}
