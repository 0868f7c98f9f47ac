/**
 * The in-memory store behind the service: the product catalog, the warehouse catalog and the
 * inventory ledger, with the catalog handlers, the inventory upsert and the inventory views.
 */
module Store {
  import opened Outcomes
  import opened Catalog
  import opened Ledger
  import opened Views

  class InventoryStore {
    var products: map<Sku, Product>
    var warehouses: map<WarehouseId, Warehouse>
    var inventory: map<Sku, seq<Entry>>
    /** The ledger's keys in the order they were first added (the iteration order of the ledger). */
    var inventoryOrder: seq<Sku>

    /**
     * The ledger's key order lists each key once; every list is non-empty and has at most one
     * entry per warehouse. Nothing ties ledger keys or entries to live catalog records.
     */
    ghost predicate Valid()
      reads this
    {
      && (forall sku :: sku in inventoryOrder <==> sku in inventory)
      && (forall i, j :: 0 <= i < j < |inventoryOrder| ==> inventoryOrder[i] != inventoryOrder[j])
      && (forall sku :: sku in inventory ==> inventory[sku] != [] && UniqueWarehouses(inventory[sku]))
    }

    constructor ()
      ensures Valid()
      ensures products == map[] && warehouses == map[] && inventory == map[] && inventoryOrder == []
    {
      products, warehouses, inventory, inventoryOrder := map[], map[], map[], [];
    }

    /** Adds the product described by `data` under its `sku` attribute, when that SKU is not yet taken. */
    method CreateProduct(data: Attributes) returns (r: Response<Product>)
      requires Valid()
      requires "sku" in data
      modifies this`products
      ensures Valid()
      ensures data["sku"] in old(products) ==> r == Conflict && products == old(products)
      ensures data["sku"] !in old(products) ==>
        r == Created(Product(data["sku"], data)) && products == old(products)[data["sku"] := Product(data["sku"], data)]
    {
      var sku := data["sku"];
      if sku in products {
        return Conflict;
      }
      products := products[sku := Product(sku, data)];
      r := Created(products[sku]);
    }

    /** Merges `patch` into an existing product. */
    method UpdateProduct(sku: Sku, patch: Attributes) returns (r: Response<Product>)
      requires Valid()
      modifies this`products
      ensures Valid()
      ensures sku !in old(products) ==> r == NotFound(ProductKind) && products == old(products)
      ensures sku in old(products) ==>
        var p := old(products)[sku].Merge(patch);
        r == Ok(p) && products == old(products)[sku := p]
    {
      if sku !in products {
        return NotFound(ProductKind);
      }
      products := products[sku := products[sku].Merge(patch)];
      r := Ok(products[sku]);
    }

    /** Removes a product from the catalog; its ledger entries stay (the ledger is not in the frame). */
    method DeleteProduct(sku: Sku) returns (r: Response<()>)
      requires Valid()
      modifies this`products
      ensures Valid()
      ensures sku !in old(products) ==> r == NotFound(ProductKind) && products == old(products)
      ensures sku in old(products) ==> r == NoContent && products == old(products) - {sku}
    {
      if sku !in products {
        return NotFound(ProductKind);
      }
      products := products - {sku};
      r := NoContent;
    }

    /**
     * Adds the warehouse described by `data` under a fresh identifier starting with the warehouse
     * prefix; any `id` in `data` is replaced by the new identifier.
     */
    method CreateWarehouse(data: Attributes) returns (r: Response<Warehouse>)
      requires Valid()
      requires "name" in data
      modifies this`warehouses
      ensures Valid()
      ensures r.Created? && r.value.id !in old(warehouses) && HasPrefix(r.value.id, WarehousePrefix)
      ensures r.Created? ==> r.value.name == data["name"] && r.value.attributes == data - {"name", "id"}
      ensures r.Created? ==> warehouses == old(warehouses)[r.value.id := r.value]
    {
      var id := GenerateId(WarehousePrefix, warehouses.Keys);
      var w := Warehouse(id, data["name"], Extra(data));
      warehouses := warehouses[id := w];
      r := Created(w);
    }

    /** Merges `patch` into an existing warehouse, renaming it when `patch` has a `name`;
        ledger entries keep the name they were created with. */
    method UpdateWarehouse(id: WarehouseId, patch: Attributes) returns (r: Response<Warehouse>)
      requires Valid()
      modifies this`warehouses
      ensures Valid()
      ensures id !in old(warehouses) ==> r == NotFound(WarehouseKind) && warehouses == old(warehouses)
      ensures id in old(warehouses) ==>
        var w := old(warehouses)[id].Merge(patch);
        r == Ok(w) && warehouses == old(warehouses)[id := w]
    {
      if id !in warehouses {
        return NotFound(WarehouseKind);
      }
      warehouses := warehouses[id := warehouses[id].Merge(patch)];
      r := Ok(warehouses[id]);
    }

    /** Removes a warehouse from the catalog; entries that refer to it stay. */
    method DeleteWarehouse(id: WarehouseId) returns (r: Response<()>)
      requires Valid()
      modifies this`warehouses
      ensures Valid()
      ensures id !in old(warehouses) ==> r == NotFound(WarehouseKind) && warehouses == old(warehouses)
      ensures id in old(warehouses) ==> r == NoContent && warehouses == old(warehouses) - {id}
    {
      if id !in warehouses {
        return NotFound(WarehouseKind);
      }
      warehouses := warehouses - {id};
      r := NoContent;
    }

    /**
     * Records `quantity` more of product `sku` at warehouse `warehouseId`. The product is looked
     * up first, then the warehouse; either miss changes nothing. Otherwise the product's entry
     * for that warehouse gets `quantity` added (Ok), or a new entry holding `quantity` and the
     * warehouse's current name is appended (Created). No other entry and no other product's
     * list changes.
     */
    method UpdateInventory(sku: Sku, warehouseId: WarehouseId, quantity: int) returns (r: Response<Entry>)
      requires Valid()
      modifies this`inventory, this`inventoryOrder
      ensures Valid()
      ensures sku !in products ==>
        r == NotFound(ProductKind) && inventory == old(inventory) && inventoryOrder == old(inventoryOrder)
      ensures sku in products && warehouseId !in warehouses ==>
        r == NotFound(WarehouseKind) && inventory == old(inventory) && inventoryOrder == old(inventoryOrder)
      ensures sku in products && warehouseId in warehouses ==>
        var u := Upsert(EntriesOf(old(inventory), sku), warehouseId, warehouses[warehouseId].name, quantity);
        && inventory == old(inventory)[sku := u.entries]
        && inventoryOrder == (if sku in old(inventory) then old(inventoryOrder) else old(inventoryOrder) + [sku])
        && r == (if u.created then Created(u.entries[u.at]) else Ok(u.entries[u.at]))
    {
      if sku !in products {
        return NotFound(ProductKind);
      }
      if warehouseId !in warehouses {
        return NotFound(WarehouseKind);
      }
      ghost var before := EntriesOf(inventory, sku);
      ghost var name := warehouses[warehouseId].name;
      if sku !in inventory {
        inventory := inventory[sku := []];
        inventoryOrder := inventoryOrder + [sku];
      }
      var entries := inventory[sku];
      assert entries == before;
      UpsertKeepsUnique(before, warehouseId, name, quantity);
      var i := 0;
      while i < |entries|
        invariant 0 <= i <= |entries|
        invariant forall k :: 0 <= k < i ==> entries[k].warehouseId != warehouseId
      {
        if entries[i].warehouseId == warehouseId {
          var entry := entries[i].(quantity := entries[i].quantity + quantity);
          inventory := inventory[sku := entries[i := entry]];
          return Ok(entry);
        }
        i := i + 1;
      }
      inventory := inventory[sku := entries + [Entry(warehouseId, warehouses[warehouseId].name, quantity)]];
      r := Created(inventory[sku][|inventory[sku]| - 1]);
    }

    /** Every ledger key, in ledger order, with its product record (if any), entries and total. */
    method GetInventory() returns (r: seq<Summary>)
      requires Valid()
      ensures r == GlobalView(inventoryOrder, inventory, products)
    {
      r := [];
      var i := 0;
      while i < |inventoryOrder|
        invariant 0 <= i <= |inventoryOrder|
        invariant r == GlobalView(inventoryOrder[..i], inventory, products)
      {
        var sku := inventoryOrder[i];
        var entries := inventory[sku];
        r := r + [Summary(Lookup(products, sku), entries, Total(entries))];
        assert inventoryOrder[..i + 1][..i] == inventoryOrder[..i];
        i := i + 1;
      }
      assert inventoryOrder[..i] == inventoryOrder;
    }

    /**
     * One product's entries and total. Not-found exactly when the ledger has no entries for the
     * SKU; in this store that is the same as the SKU never having been upserted, whether or not
     * the product exists.
     */
    method GetInventoryByProduct(sku: Sku) returns (r: Response<Summary>)
      requires Valid()
      ensures r == ProductView(inventory, products, sku)
      ensures r.NotFound? <==> sku !in inventory
    {
      var entries := EntriesOf(inventory, sku);
      if entries == [] {
        return NotFound(InventoryKind);
      }
      r := Ok(Summary(Lookup(products, sku), entries, Total(entries)));
    }

    /** One line per entry for `warehouseId`, over all ledger keys in ledger order. */
    method GetInventoryByWarehouse(warehouseId: WarehouseId) returns (r: seq<Line>)
      requires Valid()
      ensures r == WarehouseView(inventoryOrder, inventory, products, warehouseId)
    {
      r := [];
      var i := 0;
      while i < |inventoryOrder|
        invariant 0 <= i <= |inventoryOrder|
        invariant r == WarehouseView(inventoryOrder[..i], inventory, products, warehouseId)
      {
        var sku := inventoryOrder[i];
        var product := Lookup(products, sku);
        var entries := inventory[sku];
        ghost var done := r;
        var j := 0;
        while j < |entries|
          invariant 0 <= j <= |entries|
          invariant r == done + LinesFor(product, entries[..j], warehouseId)
        {
          if entries[j].warehouseId == warehouseId {
            r := r + [Line(product, warehouseId, entries[j].quantity)];
          }
          assert entries[..j + 1][..j] == entries[..j];
          j := j + 1;
        }
        assert entries[..j] == entries;
        assert inventoryOrder[..i + 1][..i] == inventoryOrder[..i];
        i := i + 1;
      }
      assert inventoryOrder[..i] == inventoryOrder;
    }
  }
}

/**
 * A client of the store: one product, one warehouse, two upserts of the same pair, then the
 * warehouse is deleted. The pair keeps a single entry with both deltas, and the warehouse view
 * still reports it afterwards.
 */
module StoreClient {
  import opened Outcomes
  import opened Catalog
  import opened Ledger
  import opened Views
  import opened Store

  /** The ledger facts the scenario below steps through, proved apart from the store. */
  lemma ScenarioLedger(id: WarehouseId, products: map<Sku, Product>)
    requires products == map["SKU1" := Product("SKU1", map["sku" := "SKU1"])]
    ensures Upsert([], id, "Main", 10) == Upserted([Entry(id, "Main", 10)], 0, true)
    ensures Upsert([Entry(id, "Main", 10)], id, "Main", 5) == Upserted([Entry(id, "Main", 15)], 0, false)
    ensures Total([Entry(id, "Main", 15)]) == 15
    ensures WarehouseView(["SKU1"], map["SKU1" := [Entry(id, "Main", 15)]], products, id)
      == [Line(Some(Product("SKU1", map["sku" := "SKU1"])), id, 15)]
  {
    var entries := [Entry(id, "Main", 15)];
    assert entries[..0] == [];
    assert ["SKU1"][..0] == [];
    assert LinesFor(Some(Product("SKU1", map["sku" := "SKU1"])), entries, id) == [Line(Some(Product("SKU1", map["sku" := "SKU1"])), id, 15)];
  }

  /** One product, one warehouse named "Main", and two upserts of 10 and 5 for that pair. */
  method UpsertTwiceOnFreshStore() returns (store: InventoryStore, id: WarehouseId, first: Response<Entry>, second: Response<Entry>)
    ensures fresh(store) && store.Valid()
    ensures store.products == map["SKU1" := Product("SKU1", map["sku" := "SKU1"])]
    ensures store.inventory == map["SKU1" := [Entry(id, "Main", 15)]] && store.inventoryOrder == ["SKU1"]
    ensures id in store.warehouses
    ensures first == Created(Entry(id, "Main", 10)) && second == Ok(Entry(id, "Main", 15))
  {
    store := new InventoryStore();
    var p := store.CreateProduct(map["sku" := "SKU1"]);
    var w := store.CreateWarehouse(map["name" := "Main"]);
    id := w.value.id;
    ScenarioLedger(id, store.products);
    assert id in store.warehouses && store.warehouses[id].name == "Main";
    first := store.UpdateInventory("SKU1", id, 10);
    assert store.inventory == map["SKU1" := [Entry(id, "Main", 10)]];
    ghost var before := store.inventory;
    second := store.UpdateInventory("SKU1", id, 5);
    assert store.inventory == before["SKU1" := [Entry(id, "Main", 15)]];
  }

  method RepeatedUpsertThenDelete() returns (first: Response<Entry>, second: Response<Entry>, gone: Response<()>, lines: seq<Line>, product: Response<Summary>)
    ensures first.Created? && first.value.warehouseName == "Main" && first.value.quantity == 10
    ensures second == Ok(first.value.(quantity := 15))
    ensures gone == NoContent
    ensures |lines| == 1 && lines[0].quantity == 15 && lines[0].product == Some(Product("SKU1", map["sku" := "SKU1"]))
    ensures product.Ok? && product.value.totalQuantity == 15 && |product.value.inventory| == 1
  {
    var store, id;
    store, id, first, second := UpsertTwiceOnFreshStore();
    ScenarioLedger(id, store.products);
    gone := store.DeleteWarehouse(id);
    product := store.GetInventoryByProduct("SKU1");
    lines := store.GetInventoryByWarehouse(id);
  }
}
