# Inventory ledger of the e-commerce inventory service

This project models the in-memory store behind the inventory service in `app.py`. The store
has three maps:

- a product catalog keyed by SKU;
- a warehouse catalog keyed by generated warehouse id;
- the inventory ledger. It maps each SKU to an ordered list of entries. Each entry holds a
  `warehouseId`, a `warehouseName` and a `quantity`.

The model covers the inventory upsert, the three inventory views (global, by product, by
warehouse) and the catalog create/update/delete handlers. Each handler is a map operation.

Layout:

- `outcomes.dfy` (module `Outcomes`): `Option`, and `Response`, the outcome of every operation.
  `Ok` and `Created` stand for the 200 and 201 answers, and `NoContent` for 204. `NotFound(kind)`
  stands for 404 and names which lookup failed. `Conflict` stands for the 400 answer to a
  duplicate SKU.
- `catalog.dfy` (module `Catalog`): the product and warehouse records, their partial-update
  merge, and the fresh warehouse id.
- `ledger.dfy` (module `Ledger`): `Entry`, the sum of quantities, and the upsert on one product's
  entry list as a function. The lemmas cover totals, the one-entry-per-warehouse rule and
  repeated upserts.
- `views.dfy` (module `Views`): the three views as functions over the ledger, with lemmas. One
  lemma says the warehouse view holds exactly the matching entries, and two more count its
  lines: one line per matching entry, nothing aggregated. Another says the product view is one
  element of the global view.
- `store.dfy` (module `Store`): class `InventoryStore`. Its fields are the three maps plus
  `inventoryOrder`, the ledger keys in first-insertion order. Python dictionaries iterate in
  that order and the views expose it. The handlers are methods on this class. Each one updates
  only the fields in its `modifies` frame and is proved against the functions above. So the
  catalog handlers provably never touch the ledger: entries can outlive their product or
  warehouse, and a rename never reaches a stored `warehouseName`. Module `StoreClient` holds the
  scenario of two upserts of the same pair followed by a warehouse delete, and states and proves
  what it returns.

The store invariant `InventoryStore.Valid` says three things:

- the key order lists each ledger key exactly once;
- every ledger list is non-empty;
- every ledger list has at most one entry per warehouse.

Every method keeps it, so it holds after any sequence of operations.

Policies the model keeps as the code has them:

- Quantity deltas have no bound and no sign check: app.py:149 and app.py:156 accept any delta.
- The per-product view answers not-found both for an unknown SKU and for a SKU with no entries
  (app.py:105-107).
- Duplicate-SKU creation answers 400 (app.py:35), modelled as `Conflict`.

## Model

| member | source | states |
|---|---|---|
| `Catalog.Product.Merge` | app.py:44 | a product update keeps the SKU; patch attributes overwrite or add, all others are kept |
| `Catalog.Warehouse.Merge` | app.py:79 | a warehouse update keeps the id, takes `name` from the patch when the patch has one, and merges the other patch attributes over the old ones |
| `Catalog.GenerateId` | app.py:69 | the new warehouse id is not already a key and starts with the warehouse prefix |
| `Ledger.EntriesOf` | app.py:105 | the SKU's list when the ledger has one, the empty list otherwise |
| `Ledger.Total` | app.py:95 | the sum of the entries' quantities; with no negative quantity it is not negative and no entry exceeds it |
| `Ledger.Find` | app.py:147-148 | returns the first entry whose `warehouseId` matches, or none exactly when no entry matches |
| `Ledger.Upsert` | app.py:143-158 | on a match, adds the delta to that first matching entry and changes nothing else; on no match, appends one entry with the delta and the given name as the last element and reports it as created |
| `Ledger.UpsertTotal` | app.py:143-158 | either path changes the product's total by exactly the delta |
| `Ledger.UpsertKeepsUnique` | app.py:143-158 | with at most one entry per warehouse before, the same holds after, and the affected entry is the only one for that warehouse |
| `Ledger.UpsertTwice` | app.py:143-158 | upserting the same warehouse with d1 then d2 updates in place the second time, at the same index, and leaves the same list as one upsert of d1 + d2 |
| `Views.Lookup` | app.py:94 | the product record when the SKU is in the catalog, none otherwise |
| `Views.GlobalView` | app.py:91-101 | one summary per ledger key, in ledger order, with that key's entries, their sum as total, and the product record or none |
| `Views.ProductView` | app.py:104-114 | not-found for inventory exactly when the SKU has no list or an empty one; otherwise that list, its sum and the product record |
| `Views.LinesFor` | app.py:121-127 | one product's lines for a warehouse: each carries that product record and the warehouse id, and there are no more lines than entries |
| `Views.WarehouseView` | app.py:117-128 | every line of the per-warehouse view carries the requested warehouse id |
| `Views.LinesForExactly` | app.py:121-127 | a line is produced for a product exactly when one of its entries has the warehouse id, carrying that entry's quantity |
| `Views.LinesForUnique` | app.py:121-127 | with unique warehouse ids a product yields at most one line, and exactly one when it has an entry for the warehouse |
| `Views.WarehouseViewExactly` | app.py:117-128 | a line is in the warehouse view exactly when some ledger entry for that warehouse reports it, with that entry's quantity and its product record |
| `Views.WarehouseViewEmpty` | app.py:117-128 | the warehouse view is empty, not an error, exactly when no ledger entry has that warehouse id |
| `Views.LinesForCount` | app.py:121-127 | a product contributes exactly as many lines as it has entries for the warehouse; nothing is aggregated |
| `Views.WarehouseViewCount` | app.py:117-128 | under the one-entry-per-warehouse invariant, the view has exactly as many lines as there are ledger keys with an entry for the warehouse |
| `Views.ProductViewInGlobal` | app.py:93-114 | for a key with entries, the per-product view is the global view's summary for that key |
| `Store.InventoryStore.constructor` | app.py:6-8 | the store starts with all three maps empty, and the invariant holds |
| `Store.InventoryStore.CreateProduct` | app.py:31-37 | the key is the request's `sku` attribute; a taken SKU gives a conflict and changes nothing; otherwise the whole request is stored as the record under that key and returned as created; warehouses and ledger are outside the frame |
| `Store.InventoryStore.UpdateProduct` | app.py:40-45 | an unknown SKU gives product not-found; otherwise the merged product replaces the old one and is returned |
| `Store.InventoryStore.DeleteProduct` | app.py:48-52 | an unknown SKU gives product not-found; otherwise only that catalog key is removed, and the ledger keeps its entries |
| `Store.InventoryStore.CreateWarehouse` | app.py:67-72 | the warehouse is added under a fresh prefixed id, named by the request's `name` attribute and holding the request's other attributes, and returned as created |
| `Store.InventoryStore.UpdateWarehouse` | app.py:75-80 | an unknown id gives warehouse not-found; otherwise the merged warehouse, renamed when the patch has a `name`, replaces the old one; ledger entries keep their name snapshot |
| `Store.InventoryStore.DeleteWarehouse` | app.py:83-87 | an unknown id gives warehouse not-found; otherwise only that catalog key is removed, and entries referring to it stay |
| `Store.InventoryStore.UpdateInventory` | app.py:131-158 | an unknown product gives product not-found before the warehouse is checked, and an unknown warehouse gives warehouse not-found; neither changes anything. Otherwise only this SKU's list becomes the `Upsert` result, with the warehouse's current name. The key is appended to the ledger order on first use, the answer is created or ok to match the path, and the invariant is kept |
| `Store.InventoryStore.GetInventory` | app.py:91-101 | the loop returns the global view of the current ledger |
| `Store.InventoryStore.GetInventoryByProduct` | app.py:104-114 | returns the per-product view, which is not-found exactly when the SKU is not a ledger key |
| `Store.InventoryStore.GetInventoryByWarehouse` | app.py:117-128 | the nested loops return the warehouse view of the current ledger |
| `StoreClient.RepeatedUpsertThenDelete` | app.py:143-158 | upserting 10 for a new pair answers created with the warehouse's name, and then upserting 5 answers ok with quantity 15, leaving one entry of 15. After the warehouse is deleted, the product view totals 15 and the warehouse view still has one line of 15 |

## Left out

- HTTP routing, JSON request parsing, serialization and status codes. Outcomes are `Response` values.
- Missing request fields. `Store.InventoryStore.CreateProduct` requires a `sku` attribute, which app.py:33 reads and raises on when it is absent. `Store.InventoryStore.CreateWarehouse` requires a `name` attribute: app.py:67-72 would store a nameless warehouse, but a later upsert against it raises at app.py:155.
- Non-integer quantities. app.py:135 accepts any JSON value, and the model takes `int`. Floats would add with rounding. A non-numeric value raises at app.py:149 on a hit; on a miss it is stored at app.py:156, and then the sums at app.py:95 and app.py:109 raise for that SKU.
- An upsert against a warehouse without a `name` is not modelled. In the source, app.py:144 creates an empty list for a new SKU before app.py:155 fails, and that empty list stays in the ledger: the global view then lists the SKU with total 0 and the per-product view answers not-found for it. `InventoryStore.Valid` requires every ledger list to be non-empty, which rules this state out.
- Catalog attribute values are strings, not arbitrary JSON values.
- `Catalog.Warehouse.Merge`: an `id` attribute in a warehouse patch is dropped, where the source would overwrite the record's `id` field while the catalog key stays. A product patch with a `sku` attribute overwrites the record's `sku` attribute and keeps the catalog key, as in the source. `CreateWarehouse` replaces any `id` in the request, as the source does.
- `Catalog.GenerateId`: `generate_id` is called at app.py:69 but neither defined nor imported in app.py, so as written that line raises `NameError` and no warehouse is ever created. The model assumes a definition that returns an unused id with the `WH` prefix.
- The reads `get_all_products`, `get_product`, `get_all_warehouses` and `get_warehouse` (app.py:19-28, 55-64), including how they treat an empty record as absent. They are plain catalog reads, outside the ledger core.
- Aliasing of the mutable entry dictionaries. Entries are values. The store's copy is the one the views read, which is the observable behaviour after serialization.
- `app.run` and concurrency. The store is single-threaded.
