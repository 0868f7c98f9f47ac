/** Result shapes shared by the catalog, the ledger and the views. */
module Outcomes {

  datatype Option<+T> = None | Some(value: T)

  /** Which lookup failed: the product catalog, the warehouse catalog, or the ledger. */
  datatype Kind = ProductKind | WarehouseKind | InventoryKind

  /**
   * What an operation answers. `Ok` and `Created` carry the affected record (200 and 201),
   * `NoContent` is a successful delete (204), `NotFound` names the missing thing (404) and
   * `Conflict` is a product SKU that is already taken (answered with 400).
   */
  datatype Response<+T> = Ok(value: T) | Created(value: T) | NoContent | NotFound(kind: Kind) | Conflict
}
