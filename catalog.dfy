/** The product and warehouse catalogs: keyed records with open attribute sets. */
module Catalog {
  import opened Outcomes

  type Sku = string
  type WarehouseId = string

  /** A record's open attribute set, as a request body or a partial update carries it. */
  type Attributes = map<string, string>

  datatype Product = Product(sku: Sku, attributes: Attributes) {
    /** A partial update: every attribute of `patch` overwrites or adds, the others stay. */
    function Merge(patch: Attributes): (p: Product)
      ensures p.sku == sku
      ensures p.attributes.Keys == attributes.Keys + patch.Keys
      ensures forall a :: a in patch ==> p.attributes[a] == patch[a]
      ensures forall a :: a in attributes && a !in patch ==> p.attributes[a] == attributes[a]
    {
      Product(sku, attributes + patch)
    }
  }

  /** The attributes a warehouse record holds besides its id and its name. */
  type WarehouseAttributes = a: Attributes | "name" !in a && "id" !in a witness map[]

  /** The part of a request's attributes that is stored beside the warehouse's id and name. */
  function Extra(data: Attributes): (a: WarehouseAttributes)
    ensures a.Keys == data.Keys - {"name", "id"}
    ensures forall k :: k in a ==> a[k] == data[k]
  {
    data - {"name", "id"}
  }

  datatype Warehouse = Warehouse(id: WarehouseId, name: string, attributes: WarehouseAttributes) {
    /**
     * A partial update: a `name` in `patch` renames the warehouse, its other attributes
     * overwrite or add, and every attribute not in `patch` stays.
     */
    function Merge(patch: Attributes): (w: Warehouse)
      ensures w.id == id
      ensures "name" in patch ==> w.name == patch["name"]
      ensures "name" !in patch ==> w.name == name
      ensures w.attributes.Keys == (attributes.Keys + patch.Keys) - {"name", "id"}
      ensures forall a :: a in patch && a != "name" && a != "id" ==> w.attributes[a] == patch[a]
      ensures forall a :: a in attributes && a !in patch ==> w.attributes[a] == attributes[a]
    {
      Warehouse(id, if "name" in patch then patch["name"] else name, Extra(attributes + patch))
    }
  }

  const WarehousePrefix: string := "WH"

  predicate HasPrefix(s: string, prefix: string) {
    |prefix| <= |s| && s[..|prefix|] == prefix
  }

  /** A length that no key of `keys` exceeds; a longer string is therefore not a key. */
  ghost function LongestKey(keys: set<string>): (n: nat)
    ensures forall k :: k in keys ==> |k| <= n
    decreases keys
  {
    if keys == {} then 0
    else
      var k :| k in keys;
      var rest := LongestKey(keys - {k});
      if |k| <= rest then rest else |k|
  }

  /**
   * A fresh identifier with the given prefix: it is not one of `taken`. Which one is
   * chosen is left open, as the numbering scheme is not part of this model.
   */
  method GenerateId(prefix: string, taken: set<string>) returns (id: string)
    ensures id !in taken
    ensures HasPrefix(id, prefix)
  {
    ghost var n := LongestKey(taken);
    ghost var longer := prefix + seq(n + 1, _ => '0');
    assert longer[..|prefix|] == prefix;
    assert longer !in taken;
    id :| id !in taken && HasPrefix(id, prefix);
  }
}
