/**
 * The inventory ledger: for each product, an ordered list of per-warehouse quantity entries,
 * and the additive upsert that maintains it.
 */
module Ledger {
  import opened Outcomes
  import opened Catalog

  /**
   * How much of one product one warehouse holds. `warehouseName` is a copy of the
   * warehouse's name taken when the entry was created; later renames do not reach it.
   */
  datatype Entry = Entry(warehouseId: WarehouseId, warehouseName: string, quantity: int)

  /** The outcome of an upsert on one product's entries: the new list, the index of the
      entry it created or changed, and whether it created one. */
  datatype Upserted = Upserted(entries: seq<Entry>, at: nat, created: bool)

  /** A product's entries, or none when the ledger has no list for it. */
  function EntriesOf(inventory: map<Sku, seq<Entry>>, sku: Sku): (r: seq<Entry>)
    ensures sku in inventory ==> r == inventory[sku]
    ensures sku !in inventory ==> r == []
  {
    if sku in inventory then inventory[sku] else []
  }

  /**
   * The sum of the quantities of `entries`. When no quantity is negative, the total is not
   * negative either and no single entry exceeds it.
   */
  function Total(entries: seq<Entry>): (r: int)
    ensures (forall k :: 0 <= k < |entries| ==> entries[k].quantity >= 0) ==>
      r >= 0 && forall k :: 0 <= k < |entries| ==> entries[k].quantity <= r
  {
    if entries == [] then 0 else Total(entries[..|entries| - 1]) + entries[|entries| - 1].quantity
  }

  /** At most one entry per warehouse. */
  ghost predicate UniqueWarehouses(entries: seq<Entry>) {
    forall i, j :: 0 <= i < j < |entries| ==> entries[i].warehouseId != entries[j].warehouseId
  }

  /** The index of the first entry for `warehouseId`, if there is one. */
  function Find(entries: seq<Entry>, warehouseId: WarehouseId): (r: Option<nat>)
    ensures r.None? <==> forall k :: 0 <= k < |entries| ==> entries[k].warehouseId != warehouseId
    ensures r.Some? ==> r.value < |entries| && entries[r.value].warehouseId == warehouseId
    ensures r.Some? ==> forall k :: 0 <= k < r.value ==> entries[k].warehouseId != warehouseId
  {
    if entries == [] then None
    else if entries[0].warehouseId == warehouseId then Some(0)
    else match Find(entries[1..], warehouseId)
      case None => None
      case Some(i) => Some(i + 1)
  }

  /**
   * Adds `delta` to the first entry for `warehouseId`, or, when there is none, appends a new
   * entry for it holding `delta` and the given warehouse name.
   */
  function Upsert(entries: seq<Entry>, warehouseId: WarehouseId, warehouseName: string, delta: int): (r: Upserted)
    ensures r.at < |r.entries| && r.entries[r.at].warehouseId == warehouseId
    ensures r.created <==> forall k :: 0 <= k < |entries| ==> entries[k].warehouseId != warehouseId
    ensures r.created ==> r.at == |entries| && r.entries == entries + [Entry(warehouseId, warehouseName, delta)]
    ensures !r.created ==> |r.entries| == |entries| && entries[r.at].warehouseId == warehouseId
    ensures !r.created ==> forall k :: 0 <= k < r.at ==> entries[k].warehouseId != warehouseId
    ensures !r.created ==> r.entries[r.at] == entries[r.at].(quantity := entries[r.at].quantity + delta)
    ensures !r.created ==> forall k :: 0 <= k < |entries| && k != r.at ==> r.entries[k] == entries[k]
  {
    match Find(entries, warehouseId)
    case Some(i) => Upserted(entries[i := entries[i].(quantity := entries[i].quantity + delta)], i, false)
    case None => Upserted(entries + [Entry(warehouseId, warehouseName, delta)], |entries|, true)
  }

  lemma {:induction false} TotalConcat(a: seq<Entry>, b: seq<Entry>)
    ensures Total(a + b) == Total(a) + Total(b)
    decreases |b|
  {
    if b == [] {
      assert a + b == a;
    } else {
      var n := |b| - 1;
      assert (a + b)[..|a + b| - 1] == a + b[..n];
      TotalConcat(a, b[..n]);
    }
  }

  /** Replacing one entry changes the total by the difference of the two quantities. */
  lemma TotalReplace(entries: seq<Entry>, i: nat, e: Entry)
    requires i < |entries|
    ensures Total(entries[i := e]) == Total(entries) - entries[i].quantity + e.quantity
  {
    var pre, post := entries[..i], entries[i + 1..];
    assert entries == pre + [entries[i]] + post;
    assert entries[i := e] == pre + [e] + post;
    TotalConcat(pre + [entries[i]], post);
    TotalConcat(pre + [e], post);
    TotalConcat(pre, [entries[i]]);
    TotalConcat(pre, [e]);
    assert Total([e]) == e.quantity by { assert [e][..0] == []; }
    assert Total([entries[i]]) == entries[i].quantity by { assert [entries[i]][..0] == []; }
  }

  /** An upsert changes the product's total by exactly `delta`, whichever path it takes. */
  lemma UpsertTotal(entries: seq<Entry>, warehouseId: WarehouseId, warehouseName: string, delta: int)
    ensures Total(Upsert(entries, warehouseId, warehouseName, delta).entries) == Total(entries) + delta
  {
    var r := Upsert(entries, warehouseId, warehouseName, delta);
    if r.created {
      TotalConcat(entries, [Entry(warehouseId, warehouseName, delta)]);
      assert [Entry(warehouseId, warehouseName, delta)][..0] == [];
    } else {
      assert r.entries == entries[r.at := r.entries[r.at]];
      TotalReplace(entries, r.at, r.entries[r.at]);
    }
  }

  /** An upsert never produces a second entry for a warehouse. */
  lemma UpsertKeepsUnique(entries: seq<Entry>, warehouseId: WarehouseId, warehouseName: string, delta: int)
    requires UniqueWarehouses(entries)
    ensures var r := Upsert(entries, warehouseId, warehouseName, delta);
      UniqueWarehouses(r.entries) &&
      forall k :: 0 <= k < |r.entries| ==> (r.entries[k].warehouseId == warehouseId <==> k == r.at)
  {
  }

  /**
   * Two upserts of the same warehouse with deltas d1 and d2 leave the same list as one upsert
   * of d1 + d2: the second one finds the entry the first created or changed, and adds to it.
   */
  lemma UpsertTwice(entries: seq<Entry>, warehouseId: WarehouseId, name1: string, name2: string, d1: int, d2: int)
    ensures var r1 := Upsert(entries, warehouseId, name1, d1);
      var r2 := Upsert(r1.entries, warehouseId, name2, d2);
      && !r2.created && r2.at == r1.at
      && r2.entries == Upsert(entries, warehouseId, name1, d1 + d2).entries
  {
  }
}
