/** Collectible item counts (Autoload/InventoryManager.cs): a dictionary from item id to count. */
module InventoryManager {
  import opened Wrappers

  type Items = map<string, int>

  /** GetQuantity: the count, or 0 for an absent id. */
  function Quantity(items: Items, id: string): (n: int)
    ensures id !in items ==> n == 0
    ensures id in items ==> n == items[id]
  {
    if id in items then items[id] else 0
  }

  /** HasItem: present with at least `amount`. */
  predicate Has(items: Items, id: string, amount: int)
  {
    id in items && items[id] >= amount
  }

  /** AddItem: the id's count, absent counting as 0, grows by `amount`; other ids stay. */
  function Added(items: Items, id: string, amount: int): (r: Items)
    ensures r.Keys == items.Keys + {id}
    ensures r[id] == Quantity(items, id) + amount
    ensures forall k :: k in items && k != id ==> r[k] == items[k]
  {
    items[id := Quantity(items, id) + amount]
  }

  /**
   * RemoveItem: refused (None) unless HasItem; otherwise the count drops by
   * `amount`, and the id goes once its count is at or below zero.
   */
  function Removed(items: Items, id: string, amount: int): (r: Option<Items>)
    ensures r.None? <==> !Has(items, id, amount)
    ensures r.Some? && items[id] - amount <= 0 ==> r.value == items - {id}
    ensures r.Some? && items[id] - amount > 0 ==> r.value == items[id := items[id] - amount]
  {
    if !Has(items, id, amount) then None
    else if items[id] - amount <= 0 then Some(items - {id})
    else Some(items[id := items[id] - amount])
  }

  /** Every stored count is positive. */
  predicate AllPositive(items: Items)
  {
    forall k :: k in items ==> items[k] > 0
  }

  /**
   * Adding a positive amount and removing it again restores the inventory, provided
   * the id was absent or held a positive count.
   */
  lemma AddThenRemoveRestores(items: Items, id: string, amount: int)
    requires amount > 0
    requires id in items ==> items[id] > 0
    ensures Removed(Added(items, id, amount), id, amount) == Some(items)
  {
    var added := Added(items, id, amount);
    if id in items {
      assert added[id := added[id] - amount] == items;
    } else {
      assert added - {id} == items;
    }
  }

  /** The guard matters: a stored count of zero is dropped by the round trip. */
  lemma AddThenRemoveDropsAZeroCount(id: string, amount: int)
    requires amount > 0
    ensures Removed(Added(map[id := 0], id, amount), id, amount) == Some(map[])
  {
    assert map[id := 0][id := amount] - {id} == map[];
  }

  /** Positive additions and any removal keep every stored count positive. */
  lemma PositiveCountsKept(items: Items, id: string, amount: int)
    requires AllPositive(items)
    ensures amount > 0 ==> AllPositive(Added(items, id, amount))
    ensures Removed(items, id, amount).Some? ==> AllPositive(Removed(items, id, amount).value)
  {
  }

  class InventoryManager {
    var items: Items

    constructor ()
      ensures items == map[]
    {
      items := map[];
    }

    method AddItem(id: string, amount: int := 1)
      modifies this
      ensures items == Added(old(items), id, amount)
    {
      var current := if id in items then items[id] else 0;
      items := items[id := current + amount];
    }

    method RemoveItem(id: string, amount: int := 1) returns (ok: bool)
      modifies this
      ensures ok <==> Removed(old(items), id, amount).Some?
      ensures ok ==> items == Removed(old(items), id, amount).value
      ensures !ok ==> items == old(items)
    {
      if !HasItem(id, amount) {
        return false;
      }
      items := items[id := items[id] - amount];
      if items[id] <= 0 {
        items := items - {id};
      }
      return true;
    }

    predicate HasItem(id: string, amount: int := 1)
      reads this
    {
      Has(items, id, amount)
    }

    function GetQuantity(id: string): (n: int)
      reads this
      ensures n == Quantity(items, id)
    {
      if id in items then items[id] else 0
    }

    /** GetAllItems: a copy, which later changes to the inventory do not touch. */
    function GetAllItems(): (r: Items)
      reads this
      ensures forall k :: k in r <==> k in items
      ensures forall k :: k in r ==> r[k] == items[k]
    {
      items
    }

    /** Load: a copy of the given dictionary, or an empty one for null. */
    method Load(loaded: Option<Items>)
      modifies this
      ensures loaded.Some? ==> items == loaded.value
      ensures loaded.None? ==> items == map[]
    {
      items := if loaded.Some? then loaded.value else map[];
    }
  }

  /** A copy taken before a removal still shows the old count. */
  method SnapshotIsIndependent() returns (snapshot: Items, now: int, removed: bool)
    ensures snapshot == map["resonance" := 3] && now == 1 && removed
  {
    var inventory := new InventoryManager();
    inventory.AddItem("resonance", 3);
    snapshot := inventory.GetAllItems();
    removed := inventory.RemoveItem("resonance", 2);
    now := inventory.GetQuantity("resonance");
  }

  /** Without an amount, AddItem, RemoveItem and HasItem count one item. */
  method DefaultAmountIsOne() returns (held: bool, removed: bool, left: int)
    ensures held && removed && left == 1
  {
    var inventory := new InventoryManager();
    inventory.AddItem("shard");
    inventory.AddItem("shard");
    held := inventory.HasItem("shard");
    removed := inventory.RemoveItem("shard");
    left := inventory.GetQuantity("shard");
  }
}
