/** The two inventory editors. Both rewrite the list of inventory entries
    by index; the catalogue-backed one caps attunement at three items and
    weighs entries by their catalogue item, the free-text one has no cap and
    weighs entries by their own weight. */
module Inventory {
  import opened Wrappers
  import Seqs
  import Text
  import Catalog

  /** One inventory entry. `name` and `weight` are set only on free-text entries. */
  datatype InventoryItem = InventoryItem(
    itemId: string, quantity: int, equipped: bool, attuned: bool,
    name: Option<string>, weight: Option<int>)

  /** The attunement cap of the catalogue-backed editor. */
  const MaxAttunement: int := 3

  /** Message shown when the cap refuses an attunement. */
  const AttunementLimitMessage: string :=
    "You can only attune to 3 items at a time. Un-attune another item first."

  predicate IsAttuned(item: InventoryItem) {
    item.attuned
  }

  /** `items.filter(item => item.attuned).length`. */
  function AttunedCount(items: seq<InventoryItem>): nat {
    Seqs.Count(items, IsAttuned)
  }

  /** `items.map((item, i) => i === index ? f(item) : item)`; an index outside
      the list changes nothing. */
  function UpdateAt(items: seq<InventoryItem>, index: int, f: InventoryItem -> InventoryItem): (r: seq<InventoryItem>)
    ensures |r| == |items|
    ensures forall j :: 0 <= j < |items| && j != index ==> r[j] == items[j]
    ensures 0 <= index < |items| ==> r == items[index := f(items[index])]
  {
    if 0 <= index < |items| then items[index := f(items[index])] else items
  }

  /** `handleAddItem` of the catalogue-backed editor: appends a fresh entry. */
  function AddCatalogItem(items: seq<InventoryItem>, item: Catalog.Item, quantity: int): (r: seq<InventoryItem>)
    ensures |r| == |items| + 1 && r[..|items|] == items
    ensures r[|items|] == InventoryItem(item.id, quantity, false, false, None, None)
  {
    items + [InventoryItem(item.id, quantity, false, false, None, None)]
  }

  /** `handleRemoveItem`: drops the entry at `index` and keeps the order of the
      rest; an index outside the list changes nothing. */
  function RemoveAt(items: seq<InventoryItem>, index: int): (r: seq<InventoryItem>)
    ensures 0 <= index < |items| ==> |r| == |items| - 1
    ensures 0 <= index < |items| ==>
      (forall j :: 0 <= j < index ==> r[j] == items[j])
      && (forall j :: index <= j < |r| ==> r[j] == items[j + 1])
    ensures !(0 <= index < |items|) ==> r == items
  {
    if 0 <= index < |items| then items[..index] + items[index + 1..] else items
  }

  /** `handleToggleEquipped`. */
  function ToggleEquipped(items: seq<InventoryItem>, index: int): (r: seq<InventoryItem>)
    ensures |r| == |items|
    ensures forall j :: 0 <= j < |items| && j != index ==> r[j] == items[j]
    ensures 0 <= index < |items| ==>
      r[index] == items[index].(equipped := !items[index].equipped)
  {
    UpdateAt(items, index, (item: InventoryItem) => item.(equipped := !item.equipped))
  }

  /** `handleQuantityChange`: a quantity below 1 is ignored. */
  function SetQuantity(items: seq<InventoryItem>, index: int, quantity: int): (r: seq<InventoryItem>)
    ensures quantity < 1 ==> r == items
    ensures |r| == |items|
    ensures forall j :: 0 <= j < |items| && j != index ==> r[j] == items[j]
    ensures quantity >= 1 && 0 <= index < |items| ==> r[index] == items[index].(quantity := quantity)
  {
    if quantity < 1 then items else UpdateAt(items, index, (item: InventoryItem) => item.(quantity := quantity))
  }

  function FlipAttuned(item: InventoryItem): InventoryItem {
    item.(attuned := !item.attuned)
  }

  /** `handleToggleAttuned` of the free-text editor: no cap. */
  function ToggleAttunedUncapped(items: seq<InventoryItem>, index: int): (r: seq<InventoryItem>)
    ensures |r| == |items|
    ensures forall j :: 0 <= j < |items| && j != index ==> r[j] == items[j]
    ensures 0 <= index < |items| ==> r[index] == FlipAttuned(items[index])
  {
    UpdateAt(items, index, FlipAttuned)
  }

  /** What the capped toggle did. */
  datatype AttuneOutcome = Refused | Toggled(items: seq<InventoryItem>)

  /** `handleToggleAttuned` of the catalogue-backed editor. The handler reads
      `items[index].attuned` first, so the index must be in range. */
  function ToggleAttunedCapped(items: seq<InventoryItem>, index: int): (out: AttuneOutcome)
    requires 0 <= index < |items|
    ensures out.Refused? <==> !items[index].attuned && AttunedCount(items) >= MaxAttunement
    ensures out.Toggled? ==> out.items == items[index := FlipAttuned(items[index])]
  {
    if !items[index].attuned && AttunedCount(items) >= MaxAttunement then Refused
    else Toggled(ToggleAttunedUncapped(items, index))
  }

  /** The list after the capped toggle: unchanged when refused. */
  function AfterToggleAttuned(items: seq<InventoryItem>, index: int): seq<InventoryItem>
    requires 0 <= index < |items|
  {
    match ToggleAttunedCapped(items, index)
    case Refused => items
    case Toggled(r) => r
  }

  /** A toggle moves the attuned count by exactly one, in the direction of the
      flipped entry, unless refused; un-attuning is never refused. */
  lemma ToggleAttunedCount(items: seq<InventoryItem>, index: int)
    requires 0 <= index < |items|
    ensures var after := AttunedCount(AfterToggleAttuned(items, index));
      && (items[index].attuned ==> after == AttunedCount(items) - 1)
      && (!items[index].attuned && AttunedCount(items) < MaxAttunement ==> after == AttunedCount(items) + 1)
      && (!items[index].attuned && AttunedCount(items) >= MaxAttunement ==> after == AttunedCount(items))
  {
    Seqs.CountUpdate(items, index, FlipAttuned(items[index]), IsAttuned);
  }

  /** The cap is an invariant: at most three attuned entries stay at most three. */
  lemma AttunementCapKept(items: seq<InventoryItem>, index: int)
    requires 0 <= index < |items|
    requires AttunedCount(items) <= MaxAttunement
    ensures AttunedCount(AfterToggleAttuned(items, index)) <= MaxAttunement
  {
    ToggleAttunedCount(items, index);
  }

  /** Weight of one entry in the catalogue-backed editor: its catalogue item's
      weight (0 when not loaded or missing) times its quantity. */
  function CatalogEntryWeight(catalog: seq<Catalog.Item>, entry: InventoryItem): int {
    var full := Catalog.FindItem(catalog, entry.itemId);
    (if full.Some? then Catalog.OrZero(full.value.weight) else 0) * entry.quantity
  }

  /** Total weight of the catalogue-backed editor. */
  function CatalogTotalWeight(catalog: seq<Catalog.Item>, items: seq<InventoryItem>): int
    decreases |items|
  {
    if |items| == 0 then 0
    else CatalogTotalWeight(catalog, items[..|items| - 1]) + CatalogEntryWeight(catalog, items[|items| - 1])
  }

  /** Adding an entry adds its weight; entries whose item is not loaded weigh 0. */
  lemma CatalogWeightOfAdd(catalog: seq<Catalog.Item>, items: seq<InventoryItem>, item: Catalog.Item, quantity: int)
    ensures var r := AddCatalogItem(items, item, quantity);
      CatalogTotalWeight(catalog, r) == CatalogTotalWeight(catalog, items) + CatalogEntryWeight(catalog, r[|items|])
    ensures Catalog.FindItem(catalog, item.id).None? ==>
      CatalogTotalWeight(catalog, AddCatalogItem(items, item, quantity)) == CatalogTotalWeight(catalog, items)
  {
    var r := AddCatalogItem(items, item, quantity);
    assert r[..|r| - 1] == items;
  }

  /** Weight of one free-text entry: `(weight || 0) * quantity`. */
  function EntryWeight(entry: InventoryItem): int {
    Catalog.OrZero(entry.weight) * entry.quantity
  }

  /** Total weight of a list weighed by the entries' own weights. */
  function TotalWeight(items: seq<InventoryItem>): int
    decreases |items|
  {
    if |items| == 0 then 0 else TotalWeight(items[..|items| - 1]) + EntryWeight(items[|items| - 1])
  }

  lemma {:induction false} TotalWeightAppend(a: seq<InventoryItem>, b: seq<InventoryItem>)
    ensures TotalWeight(a + b) == TotalWeight(a) + TotalWeight(b)
    decreases |b|
  {
    if |b| == 0 {
      assert a + b == a;
    } else {
      var front := b[..|b| - 1];
      assert (a + b)[..|a + b| - 1] == a + front;
      TotalWeightAppend(a, front);
    }
  }

  /** Removing an entry takes exactly its weight off the total. */
  lemma TotalWeightOfRemove(items: seq<InventoryItem>, index: int)
    requires 0 <= index < |items|
    ensures TotalWeight(RemoveAt(items, index)) == TotalWeight(items) - EntryWeight(items[index])
  {
    RemoveAtIsSplice(items, index);
    WeightWithout(items[..index], items[index], items[index + 1..]);
  }

  /** The list around a removed entry: what comes before it and what after. */
  lemma RemoveAtIsSplice(items: seq<InventoryItem>, index: int)
    requires 0 <= index < |items|
    ensures items == items[..index] + [items[index]] + items[index + 1..]
    ensures RemoveAt(items, index) == items[..index] + items[index + 1..]
  {
    assert items == items[..index] + [items[index]] + items[index + 1..];
  }

  /** One entry between two lists adds just its own weight. */
  lemma WeightWithout(front: seq<InventoryItem>, x: InventoryItem, back: seq<InventoryItem>)
    ensures TotalWeight(front + [x] + back) == TotalWeight(front + back) + EntryWeight(x)
  {
    assert TotalWeight([x]) == EntryWeight(x) by {
      assert [x][..0] == [];
    }
    TotalWeightAppend(front + [x], back);
    TotalWeightAppend(front, [x]);
    TotalWeightAppend(front, back);
  }

  /** Equipping, unequipping and attuning never change the weight. */
  lemma TogglesKeepWeight(items: seq<InventoryItem>, index: int)
    ensures TotalWeight(ToggleEquipped(items, index)) == TotalWeight(items)
    ensures TotalWeight(ToggleAttunedUncapped(items, index)) == TotalWeight(items)
  {
    SameWeights(items, ToggleEquipped(items, index));
    SameWeights(items, ToggleAttunedUncapped(items, index));
  }

  lemma {:induction false} SameWeights(a: seq<InventoryItem>, b: seq<InventoryItem>)
    requires |a| == |b|
    requires forall j :: 0 <= j < |a| ==> EntryWeight(a[j]) == EntryWeight(b[j])
    ensures TotalWeight(a) == TotalWeight(b)
    decreases |a|
  {
    if |a| > 0 {
      SameWeights(a[..|a| - 1], b[..|b| - 1]);
    }
  }

  /** `handleAddItem` of the free-text editor: a name that is blank after
      trimming adds nothing; otherwise an entry with a `temp_` id stamped
      with the current time is appended. */
  function AddCustomItem(items: seq<InventoryItem>, name: string, weight: int, quantity: int, now: nat): (r: seq<InventoryItem>)
    ensures Text.IsBlank(name) ==> r == items
    ensures !Text.IsBlank(name) ==>
      r == items + [InventoryItem("temp_" + Text.NatToString(now), quantity, false, false, Some(name), Some(weight))]
  {
    if Text.IsBlank(name) then items
    else items + [InventoryItem("temp_" + Text.NatToString(now), quantity, false, false, Some(name), Some(weight))]
  }

  /** A custom entry adds its own weight times its quantity. */
  lemma CustomItemWeight(items: seq<InventoryItem>, name: string, weight: int, quantity: int, now: nat)
    requires !Text.IsBlank(name)
    ensures TotalWeight(AddCustomItem(items, name, weight, quantity, now)) == TotalWeight(items) + weight * quantity
  {
    var r := AddCustomItem(items, name, weight, quantity, now);
    assert r[..|r| - 1] == items;
  }
}
