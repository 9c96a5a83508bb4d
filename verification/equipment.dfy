/** The equipment panel: which equipped entries sit in each body slot, and
    the armour-class bonus the equipped items add up to. */
module Equipment {
  import opened Wrappers
  import Seqs
  import Catalog
  import Inventory

  /** The slot ids the panel lists, in order. */
  const SlotIds: seq<string> := ["head", "neck", "body", "back", "hands", "ring", "feet", "weapon", "shield"]

  /** How many items the panel's counter says a slot holds: two rings, one of
      anything else. The panel only prints it. */
  function DisplayedCapacity(slotId: string): nat {
    if slotId == "ring" then 2 else 1
  }

  predicate IsEquipped(entry: Inventory.InventoryItem) {
    entry.equipped
  }

  /** `(inventory || []).filter(item => item.equipped)`. */
  function EquippedItems(inventory: Option<seq<Inventory.InventoryItem>>): (r: seq<Inventory.InventoryItem>)
    ensures forall e :: e in r ==> e.equipped
    ensures forall e :: e in inventory.GetOr([]) && e.equipped ==> e in r
    ensures Seqs.IsSubsequence(r, inventory.GetOr([]))
    ensures |r| == Seqs.Count(inventory.GetOr([]), IsEquipped)
  {
    Seqs.FilterIsSubsequence(inventory.GetOr([]), IsEquipped);
    Seqs.Filter(inventory.GetOr([]), IsEquipped)
  }

  /** An entry sits in `slotId` when its catalogue item is loaded and that
      item's slot is `slotId`. */
  predicate InSlot(catalog: seq<Catalog.Item>, entry: Inventory.InventoryItem, slotId: string) {
    var full := Catalog.FindItem(catalog, entry.itemId);
    full.Some? && Catalog.GetItemSlot(full.value) == Some(slotId)
  }

  function InSlotOf(catalog: seq<Catalog.Item>, slotId: string): Inventory.InventoryItem -> bool {
    e => InSlot(catalog, e, slotId)
  }

  /** The catalogue item of an entry in `slotId`, if it is in that slot. */
  function SlotPick(catalog: seq<Catalog.Item>, slotId: string): Inventory.InventoryItem -> Option<Catalog.Item> {
    (e: Inventory.InventoryItem) => var full := Catalog.FindItem(catalog, e.itemId);
         if full.Some? && Catalog.GetItemSlot(full.value) == Some(slotId) then full else None
  }

  function Accepted<T, U>(pick: T -> Option<U>): T -> bool {
    x => pick(x).Some?
  }

  /** The entries `pick` accepts, each paired with what it returned, in order. */
  function Picked<T, U>(s: seq<T>, pick: T -> Option<U>): (r: seq<(T, U)>)
    ensures forall k :: 0 <= k < |r| ==> r[k].0 in s && pick(r[k].0) == Some(r[k].1)
    decreases |s|
  {
    if |s| == 0 then []
    else
      var rest := Picked(s[1..], pick);
      assert forall x :: x in s[1..] ==> x in s;
      match pick(s[0])
      case None => rest
      case Some(y) =>
        var r := [(s[0], y)] + rest;
        assert forall k :: 1 <= k < |r| ==> r[k] == rest[k - 1];
        r
  }

  /** The entries of a list of pairs. */
  function Firsts<T, U>(r: seq<(T, U)>): (f: seq<T>)
    ensures |f| == |r|
    ensures forall k :: 0 <= k < |r| ==> f[k] == r[k].0
  {
    seq(|r|, k requires 0 <= k < |r| => r[k].0)
  }

  /** The entries of the pairs are exactly the accepted entries, in order. */
  lemma {:induction false} PickedFirsts<T, U>(s: seq<T>, pick: T -> Option<U>)
    ensures Firsts(Picked(s, pick)) == Seqs.Filter(s, Accepted(pick))
    decreases |s|
  {
    if |s| > 0 {
      PickedFirsts(s[1..], pick);
      assert Accepted(pick)(s[0]) == pick(s[0]).Some?;
      var rest := Picked(s[1..], pick);
      if pick(s[0]).Some? {
        var r := Picked(s, pick);
        assert r == [(s[0], pick(s[0]).value)] + rest;
        assert Firsts(r) == [s[0]] + Firsts(rest);
      }
    }
  }

  /** One pair for every accepted entry. */
  lemma {:induction false} PickedCount<T, U>(s: seq<T>, pick: T -> Option<U>)
    ensures |Picked(s, pick)| == Seqs.Count(s, Accepted(pick))
    decreases |s|
  {
    if |s| > 0 {
      PickedCount(s[1..], pick);
      assert Accepted(pick)(s[0]) == pick(s[0]).Some?;
    }
  }

  /** `getItemsInSlot`: the entries in `slotId`, each with its catalogue item,
      in inventory order and without any limit. */
  function GetItemsInSlot(catalog: seq<Catalog.Item>, equipped: seq<Inventory.InventoryItem>, slotId: string)
    : (r: seq<(Inventory.InventoryItem, Catalog.Item)>)
    ensures forall k :: 0 <= k < |r| ==>
      r[k].0 in equipped && InSlot(catalog, r[k].0, slotId)
      && Catalog.FindItem(catalog, r[k].0.itemId) == Some(r[k].1)
    ensures Firsts(r) == Seqs.Filter(equipped, InSlotOf(catalog, slotId))
  {
    var pick := SlotPick(catalog, slotId);
    PickedFirsts(equipped, pick);
    assert forall i :: 0 <= i < |equipped| ==> Accepted(pick)(equipped[i]) == InSlotOf(catalog, slotId)(equipped[i]);
    Seqs.FilterAgreeing(equipped, Accepted(pick), InSlotOf(catalog, slotId));
    Picked(equipped, pick)
  }

  /** Every equipped entry in the slot is listed, and nothing else. */
  lemma SlotListingCount(catalog: seq<Catalog.Item>, equipped: seq<Inventory.InventoryItem>, slotId: string)
    ensures |GetItemsInSlot(catalog, equipped, slotId)| == Seqs.Count(equipped, InSlotOf(catalog, slotId))
  {
    var pick := SlotPick(catalog, slotId);
    PickedCount(equipped, pick);
    assert forall i :: 0 <= i < |equipped| ==> Accepted(pick)(equipped[i]) == InSlotOf(catalog, slotId)(equipped[i]);
    Seqs.FilterAgreeing(equipped, Accepted(pick), InSlotOf(catalog, slotId));
  }

  /** No entry is listed under two slots. */
  lemma SlotsAreDisjoint(catalog: seq<Catalog.Item>, entry: Inventory.InventoryItem, s1: string, s2: string)
    requires InSlot(catalog, entry, s1) && InSlot(catalog, entry, s2)
    ensures s1 == s2
  {
  }

  /** The ring counter is not a limit: three equipped rings are all listed. */
  lemma RingLimitNotEnforced()
    ensures var ring := Catalog.Item("r", "Ring", None, None, Catalog.Object(Catalog.Given(Some("ring")), Catalog.Missing));
      var entry := Inventory.InventoryItem("r", 1, true, false, None, None);
      |GetItemsInSlot([ring], [entry, entry, entry], "ring")| == 3 > DisplayedCapacity("ring")
  {
    var ring := Catalog.Item("r", "Ring", None, None, Catalog.Object(Catalog.Given(Some("ring")), Catalog.Missing));
    var entry := Inventory.InventoryItem("r", 1, true, false, None, None);
    assert InSlot([ring], entry, "ring");
    var pick := SlotPick([ring], "ring");
    assert pick(entry) == Some(ring);
    var s3 := [entry, entry, entry];
    assert s3[1..] == [entry, entry] && [entry, entry][1..] == [entry];
    assert |Picked([entry], pick)| == 1;
    assert |Picked([entry, entry], pick)| == 2;
    assert |Picked(s3, pick)| == 3;
  }

  /** What one equipped entry adds to the AC: a truthy `bonus.ac` first;
      otherwise a truthy armour class, but only on the body or shield slot;
      an entry whose item is not loaded adds nothing. */
  function ACContribution(catalog: seq<Catalog.Item>, entry: Inventory.InventoryItem): int {
    var full := Catalog.FindItem(catalog, entry.itemId);
    if full.None? then 0
    else
      var item := full.value;
      var bonus := Catalog.GetItemBonus(item);
      var slot := Catalog.GetItemSlot(item);
      if bonus.Some? && bonus.value.ac.Some? && bonus.value.ac.value != 0 then bonus.value.ac.value
      else if slot == Some("body") && item.armorClass.Some? && item.armorClass.value != 0 then item.armorClass.value
      else if slot == Some("shield") && item.armorClass.Some? && item.armorClass.value != 0 then item.armorClass.value
      else 0
  }

  /** `calculateTotalACBonus` over the equipped entries. */
  function TotalACBonus(catalog: seq<Catalog.Item>, equipped: seq<Inventory.InventoryItem>): int
    decreases |equipped|
  {
    if |equipped| == 0 then 0
    else ACContribution(catalog, equipped[0]) + TotalACBonus(catalog, equipped[1..])
  }

  /** The rules for one entry, stated against its catalogue item. */
  lemma ACContributionRules(catalog: seq<Catalog.Item>, entry: Inventory.InventoryItem)
    ensures var full := Catalog.FindItem(catalog, entry.itemId);
      var c := ACContribution(catalog, entry);
      && (full.None? ==> c == 0)
      && (full.Some? && Catalog.GetItemBonus(full.value).Some?
          && Catalog.OrZero(Catalog.GetItemBonus(full.value).value.ac) != 0
          ==> c == Catalog.GetItemBonus(full.value).value.ac.value)
      && (full.Some? && (Catalog.GetItemBonus(full.value).None? || Catalog.OrZero(Catalog.GetItemBonus(full.value).value.ac) == 0)
          ==> c == if Catalog.GetItemSlot(full.value) in {Some("body"), Some("shield")}
                  then Catalog.OrZero(full.value.armorClass) else 0)
  {
  }

  /** The AC total of a concatenation is the sum of the two totals. */
  lemma {:induction false} TotalACAppend(catalog: seq<Catalog.Item>, a: seq<Inventory.InventoryItem>, b: seq<Inventory.InventoryItem>)
    ensures TotalACBonus(catalog, a + b) == TotalACBonus(catalog, a) + TotalACBonus(catalog, b)
    decreases |a|
  {
    if |a| == 0 {
      assert a + b == b;
    } else {
      assert (a + b)[1..] == a[1..] + b;
      TotalACAppend(catalog, a[1..], b);
    }
  }

  /** Equipping one more entry adds exactly its contribution. */
  lemma EquippingAddsContribution(catalog: seq<Catalog.Item>, inventory: seq<Inventory.InventoryItem>, entry: Inventory.InventoryItem)
    requires entry.equipped
    ensures TotalACBonus(catalog, EquippedItems(Some(inventory + [entry])))
            == TotalACBonus(catalog, EquippedItems(Some(inventory))) + ACContribution(catalog, entry)
  {
    Seqs.FilterAppend(inventory, [entry], IsEquipped);
    TotalACAppend(catalog, Seqs.Filter(inventory, IsEquipped), Seqs.Filter([entry], IsEquipped));
    assert Seqs.Filter([entry], IsEquipped) == [entry] by {
      assert [entry][1..] == [];
    }
    assert TotalACBonus(catalog, [entry]) == ACContribution(catalog, entry) by {
      assert [entry][1..] == [];
    }
  }

  /** An unequipped entry never counts toward the AC. */
  lemma UnequippedAddsNothing(catalog: seq<Catalog.Item>, inventory: seq<Inventory.InventoryItem>, entry: Inventory.InventoryItem)
    requires !entry.equipped
    ensures TotalACBonus(catalog, EquippedItems(Some(inventory + [entry])))
            == TotalACBonus(catalog, EquippedItems(Some(inventory)))
  {
    Seqs.FilterAppend(inventory, [entry], IsEquipped);
    assert Seqs.Filter([entry], IsEquipped) == [] by {
      assert [entry][1..] == [];
    }
    assert Seqs.Filter(inventory, IsEquipped) + [] == Seqs.Filter(inventory, IsEquipped);
  }
}
