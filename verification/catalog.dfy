/** Catalogue items and the two readers of their free-form `properties`
    column: the equipment slot and the bonus record. */
module Catalog {
  import opened Wrappers

  /** A key of a JSON object: missing, or present with a value that may be
      null or undefined (`None`). */
  datatype Key<+T> = Missing | Given(value: Option<T>)

  /** Bonuses an item grants; absent numbers are `None`. */
  datatype Bonus = Bonus(ac: Option<int>, attack: Option<int>)

  /** The `properties` column: SQL null, or an object with the two keys read
      here. An array has neither key and is written `Object(Missing, Missing)`. */
  datatype Properties = NullProperties | Object(slot: Key<string>, bonus: Key<Bonus>)

  /** A catalogue item, as far as inventory, equipment and weight read it. */
  datatype Item = Item(
    id: string, name: string, weight: Option<int>, armorClass: Option<int>,
    properties: Properties)

  /** `getItemSlot`: the `slot` of a non-null properties object when it is a
      non-empty string, else null. */
  function GetItemSlot(item: Item): (slot: Option<string>)
    ensures slot.Some? <==>
      item.properties.Object? && item.properties.slot.Given?
      && item.properties.slot.value.Some? && item.properties.slot.value.value != ""
    ensures slot.Some? ==> slot.value == item.properties.slot.value.value
  {
    match item.properties
    case NullProperties => None
    case Object(slot, _) =>
      match slot
      case Missing => None
      case Given(v) => if v.Some? && v.value != "" then v else None
  }

  /** `getItemBonus`: the `bonus` object of a non-null properties object, else
      null; an object is always truthy. */
  function GetItemBonus(item: Item): (bonus: Option<Bonus>)
    ensures bonus.Some? <==>
      item.properties.Object? && item.properties.bonus.Given? && item.properties.bonus.value.Some?
    ensures bonus.Some? ==> bonus.value == item.properties.bonus.value.value
  {
    match item.properties
    case NullProperties => None
    case Object(_, bonus) =>
      match bonus
      case Missing => None
      case Given(v) => v
  }

  /** `catalog.find(item => item.id === id)`: the first item with that id. */
  function FindItem(catalog: seq<Item>, id: string): (found: Option<Item>)
    ensures found.Some? ==> found.value in catalog && found.value.id == id
    ensures found.None? <==> forall i :: 0 <= i < |catalog| ==> catalog[i].id != id
    decreases |catalog|
  {
    if |catalog| == 0 then None
    else if catalog[0].id == id then Some(catalog[0])
    else FindItem(catalog[1..], id)
  }

  /** `(n || 0)` for an optional number: null, undefined and 0 all read as 0. */
  function OrZero(n: Option<int>): int {
    if n.Some? then n.value else 0
  }
}
