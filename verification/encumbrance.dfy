/** The encumbrance tracker: the weight carried against three thresholds
    derived from the Strength score. */
module Encumbrance {
  import opened Wrappers
  import Stats
  import Inventory

  /** The three thresholds, in pounds. */
  datatype Thresholds = Thresholds(encumberedAt: int, heavilyEncumberedAt: int, carryingCapacity: int)

  function ThresholdsFor(strength: int): (t: Thresholds)
    ensures strength >= 0 ==> 0 <= t.encumberedAt <= t.heavilyEncumberedAt <= t.carryingCapacity
    ensures t.carryingCapacity == Stats.CalculateCarryingCapacity(strength)
    ensures t.carryingCapacity == t.encumberedAt + t.heavilyEncumberedAt
  {
    Thresholds(strength * 5, strength * 10, strength * 15)
  }

  datatype Level = Normal | Encumbered | Heavily | Over

  /** Position of a level in the order Normal < Encumbered < Heavily < Over. */
  function Rank(l: Level): nat {
    match l
    case Normal => 0
    case Encumbered => 1
    case Heavily => 2
    case Over => 3
  }

  /** The speed penalty shown with a level; Over cannot move at all. */
  datatype SpeedPenalty = Feet(feet: nat) | CannotMove

  /** The total weight the tracker shows: `(inventory || [])` weighed entry
      by entry. */
  function CarriedWeight(inventory: Option<seq<Inventory.InventoryItem>>): int {
    Inventory.TotalWeight(inventory.GetOr([]))
  }

  /** The level: each threshold must be strictly exceeded, checked from the
      heaviest down. */
  function LevelOf(weight: int, strength: int): (l: Level)
    ensures var t := ThresholdsFor(strength);
      && (l == Over <==> weight > t.carryingCapacity)
      && (l == Heavily <==> t.heavilyEncumberedAt < weight <= t.carryingCapacity)
      && (l == Encumbered <==> t.encumberedAt < weight <= t.heavilyEncumberedAt && weight <= t.carryingCapacity)
      && (l == Normal <==> weight <= t.encumberedAt && weight <= t.heavilyEncumberedAt && weight <= t.carryingCapacity)
  {
    var t := ThresholdsFor(strength);
    if weight > t.carryingCapacity then Over
    else if weight > t.heavilyEncumberedAt then Heavily
    else if weight > t.encumberedAt then Encumbered
    else Normal
  }

  function PenaltyOf(l: Level): (p: SpeedPenalty)
    ensures p == CannotMove <==> l == Over
    ensures p.Feet? ==> p.feet == 10 * Rank(l)
  {
    match l
    case Normal => Feet(0)
    case Encumbered => Feet(10)
    case Heavily => Feet(20)
    case Over => CannotMove
  }

  /** The status banner appears when the penalty is positive or the load is
      over capacity. */
  predicate BannerShown(l: Level) {
    var p := PenaltyOf(l);
    (p.Feet? && p.feet > 0) || l == Over
  }

  /** Carrying more never lowers the level, whatever the Strength score. */
  lemma LevelMonotone(w1: int, w2: int, strength: int)
    requires w1 <= w2
    ensures Rank(LevelOf(w1, strength)) <= Rank(LevelOf(w2, strength))
  {
  }

  /** A load exactly at a threshold stays on the lighter side of it. */
  lemma ThresholdsAreInclusive(strength: int)
    requires strength > 0
    ensures var t := ThresholdsFor(strength);
      && LevelOf(t.encumberedAt, strength) == Normal
      && LevelOf(t.heavilyEncumberedAt, strength) == Encumbered
      && LevelOf(t.carryingCapacity, strength) == Heavily
      && LevelOf(t.carryingCapacity + 1, strength) == Over
  {
  }

  /** The banner is shown exactly when the load exceeds the lowest threshold;
      for a negative Strength score the thresholds run the other way and
      only the capacity matters. */
  lemma BannerShownIff(weight: int, strength: int)
    ensures BannerShown(LevelOf(weight, strength))
        <==> weight > (if strength >= 0 then 5 * strength else 15 * strength)
  {
  }

  /** Equipping or attuning an item leaves the level unchanged. */
  lemma TogglesKeepLevel(items: seq<Inventory.InventoryItem>, index: int, strength: int)
    ensures LevelOf(CarriedWeight(Some(Inventory.ToggleEquipped(items, index))), strength)
         == LevelOf(CarriedWeight(Some(items)), strength)
  {
    Inventory.TogglesKeepWeight(items, index);
  }

  /** Dropping an entry of non-negative weight never raises the level. */
  lemma DroppingNeverRaisesLevel(items: seq<Inventory.InventoryItem>, index: int, strength: int)
    requires 0 <= index < |items|
    requires Inventory.EntryWeight(items[index]) >= 0
    ensures Rank(LevelOf(CarriedWeight(Some(Inventory.RemoveAt(items, index))), strength))
         <= Rank(LevelOf(CarriedWeight(Some(items)), strength))
  {
    Inventory.TotalWeightOfRemove(items, index);
    LevelMonotone(CarriedWeight(Some(Inventory.RemoveAt(items, index))), CarriedWeight(Some(items)), strength);
  }
}
