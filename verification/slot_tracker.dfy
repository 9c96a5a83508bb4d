/** The spell-slot tracker: one pip per slot, clicked to spend or restore,
    and a long rest that restores everything. */
module SlotTracker {
  import Seqs
  import opened SpellSlots

  /** The spent count after clicking pip `slotIndex` (0-based) of a level:
      a spent pip gives back one slot, an unspent pip spends up to and
      including itself; the result is clamped to `[0, total]`. */
  function ClickPip(t: SpellSlot, slotIndex: int): (r: SpellSlot)
    ensures r.level == t.level && r.total == t.total
    ensures t.total >= 0 ==> 0 <= r.used <= r.total
  {
    var newUsed := if slotIndex < t.used then t.used - 1 else slotIndex + 1;
    var capped := if newUsed <= t.total then newUsed else t.total;
    t.(used := if 0 >= capped then 0 else capped)
  }

  function Clicker(slotIndex: int): SpellSlot -> SpellSlot {
    (t: SpellSlot) => ClickPip(t, slotIndex)
  }

  /** `handleToggleSlot`. */
  function ToggleSlot(slots: seq<SpellSlot>, level: int, slotIndex: int): (r: seq<SpellSlot>)
    ensures |r| == |slots|
    ensures forall i :: 0 <= i < |slots| && slots[i].level == level ==> r[i] == ClickPip(slots[i], slotIndex)
    ensures forall i :: 0 <= i < |slots| && slots[i].level != level ==> r[i] == slots[i]
    ensures forall i :: 0 <= i < |slots| ==> r[i].level == slots[i].level && r[i].total == slots[i].total
  {
    UpdateLevel(slots, level, Clicker(slotIndex))
  }

  /** Clicking an unspent pip spends every pip up to it. */
  lemma ClickUnspent(t: SpellSlot, slotIndex: int)
    requires 0 <= t.used <= slotIndex < t.total
    ensures ClickPip(t, slotIndex).used == slotIndex + 1
  {
  }

  /** Clicking any spent pip gives back exactly one slot, whichever pip it is. */
  lemma ClickSpent(t: SpellSlot, slotIndex: int)
    requires 0 <= slotIndex < t.used <= t.total
    ensures ClickPip(t, slotIndex).used == t.used - 1
  {
  }

  /** Clicking the first unspent pip twice restores the level. */
  lemma ClickTwiceRestores(t: SpellSlot)
    requires 0 <= t.used < t.total
    ensures ClickPip(ClickPip(t, t.used), t.used) == t
  {
  }

  /** Toggling keeps every level within its total. */
  lemma ToggleKeepsWithinTotals(slots: seq<SpellSlot>, level: int, slotIndex: int)
    requires WithinTotals(slots)
    ensures WithinTotals(ToggleSlot(slots, level, slotIndex))
  {
    var r := ToggleSlot(slots, level, slotIndex);
    forall i | 0 <= i < |r|
      ensures 0 <= r[i].used <= r[i].total
    {
      if slots[i].level == level {
        assert r[i] == ClickPip(slots[i], slotIndex);
      }
    }
  }

  function Rest(t: SpellSlot): SpellSlot {
    t.(used := 0)
  }

  /** `handleLongRest`: every level back to nothing spent. */
  function LongRest(slots: seq<SpellSlot>): (r: seq<SpellSlot>)
    ensures |r| == |slots|
    ensures forall i :: 0 <= i < |slots| ==>
      r[i].used == 0 && r[i].level == slots[i].level && r[i].total == slots[i].total
  {
    seq(|slots|, i requires 0 <= i < |slots| => Rest(slots[i]))
  }

  /** A long rest restores the full pool and taking two changes nothing more. */
  lemma {:induction false} LongRestRestoresAll(slots: seq<SpellSlot>)
    ensures TotalUsed(LongRest(slots)) == 0
    ensures TotalAvailable(LongRest(slots)) == TotalAvailable(slots)
    ensures LongRest(LongRest(slots)) == LongRest(slots)
    decreases |slots|
  {
    if |slots| > 0 {
      LongRestRestoresAll(slots[1..]);
      assert LongRest(slots)[1..] == LongRest(slots[1..]);
    }
  }

  predicate HasSlots(t: SpellSlot) {
    t.total > 0
  }

  /** The levels drawn with pips: those with at least one slot. */
  function ActiveSlots(slots: seq<SpellSlot>): (r: seq<SpellSlot>)
    ensures Seqs.IsSubsequence(r, slots)
    ensures forall t :: t in r <==> t in slots && t.total > 0
  {
    Seqs.FilterIsSubsequence(slots, HasSlots);
    Seqs.Filter(slots, HasSlots)
  }

  /** The "no spell slots" card appears exactly when no level has a slot. */
  lemma NoSlotsCard(slots: seq<SpellSlot>)
    ensures |ActiveSlots(slots)| == 0 <==> forall i :: 0 <= i < |slots| ==> slots[i].total <= 0
  {
    if |ActiveSlots(slots)| == 0 {
      forall i | 0 <= i < |slots|
        ensures slots[i].total <= 0
      {
        assert slots[i] in slots;
      }
    } else {
      assert ActiveSlots(slots)[0] in slots;
    }
  }

  /** Toggling and resting never change what the tracker counts as available. */
  lemma {:induction false} ToggleKeepsAvailable(slots: seq<SpellSlot>, level: int, slotIndex: int)
    ensures TotalAvailable(ToggleSlot(slots, level, slotIndex)) == TotalAvailable(slots)
    decreases |slots|
  {
    if |slots| > 0 {
      ToggleKeepsAvailable(slots[1..], level, slotIndex);
      assert ToggleSlot(slots, level, slotIndex)[1..] == ToggleSlot(slots[1..], level, slotIndex);
    }
  }
}
