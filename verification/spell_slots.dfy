/** The spell-slot record shared by the slot editor, the slot tracker and the
    character pages, with the lookups and sums they all use. */
module SpellSlots {
  import opened Wrappers

  /** Slots of one spell level: how many the character has and how many are spent. */
  datatype SpellSlot = SpellSlot(level: int, total: int, used: int)

  /** `slots.findIndex(s => s.level === level)`, as an option. */
  function FindIndex(slots: seq<SpellSlot>, level: int): (r: Option<nat>)
    ensures r.None? <==> forall i :: 0 <= i < |slots| ==> slots[i].level != level
    ensures r.Some? ==>
      && r.value < |slots| && slots[r.value].level == level
      && forall j :: 0 <= j < r.value ==> slots[j].level != level
    decreases |slots|
  {
    if |slots| == 0 then None
    else if slots[0].level == level then Some(0)
    else
      match FindIndex(slots[1..], level)
      case None => None
      case Some(k) => Some(k + 1)
  }

  /** `slots.find(s => s.level === level)`. */
  function FindSlot(slots: seq<SpellSlot>, level: int): (r: Option<SpellSlot>)
    ensures r.None? <==> forall i :: 0 <= i < |slots| ==> slots[i].level != level
    ensures r.Some? ==> r.value in slots && r.value.level == level
  {
    match FindIndex(slots, level)
    case None => None
    case Some(k) => Some(slots[k])
  }

  /** Levels strictly ascending: sorted, and one entry per level. */
  predicate Ascending(slots: seq<SpellSlot>) {
    forall i, j :: 0 <= i < j < |slots| ==> slots[i].level < slots[j].level
  }

  /** In an ascending list the entry of a level is the one `find` returns. */
  lemma FindInAscending(slots: seq<SpellSlot>, x: SpellSlot)
    requires Ascending(slots) && x in slots
    ensures FindSlot(slots, x.level) == Some(x)
  {
    var k :| 0 <= k < |slots| && slots[k] == x;
    assert slots[k].level == x.level;
  }

  /** `slots.map(s => s.level === level ? f(s) : s)`. */
  function UpdateLevel(slots: seq<SpellSlot>, level: int, f: SpellSlot -> SpellSlot): (r: seq<SpellSlot>)
    ensures |r| == |slots|
    ensures forall i :: 0 <= i < |slots| ==> r[i] == if slots[i].level == level then f(slots[i]) else slots[i]
  {
    seq(|slots|, i requires 0 <= i < |slots| => if slots[i].level == level then f(slots[i]) else slots[i])
  }

  /** An update that keeps every level keeps the list ascending. */
  lemma UpdateKeepsAscending(slots: seq<SpellSlot>, level: int, f: SpellSlot -> SpellSlot)
    requires Ascending(slots)
    requires forall t :: f(t).level == t.level
    ensures Ascending(UpdateLevel(slots, level, f))
  {
    var r := UpdateLevel(slots, level, f);
    forall i, j | 0 <= i < j < |r|
      ensures r[i].level < r[j].level
    {
      assert r[i].level == slots[i].level && r[j].level == slots[j].level;
    }
  }

  /** Sum of the `used` fields, as the tracker's `reduce` computes it. */
  function TotalUsed(slots: seq<SpellSlot>): int
    decreases |slots|
  {
    if |slots| == 0 then 0 else slots[0].used + TotalUsed(slots[1..])
  }

  /** Sum of the `total` fields. */
  function TotalAvailable(slots: seq<SpellSlot>): int
    decreases |slots|
  {
    if |slots| == 0 then 0 else slots[0].total + TotalAvailable(slots[1..])
  }

  /** Every level spends between none and all of its slots. */
  predicate WithinTotals(slots: seq<SpellSlot>) {
    forall i :: 0 <= i < |slots| ==> 0 <= slots[i].used <= slots[i].total
  }

  /** When no level overspends, the "available" figure lies between zero and
      the grand total. */
  lemma {:induction false} RemainingBounded(slots: seq<SpellSlot>)
    requires WithinTotals(slots)
    ensures 0 <= TotalUsed(slots) <= TotalAvailable(slots)
    ensures 0 <= TotalAvailable(slots) - TotalUsed(slots) <= TotalAvailable(slots)
    decreases |slots|
  {
    if |slots| > 0 {
      assert WithinTotals(slots[1..]) by {
        forall i | 0 <= i < |slots[1..]|
          ensures 0 <= slots[1..][i].used <= slots[1..][i].total
        {
          assert slots[1..][i] == slots[i + 1];
        }
      }
      RemainingBounded(slots[1..]);
    }
  }
}
