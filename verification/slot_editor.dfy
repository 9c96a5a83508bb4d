/** The spell-slot editor: per-level add, remove and set-count controls and
    the wizard quick-set table. */
module SlotEditor {
  import opened Wrappers
  import Seqs
  import opened SpellSlots

  /** The comparator `(a, b) => a.level - b.level`, as an ordering. */
  const ByLevel: (SpellSlot, SpellSlot) -> bool := (a: SpellSlot, b: SpellSlot) => a.level <= b.level

  function IncTotal(t: SpellSlot): SpellSlot {
    t.(total := t.total + 1)
  }

  function DecTotal(t: SpellSlot): SpellSlot {
    t.(total := t.total - 1)
  }

  /** `{ ...s, total, used: Math.min(s.used, total) }`. */
  function WithTotal(total: int): SpellSlot -> SpellSlot {
    (t: SpellSlot) => t.(total := total, used := if t.used <= total then t.used else total)
  }

  function OtherLevel(level: int): SpellSlot -> bool {
    (t: SpellSlot) => t.level != level
  }

  /** Every configured level has a non-negative count. */
  predicate NonNegative(slots: seq<SpellSlot>) {
    forall i :: 0 <= i < |slots| ==> slots[i].total >= 0
  }

  /** The count shown for a level: `slot?.total || 0`. */
  function Displayed(slots: seq<SpellSlot>, level: int): int {
    match FindSlot(slots, level)
    case None => 0
    case Some(t) => t.total
  }

  /** `handleAddLevel`: one more slot on a configured level; otherwise a new
      level with one slot, then a stable sort by level. */
  function AddLevel(slots: seq<SpellSlot>, level: int): (r: seq<SpellSlot>)
    ensures FindSlot(slots, level).Some? ==> |r| == |slots|
    ensures FindSlot(slots, level).None? ==> multiset(r) == multiset(slots) + multiset{SpellSlot(level, 1, 0)}
  {
    if FindSlot(slots, level).Some? then UpdateLevel(slots, level, IncTotal)
    else Seqs.Sort(slots + [SpellSlot(level, 1, 0)], ByLevel)
  }

  /** `handleRemoveLevel`: one slot fewer on a level with more than one;
      otherwise every entry of the level is dropped. */
  function RemoveLevel(slots: seq<SpellSlot>, level: int): (r: seq<SpellSlot>)
    ensures FindSlot(slots, level).None? ==> r == slots
    ensures |r| <= |slots|
  {
    match FindSlot(slots, level)
    case None => slots
    case Some(existing) =>
      if existing.total > 1 then UpdateLevel(slots, level, DecTotal)
      else Seqs.Filter(slots, OtherLevel(level))
  }

  /** `handleSetTotal`: a count of zero or less removes one slot, as the
      remove button does; a positive count replaces the level's count and
      caps its spent slots. A level with no entry is left as it is. */
  function SetTotal(slots: seq<SpellSlot>, level: int, total: int): (r: seq<SpellSlot>)
    ensures total > 0 ==> |r| == |slots|
    ensures FindSlot(slots, level).None? ==> r == slots
  {
    if total <= 0 then RemoveLevel(slots, level)
    else UpdateLevel(slots, level, WithTotal(total))
  }

  /** The same control with a typed count on an unconfigured level adding
      that level, which is what the number input offers. */
  function SetTotalAdding(slots: seq<SpellSlot>, level: int, total: int): (r: seq<SpellSlot>)
    ensures FindSlot(slots, level).Some? || total <= 0 ==> r == SetTotal(slots, level, total)
  {
    if FindSlot(slots, level).None? && total > 0 then Seqs.Sort(slots + [SpellSlot(level, total, 0)], ByLevel)
    else SetTotal(slots, level, total)
  }

  lemma AscendingIsSorted(slots: seq<SpellSlot>)
    requires Ascending(slots)
    ensures Seqs.SortedBy(slots, ByLevel)
  {
  }

  /** Inserting an entry of a new level into an ascending list keeps it ascending. */
  lemma {:induction false} InsertAscending(slots: seq<SpellSlot>, x: SpellSlot)
    requires Ascending(slots)
    requires forall i :: 0 <= i < |slots| ==> slots[i].level != x.level
    ensures Ascending(Seqs.Insert(slots, x, ByLevel))
    decreases |slots|
  {
    if |slots| > 0 && !ByLevel(slots[|slots| - 1], x) {
      var init, last := slots[..|slots| - 1], slots[|slots| - 1];
      InsertAscending(init, x);
      var r := Seqs.Insert(init, x, ByLevel);
      forall k | 0 <= k < |r|
        ensures r[k].level < last.level
      {
        assert r[k] in multiset(r);
        if r[k] != x {
          assert r[k] in multiset(init);
          assert r[k] in init;
        }
      }
      assert Seqs.Insert(slots, x, ByLevel) == r + [last];
    }
  }

  /** Adding a new level is one insertion into the ascending list. */
  lemma AddNewIsInsert(slots: seq<SpellSlot>, x: SpellSlot)
    requires Ascending(slots)
    requires forall i :: 0 <= i < |slots| ==> slots[i].level != x.level
    ensures Seqs.Sort(slots + [x], ByLevel) == Seqs.Insert(slots, x, ByLevel)
    ensures Ascending(Seqs.Insert(slots, x, ByLevel))
    ensures x in Seqs.Insert(slots, x, ByLevel)
  {
    AscendingIsSorted(slots);
    Seqs.SortAppend(slots, x, ByLevel);
    InsertAscending(slots, x);
    assert x in multiset(Seqs.Insert(slots, x, ByLevel));
  }

  /** Lookups only look at levels. */
  lemma {:induction false} SameLevelsSameIndex(a: seq<SpellSlot>, b: seq<SpellSlot>, level: int)
    requires |a| == |b|
    requires forall i :: 0 <= i < |a| ==> a[i].level == b[i].level
    ensures FindIndex(a, level) == FindIndex(b, level)
    decreases |a|
  {
    if |a| > 0 {
      SameLevelsSameIndex(a[1..], b[1..], level);
    }
  }

  /** Adding keeps the list ascending. */
  lemma AddKeepsAscending(slots: seq<SpellSlot>, level: int)
    requires Ascending(slots)
    ensures Ascending(AddLevel(slots, level))
  {
    if FindSlot(slots, level).Some? {
      UpdateKeepsAscending(slots, level, IncTotal);
    } else {
      AddNewIsInsert(slots, SpellSlot(level, 1, 0));
    }
  }

  /** The add button raises the shown count of its level by one. */
  lemma AddRaisesCount(slots: seq<SpellSlot>, level: int)
    requires Ascending(slots) && NonNegative(slots)
    ensures Displayed(AddLevel(slots, level), level) == Displayed(slots, level) + 1
  {
    if FindSlot(slots, level).Some? {
      var r := UpdateLevel(slots, level, IncTotal);
      SameLevelsSameIndex(r, slots, level);
    } else {
      var x := SpellSlot(level, 1, 0);
      AddNewIsInsert(slots, x);
      FindInAscending(Seqs.Insert(slots, x, ByLevel), x);
    }
  }

  /** Removing right after adding restores the list, for a level that was
      absent or held at least one slot. */
  lemma RemoveUndoesAdd(slots: seq<SpellSlot>, level: int)
    requires Ascending(slots)
    requires FindSlot(slots, level).Some? ==> FindSlot(slots, level).value.total >= 1
    ensures RemoveLevel(AddLevel(slots, level), level) == slots
  {
    if FindSlot(slots, level).Some? {
      var r := UpdateLevel(slots, level, IncTotal);
      SameLevelsSameIndex(r, slots, level);
      var k := FindIndex(slots, level).value;
      assert FindSlot(r, level) == Some(r[k]);
      assert UpdateLevel(r, level, DecTotal) == slots;
    } else {
      var x := SpellSlot(level, 1, 0);
      AddNewIsInsert(slots, x);
      FindInAscending(Seqs.Insert(slots, x, ByLevel), x);
      Seqs.FilterInsertRejected(slots, x, ByLevel, OtherLevel(level));
      Seqs.FilterAllPass(slots, OtherLevel(level));
    }
  }

  /** The remove button lowers the shown count by one, down to zero. */
  lemma RemoveLowersCount(slots: seq<SpellSlot>, level: int)
    requires Ascending(slots) && NonNegative(slots)
    ensures Displayed(RemoveLevel(slots, level), level)
         == if Displayed(slots, level) > 0 then Displayed(slots, level) - 1 else 0
  {
    match FindSlot(slots, level)
    case None =>
    case Some(existing) =>
      if existing.total > 1 {
        var r := UpdateLevel(slots, level, DecTotal);
        SameLevelsSameIndex(r, slots, level);
      } else {
        var r := Seqs.Filter(slots, OtherLevel(level));
        assert forall t :: t in r ==> t.level != level;
      }
  }

  /** Dropping entries keeps an ascending list ascending. */
  lemma {:induction false} FilterKeepsAscending(slots: seq<SpellSlot>, p: SpellSlot -> bool)
    requires Ascending(slots)
    ensures Ascending(Seqs.Filter(slots, p))
    decreases |slots|
  {
    if |slots| > 0 {
      FilterKeepsAscending(slots[1..], p);
      var rest := Seqs.Filter(slots[1..], p);
      forall k | 0 <= k < |rest|
        ensures slots[0].level < rest[k].level
      {
        assert rest[k] in slots[1..];
      }
    }
  }

  /** Removing keeps the list ascending. */
  lemma RemoveKeepsAscending(slots: seq<SpellSlot>, level: int)
    requires Ascending(slots)
    ensures Ascending(RemoveLevel(slots, level))
  {
    match FindSlot(slots, level)
    case None =>
    case Some(existing) =>
      if existing.total > 1 {
        UpdateKeepsAscending(slots, level, DecTotal);
      } else {
        FilterKeepsAscending(slots, OtherLevel(level));
      }
  }

  /** Setting a count keeps the list ascending. */
  lemma SetTotalKeepsAscending(slots: seq<SpellSlot>, level: int, total: int)
    requires Ascending(slots)
    ensures Ascending(SetTotal(slots, level, total))
  {
    if total <= 0 {
      RemoveKeepsAscending(slots, level);
    } else {
      UpdateKeepsAscending(slots, level, WithTotal(total));
    }
  }

  /** Two ascending lists holding the same entries of a level show the
      same entry for it. */
  lemma SameEntriesSameSlot(a: seq<SpellSlot>, b: seq<SpellSlot>, l: int)
    requires Ascending(a) && Ascending(b)
    requires forall t: SpellSlot :: t.level == l ==> (t in a <==> t in b)
    ensures FindSlot(a, l) == FindSlot(b, l)
  {
    if FindSlot(a, l).Some? {
      FindInAscending(b, FindSlot(a, l).value);
    } else if FindSlot(b, l).Some? {
      FindInAscending(a, FindSlot(b, l).value);
    }
  }

  /** An update of one level leaves the entry of every other level as it was. */
  lemma UpdateLeavesOtherLevels(slots: seq<SpellSlot>, level: int, f: SpellSlot -> SpellSlot, other: int)
    requires forall t :: f(t).level == t.level
    requires other != level
    ensures FindSlot(UpdateLevel(slots, level, f), other) == FindSlot(slots, other)
  {
    var r := UpdateLevel(slots, level, f);
    SameLevelsSameIndex(r, slots, other);
  }

  /** Add, remove and set-count leave the shown count of every other level
      unchanged. */
  lemma OtherLevelsUnchanged(slots: seq<SpellSlot>, level: int, total: int, other: int)
    requires Ascending(slots) && other != level
    ensures Displayed(AddLevel(slots, level), other) == Displayed(slots, other)
    ensures Displayed(RemoveLevel(slots, level), other) == Displayed(slots, other)
    ensures Displayed(SetTotal(slots, level, total), other) == Displayed(slots, other)
  {
    if FindSlot(slots, level).Some? {
      UpdateLeavesOtherLevels(slots, level, IncTotal, other);
    } else {
      var x := SpellSlot(level, 1, 0);
      AddNewIsInsert(slots, x);
      var r := AddLevel(slots, level);
      forall t: SpellSlot | t.level == other
        ensures t in r <==> t in slots
      {
        assert t in r <==> t in multiset(r);
        assert t in slots <==> t in multiset(slots);
      }
      SameEntriesSameSlot(r, slots, other);
    }
    RemoveLeavesOtherLevels(slots, level, other);
    if total > 0 {
      UpdateLeavesOtherLevels(slots, level, WithTotal(total), other);
    }
  }

  lemma RemoveLeavesOtherLevels(slots: seq<SpellSlot>, level: int, other: int)
    requires Ascending(slots) && other != level
    ensures FindSlot(RemoveLevel(slots, level), other) == FindSlot(slots, other)
  {
    match FindSlot(slots, level)
    case None =>
    case Some(existing) =>
      if existing.total > 1 {
        UpdateLeavesOtherLevels(slots, level, DecTotal, other);
      } else {
        var r := Seqs.Filter(slots, OtherLevel(level));
        FilterKeepsAscending(slots, OtherLevel(level));
        SameEntriesSameSlot(r, slots, other);
      }
  }

  /** A positive typed count on a configured level becomes its count, and
      its spent slots never exceed it. */
  lemma SetTotalSetsCount(slots: seq<SpellSlot>, level: int, total: int)
    requires Ascending(slots) && total > 0 && FindSlot(slots, level).Some?
    ensures Displayed(SetTotal(slots, level, total), level) == total
    ensures FindSlot(SetTotal(slots, level, total), level).value.used <= total
  {
    var r := UpdateLevel(slots, level, WithTotal(total));
    SameLevelsSameIndex(r, slots, level);
  }

  /** A typed count on a level that has no entry is dropped: the input snaps
      back to zero. */
  lemma SetTotalIgnoresNewLevel()
    ensures Displayed(SetTotal([], 3, 2), 3) == 0
  {
  }

  /** Typing zero or less takes one slot away, like the remove button: a
      level with three slots shows two afterwards, not zero. */
  lemma NonPositiveTotalRemovesOne(slots: seq<SpellSlot>, level: int, total: int)
    requires Ascending(slots) && NonNegative(slots) && total <= 0
    ensures SetTotal(slots, level, total) == RemoveLevel(slots, level)
    ensures Displayed(SetTotal(slots, level, total), level)
         == if Displayed(slots, level) > 0 then Displayed(slots, level) - 1 else 0
  {
    RemoveLowersCount(slots, level);
  }

  /** With adding, a typed positive count always becomes the shown count. */
  lemma SetTotalAddingSetsCount(slots: seq<SpellSlot>, level: int, total: int)
    requires Ascending(slots) && total > 0
    ensures Displayed(SetTotalAdding(slots, level, total), level) == total
    ensures Ascending(SetTotalAdding(slots, level, total))
  {
    if FindSlot(slots, level).Some? {
      SetTotalSetsCount(slots, level, total);
      UpdateKeepsAscending(slots, level, WithTotal(total));
    } else {
      var x := SpellSlot(level, total, 0);
      AddNewIsInsert(slots, x);
      FindInAscending(Seqs.Insert(slots, x, ByLevel), x);
    }
  }

  /** The standard wizard slot progression, by character level. */
  function WizardSlots(characterLevel: int): Option<seq<int>> {
    match characterLevel
    case 1 => Some([2])
    case 2 => Some([3])
    case 3 => Some([4, 2])
    case 4 => Some([4, 3])
    case 5 => Some([4, 3, 2])
    case 6 => Some([4, 3, 3])
    case 7 => Some([4, 3, 3, 1])
    case 8 => Some([4, 3, 3, 2])
    case 9 => Some([4, 3, 3, 3, 1])
    case 10 => Some([4, 3, 3, 3, 2])
    case 11 => Some([4, 3, 3, 3, 2, 1])
    case 12 => Some([4, 3, 3, 3, 2, 1])
    case 13 => Some([4, 3, 3, 3, 2, 1, 1])
    case 14 => Some([4, 3, 3, 3, 2, 1, 1])
    case 15 => Some([4, 3, 3, 3, 2, 1, 1, 1])
    case 16 => Some([4, 3, 3, 3, 2, 1, 1, 1])
    case 17 => Some([4, 3, 3, 3, 2, 1, 1, 1, 1])
    case 18 => Some([4, 3, 3, 3, 3, 1, 1, 1, 1])
    case 19 => Some([4, 3, 3, 3, 3, 2, 1, 1, 1])
    case 20 => Some([4, 3, 3, 3, 3, 2, 2, 1, 1])
    case _ => None
  }

  /** `quickSetWizard`: the table row as slot levels 1, 2, … with nothing
      spent; an unknown character level changes nothing. */
  function QuickSetWizard(slots: seq<SpellSlot>, characterLevel: int): (r: seq<SpellSlot>)
    ensures WizardSlots(characterLevel).None? ==> r == slots
    ensures WizardSlots(characterLevel).Some? ==>
      && |r| == |WizardSlots(characterLevel).value|
      && forall i :: 0 <= i < |r| ==>
           r[i].level == i + 1 && r[i].total == WizardSlots(characterLevel).value[i] && r[i].used == 0
  {
    match WizardSlots(characterLevel)
    case None => slots
    case Some(row) => seq(|row|, i requires 0 <= i < |row| => SpellSlot(i + 1, row[i], 0))
  }

  /** The table covers exactly levels 1 to 20; a row reaches slot level
      ⌈L/2⌉ until it tops out at ninth-level slots. */
  lemma WizardRowLengths(characterLevel: int)
    ensures WizardSlots(characterLevel).Some? <==> 1 <= characterLevel <= 20
    ensures WizardSlots(characterLevel).Some? ==>
      |WizardSlots(characterLevel).value| == if (characterLevel + 1) / 2 < 9 then (characterLevel + 1) / 2 else 9
  {
  }

  /** Gaining a character level never takes a wizard slot away. */
  lemma WizardSlotsGrow(characterLevel: int)
    requires 1 <= characterLevel < 20
    ensures var now, next := WizardSlots(characterLevel).value, WizardSlots(characterLevel + 1).value;
      |now| <= |next| && forall i :: 0 <= i < |now| ==> now[i] <= next[i]
  {
  }

  /** A quick-set list is ascending and spends nothing. */
  lemma QuickSetWellFormed(slots: seq<SpellSlot>, characterLevel: int)
    requires Ascending(slots) && WithinTotals(slots)
    ensures Ascending(QuickSetWizard(slots, characterLevel))
    ensures WithinTotals(QuickSetWizard(slots, characterLevel))
    ensures 1 <= characterLevel <= 20 ==> TotalUsed(QuickSetWizard(slots, characterLevel)) == 0
  {
    if 1 <= characterLevel <= 20 {
      NothingSpent(QuickSetWizard(slots, characterLevel));
    }
  }

  lemma {:induction false} NothingSpent(slots: seq<SpellSlot>)
    requires forall i :: 0 <= i < |slots| ==> slots[i].used == 0
    ensures TotalUsed(slots) == 0
    decreases |slots|
  {
    if |slots| > 0 {
      NothingSpent(slots[1..]);
    }
  }
}
