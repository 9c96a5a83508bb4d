/** The prepared-spell list: spells grouped by level, levels in ascending
    order, each group sorted by name. */
module SpellList {
  import opened Wrappers
  import Seqs
  import Text
  import opened SpellData
  import SpellBrowser

  function LevelIs(level: int): Spell -> bool {
    (s: Spell) => s.level == level
  }

  predicate HasLevel(spells: seq<Spell>, level: int) {
    exists i :: 0 <= i < |spells| && spells[i].level == level
  }

  /** Appending one spell appends it to its own level's selection only. */
  lemma GroupStep(init: seq<Spell>, x: Spell, level: int)
    ensures Seqs.Filter(init + [x], LevelIs(level))
         == Seqs.Filter(init, LevelIs(level)) + (if x.level == level then [x] else [])
  {
    Seqs.FilterAppend(init, [x], LevelIs(level));
    assert [x][1..] == [];
  }

  /** A level no spell has selects nothing. */
  lemma AbsentLevelIsEmpty(spells: seq<Spell>, level: int)
    requires !HasLevel(spells, level)
    ensures Seqs.Filter(spells, LevelIs(level)) == []
  {
    Seqs.FilterNonePass(spells, LevelIs(level));
  }

  /** The `reduce` building `spellsByLevel`: each spell pushed onto the
      group of its level, so a group lists that level's spells in list order. */
  function GroupByLevel(spells: seq<Spell>): (groups: map<int, seq<Spell>>)
    ensures forall l :: l in groups <==> HasLevel(spells, l)
    ensures forall l :: l in groups ==> groups[l] == Seqs.Filter(spells, LevelIs(l))
    decreases |spells|
  {
    if |spells| == 0 then map[]
    else
      var init, x := spells[..|spells| - 1], spells[|spells| - 1];
      assert spells == init + [x];
      var acc := GroupByLevel(init);
      var groups := acc[x.level := (if x.level in acc then acc[x.level] else []) + [x]];
      assert forall l :: l in groups ==> groups[l] == Seqs.Filter(spells, LevelIs(l)) by {
        forall l | l in groups
          ensures groups[l] == Seqs.Filter(spells, LevelIs(l))
        {
          GroupStep(init, x, l);
          if l == x.level && l !in acc {
            AbsentLevelIsEmpty(init, l);
          }
        }
      }
      assert forall l :: l in groups <==> HasLevel(spells, l) by {
        forall l
          ensures l in groups <==> HasLevel(spells, l)
        {
          if HasLevel(spells, l) && l != x.level {
            var i :| 0 <= i < |spells| && spells[i].level == l;
            assert init[i].level == l;
          }
          if HasLevel(init, l) {
            var i :| 0 <= i < |init| && init[i].level == l;
            assert spells[i].level == l;
          }
        }
      }
      groups
  }

  /** Levels strictly ascending. */
  predicate StrictlyAscending(levels: seq<int>) {
    forall i, j :: 0 <= i < j < |levels| ==> levels[i] < levels[j]
  }

  const IntLe: (int, int) -> bool := (a: int, b: int) => a <= b

  /** Inserting adds `x` and keeps every level that was there. */
  lemma InsertMembers(levels: seq<int>, x: int)
    ensures forall l :: l in Seqs.Insert(levels, x, IntLe) <==> l in levels || l == x
  {
    var r := Seqs.Insert(levels, x, IntLe);
    assert forall l :: l in r <==> l in multiset(r);
  }

  lemma AppendLarger(levels: seq<int>, x: int)
    requires StrictlyAscending(levels)
    requires forall k :: 0 <= k < |levels| ==> levels[k] < x
    ensures StrictlyAscending(levels + [x])
  {
  }

  /** A level above every present one goes at the end. */
  lemma InsertAtEnd(levels: seq<int>, x: int)
    requires StrictlyAscending(levels) && x !in levels
    requires |levels| == 0 || levels[|levels| - 1] <= x
    ensures StrictlyAscending(Seqs.Insert(levels, x, IntLe))
  {
    assert Seqs.Insert(levels, x, IntLe) == levels + [x];
    forall k | 0 <= k < |levels|
      ensures levels[k] < x
    {
      assert levels[k] <= levels[|levels| - 1];
      assert levels[k] in levels;
    }
    AppendLarger(levels, x);
  }

  /** A level below the last one is inserted among the others, and the last
      one stays at the end. */
  lemma InsertBeforeLast(levels: seq<int>, x: int)
    requires StrictlyAscending(levels) && |levels| > 0 && x < levels[|levels| - 1]
    requires var r0 := Seqs.Insert(levels[..|levels| - 1], x, IntLe);
      StrictlyAscending(r0) && forall l :: l in r0 ==> l in levels[..|levels| - 1] || l == x
    ensures StrictlyAscending(Seqs.Insert(levels, x, IntLe))
  {
    var init, last := levels[..|levels| - 1], levels[|levels| - 1];
    var r0 := Seqs.Insert(init, x, IntLe);
    assert Seqs.Insert(levels, x, IntLe) == r0 + [last];
    forall k | 0 <= k < |r0|
      ensures r0[k] < last
    {
      assert r0[k] in r0;
      if r0[k] != x {
        var m :| 0 <= m < |init| && init[m] == r0[k];
        assert levels[m] == init[m];
      }
    }
    AppendLarger(r0, last);
  }

  lemma {:induction false} InsertKeepsStrict(levels: seq<int>, x: int)
    requires StrictlyAscending(levels) && x !in levels
    ensures StrictlyAscending(Seqs.Insert(levels, x, IntLe))
    ensures forall l :: l in Seqs.Insert(levels, x, IntLe) <==> l in levels || l == x
    decreases |levels|
  {
    InsertMembers(levels, x);
    if |levels| > 0 && !IntLe(levels[|levels| - 1], x) {
      var init := levels[..|levels| - 1];
      assert x !in init;
      InsertKeepsStrict(init, x);
      InsertBeforeLast(levels, x);
    } else {
      InsertAtEnd(levels, x);
    }
  }

  /** `Object.keys(spellsByLevel).map(Number).sort((a, b) => a - b)`: the
      distinct levels, ascending. */
  function AscendingLevels(spells: seq<Spell>): (levels: seq<int>)
    ensures StrictlyAscending(levels)
    ensures forall l :: l in levels <==> HasLevel(spells, l)
    decreases |spells|
  {
    if |spells| == 0 then []
    else
      var init, x := spells[..|spells| - 1], spells[|spells| - 1];
      var acc := AscendingLevels(init);
      var levels := if x.level in acc then acc else Seqs.Insert(acc, x.level, IntLe);
      assert StrictlyAscending(levels) && forall l :: l in levels <==> l in acc || l == x.level by {
        if x.level !in acc {
          InsertKeepsStrict(acc, x.level);
        }
      }
      assert forall l :: l in levels <==> HasLevel(spells, l) by {
        forall l
          ensures l in levels <==> HasLevel(spells, l)
        {
          if HasLevel(spells, l) && l != x.level {
            var i :| 0 <= i < |spells| && spells[i].level == l;
            assert init[i].level == l;
          }
          if HasLevel(init, l) {
            var i :| 0 <= i < |init| && init[i].level == l;
            assert spells[i].level == l;
          }
        }
      }
      levels
  }

  /** `getLevelLabel`. */
  function LevelHeading(level: int): (heading: string)
    ensures level == 0 <==> heading == "Cantrips"
    ensures level != 0 ==>
      && |heading| > 8
      && heading[|heading| - 6..] == " Level"
      && Text.ParseSigned(heading[..|heading| - 8]) == Some(level)
    ensures level != 0 ==>
      heading[|heading| - 8..|heading| - 6] == (if level == 1 then "st" else if level == 2 then "nd" else if level == 3 then "rd" else "th")
  {
    if level == 0 then "Cantrips"
    else
      var suffix := if level == 1 then "st" else if level == 2 then "nd" else if level == 3 then "rd" else "th";
      Text.IntToStringRoundTrip(level);
      var heading := Text.IntToString(level) + suffix + " Level";
      assert heading[..|heading| - 8] == Text.IntToString(level);
      heading
  }

  /** Different levels get different headings. */
  lemma LevelHeadingInjective(a: int, b: int)
    requires LevelHeading(a) == LevelHeading(b)
    ensures a == b
  {
  }

  /** One heading of the list with its spells. */
  datatype Group = Group(level: int, heading: string, spells: seq<Spell>)

  datatype ListView = NoSpells | Groups(groups: seq<Group>)

  /** The rendered list. `nameLe` stands for `localeCompare` order. */
  function ViewSpells(spells: seq<Spell>, nameLe: (Spell, Spell) -> bool): (v: ListView)
    ensures v == NoSpells <==> |spells| == 0
    ensures v.Groups? ==>
      var levels := AscendingLevels(spells);
      && |v.groups| == |levels|
      && forall i :: 0 <= i < |v.groups| ==>
           && v.groups[i].level == levels[i]
           && v.groups[i].heading == LevelHeading(levels[i])
           && multiset(v.groups[i].spells) == multiset(Seqs.Filter(spells, LevelIs(levels[i])))
  {
    if |spells| == 0 then NoSpells
    else
      var groups := GroupByLevel(spells);
      var levels := AscendingLevels(spells);
      Groups(seq(|levels|, i requires 0 <= i < |levels| =>
        Group(levels[i], LevelHeading(levels[i]), Seqs.Sort(groups[levels[i]], nameLe))))
  }

  /** Every spell is listed under its own level and nowhere else. */
  lemma SpellsUnderTheirLevel(spells: seq<Spell>, nameLe: (Spell, Spell) -> bool, i: nat, s: Spell)
    requires ViewSpells(spells, nameLe).Groups? && i < |ViewSpells(spells, nameLe).groups|
    ensures s in ViewSpells(spells, nameLe).groups[i].spells
        <==> s in spells && s.level == ViewSpells(spells, nameLe).groups[i].level
  {
    var g := ViewSpells(spells, nameLe).groups[i];
    assert s in g.spells <==> s in multiset(g.spells);
    var f := Seqs.Filter(spells, LevelIs(g.level));
    assert s in f <==> s in multiset(f);
  }

  /** Each group is in name order when `nameLe` is a total preorder. */
  lemma GroupsSortedByName(spells: seq<Spell>, nameLe: (Spell, Spell) -> bool, i: nat)
    requires Seqs.TotalPreorder(nameLe)
    requires ViewSpells(spells, nameLe).Groups? && i < |ViewSpells(spells, nameLe).groups|
    ensures Seqs.SortedBy(ViewSpells(spells, nameLe).groups[i].spells, nameLe)
  {
    var levels := AscendingLevels(spells);
    Seqs.SortIsSorted(GroupByLevel(spells)[levels[i]], nameLe);
  }

  /** How many spells the given headings hold together. */
  function CountUnder(spells: seq<Spell>, levels: seq<int>): nat
    decreases |levels|
  {
    if |levels| == 0 then 0 else Seqs.Count(spells, LevelIs(levels[0])) + CountUnder(spells, levels[1..])
  }

  /** How many of the given headings a level matches. */
  function Hits(levels: seq<int>, level: int): nat
    decreases |levels|
  {
    if |levels| == 0 then 0 else (if levels[0] == level then 1 else 0) + Hits(levels[1..], level)
  }

  lemma {:induction false} HitsOnce(levels: seq<int>, level: int)
    requires StrictlyAscending(levels) && level in levels
    ensures Hits(levels, level) == 1
    decreases |levels|
  {
    if levels[0] == level {
      HitsNone(levels[1..], level);
    } else {
      HitsOnce(levels[1..], level);
    }
  }

  lemma {:induction false} HitsNone(levels: seq<int>, level: int)
    requires StrictlyAscending(levels)
    requires forall i :: 0 <= i < |levels| ==> level < levels[i]
    ensures Hits(levels, level) == 0
    decreases |levels|
  {
    if |levels| > 0 {
      HitsNone(levels[1..], level);
    }
  }

  lemma {:induction false} CountUnderStep(spells: seq<Spell>, levels: seq<int>)
    requires |spells| > 0
    ensures CountUnder(spells, levels) == Hits(levels, spells[0].level) + CountUnder(spells[1..], levels)
    decreases |levels|
  {
    if |levels| > 0 {
      CountUnderStep(spells, levels[1..]);
    }
  }

  /** Headings that cover every level, each once, hold every spell once. */
  lemma {:induction false} CountUnderAll(spells: seq<Spell>, levels: seq<int>)
    requires StrictlyAscending(levels)
    requires forall i :: 0 <= i < |spells| ==> spells[i].level in levels
    ensures CountUnder(spells, levels) == |spells|
    decreases |spells|
  {
    if |spells| == 0 {
      CountUnderEmpty(levels);
    } else {
      CountUnderStep(spells, levels);
      HitsOnce(levels, spells[0].level);
      CountUnderAll(spells[1..], levels);
    }
  }

  lemma {:induction false} CountUnderEmpty(levels: seq<int>)
    ensures CountUnder([], levels) == 0
    decreases |levels|
  {
    if |levels| > 0 {
      CountUnderEmpty(levels[1..]);
    }
  }

  /** Sum of the group sizes of a view. */
  function ShownCount(groups: seq<Group>): nat
    decreases |groups|
  {
    if |groups| == 0 then 0 else |groups[0].spells| + ShownCount(groups[1..])
  }

  lemma {:induction false} ShownIsCountUnder(spells: seq<Spell>, groups: seq<Group>, levels: seq<int>)
    requires |groups| == |levels|
    requires forall i :: 0 <= i < |groups| ==>
      multiset(groups[i].spells) == multiset(Seqs.Filter(spells, LevelIs(levels[i])))
    ensures ShownCount(groups) == CountUnder(spells, levels)
    decreases |groups|
  {
    if |groups| > 0 {
      assert |groups[0].spells| == |multiset(groups[0].spells)|;
      ShownIsCountUnder(spells, groups[1..], levels[1..]);
    }
  }

  /** The group sizes add up to the number of spells: nothing lost, nothing
      shown twice. */
  lemma GroupSizesSum(spells: seq<Spell>, nameLe: (Spell, Spell) -> bool)
    requires |spells| > 0
    ensures ShownCount(ViewSpells(spells, nameLe).groups) == |spells|
  {
    var levels := AscendingLevels(spells);
    var v := ViewSpells(spells, nameLe);
    ShownIsCountUnder(spells, v.groups, levels);
    forall i | 0 <= i < |spells|
      ensures spells[i].level in levels
    {
      assert HasLevel(spells, spells[i].level);
    }
    CountUnderAll(spells, levels);
  }

  /** The component list of an expanded spell: V, S and "M (text)". */
  function ComponentList(c: Components): (r: seq<string>)
    ensures "V" in r <==> c.ComponentObject? && c.verbal
    ensures "S" in r <==> c.ComponentObject? && c.somatic
    ensures HasMaterial(c) ==> |r| > 0 && r[|r| - 1] == "M (" + c.material.value + ")"
    ensures |r| == |SpellBrowser.ComponentLetters(c)|
    ensures forall i :: 0 <= i < |r| ==> |r[i]| > 0 && [r[i][0]] == SpellBrowser.ComponentLetters(c)[i]
  {
    match c
    case ComponentObject(verbal, somatic, material) =>
      (if verbal then ["V"] else []) + (if somatic then ["S"] else [])
        + (if HasMaterial(c) then ["M (" + material.value + ")"] else [])
    case _ => []
  }

  /** The Cast button is offered for levelled spells when a handler is given. */
  predicate ShowsCast(spell: Spell, hasHandler: bool) {
    spell.level > 0 && hasHandler
  }
}
