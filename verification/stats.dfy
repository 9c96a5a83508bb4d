/** The shared derived-stat arithmetic: ability modifiers, the two lookup
    tables for proficiency and experience, signed modifier text and the
    breakdown of a copper amount into coins. The two tables live outside
    this code and are parameters here; a level absent from a table reads as
    JavaScript's `undefined`. */
module Stats {
  import opened Wrappers
  import Text
  import Dice
  import Sheet

  /** A level-indexed table (proficiency bonus or experience threshold). */
  type LevelTable = map<int, int>

  /** `floor((score - 10) / 2)`. */
  function CalculateAbilityModifier(score: int): (m: int)
    ensures 2 * m <= score - 10 < 2 * m + 2
  {
    (score - 10) / 2
  }

  /** The shared modifier and the dice engine's modifier are the same function. */
  lemma ModifierDefinitionsAgree(score: int)
    ensures CalculateAbilityModifier(score) == Dice.GetAbilityModifier(score)
  {
  }

  /** The modifier of each of the six scores. */
  function CalculateAbilityModifiers(scores: Sheet.AbilityScores): (mods: map<Sheet.Ability, int>)
    ensures forall a: Sheet.Ability :: a in mods
    ensures forall a :: a in mods ==> mods[a] == CalculateAbilityModifier(Sheet.Score(scores, a))
  {
    Sheet.TablesComplete();
    map a: Sheet.Ability | a in Sheet.AllAbilities :: CalculateAbilityModifier(Sheet.Score(scores, a))
  }

  /** Raising a score never lowers its modifier, and two more points add one. */
  lemma AbilityModifierSteps(s: int, t: int)
    ensures s <= t ==> CalculateAbilityModifier(s) <= CalculateAbilityModifier(t)
    ensures CalculateAbilityModifier(s + 2) == CalculateAbilityModifier(s) + 1
  {
  }

  /** `PROFICIENCY_BY_LEVEL[level] || 2`: a missing or zero entry gives 2. */
  function GetProficiencyBonus(table: LevelTable, level: int): (pb: int)
    ensures level in table && table[level] != 0 ==> pb == table[level]
    ensures !(level in table && table[level] != 0) ==> pb == 2
    ensures pb != 0
  {
    if level in table && table[level] != 0 then table[level] else 2
  }

  /** A proficiency table that holds the rule-book values on levels 1 to 20. */
  ghost predicate StandardProficiency(table: LevelTable) {
    forall l :: 1 <= l <= 20 ==> l in table && table[l] == Dice.GetProficiencyBonus(l)
  }

  /** With the rule-book table, the table lookup and the dice engine's
      formula agree on every level from 1 to 20. */
  lemma ProficiencySourcesAgree(table: LevelTable, level: int)
    requires StandardProficiency(table)
    requires 1 <= level <= 20
    ensures GetProficiencyBonus(table, level) == Dice.GetProficiencyBonus(level)
    ensures 2 <= GetProficiencyBonus(table, level) <= 6
  {
    Dice.ProficiencyBands(level);
  }

  /** Off the table they part: at level 0 the lookup falls back to 2 while
      the formula gives 1, and at level 21 the formula gives 7. */
  lemma ProficiencySourcesDiffer(table: LevelTable)
    requires StandardProficiency(table) && 0 !in table && 21 !in table
    ensures GetProficiencyBonus(table, 0) == 2 && Dice.GetProficiencyBonus(0) == 1
    ensures GetProficiencyBonus(table, 21) == 2 && Dice.GetProficiencyBonus(21) == 7
  {
  }

  /** `EXPERIENCE_BY_LEVEL[level >= 20 ? 20 : level + 1]`; `None` is `undefined`. */
  function GetXPForNextLevel(table: LevelTable, currentLevel: int): (xp: Option<int>)
    ensures var key := if currentLevel >= 20 then 20 else currentLevel + 1;
      (xp.Some? <==> key in table) && (xp.Some? ==> xp.value == table[key])
  {
    var key := if currentLevel >= 20 then 20 else currentLevel + 1;
    if key in table then Some(table[key]) else None
  }

  /** `xp >= EXPERIENCE_BY_LEVEL[level]`; comparing with `undefined` is false. */
  predicate Reached(table: LevelTable, xp: int, level: int) {
    level in table && xp >= table[level]
  }

  /** The downward scan of `getLevelFromXP` from level `from`. */
  function LevelSearch(table: LevelTable, xp: int, from: int): (level: int)
    requires 0 <= from <= 20
    ensures 1 <= level <= 20 && (level <= from || level == 1)
    ensures Reached(table, xp, level) || level == 1
    ensures forall l :: level < l <= from ==> !Reached(table, xp, l)
    decreases from
  {
    if from == 0 then 1
    else if Reached(table, xp, from) then from
    else LevelSearch(table, xp, from - 1)
  }

  /** The highest level from 20 down to 1 whose threshold `xp` reaches, else 1. */
  function GetLevelFromXP(table: LevelTable, xp: int): (level: int)
    ensures 1 <= level <= 20
    ensures Reached(table, xp, level) || level == 1
    ensures forall l :: level < l <= 20 ==> !Reached(table, xp, l)
  {
    LevelSearch(table, xp, 20)
  }

  /** More experience never means a lower level, whatever the table. */
  lemma LevelMonotone(table: LevelTable, xp1: int, xp2: int)
    requires xp1 <= xp2
    ensures GetLevelFromXP(table, xp1) <= GetLevelFromXP(table, xp2)
  {
    var l1 := GetLevelFromXP(table, xp1);
    var l2 := GetLevelFromXP(table, xp2);
    if l1 > l2 {
      assert Reached(table, xp2, l1);
    }
  }

  /** A table with every level 1..20 present and thresholds strictly rising. */
  ghost predicate AscendingThresholds(table: LevelTable) {
    && (forall l :: 1 <= l <= 20 ==> l in table)
    && (forall l, m :: 1 <= l < m <= 20 && l in table && m in table ==> table[l] < table[m])
  }

  /** With a rising table, the experience needed for the next level is
      exactly the amount at which that level is reached. */
  lemma NextLevelThresholdReachesNextLevel(table: LevelTable, level: int)
    requires AscendingThresholds(table)
    requires 1 <= level < 20
    ensures GetXPForNextLevel(table, level).Some?
    ensures GetLevelFromXP(table, GetXPForNextLevel(table, level).value) == level + 1
  {
    assert level + 1 in table;
    var xp := table[level + 1];
    var found := GetLevelFromXP(table, xp);
    assert Reached(table, xp, level + 1);
  }

  /** `formatModifier`: a '+' in front of every non-negative value, "+0" included. */
  function FormatModifier(modifier: int): (text: string)
    ensures |text| >= 2 && (text[0] == '+' <==> modifier >= 0) && (text[0] == '-' <==> modifier < 0)
    ensures Text.ParseSigned(text) == Some(modifier)
  {
    if modifier >= 0 then
      Text.PlusIntToStringRoundTrip(modifier);
      "+" + Text.IntToString(modifier)
    else
      Text.IntToStringRoundTrip(modifier);
      Text.IntToString(modifier)
  }

  /** `calculateCarryingCapacity`: fifteen pounds per point of Strength. */
  function CalculateCarryingCapacity(strength: int): int {
    strength * 15
  }

  /** A coin purse: platinum, gold, silver and copper pieces. */
  datatype Coins = Coins(pp: int, gp: int, sp: int, cp: int)

  /** Value of a purse in copper: 1 pp = 10 gp = 100 sp = 1000 cp. */
  function CopperValue(c: Coins): int {
    1000 * c.pp + 100 * c.gp + 10 * c.sp + c.cp
  }

  /** A purse in which gold, silver and copper each stay below ten pieces. */
  predicate Normalised(c: Coins) {
    0 <= c.gp <= 9 && 0 <= c.sp <= 9 && 0 <= c.cp <= 9
  }

  /** The greedy breakdown of `convertGoldToCurrency`, from a whole number of
      copper pieces: as many platinum as fit, then gold, then silver. */
  function ConvertCopperToCurrency(copper: int): (c: Coins)
    ensures CopperValue(c) == copper
    ensures Normalised(c)
  {
    var pp := copper / 1000;
    var afterPp := copper - pp * 1000;
    var gp := afterPp / 100;
    var afterGp := afterPp - gp * 100;
    var sp := afterGp / 10;
    Coins(pp, gp, sp, afterGp - sp * 10)
  }

  /** A normalised purse is determined by its value, so the greedy breakdown
      is the only one. */
  lemma BreakdownUnique(copper: int, c: Coins)
    requires CopperValue(c) == copper && Normalised(c)
    ensures c == ConvertCopperToCurrency(copper)
  {
    var g := ConvertCopperToCurrency(copper);
    var low := 100 * c.gp + 10 * c.sp + c.cp;
    var lowG := 100 * g.gp + 10 * g.sp + g.cp;
    assert 0 <= low < 1000 && 0 <= lowG < 1000;
    assert c.pp == g.pp;
    assert c.gp == g.gp;
    assert c.sp == g.sp;
  }

  /** Breaking down a normalised purse's value gives the purse back. */
  lemma BreakdownOfValue(c: Coins)
    requires Normalised(c)
    ensures ConvertCopperToCurrency(CopperValue(c)) == c
  {
    BreakdownUnique(CopperValue(c), c);
  }
}
