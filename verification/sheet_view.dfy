/** The read-only sheet panels: skill totals, saving-throw totals and the
    combat block. Skill and save panels take their proficiency bonus from
    the shared table lookup for the character's level. */
module SheetView {
  import opened Wrappers
  import Text
  import Sheet
  import Stats

  /** `skills?.[key]?.flag || false`. */
  function SkillFlags(skills: Option<Sheet.Skills>, s: Sheet.Skill): (flags: (bool, bool))
    ensures skills.None? || s !in skills.value ==> flags == (false, false)
    ensures skills.Some? && s in skills.value ==>
      flags == (skills.value[s].proficient, skills.value[s].expertise)
  {
    if skills.Some? && s in skills.value then (skills.value[s].proficient, skills.value[s].expertise)
    else (false, false)
  }

  /** Total bonus of a skill: expertise adds the bonus twice, otherwise
      proficiency adds it once. */
  function SkillTotal(skills: Option<Sheet.Skills>, scores: Sheet.AbilityScores,
                      table: Stats.LevelTable, level: int, s: Sheet.Skill): (total: int)
  {
    var pb := Stats.GetProficiencyBonus(table, level);
    var (isProficient, hasExpertise) := SkillFlags(skills, s);
    var abilityModifier := Stats.CalculateAbilityModifier(Sheet.Score(scores, Sheet.SkillAbility(s)));
    if hasExpertise then abilityModifier + pb * 2
    else if isProficient then abilityModifier + pb
    else abilityModifier
  }

  /** The three outcomes of the skill total, by the stored flags. */
  lemma SkillTotalCases(skills: Option<Sheet.Skills>, scores: Sheet.AbilityScores,
                        table: Stats.LevelTable, level: int, s: Sheet.Skill)
    ensures var total := SkillTotal(skills, scores, table, level, s);
      var pb := Stats.GetProficiencyBonus(table, level);
      var m := Stats.CalculateAbilityModifier(Sheet.Score(scores, Sheet.SkillAbility(s)));
      var stored := skills.Some? && s in skills.value;
      && (stored && skills.value[s].expertise ==> total == m + 2 * pb)
      && (stored && skills.value[s].proficient && !skills.value[s].expertise ==> total == m + pb)
      && (!stored || (!skills.value[s].proficient && !skills.value[s].expertise) ==> total == m)
  {
  }

  /** The stored `bonus` of a skill never reaches the total. */
  lemma SkillBonusFieldIgnored(skills: Sheet.Skills, scores: Sheet.AbilityScores,
                               table: Stats.LevelTable, level: int, s: Sheet.Skill, bonus: int)
    requires s in skills
    ensures SkillTotal(Some(skills[s := skills[s].(bonus := bonus)]), scores, table, level, s)
            == SkillTotal(Some(skills), scores, table, level, s)
  {
  }

  /** A null skills object shows every skill at its bare ability modifier. */
  lemma NullSkillsShowModifiers(scores: Sheet.AbilityScores, table: Stats.LevelTable, level: int, s: Sheet.Skill)
    ensures SkillTotal(None, scores, table, level, s)
            == Stats.CalculateAbilityModifier(Sheet.Score(scores, Sheet.SkillAbility(s)))
  {
  }

  /** The bonus text of a skill row: a sign, then the magnitude. */
  function SkillBonusText(skills: Option<Sheet.Skills>, scores: Sheet.AbilityScores,
                          table: Stats.LevelTable, level: int, s: Sheet.Skill): (text: string)
    ensures var total := SkillTotal(skills, scores, table, level, s);
      |text| >= 2 && (text[0] == '+' <==> total >= 0) && Text.ParseSigned(text) == Some(total)
  {
    Stats.FormatModifier(SkillTotal(skills, scores, table, level, s))
  }

  /** Total bonus of a saving throw: proficiency adds the bonus once. */
  function SaveTotal(saves: Option<Sheet.Saves>, scores: Sheet.AbilityScores,
                     table: Stats.LevelTable, level: int, a: Sheet.Ability): (total: int)
  {
    var pb := Stats.GetProficiencyBonus(table, level);
    var isProficient := saves.Some? && a in saves.value && saves.value[a].proficient;
    var abilityModifier := Stats.CalculateAbilityModifier(Sheet.Score(scores, a));
    if isProficient then abilityModifier + pb else abilityModifier
  }

  /** The save total is the modifier, plus the bonus exactly for a stored
      proficient save; null saves are all non-proficient, and the stored
      `bonus` field is never read. */
  lemma SaveTotalCases(saves: Option<Sheet.Saves>, scores: Sheet.AbilityScores,
                       table: Stats.LevelTable, level: int, a: Sheet.Ability, bonus: int)
    ensures var m := Stats.CalculateAbilityModifier(Sheet.Score(scores, a));
      var pb := Stats.GetProficiencyBonus(table, level);
      var total := SaveTotal(saves, scores, table, level, a);
      && (saves.Some? && a in saves.value && saves.value[a].proficient ==> total == m + pb)
      && (saves.None? || a !in saves.value || !saves.value[a].proficient ==> total == m)
      && (saves.Some? && a in saves.value ==>
            SaveTotal(Some(saves.value[a := saves.value[a].(bonus := bonus)]), scores, table, level, a) == total)
  {
  }

  /** The save row's bonus text. */
  function SaveBonusText(saves: Option<Sheet.Saves>, scores: Sheet.AbilityScores,
                         table: Stats.LevelTable, level: int, a: Sheet.Ability): (text: string)
    ensures var total := SaveTotal(saves, scores, table, level, a);
      |text| >= 2 && (text[0] == '+' <==> total >= 0) && Text.ParseSigned(text) == Some(total)
  {
    Stats.FormatModifier(SaveTotal(saves, scores, table, level, a))
  }

  /** What the combat block shows. `temporary` is absent unless positive. */
  datatype CombatView = CombatView(
    hitPointsCurrent: int, hitPointsMax: int, temporary: Option<int>,
    armorClass: int, initiative: int, initiativeText: string,
    speed: int, proficiencyText: string)

  /** The combat block, every default applied with `??`, so a stored 0 is shown
      as 0 and only a null falls back. */
  function ViewCombat(c: Sheet.Character): (v: CombatView)
    ensures var dexModifier := Stats.CalculateAbilityModifier(c.abilityScores.dexterity);
      && (c.initiativeBonus.Some? ==> v.initiative == c.initiativeBonus.value)
      && (c.initiativeBonus.None? ==> v.initiative == dexModifier)
      && (c.armorClass.Some? ==> v.armorClass == c.armorClass.value)
      && (c.armorClass.None? ==> v.armorClass == 10 + dexModifier)
      && Text.ParseSigned(v.initiativeText) == Some(v.initiative)
    ensures c.hitPointsCurrent.Some? ==> v.hitPointsCurrent == c.hitPointsCurrent.value
    ensures c.hitPointsCurrent.None? ==> v.hitPointsCurrent == v.hitPointsMax
    ensures v.hitPointsMax == if c.hitPointsMax.Some? then c.hitPointsMax.value else 0
    ensures v.temporary.Some? <==> c.temporaryHitPoints > 0
    ensures v.temporary.Some? ==> v.temporary.value == c.temporaryHitPoints
    ensures v.speed == if c.speed.Some? then c.speed.value else 30
    ensures |v.proficiencyText| >= 2 && v.proficiencyText[0] == '+'
    ensures Text.ParseSigned(v.proficiencyText[1..])
            == Some(if c.proficiencyBonus.Some? then c.proficiencyBonus.value else 2)
  {
    var dexModifier := Stats.CalculateAbilityModifier(c.abilityScores.dexterity);
    var initiative := c.initiativeBonus.GetOr(dexModifier);
    var maxHp := c.hitPointsMax.GetOr(0);
    var pb := c.proficiencyBonus.GetOr(2);
    Text.IntToStringRoundTrip(pb);
    assert ("+" + Text.IntToString(pb))[1..] == Text.IntToString(pb);
    CombatView(
      c.hitPointsCurrent.GetOr(maxHp), maxHp,
      if c.temporaryHitPoints > 0 then Some(c.temporaryHitPoints) else None,
      c.armorClass.GetOr(10 + dexModifier), initiative, Stats.FormatModifier(initiative),
      c.speed.GetOr(30), "+" + Text.IntToString(pb))
  }
}
