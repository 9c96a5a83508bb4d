/** What the character detail page's quick-roll buttons add for a skill,
    with the page's list as written and as corrected, compared with the
    skills list on the same page. */
module CharacterDetailRolls {
  import opened Wrappers
  import Sheet
  import Dice
  import Stats
  import QuickRoll
  import SheetView
  import CharacterDetail

  /** As written, a skill counts as proficient exactly when its quick-roll
      key is among the stored keys the page lists. */
  lemma AsWrittenListed(c: Sheet.Character, s: Sheet.Skill)
    ensures QuickRoll.IsProficient(CharacterDetail.DetailProps(c), s) <==>
            c.skills.Some? && Sheet.CamelKey(s) in CharacterDetail.SkillProficienciesAsWritten(c.skills)
  {
    assert QuickRoll.ProficientKeys(CharacterDetail.DetailProps(c)) == CharacterDetail.SkillProficienciesAsWritten(c.skills);
  }

  /** As written, every quick-roll button on the page computes NaN: the page
      hands over the stored scores, keyed `str` … `cha`, and the buttons read
      `strength` … `charisma`, which are undefined there. */
  lemma DetailButtonsShowNaN(c: Sheet.Character, a: Sheet.Ability, s: Sheet.Skill)
    ensures QuickRoll.RollAbilityCheck(CharacterDetail.DetailProps(c), a).modifier == QuickRoll.NaN
    ensures QuickRoll.RollSavingThrow(CharacterDetail.DetailProps(c), a).modifier == QuickRoll.NaN
    ensures QuickRoll.SkillButtonModifier(CharacterDetail.DetailProps(c), s) == QuickRoll.NaN
    ensures QuickRoll.RollSkillCheck(CharacterDetail.DetailProps(c), s).modifier == QuickRoll.NaN
    ensures QuickRoll.ModifierText(QuickRoll.SkillButtonModifier(CharacterDetail.DetailProps(c), s)) == "NaN"
  {
  }

  /** With the scores handed over under the names the buttons read, each
      ability and save button rolls the stored score's modifier. */
  lemma CorrectedAbilityButtons(c: Sheet.Character, a: Sheet.Ability)
    ensures QuickRoll.RollAbilityCheck(CharacterDetail.CorrectedProps(c), a).modifier
            == QuickRoll.Num(Stats.CalculateAbilityModifier(Sheet.Score(c.abilityScores, a)))
    ensures QuickRoll.RollSavingThrow(CharacterDetail.CorrectedProps(c), a).modifier
            == QuickRoll.Num(Stats.CalculateAbilityModifier(Sheet.Score(c.abilityScores, a)))
  {
    Stats.ModifierDefinitionsAgree(Sheet.Score(c.abilityScores, a));
  }

  /** With only the scores handed over correctly, a skill button shows its
      ability's modifier plus the bonus whenever the written list names it. */
  lemma ScoresFixedButton(c: Sheet.Character, s: Sheet.Skill)
    ensures QuickRoll.SkillButtonModifier(CharacterDetail.ScoresFixedProps(c), s)
            == QuickRoll.Num(Dice.GetAbilityModifier(Sheet.Score(c.abilityScores, Sheet.SkillAbility(s)))
               + (if QuickRoll.IsProficient(CharacterDetail.DetailProps(c), s) then Dice.GetProficiencyBonus(c.level) else 0))
  {
    var props := CharacterDetail.DetailProps(c);
    QuickRoll.RescoredButton(props, QuickRoll.LongKeyScores(c.abilityScores), c.abilityScores, s);
    assert QuickRoll.ProficiencyBonus(props) == Dice.GetProficiencyBonus(c.level);
  }

  /** As written, any stored skill with a one-word name is rolled as
      proficient, whatever its `proficient` flag says: its roll is described
      "<name> (Prof)". Were the scores handed over under the right names, a
      stored skill with neither flag would also add the bonus to the skills
      list's total. */
  lemma StoredSkillRolledAsProficient(c: Sheet.Character, table: Stats.LevelTable, s: Sheet.Skill)
    requires c.skills.Some? && s in c.skills.value
    requires s != Sheet.AnimalHandling && s != Sheet.SleightOfHand
    ensures QuickRoll.IsProficient(CharacterDetail.DetailProps(c), s)
    ensures QuickRoll.RollSkillCheck(CharacterDetail.DetailProps(c), s).description
            == Some(Sheet.SkillName(s) + " (Prof)")
    ensures !c.skills.value[s].proficient && !c.skills.value[s].expertise ==>
      QuickRoll.SkillButtonModifier(CharacterDetail.ScoresFixedProps(c), s)
      == QuickRoll.Num(SheetView.SkillTotal(c.skills, c.abilityScores, table, c.level, s) + Dice.GetProficiencyBonus(c.level))
  {
    StoredOneWordListed(c, s);
    if !c.skills.value[s].proficient && !c.skills.value[s].expertise {
      UnflaggedStoredSkillAddsBonus(c, table, s);
    }
  }

  /** A stored skill with a one-word name is on the page's list. */
  lemma StoredOneWordListed(c: Sheet.Character, s: Sheet.Skill)
    requires c.skills.Some? && s in c.skills.value
    requires s != Sheet.AnimalHandling && s != Sheet.SleightOfHand
    ensures QuickRoll.IsProficient(CharacterDetail.DetailProps(c), s)
  {
    AsWrittenListed(c, s);
    Sheet.CamelKeyMatchesStoredKey(s);
  }

  /** With the scores fixed, a stored one-word skill with neither flag adds
      the bonus to the skills list's bare modifier. */
  lemma UnflaggedStoredSkillAddsBonus(c: Sheet.Character, table: Stats.LevelTable, s: Sheet.Skill)
    requires c.skills.Some? && s in c.skills.value
    requires s != Sheet.AnimalHandling && s != Sheet.SleightOfHand
    requires !c.skills.value[s].proficient && !c.skills.value[s].expertise
    ensures QuickRoll.SkillButtonModifier(CharacterDetail.ScoresFixedProps(c), s)
      == QuickRoll.Num(SheetView.SkillTotal(c.skills, c.abilityScores, table, c.level, s) + Dice.GetProficiencyBonus(c.level))
  {
    StoredOneWordListed(c, s);
    ScoresFixedButton(c, s);
    Stats.ModifierDefinitionsAgree(Sheet.Score(c.abilityScores, Sheet.SkillAbility(s)));
    SheetView.SkillTotalCases(c.skills, c.abilityScores, table, c.level, s);
  }

  /** A level-1 character whose only stored skill is Athletics with neither
      flag set. */
  const UnproficientAthlete: Sheet.Character :=
    Sheet.Character(
      "Ayla", 1, 0, Sheet.AbilityScores(10, 10, 10, 10, 10, 10),
      None, None, 0, None, None, None, None, None,
      Some(map[Sheet.Athletics := Sheet.SkillEntry(false, false, 0)]))

  /** For that character the Athletics button is marked proficient and
      shows NaN, while the skills list shows it unproficient at +0. With the
      scores handed over correctly the button would read +2. */
  lemma UnproficientAthleteMarkedProficient(table: Stats.LevelTable)
    ensures QuickRoll.RollSkillCheck(CharacterDetail.DetailProps(UnproficientAthlete), Sheet.Athletics).description
            == Some("Athletics (Prof)")
    ensures QuickRoll.ModifierText(QuickRoll.SkillButtonModifier(CharacterDetail.DetailProps(UnproficientAthlete), Sheet.Athletics))
            == "NaN"
    ensures !SheetView.SkillFlags(UnproficientAthlete.skills, Sheet.Athletics).0
    ensures SheetView.SkillTotal(UnproficientAthlete.skills, UnproficientAthlete.abilityScores,
                                 table, UnproficientAthlete.level, Sheet.Athletics) == 0
    ensures QuickRoll.SkillButtonModifier(CharacterDetail.ScoresFixedProps(UnproficientAthlete), Sheet.Athletics)
            == QuickRoll.Num(2)
  {
    AthleteListedUnflagged(table);
    StoredSkillRolledAsProficient(UnproficientAthlete, table, Sheet.Athletics);
    DetailButtonsShowNaN(UnproficientAthlete, Sheet.Strength, Sheet.Athletics);
  }

  /** The example's stored Athletics entry has neither flag, its level's
      bonus is 2, and the skills list totals it at 0. */
  lemma AthleteListedUnflagged(table: Stats.LevelTable)
    ensures UnproficientAthlete.skills.Some? && Sheet.Athletics in UnproficientAthlete.skills.value
    ensures !UnproficientAthlete.skills.value[Sheet.Athletics].proficient
    ensures !UnproficientAthlete.skills.value[Sheet.Athletics].expertise
    ensures Dice.GetProficiencyBonus(UnproficientAthlete.level) == 2
    ensures !SheetView.SkillFlags(UnproficientAthlete.skills, Sheet.Athletics).0
    ensures SheetView.SkillTotal(UnproficientAthlete.skills, UnproficientAthlete.abilityScores,
                                 table, UnproficientAthlete.level, Sheet.Athletics) == 0
    ensures Sheet.SkillName(Sheet.Athletics) + " (Prof)" == "Athletics (Prof)"
  {
    var c := UnproficientAthlete;
    var s := Sheet.Athletics;
    assert Sheet.Score(c.abilityScores, Sheet.SkillAbility(s)) == 10;
    assert Stats.CalculateAbilityModifier(10) == 0;
    SheetView.SkillTotalCases(c.skills, c.abilityScores, table, c.level, s);
  }

  /** As written, the two two-word skills are never rolled as proficient: the
      page lists them as `animal_handling` and `sleight_of_hand`, and the
      buttons look for `animalHandling` and `sleightOfHand`. Were the scores
      handed over correctly, their buttons would show the bare modifier. */
  lemma TwoWordSkillsNeverProficient(c: Sheet.Character, s: Sheet.Skill)
    requires s == Sheet.AnimalHandling || s == Sheet.SleightOfHand
    ensures !QuickRoll.IsProficient(CharacterDetail.DetailProps(c), s)
    ensures QuickRoll.RollSkillCheck(CharacterDetail.DetailProps(c), s).description == Some(Sheet.SkillName(s))
    ensures QuickRoll.SkillButtonModifier(CharacterDetail.ScoresFixedProps(c), s)
            == QuickRoll.Num(Dice.GetAbilityModifier(Sheet.Score(c.abilityScores, Sheet.SkillAbility(s))))
  {
    AsWrittenListed(c, s);
    Sheet.CamelKeyMatchesStoredKey(s);
    ScoresFixedButton(c, s);
    assert Sheet.SkillName(s) + "" == Sheet.SkillName(s);
  }

  /** With the corrected list a skill counts as proficient exactly when its
      stored `proficient` flag is set. */
  lemma CorrectedListed(c: Sheet.Character, s: Sheet.Skill)
    ensures QuickRoll.IsProficient(CharacterDetail.CorrectedProps(c), s) <==>
            c.skills.Some? && s in c.skills.value && c.skills.value[s].proficient
  {
    assert QuickRoll.ProficientKeys(CharacterDetail.CorrectedProps(c)) == CharacterDetail.SkillProficienciesCorrected(c.skills);
  }

  /** With the corrected inputs a skill button shows a number, and adds the
      bonus exactly when the stored `proficient` flag is set. */
  lemma CorrectedButtonModifier(c: Sheet.Character, s: Sheet.Skill)
    ensures QuickRoll.IsProficient(CharacterDetail.CorrectedProps(c), s) <==>
            c.skills.Some? && s in c.skills.value && c.skills.value[s].proficient
    ensures QuickRoll.SkillButtonModifier(CharacterDetail.CorrectedProps(c), s)
            == QuickRoll.Num(Stats.CalculateAbilityModifier(Sheet.Score(c.abilityScores, Sheet.SkillAbility(s)))
               + (if c.skills.Some? && s in c.skills.value && c.skills.value[s].proficient
                  then Dice.GetProficiencyBonus(c.level) else 0))
  {
    CorrectedListed(c, s);
    CorrectedButtonValue(c, s);
  }

  lemma CorrectedButtonValue(c: Sheet.Character, s: Sheet.Skill)
    ensures QuickRoll.SkillButtonModifier(CharacterDetail.CorrectedProps(c), s)
            == QuickRoll.Num(Stats.CalculateAbilityModifier(Sheet.Score(c.abilityScores, Sheet.SkillAbility(s)))
               + (if c.skills.Some? && s in c.skills.value && c.skills.value[s].proficient
                  then Dice.GetProficiencyBonus(c.level) else 0))
  {
    CorrectedListed(c, s);
    CorrectedButtonOfListing(c, s, c.skills.Some? && s in c.skills.value && c.skills.value[s].proficient);
  }

  /** A corrected button, once its listing is known. */
  lemma CorrectedButtonOfListing(c: Sheet.Character, s: Sheet.Skill, listed: bool)
    requires QuickRoll.IsProficient(CharacterDetail.CorrectedProps(c), s) == listed
    ensures QuickRoll.SkillButtonModifier(CharacterDetail.CorrectedProps(c), s)
            == QuickRoll.Num(Stats.CalculateAbilityModifier(Sheet.Score(c.abilityScores, Sheet.SkillAbility(s)))
               + (if listed then Dice.GetProficiencyBonus(c.level) else 0))
  {
    CorrectedBonus(c);
    QuickRoll.ButtonOfListing(CharacterDetail.CorrectedProps(c), c.abilityScores, s, listed, Dice.GetProficiencyBonus(c.level));
  }

  lemma CorrectedBonus(c: Sheet.Character)
    ensures QuickRoll.ProficiencyBonus(CharacterDetail.CorrectedProps(c)) == Dice.GetProficiencyBonus(c.level)
  {
  }

  /** On levels 1 to 20 the corrected buttons agree with the skills list
      except for expertise, which the buttons do not know about. */
  lemma CorrectedMatchesSkillsList(c: Sheet.Character, table: Stats.LevelTable, s: Sheet.Skill)
    requires Stats.StandardProficiency(table)
    requires 1 <= c.level <= 20
    ensures !(c.skills.Some? && s in c.skills.value && c.skills.value[s].expertise) ==>
      QuickRoll.SkillButtonModifier(CharacterDetail.CorrectedProps(c), s)
      == QuickRoll.Num(SheetView.SkillTotal(c.skills, c.abilityScores, table, c.level, s))
    ensures c.skills.Some? && s in c.skills.value && c.skills.value[s].proficient && c.skills.value[s].expertise ==>
      QuickRoll.SkillButtonModifier(CharacterDetail.CorrectedProps(c), s)
      == QuickRoll.Num(SheetView.SkillTotal(c.skills, c.abilityScores, table, c.level, s) - Dice.GetProficiencyBonus(c.level))
  {
    if c.skills.Some? && s in c.skills.value && c.skills.value[s].expertise {
      CorrectedUnderExpertise(c, table, s);
    } else {
      CorrectedWithoutExpertise(c, table, s);
    }
  }

  lemma CorrectedWithoutExpertise(c: Sheet.Character, table: Stats.LevelTable, s: Sheet.Skill)
    requires Stats.StandardProficiency(table)
    requires 1 <= c.level <= 20
    requires !(c.skills.Some? && s in c.skills.value && c.skills.value[s].expertise)
    ensures QuickRoll.SkillButtonModifier(CharacterDetail.CorrectedProps(c), s)
      == QuickRoll.Num(SheetView.SkillTotal(c.skills, c.abilityScores, table, c.level, s))
  {
    CorrectedButtonModifier(c, s);
    ListedTotal(c, table, s);
  }

  lemma CorrectedUnderExpertise(c: Sheet.Character, table: Stats.LevelTable, s: Sheet.Skill)
    requires Stats.StandardProficiency(table)
    requires 1 <= c.level <= 20
    requires c.skills.Some? && s in c.skills.value && c.skills.value[s].expertise
    ensures c.skills.value[s].proficient ==>
      QuickRoll.SkillButtonModifier(CharacterDetail.CorrectedProps(c), s)
      == QuickRoll.Num(SheetView.SkillTotal(c.skills, c.abilityScores, table, c.level, s) - Dice.GetProficiencyBonus(c.level))
  {
    CorrectedButtonModifier(c, s);
    ListedTotal(c, table, s);
  }

  /** The skills list's total on levels 1 to 20, in the dice engine's terms:
      the modifier, plus the bonus when proficient, plus it once more under
      expertise. */
  lemma ListedTotal(c: Sheet.Character, table: Stats.LevelTable, s: Sheet.Skill)
    requires Stats.StandardProficiency(table)
    requires 1 <= c.level <= 20
    ensures var stored := c.skills.Some? && s in c.skills.value;
      var pb := Dice.GetProficiencyBonus(c.level);
      SheetView.SkillTotal(c.skills, c.abilityScores, table, c.level, s)
      == Stats.CalculateAbilityModifier(Sheet.Score(c.abilityScores, Sheet.SkillAbility(s)))
         + (if stored && c.skills.value[s].expertise then 2 * pb
            else if stored && c.skills.value[s].proficient then pb else 0)
  {
    Stats.ProficiencySourcesAgree(table, c.level);
    SheetView.SkillTotalCases(c.skills, c.abilityScores, table, c.level, s);
  }
}
