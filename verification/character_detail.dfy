/** The character detail page: the inputs it hands to the quick-roll
    buttons. The page derives the proficiency bonus from the level with the
    dice engine's formula and lists the skills the character is proficient
    in, by key, from the stored skills object. */
module CharacterDetail {
  import opened Wrappers
  import Sheet
  import Dice
  import Stats
  import QuickRoll
  import SheetView

  /** `character ? getProficiencyBonus(character.level) : 0`. */
  function DetailProficiency(c: Option<Sheet.Character>): (pb: int)
    ensures c.None? ==> pb == 0
    ensures c.Some? ==> 4 * (pb - 2) < c.value.level <= 4 * (pb - 1)
  {
    match c
    case None => 0
    case Some(ch) => Dice.GetProficiencyBonus(ch.level)
  }

  /** On levels 1 to 20 the page's bonus is the one the skills list uses
      with the rule-book table; the stored proficiency-bonus column is read
      by neither. */
  lemma DetailProficiencyMatchesSheet(c: Sheet.Character, table: Stats.LevelTable)
    requires Stats.StandardProficiency(table)
    requires 1 <= c.level <= 20
    ensures DetailProficiency(Some(c)) == Stats.GetProficiencyBonus(table, c.level)
    ensures 2 <= DetailProficiency(Some(c)) <= 6
  {
    Stats.ProficiencySourcesAgree(table, c.level);
  }

  /** The keys, in list order, of the skills `keep` selects. */
  function KeyList(list: seq<Sheet.Skill>, keep: Sheet.Skill -> bool, key: Sheet.Skill -> string): (keys: seq<string>)
    ensures |keys| <= |list|
  {
    if list == [] then []
    else (if keep(list[0]) then [key(list[0])] else []) + KeyList(list[1..], keep, key)
  }

  /** Every listed key is the key of a selected skill, and every selected
      skill's key is listed. */
  lemma {:induction false} KeyListContents(list: seq<Sheet.Skill>, keep: Sheet.Skill -> bool, key: Sheet.Skill -> string)
    ensures forall k :: k in KeyList(list, keep, key) ==> exists s :: s in list && keep(s) && key(s) == k
    ensures forall s :: s in list && keep(s) ==> key(s) in KeyList(list, keep, key)
    decreases |list|
  {
    if list != [] {
      KeyListContents(list[1..], keep, key);
      assert forall s :: s in list[1..] ==> s in list;
      assert forall s :: s in list ==> s == list[0] || s in list[1..];
    }
  }

  /** With an injective key, a skill's key is listed exactly when the skill
      is selected. */
  lemma KeyListOfInjective(keep: Sheet.Skill -> bool, key: Sheet.Skill -> string)
    requires forall s, t :: key(s) == key(t) ==> s == t
    ensures forall s :: key(s) in KeyList(Sheet.AllSkills, keep, key) <==> keep(s)
  {
    Sheet.TablesComplete();
    KeyListContents(Sheet.AllSkills, keep, key);
  }

  lemma SnakeKeysInjective()
    ensures forall s, t :: Sheet.SnakeKey(s) == Sheet.SnakeKey(t) ==> s == t
  {
    forall s, t ensures Sheet.SnakeKey(s) == Sheet.SnakeKey(t) ==> s == t {
      Sheet.SnakeKeysDistinct(s, t);
    }
  }

  lemma CamelKeysInjective()
    ensures forall s, t :: Sheet.CamelKey(s) == Sheet.CamelKey(t) ==> s == t
  {
    forall s, t ensures Sheet.CamelKey(s) == Sheet.CamelKey(t) ==> s == t {
      Sheet.CamelKeysDistinct(s, t);
    }
  }

  /** The test the page applies to an entry of the skills object: the entry
      is an object, and every object is truthy, so a present key passes. */
  function StoredIn(m: Sheet.Skills): Sheet.Skill -> bool {
    s => s in m
  }

  /** The test the page evidently means: the entry's `proficient` flag. */
  function MarkedProficient(m: Sheet.Skills): Sheet.Skill -> bool {
    s => s in m && m[s].proficient
  }

  /** `Object.entries(skills).filter(([_, p]) => p).map(([k, _]) => k)`, as
      written: the key of every stored skill, in snake case. */
  function SkillProficienciesAsWritten(skills: Option<Sheet.Skills>): (keys: seq<string>)
    ensures skills.None? ==> keys == []
    ensures skills.Some? ==> forall k :: k in keys ==> exists t :: t in skills.value && Sheet.SnakeKey(t) == k
    ensures skills.Some? ==> forall s :: Sheet.SnakeKey(s) in keys <==> s in skills.value
  {
    match skills
    case None => []
    case Some(m) =>
      var keys := KeyList(Sheet.AllSkills, StoredIn(m), Sheet.SnakeKey);
      assert forall s :: Sheet.SnakeKey(s) in keys <==> s in m by {
        SnakeKeysInjective();
        KeyListOfInjective(StoredIn(m), Sheet.SnakeKey);
      }
      assert forall k :: k in keys ==> exists t :: t in m && Sheet.SnakeKey(t) == k by {
        KeyListContents(Sheet.AllSkills, StoredIn(m), Sheet.SnakeKey);
      }
      keys
  }

  /** `character.ability_scores` as the object the page holds: the shared
      `AbilityScores` type keys the six scores by their three-letter names,
      and has no other property. */
  function StoredScoreObject(scores: Sheet.AbilityScores): (o: QuickRoll.ScoreObject)
    ensures forall a :: QuickRoll.Short(a) in o && o[QuickRoll.Short(a)] == Sheet.Score(scores, a)
    ensures forall p :: p in o ==> p.Short?
  {
    assert forall a :: a in Sheet.AllAbilities by {
      forall a ensures a in Sheet.AllAbilities {
        var i := Sheet.AbilityIndex(a);
      }
    }
    map a | a in Sheet.AllAbilities :: QuickRoll.Short(a) := Sheet.Score(scores, a)
  }

  /** The quick-roll inputs the page builds, as written: the stored scores
      object, the dice engine's bonus and the page's key list. */
  function DetailProps(c: Sheet.Character): (props: QuickRoll.Props)
    ensures forall a :: QuickRoll.ScoreKey(a) !in props.abilityScores
    ensures props.proficiencyBonus == Some(DetailProficiency(Some(c)))
    ensures props.skillProficiencies == Some(SkillProficienciesAsWritten(c.skills))
  {
    QuickRoll.Props(StoredScoreObject(c.abilityScores), Some(DetailProficiency(Some(c))), Some(SkillProficienciesAsWritten(c.skills)))
  }

  /** The page's inputs with only the scores handed over under the names the
      buttons read; the key list is still the one written. */
  function ScoresFixedProps(c: Sheet.Character): QuickRoll.Props {
    DetailProps(c).(abilityScores := QuickRoll.LongKeyScores(c.abilityScores))
  }

  /** The quick-roll keys of the stored skills whose `proficient` flag is set. */
  function FlaggedCamelKeys(m: Sheet.Skills): (keys: seq<string>)
    ensures forall s :: Sheet.CamelKey(s) in keys <==> s in m && m[s].proficient
  {
    var keys := KeyList(Sheet.AllSkills, MarkedProficient(m), Sheet.CamelKey);
    assert forall s :: Sheet.CamelKey(s) in keys <==> s in m && m[s].proficient by {
      CamelKeysInjective();
      KeyListOfInjective(MarkedProficient(m), Sheet.CamelKey);
    }
    keys
  }

  /** The corrected list: the quick-roll key of every skill whose
      `proficient` flag is set. */
  function SkillProficienciesCorrected(skills: Option<Sheet.Skills>): (keys: seq<string>)
    ensures skills.None? ==> keys == []
    ensures skills.Some? ==> forall s :: Sheet.CamelKey(s) in keys <==> s in skills.value && skills.value[s].proficient
  {
    match skills
    case None => []
    case Some(m) => FlaggedCamelKeys(m)
  }

  /** The corrected quick-roll inputs: the scores under the names the
      buttons read, and the corrected key list. */
  function CorrectedProps(c: Sheet.Character): (props: QuickRoll.Props)
    ensures forall a :: (QuickRoll.ScoreKey(a) in props.abilityScores
      && props.abilityScores[QuickRoll.ScoreKey(a)] == Sheet.Score(c.abilityScores, a))
    ensures props.proficiencyBonus == Some(DetailProficiency(Some(c)))
    ensures props.skillProficiencies == Some(SkillProficienciesCorrected(c.skills))
  {
    QuickRoll.Props(QuickRoll.LongKeyScores(c.abilityScores), Some(DetailProficiency(Some(c))), Some(SkillProficienciesCorrected(c.skills)))
  }
}
