/** The character-sheet vocabulary shared by the sheet components: the six
    abilities, the eighteen skills with their governing abilities and their
    two spellings of keys, and the stored proficiency records. */
module Sheet {
  import opened Wrappers

  datatype Ability = Strength | Dexterity | Constitution | Intelligence | Wisdom | Charisma

  const AllAbilities: seq<Ability> :=
    [Strength, Dexterity, Constitution, Intelligence, Wisdom, Charisma]

  /** The six scores of a character. */
  datatype AbilityScores = AbilityScores(
    strength: int, dexterity: int, constitution: int,
    intelligence: int, wisdom: int, charisma: int)

  function Score(scores: AbilityScores, a: Ability): int {
    match a
    case Strength => scores.strength
    case Dexterity => scores.dexterity
    case Constitution => scores.constitution
    case Intelligence => scores.intelligence
    case Wisdom => scores.wisdom
    case Charisma => scores.charisma
  }

  /** Three-letter tag used on the quick-roll buttons and in roll descriptions. */
  function AbilityAbbr(a: Ability): string {
    match a
    case Strength => "STR"
    case Dexterity => "DEX"
    case Constitution => "CON"
    case Intelligence => "INT"
    case Wisdom => "WIS"
    case Charisma => "CHA"
  }

  /** The property name of an ability in a stored scores object and in the
      edit form's schema: its three-letter name in lower case. */
  function AbilityKey(a: Ability): (k: string)
    ensures |k| == 3
  {
    match a
    case Strength => "str"
    case Dexterity => "dex"
    case Constitution => "con"
    case Intelligence => "int"
    case Wisdom => "wis"
    case Charisma => "cha"
  }

  datatype Skill =
    | Acrobatics | AnimalHandling | Arcana | Athletics | Deception | History
    | Insight | Intimidation | Investigation | Medicine | Nature | Perception
    | Performance | Persuasion | Religion | SleightOfHand | Stealth | Survival

  /** The skills in the order every sheet component lists them. */
  const AllSkills: seq<Skill> := [
    Acrobatics, AnimalHandling, Arcana, Athletics, Deception, History,
    Insight, Intimidation, Investigation, Medicine, Nature, Perception,
    Performance, Persuasion, Religion, SleightOfHand, Stealth, Survival]

  /** The ability each skill is rolled with. */
  function SkillAbility(s: Skill): Ability {
    match s
    case Acrobatics => Dexterity
    case AnimalHandling => Wisdom
    case Arcana => Intelligence
    case Athletics => Strength
    case Deception => Charisma
    case History => Intelligence
    case Insight => Wisdom
    case Intimidation => Charisma
    case Investigation => Intelligence
    case Medicine => Wisdom
    case Nature => Intelligence
    case Perception => Wisdom
    case Performance => Charisma
    case Persuasion => Charisma
    case Religion => Intelligence
    case SleightOfHand => Dexterity
    case Stealth => Dexterity
    case Survival => Wisdom
  }

  /** Key of a skill in the stored skills object. */
  function SnakeKey(s: Skill): string {
    match s
    case Acrobatics => "acrobatics"
    case AnimalHandling => "animal_handling"
    case Arcana => "arcana"
    case Athletics => "athletics"
    case Deception => "deception"
    case History => "history"
    case Insight => "insight"
    case Intimidation => "intimidation"
    case Investigation => "investigation"
    case Medicine => "medicine"
    case Nature => "nature"
    case Perception => "perception"
    case Performance => "performance"
    case Persuasion => "persuasion"
    case Religion => "religion"
    case SleightOfHand => "sleight_of_hand"
    case Stealth => "stealth"
    case Survival => "survival"
  }

  /** Key of a skill in the quick-roll buttons' table. */
  function CamelKey(s: Skill): string {
    match s
    case AnimalHandling => "animalHandling"
    case SleightOfHand => "sleightOfHand"
    case _ => SnakeKey(s)
  }

  /** The skill a stored key names, if any. */
  function SkillOfSnakeKey(k: string): Option<Skill> {
    match k
    case "acrobatics" => Some(Acrobatics)
    case "animal_handling" => Some(AnimalHandling)
    case "arcana" => Some(Arcana)
    case "athletics" => Some(Athletics)
    case "deception" => Some(Deception)
    case "history" => Some(History)
    case "insight" => Some(Insight)
    case "intimidation" => Some(Intimidation)
    case "investigation" => Some(Investigation)
    case "medicine" => Some(Medicine)
    case "nature" => Some(Nature)
    case "perception" => Some(Perception)
    case "performance" => Some(Performance)
    case "persuasion" => Some(Persuasion)
    case "religion" => Some(Religion)
    case "sleight_of_hand" => Some(SleightOfHand)
    case "stealth" => Some(Stealth)
    case "survival" => Some(Survival)
    case _ => None
  }

  /** The skill a quick-roll key names, if any. */
  function SkillOfCamelKey(k: string): Option<Skill> {
    match k
    case "animalHandling" => Some(AnimalHandling)
    case "sleightOfHand" => Some(SleightOfHand)
    case "animal_handling" => None
    case "sleight_of_hand" => None
    case _ => SkillOfSnakeKey(k)
  }

  /** Display name of a skill. */
  function SkillName(s: Skill): string {
    match s
    case Acrobatics => "Acrobatics"
    case AnimalHandling => "Animal Handling"
    case Arcana => "Arcana"
    case Athletics => "Athletics"
    case Deception => "Deception"
    case History => "History"
    case Insight => "Insight"
    case Intimidation => "Intimidation"
    case Investigation => "Investigation"
    case Medicine => "Medicine"
    case Nature => "Nature"
    case Perception => "Perception"
    case Performance => "Performance"
    case Persuasion => "Persuasion"
    case Religion => "Religion"
    case SleightOfHand => "Sleight of Hand"
    case Stealth => "Stealth"
    case Survival => "Survival"
  }

  /** One stored skill: proficiency, expertise and a bonus field. */
  datatype SkillEntry = SkillEntry(proficient: bool, expertise: bool, bonus: int)

  /** One stored saving throw. */
  datatype SaveEntry = SaveEntry(proficient: bool, bonus: int)

  /** The stored skills object; a skill absent from the map is an absent key. */
  type Skills = map<Skill, SkillEntry>

  /** The stored saving-throws object. */
  type Saves = map<Ability, SaveEntry>

  /** Position of a skill in `AllSkills`. */
  function SkillIndex(s: Skill): (i: nat)
    ensures i < |AllSkills| && AllSkills[i] == s
  {
    match s
    case Acrobatics => 0
    case AnimalHandling => 1
    case Arcana => 2
    case Athletics => 3
    case Deception => 4
    case History => 5
    case Insight => 6
    case Intimidation => 7
    case Investigation => 8
    case Medicine => 9
    case Nature => 10
    case Perception => 11
    case Performance => 12
    case Persuasion => 13
    case Religion => 14
    case SleightOfHand => 15
    case Stealth => 16
    case Survival => 17
  }

  /** Position of an ability in `AllAbilities`. */
  function AbilityIndex(a: Ability): (i: nat)
    ensures i < |AllAbilities| && AllAbilities[i] == a
  {
    match a
    case Strength => 0
    case Dexterity => 1
    case Constitution => 2
    case Intelligence => 3
    case Wisdom => 4
    case Charisma => 5
  }

  /** The stored character fields the sheet components read. `None` is a
      SQL null. */
  datatype Character = Character(
    name: string,
    level: int,
    experiencePoints: int,
    abilityScores: AbilityScores,
    hitPointsMax: Option<int>,
    hitPointsCurrent: Option<int>,
    temporaryHitPoints: int,
    armorClass: Option<int>,
    initiativeBonus: Option<int>,
    speed: Option<int>,
    proficiencyBonus: Option<int>,
    savingThrows: Option<Saves>,
    skills: Option<Skills>)

  /** The tables list each skill and each ability exactly once. */
  lemma TablesComplete()
    ensures |AllSkills| == 18 && |AllAbilities| == 6
    ensures forall s: Skill :: s in AllSkills
    ensures forall a: Ability :: a in AllAbilities
    ensures forall i, j :: 0 <= i < j < |AllSkills| ==> AllSkills[i] != AllSkills[j]
    ensures forall i, j :: 0 <= i < j < |AllAbilities| ==> AllAbilities[i] != AllAbilities[j]
  {
    forall s: Skill
      ensures s in AllSkills
    {
      var i := SkillIndex(s);
    }
    forall a: Ability
      ensures a in AllAbilities
    {
      var i := AbilityIndex(a);
    }
  }

  /** A stored key reads back as its skill. */
  lemma SnakeKeyRoundTrip(s: Skill)
    ensures SkillOfSnakeKey(SnakeKey(s)) == Some(s)
  {
  }

  /** A quick-roll key reads back as its skill. */
  lemma CamelKeyRoundTrip(s: Skill)
    ensures SkillOfCamelKey(CamelKey(s)) == Some(s)
  {
  }

  /** Every stored key names one skill. */
  lemma SnakeKeysDistinct(s: Skill, t: Skill)
    ensures SnakeKey(s) == SnakeKey(t) <==> s == t
  {
    SnakeKeyRoundTrip(s);
    SnakeKeyRoundTrip(t);
  }

  /** Every quick-roll key names one skill. */
  lemma CamelKeysDistinct(s: Skill, t: Skill)
    ensures CamelKey(s) == CamelKey(t) <==> s == t
  {
    CamelKeyRoundTrip(s);
    CamelKeyRoundTrip(t);
  }

  /** The two spellings agree on every skill but the two two-word ones, whose
      quick-roll spelling matches no stored key at all. */
  lemma CamelKeyMatchesStoredKey(s: Skill)
    ensures CamelKey(s) == SnakeKey(s) <==> s != AnimalHandling && s != SleightOfHand
    ensures (s == AnimalHandling || s == SleightOfHand) ==> forall t :: SnakeKey(t) != CamelKey(s)
  {
  }
}
