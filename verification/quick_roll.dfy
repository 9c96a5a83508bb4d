/** The quick-roll buttons: how an ability check, a saving throw and a skill
    check are turned into a roll request. Every request is one d20 in normal
    mode; only the modifier and the description vary. The scores arrive as a
    plain object read by property name, so a missing property is `undefined`
    and the modifier computed from it is NaN. */
module QuickRoll {
  import opened Wrappers
  import Dice
  import Sheet
  import Stats
  import Text

  /** The property names a scores object can carry: an ability's
      three-letter name (`str`) or its full name (`strength`). */
  datatype PropName = Short(ability: Sheet.Ability) | Long(ability: Sheet.Ability)

  /** A property name as written in the source. */
  function PropText(p: PropName): (text: string)
    ensures p.Short? <==> |text| == 3
  {
    match p
    case Short(a) => Sheet.AbilityKey(a)
    case Long(a) => LongName(a)
  }

  function LongName(a: Sheet.Ability): (k: string)
    ensures |k| >= 6
  {
    match a
    case Strength => "strength"
    case Dexterity => "dexterity"
    case Constitution => "constitution"
    case Intelligence => "intelligence"
    case Wisdom => "wisdom"
    case Charisma => "charisma"
  }

  /** A JavaScript object of numbers, by property name. */
  type ScoreObject = map<PropName, int>

  /** A number as the buttons compute it: an integer, or NaN once an
      undefined score has entered the arithmetic. */
  datatype Num = Num(value: int) | NaN

  /** The component's inputs; the two optional ones default to 0 and []. */
  datatype Props = Props(
    abilityScores: ScoreObject,
    proficiencyBonus: Option<int>,
    skillProficiencies: Option<seq<string>>)

  /** The property the component reads for an ability (`skill.ability` and
      the keys of `ABILITY_NAMES`): the full name. */
  function ScoreKey(a: Sheet.Ability): PropName {
    Long(a)
  }

  /** The scores object the component's own interface declares: each score
      under its ability's full name. */
  function LongKeyScores(scores: Sheet.AbilityScores): (o: ScoreObject)
    ensures forall a :: ScoreKey(a) in o && o[ScoreKey(a)] == Sheet.Score(scores, a)
    ensures forall p :: p in o ==> p.Long?
  {
    assert forall a :: a in Sheet.AllAbilities by {
      forall a ensures a in Sheet.AllAbilities {
        var i := Sheet.AbilityIndex(a);
      }
    }
    map a | a in Sheet.AllAbilities :: Long(a) := Sheet.Score(scores, a)
  }

  function ProficiencyBonus(props: Props): int {
    props.proficiencyBonus.GetOr(0)
  }

  function ProficientKeys(props: Props): seq<string> {
    props.skillProficiencies.GetOr([])
  }

  /** A skill counts as proficient when its quick-roll key is in the list. */
  predicate IsProficient(props: Props, s: Sheet.Skill) {
    Sheet.CamelKey(s) in ProficientKeys(props)
  }

  /** `getAbilityModifier(abilityScores[ability])`: `Math.floor` of an
      undefined score is NaN. */
  function AbilityModifier(props: Props, a: Sheet.Ability): (m: Num)
    ensures m.NaN? <==> ScoreKey(a) !in props.abilityScores
    ensures m.Num? ==> 2 * m.value <= props.abilityScores[ScoreKey(a)] - 10 < 2 * m.value + 2
  {
    var key := ScoreKey(a);
    if key in props.abilityScores then Num(Dice.GetAbilityModifier(props.abilityScores[key])) else NaN
  }

  /** JavaScript `+` of a number and an integer: NaN stays NaN. */
  function Plus(m: Num, k: int): (r: Num)
    ensures r.NaN? <==> m.NaN?
    ensures m.Num? ==> r.value - m.value == k
  {
    match m
    case NaN => NaN
    case Num(v) => Num(v + k)
  }

  /** What a button prints, `{modifier >= 0 ? '+' : ''}{modifier}`: NaN
      fails the test and prints as "NaN". */
  function ModifierText(m: Num): (text: string)
    ensures text == "NaN" <==> m.NaN?
    ensures m.Num? ==> Text.ParseSigned(text) == Some(m.value)
  {
    match m
    case NaN => "NaN"
    case Num(v) => Stats.FormatModifier(v)
  }

  /** A quick-roll request: `DiceRoll` with a modifier that may be NaN. */
  datatype Request = Request(
    diceType: Dice.DiceType,
    numDice: int,
    modifier: Num,
    mode: Dice.RollMode,
    description: Option<string>)

  /** A plain d20 request. */
  function D20Roll(modifier: Num, description: string): (r: Request)
    ensures r.diceType == Dice.D20 && r.numDice == 1 && r.mode == Dice.Normal
    ensures r.modifier == modifier && r.description == Some(description)
  {
    Request(Dice.D20, 1, modifier, Dice.Normal, Some(description))
  }

  /** The engine's request, for a request whose modifier is a number. */
  function ToDiceRoll(q: Request): (p: Dice.DiceRoll)
    requires q.modifier.Num?
    ensures p.diceType == q.diceType && p.numDice == q.numDice && p.mode == q.mode
    ensures p.modifier == q.modifier.value && p.description == q.description
  {
    Dice.DiceRoll(q.diceType, q.numDice, q.modifier.value, q.mode, q.description)
  }

  /** `rollAbilityCheck`. */
  function RollAbilityCheck(props: Props, a: Sheet.Ability): (r: Request)
    ensures r.diceType == Dice.D20 && r.numDice == 1 && r.mode == Dice.Normal
    ensures r.modifier.NaN? <==> ScoreKey(a) !in props.abilityScores
    ensures r.modifier.Num? ==> r.modifier.value == Dice.GetAbilityModifier(props.abilityScores[ScoreKey(a)])
    ensures r.description == Some(Sheet.AbilityAbbr(a) + " Check")
  {
    D20Roll(AbilityModifier(props, a), Sheet.AbilityAbbr(a) + " Check")
  }

  /** `rollSavingThrow`. */
  function RollSavingThrow(props: Props, a: Sheet.Ability): (r: Request)
    ensures r.diceType == Dice.D20 && r.numDice == 1 && r.mode == Dice.Normal
    ensures r.modifier.NaN? <==> ScoreKey(a) !in props.abilityScores
    ensures r.description == Some(Sheet.AbilityAbbr(a) + " Save")
  {
    D20Roll(AbilityModifier(props, a), Sheet.AbilityAbbr(a) + " Save")
  }

  /** The modifier printed on a skill's button. */
  function SkillButtonModifier(props: Props, s: Sheet.Skill): (m: Num)
    ensures m.NaN? <==> ScoreKey(Sheet.SkillAbility(s)) !in props.abilityScores
  {
    Plus(AbilityModifier(props, Sheet.SkillAbility(s)), if IsProficient(props, s) then ProficiencyBonus(props) else 0)
  }

  /** `rollSkillCheck`. */
  function RollSkillCheck(props: Props, s: Sheet.Skill): (r: Request)
    ensures r.diceType == Dice.D20 && r.numDice == 1 && r.mode == Dice.Normal
    ensures r.modifier.NaN? <==> ScoreKey(Sheet.SkillAbility(s)) !in props.abilityScores
    ensures r.description == Some(Sheet.SkillName(s) + (if IsProficient(props, s) then " (Prof)" else ""))
  {
    var isProficient := IsProficient(props, s);
    var modifier := Plus(AbilityModifier(props, Sheet.SkillAbility(s)), if isProficient then ProficiencyBonus(props) else 0);
    D20Roll(modifier, Sheet.SkillName(s) + (if isProficient then " (Prof)" else ""))
  }

  /** Handed the scores its interface declares, every button computes a
      number: the dice engine's modifier of that ability's score. */
  lemma DeclaredScoresGiveModifiers(scores: Sheet.AbilityScores, pb: Option<int>, keys: Option<seq<string>>, a: Sheet.Ability)
    ensures var props := Props(LongKeyScores(scores), pb, keys);
      && RollAbilityCheck(props, a).modifier == Num(Dice.GetAbilityModifier(Sheet.Score(scores, a)))
      && RollSavingThrow(props, a).modifier == Num(Dice.GetAbilityModifier(Sheet.Score(scores, a)))
  {
  }

  /** A skill button handed every score under the name it reads shows the
      dice engine's modifier of that score, plus the bonus when listed. */
  lemma ButtonOfScores(props: Props, scores: Sheet.AbilityScores, s: Sheet.Skill)
    requires forall a :: ScoreKey(a) in props.abilityScores && props.abilityScores[ScoreKey(a)] == Sheet.Score(scores, a)
    ensures SkillButtonModifier(props, s)
            == Num(Dice.GetAbilityModifier(Sheet.Score(scores, Sheet.SkillAbility(s)))
                   + (if IsProficient(props, s) then ProficiencyBonus(props) else 0))
  {
    var a := Sheet.SkillAbility(s);
    assert ScoreKey(a) in props.abilityScores && props.abilityScores[ScoreKey(a)] == Sheet.Score(scores, a);
  }

  /** The same with the listing and the bonus already known, in terms of
      the character sheet's modifier: the button adds `pb` exactly when
      `listed`. */
  lemma ButtonOfListing(props: Props, scores: Sheet.AbilityScores, s: Sheet.Skill, listed: bool, pb: int)
    requires forall a :: ScoreKey(a) in props.abilityScores && props.abilityScores[ScoreKey(a)] == Sheet.Score(scores, a)
    requires IsProficient(props, s) == listed && ProficiencyBonus(props) == pb
    ensures SkillButtonModifier(props, s)
            == Num(Stats.CalculateAbilityModifier(Sheet.Score(scores, Sheet.SkillAbility(s))) + (if listed then pb else 0))
  {
    ButtonOfScores(props, scores, s);
    Stats.ModifierDefinitionsAgree(Sheet.Score(scores, Sheet.SkillAbility(s)));
  }

  /** Handing a button other scores changes only the ability modifier it
      starts from: the listing and the bonus stay those of the original
      inputs. */
  lemma RescoredButton(props: Props, o: ScoreObject, scores: Sheet.AbilityScores, s: Sheet.Skill)
    requires forall a :: ScoreKey(a) in o && o[ScoreKey(a)] == Sheet.Score(scores, a)
    ensures SkillButtonModifier(props.(abilityScores := o), s)
            == Num(Dice.GetAbilityModifier(Sheet.Score(scores, Sheet.SkillAbility(s)))
                   + (if IsProficient(props, s) then ProficiencyBonus(props) else 0))
  {
    ButtonOfScores(props.(abilityScores := o), scores, s);
  }

  /** A saving throw rolls exactly like the ability check: the proficiency
      bonus is never added, whatever its value. */
  lemma SaveIgnoresProficiency(props: Props, a: Sheet.Ability, pb: int)
    ensures RollSavingThrow(props, a).modifier == RollAbilityCheck(props, a).modifier
    ensures RollSavingThrow(props.(proficiencyBonus := Some(pb)), a).modifier
            == RollSavingThrow(props, a).modifier
  {
  }

  /** A skill check adds the bonus to its ability's check exactly when the
      skill is listed, and says so in the description. */
  lemma SkillCheckOverAbilityCheck(props: Props, s: Sheet.Skill)
    ensures var skill, check := RollSkillCheck(props, s), RollAbilityCheck(props, Sheet.SkillAbility(s));
      && skill.modifier == Plus(check.modifier, if IsProficient(props, s) then ProficiencyBonus(props) else 0)
      && (IsProficient(props, s) <==> skill.description == Some(Sheet.SkillName(s) + " (Prof)"))
  {
    var name := Sheet.SkillName(s);
    if !IsProficient(props, s) {
      assert |name + " (Prof)"| > |name|;
    }
  }

  /** Without the optional inputs no skill is proficient and the bonus is 0,
      so every skill check is its ability's check. */
  lemma DefaultsAddNothing(scores: ScoreObject, s: Sheet.Skill)
    ensures var props := Props(scores, None, None);
      && !IsProficient(props, s)
      && RollSkillCheck(props, s).modifier == RollAbilityCheck(props, Sheet.SkillAbility(s)).modifier
  {
  }

  /** The button shows the modifier that pressing it rolls. */
  lemma ButtonShowsRolledModifier(props: Props, s: Sheet.Skill)
    ensures SkillButtonModifier(props, s) == RollSkillCheck(props, s).modifier
  {
  }

  /** A quick roll with a numeric modifier, once performed, lands between 1
      and 20 plus its modifier. */
  lemma QuickRollRange(q: Request, draws: seq<int>, now: int)
    requires q.diceType == Dice.D20 && q.numDice == 1 && q.mode == Dice.Normal && q.modifier.Num?
    requires |draws| >= 1 && Dice.DrawsBelow(draws, 20)
    ensures var r := Dice.PerformRoll(ToDiceRoll(q), draws, now);
      1 + q.modifier.value <= r.finalTotal <= 20 + q.modifier.value
  {
    Dice.TotalBounds(ToDiceRoll(q), draws, now);
  }
}
