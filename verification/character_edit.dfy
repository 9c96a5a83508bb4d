/** The character edit page: the form schema as a validator, the values the
    form starts from, prepared-spell editing and the fields derived on submit. */
module CharacterEdit {
  import opened Wrappers
  import Seqs
  import Sheet
  import Stats
  import SheetView
  import SpellBrowser
  import SpellData
  import SpellSlots
  import SlotStorage

  /** The validated form fields. */
  datatype FormData = FormData(
    name: string,
    level: int,
    experiencePoints: int,
    hitPointsMax: int,
    hitPointsCurrent: int,
    armorClass: int,
    speed: int,
    abilityScores: Sheet.AbilityScores)

  /** One schema violation: the field's path and, for the name, its message. */
  datatype Issue = Issue(path: string, message: Option<string>)

  /** The schema's constraints, stated field by field. */
  predicate Valid(f: FormData) {
    FieldsValid(f) && ScoresValid(f.abilityScores)
  }

  predicate FieldsValid(f: FormData) {
    && 1 <= |f.name| <= 50
    && 1 <= f.level <= 20
    && f.experiencePoints >= 0
    && f.hitPointsMax >= 1
    && f.hitPointsCurrent >= 0
    && f.armorClass >= 1
    && f.speed >= 0
  }

  predicate ScoresValid(scores: Sheet.AbilityScores) {
    forall a: Sheet.Ability :: 1 <= Sheet.Score(scores, a) <= 30
  }

  function Check(ok: bool, path: string, message: Option<string>): seq<Issue> {
    if ok then [] else [Issue(path, message)]
  }

  /** The path the form registers an ability's input under, and reads its
      error from. */
  function AbilityPath(a: Sheet.Ability): string {
    "ability_scores." + Sheet.AbilityKey(a)
  }

  /** The out-of-range abilities, each reported under its own input's path. */
  function AbilityIssues(scores: Sheet.AbilityScores, abilities: seq<Sheet.Ability>): (issues: seq<Issue>)
    ensures |issues| == 0 <==> forall i :: 0 <= i < |abilities| ==> 1 <= Sheet.Score(scores, abilities[i]) <= 30
    ensures forall a :: a in abilities && !(1 <= Sheet.Score(scores, a) <= 30) ==> Issue(AbilityPath(a), None) in issues
    ensures forall x :: x in issues ==>
      exists a :: a in abilities && !(1 <= Sheet.Score(scores, a) <= 30) && x == Issue(AbilityPath(a), None)
    decreases |abilities|
  {
    if |abilities| == 0 then []
    else
      var a := abilities[0];
      var rest := AbilityIssues(scores, abilities[1..]);
      assert forall b :: b in abilities ==> b == a || b in abilities[1..];
      Check(1 <= Sheet.Score(scores, a) <= 30, AbilityPath(a), None) + rest
  }

  /** `characterEditSchema` as a validator: the issues in schema order. */
  function Validate(f: FormData): (issues: seq<Issue>)
    ensures |issues| == 0 <==> Valid(f)
    ensures |f.name| == 0 ==> issues[0] == Issue("name", Some("Name is required"))
    ensures |f.name| > 50 ==> issues[0] == Issue("name", Some("Name too long"))
    ensures forall a: Sheet.Ability :: Issue(AbilityPath(a), None) in issues <==> !(1 <= Sheet.Score(f.abilityScores, a) <= 30)
  {
    NoIssuesIffValid(f);
    NameIssueFirst(f);
    AbilityPathsReported(f);
    FieldIssues(f) + AbilityIssues(f.abilityScores, Sheet.AllAbilities)
  }

  lemma NoIssuesIffValid(f: FormData)
    ensures |FieldIssues(f) + AbilityIssues(f.abilityScores, Sheet.AllAbilities)| == 0 <==> Valid(f)
  {
    var fields := FieldIssues(f);
    var abilities := AbilityIssues(f.abilityScores, Sheet.AllAbilities);
    assert |fields + abilities| == |fields| + |abilities|;
    NoAbilityIssues(f.abilityScores);
  }

  lemma NoAbilityIssues(scores: Sheet.AbilityScores)
    ensures |AbilityIssues(scores, Sheet.AllAbilities)| == 0 <==> ScoresValid(scores)
  {
    AllAbilitiesListed(scores);
    EmptyIffInRange(scores, Sheet.AllAbilities);
  }

  lemma EmptyIffInRange(scores: Sheet.AbilityScores, abilities: seq<Sheet.Ability>)
    ensures |AbilityIssues(scores, abilities)| == 0
      <==> forall i :: 0 <= i < |abilities| ==> 1 <= Sheet.Score(scores, abilities[i]) <= 30
  {
  }

  lemma AllAbilitiesListed(scores: Sheet.AbilityScores)
    ensures (forall i :: 0 <= i < |Sheet.AllAbilities| ==> 1 <= Sheet.Score(scores, Sheet.AllAbilities[i]) <= 30)
      <==> ScoresValid(scores)
  {
    Sheet.TablesComplete();
    if forall i :: 0 <= i < |Sheet.AllAbilities| ==> 1 <= Sheet.Score(scores, Sheet.AllAbilities[i]) <= 30 {
      forall a: Sheet.Ability
        ensures 1 <= Sheet.Score(scores, a) <= 30
      {
        var i := match a
          case Strength => 0 case Dexterity => 1 case Constitution => 2
          case Intelligence => 3 case Wisdom => 4 case Charisma => 5;
        assert Sheet.AllAbilities[i] == a;
      }
    }
  }

  lemma NameIssueFirst(f: FormData)
    ensures var issues := FieldIssues(f) + AbilityIssues(f.abilityScores, Sheet.AllAbilities);
      && (|f.name| == 0 ==> issues[0] == Issue("name", Some("Name is required")))
      && (|f.name| > 50 ==> issues[0] == Issue("name", Some("Name too long")))
  {
  }

  /** An ability's path is reported exactly when its score is out of range. */
  lemma AbilityPathsReported(f: FormData)
    ensures forall a: Sheet.Ability ::
      Issue(AbilityPath(a), None) in FieldIssues(f) + AbilityIssues(f.abilityScores, Sheet.AllAbilities)
      <==> !(1 <= Sheet.Score(f.abilityScores, a) <= 30)
  {
    FieldIssuesAreNotAbilityIssues(f);
    forall a: Sheet.Ability
      ensures Issue(AbilityPath(a), None) in AbilityIssues(f.abilityScores, Sheet.AllAbilities)
        <==> !(1 <= Sheet.Score(f.abilityScores, a) <= 30)
    {
      AbilityPathReported(f.abilityScores, a);
    }
  }

  lemma AbilityPathReported(scores: Sheet.AbilityScores, a: Sheet.Ability)
    ensures Issue(AbilityPath(a), None) in AbilityIssues(scores, Sheet.AllAbilities)
      <==> !(1 <= Sheet.Score(scores, a) <= 30)
  {
    Sheet.TablesComplete();
    var issues := AbilityIssues(scores, Sheet.AllAbilities);
    if Issue(AbilityPath(a), None) in issues {
      var b :| b in Sheet.AllAbilities && !(1 <= Sheet.Score(scores, b) <= 30)
        && Issue(AbilityPath(a), None) == Issue(AbilityPath(b), None);
      AbilityPathInjective(a, b);
    }
  }

  lemma AbilityPathInjective(a: Sheet.Ability, b: Sheet.Ability)
    requires AbilityPath(a) == AbilityPath(b)
    ensures a == b
  {
    assert AbilityPath(a)[15..] == Sheet.AbilityKey(a);
    assert AbilityPath(b)[15..] == Sheet.AbilityKey(b);
  }

  /** The schema's checks on the fields other than the ability scores. */
  function FieldIssues(f: FormData): (issues: seq<Issue>)
    ensures |issues| == 0 <==> FieldsValid(f)
  {
    Check(|f.name| >= 1, "name", Some("Name is required"))
      + Check(|f.name| <= 50, "name", Some("Name too long"))
      + Check(1 <= f.level, "level", None)
      + Check(f.level <= 20, "level", None)
      + Check(f.experiencePoints >= 0, "experience_points", None)
      + Check(f.hitPointsMax >= 1, "hit_points_max", None)
      + Check(f.hitPointsCurrent >= 0, "hit_points_current", None)
      + Check(f.armorClass >= 1, "armor_class", None)
      + Check(f.speed >= 0, "speed", None)
  }

  /** The checks before the abilities never report under an ability's path. */
  lemma FieldIssuesAreNotAbilityIssues(f: FormData)
    ensures forall a: Sheet.Ability :: Issue(AbilityPath(a), None) !in FieldIssues(f)
  {
    forall a: Sheet.Ability ensures Issue(AbilityPath(a), None) !in FieldIssues(f) {
      assert AbilityPath(a)[0] == 'a';
    }
  }

  /** JavaScript `x || fallback` on a nullable number: null and 0 both fall back. */
  function OrElse(x: Option<int>, fallback: int): (r: int)
    ensures x.Some? && x.value != 0 ==> r == x.value
    ensures x.None? || x.value == 0 ==> r == fallback
  {
    if x.Some? && x.value != 0 then x.value else fallback
  }

  /** JavaScript `x ?? fallback`: only null falls back. */
  function Nullish(x: Option<int>, fallback: int): (r: int)
    ensures x.Some? ==> r == x.value
    ensures x.None? ==> r == fallback
  {
    match x
    case Some(v) => v
    case None => fallback
  }

  /** The form's starting values as written: every default applied with `||`. */
  function FormDefaults(c: Sheet.Character): (d: FormData)
    ensures d.name == c.name && d.level == c.level && d.abilityScores == c.abilityScores
    ensures d.hitPointsMax != 0 && d.hitPointsCurrent != 0 && d.armorClass != 0 && d.speed != 0
    ensures c.experiencePoints != 0 ==> d.experiencePoints == c.experiencePoints
    ensures c.hitPointsMax.Some? && c.hitPointsMax.value != 0 ==> d.hitPointsMax == c.hitPointsMax.value
    ensures c.hitPointsCurrent.Some? && c.hitPointsCurrent.value != 0 ==> d.hitPointsCurrent == c.hitPointsCurrent.value
    ensures c.armorClass.Some? && c.armorClass.value != 0 ==> d.armorClass == c.armorClass.value
    ensures c.speed.Some? && c.speed.value != 0 ==> d.speed == c.speed.value
  {
    FormData(
      c.name,
      c.level,
      OrElse(Some(c.experiencePoints), 0),
      OrElse(c.hitPointsMax, 10),
      OrElse(c.hitPointsCurrent, 10),
      OrElse(c.armorClass, 10),
      OrElse(c.speed, 30),
      c.abilityScores)
  }

  /** The same defaults applied with `??`, so that a stored 0 is kept. */
  function FormDefaultsNullish(c: Sheet.Character): (d: FormData)
    ensures d.name == c.name && d.level == c.level && d.abilityScores == c.abilityScores
    ensures d.experiencePoints == c.experiencePoints
    ensures d.hitPointsMax == c.hitPointsMax.GetOr(10) && d.hitPointsCurrent == c.hitPointsCurrent.GetOr(10)
    ensures d.armorClass == c.armorClass.GetOr(10) && d.speed == c.speed.GetOr(30)
  {
    FormData(
      c.name,
      c.level,
      c.experiencePoints,
      Nullish(c.hitPointsMax, 10),
      Nullish(c.hitPointsCurrent, 10),
      Nullish(c.armorClass, 10),
      Nullish(c.speed, 30),
      c.abilityScores)
  }

  /** As written, a character stored at 0 hit points opens the form at 10,
      and one stored with speed 0 opens it at 30; saving writes those back. */
  lemma ZeroHitPointsReloadAsTen(c: Sheet.Character)
    requires c.hitPointsCurrent == Some(0)
    ensures FormDefaults(c).hitPointsCurrent == 10
    ensures SheetView.ViewCombat(c).hitPointsCurrent == 0
  {
  }

  lemma ZeroSpeedReloadsAsThirty(c: Sheet.Character)
    requires c.speed == Some(0)
    ensures FormDefaults(c).speed == 30
    ensures SheetView.ViewCombat(c).speed == 0
  {
  }

  /** With `??` the form starts from what the sheet shows: the current and
      maximum hit points when they are stored (0 included), and the speed.
      A missing value still differs; see `MissingHitPointsDiffer`. */
  lemma NullishDefaultsMatchSheet(c: Sheet.Character)
    ensures FormDefaultsNullish(c).hitPointsCurrent
         == if c.hitPointsCurrent.Some? then SheetView.ViewCombat(c).hitPointsCurrent else 10
    ensures c.hitPointsMax.Some? ==> FormDefaultsNullish(c).hitPointsMax == SheetView.ViewCombat(c).hitPointsMax
    ensures FormDefaultsNullish(c).speed == SheetView.ViewCombat(c).speed
  {
  }

  /** Where a hit-point value is missing, the corrected form and the combat
      panel still disagree: the panel shows a missing current HP as the maximum
      and a missing maximum as 0, while the form starts both at 10. */
  lemma MissingHitPointsDiffer(c: Sheet.Character)
    ensures c.hitPointsCurrent.None? && c.hitPointsMax.Some? && c.hitPointsMax.value != 10 ==>
      FormDefaultsNullish(c).hitPointsCurrent == 10 != SheetView.ViewCombat(c).hitPointsCurrent
    ensures c.hitPointsMax.None? ==>
      FormDefaultsNullish(c).hitPointsMax == 10 && SheetView.ViewCombat(c).hitPointsMax == 0
  {
  }

  /** The two defaults differ only on stored zeros. */
  lemma DefaultsDifferOnlyOnZero(c: Sheet.Character)
    requires c.hitPointsMax != Some(0) && c.hitPointsCurrent != Some(0)
    requires c.armorClass != Some(0) && c.speed != Some(0)
    ensures FormDefaults(c) == FormDefaultsNullish(c)
  {
  }

  /** Fields stored as null, or as values the schema accepts, load as values
      the schema accepts; with `||` a stored 0 current HP or speed still loads,
      but as 10 or 30. */
  lemma DefaultsPassNumericChecks(c: Sheet.Character)
    requires c.hitPointsMax.None? || c.hitPointsMax.value >= 1
    requires c.hitPointsCurrent.None? || c.hitPointsCurrent.value >= 0
    requires c.armorClass.None? || c.armorClass.value >= 1
    requires c.speed.None? || c.speed.value >= 0
    ensures var f := FormDefaults(c);
      f.hitPointsMax >= 1 && f.hitPointsCurrent >= 0 && f.armorClass >= 1 && f.speed >= 0
    ensures var g := FormDefaultsNullish(c);
      g.hitPointsMax >= 1 && g.hitPointsCurrent >= 0 && g.armorClass >= 1 && g.speed >= 0
  {
  }

  /** `handleAddSpell`: an id already prepared is not added again. */
  function AddPrepared(ids: seq<string>, spellId: string): (r: seq<string>)
    ensures spellId in r
    ensures forall x :: x in r <==> x in ids || x == spellId
    ensures Seqs.NoDuplicates(ids) ==> Seqs.NoDuplicates(r)
    ensures Seqs.IsSubsequence(ids, r)
  {
    Seqs.AppendedIsSupersequence(ids, spellId);
    Seqs.SubsequenceRefl(ids);
    if spellId in ids then ids else ids + [spellId]
  }

  /** `handleRemoveSpell`: every copy of the id goes, the rest keep their order. */
  function RemovePrepared(ids: seq<string>, spellId: string): (r: seq<string>)
    ensures spellId !in r
    ensures forall x :: x in r <==> x in ids && x != spellId
    ensures Seqs.IsSubsequence(r, ids)
  {
    Seqs.FilterIsSubsequence(ids, Seqs.Except(spellId));
    Seqs.Filter(ids, Seqs.Except(spellId))
  }

  /** Preparing a new spell and removing it again restores the list. */
  lemma RemoveUndoesAdd(ids: seq<string>, spellId: string)
    requires spellId !in ids
    ensures RemovePrepared(AddPrepared(ids, spellId), spellId) == ids
  {
    Seqs.ToggleTwice(ids, spellId);
  }

  /** A spell added from the browser is then shown as added there. */
  lemma AddedShowsInBrowser(ids: seq<string>, spell: SpellData.Spell)
    ensures SpellBrowser.IsAdded(AddPrepared(ids, spell.id), spell)
    ensures !SpellBrowser.IsAdded(RemovePrepared(ids, spell.id), spell)
  {
  }

  /** The fields the page derives on submit. */
  datatype Derived = Derived(
    proficiencyBonus: int,
    initiativeBonus: int,
    spellSlots: Option<SlotStorage.DbSlots>,
    spellsPrepared: Option<seq<string>>)

  function Submit(f: FormData, table: Stats.LevelTable, slots: seq<SpellSlots.SpellSlot>, prepared: seq<string>)
    : (d: Derived)
    ensures d.proficiencyBonus == Stats.GetProficiencyBonus(table, f.level)
    ensures d.initiativeBonus == Stats.CalculateAbilityModifier(f.abilityScores.dexterity)
    ensures d.spellSlots == SlotStorage.SlotsToDb(slots)
    ensures d.spellsPrepared.None? <==> |prepared| == 0
    ensures d.spellsPrepared.Some? ==> d.spellsPrepared.value == prepared
  {
    Derived(
      Stats.GetProficiencyBonus(table, f.level),
      Stats.CalculateAbilityModifier(f.abilityScores.dexterity),
      SlotStorage.SlotsToDb(slots),
      if |prepared| > 0 then Some(prepared) else None)
  }

  /** Saving overwrites any stored initiative bonus with the Dexterity
      modifier, so after a save the sheet shows the modifier. */
  lemma SavedInitiativeIsDexModifier(c: Sheet.Character, f: FormData, table: Stats.LevelTable,
                                     slots: seq<SpellSlots.SpellSlot>, prepared: seq<string>)
    requires f.abilityScores == c.abilityScores
    ensures var d := Submit(f, table, slots, prepared);
      SheetView.ViewCombat(c.(initiativeBonus := Some(d.initiativeBonus))).initiative
      == Stats.CalculateAbilityModifier(c.abilityScores.dexterity)
  {
  }

  /** Under the standard table the saved proficiency bonus follows the
      5th-edition progression for every level the schema accepts. */
  lemma SavedProficiencyIsStandard(f: FormData, table: Stats.LevelTable,
                                   slots: seq<SpellSlots.SpellSlot>, prepared: seq<string>)
    requires Stats.StandardProficiency(table) && Valid(f)
    ensures Submit(f, table, slots, prepared).proficiencyBonus == (f.level - 1) / 4 + 2
  {
    Stats.ProficiencySourcesAgree(table, f.level);
  }
}
