/** The skill-proficiency and saving-throw editors: each change rewrites one
    entry of the stored object and keeps everything else. */
module ProficiencyEditors {
  import opened Wrappers
  import Sheet

  const DefaultSkill: Sheet.SkillEntry := Sheet.SkillEntry(false, false, 0)

  /** All eighteen skills at the default entry. */
  function CreateDefaultSkills(): (skills: Sheet.Skills)
    ensures forall s: Sheet.Skill :: s in skills && skills[s] == DefaultSkill
  {
    Sheet.TablesComplete();
    map s: Sheet.Skill | s in Sheet.AllSkills :: DefaultSkill
  }

  /** The editor's starting state: the stored object, or the defaults for null. */
  function InitialSkills(stored: Option<Sheet.Skills>): (skills: Sheet.Skills)
    ensures stored.Some? ==> skills == stored.value
    ensures stored.None? ==> skills == CreateDefaultSkills()
  {
    stored.GetOr(CreateDefaultSkills())
  }

  /** Which checkbox of a skill row changed. */
  datatype SkillField = Proficient | Expertise

  /** No skill has expertise without proficiency. */
  ghost predicate ExpertiseImpliesProficient(skills: Sheet.Skills) {
    forall s :: s in skills && skills[s].expertise ==> skills[s].proficient
  }

  /** `handleSkillChange`: sets one flag of one skill; setting expertise also
      sets proficiency, and clearing proficiency also clears expertise. */
  function HandleSkillChange(skills: Sheet.Skills, s: Sheet.Skill, field: SkillField, value: bool): (r: Sheet.Skills)
    ensures r.Keys == skills.Keys + {s}
    ensures forall t :: t in skills && t != s ==> r[t] == skills[t]
    ensures r[s].bonus == (if s in skills then skills[s].bonus else DefaultSkill.bonus)
    ensures field == Proficient ==> r[s].proficient == value
    ensures field == Expertise ==> r[s].expertise == value
    ensures field == Expertise && value ==> r[s].proficient
    ensures field == Proficient && !value ==> !r[s].expertise
    ensures field == Proficient && value ==>
      r[s].expertise == (s in skills && skills[s].expertise)
    ensures field == Expertise && !value ==>
      r[s].proficient == (s in skills && skills[s].proficient)
  {
    var base := if s in skills then skills[s] else DefaultSkill;
    var entry :=
      match field
      case Proficient => base.(proficient := value, expertise := if value then base.expertise else false)
      case Expertise => base.(expertise := value, proficient := if value then true else base.proficient);
    skills[s := entry]
  }

  /** The defaults satisfy the invariant, and every change keeps it. */
  lemma SkillChangeKeepsInvariant(skills: Sheet.Skills, s: Sheet.Skill, field: SkillField, value: bool)
    requires ExpertiseImpliesProficient(skills)
    ensures ExpertiseImpliesProficient(HandleSkillChange(skills, s, field, value))
    ensures ExpertiseImpliesProficient(CreateDefaultSkills())
  {
  }

  /** The edits a user can make, in order. */
  datatype SkillEdit = SkillEdit(skill: Sheet.Skill, field: SkillField, value: bool)

  function ApplySkillEdits(skills: Sheet.Skills, edits: seq<SkillEdit>): Sheet.Skills
    decreases |edits|
  {
    if |edits| == 0 then skills
    else ApplySkillEdits(HandleSkillChange(skills, edits[0].skill, edits[0].field, edits[0].value), edits[1..])
  }

  /** Starting from skills where every expert skill is also proficient, no
      sequence of edits ever gives a skill expertise without proficiency. */
  lemma {:induction false} EditsKeepInvariant(skills: Sheet.Skills, edits: seq<SkillEdit>)
    requires ExpertiseImpliesProficient(skills)
    ensures ExpertiseImpliesProficient(ApplySkillEdits(skills, edits))
    decreases |edits|
  {
    if |edits| > 0 {
      SkillChangeKeepsInvariant(skills, edits[0].skill, edits[0].field, edits[0].value);
      EditsKeepInvariant(HandleSkillChange(skills, edits[0].skill, edits[0].field, edits[0].value), edits[1..]);
    }
  }

  const DefaultSave: Sheet.SaveEntry := Sheet.SaveEntry(false, 0)

  /** The editor's starting saves: the stored object, or all six at the default. */
  function InitialSaves(stored: Option<Sheet.Saves>): (saves: Sheet.Saves)
    ensures stored.Some? ==> saves == stored.value
    ensures stored.None? ==> forall a: Sheet.Ability :: a in saves && saves[a] == DefaultSave
  {
    Sheet.TablesComplete();
    if stored.Some? then stored.value
    else map a: Sheet.Ability | a in Sheet.AllAbilities :: DefaultSave
  }

  /** `handleSaveChange`: sets the proficiency of one save. */
  function HandleSaveChange(saves: Sheet.Saves, a: Sheet.Ability, proficient: bool): (r: Sheet.Saves)
    ensures r.Keys == saves.Keys + {a}
    ensures forall b :: b in saves && b != a ==> r[b] == saves[b]
    ensures r[a].proficient == proficient
    ensures r[a].bonus == (if a in saves then saves[a].bonus else DefaultSave.bonus)
  {
    var base := if a in saves then saves[a] else DefaultSave;
    saves[a := base.(proficient := proficient)]
  }

  /** The abilities whose stored save is proficient. */
  function ProficientSaves(saves: Sheet.Saves): set<Sheet.Ability> {
    set a | a in saves && saves[a].proficient
  }

  /** `proficientCount`: how many stored saves are proficient. */
  function ProficientCount(saves: Sheet.Saves): nat {
    |ProficientSaves(saves)|
  }

  /** The count splits into one ability and the rest. */
  lemma CountSplit(saves: Sheet.Saves, a: Sheet.Ability)
    ensures ProficientCount(saves)
            == |ProficientSaves(saves) - {a}| + (if a in saves && saves[a].proficient then 1 else 0)
  {
    var p := ProficientSaves(saves);
    if a in saves && saves[a].proficient {
      assert a in p;
      assert p == (p - {a}) + {a};
    } else {
      assert a !in p;
      assert p == p - {a};
    }
  }

  /** Ticking a save raises the count by one exactly when it was unticked;
      unticking lowers it by one exactly when it was ticked. */
  lemma SaveChangeMovesCount(saves: Sheet.Saves, a: Sheet.Ability, proficient: bool)
    ensures ProficientCount(HandleSaveChange(saves, a, proficient))
            == ProficientCount(saves) - (if a in saves && saves[a].proficient then 1 else 0)
               + (if proficient then 1 else 0)
  {
    var r := HandleSaveChange(saves, a, proficient);
    CountSplit(saves, a);
    CountSplit(r, a);
    assert ProficientSaves(r) - {a} == ProficientSaves(saves) - {a};
  }

  /** The colour of the count box: exactly two is the usual number, more is a
      warning, fewer is neutral. */
  datatype SaveStatus = Usual | MoreThanUsual | Neutral

  function ClassifySaves(saves: Sheet.Saves): (status: SaveStatus)
    ensures status == Usual <==> ProficientCount(saves) == 2
    ensures status == MoreThanUsual <==> ProficientCount(saves) > 2
    ensures status == Neutral <==> ProficientCount(saves) < 2
  {
    var n := ProficientCount(saves);
    if n == 2 then Usual else if n > 2 then MoreThanUsual else Neutral
  }
}
