/** The spell browser: free-text, level, school and class filters over the
    spell catalogue, and the per-spell summary line. */
module SpellBrowser {
  import opened Wrappers
  import Seqs
  import Text
  import opened SpellData

  const SpellSchools: seq<string> := ["Abjuration", "Conjuration", "Divination", "Enchantment", "Evocation",
                                      "Illusion", "Necromancy", "Transmutation"]

  const SpellLevels: seq<int> := [0, 1, 2, 3, 4, 5, 6, 7, 8, 9]

  /** The browser's filter state. */
  datatype Filters = Filters(query: string, levels: seq<int>, schools: seq<string>, showClassOnly: bool)

  /** `clearFilters`. */
  const Cleared := Filters("", [], [], false)

  /** `hasFilters`: any of the four filters is active. */
  predicate HasFilters(f: Filters) {
    f.query != "" || |f.levels| > 0 || |f.schools| > 0 || f.showClassOnly
  }

  /** The name test: the lower-cased name contains the lower-cased query. */
  predicate NameMatches(spell: Spell, query: string) {
    Text.Contains(Text.ToLower(spell.name), Text.ToLower(query))
  }

  /** The class test excludes only spells whose `classes` is a list that
      lacks the character's class. */
  predicate ClassMatches(spell: Spell, characterClass: string) {
    spell.classes.None? || characterClass in spell.classes.value
  }

  /** The callback of `allSpells.filter`, test by test in source order. */
  predicate Keep(f: Filters, characterClass: Option<string>, spell: Spell) {
    if f.query != "" && !NameMatches(spell, f.query) then false
    else if |f.levels| > 0 && spell.level !in f.levels then false
    else if |f.schools| > 0 && spell.school !in f.schools then false
    else if f.showClassOnly && characterClass.Some? && characterClass.value != ""
            && !ClassMatches(spell, characterClass.value) then false
    else true
  }

  function Keeper(f: Filters, characterClass: Option<string>): Spell -> bool {
    (spell: Spell) => Keep(f, characterClass, spell)
  }

  /** `filteredSpells`: an order-preserving selection of the catalogue; each
      active filter holds for every spell kept, and every spell passing all
      active filters is kept. */
  function FilteredSpells(all: seq<Spell>, f: Filters, characterClass: Option<string>): (r: seq<Spell>)
    ensures Seqs.IsSubsequence(r, all)
    ensures forall s :: s in r ==>
      && s in all
      && (f.query != "" ==> NameMatches(s, f.query))
      && (|f.levels| > 0 ==> s.level in f.levels)
      && (|f.schools| > 0 ==> s.school in f.schools)
      && (f.showClassOnly && characterClass.Some? && characterClass.value != "" ==> ClassMatches(s, characterClass.value))
    ensures forall s ::
      (&& s in all
       && (f.query != "" ==> NameMatches(s, f.query))
       && (|f.levels| > 0 ==> s.level in f.levels)
       && (|f.schools| > 0 ==> s.school in f.schools)
       && (f.showClassOnly && characterClass.Some? && characterClass.value != "" ==> ClassMatches(s, characterClass.value)))
      ==> s in r
  {
    Seqs.FilterIsSubsequence(all, Keeper(f, characterClass));
    Seqs.Filter(all, Keeper(f, characterClass))
  }

  /** With no filter active the whole catalogue is listed, whatever the class. */
  lemma NoFiltersShowsAll(all: seq<Spell>, f: Filters, characterClass: Option<string>)
    requires !HasFilters(f)
    ensures FilteredSpells(all, f, characterClass) == all
  {
    Seqs.FilterAllPass(all, Keeper(f, characterClass));
  }

  /** After `clearFilters` no filter is active and the catalogue is shown whole. */
  lemma ClearShowsAll(all: seq<Spell>, characterClass: Option<string>)
    ensures !HasFilters(Cleared)
    ensures FilteredSpells(all, Cleared, characterClass) == all
  {
    NoFiltersShowsAll(all, Cleared, characterClass);
  }

  lemma {:induction false} ToLowerIdempotent(s: string)
    ensures Text.ToLower(Text.ToLower(s)) == Text.ToLower(s)
  {
    var once := Text.ToLower(s);
    forall i | 0 <= i < |s|
      ensures Text.ToLower(once)[i] == once[i]
    {
    }
  }

  /** The search ignores the case of the query. */
  lemma QueryCaseIgnored(all: seq<Spell>, f: Filters, characterClass: Option<string>)
    ensures FilteredSpells(all, f.(query := Text.ToLower(f.query)), characterClass)
         == FilteredSpells(all, f, characterClass)
  {
    ToLowerIdempotent(f.query);
    var g := f.(query := Text.ToLower(f.query));
    Seqs.FilterAgreeing(all, Keeper(g, characterClass), Keeper(f, characterClass));
  }

  /** Without the class switch, or without a class, the class filter is off. */
  lemma ClassFilterNeedsBoth(all: seq<Spell>, f: Filters, characterClass: Option<string>)
    requires !f.showClassOnly || characterClass.None? || characterClass == Some("")
    ensures FilteredSpells(all, f, characterClass) == FilteredSpells(all, f, None)
  {
    Seqs.FilterAgreeing(all, Keeper(f, characterClass), Keeper(f, None));
  }

  /** `toggleLevel` and `toggleSchool`. */
  function ToggleLevel(f: Filters, level: int): (r: Filters)
    ensures level in r.levels <==> level !in f.levels
    ensures r.query == f.query && r.schools == f.schools && r.showClassOnly == f.showClassOnly
  {
    f.(levels := Seqs.Toggle(f.levels, level))
  }

  function ToggleSchool(f: Filters, school: string): (r: Filters)
    ensures school in r.schools <==> school !in f.schools
    ensures r.query == f.query && r.levels == f.levels && r.showClassOnly == f.showClassOnly
  {
    f.(schools := Seqs.Toggle(f.schools, school))
  }

  /** Clicking an unselected level twice leaves the filters as they were. */
  lemma ToggleLevelTwice(f: Filters, level: int)
    requires level !in f.levels
    ensures ToggleLevel(ToggleLevel(f, level), level) == f
  {
    Seqs.ToggleTwice(f.levels, level);
  }

  lemma ToggleSchoolTwice(f: Filters, school: string)
    requires school !in f.schools
    ensures ToggleSchool(ToggleSchool(f, school), school) == f
  {
    Seqs.ToggleTwice(f.schools, school);
  }

  /** Component letters of the summary line: V, S, M in that order, each
      only when its flag is set. */
  function ComponentLetters(c: Components): (r: seq<string>)
    ensures "V" in r <==> c.ComponentObject? && c.verbal
    ensures "S" in r <==> c.ComponentObject? && c.somatic
    ensures "M" in r <==> HasMaterial(c)
    ensures Seqs.IsSubsequence(r, ["V", "S", "M"])
  {
    match c
    case ComponentObject(verbal, somatic, _) =>
      var r := (if verbal then ["V"] else []) + (if somatic then ["S"] else []) + (if HasMaterial(c) then ["M"] else []);
      LettersInOrder(verbal, somatic, HasMaterial(c));
      r
    case _ => []
  }

  lemma LettersInOrder(v: bool, s: bool, m: bool)
    ensures Seqs.IsSubsequence((if v then ["V"] else []) + (if s then ["S"] else []) + (if m then ["M"] else []), ["V", "S", "M"])
  {
    var vsm: seq<string> := ["V", "S", "M"];
    assert vsm[1..] == ["S", "M"];
    assert vsm[1..][1..] == ["M"];
    var sm: seq<string> := ["S", "M"];
    assert sm[1..] == ["M"];
    var m1: seq<string> := ["M"];
    assert m1[1..] == [];
  }

  /** The level badge: "Cantrip" for level 0, otherwise "Level n". */
  function LevelLabel(level: int): (badge: string)
    ensures level == 0 <==> badge == "Cantrip"
    ensures level != 0 ==> |badge| > 6 && badge[..6] == "Level " && Text.ParseSigned(badge[6..]) == Some(level)
  {
    if level == 0 then "Cantrip"
    else
      Text.IntToStringRoundTrip(level);
      var badge := "Level " + Text.IntToString(level);
      assert badge[6..] == Text.IntToString(level);
      badge
  }

  /** Different levels get different badges. */
  lemma LevelLabelInjective(a: int, b: int)
    requires LevelLabel(a) == LevelLabel(b)
    ensures a == b
  {
  }

  /** The Add button is disabled for a spell already in the selection. */
  predicate IsAdded(selectedSpellIds: seq<string>, spell: Spell) {
    spell.id in selectedSpellIds
  }
}
