/** The spell record as the spell components read it. */
module SpellData {
  import opened Wrappers

  /** The `components` column: absent, some non-object value, or an object
      with optional verbal/somatic flags and material text. */
  datatype Components =
    | NoComponents
    | NotAnObject
    | ComponentObject(verbal: bool, somatic: bool, material: Option<string>)

  /** `classes` is `None` when the column is not an array. */
  datatype Spell = Spell(
    id: string,
    name: string,
    level: int,
    school: string,
    components: Components,
    classes: Option<seq<string>>,
    concentration: bool,
    ritual: bool)

  /** A material text is truthy when present and non-empty. */
  predicate HasMaterial(c: Components) {
    c.ComponentObject? && c.material.Some? && c.material.value != ""
  }
}
