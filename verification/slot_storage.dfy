/** The stored form of spell slots and its conversion to and from the list
    the slot components work on. The stored object maps a spell level to
    `{ current, max }` (slots left and slots in all); the components use
    `{ level, total, used }`. */
module SlotStorage {
  import opened Wrappers
  import opened SpellSlots

  datatype DbSlot = DbSlot(current: int, max: int)

  /** The stored object as `Object.entries` lists it: levels are array-index
      keys, so they come out in ascending order, each once. */
  type DbSlots = seq<(int, DbSlot)>

  predicate DbWellFormed(db: DbSlots) {
    && (forall i :: 0 <= i < |db| ==> db[i].0 >= 0)
    && (forall i, j :: 0 <= i < j < |db| ==> db[i].0 < db[j].0)
  }

  /** A slot list the stored object can hold exactly: levels ascending, non-negative. */
  predicate Storable(slots: seq<SpellSlot>) {
    Ascending(slots) && forall i :: 0 <= i < |slots| ==> slots[i].level >= 0
  }

  /** Database to component form: `total = max`, `used = max - current`; a
      null column gives no slots. */
  function SlotsFromDb(db: Option<DbSlots>): (slots: seq<SpellSlot>)
    ensures db.None? ==> slots == []
    ensures db.Some? ==> |slots| == |db.value| && forall i :: 0 <= i < |slots| ==>
      && slots[i].level == db.value[i].0
      && slots[i].total == db.value[i].1.max
      && slots[i].total - slots[i].used == db.value[i].1.current
  {
    match db
    case None => []
    case Some(entries) =>
      seq(|entries|, i requires 0 <= i < |entries| =>
        SpellSlot(entries[i].0, entries[i].1.max, entries[i].1.max - entries[i].1.current))
  }

  /** `acc[level] = value` on an object with array-index keys: a new key
      takes its place in ascending order, an existing key is overwritten in place. */
  function Put(db: DbSlots, level: int, value: DbSlot): (r: DbSlots)
    decreases |db|
  {
    if |db| == 0 then [(level, value)]
    else if db[0].0 == level then [(level, value)] + db[1..]
    else if db[0].0 > level then [(level, value)] + db
    else [db[0]] + Put(db[1..], level, value)
  }

  function ToDbSlot(slot: SpellSlot): DbSlot {
    DbSlot(slot.total - slot.used, slot.total)
  }

  /** The `reduce` that rebuilds the stored object, slot by slot. */
  function BuildDb(slots: seq<SpellSlot>): DbSlots
    decreases |slots|
  {
    if |slots| == 0 then []
    else
      var last := slots[|slots| - 1];
      Put(BuildDb(slots[..|slots| - 1]), last.level, ToDbSlot(last))
  }

  /** Component to database form on submit; an empty list is stored as null. */
  function SlotsToDb(slots: seq<SpellSlot>): (db: Option<DbSlots>)
    ensures db.None? <==> |slots| == 0
  {
    if |slots| > 0 then Some(BuildDb(slots)) else None
  }

  /** A key above every present key goes at the end. */
  lemma {:induction false} PutAfterAll(db: DbSlots, level: int, value: DbSlot)
    requires forall i :: 0 <= i < |db| ==> db[i].0 < level
    ensures Put(db, level, value) == db + [(level, value)]
    decreases |db|
  {
    if |db| > 0 {
      PutAfterAll(db[1..], level, value);
      assert db == [db[0]] + db[1..];
    }
  }

  /** For a storable list the stored object has one entry per slot, in order. */
  lemma {:induction false} BuildDbOfStorable(slots: seq<SpellSlot>)
    requires Storable(slots)
    ensures BuildDb(slots) == seq(|slots|, i requires 0 <= i < |slots| => (slots[i].level, ToDbSlot(slots[i])))
    decreases |slots|
  {
    if |slots| > 0 {
      var init, last := slots[..|slots| - 1], slots[|slots| - 1];
      BuildDbOfStorable(init);
      PutAfterAll(BuildDb(init), last.level, ToDbSlot(last));
    }
  }

  /** Loading what was saved gives the same list back. */
  lemma UiRoundTrip(slots: seq<SpellSlot>)
    requires Storable(slots)
    ensures SlotsFromDb(SlotsToDb(slots)) == slots
  {
    if |slots| > 0 {
      BuildDbOfStorable(slots);
      var db := BuildDb(slots);
      var back := SlotsFromDb(Some(db));
      forall i | 0 <= i < |slots|
        ensures back[i] == slots[i]
      {
        assert db[i] == (slots[i].level, ToDbSlot(slots[i]));
      }
    }
  }

  /** Saving what was loaded gives the same stored object back; an empty
      object comes back as null. */
  lemma DbRoundTrip(db: DbSlots)
    requires DbWellFormed(db)
    ensures SlotsToDb(SlotsFromDb(Some(db))) == if |db| == 0 then None else Some(db)
  {
    var slots := SlotsFromDb(Some(db));
    if |db| > 0 {
      assert Storable(slots);
      BuildDbOfStorable(slots);
      var again := BuildDb(slots);
      forall i | 0 <= i < |db|
        ensures again[i] == db[i]
      {
        assert again[i] == (slots[i].level, ToDbSlot(slots[i]));
      }
      assert again == db;
    }
  }

  /** Loaded slots never spend more than they have when the stored counts
      satisfy `0 <= current <= max`. */
  lemma LoadedWithinTotals(db: DbSlots)
    requires forall i :: 0 <= i < |db| ==> 0 <= db[i].1.current <= db[i].1.max
    ensures WithinTotals(SlotsFromDb(Some(db)))
  {
  }
}
