# Roll With It — a Dafny model of the character-sheet and dice core

Roll With It is a web companion for tabletop role-playing: characters with ability
scores, skills, saving throws, inventory, coins and spell slots, a dice roller with
advantage and disadvantage, and a script that turns a JSON item list into SQL seed
data. This project models the client-side logic behind those features as pure Dafny
functions over immutable datatypes, and proves what each operation promises.

Modules follow the program's structure:

- `Stats` holds the shared utilities: ability modifiers, proficiency and experience tables, coin breakdown.
- `Dice` and `DiceNotation` hold the dice engine and the "NdM±K" roller.
- `RollHistory` and `RollHistoryView` hold the roll-history provider and its panel.
- `Uuid` holds identifier generation and validation.
- `QuickRoll` holds the quick-roll buttons.
- `Sheet` and `SheetView` hold the sheet data and the skills, saving-throw and combat panels.
- `ProficiencyEditors` holds the skill and saving-throw editors.
- `Catalog`, `Inventory`, `Equipment`, `Encumbrance` and `Currency` hold the item catalogue accessors, the two inventory editors, equipment slots and AC, encumbrance, and the coin editor.
- `SpellSlots`, `SlotEditor`, `SlotTracker` and `SlotStorage` hold the spell-slot list, its editor, the in-play tracker and the stored form.
- `SpellData`, `SpellBrowser` and `SpellList` hold the spell catalogue filter and the grouped spell list.
- `CharacterEdit` and `CharacterDetail` hold the edit page (validation, form defaults, prepared spells, submit) and the detail page's quick-roll wiring. `CharacterDetailRolls` compares what that wiring makes the buttons show with the skills list on the same page, as written and corrected. As written, every button shows NaN, because the scores arrive under three-letter names while the buttons read full names.
- `Seed` holds the SQL escaping and item grouping of the seed generator.
- `Wrappers`, `Seqs` and `Text` are helpers: option and result types, sequence filtering, sorting and sums, and decimal text.

Several things outside the code are passed in as parameters:

- Randomness is an explicit sequence of draws. A draw r in [0, n) stands for `Math.floor(Math.random() * n)`.
- The clock is a `now` parameter in milliseconds.
- The proficiency and experience tables live in a constants file that is not part of this model. They are a `map<int, int>` parameter, where a missing key is JavaScript's `undefined`. `StandardProficiency` states the rule-book values where a lemma needs them.
- `JSON.stringify` and the locale-aware name comparison of the spell list are function parameters. The comparison must be a total preorder.
- Money is counted in whole copper pieces.

## Model

| member | source | states |
|---|---|---|
| Stats.CalculateAbilityModifier | packages/shared/src/utils/index.ts:7-9 | the modifier is the floor of (score − 10) / 2, characterised as the unique m with 2m ≤ score − 10 < 2m + 2, for negative scores too |
| Stats.ModifierDefinitionsAgree | packages/shared/src/utils/index.ts:7-9 | the shared modifier and the dice engine's `getAbilityModifier` give the same value for every score |
| Stats.CalculateAbilityModifiers | packages/shared/src/utils/index.ts:14-23 | the map has an entry for each of the six abilities, each the modifier of that ability's score |
| Stats.AbilityModifierSteps | packages/shared/src/utils/index.ts:7-9 | the modifier is monotone in the score and rises by exactly one for every two points |
| Stats.GetProficiencyBonus | packages/shared/src/utils/index.ts:28-30 | a present, non-zero table entry is returned as is; a missing or zero entry falls back to 2; the result is never 0 |
| Stats.ProficiencySourcesAgree | packages/shared/src/utils/index.ts:28-30 | with the rule-book table, the table lookup equals the dice engine's ceil(level/4)+1 on levels 1..20 and lies in 2..6 |
| Stats.ProficiencySourcesDiffer | packages/web/src/utils/dice.ts:148-150 | outside 1..20 the two proficiency functions disagree: level 0 gives 2 against 1, level 21 gives 2 against 7 |
| Stats.GetXPForNextLevel | packages/shared/src/utils/index.ts:35-38 | the threshold of level+1, capped at level 20's; undefined exactly when the table has no such key |
| Stats.LevelSearch | packages/shared/src/utils/index.ts:44-49 | the downward scan stops at the highest level whose threshold the XP reaches, and no level above it is reached |
| Stats.GetLevelFromXP | packages/shared/src/utils/index.ts:43-50 | the result is in 1..20, it is reached (or is the fallback 1), and every higher level is not reached |
| Stats.LevelMonotone | packages/shared/src/utils/index.ts:43-50 | more experience never gives a lower level, for any table |
| Stats.NextLevelThresholdReachesNextLevel | packages/shared/src/utils/index.ts:35-50 | with rising thresholds, exactly the XP reported for the next level puts a character on that level |
| Stats.FormatModifier | packages/shared/src/utils/index.ts:55-57 | the text starts with '+' exactly for non-negative modifiers and with '-' otherwise, and parses back to the modifier |
| Stats.ConvertCopperToCurrency | packages/shared/src/utils/index.ts:129-142 | the breakdown is worth exactly the given copper, with gold, silver and copper each in 0..9 |
| Stats.BreakdownUnique | packages/shared/src/utils/index.ts:129-142 | any purse of that value with gold, silver and copper below ten is the computed breakdown |
| Stats.BreakdownOfValue | packages/shared/src/utils/index.ts:123-143 | breaking down the value of a normalised purse gives that purse back |
| Dice.DiceTypeName | packages/web/src/utils/dice.ts:1 | each dice type is written 'd' followed by decimal digits |
| Dice.GetDiceMax | packages/web/src/utils/dice.ts:30-47 | the number of faces is the number written in the type's name, between 4 and 100 |
| Dice.RollDie | packages/web/src/utils/dice.ts:52-55 | a draw r in [0, max) gives the face r + 1, within 1..max |
| Dice.RollDice | packages/web/src/utils/dice.ts:60-62 | numDice faces (none for a negative count), each the matching draw plus one and within 1..max |
| Dice.PerformRoll | packages/web/src/utils/dice.ts:67-123 | rolls, total, final total, echoed request fields, mode flags; a second set is rolled and discarded exactly for a d20 with advantage or disadvantage, the kept set is the first on a tie, and it has the higher (advantage) or lower (disadvantage) sum |
| Dice.ModeIgnoredOffD20 | packages/web/src/utils/dice.ts:73-104 | on any die but the d20, advantage and disadvantage roll exactly like a normal roll and discard nothing |
| Dice.AdvantageKeepsMaximum | packages/web/src/utils/dice.ts:73-86 | with advantage on a d20 the total is the larger of the two set sums |
| Dice.DisadvantageKeepsMinimum | packages/web/src/utils/dice.ts:87-100 | with disadvantage on a d20 the total is the smaller of the two set sums |
| Dice.TotalBounds | packages/web/src/utils/dice.ts:106-107 | the total lies between the number of dice and that number times the faces |
| Dice.AdvantageExample | packages/web/src/utils/dice.ts:73-86 | an example only, for one draw sequence: a d20+5 with advantage drawing 17 and 3 keeps 17, discards 3 and totals 22; the general statement is `AdvantageKeepsMaximum` |
| Dice.FormatDiceRoll | packages/web/src/utils/dice.ts:128-136 | the notation is count and type, followed by a signed modifier exactly when it is non-zero, which parses back to the modifier |
| Dice.GetAbilityModifier | packages/web/src/utils/dice.ts:141-143 | floor((score − 10) / 2) characterised by 2m ≤ score − 10 < 2m + 2 |
| Dice.GetProficiencyBonus | packages/web/src/utils/dice.ts:148-150 | ceil(level / 4) + 1 characterised by 4(pb − 2) < level ≤ 4(pb − 1) |
| Dice.ProficiencyBands | packages/web/src/utils/dice.ts:148-150 | on levels 1..20 the bonus is 2..6, is 2 exactly up to level 4 and 6 exactly from level 17 |
| Dice.AbilityModifierMonotone | packages/web/src/utils/dice.ts:141-143 | a higher score never gives a lower modifier |
| DiceNotation.FirstMatch | packages/shared/src/utils/index.ts:63 | the leftmost position where the notation pattern matches, and no match anywhere when none is returned |
| DiceNotation.RollDiceString | packages/shared/src/utils/index.ts:62-77 | text without a dice notation rolls 0; otherwise the total is the modifier plus count dice, each draw plus one, bounded by count+mod and count·sides+mod |
| DiceNotation.MatchOfParts | packages/shared/src/utils/index.ts:63-69 | digits, 'd', digits and an optional signed tail are read as count, sides and modifier (0 without a tail) |
| DiceNotation.FormatThenParse | packages/shared/src/utils/index.ts:62-69 | the notation the dice engine prints for a non-negative count is parsed back to the same count, faces and modifier |
| RollHistory.NewProvider | packages/web/src/contexts/DiceRollerContext.tsx:17-18 | a new provider has an empty history and a cap of 50 unless one is given |
| RollHistory.Record | packages/web/src/contexts/DiceRollerContext.tsx:24-28 | the new result goes first, the old history follows, and the length is cut to the cap (with JavaScript's negative-end slice for a negative cap) |
| RollHistory.Roll | packages/web/src/contexts/DiceRollerContext.tsx:20-33 | returns the engine's result for the request and records it at the head of the history |
| RollHistory.ClearHistory | packages/web/src/contexts/DiceRollerContext.tsx:35-37 | the history is emptied and the cap kept |
| RollHistory.UseDiceRoller | packages/web/src/contexts/DiceRollerContext.tsx:46-52 | succeeds with the provider exactly when one is mounted, and otherwise fails with the provider error message |
| RollHistory.RecordAllBounded | packages/web/src/contexts/DiceRollerContext.tsx:24-28 | any number of rolls never lets the history grow past the cap |
| RollHistory.RecordAllKeepsNewest | packages/web/src/contexts/DiceRollerContext.tsx:24-28 | after a series of rolls the history is the newest results first, then the old history, cut to the cap |
| RollHistory.HistoryIsNewestFirst | packages/web/src/contexts/DiceRollerContext.tsx:17-33 | from a new provider, the history is the rolls in reverse order, at most the cap of them |
| RollHistoryView.ViewHistory | packages/web/src/components/dice/RollHistory.tsx:12-45 | the empty state exactly for an empty history; the listing is a prefix of the history, the whole history without a truthy limit, and shows the "showing n of m" notice exactly when it hides rolls |
| RollHistoryView.FormatTime | packages/web/src/components/dice/RollHistory.tsx:55-66 | "Just now" under a minute, whole minutes under an hour, whole hours under a day, the locale time after that |
| RollHistoryView.RollLabelIsNotation | packages/web/src/components/dice/RollHistory.tsx:68-74 | the history label is the same notation the dice engine formats |
| RollHistoryView.ModeLabelOfPerformedRoll | packages/web/src/components/dice/RollHistory.tsx:76-80 | the tag follows the requested mode alone, so it is shown without a discarded set exactly for advantage or disadvantage on a non-d20 |
| Uuid.TemplateFollowsClasses | packages/shared/src/utils/index.ts:162-176 | the 36-character template has its dashes, its fixed '4' and its variant place exactly where the format check expects them |
| Uuid.Variant | packages/shared/src/utils/index.ts:165 | the variant nibble, draw AND 3 OR 8, is one of 8, 9, a, b |
| Uuid.Fill | packages/shared/src/utils/index.ts:163-167 | the replacement keeps the template's length |
| Uuid.FillFits | packages/shared/src/utils/index.ts:163-167 | filling keeps every fixed character, puts a hex digit at each 'x' and one of 8, 9, a, b at each 'y' |
| Uuid.GenerateUUID | packages/shared/src/utils/index.ts:162-168 | the identifier fits the template (fixed characters kept, a hex digit at each 'x', one of 8, 9, a, b at 'y') and passes the format check |
| Uuid.IsValidUUID | packages/shared/src/utils/index.ts:173-176 | accepted exactly when 36 characters long with dashes at 8, 13, 18 and 23, '4' at 14, one of 89abAB at 19, and a hex digit of either case everywhere else |
| Uuid.GeneratedIsValid | packages/shared/src/utils/index.ts:162-176 | every generated identifier passes `isValidUUID` |
| Uuid.FitIsValid | packages/shared/src/utils/index.ts:173-176 | every lower-case string of the template's shape passes the format check |
| Uuid.FillReachesEveryFit | packages/shared/src/utils/index.ts:162-168 | every lower-case string of the template's shape is generated by some sequence of draws |
| QuickRoll.LongKeyScores | packages/web/src/components/dice/QuickRollButtons.tsx:5-12 | the scores object the component's interface declares holds every score under its ability's full name and no other property |
| QuickRoll.AbilityModifier | packages/web/src/components/dice/QuickRollButtons.tsx:57-58 | NaN exactly when the object has no property under the ability's full name; otherwise the floor of (score − 10) / 2 of that property |
| QuickRoll.ModifierText | packages/web/src/components/dice/QuickRollButtons.tsx:175-178 | "NaN" exactly for NaN; a number prints as signed text that parses back to it |
| QuickRoll.RollAbilityCheck | packages/web/src/components/dice/QuickRollButtons.tsx:57-66 | one plain d20 described "<ABBR> Check", whose modifier is NaN exactly when the score property is missing and otherwise the dice engine's modifier of it |
| QuickRoll.RollSavingThrow | packages/web/src/components/dice/QuickRollButtons.tsx:68-77 | one plain d20 described "<ABBR> Save", whose modifier is NaN exactly when the score property is missing |
| QuickRoll.SkillButtonModifier | packages/web/src/components/dice/QuickRollButtons.tsx:157-161 | the modifier printed on a skill button is NaN exactly when the skill's ability has no property under its full name |
| QuickRoll.RollSkillCheck | packages/web/src/components/dice/QuickRollButtons.tsx:79-92 | one plain d20 described with the skill's name, with " (Prof)" exactly when its key is listed; its modifier is NaN exactly when the score property is missing |
| QuickRoll.DeclaredScoresGiveModifiers | packages/web/src/components/dice/QuickRollButtons.tsx:57-77 | handed the scores under full names, ability checks and saves roll the dice engine's modifier of the score |
| QuickRoll.ButtonOfScores | packages/web/src/components/dice/QuickRollButtons.tsx:155-161 | with every score under its full name, a skill button shows the score's modifier plus the bonus exactly when the skill is listed |
| QuickRoll.ButtonOfListing | packages/web/src/components/dice/QuickRollButtons.tsx:155-161 | the same with the listing and the bonus given, in terms of the shared modifier |
| QuickRoll.RescoredButton | packages/web/src/components/dice/QuickRollButtons.tsx:155-161 | handing a button another scores object changes only the modifier it starts from, not the listing or the bonus |
| QuickRoll.SaveIgnoresProficiency | packages/web/src/components/dice/QuickRollButtons.tsx:68-77 | a save rolls the bare ability modifier, whatever the proficiency bonus |
| QuickRoll.SkillCheckOverAbilityCheck | packages/web/src/components/dice/QuickRollButtons.tsx:79-92 | a skill check's modifier is the ability check's plus the bonus exactly when the skill is listed (NaN staying NaN), and is marked proficient exactly then |
| QuickRoll.DefaultsAddNothing | packages/web/src/components/dice/QuickRollButtons.tsx:52-53 | with the default props no skill is proficient and skill checks roll the bare ability modifier |
| QuickRoll.ButtonShowsRolledModifier | packages/web/src/components/dice/QuickRollButtons.tsx:157-161 | the modifier shown on a skill button is the one its roll uses |
| QuickRoll.QuickRollRange | packages/web/src/components/dice/QuickRollButtons.tsx:57-66 | a quick d20 roll with a numeric modifier ends between 1 and 20 plus its modifier |
| SheetView.SkillFlags | packages/web/src/components/character/SkillsList.tsx:46-48 | a missing skills object or skill reads as neither proficient nor expert; otherwise the stored flags |
| SheetView.SkillTotalCases | packages/web/src/components/character/SkillsList.tsx:44-57 | expertise adds twice the bonus, proficiency alone adds it once, otherwise the ability modifier alone |
| SheetView.SkillBonusFieldIgnored | packages/web/src/components/character/SkillsList.tsx:44-57 | the stored `bonus` of a skill never changes the displayed total |
| SheetView.NullSkillsShowModifiers | packages/web/src/components/character/SkillsList.tsx:46-50 | without a skills object every skill shows its ability modifier |
| SheetView.SkillBonusText | packages/web/src/components/character/SkillsList.tsx:57 | the text is signed, starts with '+' exactly for non-negative totals, and parses back to the total |
| SheetView.SaveTotalCases | packages/web/src/components/character/SavingThrows.tsx:26-35 | a proficient save adds the bonus once, any other adds nothing, and the stored `bonus` never counts |
| SheetView.SaveBonusText | packages/web/src/components/character/SavingThrows.tsx:35 | the text is signed and parses back to the save total |
| SheetView.ViewCombat | packages/web/src/components/character/CombatStats.tsx:9-76 | initiative and AC fall back to the dex modifier and 10 + dex only when absent, current HP to max HP, max HP to 0, speed to 30, proficiency to 2; temporary HP shows only when positive |
| Sheet.TablesComplete | packages/web/src/components/character/SkillsList.tsx:16-35 | the sheet lists all eighteen skills and six abilities, each exactly once |
| Sheet.SnakeKeyRoundTrip | packages/web/src/components/character/SkillProficiencyEditor.tsx:15-34 | a stored key reads back as the skill it was written for |
| Sheet.CamelKeyRoundTrip | packages/web/src/components/dice/QuickRollButtons.tsx:29-48 | a quick-roll key reads back as the skill it was written for |
| Sheet.SnakeKeysDistinct | packages/web/src/components/character/SkillProficiencyEditor.tsx:15-34 | two skills share a stored key only if they are the same skill |
| Sheet.CamelKeysDistinct | packages/web/src/components/dice/QuickRollButtons.tsx:29-48 | two skills share a quick-roll key only if they are the same skill |
| Sheet.CamelKeyMatchesStoredKey | packages/web/src/components/dice/QuickRollButtons.tsx:29-48 | the quick-roll key equals the stored key for every skill except Animal Handling and Sleight of Hand, whose quick-roll keys match no stored key at all |
| ProficiencyEditors.CreateDefaultSkills | packages/web/src/components/character/SkillProficiencyEditor.tsx:36-57 | every skill is present, unflagged, with bonus 0 |
| ProficiencyEditors.InitialSkills | packages/web/src/components/character/SkillProficiencyEditor.tsx:59-62 | the stored skills when there are any, otherwise the defaults |
| ProficiencyEditors.HandleSkillChange | packages/web/src/components/character/SkillProficiencyEditor.tsx:70-88 | only the edited skill changes; setting expertise also sets proficiency, clearing proficiency also clears expertise, the other flag and the bonus are kept otherwise |
| ProficiencyEditors.SkillChangeKeepsInvariant | packages/web/src/components/character/SkillProficiencyEditor.tsx:81-83 | starting from defaults or from a sheet where expertise implies proficiency, one change keeps that true |
| ProficiencyEditors.EditsKeepInvariant | packages/web/src/components/character/SkillProficiencyEditor.tsx:70-88 | any sequence of edits keeps expertise implying proficiency |
| ProficiencyEditors.InitialSaves | packages/web/src/components/character/SavingThrowEditor.tsx:18-30 | the stored saves when there are any, otherwise all six abilities unproficient with bonus 0 |
| ProficiencyEditors.HandleSaveChange | packages/web/src/components/character/SavingThrowEditor.tsx:38-51 | only the edited save changes: its flag becomes the given value and its bonus is kept |
| ProficiencyEditors.CountSplit | packages/web/src/components/character/SavingThrowEditor.tsx:53-55 | the proficient count is the count without one ability plus that ability's own flag |
| ProficiencyEditors.SaveChangeMovesCount | packages/web/src/components/character/SavingThrowEditor.tsx:38-55 | a change moves the proficient count by exactly the flag removed and the flag set |
| ProficiencyEditors.ClassifySaves | packages/web/src/components/character/SavingThrowEditor.tsx:100-117 | the usual note exactly at two proficient saves, the warning above two, nothing below |
| Catalog.GetItemSlot | packages/web/src/types/database.ts:23-28 | a slot exactly when properties is an object with a non-empty `slot`, and then that slot; null properties, a missing key or an empty value give none |
| Catalog.GetItemBonus | packages/web/src/types/database.ts:31-36 | a bonus exactly when properties is an object holding a non-null `bonus`, and then that bonus |
| Catalog.FindItem | packages/web/src/components/character/InventoryListEnhanced.tsx:39-42 | a found item is in the catalogue with the searched id; nothing is found exactly when no entry has that id |
| Inventory.UpdateAt | packages/web/src/components/character/InventoryListEnhanced.tsx:69-75 | the list keeps its length, every other entry is unchanged and the indexed entry is updated; an out-of-range index changes nothing |
| Inventory.AddCatalogItem | packages/web/src/components/character/InventoryListEnhanced.tsx:44-61 | the old list followed by one entry for the item, with the quantity, unequipped and unattuned |
| Inventory.RemoveAt | packages/web/src/components/character/InventoryListEnhanced.tsx:63-67 | exactly the indexed entry is removed and the rest keep their order; an out-of-range index changes nothing |
| Inventory.ToggleEquipped | packages/web/src/components/character/InventoryListEnhanced.tsx:69-75 | only the indexed entry changes, and only its equipped flag, which flips |
| Inventory.SetQuantity | packages/web/src/components/character/InventoryListEnhanced.tsx:93-100 | a quantity below 1 changes nothing; otherwise only the indexed entry's quantity changes |
| Inventory.ToggleAttunedUncapped | packages/web/src/components/character/InventoryList.tsx:60-66 | the free-text editor flips the indexed entry's attunement with no cap and touches nothing else |
| Inventory.ToggleAttunedCapped | packages/web/src/components/character/InventoryListEnhanced.tsx:77-91 | attuning is refused exactly when the entry is not attuned and three are already attuned; otherwise only that entry's flag flips |
| Inventory.ToggleAttunedCount | packages/web/src/components/character/InventoryListEnhanced.tsx:77-91 | un-attuning lowers the count by one, attuning below the cap raises it by one, a refused attempt keeps it |
| Inventory.AttunementCapKept | packages/web/src/components/character/InventoryListEnhanced.tsx:81-84 | from at most three attuned items, a toggle never leads to more than three |
| Inventory.CatalogWeightOfAdd | packages/web/src/components/character/InventoryListEnhanced.tsx:39-42 | adding an entry adds its weight times quantity, and nothing when its details are not loaded |
| Inventory.TotalWeightAppend | packages/web/src/components/character/InventoryList.tsx:77-80 | the total weight of two lists joined is the sum of their totals |
| Inventory.TotalWeightOfRemove | packages/web/src/components/character/InventoryList.tsx:46-50 | removing an entry lowers the total by that entry's weight times quantity |
| Inventory.TogglesKeepWeight | packages/web/src/components/character/InventoryList.tsx:52-66 | equipping and attuning never change the total weight |
| Inventory.AddCustomItem | packages/web/src/components/character/InventoryList.tsx:24-44 | a blank name changes nothing; otherwise one unequipped, unattuned entry with a time-based temporary id is appended |
| Inventory.CustomItemWeight | packages/web/src/components/character/InventoryList.tsx:24-44 | adding a named item raises the total weight by its weight times quantity |
| Equipment.EquippedItems | packages/web/src/components/character/EquipmentSlots.tsx:30-31 | an order-preserving selection of the inventory holding every equipped entry and nothing else, as many entries as are equipped; empty for a missing inventory |
| Equipment.GetItemsInSlot | packages/web/src/components/character/EquipmentSlots.tsx:37-47 | the listed entries are, in order, exactly the equipped entries in that slot, each paired with its own catalogue item |
| Equipment.PickedFirsts | packages/web/src/components/character/EquipmentSlots.tsx:37-47 | the entries of the pairs kept by the slot test are exactly the accepted entries, in order |
| Equipment.SlotListingCount | packages/web/src/components/character/EquipmentSlots.tsx:37-47 | the listing holds as many pairs as there are equipped entries in the slot, with no cap |
| Equipment.SlotsAreDisjoint | packages/web/src/components/character/EquipmentSlots.tsx:37-47 | an entry is listed under one slot at most |
| Equipment.RingLimitNotEnforced | packages/web/src/components/character/EquipmentSlots.tsx:96-99 | three equipped rings are all listed although the ring slot displays a capacity of 2 |
| Equipment.ACContributionRules | packages/web/src/components/character/EquipmentSlots.tsx:49-70 | an unloaded item adds 0; a non-zero `bonus.ac` wins; otherwise `armor_class` counts only in the body and shield slots |
| Equipment.TotalACAppend | packages/web/src/components/character/EquipmentSlots.tsx:49-70 | the AC bonus of two lists joined is the sum of their bonuses |
| Equipment.EquippingAddsContribution | packages/web/src/components/character/EquipmentSlots.tsx:30-70 | one more equipped entry raises the AC bonus by exactly its own contribution |
| Equipment.UnequippedAddsNothing | packages/web/src/components/character/EquipmentSlots.tsx:30-70 | an unequipped entry never changes the AC bonus |
| Encumbrance.ThresholdsFor | packages/web/src/components/character/EncumbranceTracker.tsx:14-19 | capacity is the shared carrying capacity 15·STR, it is the sum of the 5·STR and 10·STR thresholds, and they are ordered for STR ≥ 0 |
| Encumbrance.LevelOf | packages/web/src/components/character/EncumbranceTracker.tsx:32-47 | over exactly above capacity, heavily above the heavy threshold, encumbered above the first; a weight on a threshold stays in the lower level |
| Encumbrance.PenaltyOf | packages/web/src/components/character/EncumbranceTracker.tsx:35-44 | "cannot move" exactly when over; otherwise 0, 10 or 20 feet by level |
| Encumbrance.LevelMonotone | packages/web/src/components/character/EncumbranceTracker.tsx:32-47 | carrying more never lowers the level |
| Encumbrance.ThresholdsAreInclusive | packages/web/src/components/character/EncumbranceTracker.tsx:32-47 | for STR > 0 each threshold weight is still the lower level, and one unit above capacity is over |
| Encumbrance.BannerShownIff | packages/web/src/components/character/EncumbranceTracker.tsx:106-116 | the warning banner shows exactly when the weight exceeds the first threshold (5·STR, or 15·STR for a negative STR) |
| Encumbrance.TogglesKeepLevel | packages/web/src/components/character/EncumbranceTracker.tsx:22-25 | equipping or unequipping never changes the level |
| Encumbrance.DroppingNeverRaisesLevel | packages/web/src/components/character/EncumbranceTracker.tsx:22-47 | removing an entry of non-negative weight never raises the level |
| Currency.Rate | packages/web/src/components/character/CurrencyEditor.tsx:29-33 | the rate of a coin is the copper value of a purse holding that one coin |
| Currency.Set | packages/web/src/components/character/CurrencyEditor.tsx:23-27 | the named denomination takes the value and the other three are kept |
| Currency.InitialPurse | packages/web/src/components/character/CurrencyEditor.tsx:19-21 | a stored purse is used as is; no purse gives zero of every coin |
| Currency.InputValue | packages/web/src/components/character/CurrencyEditor.tsx:51 | a number that parses is used; anything else counts as 0 |
| Currency.HandleChange | packages/web/src/components/character/CurrencyEditor.tsx:23-27 | exactly one denomination takes the typed value and the others are unchanged |
| Currency.ValueByRates | packages/web/src/components/character/CurrencyEditor.tsx:29-33 | the total in copper is each count times its coin's rate, summed |
| Currency.StatedRatesHold | packages/web/src/components/character/CurrencyEditor.tsx:71 | 1 PP = 10 GP, 1 GP = 10 SP and 1 SP = 10 CP, as the editor states |
| Currency.ChangeMovesValue | packages/web/src/components/character/CurrencyEditor.tsx:23-33 | a change moves the total by the coin's rate times the change in its count |
| Currency.ChangeToSameIsIdentity | packages/web/src/components/character/CurrencyEditor.tsx:23-27 | typing the current count back leaves the purse unchanged |
| Currency.BreakdownOfPurse | packages/shared/src/utils/index.ts:123-143 | breaking down a purse's value keeps its value, and gives back any normalised purse |
| SpellSlots.FindIndex | packages/web/src/components/character/SpellSlotEditor.tsx:19 | the first position holding the level, and none exactly when no entry has it |
| SpellSlots.FindSlot | packages/web/src/components/character/SpellSlotEditor.tsx:133-134 | an entry of the level taken from the list, and none exactly when no entry has it |
| SpellSlots.FindInAscending | packages/web/src/components/character/SpellSlotEditor.tsx:133-134 | in an ascending list the entry found for a level is that level's only entry |
| SpellSlots.UpdateLevel | packages/web/src/components/character/SpellSlotEditor.tsx:22-24 | entries of the level are updated and every other entry is kept, in place |
| SpellSlots.UpdateKeepsAscending | packages/web/src/components/character/SpellSlotEditor.tsx:22-24 | an update that keeps levels keeps the list ascending |
| SpellSlots.RemainingBounded | packages/web/src/components/character/SpellSlotTracker.tsx:45-46 | when no level overspends, used and available slots lie between zero and the grand total |
| SlotEditor.AddLevel | packages/web/src/components/character/SpellSlotEditor.tsx:19-34 | a configured level keeps the list length; a new level adds exactly one entry of one unspent slot |
| SlotEditor.RemoveLevel | packages/web/src/components/character/SpellSlotEditor.tsx:36-53 | an absent level changes nothing, and no entry is ever added |
| SlotEditor.SetTotal | packages/web/src/components/character/SpellSlotEditor.tsx:55-66 | a positive count keeps the list length, and a level that is not configured is left unchanged |
| SlotEditor.SetTotalIgnoresNewLevel | packages/web/src/components/character/SpellSlotEditor.tsx:61-65 | typing 2 for an unconfigured level 3 leaves its count at 0 |
| SlotEditor.NonPositiveTotalRemovesOne | packages/web/src/components/character/SpellSlotEditor.tsx:56-59 | a count of zero or less acts as one press of remove: the shown count drops by one, not to zero |
| SlotEditor.SetTotalAdding | packages/web/src/components/character/SpellSlotEditor.tsx:55-66 | the same as the editor's setter whenever the level is configured or the count is not positive |
| SlotEditor.SetTotalAddingSetsCount | packages/web/src/components/character/SpellSlotEditor.tsx:55-66 | a typed positive count is shown afterwards on every level, configured or not, and the list stays ascending |
| SlotEditor.AscendingIsSorted | packages/web/src/components/character/SpellSlotEditor.tsx:29 | an ascending list is sorted by level in the sense of the sort the editor calls |
| SlotEditor.AddNewIsInsert | packages/web/src/components/character/SpellSlotEditor.tsx:28-29 | appending a new level and sorting inserts it in place, keeping the list ascending |
| SlotEditor.AddKeepsAscending | packages/web/src/components/character/SpellSlotEditor.tsx:19-34 | adding keeps levels strictly ascending |
| SlotEditor.AddRaisesCount | packages/web/src/components/character/SpellSlotEditor.tsx:19-34 | adding raises the shown count of that level by exactly one |
| SlotEditor.RemoveUndoesAdd | packages/web/src/components/character/SpellSlotEditor.tsx:19-53 | on an ascending list, add then remove of the same level restores the list |
| SlotEditor.RemoveLowersCount | packages/web/src/components/character/SpellSlotEditor.tsx:36-53 | removing lowers the shown count by one, down to 0 and no further |
| SlotEditor.RemoveKeepsAscending | packages/web/src/components/character/SpellSlotEditor.tsx:36-53 | removing keeps levels strictly ascending |
| SlotEditor.SetTotalKeepsAscending | packages/web/src/components/character/SpellSlotEditor.tsx:55-66 | setting a count keeps levels strictly ascending |
| SlotEditor.OtherLevelsUnchanged | packages/web/src/components/character/SpellSlotEditor.tsx:19-66 | add, remove and set never change the count shown for any other level |
| SlotEditor.RemoveLeavesOtherLevels | packages/web/src/components/character/SpellSlotEditor.tsx:36-53 | removing leaves every other level's entry as it was |
| SlotEditor.SetTotalSetsCount | packages/web/src/components/character/SpellSlotEditor.tsx:61-65 | on a configured level a positive count is shown afterwards, and used is clamped to it |
| SlotEditor.QuickSetWizard | packages/web/src/components/character/SpellSlotEditor.tsx:68-104 | a known level gives slot levels 1, 2, … in order with the table's totals and nothing spent; any other level changes nothing |
| SlotEditor.WizardRowLengths | packages/web/src/components/character/SpellSlotEditor.tsx:70-91 | the table has a row exactly for levels 1..20, of min((L+1)/2, 9) spell levels |
| SlotEditor.WizardSlotsGrow | packages/web/src/components/character/SpellSlotEditor.tsx:70-91 | a higher character level never has fewer spell levels or fewer slots on any of them |
| SlotEditor.QuickSetWellFormed | packages/web/src/components/character/SpellSlotEditor.tsx:68-104 | the wizard preset keeps the list ascending and within totals, and spends nothing |
| SlotTracker.ClickPip | packages/web/src/components/character/SpellSlotTracker.tsx:30-31 | a click keeps level and total, and keeps used within 0..total whenever total ≥ 0 |
| SlotTracker.ToggleSlot | packages/web/src/components/character/SpellSlotTracker.tsx:25-37 | each entry of the clicked level takes the pip click's result, every other entry is unchanged, and no level or total changes |
| SlotTracker.ClickUnspent | packages/web/src/components/character/SpellSlotTracker.tsx:30-31 | clicking an unspent pip spends every pip up to and including it |
| SlotTracker.ClickSpent | packages/web/src/components/character/SpellSlotTracker.tsx:30-31 | clicking a spent pip recovers exactly one slot |
| SlotTracker.ClickTwiceRestores | packages/web/src/components/character/SpellSlotTracker.tsx:30-31 | clicking the next unspent pip twice restores the entry |
| SlotTracker.ToggleKeepsWithinTotals | packages/web/src/components/character/SpellSlotTracker.tsx:25-37 | a click never lets any level overspend or go negative |
| SlotTracker.ToggleKeepsAvailable | packages/web/src/components/character/SpellSlotTracker.tsx:45-46 | a click never changes the grand total of slots |
| SlotTracker.LongRest | packages/web/src/components/character/SpellSlotTracker.tsx:39-43 | every level ends with nothing spent, keeping its level and total |
| SlotTracker.LongRestRestoresAll | packages/web/src/components/character/SpellSlotTracker.tsx:39-46 | after a long rest nothing is used, the total is kept, and a second rest changes nothing |
| SlotTracker.ActiveSlots | packages/web/src/components/character/SpellSlotTracker.tsx:49-64 | the drawn levels are, in order, exactly those with at least one slot |
| SlotTracker.NoSlotsCard | packages/web/src/components/character/SpellSlotTracker.tsx:49-64 | the empty state shows exactly when no level has a positive total |
| SlotStorage.SlotsFromDb | packages/web/src/pages/CharacterEditPage.tsx:99-106 | one slot per stored level, total = max and used = max − current; a null column gives no slots |
| SlotStorage.SlotsToDb | packages/web/src/pages/CharacterEditPage.tsx:143-151 | the stored value is null exactly when there are no slots |
| SlotStorage.PutAfterAll | packages/web/src/pages/CharacterEditPage.tsx:145-148 | writing a key above every stored key appends it at the end |
| SlotStorage.BuildDbOfStorable | packages/web/src/pages/CharacterEditPage.tsx:143-151 | an ascending list is stored entry by entry with current = total − used and max = total |
| SlotStorage.UiRoundTrip | packages/web/src/pages/CharacterEditPage.tsx:99-151 | saving and reloading an ascending list of non-negative levels gives it back |
| SlotStorage.DbRoundTrip | packages/web/src/pages/CharacterEditPage.tsx:99-151 | loading and saving a well-formed stored object gives it back, with an empty object saved as null |
| SlotStorage.LoadedWithinTotals | packages/web/src/pages/CharacterDetailPage.tsx:33-39 | stored slots with 0 ≤ current ≤ max load with nothing overspent |
| SpellBrowser.FilteredSpells | packages/web/src/components/character/SpellBrowser.tsx:158-184 | an order-preserving selection of the catalogue: every kept spell passes each active filter, and every spell passing all active filters is kept |
| SpellBrowser.NoFiltersShowsAll | packages/web/src/components/character/SpellBrowser.tsx:158-184 | with no filter active the whole catalogue is shown, in order |
| SpellBrowser.ClearShowsAll | packages/web/src/components/character/SpellBrowser.tsx:198-206 | after clearing, no filter is active and the whole catalogue is shown |
| SpellBrowser.QueryCaseIgnored | packages/web/src/components/character/SpellBrowser.tsx:161 | the name search ignores the case of the query |
| SpellBrowser.ClassFilterNeedsBoth | packages/web/src/components/character/SpellBrowser.tsx:176-180 | without both the toggle and a non-empty class, the class filter excludes nothing |
| SpellBrowser.ToggleLevel | packages/web/src/components/character/SpellBrowser.tsx:186-190 | the level's membership flips and the other filters are kept |
| SpellBrowser.ToggleSchool | packages/web/src/components/character/SpellBrowser.tsx:192-196 | the school's membership flips and the other filters are kept |
| SpellBrowser.ToggleLevelTwice | packages/web/src/components/character/SpellBrowser.tsx:186-190 | toggling an unselected level on and off restores the filters |
| SpellBrowser.ToggleSchoolTwice | packages/web/src/components/character/SpellBrowser.tsx:192-196 | toggling an unselected school on and off restores the filters |
| SpellBrowser.ComponentLetters | packages/web/src/components/character/SpellBrowser.tsx:43-51 | V, S and M appear exactly for the flags present, in that order |
| SpellBrowser.LettersInOrder | packages/web/src/components/character/SpellBrowser.tsx:43-51 | any choice of letters keeps the V, S, M order |
| SpellBrowser.LevelLabel | packages/web/src/components/character/SpellBrowser.tsx:53 | "Cantrip" exactly for level 0, otherwise "Level " and the number |
| SpellBrowser.LevelLabelInjective | packages/web/src/components/character/SpellBrowser.tsx:53 | two levels with the same label are the same level |
| SpellList.GroupStep | packages/web/src/components/character/SpellList.tsx:116-122 | one more spell joins its own level's group only |
| SpellList.AbsentLevelIsEmpty | packages/web/src/components/character/SpellList.tsx:116-122 | a level no spell has gets no spells |
| SpellList.GroupByLevel | packages/web/src/components/character/SpellList.tsx:116-122 | a group exists exactly for each level present, holding that level's spells in list order |
| SpellList.InsertKeepsStrict | packages/web/src/components/character/SpellList.tsx:129-131 | sorting in a new level keeps the level list strictly ascending with the same members plus the new one |
| SpellList.AscendingLevels | packages/web/src/components/character/SpellList.tsx:129-131 | the levels with spells, strictly ascending, each exactly once |
| SpellList.LevelHeading | packages/web/src/components/character/SpellList.tsx:148-154 | "Cantrips" exactly for level 0; otherwise the number, the ordinal suffix st, nd, rd or th, and " Level" |
| SpellList.LevelHeadingInjective | packages/web/src/components/character/SpellList.tsx:148-154 | two levels with the same heading are the same level |
| SpellList.ViewSpells | packages/web/src/components/character/SpellList.tsx:116-146 | the empty state exactly for no spells; otherwise one group per level present, ascending, headed by its label and holding exactly that level's spells |
| SpellList.SpellsUnderTheirLevel | packages/web/src/components/character/SpellList.tsx:116-122 | a spell is listed in a group exactly when it is one of the spells of that group's level |
| SpellList.GroupsSortedByName | packages/web/src/components/character/SpellList.tsx:125-127 | inside each group the spells are sorted by the name comparator |
| SpellList.HitsOnce | packages/web/src/components/character/SpellList.tsx:129-131 | a level in the strictly ascending list occurs there once |
| SpellList.CountUnderAll | packages/web/src/components/character/SpellList.tsx:116-131 | when every spell's level is listed once, the spells counted over the levels are all the spells |
| SpellList.GroupSizesSum | packages/web/src/components/character/SpellList.tsx:116-131 | the group sizes add up to the number of spells |
| SpellList.ComponentList | packages/web/src/components/character/SpellList.tsx:22-30 | the same letters in the same order as the browser's badges, the material one written "M (text)" |
| CharacterEdit.AbilityIssues | packages/web/src/pages/CharacterEditPage.tsx:29-36 | no issue exactly when every listed ability is between 1 and 30; every out-of-range ability, and nothing else, is reported under its schema key `ability_scores.str`, `ability_scores.dex`, … |
| CharacterEdit.AbilityPathsReported | packages/web/src/pages/CharacterEditPage.tsx:286-308 | the path `ability_scores.<key>` that an ability's input is registered under, and its error read from, carries an issue exactly when that score is outside 1..30 |
| CharacterEdit.Validate | packages/web/src/pages/CharacterEditPage.tsx:21-43 | no issues exactly for a name of 1..50 characters, level 1..20, XP ≥ 0, max HP ≥ 1, current HP ≥ 0, AC ≥ 1, speed ≥ 0 and abilities 1..30; the first issue names an empty or too long name; an ability's schema path carries an issue exactly when its score is out of range |
| CharacterEdit.FormDefaults | packages/web/src/pages/CharacterEditPage.tsx:70-79 | name, level and scores are carried over; a stored non-zero number is kept; HP, AC and speed never start at 0 |
| CharacterEdit.FormDefaultsNullish | packages/web/src/pages/CharacterEditPage.tsx:70-79 | every stored number is kept, 0 included; only a missing one takes its default of 10, 10, 10 or 30 |
| CharacterEdit.OrElse | packages/web/src/pages/CharacterEditPage.tsx:74-78 | a stored non-zero value is used; null or 0 takes the fallback |
| CharacterEdit.Nullish | packages/web/src/pages/CharacterEditPage.tsx:74-78 | any stored value is used, 0 included; only null takes the fallback |
| CharacterEdit.ZeroHitPointsReloadAsTen | packages/web/src/pages/CharacterEditPage.tsx:76 | a character stored at 0 hit points, shown with 0 on the sheet, opens the form at 10 |
| CharacterEdit.ZeroSpeedReloadsAsThirty | packages/web/src/pages/CharacterEditPage.tsx:78 | a character stored with speed 0, shown with 0 on the sheet, opens the form at 30 |
| CharacterEdit.NullishDefaultsMatchSheet | packages/web/src/pages/CharacterEditPage.tsx:74-78 | the corrected defaults show the same current HP and max HP as the combat panel when they are stored (0 included), and always the same speed |
| CharacterEdit.MissingHitPointsDiffer | packages/web/src/components/character/CombatStats.tsx:24-27 | with a value missing they still differ: the panel shows a missing current HP as the maximum and a missing maximum as 0, while the form starts both at 10 |
| CharacterEdit.DefaultsDifferOnlyOnZero | packages/web/src/pages/CharacterEditPage.tsx:74-78 | the written and corrected defaults agree whenever no stored value is 0 |
| CharacterEdit.DefaultsPassNumericChecks | packages/web/src/pages/CharacterEditPage.tsx:21-43 | from stored values the validator accepts, both defaults pass the HP, AC and speed checks |
| CharacterEdit.AddPrepared | packages/web/src/pages/CharacterEditPage.tsx:125-129 | the id is present afterwards, nothing else joins, the old order is kept, and a duplicate-free list stays duplicate-free |
| CharacterEdit.RemovePrepared | packages/web/src/pages/CharacterEditPage.tsx:131-133 | every occurrence of the id goes, every other id stays, in order |
| CharacterEdit.RemoveUndoesAdd | packages/web/src/pages/CharacterEditPage.tsx:125-133 | removing a just-added new id gives the list back |
| CharacterEdit.AddedShowsInBrowser | packages/web/src/components/character/SpellBrowser.tsx:302 | an added spell shows as added in the browser, a removed one does not |
| CharacterEdit.Submit | packages/web/src/pages/CharacterEditPage.tsx:139-164 | proficiency from the shared table, initiative as the dex modifier, slots in stored form, and an empty prepared list saved as null |
| CharacterEdit.SavedInitiativeIsDexModifier | packages/web/src/pages/CharacterEditPage.tsx:140 | after saving, the combat panel shows the dex modifier as initiative |
| CharacterEdit.SavedProficiencyIsStandard | packages/web/src/pages/CharacterEditPage.tsx:139 | with the rule-book table a valid form saves proficiency (level − 1) / 4 + 2 |
| CharacterDetail.DetailProficiency | packages/web/src/pages/CharacterDetailPage.tsx:42 | 0 without a character; otherwise the dice engine's ceil(level/4)+1, characterised by 4(pb − 2) < level ≤ 4(pb − 1) |
| CharacterDetail.DetailProficiencyMatchesSheet | packages/web/src/pages/CharacterDetailPage.tsx:42 | on levels 1..20 with the rule-book table, the page's bonus equals the shared table's and lies in 2..6 |
| CharacterDetail.KeyList | packages/web/src/pages/CharacterDetailPage.tsx:43-47 | at most one key per skill of the list |
| CharacterDetail.KeyListContents | packages/web/src/pages/CharacterDetailPage.tsx:43-47 | every listed key is the key of a skill the test keeps, and every kept skill's key is listed |
| CharacterDetail.KeyListOfInjective | packages/web/src/pages/CharacterDetailPage.tsx:43-47 | with distinct keys, a skill's key is listed exactly when the test keeps that skill |
| CharacterDetail.SkillProficienciesAsWritten | packages/web/src/pages/CharacterDetailPage.tsx:43-47 | null skills give no keys; otherwise a skill's stored key is listed exactly when the skill is stored, whatever its flags |
| CharacterDetail.SkillProficienciesCorrected | packages/web/src/pages/CharacterDetailPage.tsx:43-47 | a skill's quick-roll key is listed exactly when the skill is stored with `proficient` set |
| CharacterDetail.StoredScoreObject | packages/shared/src/types/index.ts:282-289 | the stored scores object holds every score under its three-letter name and no other property |
| CharacterDetail.DetailProps | packages/web/src/pages/CharacterDetailPage.tsx:157-161 | the buttons receive the stored scores object, which has no property under any full ability name, the page's bonus, and the key list as written |
| CharacterDetail.CorrectedProps | packages/web/src/pages/CharacterDetailPage.tsx:157-161 | corrected hand-off: every score under its full name, the page's bonus, and the quick-roll keys of the skills stored with `proficient` set |
| CharacterDetailRolls.DetailButtonsShowNaN | packages/web/src/pages/CharacterDetailPage.tsx:157-161 | on the detail page every ability-check, saving-throw and skill button computes NaN and prints "NaN" |
| CharacterDetailRolls.CorrectedAbilityButtons | packages/web/src/pages/CharacterDetailPage.tsx:157-161 | with the scores under full names, ability checks and saves roll the sheet's modifier of the score |
| CharacterDetailRolls.ScoresFixedButton | packages/web/src/pages/CharacterDetailPage.tsx:157-161 | with only the scores fixed, a skill button shows the modifier plus the page's bonus exactly when the as-written list has the skill |
| CharacterDetailRolls.StoredSkillRolledAsProficient | packages/web/src/pages/CharacterDetailPage.tsx:43-47 | a stored one-word skill is listed and rolled as "<name> (Prof)" whatever its flags; once the scores are fixed, with neither flag set, its button shows the skills list's total plus the bonus |
| CharacterDetailRolls.UnproficientAthleteMarkedProficient | packages/web/src/pages/CharacterDetailPage.tsx:43-47 | a level-1 character with an unflagged Athletics entry and Strength 10 rolls "Athletics (Prof)" with a NaN button, while the skills list shows it unproficient at +0; with the scores fixed the button would read +2 |
| CharacterDetailRolls.TwoWordSkillsNeverProficient | packages/web/src/components/dice/QuickRollButtons.tsx:82 | Animal Handling and Sleight of Hand are never listed from this page: the roll is described by the bare name, and with the scores fixed the button shows the bare modifier |
| CharacterDetailRolls.CorrectedListed | packages/web/src/pages/CharacterDetailPage.tsx:43-47 | with the corrected list a skill is listed exactly when it is stored with `proficient` set |
| CharacterDetailRolls.CorrectedButtonModifier | packages/web/src/components/dice/QuickRollButtons.tsx:157-161 | with both corrections a skill button is a number: the sheet's modifier plus the bonus exactly when the stored flag is set |
| CharacterDetailRolls.CorrectedMatchesSkillsList | packages/web/src/components/character/SkillsList.tsx:44-57 | with both corrections every button on levels 1..20 equals the skills list's total, except that expertise doubling is not applied on the button |
| Seed.DoubleQuotes | packages/database/scripts/generate-seed.ts:95 | text without a single quote is unchanged |
| Seed.DoubledLength | packages/database/scripts/generate-seed.ts:95 | doubling adds exactly one character per single quote |
| Seed.ReadBodyOfDoubled | packages/database/scripts/generate-seed.ts:94-95 | reading a doubled text back stops at its closing quote and gives the original text and what follows |
| Seed.Quote | packages/database/scripts/generate-seed.ts:90-95 | a quoted text reads back as the original, alone or followed by "::jsonb" |
| Seed.EscapeSql | packages/database/scripts/generate-seed.ts:80-96 | null and undefined give the word null, booleans true or false, numbers text that parses back to the number, strings a literal reading back to the string, objects a literal reading back to their JSON followed by ::jsonb |
| Seed.QuotedExactlyForStringsAndObjects | packages/database/scripts/generate-seed.ts:80-96 | the output is a quoted literal exactly for strings and objects |
| Seed.Partition | packages/database/scripts/generate-seed.ts:197-227 | weapons, armour, other and magic hold exactly the items meeting their own test |
| Seed.PartitionCoversItems | packages/database/scripts/generate-seed.ts:197-227 | every item is in some group, other and magic exclude every other group, and an item with damage and an armour class is in both weapons and armour |
| Seed.GroupSizes | packages/database/scripts/generate-seed.ts:197-227 | the group sizes add up to the number of items plus the number written twice |

## Left out

- Network and storage: the Supabase services, the React Query hooks, loading the character, the spell ids fetched for the detail page (`CharacterDetailPage.tsx:29`) and the seed script's file reading and writing. All of these are I/O.
- React rendering, routing and component state: every component is modelled as the pure function from its props and state to what it shows or saves. Callbacks such as `onChange` are the returned value.
- Randomness: the distribution of `Math.random` is not modelled. Draws are inputs, and the contracts hold for every draw sequence.
- Floating point: `getAverageDiceValue`'s fractional mean, `convertToGold`, the `Math.round(gold * 100)` step of `convertGoldToCurrency`, the gold total shown with `toFixed` and the percentage bar of the encumbrance tracker are left out. `Stats.ConvertCopperToCurrency` starts from a whole number of copper pieces.
- Fractional weights: item weights are whole numbers. The source reads a custom item's weight with `parseFloat` (`InventoryList.tsx:112`), and catalogue weights are JavaScript numbers, so a weight such as 0.5 lb is not modelled.
- `formatCurrency` and `formatWeight` are left out. They are display-only string templates with no decision beyond the plural 's'.
- Stats.CalculateCarryingCapacity: has no contract of its own. It is used through `Encumbrance.ThresholdsFor`, whose contract fixes capacity at 15·STR.
- Text handling: `toLowerCase` is modelled for ASCII letters only, and `localeCompare` is a comparator parameter. `toLocaleTimeString` is a string parameter, and `parseInt` of the coin inputs is an optional integer parameter.
- Numbers in the seed data are integers; non-integer JSON numbers are not modelled. `JSON.stringify` is a parameter, so only the quoting around its output is proved.
- SlotStorage.SlotsFromDb: the stored object is a list of (level, slot) pairs in ascending key order. This relies on JavaScript listing integer-like keys of a plain object in ascending order.
- ProficiencyEditors.HandleSkillChange: an edit on a skill that has no stored entry starts from the default entry (unflagged, bonus 0). The source spreads `undefined`, which leaves the missing fields undefined and so falsy; the displayed result is the same.
- ProficiencyEditors.HandleSaveChange: a change on a missing save starts from the default entry, for the same reason.
- Sheet: stored skill and saving-throw objects with keys outside the eighteen skills and six abilities are not modelled.
- CharacterDetail.SkillProficienciesAsWritten: keys come out in the sheet's skill order, not in the stored object's order. The list is only read with `includes`, so order does not matter.
- SlotEditor.RemoveLevel: its own contract only says that an absent level is untouched and that nothing is added. Counting, ordering and the round trip with add are stated by `RemoveLowersCount`, `RemoveKeepsAscending`, `RemoveLeavesOtherLevels` and `RemoveUndoesAdd`.
- SlotEditor.SetTotal: its own contract only covers length and the absent level. The count it sets and the ordering it keeps are stated by `SetTotalSetsCount`, `NonPositiveTotalRemovesOne`, `SetTotalKeepsAscending` and `OtherLevelsUnchanged`, which all assume an ascending list.
- SpellList.ViewSpells: the group contents are stated up to order (as a multiset) together with `GroupsSortedByName`. The stable order among spells with equal names is not stated.
- CharacterEdit.Validate: the name length is counted in Unicode characters, while zod counts UTF-16 code units, so a name of 26 emoji outside the Basic Multilingual Plane passes here and fails in the page. Fractional and NaN number inputs are not modelled either. Every form field is an integer.
- NaN in the dice engine: a quick roll whose modifier is NaN is not passed to `Dice.PerformRoll` (`QuickRoll.ToDiceRoll` requires a numeric modifier). The model states that such a button shows "NaN" and stops there. What the history panel then prints is not modelled.
- QuickRoll.ScoreObject: a scores object is modelled only with properties named after the six abilities, short or full. Other properties cannot affect any button.
- Dice.PerformRoll: `numDice` is taken as given. A negative count rolls no dice, as `Array.from` does; a fractional count is not modelled.
- The Cast button and the "added" badge are predicates (`SpellList.ShowsCast`, `SpellBrowser.IsAdded`) with no separate contract.

## Findings

| source | as written | input that shows it | evidently intended | confidence | as-written member | corrected member |
|---|---|---|---|---|---|---|
| packages/web/src/pages/CharacterDetailPage.tsx:43-47 | the quick-roll proficiency list keeps every stored skill whose entry object is truthy, which is every stored skill, and uses the stored snake_case keys | a level-1 character with a stored Athletics entry with `proficient: false` gets an Athletics roll described "Athletics (Prof)" while the skills list shows it unproficient; a stored, proficient `animal_handling` never matches the quick-roll key `animalHandling` | keep only skills whose `proficient` flag is set, under the quick-roll buttons' keys | high; not executed | CharacterDetailRolls.UnproficientAthleteMarkedProficient | CharacterDetailRolls.CorrectedButtonModifier |
| packages/web/src/pages/CharacterDetailPage.tsx:157-161 | the page hands the buttons the stored scores object, keyed `str`, `dex`, …, while the buttons read `strength`, `dexterity`, …; every lookup is undefined and every modifier NaN | any character: every ability, save and skill button prints "NaN" | pass the scores under the full ability names the buttons' interface declares | high; not executed | CharacterDetailRolls.DetailButtonsShowNaN | CharacterDetailRolls.CorrectedMatchesSkillsList |
| packages/web/src/pages/CharacterEditPage.tsx:76 | form defaults use the logical-or operator, so a stored 0 is replaced by the fallback (also speed on line 78) | a character stored with `hit_points_current: 0` opens the form at 10 HP, and saving the form writes 10 back; speed 0 opens at 30 | use `??`, so that only a missing value takes the default | high; not executed | CharacterEdit.ZeroHitPointsReloadAsTen | CharacterEdit.NullishDefaultsMatchSheet |
| packages/web/src/components/character/SpellSlotEditor.tsx:61-65 | a typed positive count only updates an existing entry, so a count typed for an unconfigured level is dropped | on an empty slot list, typing 2 in the level-3 input leaves level 3 at 0 slots | add the level with the typed count | medium; not executed | SlotEditor.SetTotalIgnoresNewLevel | SlotEditor.SetTotalAddingSetsCount |
