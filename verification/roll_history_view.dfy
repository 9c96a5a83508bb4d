/** The roll-history panel: which rolls it lists, the "showing N of M"
    notice, and the text of each entry. */
module RollHistoryView {
  import opened Wrappers
  import Seqs
  import Text
  import Dice

  /** The panel's two states. `notice` carries the limit and the history
      length of the "Showing {limit} of {length} rolls" line. */
  datatype Panel =
    | NoRolls
    | Listing(shown: seq<Dice.RollResult>, notice: Option<(int, int)>)

  /** An optional numeric limit is truthy unless absent or zero. */
  predicate LimitSet(limit: Option<int>) {
    limit.Some? && limit.value != 0
  }

  /** The panel for `history` under an optional `limit`: a truthy limit cuts
      the list with `slice(0, limit)`; an empty history shows the empty state. */
  function ViewHistory(history: seq<Dice.RollResult>, limit: Option<int>): (v: Panel)
    ensures v.NoRolls? <==> history == []
    ensures v.Listing? ==> v.shown <= history
    ensures v.Listing? && !LimitSet(limit) ==> v.shown == history && v.notice.None?
    ensures v.Listing? && LimitSet(limit) && limit.value > 0 ==>
      |v.shown| == if |history| < limit.value then |history| else limit.value
    ensures v.Listing? ==> (v.notice.Some? <==> |v.shown| < |history|)
    ensures v.Listing? && v.notice.Some? ==> v.notice.value == (limit.value, |history|)
  {
    if history == [] then NoRolls
    else
      var shown := if LimitSet(limit) then Seqs.Take(history, limit.value) else history;
      var notice := if LimitSet(limit) && |history| > limit.value then Some((limit.value, |history|)) else None;
      Listing(shown, notice)
  }

  /** The relative age of a roll: under a minute "Just now", then whole
      minutes, then whole hours, and past a day the locale's clock time. */
  function FormatTime(nowMs: int, timestampMs: int, localeTime: string): (text: string)
    ensures var age := nowMs - timestampMs;
      && (age < 60000 ==> text == "Just now")
      && (60000 <= age < 3600000 ==>
            1 <= age / 60000 < 60 && text == Text.NatToString(age / 60000) + "m ago")
      && (3600000 <= age < 86400000 ==>
            1 <= age / 3600000 < 24 && text == Text.NatToString(age / 3600000) + "h ago")
      && (86400000 <= age ==> text == localeTime)
  {
    var diffSecs := (nowMs - timestampMs) / 1000;
    var diffMins := diffSecs / 60;
    var diffHours := diffMins / 60;
    if diffSecs < 60 then "Just now"
    else if diffMins < 60 then
      MinutesOfSeconds(nowMs - timestampMs);
      Text.NatToString(diffMins) + "m ago"
    else if diffHours < 24 then
      MinutesOfSeconds(nowMs - timestampMs);
      HoursOfMinutes(nowMs - timestampMs);
      Text.NatToString(diffHours) + "h ago"
    else localeTime
  }

  /** Whole minutes counted from whole seconds are whole minutes of the age. */
  lemma MinutesOfSeconds(ms: int)
    ensures (ms / 1000) / 60 == ms / 60000
  {
    var q := (ms / 1000) / 60;
    assert 60 * q <= ms / 1000 < 60 * q + 60;
    assert 60000 * q <= ms < 60000 * q + 60000;
  }

  /** Whole hours counted from whole minutes are whole hours of the age. */
  lemma HoursOfMinutes(ms: int)
    ensures (ms / 60000) / 60 == ms / 3600000
  {
    var q := (ms / 60000) / 60;
    assert 60 * q <= ms / 60000 < 60 * q + 60;
    assert 3600000 * q <= ms < 3600000 * q + 3600000;
  }

  /** The notation of an entry: `{numDice}{diceType}` and a signed modifier
      when it is not zero. */
  function GetRollLabel(roll: Dice.RollResult): string {
    var head := Text.IntToString(roll.numDice) + Dice.DiceTypeName(roll.diceType);
    if roll.modifier != 0 then
      head + (if roll.modifier > 0 then "+" + Text.IntToString(roll.modifier) else Text.IntToString(roll.modifier))
    else head
  }

  /** The panel writes the same notation as the dice engine does. */
  lemma RollLabelIsNotation(roll: Dice.RollResult)
    ensures GetRollLabel(roll) == Dice.FormatDiceRoll(roll.diceType, roll.numDice, roll.modifier)
  {
  }

  /** The mode tag of an entry. */
  function GetRollModeLabel(roll: Dice.RollResult): string {
    if roll.isAdvantage then "(Adv)"
    else if roll.isDisadvantage then "(Dis)"
    else ""
  }

  /** For a result produced by the engine the tag follows the requested mode
      alone, so a non-d20 roll asked with advantage carries "(Adv)" although
      it was rolled once and nothing was discarded. */
  lemma ModeLabelOfPerformedRoll(p: Dice.DiceRoll, draws: seq<int>, now: int)
    requires |draws| >= Dice.DrawsNeeded(p) && Dice.DrawsBelow(draws, Dice.GetDiceMax(p.diceType))
    ensures var r := Dice.PerformRoll(p, draws, now);
      var tag := GetRollModeLabel(r);
      && (tag == "(Adv)" <==> p.mode == Dice.Advantage)
      && (tag == "(Dis)" <==> p.mode == Dice.Disadvantage)
      && (tag == "" <==> p.mode == Dice.Normal)
      && (tag != "" && r.discardedRolls.None? <==> p.mode != Dice.Normal && p.diceType != Dice.D20)
  {
  }
}
