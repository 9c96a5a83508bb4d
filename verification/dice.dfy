/** The dice engine of the web app (`utils/dice.ts`): die sizes, single and
    multiple die rolls, a full roll with advantage/disadvantage, the roll label,
    and the two character formulas kept next to it.

    Randomness is an explicit oracle: every call of `Math.random() * max`
    floored is one draw `r` with `0 <= r < max`, supplied by the caller in order. */
module Dice {
  import opened Wrappers
  import Seqs
  import Text

  datatype DiceType = D4 | D6 | D8 | D10 | D12 | D20 | D100

  datatype RollMode = Normal | Advantage | Disadvantage

  /** A roll request (`DiceRoll & { description?: string }`). */
  datatype DiceRoll = DiceRoll(
    diceType: DiceType,
    numDice: int,
    modifier: int,
    mode: RollMode,
    description: Option<string>)

  /** The outcome of `performRoll`; `timestamp` is milliseconds since the epoch. */
  datatype RollResult = RollResult(
    rolls: seq<int>,
    total: int,
    modifier: int,
    finalTotal: int,
    diceType: DiceType,
    numDice: int,
    mode: RollMode,
    timestamp: int,
    description: Option<string>,
    isAdvantage: bool,
    isDisadvantage: bool,
    discardedRolls: Option<seq<int>>)

  /** The die's name as written in labels ("d4" ... "d100"). */
  function DiceTypeName(d: DiceType): (name: string)
    ensures |name| >= 2 && name[0] == 'd' && Text.AllDigits(name[1..])
  {
    match d
    case D4 => "d4"
    case D6 => "d6"
    case D8 => "d8"
    case D10 => "d10"
    case D12 => "d12"
    case D20 => "d20"
    case D100 => "d100"
  }

  /** Number of faces; it is the number written after the 'd' in the die's name. */
  function GetDiceMax(d: DiceType): (faces: int)
    ensures faces == Text.ParseDigits(DiceTypeName(d)[1..])
    ensures 4 <= faces <= 100
  {
    match d
    case D4 => 4
    case D6 => 6
    case D8 => 8
    case D10 => 10
    case D12 => 12
    case D20 => 20
    case D100 =>
      assert "100"[..2] == "10" && "10"[..1] == "1" && "1"[..0] == "";
      100
  }

  /** Every draw is a legal floored `Math.random() * max`. */
  predicate DrawsBelow(draws: seq<int>, max: int) {
    forall i :: 0 <= i < |draws| ==> 0 <= draws[i] < max
  }

  /** One die: the draw shifted into 1..max. */
  function RollDie(d: DiceType, draw: int): (value: int)
    requires 0 <= draw < GetDiceMax(d)
    ensures 1 <= value <= GetDiceMax(d)
    ensures value - 1 == draw
  {
    draw + 1
  }

  /** The length `Array.from({ length: n })` creates: negative counts give none. */
  function ArrayLength(n: int): (len: nat)
    ensures n >= 0 ==> len == n
    ensures n < 0 ==> len == 0
  {
    if n < 0 then 0 else n
  }

  /** `numDice` dice, one per draw, in draw order. */
  function RollDice(d: DiceType, numDice: int, draws: seq<int>): (rolls: seq<int>)
    requires |draws| >= ArrayLength(numDice) && DrawsBelow(draws, GetDiceMax(d))
    ensures |rolls| == ArrayLength(numDice)
    ensures forall i :: 0 <= i < |rolls| ==> 1 <= rolls[i] <= GetDiceMax(d)
    ensures forall i :: 0 <= i < |rolls| ==> rolls[i] == draws[i] + 1
  {
    seq(ArrayLength(numDice), i requires 0 <= i < ArrayLength(numDice) && i < |draws| => RollDie(d, draws[i]))
  }

  /** Advantage and disadvantage only take effect on a d20. */
  predicate RollsTwice(p: DiceRoll) {
    p.diceType == D20 && p.mode != Normal
  }

  /** How many draws `performRoll` consumes. */
  function DrawsNeeded(p: DiceRoll): (n: nat)
    ensures n == (if RollsTwice(p) then 2 else 1) * ArrayLength(p.numDice)
  {
    if RollsTwice(p) then 2 * ArrayLength(p.numDice) else ArrayLength(p.numDice)
  }

  /** The first roll set of a request. */
  function FirstSet(p: DiceRoll, draws: seq<int>): seq<int>
    requires |draws| >= DrawsNeeded(p) && DrawsBelow(draws, GetDiceMax(p.diceType))
  {
    RollDice(p.diceType, p.numDice, draws)
  }

  /** The second roll set, made only on a d20 with advantage or disadvantage. */
  function SecondSet(p: DiceRoll, draws: seq<int>): seq<int>
    requires RollsTwice(p)
    requires |draws| >= DrawsNeeded(p) && DrawsBelow(draws, GetDiceMax(p.diceType))
  {
    RollDice(p.diceType, p.numDice, draws[ArrayLength(p.numDice)..])
  }

  /** `performRoll`: roll, keep the better (advantage) or worse (disadvantage) of two
      sets on a d20, ties keeping the first set, then total and add the modifier. */
  function PerformRoll(p: DiceRoll, draws: seq<int>, now: int): (r: RollResult)
    requires |draws| >= DrawsNeeded(p) && DrawsBelow(draws, GetDiceMax(p.diceType))
    ensures |r.rolls| == ArrayLength(p.numDice)
    ensures forall i :: 0 <= i < |r.rolls| ==> 1 <= r.rolls[i] <= GetDiceMax(p.diceType)
    ensures r.total == Seqs.Sum(r.rolls) && r.finalTotal == r.total + p.modifier
    ensures r.modifier == p.modifier && r.diceType == p.diceType && r.numDice == p.numDice
    ensures r.mode == p.mode && r.timestamp == now && r.description == p.description
    ensures r.isAdvantage <==> p.mode == Advantage
    ensures r.isDisadvantage <==> p.mode == Disadvantage
    ensures r.discardedRolls.Some? <==> RollsTwice(p)
    ensures !RollsTwice(p) ==> r.rolls == FirstSet(p, draws)
    ensures RollsTwice(p) ==>
      var a, b := FirstSet(p, draws), SecondSet(p, draws);
      |r.discardedRolls.value| == |r.rolls|
      && ((r.rolls == a && r.discardedRolls.value == b) || (r.rolls == b && r.discardedRolls.value == a))
      && (Seqs.Sum(a) == Seqs.Sum(b) ==> r.rolls == a)
    ensures p.diceType == D20 && p.mode == Advantage ==>
      Seqs.Sum(r.rolls) >= Seqs.Sum(r.discardedRolls.value)
    ensures p.diceType == D20 && p.mode == Disadvantage ==>
      Seqs.Sum(r.rolls) <= Seqs.Sum(r.discardedRolls.value)
  {
    var first := FirstSet(p, draws);
    var (kept, discarded) :=
      if RollsTwice(p) then
        var second := SecondSet(p, draws);
        var sum1, sum2 := Seqs.Sum(first), Seqs.Sum(second);
        if (p.mode == Advantage && sum1 >= sum2) || (p.mode == Disadvantage && sum1 <= sum2)
        then (first, Some(second))
        else (second, Some(first))
      else (first, None);
    var total := Seqs.Sum(kept);
    RollResult(kept, total, p.modifier, total + p.modifier, p.diceType, p.numDice, p.mode,
               now, p.description, p.mode == Advantage, p.mode == Disadvantage, discarded)
  }

  /** On a die other than the d20 the requested mode changes nothing but the two
      flags: the same dice are kept, nothing is discarded, the totals agree. */
  lemma ModeIgnoredOffD20(p: DiceRoll, draws: seq<int>, now: int)
    requires p.diceType != D20
    requires |draws| >= DrawsNeeded(p) && DrawsBelow(draws, GetDiceMax(p.diceType))
    ensures var q := p.(mode := Normal);
      var r, n := PerformRoll(p, draws, now), PerformRoll(q, draws, now);
      r.rolls == n.rolls && r.total == n.total && r.finalTotal == n.finalTotal
      && r.discardedRolls == n.discardedRolls == None
  {
  }

  /** A d20 rolled with advantage keeps the higher sum of the two sets: the kept sum
      is the maximum of the two set sums. */
  lemma AdvantageKeepsMaximum(p: DiceRoll, draws: seq<int>, now: int)
    requires p.diceType == D20 && p.mode == Advantage
    requires |draws| >= DrawsNeeded(p) && DrawsBelow(draws, GetDiceMax(p.diceType))
    ensures var a, b := Seqs.Sum(FirstSet(p, draws)), Seqs.Sum(SecondSet(p, draws));
      PerformRoll(p, draws, now).total == if a >= b then a else b
  {
  }

  /** A d20 rolled with disadvantage keeps the lower sum of the two sets. */
  lemma DisadvantageKeepsMinimum(p: DiceRoll, draws: seq<int>, now: int)
    requires p.diceType == D20 && p.mode == Disadvantage
    requires |draws| >= DrawsNeeded(p) && DrawsBelow(draws, GetDiceMax(p.diceType))
    ensures var a, b := Seqs.Sum(FirstSet(p, draws)), Seqs.Sum(SecondSet(p, draws));
      PerformRoll(p, draws, now).total == if a <= b then a else b
  {
  }

  /** The total of `n` dice lies between `n` and `n` times the number of faces. */
  lemma TotalBounds(p: DiceRoll, draws: seq<int>, now: int)
    requires |draws| >= DrawsNeeded(p) && DrawsBelow(draws, GetDiceMax(p.diceType))
    ensures var r := PerformRoll(p, draws, now);
      ArrayLength(p.numDice) <= r.total <= ArrayLength(p.numDice) * GetDiceMax(p.diceType)
  {
    var r := PerformRoll(p, draws, now);
    Seqs.SumBounds(r.rolls, 1, GetDiceMax(p.diceType));
  }

  /** The worked example: one d20 with advantage and +5, sets [3] then [17]. */
  lemma AdvantageExample()
    ensures var r := PerformRoll(DiceRoll(D20, 1, 5, Advantage, None), [2, 16], 0);
      r.rolls == [17] && r.discardedRolls == Some([3]) && r.total == 17 && r.finalTotal == 22
  {
    var p := DiceRoll(D20, 1, 5, Advantage, None);
    assert FirstSet(p, [2, 16]) == [3];
    assert [2, 16][1..] == [16];
    assert SecondSet(p, [2, 16]) == [17];
  }

  /** Roll notation: count and die, then "+m" for a positive and "-m" for a
      negative modifier, nothing for zero ("2d6+3"). */
  function FormatDiceRoll(d: DiceType, numDice: int, modifier: int): (notation: string)
    ensures var head := Text.IntToString(numDice) + DiceTypeName(d);
      |notation| >= |head| && notation[..|head|] == head
      && (modifier == 0 <==> notation == head)
      && (modifier != 0 ==> Text.ParseSigned(notation[|head|..]) == Some(modifier))
      && (modifier > 0 ==> notation[|head|] == '+')
      && (modifier < 0 ==> notation[|head|] == '-')
  {
    var head := Text.IntToString(numDice) + DiceTypeName(d);
    var tail :=
      if modifier > 0 then Text.PlusIntToStringRoundTrip(modifier); "+" + Text.IntToString(modifier)
      else if modifier < 0 then Text.IntToStringRoundTrip(modifier); Text.IntToString(modifier)
      else "";
    assert (head + tail)[..|head|] == head && (head + tail)[|head|..] == tail;
    head + tail
  }

  /** Ability modifier: the floor of half the distance from 10. */
  function GetAbilityModifier(score: int): (m: int)
    ensures 2 * m <= score - 10 < 2 * m + 2
  {
    (score - 10) / 2
  }

  /** Proficiency bonus by formula: one more than the level divided by 4, rounded up. */
  function GetProficiencyBonus(level: int): (pb: int)
    ensures 4 * (pb - 2) < level <= 4 * (pb - 1)
  {
    (level + 3) / 4 + 1
  }

  /** The formula gives 2 at levels 1-4 and one more for each further band of
      four levels, up to 6 at levels 17-20. */
  lemma ProficiencyBands(level: int)
    requires 1 <= level <= 20
    ensures 2 <= GetProficiencyBonus(level) <= 6
    ensures GetProficiencyBonus(level) == 2 <==> level <= 4
    ensures GetProficiencyBonus(level) == 6 <==> level >= 17
  {
  }

  /** A higher score never gives a lower modifier. */
  lemma AbilityModifierMonotone(a: int, b: int)
    requires a <= b
    ensures GetAbilityModifier(a) <= GetAbilityModifier(b)
  {
  }
}
