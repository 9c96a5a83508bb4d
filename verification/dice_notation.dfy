/** The shared string roller (`rollDice("2d6+3")` in the shared utilities): the
    first match of the pattern `(\d+)d(\d+)([+-]\d+)?` anywhere in the text,
    then one draw per die. A draw is a floored `Math.random() * sides`, so it
    lies in [0, sides) and is always 0 for a zero-sided die. */
module DiceNotation {
  import opened Wrappers
  import Seqs
  import Text
  import Dice

  /** The three captured groups, read as numbers (a missing modifier is 0). */
  datatype DiceSpec = DiceSpec(count: nat, sides: nat, modifier: int)

  /** End of the longest run of digits starting at `i` (greedy `\d+`). */
  function DigitRunEnd(s: string, i: nat): (j: nat)
    requires i <= |s|
    ensures i <= j <= |s|
    ensures forall k :: i <= k < j ==> Text.IsDigit(s[k])
    ensures j == |s| || !Text.IsDigit(s[j])
    decreases |s| - i
  {
    if i < |s| && Text.IsDigit(s[i]) then DigitRunEnd(s, i + 1) else i
  }

  /** The optional `([+-]\d+)` group read at `k`, or 0 when it is absent. */
  function TailModifier(s: string, k: nat): int
    requires k <= |s|
  {
    if k + 1 < |s| && (s[k] == '+' || s[k] == '-') && Text.IsDigit(s[k + 1]) then
      var magnitude: int := Text.ParseDigits(s[k + 1..DigitRunEnd(s, k + 1)]);
      if s[k] == '-' then -magnitude else magnitude
    else 0
  }

  /** The match of the pattern that starts exactly at `i`, if any. Backtracking
      cannot help: a shorter digit run would be followed by a digit, not 'd'. */
  function MatchAt(s: string, i: nat): Option<DiceSpec>
    requires i <= |s|
  {
    var j := DigitRunEnd(s, i);
    if j == i || j + 1 >= |s| || s[j] != 'd' || !Text.IsDigit(s[j + 1]) then None
    else
      var k := DigitRunEnd(s, j + 1);
      Some(DiceSpec(Text.ParseDigits(s[i..j]), Text.ParseDigits(s[j + 1..k]), TailModifier(s, k)))
  }

  /** Where the leftmost match at or after `from` starts, if anywhere. */
  function FirstMatch(s: string, from: nat): (r: Option<nat>)
    requires from <= |s|
    ensures r.None? ==> forall i :: from <= i <= |s| ==> MatchAt(s, i).None?
    ensures r.Some? ==> from <= r.value <= |s| && MatchAt(s, r.value).Some?
                        && forall h :: from <= h < r.value ==> MatchAt(s, h).None?
    decreases |s| - from
  {
    if MatchAt(s, from).Some? then Some(from)
    else if from == |s| then None
    else FirstMatch(s, from + 1)
  }

  /** The leftmost match in `s` (`String.prototype.match` without the g flag). */
  function FindDice(s: string): Option<DiceSpec> {
    match FirstMatch(s, 0)
    case None => None
    case Some(i) => MatchAt(s, i)
  }

  /** Possible draws for a die with `sides` faces: [0, sides), or just 0 when
      the die has no faces. */
  function DrawRange(sides: nat): (n: nat)
    ensures n >= 1 && (sides >= 1 ==> n == sides)
  {
    if sides == 0 then 1 else sides
  }

  /** The caller supplies one legal draw per die of the matched notation. */
  predicate DrawsFit(s: string, draws: seq<int>) {
    match FindDice(s)
    case None => true
    case Some(spec) =>
      |draws| >= spec.count
      && forall i :: 0 <= i < spec.count ==> 0 <= draws[i] < DrawRange(spec.sides)
  }

  /** Rolls the first dice notation in `s`; text without one rolls 0. */
  method RollDiceString(s: string, draws: seq<int>) returns (total: int)
    requires DrawsFit(s, draws)
    ensures FindDice(s).None? ==> total == 0
    ensures FindDice(s).Some? ==>
      var spec := FindDice(s).value;
      && total == spec.modifier + spec.count + Seqs.Sum(draws[..spec.count])
      && spec.count + spec.modifier <= total <= spec.count * DrawRange(spec.sides) + spec.modifier
  {
    match FindDice(s)
    case None =>
      return 0;
    case Some(spec) =>
      total := spec.modifier;
      var i := 0;
      while i < spec.count
        invariant 0 <= i <= spec.count
        invariant total == spec.modifier + i + Seqs.Sum(draws[..i])
        invariant spec.modifier + i <= total <= spec.modifier + i * DrawRange(spec.sides)
      {
        assert draws[..i + 1] == draws[..i] + [draws[i]];
        Seqs.SumAppend(draws[..i], [draws[i]]);
        total := total + draws[i] + 1;
        i := i + 1;
      }
  }

  lemma {:induction false} DigitRunEndIs(s: string, i: nat, j: nat)
    requires i <= j <= |s|
    requires forall k :: i <= k < j ==> Text.IsDigit(s[k])
    requires j == |s| || !Text.IsDigit(s[j])
    ensures DigitRunEnd(s, i) == j
    decreases j - i
  {
    if i < j {
      DigitRunEndIs(s, i + 1, j);
    }
  }

  /** A signed tail at the end of the text is read back by `ParseSigned`. */
  lemma TailModifierAtEnd(s: string, k: nat)
    requires k <= |s|
    requires var t := s[k..]; |t| >= 2 && (t[0] == '+' || t[0] == '-') && Text.AllDigits(t[1..])
    ensures Text.ParseSigned(s[k..]) == Some(TailModifier(s, k))
  {
    DigitRunEndIs(s, k + 1, |s|);
    assert s[k + 1..|s|] == s[k..][1..];
  }

  /** A notation assembled from a count, a die and an optional signed tail
      matches at its start, and each group reads back its part. */
  lemma MatchOfParts(a: string, b: string, t: string)
    requires |a| >= 1 && Text.AllDigits(a) && |b| >= 1 && Text.AllDigits(b)
    requires t == [] || (|t| >= 2 && (t[0] == '+' || t[0] == '-') && Text.AllDigits(t[1..]))
    ensures var m := MatchAt(a + "d" + b + t, 0);
      && m.Some? && m.value.count == Text.ParseDigits(a) && m.value.sides == Text.ParseDigits(b)
      && (t == [] ==> m.value.modifier == 0)
      && (t != [] ==> Text.ParseSigned(t) == Some(m.value.modifier))
  {
    var s := a + "d" + b + t;
    var j := |a|;
    var k := j + 1 + |b|;
    assert s[..j] == a;
    assert s[j..] == "d" + b + t;
    assert s[j + 1..k] == b;
    assert s[k..] == t;
    DigitRunEndIs(s, 0, j);
    DigitRunEndIs(s, j + 1, k);
    if t != [] {
      TailModifierAtEnd(s, k);
    }
  }

  /** The printed notation is a count, a 'd', the faces, and a signed tail
      that is empty exactly when the modifier is 0. */
  lemma FormattedParts(d: Dice.DiceType, numDice: int, modifier: int)
    requires numDice >= 0
    ensures var s := Dice.FormatDiceRoll(d, numDice, modifier);
      var a := Text.IntToString(numDice);
      var b := Dice.DiceTypeName(d)[1..];
      var t := s[|a| + 1 + |b|..];
      && |a| + 1 + |b| <= |s| && s == a + "d" + b + t
      && (t == [] <==> modifier == 0)
      && (t != [] ==> |t| >= 2 && (t[0] == '+' || t[0] == '-') && Text.AllDigits(t[1..])
                      && Text.ParseSigned(t) == Some(modifier))
  {
    var s := Dice.FormatDiceRoll(d, numDice, modifier);
    var a := Text.IntToString(numDice);
    var name := Dice.DiceTypeName(d);
    var head := a + name;
    var t := s[|head|..];
    assert name == "d" + name[1..];
    assert s == s[..|head|] + t;
  }

  /** The notation printed by the dice engine is read back by the string roller:
      the count, the faces of the die and the modifier all survive. */
  lemma FormatThenParse(d: Dice.DiceType, numDice: int, modifier: int)
    requires numDice >= 0
    ensures FindDice(Dice.FormatDiceRoll(d, numDice, modifier))
            == Some(DiceSpec(numDice, Dice.GetDiceMax(d), modifier))
  {
    var s := Dice.FormatDiceRoll(d, numDice, modifier);
    var a := Text.IntToString(numDice);
    var b := Dice.DiceTypeName(d)[1..];
    FormattedParts(d, numDice, modifier);
    var t := s[|a| + 1 + |b|..];
    Text.ParseNatToString(numDice);
    MatchOfParts(a, b, t);
  }
}
