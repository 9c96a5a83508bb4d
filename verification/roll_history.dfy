/** The dice-roller provider: a bounded, newest-first history of roll results
    shared by every component under it. */
module RollHistory {
  import opened Wrappers
  import Seqs
  import Dice

  /** History bound used when the provider is mounted without one. */
  const DefaultMaxHistorySize: int := 50

  /** Raised by the hook outside a provider. */
  const OutsideProviderError: string := "useDiceRoller must be used within a DiceRollerProvider"

  /** Provider state: the history, newest first, and its size bound. The bound
      is any number the caller passes, negative values included. */
  datatype Provider = Provider(history: seq<Dice.RollResult>, maxHistorySize: int)

  function Min(a: int, b: int): int {
    if a <= b then a else b
  }

  /** A freshly mounted provider. */
  function NewProvider(maxHistorySize: Option<int>): (p: Provider)
    ensures p.history == []
    ensures maxHistorySize.None? ==> p.maxHistorySize == DefaultMaxHistorySize
    ensures maxHistorySize.Some? ==> p.maxHistorySize == maxHistorySize.value
  {
    Provider([], maxHistorySize.GetOr(DefaultMaxHistorySize))
  }

  /** Puts a result in front of the history and cuts it with `slice(0, max)`. */
  function Record(p: Provider, result: Dice.RollResult): (q: Provider)
    ensures q.maxHistorySize == p.maxHistorySize
    ensures p.maxHistorySize >= 0 ==> |q.history| == Min(|p.history| + 1, p.maxHistorySize)
    ensures p.maxHistorySize < 0 ==>
      |q.history| == if |p.history| + 1 + p.maxHistorySize > 0 then |p.history| + 1 + p.maxHistorySize else 0
    ensures |q.history| > 0 ==> q.history[0] == result
    ensures forall i :: 1 <= i < |q.history| ==> q.history[i] == p.history[i - 1]
  {
    p.(history := Seqs.Take([result] + p.history, p.maxHistorySize))
  }

  /** `roll`: performs the roll, records it and hands the same result back. */
  function Roll(p: Provider, params: Dice.DiceRoll, draws: seq<int>, now: int): (out: (Provider, Dice.RollResult))
    requires |draws| >= Dice.DrawsNeeded(params) && Dice.DrawsBelow(draws, Dice.GetDiceMax(params.diceType))
    ensures out.1 == Dice.PerformRoll(params, draws, now)
    ensures out.0 == Record(p, out.1)
    ensures p.maxHistorySize >= 1 ==> out.0.history[0] == out.1
  {
    var result := Dice.PerformRoll(params, draws, now);
    (Record(p, result), result)
  }

  /** `clearHistory`: empties the history and keeps the bound. */
  function ClearHistory(p: Provider): (q: Provider)
    ensures q.history == [] && q.maxHistorySize == p.maxHistorySize
  {
    p.(history := [])
  }

  /** `useDiceRoller`: the enclosing provider, or the error outside one. */
  function UseDiceRoller(context: Option<Provider>): (r: Result<Provider, string>)
    ensures context.Some? <==> r.Success?
    ensures r.Success? ==> r.value == context.value
    ensures r.Failure? ==> r.error == OutsideProviderError
  {
    match context
    case Some(p) => Success(p)
    case None => Failure(OutsideProviderError)
  }

  /** Records `results` in order, oldest first. */
  function RecordAll(p: Provider, results: seq<Dice.RollResult>): (q: Provider)
    ensures q.maxHistorySize == p.maxHistorySize
    decreases |results|
  {
    if |results| == 0 then p
    else Record(RecordAll(p, results[..|results| - 1]), results[|results| - 1])
  }

  /** With a non-negative bound, the history never grows past it. */
  lemma {:induction false} RecordAllBounded(p: Provider, results: seq<Dice.RollResult>)
    requires 0 <= p.maxHistorySize && |p.history| <= p.maxHistorySize
    ensures |RecordAll(p, results).history| <= p.maxHistorySize
    decreases |results|
  {
    if |results| > 0 {
      RecordAllBounded(p, results[..|results| - 1]);
    }
  }

  /** Cutting before or after putting an element in front gives the same prefix. */
  lemma CutThenPrepend<T>(x: T, ys: seq<T>, m: int)
    requires m >= 0
    ensures Seqs.Take([x] + ys[..Min(|ys|, m)], m) == ([x] + ys)[..Min(|ys| + 1, m)]
  {
    var lhs := Seqs.Take([x] + ys[..Min(|ys|, m)], m);
    var rhs := ([x] + ys)[..Min(|ys| + 1, m)];
    assert |lhs| == |rhs|;
    forall i | 0 <= i < |lhs|
      ensures lhs[i] == rhs[i]
    {
      if i > 0 {
        assert lhs[i] == ys[i - 1] == rhs[i];
      }
    }
  }

  /** Reversal puts the last element first. */
  lemma {:induction false} ReverseSnoc<T>(s: seq<T>)
    requires |s| > 0
    ensures Seqs.Reverse(s) == [s[|s| - 1]] + Seqs.Reverse(s[..|s| - 1])
  {
    var n := |s|;
    var front := s[..n - 1];
    var rf := Seqs.Reverse(front);
    var rs := Seqs.Reverse(s);
    var r := [s[n - 1]] + rf;
    forall i | 0 <= i < n
      ensures rs[i] == r[i]
    {
      if i > 0 {
        calc {
          r[i];
          rf[i - 1];
          front[n - 2 - (i - 1)];
          s[n - 1 - i];
          rs[i];
        }
      }
    }
  }

  /** Starting within its bound, the history is always the newest results,
      newest first, in front of what was there, cut to the bound. */
  lemma {:induction false} RecordAllKeepsNewest(p: Provider, results: seq<Dice.RollResult>)
    requires 0 <= |p.history| <= p.maxHistorySize
    ensures RecordAll(p, results).history
            == (Seqs.Reverse(results) + p.history)[..Min(|results| + |p.history|, p.maxHistorySize)]
    decreases |results|
  {
    if |results| > 0 {
      var n := |results|;
      var front := results[..n - 1];
      var last := results[n - 1];
      var prior := Seqs.Reverse(front) + p.history;
      RecordAllKeepsNewest(p, front);
      ReverseSnoc(results);
      assert Seqs.Reverse(results) + p.history == [last] + prior;
      var before := RecordAll(p, front);
      assert before.history == prior[..Min(|prior|, p.maxHistorySize)];
      assert RecordAll(p, results).history == Seqs.Take([last] + before.history, p.maxHistorySize);
      CutThenPrepend(last, prior, p.maxHistorySize);
      assert |prior| + 1 == |results| + |p.history|;
    }
  }

  /** From an empty provider: the history is the last `max` results, newest first. */
  lemma HistoryIsNewestFirst(maxHistorySize: Option<int>, results: seq<Dice.RollResult>)
    requires maxHistorySize.GetOr(DefaultMaxHistorySize) >= 0
    ensures var p := NewProvider(maxHistorySize);
      RecordAll(p, results).history == Seqs.Reverse(results)[..Min(|results|, p.maxHistorySize)]
  {
    var p := NewProvider(maxHistorySize);
    RecordAllKeepsNewest(p, results);
    assert Seqs.Reverse(results) + p.history == Seqs.Reverse(results);
  }
}
