/** The currency editor: a purse of four coin kinds, edited one field at a
    time, with its value shown in gold. */
module Currency {
  import opened Wrappers
  import Stats

  datatype Denomination = PP | GP | SP | CP

  /** The fields in the order the editor lays them out. */
  const Denominations: seq<Denomination> := [PP, GP, SP, CP]

  /** The worth of one coin in copper pieces. */
  function Rate(d: Denomination): (copper: nat)
    ensures copper == Stats.CopperValue(Single(d))
  {
    match d
    case PP => 1000
    case GP => 100
    case SP => 10
    case CP => 1
  }

  /** A purse holding one coin of kind `d`. */
  function Single(d: Denomination): Stats.Coins {
    Set(Stats.Coins(0, 0, 0, 0), d, 1)
  }

  function Get(c: Stats.Coins, d: Denomination): int {
    match d
    case PP => c.pp
    case GP => c.gp
    case SP => c.sp
    case CP => c.cp
  }

  function Set(c: Stats.Coins, d: Denomination, value: int): (r: Stats.Coins)
    ensures Get(r, d) == value
    ensures forall e :: e != d ==> Get(r, e) == Get(c, e)
  {
    match d
    case PP => c.(pp := value)
    case GP => c.(gp := value)
    case SP => c.(sp := value)
    case CP => c.(cp := value)
  }

  /** The purse the editor starts from: the stored one, or an empty purse. */
  function InitialPurse(stored: Option<Stats.Coins>): (c: Stats.Coins)
    ensures stored.None? ==> forall d :: Get(c, d) == 0
    ensures stored.Some? ==> c == stored.value
  {
    match stored
    case Some(purse) => purse
    case None => Stats.Coins(0, 0, 0, 0)
  }

  /** `parseInt(text) || 0`: a field that does not parse, or parses to zero,
      stores zero. `parsed` is the result of parsing the field's text, `None`
      standing for NaN. */
  function InputValue(parsed: Option<int>): (v: int)
    ensures parsed.Some? ==> v == parsed.value
    ensures parsed.None? ==> v == 0
  {
    if parsed.Some? && parsed.value != 0 then parsed.value else 0
  }

  /** `handleChange`: one field replaced, the others kept. */
  function HandleChange(c: Stats.Coins, d: Denomination, parsed: Option<int>): (r: Stats.Coins)
    ensures Get(r, d) == InputValue(parsed)
    ensures forall e :: e != d ==> Get(r, e) == Get(c, e)
  {
    Set(c, d, InputValue(parsed))
  }

  /** The value of a purse, in copper, is the sum over its fields of count
      times rate: the gold total shown is this value over one hundred. */
  lemma ValueByRates(c: Stats.Coins)
    ensures Stats.CopperValue(c) == Get(c, PP) * Rate(PP) + Get(c, GP) * Rate(GP) + Get(c, SP) * Rate(SP) + Get(c, CP) * Rate(CP)
  {
  }

  /** The conversion line: 1 PP = 10 GP, 1 GP = 10 SP, 1 SP = 10 CP. */
  lemma StatedRatesHold()
    ensures Rate(PP) == 10 * Rate(GP) && Rate(GP) == 10 * Rate(SP) && Rate(SP) == 10 * Rate(CP)
  {
  }

  /** Changing one field moves the value by the change in count times that
      field's rate. */
  lemma ChangeMovesValue(c: Stats.Coins, d: Denomination, parsed: Option<int>)
    ensures Stats.CopperValue(HandleChange(c, d, parsed))
         == Stats.CopperValue(c) + Rate(d) * (InputValue(parsed) - Get(c, d))
  {
  }

  /** Re-entering a field's current count leaves the purse as it was. */
  lemma ChangeToSameIsIdentity(c: Stats.Coins, d: Denomination)
    ensures HandleChange(c, d, Some(Get(c, d))) == c
  {
  }

  /** The shared breakdown of the purse's total keeps its value and is the
      purse itself when the purse was already normalised. */
  lemma BreakdownOfPurse(c: Stats.Coins)
    ensures Stats.CopperValue(Stats.ConvertCopperToCurrency(Stats.CopperValue(c))) == Stats.CopperValue(c)
    ensures Stats.Normalised(c) ==> Stats.ConvertCopperToCurrency(Stats.CopperValue(c)) == c
  {
    if Stats.Normalised(c) {
      Stats.BreakdownOfValue(c);
    }
  }
}
