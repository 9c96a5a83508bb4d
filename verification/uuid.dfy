/** Client-side identifiers: a version-4 UUID filled in from random nibbles,
    and the format check that accepts such identifiers. Each placeholder of
    the template takes one draw `r` in [0, 16) (`Math.random() * 16 | 0`). */
module Uuid {
  /** What the format check demands at each of the 36 positions. */
  datatype CharClass = Dash | Four | VariantDigit | HexDigit

  function ClassAt(i: int): CharClass {
    if i == 8 || i == 13 || i == 18 || i == 23 then Dash
    else if i == 14 then Four
    else if i == 19 then VariantDigit
    else HexDigit
  }

  /** The template character standing for a class. */
  function TemplateChar(c: CharClass): char {
    match c
    case Dash => '-'
    case Four => '4'
    case VariantDigit => 'y'
    case HexDigit => 'x'
  }

  /** The template; every 'x' and 'y' is replaced, everything else is kept. */
  const Template: string := "xxxxxxxx-xxxx-4xxx-yxxx-xxxxxxxxxxxx"

  /** The template spells out the classes of the format check, position by position. */
  lemma TemplateFollowsClasses()
    ensures |Template| == 36
    ensures forall i :: 0 <= i < 36 ==> Template[i] == TemplateChar(ClassAt(i))
  {
  }

  const HexDigits: string := "0123456789abcdef"

  /** `v.toString(16)` for a nibble. */
  function Hex(v: int): (c: char)
    requires 0 <= v < 16
    ensures c in HexDigits
  {
    HexDigits[v]
  }

  /** The variant nibble: `(r & 0x3) | 0x8`. */
  function Variant(r: int): (v: int)
    requires 0 <= r < 16
    ensures 8 <= v < 12
  {
    ((r as bv8 & 3) | 8) as int
  }

  predicate IsPlaceholder(c: char) {
    c == 'x' || c == 'y'
  }

  /** How many draws filling `t` consumes. */
  function Placeholders(t: string): nat {
    if |t| == 0 then 0
    else (if IsPlaceholder(t[0]) then 1 else 0) + Placeholders(t[1..])
  }

  predicate NibbleDraws(draws: seq<int>) {
    forall i :: 0 <= i < |draws| ==> 0 <= draws[i] < 16
  }

  /** `t.replace(/[xy]/g, …)` with the draws consumed left to right. */
  function Fill(t: string, draws: seq<int>): (s: string)
    requires |draws| == Placeholders(t) && NibbleDraws(draws)
    ensures |s| == |t|
    decreases |t|
  {
    if |t| == 0 then []
    else if t[0] == 'x' then [Hex(draws[0])] + Fill(t[1..], draws[1..])
    else if t[0] == 'y' then [Hex(Variant(draws[0]))] + Fill(t[1..], draws[1..])
    else [t[0]] + Fill(t[1..], draws)
  }

  /** Filling keeps every fixed character, writes a hex digit at each 'x'
      and one of 8, 9, a, b at each 'y'. */
  lemma {:induction false} FillFits(t: string, draws: seq<int>)
    requires |draws| == Placeholders(t) && NibbleDraws(draws)
    ensures FitsTemplate(t, Fill(t, draws))
    decreases |t|
  {
    if |t| > 0 {
      var rest := if IsPlaceholder(t[0]) then draws[1..] else draws;
      FillFits(t[1..], rest);
      var c := if t[0] == 'x' then Hex(draws[0]) else if t[0] == 'y' then Hex(Variant(draws[0])) else t[0];
      assert Fill(t, draws) == [c] + Fill(t[1..], rest);
      if t[0] == 'y' {
        var v := Variant(draws[0]);
        assert HexDigits[v] in "89ab" by {
          assert HexDigits[8..12] == "89ab";
          assert HexDigits[v] == HexDigits[8..12][v - 8];
        }
      }
      FitsCons(t, c, Fill(t[1..], rest));
    }
  }

  lemma FitsCons(t: string, c: char, rest: string)
    requires |t| > 0 && FitsTemplate(t[1..], rest)
    requires !IsPlaceholder(t[0]) ==> c == t[0]
    requires t[0] == 'x' ==> c in HexDigits
    requires t[0] == 'y' ==> c in "89ab"
    ensures FitsTemplate(t, [c] + rest)
  {
    forall i | 1 <= i < |t|
      ensures t[i] == t[1..][i - 1] && ([c] + rest)[i] == rest[i - 1]
    {
    }
  }

  /** `generateUUID`, from 31 nibble draws. */
  function GenerateUUID(draws: seq<int>): (id: string)
    requires |draws| == Placeholders(Template) && NibbleDraws(draws)
    ensures FitsTemplate(Template, id)
    ensures IsValidUUID(id)
  {
    FillFits(Template, draws);
    FitIsValid(Fill(Template, draws));
    Fill(Template, draws)
  }

  predicate IsHexIgnoringCase(c: char) {
    '0' <= c <= '9' || 'a' <= c <= 'f' || 'A' <= c <= 'F'
  }

  /** Whether a character is accepted by a class, letters in either case. */
  predicate Accepts(c: CharClass, ch: char) {
    match c
    case Dash => ch == '-'
    case Four => ch == '4'
    case VariantDigit => ch in "89abAB"
    case HexDigit => IsHexIgnoringCase(ch)
  }

  /** The case-insensitive pattern
      `^[0-9a-f]{8}-[0-9a-f]{4}-4[0-9a-f]{3}-[89ab][0-9a-f]{3}-[0-9a-f]{12}$`. */
  function IsValidUUID(s: string): (ok: bool)
    ensures ok <==>
      && |s| == 36
      && s[8] == '-' && s[13] == '-' && s[18] == '-' && s[23] == '-'
      && s[14] == '4' && s[19] in "89abAB"
      && forall i :: 0 <= i < 36 && i !in {8, 13, 14, 18, 19, 23} ==> IsHexIgnoringCase(s[i])
  {
    |s| == 36 && forall i :: 0 <= i < 36 ==> Accepts(ClassAt(i), s[i])
  }

  /** Every generated identifier passes the format check. */
  lemma GeneratedIsValid(draws: seq<int>)
    requires |draws| == Placeholders(Template) && NibbleDraws(draws)
    ensures IsValidUUID(GenerateUUID(draws))
  {
    FillFits(Template, draws);
    FitIsValid(GenerateUUID(draws));
  }

  /** Whatever fits the template passes the format check. */
  lemma FitIsValid(s: string)
    requires FitsTemplate(Template, s)
    ensures IsValidUUID(s)
  {
    TemplateFollowsClasses();
    forall i | 0 <= i < 36
      ensures Accepts(ClassAt(i), s[i])
    {
      var c := ClassAt(i);
      assert Template[i] == TemplateChar(c);
      if c == HexDigit {
        assert s[i] in HexDigits;
      } else if c == VariantDigit {
        assert s[i] in "89ab";
      }
    }
  }

  /** The draws that make `Fill(t, ·)` write `s`: each placeholder's hex value,
      less 8 under a 'y'. */
  function DrawsFor(t: string, s: string): (draws: seq<int>)
    requires |s| == |t|
    ensures |draws| == Placeholders(t)
    decreases |t|
  {
    if |t| == 0 then []
    else if IsPlaceholder(t[0]) then
      var v := HexValue(s[0]);
      [if t[0] == 'y' then v - 8 else v] + DrawsFor(t[1..], s[1..])
    else DrawsFor(t[1..], s[1..])
  }

  /** Position of a lower-case hex digit. */
  function HexValue(c: char): (v: int)
    ensures c in HexDigits ==> 0 <= v < 16 && HexDigits[v] == c
  {
    if '0' <= c <= '9' then c as int - '0' as int
    else if 'a' <= c <= 'f' then c as int - 'a' as int + 10
    else 0
  }

  /** `s` fits the template `t` in lower case: fixed characters kept, hex digits
      at 'x', and a variant digit 8, 9, a or b at 'y'. */
  predicate FitsTemplate(t: string, s: string) {
    && |s| == |t|
    && (forall i :: 0 <= i < |t| && !IsPlaceholder(t[i]) ==> s[i] == t[i])
    && (forall i :: 0 <= i < |t| && t[i] == 'x' ==> s[i] in HexDigits)
    && (forall i :: 0 <= i < |t| && t[i] == 'y' ==> s[i] in "89ab")
  }

  /** Every string fitting the template is produced by some draws: generation
      reaches exactly the lower-case identifiers of this shape. */
  lemma {:induction false} FillReachesEveryFit(t: string, s: string)
    requires FitsTemplate(t, s)
    ensures NibbleDraws(DrawsFor(t, s)) && Fill(t, DrawsFor(t, s)) == s
    decreases |t|
  {
    if |t| > 0 {
      FitsTail(t, s);
      FillReachesEveryFit(t[1..], s[1..]);
      var rest := DrawsFor(t[1..], s[1..]);
      var draws := DrawsFor(t, s);
      if IsPlaceholder(t[0]) {
        HeadDraw(t, s);
        assert draws[0] < 16 && draws[1..] == rest;
        assert NibbleDraws(draws) by {
          forall i | 1 <= i < |draws|
            ensures draws[i] == rest[i - 1]
          {
          }
        }
      } else {
        assert draws == rest && s[0] == t[0];
      }
      assert Fill(t, draws) == [s[0]] + Fill(t[1..], rest);
      assert s == [s[0]] + s[1..];
    }
  }

  /** The draw read back from a placeholder's character writes that character again. */
  lemma HeadDraw(t: string, s: string)
    requires |t| > 0 && FitsTemplate(t, s) && IsPlaceholder(t[0])
    ensures var v := HexValue(s[0]);
      var d := if t[0] == 'y' then v - 8 else v;
      && DrawsFor(t, s) == [d] + DrawsFor(t[1..], s[1..])
      && 0 <= d < 16
      && (if t[0] == 'x' then Hex(d) else Hex(Variant(d))) == s[0]
  {
    if t[0] == 'y' {
      VariantReadBack(s[0]);
    } else {
      assert s[0] in HexDigits;
    }
  }

  /** A variant digit read back as a draw writes the same digit. */
  lemma VariantReadBack(c: char)
    requires c in "89ab"
    ensures 8 <= HexValue(c) < 12 && Hex(Variant(HexValue(c) - 8)) == c
  {
    if c == '8' {
    } else if c == '9' {
    } else if c == 'a' {
    } else {
    }
  }

  lemma FitsTail(t: string, s: string)
    requires |t| > 0 && FitsTemplate(t, s)
    ensures FitsTemplate(t[1..], s[1..])
  {
    forall i | 0 <= i < |t| - 1
      ensures t[1..][i] == t[i + 1] && s[1..][i] == s[i + 1]
    {
    }
  }
}
