/** The seed-data generator: the SQL literal escaper used for every value it
    writes, and the split of the item list into the four `INSERT` groups
    (weapons, armour, other gear, magic items). */
module Seed {
  import opened Wrappers
  import Seqs
  import Text

  /** A JSON-like value as the generator meets it. Numbers are integers;
      objects and arrays are kept only as values `JSON.stringify` is applied to. */
  datatype JsValue =
    | Null
    | Undefined
    | Bool(b: bool)
    | Num(n: int)
    | Str(s: string)
    | Arr(elems: seq<JsValue>)
    | Obj(fields: seq<(string, JsValue)>)

  /** `typeof value === 'object'` once null has been ruled out. */
  predicate IsObject(v: JsValue) {
    v.Arr? || v.Obj?
  }

  /** JavaScript truthiness. */
  predicate Truthy(v: JsValue) {
    match v
    case Null => false
    case Undefined => false
    case Bool(b) => b
    case Num(n) => n != 0
    case Str(s) => s != ""
    case Arr(_) => true
    case Obj(_) => true
  }

  predicate IsQuote(c: char) {
    c == '\''
  }

  /** `s.replace(/'/g, "''")`: every single quote doubled, every other
      character kept. */
  function DoubleQuotes(s: string): (r: string)
    ensures '\'' !in s ==> r == s
    decreases |s|
  {
    if s == [] then []
    else (if s[0] == '\'' then "''" else [s[0]]) + DoubleQuotes(s[1..])
  }

  /** Doubling lengthens the text by one character per quote. */
  lemma {:induction false} DoubledLength(s: string)
    ensures |DoubleQuotes(s)| == |s| + Seqs.Count(s, IsQuote)
    decreases |s|
  {
    if s != [] {
      DoubledLength(s[1..]);
    }
  }

  /** The body of a SQL string literal, read up to its closing quote: a
      doubled quote stands for one quote, a single quote ends the literal.
      The result is the text and what follows the closing quote; `None` is
      an unterminated literal. */
  function ReadBody(t: string): (r: Option<(string, string)>)
    decreases |t|
  {
    if t == [] then None
    else if t[0] == '\'' then
      if |t| >= 2 && t[1] == '\'' then
        match ReadBody(t[2..])
        case None => None
        case Some((body, rest)) => Some(("'" + body, rest))
      else Some(([], t[1..]))
    else
      match ReadBody(t[1..])
      case None => None
      case Some((body, rest)) => Some(([t[0]] + body, rest))
  }

  /** A SQL string literal at the head of `t`: its text and what follows. */
  function ReadLiteral(t: string): Option<(string, string)> {
    if |t| > 0 && t[0] == '\'' then ReadBody(t[1..]) else None
  }

  /** What the doubling writes for one character. */
  function DoubledChar(c: char): string {
    if c == '\'' then "''" else [c]
  }

  lemma DoubleQuotesHead(s: string)
    requires s != []
    ensures DoubleQuotes(s) == DoubledChar(s[0]) + DoubleQuotes(s[1..])
  {
  }

  /** The written form of one character is read back as that character. */
  lemma ReadBodyHead(c: char, u: string, body: string, rest: string)
    requires ReadBody(u) == Some((body, rest))
    ensures ReadBody(DoubledChar(c) + u) == Some(([c] + body, rest))
  {
    if c == '\'' {
      assert (DoubledChar(c) + u)[2..] == u;
    } else {
      assert (DoubledChar(c) + u)[1..] == u;
    }
  }

  lemma Regroup<T>(a: seq<T>, b: seq<T>, c: seq<T>, d: seq<T>)
    ensures a + b + c + d == a + (b + c + d)
  {
  }

  /** One step of reading back: the first character of `s`, doubled or
      not, is read before the rest of the body. */
  lemma ReadBodyStep(s: string, rest: string)
    requires s != []
    requires ReadBody(DoubleQuotes(s[1..]) + "'" + rest) == Some((s[1..], rest))
    ensures ReadBody(DoubleQuotes(s) + "'" + rest) == Some((s, rest))
  {
    DoubleQuotesHead(s);
    Regroup(DoubledChar(s[0]), DoubleQuotes(s[1..]), "'", rest);
    ReadBodyHead(s[0], DoubleQuotes(s[1..]) + "'" + rest, s[1..], rest);
    assert [s[0]] + s[1..] == s;
  }

  /** Reading a doubled text back stops at the quote that closes it and
      gives the original text. */
  lemma {:induction false} ReadBodyOfDoubled(s: string, rest: string)
    requires rest == [] || rest[0] != '\''
    ensures ReadBody(DoubleQuotes(s) + "'" + rest) == Some((s, rest))
    decreases |s|
  {
    if s == [] {
      var t := DoubleQuotes(s) + "'" + rest;
      assert t == ['\''] + rest;
      assert t[1..] == rest;
    } else {
      ReadBodyOfDoubled(s[1..], rest);
      ReadBodyStep(s, rest);
    }
  }

  /** A doubled text between quotes, followed by anything that does not
      start with a quote, reads back as the text and what follows. */
  lemma ReadQuoted(s: string, rest: string)
    requires rest == [] || rest[0] != '\''
    ensures ReadLiteral("'" + DoubleQuotes(s) + "'" + rest) == Some((s, rest))
  {
    ReadBodyOfDoubled(s, rest);
    Regroup("'", DoubleQuotes(s), "'", rest);
  }

  /** `'…'`: a SQL string literal holding `s`. */
  function Quote(s: string): (r: string)
    ensures ReadLiteral(r) == Some((s, []))
    ensures ReadLiteral(r + "::jsonb") == Some((s, "::jsonb"))
  {
    ReadQuoted(s, []);
    ReadQuoted(s, "::jsonb");
    var r := "'" + DoubleQuotes(s) + "'";
    assert r + [] == r;
    r
  }

  /** `escapeSql`: null and undefined give the bare word `null`, booleans
      and numbers their text, objects their `JSON.stringify` text as a quoted
      `jsonb` literal, strings a quoted literal. `stringify` stands for
      `JSON.stringify`. */
  function EscapeSql(v: JsValue, stringify: JsValue -> string): (r: string)
    ensures v.Null? || v.Undefined? ==> r == "null"
    ensures v.Bool? ==> (r == "true" <==> v.b) && (r == "false" <==> !v.b)
    ensures v.Num? ==> Text.ParseSigned(r) == Some(v.n)
    ensures v.Str? ==> ReadLiteral(r) == Some((v.s, []))
    ensures IsObject(v) ==> ReadLiteral(r) == Some((stringify(v), "::jsonb"))
  {
    match v
    case Null => "null"
    case Undefined => "null"
    case Bool(b) => if b then "true" else "false"
    case Num(n) =>
      Text.IntToStringRoundTrip(n);
      Text.IntToString(n)
    case Str(s) => Quote(s)
    case Arr(_) => Quote(stringify(v)) + "::jsonb"
    case Obj(_) => Quote(stringify(v)) + "::jsonb"
  }

  /** Only a string or an object gives a quoted literal; the bare word
      `null` is never a string's escape, not even the string "null". */
  lemma QuotedExactlyForStringsAndObjects(v: JsValue, stringify: JsValue -> string)
    ensures var r := EscapeSql(v, stringify);
      ReadLiteral(r).Some? <==> v.Str? || IsObject(v)
  {
    var r := EscapeSql(v, stringify);
    if v.Num? {
      assert r[0] == '-' || Text.IsDigit(r[0]);
    }
  }

  /** The item fields the generator reads. */
  datatype SeedItem = SeedItem(name: string, properties: JsValue, damage: JsValue, armorClass: JsValue)

  /** `i.armor_class !== null && i.armor_class !== undefined`. */
  predicate HasArmorClass(i: SeedItem) {
    !(i.armorClass.Null? || i.armorClass.Undefined?)
  }

  /** `i => i.damage`. */
  predicate IsWeapon(i: SeedItem) {
    Truthy(i.damage)
  }

  /** `i => !i.damage && (armor_class is null or undefined) && !i.properties`. */
  predicate IsOther(i: SeedItem) {
    !Truthy(i.damage) && !HasArmorClass(i) && !Truthy(i.properties)
  }

  /** `i => !i.damage && (armor_class is null or undefined) && i.properties`. */
  predicate IsMagic(i: SeedItem) {
    !Truthy(i.damage) && !HasArmorClass(i) && Truthy(i.properties)
  }

  /** Items written twice: with damage and with an armour class. */
  predicate InBoth(i: SeedItem) {
    IsWeapon(i) && HasArmorClass(i)
  }

  /** The four groups, each in item order. */
  datatype Groups = Groups(weapons: seq<SeedItem>, armor: seq<SeedItem>, other: seq<SeedItem>, magic: seq<SeedItem>)

  function Partition(items: seq<SeedItem>): (g: Groups)
    ensures forall i :: i in g.weapons <==> i in items && IsWeapon(i)
    ensures forall i :: i in g.armor <==> i in items && HasArmorClass(i)
    ensures forall i :: i in g.other <==> i in items && IsOther(i)
    ensures forall i :: i in g.magic <==> i in items && IsMagic(i)
  {
    Groups(Seqs.Filter(items, IsWeapon), Seqs.Filter(items, HasArmorClass),
           Seqs.Filter(items, IsOther), Seqs.Filter(items, IsMagic))
  }

  /** Every item lands in at least one group; other gear and magic items
      land in exactly one; an item with both damage and an armour class is
      written both as a weapon and as armour. */
  lemma PartitionCoversItems(items: seq<SeedItem>, i: SeedItem)
    requires i in items
    ensures var g := Partition(items);
      && (i in g.weapons || i in g.armor || i in g.other || i in g.magic)
      && (i in g.other ==> i !in g.weapons && i !in g.armor && i !in g.magic)
      && (i in g.magic ==> i !in g.weapons && i !in g.armor && i !in g.other)
      && (InBoth(i) ==> i in g.weapons && i in g.armor)
  {
  }

  /** The four groups hold every item once, plus a second copy of each item
      that has both damage and an armour class. */
  lemma {:induction false} GroupSizes(items: seq<SeedItem>)
    ensures var g := Partition(items);
      |g.weapons| + |g.armor| + |g.other| + |g.magic| == |items| + Seqs.Count(items, InBoth)
    decreases |items|
  {
    if items != [] {
      GroupSizes(items[1..]);
    }
  }
}
