/**
 The reference text of the meter, read back: what `JSON.stringify` writes is a document of the grammar of RFC 8259 that
 denotes the value.
 */
module JsonReading {
  import opened Basics
  import opened JsonText
  import opened JsonMeter
  import opened Utf16

  // ----- Strings

  /** What the two-character escapes stand for (section 7 of RFC 8259). */
  lemma EscapesMean(c: char)
    ensures ShortEscape('"' as nat) == '"' as nat && ShortEscape('\\' as nat) == '\\' as nat && ShortEscape('/' as nat) == '/' as nat
    ensures ShortEscape('n' as nat) == '\n' as nat && ShortEscape('r' as nat) == '\r' as nat && ShortEscape('t' as nat) == '\t' as nat
    ensures ShortEscape('b' as nat) == 0x08 && ShortEscape('f' as nat) == 0x0c
    ensures ShortEscape(c as nat) >= 0 <==> c in {'"', '\\', '/', 'b', 'f', 'n', 'r', 't'}
  {}

  /** The character of the grammar that a quoted unit is. */
  function LetterOf(c: nat): Letter
    requires c <= 0xffff
  {
    var q := Quoted(c);
    if |q| == 1 then Raw(q[0]) else if |q| == 2 then Short(q[1]) else Hex(q[2], q[3], q[4], q[5])
  }

  lemma LetterReads(c: nat)
    requires c <= 0xffff
    ensures LetterOf(c).Valid() && LetterOf(c).Print() == Quoted(c) && LetterOf(c).Units() == [c]
  {
    hide LowerHex, HexDigit;
    HexBack(c / 4096);
    HexBack(c / 256 % 16);
    HexBack(c / 16 % 16);
    HexBack(c % 16);
    Nibbles(c);
  }

  lemma HexBack(d: nat)
    requires d < 16
    ensures HexDigit(LowerHex(d)) == d
  {}

  lemma Nibbles(c: nat)
    requires c <= 0xffff
    ensures c / 4096 < 16 && ((c / 4096 * 16 + c / 256 % 16) * 16 + c / 16 % 16) * 16 + c % 16 == c
  {
    var a, b := c / 16, c / 256;
    assert b == a / 16 && c / 4096 == b / 16;
    assert b / 16 * 16 + b % 16 == b;
    assert a / 16 * 16 + a % 16 == a;
  }

  lemma FirstLetter(l: Letter, cs: seq<Letter>)
    requires l.Valid() && ValidChars(cs)
    ensures ValidChars([l] + cs) && PrintChars([l] + cs) == l.Print() + PrintChars(cs) && CharUnits([l] + cs) == l.Units() + CharUnits(cs)
  {
    assert ([l] + cs)[1..] == cs;
  }

  function LettersOf(s: Text): seq<Letter>
    requires Narrow(s)
    decreases |s|
  {
    if s == [] then []
    else if |s| > 1 && High(s[0]) && Low(s[1]) then [Raw(s[0]), Raw(s[1])] + LettersOf(s[2..])
    else [LetterOf(s[0])] + LettersOf(s[1..])
  }

  /** A quoted string is a string of the grammar and denotes what was quoted. */
  lemma {:induction false} QuoteReads(s: Text)
    requires Narrow(s)
    ensures var cs := LettersOf(s); ValidChars(cs) && [34] + PrintChars(cs) + [34] == Quote(s) && CharUnits(cs) == s
  {
    BodyReads(s);
  }

  lemma {:induction false} BodyReads(s: Text)
    requires Narrow(s)
    ensures var cs := LettersOf(s); ValidChars(cs) && PrintChars(cs) == QuoteBody(s) && CharUnits(cs) == s
    decreases |s|
  {
    hide Quoted, LetterOf, PrintChars, CharUnits, ValidChars;
    if s == [] {
      NoLetters();
    } else if |s| > 1 && High(s[0]) && Low(s[1]) {
      BodyReads(s[2..]);
      PairReads(s[0], s[1], LettersOf(s[2..]));
      assert s[..2] == [s[0], s[1]] && s == [s[0], s[1]] + s[2..];
    } else {
      BodyReads(s[1..]);
      LetterReads(s[0]);
      FirstLetter(LetterOf(s[0]), LettersOf(s[1..]));
      assert s == [s[0]] + s[1..];
    }
  }

  lemma SurrogateReads(c: nat)
    requires High(c) || Low(c)
    ensures Raw(c).Valid() && Raw(c).Print() == [c] && Raw(c).Units() == [c]
  {}

  lemma PairReads(a: nat, b: nat, cs: seq<Letter>)
    requires High(a) && Low(b) && ValidChars(cs)
    ensures var all := [Raw(a), Raw(b)] + cs;
            ValidChars(all) && PrintChars(all) == [a, b] + PrintChars(cs) && CharUnits(all) == [a, b] + CharUnits(cs)
  {
    hide PrintChars, CharUnits, ValidChars, High, Low, Letter.Valid, Letter.Print, Letter.Units;
    SurrogateReads(a);
    SurrogateReads(b);
    FirstLetter(Raw(b), cs);
    FirstLetter(Raw(a), [Raw(b)] + cs);
    assert [Raw(a), Raw(b)] + cs == [Raw(a)] + ([Raw(b)] + cs);
    assert [a] + ([b] + PrintChars(cs)) == [a, b] + PrintChars(cs);
    assert [a] + ([b] + CharUnits(cs)) == [a, b] + CharUnits(cs);
  }

  lemma NoLetters()
    ensures ValidChars([]) && PrintChars([]) == [] && CharUnits([]) == []
  {}

  // ----- Values

  ghost predicate IsNumeral(ds: Text) {
    exists n: Numeral :: n.Valid() && n.Print() == ds
  }

  /** Every finite number is written as a numeral of the grammar. */
  ghost predicate Numeric(v: Js) {
    match v
    case Finite(ds) => IsNumeral(ds)
    case Arr(items) => NumericItems(items)
    case Obj(fields) => NumericFields(fields)
    case _ => true
  }

  ghost predicate NumericItems(items: Items) {
    items.Item? ==> (items.slot.Data? ==> Numeric(items.slot.js)) && NumericItems(items.next)
  }

  ghost predicate NumericFields(fields: Fields) {
    fields.Field? ==> (fields.slot.Data? ==> Numeric(fields.slot.js)) && NumericFields(fields.next)
  }

  /** The tree denotes the value: its strings and keys unit by unit, its words, its numbers as written, and its entries and
      members in their order, omitted members left out. */
  predicate Denotes(t: Value, v: Js)
    requires t.Valid() && Plain(v)
  {
    match v
    case Bool(b) => t == Literal(if b then True else False)
    case Finite(ds) => t.Number? && t.numeral.Print() == ds
    case Str(us) => t.String? && CharUnits(t.chars) == us
    case Arr(items) => t.Array? && DenotesItems(t.elements, items)
    case Obj(fields) => t.Object? && DenotesFields(t.members, fields)
    case _ => t == Literal(Word.Null)
  }

  predicate DenotesItems(es: Elements, items: Items)
    requires es.Valid() && PlainItems(items)
  {
    match items
    case NoItem => es.NoElement?
    case Item(slot, next) => es.Element? && Denotes(es.value, slot.js) && DenotesItems(es.next, next)
  }

  predicate DenotesFields(ms: Members, fields: Fields)
    requires ms.Valid() && PlainFields(fields)
  {
    match fields
    case NoField => ms.NoMember?
    case Field(key, slot, next) =>
      if slot.js.Omitted? then DenotesFields(ms, next)
      else ms.Member? && CharUnits(ms.key) == key && Denotes(ms.value, slot.js) && DenotesFields(ms.next, next)
  }

  /** The text is a document that denotes the value. */
  ghost predicate Reads(text: Text, v: Js)
    requires Plain(v)
  {
    exists d: Document :: d.Valid() && d.Print() == text && Denotes(d.root, v)
  }

  lemma {:induction false} ItemReads(v: Js) returns (t: Value)
    requires Plain(v) && Numeric(v)
    ensures t.Valid() && t.Print() == ItemText(v) && Denotes(t, v)
    decreases v
  {
    hide Quote, PrintChars, CharUnits, LettersOf, ValidChars, ItemsText, FieldsText;
    match v
    case Bool(b) => t := Literal(if b then True else False);
    case Finite(ds) =>
      var n: Numeral :| n.Valid() && n.Print() == ds;
      t := Number(n);
    case Str(us) =>
      QuoteReads(us);
      t := String(LettersOf(us));
    case Arr(items) =>
      var es := ItemsRead(items);
      t := Array([], es);
      assert [91] + ItemsText(items, true) + [93] == [91] + (ItemsText(items, true) + [93]);
    case Obj(fields) =>
      var ms := FieldsRead(fields);
      t := Object([], ms);
      assert [123] + FieldsText(fields, true) + [125] == [123] + (FieldsText(fields, true) + [125]);
    case _ => t := Literal(Word.Null);
  }

  /** The printing of elements with a comma in front, where there are any. */
  function ElementsText(es: Elements, first: bool): Text {
    if es.NoElement? then [] else Comma(first) + es.Print()
  }

  lemma {:induction false} ItemsRead(items: Items) returns (es: Elements)
    requires PlainItems(items) && NumericItems(items)
    ensures es.Valid() && DenotesItems(es, items)
    ensures forall first :: ItemsText(items, first) == ElementsText(es, first)
    decreases items
  {
    hide ItemText, Denotes, ElementsText;
    if items.Item? {
      var v := ItemReads(items.slot.js);
      var next := ItemsRead(items.next);
      es := Element([], v, [], next);
      forall first ensures ItemsText(items, first) == ElementsText(es, first) {
        ElementReads(es, first);
      }
    } else {
      es := NoElement;
      forall first ensures ElementsText(es, first) == [] { NoElements(first); }
    }
  }

  lemma ElementReads(es: Elements, first: bool)
    requires es.Element? && es.before == [] && es.after == []
    ensures ElementsText(es, first) == Comma(first) + (es.value.Print() + ElementsText(es.next, false))
  {
    assert es.Print() == es.value.Print() + ElementsText(es.next, false);
  }

  lemma NoElements(first: bool)
    ensures ElementsText(NoElement, first) == []
  {}

  function MembersText(ms: Members, first: bool): Text {
    if ms.NoMember? then [] else Comma(first) + ms.Print()
  }

  lemma {:induction false} FieldsRead(fields: Fields) returns (ms: Members)
    requires PlainFields(fields) && NumericFields(fields)
    ensures ms.Valid() && DenotesFields(ms, fields)
    ensures forall first :: FieldsText(fields, first) == MembersText(ms, first)
    decreases fields
  {
    hide ItemText, Denotes, PrintChars, CharUnits, LettersOf, ValidChars, Quote;
    if fields.NoField? {
      ms := NoMember;
    } else if fields.slot.js.Omitted? {
      ms := FieldsRead(fields.next);
    } else {
      var v := ItemReads(fields.slot.js);
      var next := FieldsRead(fields.next);
      QuoteReads(fields.key);
      ms := Member([], LettersOf(fields.key), [], [], v, [], next);
      forall first ensures FieldsText(fields, first) == MembersText(ms, first) {
        MemberReads(ms, fields.key);
      }
    }
  }

  lemma MemberReads(ms: Members, key: Text)
    requires ms.Member? && ms.before == [] && ms.gap == [] && ms.lead == [] && ms.after == []
    requires Narrow(key) && [34] + PrintChars(ms.key) + [34] == Quote(key)
    ensures ms.Print() == Quote(key) + ([58] + (ms.value.Print() + MembersText(ms.next, false)))
  {
    hide PrintChars, Quote;
    var tail := MembersText(ms.next, false);
    var colon := [58] + (ms.value.Print() + tail);
    assert ms.Print() == [34] + (PrintChars(ms.key) + ([34] + colon));
    assert [34] + (PrintChars(ms.key) + ([34] + colon)) == [34] + PrintChars(ms.key) + [34] + colon;
  }

  /** The text of a value whose numbers are numerals is a document that denotes it. */
  lemma TextReads(v: Js)
    requires Plain(v) && Numeric(v) && Stringify(v).Some?
    ensures Reads(Stringify(v).value, v)
  {
    hide ItemText, Denotes;
    var t := ItemReads(v);
    var d := Document([], t, []);
    assert d.Print() == t.Print();
  }
}
