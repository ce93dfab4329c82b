/**
 The meter of `worker/assignment-source.ts`: the size of `JSON.stringify` output, in UTF-16 units and in UTF-8
 bytes, computed without building the text.

 `Stringify` is the reference: QuoteJSONString and SerializeJSONProperty of sections 25.5.2.3 and following of
 ECMA-262 2023, on the data the meter admits.
 */
module JsonMeter {
  import opened Basics
  import opened JsonText
  import opened Utf16
  import AccessJson

  const SOURCE_LIMIT: nat := 2097152
  const COMPLETE_LIMIT: nat := 1048576

  /** A JavaScript value as the meter sees it. `Omitted` is undefined, a function, a symbol or an array hole;
      `Foreign` is an object whose prototype or `toJSON` the meter refuses, `Big` a value that is no object. */
  datatype Js =
    | Omitted | Null | Bool(value: bool) | Finite(digits: Text) | NotFinite | Str(units: Text)
    | Arr(items: Items) | Obj(fields: Fields) | Foreign | Big

  /** A property holds data or an accessor. */
  datatype Slot = Data(js: Js) | Accessor
  datatype Items = NoItem | Item(slot: Slot, next: Items)
  datatype Fields = NoField | Field(key: Text, slot: Slot, next: Fields)

  // ----- The reference text

  function LowerHex(d: nat): nat
    requires d < 16
  {
    if d < 10 then 48 + d else 87 + d
  }

  function Unicode(c: nat): Text
    requires c <= 0xffff
  {
    [92, 117, LowerHex(c / 4096), LowerHex(c / 256 % 16), LowerHex(c / 16 % 16), LowerHex(c % 16)]
  }

  function QuoteBody(s: Text): Text
    requires Narrow(s)
    decreases |s|
  {
    if s == [] then []
    else if |s| > 1 && High(s[0]) && Low(s[1]) then s[..2] + QuoteBody(s[2..])
    else Quoted(s[0]) + QuoteBody(s[1..])
  }

  function Quoted(c: nat): Text
    requires c <= 0xffff
  {
    if c == 8 then [92, 98]
    else if c == 9 then [92, 116]
    else if c == 10 then [92, 110]
    else if c == 12 then [92, 102]
    else if c == 13 then [92, 114]
    else if c == 34 then [92, 34]
    else if c == 92 then [92, 92]
    else if c < 32 || High(c) || Low(c) then Unicode(c)
    else [c]
  }

  function Quote(s: Text): Text
    requires Narrow(s)
  {
    [34] + (QuoteBody(s) + [34])
  }

  const NULL: Text := [110, 117, 108, 108]
  const TRUE: Text := [116, 114, 117, 101]
  const FALSE: Text := [102, 97, 108, 115, 101]

  /** Data only, with digits that are ASCII and strings of code units. */
  predicate Plain(v: Js) {
    match v
    case Finite(ds) => forall i :: 0 <= i < |ds| ==> ds[i] < 128
    case Str(us) => Narrow(us)
    case Arr(items) => PlainItems(items)
    case Obj(fields) => PlainFields(fields)
    case Foreign => false
    case Big => false
    case _ => true
  }

  predicate PlainItems(items: Items) {
    items.Item? ==> items.slot.Data? && Plain(items.slot.js) && PlainItems(items.next)
  }

  predicate PlainFields(fields: Fields) {
    fields.Field? ==> Narrow(fields.key) && fields.slot.Data? && Plain(fields.slot.js) && PlainFields(fields.next)
  }

  /** The text of a value as an entry of an array, where an omitted one reads null. */
  function ItemText(v: Js): Text
    requires Plain(v)
  {
    match v
    case Bool(b) => if b then TRUE else FALSE
    case Finite(ds) => ds
    case Str(us) => Quote(us)
    case Arr(items) => [91] + (ItemsText(items, true) + [93])
    case Obj(fields) => [123] + (FieldsText(fields, true) + [125])
    case _ => NULL
  }

  function ItemsText(items: Items, first: bool): Text
    requires PlainItems(items)
  {
    match items
    case NoItem => []
    case Item(slot, next) => Comma(first) + (ItemText(slot.js) + ItemsText(next, false))
  }

  function FieldsText(fields: Fields, first: bool): Text
    requires PlainFields(fields)
  {
    match fields
    case NoField => []
    case Field(key, slot, next) =>
      if slot.js.Omitted? then FieldsText(next, first)
      else Comma(first) + (Quote(key) + ([58] + (ItemText(slot.js) + FieldsText(next, false))))
  }

  function Comma(first: bool): Text {
    if first then [] else [44]
  }

  // ----- The counters

  datatype Counts = Counts(text: nat, bytes: nat, values: nat, containers: nat, members: nat, entries: nat, units: nat) {
    predicate Within(maximum: nat) {
      && text <= maximum && bytes <= maximum && values <= 65536 && containers <= 16384
      && members + entries <= 32768 && units <= SOURCE_LIMIT
    }

    predicate AtMost(that: Counts) {
      && text <= that.text && bytes <= that.bytes && values <= that.values && containers <= that.containers
      && members <= that.members && entries <= that.entries && units <= that.units
    }

    /** Nothing has been counted. */
    predicate Clean() {
      text == 0 && bytes == 0 && values == 0 && containers == 0 && members == 0 && entries == 0 && units == 0
    }

    function Plus(d: Counts): Counts {
      Counts(text + d.text, bytes + d.bytes, values + d.values, containers + d.containers, members + d.members, entries + d.entries, units + d.units)
    }

    function Add(t: nat, b: nat): Counts { this.(text := text + t, bytes := bytes + b) }
    function Value(): Counts { this.(values := values + 1) }
    function Container(): Counts { this.(containers := containers + 1) }
    function Member(): Counts { this.(members := members + 1) }
    function Entry(): Counts { this.(entries := entries + 1) }
    function Units(n: nat): Counts { this.(units := units + n) }
  }

  const ZERO: Counts := Counts(0, 0, 0, 0, 0, 0, 0)

  /** What one code unit, or a pair, adds; the branches are those of the source. */
  function UnitCost(c: nat): (nat, nat) {
    if c == 34 || c == 92 || c == 8 || c == 9 || c == 10 || c == 12 || c == 13 then (2, 2)
    else if c < 32 then (6, 6)
    else if 0xd800 <= c <= 0xdfff then (6, 6)
    else (1, if c < 128 then 1 else if c < 2048 then 2 else 3)
  }

  function BodyCost(s: Text, c: Counts): Counts
    decreases |s|
  {
    if s == [] then c
    else if |s| > 1 && High(s[0]) && Low(s[1]) then BodyCost(s[2..], c.Add(2, 4))
    else BodyCost(s[1..], c.Add(UnitCost(s[0]).0, UnitCost(s[0]).1))
  }

  function StringCost(s: Text, c: Counts): Counts {
    BodyCost(s, c.Units(|s|).Add(2, 2))
  }

  function Cost(v: Js, c: Counts): Counts
    requires Plain(v)
  {
    var c1 := c.Value();
    match v
    case Str(us) => StringCost(us, c1)
    case Bool(b) => if b then c1.Add(4, 4) else c1.Add(5, 5)
    case Finite(ds) => c1.Add(|ds|, |ds|)
    case Arr(items) => ItemsCost(items, true, c1.Container().Add(2, 2))
    case Obj(fields) => FieldsCost(fields, true, c1.Container().Add(2, 2))
    case _ => c1.Add(4, 4)
  }

  function CommaCost(first: bool, c: Counts): Counts {
    if first then c else c.Add(1, 1)
  }

  function ItemsCost(items: Items, first: bool, c: Counts): Counts
    requires PlainItems(items)
  {
    match items
    case NoItem => c
    case Item(slot, next) => ItemsCost(next, false, Cost(slot.js, CommaCost(first, c.Entry())))
  }

  function FieldsCost(fields: Fields, first: bool, c: Counts): Counts
    requires PlainFields(fields)
  {
    match fields
    case NoField => c
    case Field(key, slot, next) =>
      if slot.js.Omitted? then FieldsCost(next, first, c)
      else FieldsCost(next, false, Cost(slot.js, StringCost(key, CommaCost(first, c.Member())).Add(1, 1)))
  }

  /** The counters after one member. */
  function FieldCost(key: Text, v: Js, first: bool, c: Counts): Counts
    requires Plain(v)
  {
    Cost(v, StringCost(key, CommaCost(first, c.Member())).Add(1, 1))
  }

  // ----- The counters are the sizes of the reference text

  function Size(s: Text): nat {
    AccessJson.Utf8Length(s)
  }

  /** A piece of serialized text that no neighbour can turn into half of a surrogate pair. */
  predicate Closed(s: Text) {
    && (s != [] ==> !Low(s[0]) && !High(s[|s| - 1]))
  }

  lemma JoinClosed(a: Text, b: Text)
    requires Closed(a) && Closed(b)
    ensures Closed(a + b) && Size(a + b) == Size(a) + Size(b)
  {
    MeasureConcat(a, b);
  }

  lemma {:induction false} AsciiSize(s: Text)
    requires forall i :: 0 <= i < |s| ==> s[i] < 128
    ensures Size(s) == |s| && Closed(s)
    decreases |s|
  {
    if s != [] { AsciiSize(s[1..]); }
  }

  lemma QuotedCost(c: nat)
    requires c <= 0xffff
    ensures UnitCost(c) == (|Quoted(c)|, Size(Quoted(c))) && Closed(Quoted(c))
  {
    if Quoted(c) == [c] {
      SingleSize(c);
    } else {
      AsciiSize(Quoted(c));
    }
  }

  lemma SingleSize(c: nat)
    requires !High(c)
    ensures Size([c]) == if c < 128 then 1 else if c < 2048 then 2 else 3
  {
    var s := [c];
    assert s[1..] == [];
    assert AccessJson.Utf8Length(s[1..]) == 0;
  }

  lemma PairSize(a: nat, b: nat)
    requires High(a) && Low(b)
    ensures Size([a, b]) == 4
  {
    var s := [a, b];
    assert AccessJson.PairAt(s, 0);
    assert s[2..] == [];
    assert AccessJson.Utf8Length(s[2..]) == 0;
  }

  lemma {:induction false} BodyIsText(s: Text, c: Counts)
    requires Narrow(s)
    ensures BodyCost(s, c) == c.Add(|QuoteBody(s)|, Size(QuoteBody(s)))
    ensures Closed(QuoteBody(s))
    decreases |s|
  {
    hide Quoted, UnitCost, Size;
    if s != [] {
      if |s| > 1 && High(s[0]) && Low(s[1]) {
        var rest := QuoteBody(s[2..]);
        BodyIsText(s[2..], c.Add(2, 4));
        PairThen(s[0], s[1], rest);
        assert s[..2] == [s[0], s[1]];
        assert QuoteBody(s) == [s[0], s[1]] + rest;
      } else {
        var rest := QuoteBody(s[1..]);
        QuotedCost(s[0]);
        BodyIsText(s[1..], c.Add(UnitCost(s[0]).0, UnitCost(s[0]).1));
        JoinClosed(Quoted(s[0]), rest);
        assert QuoteBody(s) == Quoted(s[0]) + rest;
      }
    } else {
      AsciiSize([]);
    }
  }

  lemma PairThen(a: nat, b: nat, rest: Text)
    requires High(a) && Low(b) && Closed(rest)
    ensures Closed([a, b] + rest) && Size([a, b] + rest) == 4 + Size(rest)
  {
    PairSize(a, b);
    MeasureConcat([a, b], rest);
  }

  lemma StringIsText(s: Text, c: Counts)
    requires Narrow(s)
    ensures StringCost(s, c) == c.Units(|s|).Add(|Quote(s)|, Size(Quote(s))) && Closed(Quote(s))
  {
    BodyIsText(s, c.Units(|s|).Add(2, 2));
    AsciiSize([34]);
    JoinClosed(QuoteBody(s), [34]);
    JoinClosed([34], QuoteBody(s) + [34]);
  }

  predicate Measures(c: Counts, c': Counts, s: Text) {
    c'.text == c.text + |s| && c'.bytes == c.bytes + Size(s) && Closed(s) && c.AtMost(c')
  }

  /** The two size counters grow by the length of the text in units and in bytes. */
  lemma {:induction false} ItemIsText(v: Js, c: Counts)
    requires Plain(v)
    ensures Measures(c, Cost(v, c), ItemText(v))
    decreases v
  {
    hide StringCost, Quote, Measures, ItemsCost, ItemsText, FieldsCost, FieldsText;
    match v
    case Str(us) =>
      StringMeasures(us, c.Value());
      CountedFree(c, c.Value(), Cost(v, c), Quote(us));
    case Finite(ds) => WordIsText(ds, c);
    case Bool(b) => WordIsText(if b then TRUE else FALSE, c);
    case Arr(items) =>
      ItemsAreText(items, true, c.Value().Container().Add(2, 2));
      Bracketed(91, ItemsText(items, true), 93, c, Cost(v, c));
    case Obj(fields) =>
      FieldsAreText(fields, true, c.Value().Container().Add(2, 2));
      Bracketed(123, FieldsText(fields, true), 125, c, Cost(v, c));
    case _ => WordIsText(NULL, c);
  }

  lemma StringMeasures(s: Text, c: Counts)
    requires Narrow(s)
    ensures Measures(c, StringCost(s, c), Quote(s))
  {
    hide StringCost, Quote;
    StringIsText(s, c);
  }

  lemma WordIsText(s: Text, c: Counts)
    requires forall i :: 0 <= i < |s| ==> s[i] < 128
    ensures Measures(c, c.Value().Add(|s|, |s|), s)
  {
    AsciiSize(s);
  }

  lemma Bracketed(open: nat, s: Text, close: nat, c: Counts, c': Counts)
    requires open < 128 && close < 128 && Measures(c.Value().Container().Add(2, 2), c', s)
    ensures Measures(c, c', [open] + (s + [close]))
  {
    AsciiSize([open]);
    AsciiSize([close]);
    JoinClosed(s, [close]);
    JoinClosed([open], s + [close]);
  }

  lemma CommaIsText(first: bool, c: Counts)
    ensures Measures(c, CommaCost(first, c), Comma(first))
  {
    AsciiSize(Comma(first));
  }

  lemma Then(c0: Counts, c1: Counts, c2: Counts, a: Text, b: Text)
    requires Measures(c0, c1, a) && Measures(c1, c2, b)
    ensures Measures(c0, c2, a + b)
  {
    JoinClosed(a, b);
  }

  lemma {:induction false} ItemsAreText(items: Items, first: bool, c: Counts)
    requires PlainItems(items)
    ensures Measures(c, ItemsCost(items, first, c), ItemsText(items, first))
    decreases items
  {
    if items.Item? {
      var v := items.slot.js;
      var c1 := CommaCost(first, c.Entry());
      var c2 := Cost(v, c1);
      CommaIsText(first, c.Entry());
      ItemIsText(v, c1);
      ItemsAreText(items.next, false, c2);
      Then(c1, c2, ItemsCost(items.next, false, c2), ItemText(v), ItemsText(items.next, false));
      Then(c.Entry(), c1, ItemsCost(items.next, false, c2), Comma(first), ItemText(v) + ItemsText(items.next, false));
    }
  }

  /** One field of the text and of its cost. */
  lemma FieldsUnfold(fields: Fields, first: bool, c: Counts)
    requires PlainFields(fields)
    ensures fields.NoField? ==> FieldsCost(fields, first, c) == c && FieldsText(fields, first) == []
    ensures fields.Field? ==>
              var v, key, next := fields.slot.js, fields.key, fields.next;
              var after := StringCost(key, CommaCost(first, c.Member())).Add(1, 1);
              && fields.slot.Data? && Plain(v) && Narrow(key) && PlainFields(next)
              && (v.Omitted? ==> FieldsCost(fields, first, c) == FieldsCost(next, first, c) && FieldsText(fields, first) == FieldsText(next, first))
              && (!v.Omitted? ==>
                    && FieldsCost(fields, first, c) == FieldsCost(next, false, Cost(v, after))
                    && FieldsText(fields, first) == Comma(first) + (Quote(key) + ([58] + (ItemText(v) + FieldsText(next, false)))))
  {
    hide StringCost, Quote, Cost, ItemText, CommaCost, Comma;
  }

  /** Counting a value or a member costs no text. */
  lemma CountedFree(c: Counts, d: Counts, c': Counts, s: Text)
    requires c.text == d.text && c.bytes == d.bytes && c.AtMost(d) && Measures(d, c', s)
    ensures Measures(c, c', s)
  {}

  lemma MeasuresNothing(c: Counts)
    ensures Measures(c, c, [])
  {}

  lemma MeasuresColon(c: Counts)
    ensures Measures(c, c.Add(1, 1), [58])
  {
    AsciiSize([58]);
  }

  lemma {:induction false} FieldsAreText(fields: Fields, first: bool, c: Counts)
    requires PlainFields(fields)
    ensures Measures(c, FieldsCost(fields, first, c), FieldsText(fields, first))
    decreases fields
  {
    hide StringCost, Quote, Cost, ItemText, FieldsCost, FieldsText, Measures, CommaCost, Comma;
    FieldsUnfold(fields, first, c);
    if fields.NoField? {
      MeasuresNothing(c);
    } else {
      var v, key, next := fields.slot.js, fields.key, fields.next;
      if v.Omitted? {
        FieldsAreText(next, first, c);
      } else {
        var c1 := CommaCost(first, c.Member());
        var c2 := StringCost(key, c1);
        var c3 := c2.Add(1, 1);
        var c4 := Cost(v, c3);
        var c5 := FieldsCost(next, false, c4);
        var tail := FieldsText(next, false);
        CommaIsText(first, c.Member());
        StringIsText(key, c1);
        MeasuresColon(c2);
        ItemIsText(v, c3);
        FieldsAreText(next, false, c4);
        Then(c3, c4, c5, ItemText(v), tail);
        Then(c2, c3, c5, [58], ItemText(v) + tail);
        Then(c1, c2, c5, Quote(key), [58] + (ItemText(v) + tail));
        Then(c.Member(), c1, c5, Comma(first), Quote(key) + ([58] + (ItemText(v) + tail)));
        CountedFree(c, c.Member(), c5, FieldsText(fields, first));
      }
    }
  }

  // ----- The limits

  /** Depth and the length of single strings; everything else is in the counters. */
  predicate Local(v: Js, depth: nat)
    requires Plain(v)
  {
    match v
    case Str(us) => |us| <= COMPLETE_LIMIT
    case Arr(items) => depth < 16 && LocalItems(items, depth + 1)
    case Obj(fields) => depth < 16 && LocalFields(fields, depth + 1)
    case _ => true
  }

  predicate LocalItems(items: Items, depth: nat)
    requires PlainItems(items)
  {
    items.Item? ==> Local(items.slot.js, depth) && LocalItems(items.next, depth)
  }

  predicate LocalFields(fields: Fields, depth: nat)
    requires PlainFields(fields)
  {
    fields.Field? ==>
      && (!fields.slot.js.Omitted? ==> |fields.key| <= 1024 && Local(fields.slot.js, depth))
      && LocalFields(fields.next, depth)
  }

  lemma {:induction false} BodyGrows(s: Text, c: Counts)
    ensures c.AtMost(BodyCost(s, c))
    decreases |s|
  {
    if s != [] {
      if |s| > 1 && High(s[0]) && Low(s[1]) {
        BodyGrows(s[2..], c.Add(2, 4));
      } else {
        BodyGrows(s[1..], c.Add(UnitCost(s[0]).0, UnitCost(s[0]).1));
      }
    }
  }

  /** What decides admission: the finished text and the structural limits, nothing about the order of the walk. */
  predicate Admits(v: Js, depth: nat, c: Counts, maximum: nat)
    requires Plain(v)
  {
    Local(v, depth) && Cost(v, c).Within(maximum)
  }

  /** `JSON.stringify` of a whole value: no text at all for an omitted one. */
  function Stringify(v: Js): Option<Text>
    requires Plain(v)
  {
    if v.Omitted? then None else Some(ItemText(v))
  }

  /** For every plain value that has a text, the two size counters grow by its length in units and in bytes. */
  lemma CostIsText(v: Js, c: Counts)
    requires Plain(v) && Stringify(v).Some?
    ensures var text := Stringify(v).value;
            && Narrow(text) && Cost(v, c).text == c.text + |text| && Cost(v, c).bytes == c.bytes + |Bytes16(text)|
  {
    hide Cost, ItemText, Bytes16, AccessJson.Utf8Length;
    ItemTextNarrow(v);
    ItemIsText(v, c);
    MeasureIsSize(ItemText(v));
  }

  /** The finished text is within a limit, in units and in bytes. */
  predicate TextFits(text: Text, maximum: nat)
    requires Narrow(text)
  {
    |text| <= maximum && |Bytes16(text)| <= maximum
  }

  /** Early failure on size happens exactly when the finished text is too long, in units or in bytes. */
  lemma SizeDecides(v: Js, stored: bool)
    requires Plain(v) && Stringify(v).Some?
    ensures Narrow(Stringify(v).value)
    ensures var maximum := if stored then COMPLETE_LIMIT else SOURCE_LIMIT;
            var c := Cost(v, ZERO);
            Admits(v, 0, ZERO, maximum) <==>
            && TextFits(Stringify(v).value, maximum)
            && Local(v, 0) && c.values <= 65536 && c.containers <= 16384 && c.members + c.entries <= 32768
            && c.units <= SOURCE_LIMIT
  {
    hide Cost, Stringify, Local, Bytes16;
    CostIsText(v, ZERO);
  }

  /** An omitted value is admitted although it has no text. */
  lemma OmittedIsAdmitted(v: Js, maximum: nat)
    requires v.Omitted? && maximum >= 4
    ensures Plain(v) && Admits(v, 0, ZERO, maximum) && Stringify(v).None?
  {}

  lemma {:induction false} QuoteNarrow(s: Text)
    requires Narrow(s)
    ensures Narrow(QuoteBody(s))
    decreases |s|
  {
    hide Quoted;
    if s != [] {
      QuotedNarrow(s[0]);
      if |s| > 1 && High(s[0]) && Low(s[1]) {
        QuoteNarrow(s[2..]);
      } else {
        QuoteNarrow(s[1..]);
      }
    }
  }

  lemma QuotedNarrow(c: nat)
    requires c <= 0xffff
    ensures Narrow(Quoted(c))
  {}

  /** The reference text is a sequence of UTF-16 code units. */
  lemma {:induction false} ItemTextNarrow(v: Js)
    requires Plain(v)
    ensures Narrow(ItemText(v))
    decreases v
  {
    match v
    case Str(us) => QuoteNarrow(us);
    case Arr(items) => ItemsNarrow(items, true);
    case Obj(fields) => FieldsNarrow(fields, true);
    case _ =>
  }

  lemma {:induction false} ItemsNarrow(items: Items, first: bool)
    requires PlainItems(items)
    ensures Narrow(ItemsText(items, first))
    decreases items
  {
    if items.Item? {
      ItemTextNarrow(items.slot.js);
      ItemsNarrow(items.next, false);
    }
  }

  lemma {:induction false} FieldsNarrow(fields: Fields, first: bool)
    requires PlainFields(fields)
    ensures Narrow(FieldsText(fields, first))
    decreases fields
  {
    hide ItemText, Quote;
    if fields.Field? {
      var v := fields.slot.js;
      FieldsNarrow(fields.next, if v.Omitted? then first else false);
      if !v.Omitted? {
        ItemTextNarrow(v);
        KeyNarrow(fields.key);
        var tail := ItemText(v) + FieldsText(fields.next, false);
        assert Narrow(tail) && Narrow([58] + tail) && Narrow(Quote(fields.key) + ([58] + tail));
      }
    }
  }

  lemma KeyNarrow(key: Text)
    requires Narrow(key)
    ensures Narrow(Quote(key))
  {
    QuoteNarrow(key);
  }
}
