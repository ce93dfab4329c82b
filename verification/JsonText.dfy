/**
 JSON texts as RFC 8259 defines them, given as concrete syntax trees.

 A text is a sequence of character codes. A `Value` records every lexical choice the grammar leaves
 open (white space, escapes, the spelling of a numeral), so `Print` is a function, and "the text `s` is in
 the grammar" means "`s` is `Print` of a valid tree". The same trees serve the byte-level account projection,
 where a code is a Unicode scalar value, and the Access validator, where a code is a UTF-16 code unit.
 */
module JsonText {

  type Text = seq<nat>

  predicate IsSpace(c: nat) {
    c == 32 || c == 9 || c == 10 || c == 13
  }

  predicate Blank(s: Text) {
    forall i :: 0 <= i < |s| ==> IsSpace(s[i])
  }

  /** A text whose codes are UTF-16 units. */
  predicate Narrow(s: Text) {
    forall i :: 0 <= i < |s| ==> s[i] <= 0xffff
  }

  predicate IsDigit(c: nat) {
    48 <= c <= 57
  }

  predicate Digits(s: Text) {
    forall i :: 0 <= i < |s| ==> IsDigit(s[i])
  }

  /** The value of a hexadecimal digit, or -1. */
  function HexDigit(c: nat): int {
    if IsDigit(c) then c - 48
    else if 65 <= c <= 70 then c - 55
    else if 97 <= c <= 102 then c - 87
    else -1
  }

  /** The code unit a two-character escape stands for, or -1. */
  function ShortEscape(c: nat): int {
    if c == 34 || c == 92 || c == 47 then c
    else if c == 98 then 8
    else if c == 102 then 12
    else if c == 110 then 10
    else if c == 114 then 13
    else if c == 116 then 9
    else -1
  }

  // ----- Strings (section 7 of RFC 8259)

  datatype Letter =
    | Raw(code: nat)
    | Short(mark: nat)
    | Hex(h0: nat, h1: nat, h2: nat, h3: nat)
  {
    predicate Valid() {
      match this
      case Raw(c) => c >= 32 && c != 34 && c != 92
      case Short(m) => ShortEscape(m) >= 0
      case Hex(a, b, c, d) => HexDigit(a) >= 0 && HexDigit(b) >= 0 && HexDigit(c) >= 0 && HexDigit(d) >= 0
    }

    function Print(): Text {
      match this
      case Raw(c) => [c]
      case Short(m) => [92, m]
      case Hex(a, b, c, d) => [92, 117, a, b, c, d]
    }

    /** The UTF-16 code units this character denotes. */
    function Units(): Text
      requires Valid()
    {
      match this
      case Raw(c) => ScalarUnits(c)
      case Short(m) => [ShortEscape(m)]
      case Hex(a, b, c, d) => [((HexDigit(a) * 16 + HexDigit(b)) * 16 + HexDigit(c)) * 16 + HexDigit(d)]
    }
  }

  function ScalarUnits(c: nat): Text {
    if c <= 0xffff then [c] else [0xd800 + (c - 0x10000) / 1024, 0xdc00 + (c - 0x10000) % 1024]
  }

  predicate ValidChars(cs: seq<Letter>) {
    forall i :: 0 <= i < |cs| ==> cs[i].Valid()
  }

  function PrintChars(cs: seq<Letter>): Text {
    if cs == [] then [] else cs[0].Print() + PrintChars(cs[1..])
  }

  function CharUnits(cs: seq<Letter>): Text
    requires ValidChars(cs)
  {
    if cs == [] then [] else cs[0].Units() + CharUnits(cs[1..])
  }

  // ----- Numerals (section 6 of RFC 8259)

  /** `fraction` is empty when there is no fraction, and `mark` and `power` when there is no exponent. */
  datatype Numeral = Numeral(minus: bool, whole: Text, fraction: Text, mark: Text, power: Text) {
    predicate Valid() {
      && ValidWhole(whole)
      && Digits(fraction)
      && (mark == [] ==> power == [])
      && (mark != [] ==> ValidMark(mark) && power != [] && Digits(power))
    }

    function Print(): Text {
      (if minus then [45] else []) + whole + Tail()
    }

    function Tail(): Text {
      (if fraction == [] then [] else [46] + fraction) + (mark + power)
    }
  }

  predicate ValidWhole(s: Text) {
    s == [48] || (s != [] && Digits(s) && s[0] != 48)
  }

  predicate ValidMark(s: Text) {
    && (|s| == 1 || (|s| == 2 && (s[1] == 43 || s[1] == 45)))
    && (s[0] == 101 || s[0] == 69)
  }

  // ----- Values (sections 2 to 5 of RFC 8259)

  datatype Word = Null | True | False {
    function Print(): Text {
      match this
      case Null => [110, 117, 108, 108]
      case True => [116, 114, 117, 101]
      case False => [102, 97, 108, 115, 101]
    }
  }

  datatype Value =
    | Literal(word: Word)
    | Number(numeral: Numeral)
    | String(chars: seq<Letter>)
    | Array(blank: Text, elements: Elements)
    | Object(blank: Text, members: Members)
  {
    predicate Valid() {
      match this
      case Literal(_) => true
      case Number(n) => n.Valid()
      case String(cs) => ValidChars(cs)
      case Array(blank, es) => Blank(blank) && es.Valid()
      case Object(blank, ms) => Blank(blank) && ms.Valid()
    }

    function Print(): Text {
      match this
      case Literal(w) => w.Print()
      case Number(n) => n.Print()
      case String(cs) => [34] + PrintChars(cs) + [34]
      case Array(blank, es) => [91] + (if es.NoElement? then blank else es.Print()) + [93]
      case Object(blank, ms) => [123] + (if ms.NoMember? then blank else ms.Print()) + [125]
    }

    /** Number of containers on the deepest path. */
    function Depth(): nat {
      match this
      case Array(_, es) => 1 + es.Depth()
      case Object(_, ms) => 1 + ms.Depth()
      case _ => 0
    }

    /** `t` with everything this tree holds added. */
    function Count(t: Tally): Tally
      requires Valid()
    {
      match this
      case Literal(_) => t.Value()
      case Number(_) => t.Value()
      case String(cs) => t.Value().Units(|CharUnits(cs)|)
      case Array(_, es) => es.Count(t.Value().Container())
      case Object(_, ms) => ms.Count(t.Value().Container())
    }
  }

  datatype Elements = NoElement | Element(before: Text, value: Value, after: Text, next: Elements) {
    predicate Valid() {
      Element? ==> Blank(before) && value.Valid() && Blank(after) && next.Valid()
    }

    function Print(): Text {
      match this
      case NoElement => []
      case Element(before, v, after, next) =>
        before + (v.Print() + (after + (if next.NoElement? then [] else [44] + next.Print())))
    }

    function Depth(): nat {
      match this
      case NoElement => 0
      case Element(_, v, _, next) => Max(v.Depth(), next.Depth())
    }

    function Count(t: Tally): Tally
      requires Valid()
    {
      match this
      case NoElement => t
      case Element(_, v, _, next) => next.Count(v.Count(t.Entry()))
    }
  }

  datatype Members =
    | NoMember
    | Member(before: Text, key: seq<Letter>, gap: Text, lead: Text, value: Value, after: Text, next: Members)
  {
    predicate Valid() {
      Member? ==>
        && Blank(before) && ValidChars(key) && Blank(gap) && Blank(lead)
        && value.Valid() && Blank(after) && next.Valid()
    }

    function Print(): Text {
      match this
      case NoMember => []
      case Member(before, key, gap, lead, v, after, next) =>
        before + ([34] + (PrintChars(key) + ([34] + (gap + ([58] + (lead + (v.Print() + (after +
        (if next.NoMember? then [] else [44] + next.Print())))))))))
    }

    function Depth(): nat {
      match this
      case NoMember => 0
      case Member(_, _, _, _, v, _, next) => Max(v.Depth(), next.Depth())
    }

    function Count(t: Tally): Tally
      requires Valid()
    {
      match this
      case NoMember => t
      case Member(_, key, _, _, v, _, next) => next.Count(v.Count(t.Member().Units(|CharUnits(key)|)))
    }
  }

  /** A JSON text: a value with white space around it. */
  datatype Document = Document(before: Text, root: Value, after: Text) {
    predicate Valid() {
      Blank(before) && root.Valid() && Blank(after)
    }

    function Print(): Text {
      before + (root.Print() + after)
    }
  }

  function Max(a: nat, b: nat): nat {
    if a < b then b else a
  }

  /** What a tree holds: values, containers, object members, array entries and decoded string units. */
  datatype Tally = Tally(values: nat, containers: nat, members: nat, entries: nat, units: nat) {
    function Value(): Tally { this.(values := values + 1) }
    function Container(): Tally { this.(containers := containers + 1) }
    function Member(): Tally { this.(members := members + 1) }
    function Entry(): Tally { this.(entries := entries + 1) }
    function Units(n: nat): Tally { this.(units := units + n) }

    predicate AtMost(that: Tally) {
      && values <= that.values && containers <= that.containers && members <= that.members
      && entries <= that.entries && units <= that.units
    }
  }

  const NOTHING: Tally := Tally(0, 0, 0, 0, 0)

  // ----- Facts about every tree

  lemma Assoc(a: Text, b: Text, c: Text)
    ensures (a + b) + c == a + (b + c)
  {}

  /** The text of a member, cut where a parser cuts it. */
  lemma MemberText(ms: Members, end: Text)
    requires ms.Member?
    ensures var last := if ms.next.NoMember? then [] else [44] + ms.next.Print();
            ms.Print() + end ==
            ms.before + ([34] + (PrintChars(ms.key) + ([34] + (ms.gap + ([58] + (ms.lead + (ms.value.Print() + (ms.after + (last + end)))))))))
  {
    hide PrintChars;
    var last := if ms.next.NoMember? then [] else [44] + ms.next.Print();
    var s8 := ms.after + last;
    var s7 := ms.value.Print() + s8;
    var s6 := ms.lead + s7;
    var s5 := [58] + s6;
    var s4 := ms.gap + s5;
    var s3 := [34] + s4;
    var s2 := PrintChars(ms.key) + s3;
    Assoc(ms.after, last, end);
    Assoc(ms.value.Print(), s8, end);
    Assoc(ms.lead, s7, end);
    Assoc([58], s6, end);
    Assoc(ms.gap, s5, end);
    Assoc([34], s4, end);
    Assoc(PrintChars(ms.key), s3, end);
    Assoc([34], s2, end);
    Assoc(ms.before, [34] + s2, end);
  }

  lemma ElementText(es: Elements, end: Text)
    requires es.Element?
    ensures var last := if es.next.NoElement? then [] else [44] + es.next.Print();
            es.Print() + end == es.before + (es.value.Print() + (es.after + (last + end)))
  {
    var last := if es.next.NoElement? then [] else [44] + es.next.Print();
    Assoc(es.after, last, end);
    Assoc(es.value.Print(), es.after + last, end);
    Assoc(es.before, es.value.Print() + (es.after + last), end);
  }

  /** Counting only adds, and each value but the root is the value of one member or one entry. */
  lemma {:induction false} CountGrows(v: Value, t: Tally)
    requires v.Valid()
    ensures t.AtMost(v.Count(t))
    ensures v.Count(t).values - t.values ==
            1 + (v.Count(t).members - t.members) + (v.Count(t).entries - t.entries)
    decreases v
  {
    match v
    case Array(_, es) => ElementsGrow(es, t.Value().Container());
    case Object(_, ms) => MembersGrow(ms, t.Value().Container());
    case _ =>
  }

  lemma {:induction false} ElementsGrow(es: Elements, t: Tally)
    requires es.Valid()
    ensures t.AtMost(es.Count(t))
    ensures es.Count(t).values - t.values == (es.Count(t).members - t.members) + (es.Count(t).entries - t.entries)
    decreases es
  {
    if es.Element? {
      CountGrows(es.value, t.Entry());
      ElementsGrow(es.next, es.value.Count(t.Entry()));
    }
  }

  lemma {:induction false} MembersGrow(ms: Members, t: Tally)
    requires ms.Valid()
    ensures t.AtMost(ms.Count(t))
    ensures ms.Count(t).values - t.values == (ms.Count(t).members - t.members) + (ms.Count(t).entries - t.entries)
    decreases ms
  {
    if ms.Member? {
      var t' := t.Member().Units(|CharUnits(ms.key)|);
      CountGrows(ms.value, t');
      MembersGrow(ms.next, ms.value.Count(t'));
    }
  }
}
