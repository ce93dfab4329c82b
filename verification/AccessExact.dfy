/**
 Every text the Access validator accepts is in the RFC 8259 grammar, and the exact statement of what it accepts.
 */
module AccessExact {
  import opened Basics
  import opened JsonText
  import opened AccessJson
  import opened AccessTheory
  import opened AccessPaths

  // ----- Lexical parts

  lemma {:induction false} SpaceBehind(s: Text) returns (blank: Text)
    ensures s == blank + SkipSpace(s) && Blank(blank)
    decreases |s|
  {
    if s != [] && IsSpace(s[0]) {
      blank := SpaceBehind(s[1..]);
      blank := [s[0]] + blank;
    } else {
      blank := [];
    }
  }

  lemma LetterBehind(s: Text) returns (c: Letter)
    requires s != [] && s[0] != 34 && TakeLetter(s).Ok?
    ensures c.Valid() && s == c.Print() + TakeLetter(s).value.1
  {
    if s[0] != 92 {
      c := Raw(s[0]);
    } else if s[1] == 117 {
      c := Hex(s[2], s[3], s[4], s[5]);
    } else {
      c := Short(s[1]);
    }
  }

  lemma {:induction false} LettersBehind(l: StringRule, s: Text, us: Text, units: nat) returns (cs: seq<Letter>)
    requires Letters(l, s, us, units).Ok?
    ensures ValidChars(cs) && s == PrintChars(cs) + ([34] + Letters(l, s, us, units).value.0)
    decreases |s|
  {
    hide Padding, Base64Cap, TakeLetter;
    if s[0] == 34 {
      cs := [];
    } else {
      var c := LetterBehind(s);
      var taken := TakeLetter(s).value;
      var tail := LettersBehind(l, taken.1, us + [taken.0], units);
      cs := [c] + tail;
      assert cs[1..] == tail;
      Assoc(c.Print(), PrintChars(tail), [34] + Letters(l, s, us, units).value.0);
    }
  }

  lemma StringBehind(l: StringRule, s: Text, units: nat) returns (cs: seq<Letter>)
    requires StringAt(l, s, units).Ok?
    ensures ValidChars(cs) && s == [34] + (PrintChars(cs) + ([34] + StringAt(l, s, units).value.0))
  {
    hide Letters;
    cs := LettersBehind(l, s[1..], [], units);
  }

  lemma {:induction false} DigitsBehind(s: Text, used: nat) returns (ds: Text)
    requires SkipDigits(s, used).Ok?
    ensures Digits(ds) && s == ds + SkipDigits(s, used).value.0
    ensures s != [] && IsDigit(s[0]) ==> ds != [] && ds[0] == s[0]
    ensures ds == [] ==> SkipDigits(s, used).value.0 == s
    decreases |s|
  {
    if s == [] || !IsDigit(s[0]) {
      ds := [];
    } else {
      ds := DigitsBehind(s[1..], used + 1);
      ds := [s[0]] + ds;
    }
  }

  lemma NumberBehind(s: Text) returns (n: Numeral)
    requires NumberAt(s).Ok?
    ensures n.Valid() && s == n.Print() + NumberAt(s).value
  {
    hide SkipDigits, WholeAt, FractionAt, PowerAt;
    var sign := if s != [] && s[0] == 45 then 1 else 0;
    var s0 := s[sign..];
    var r1 := WholeAt(s0, sign).value;
    var r2 := FractionAt(r1.0, r1.1).value;
    var r3 := PowerAt(r2.0, r2.1).value;
    var whole := WholeBehind(s0, sign);
    var fraction := FractionBehind(r1.0, r1.1);
    var mark, power := PowerBehind(r2.0, r2.1);
    n := Numeral(sign == 1, whole, fraction, mark, power);
    var minus := if sign == 1 then [45] else [];
    var frac := if fraction == [] then [] else [46] + fraction;
    assert s == minus + s0;
    SixParts(minus, whole, frac, mark, power, r3.0);
  }

  lemma WholeBehind(s: Text, used: nat) returns (whole: Text)
    requires WholeAt(s, used).Ok?
    ensures ValidWhole(whole) && s == whole + WholeAt(s, used).value.0
  {
    hide SkipDigits;
    if s[0] == 48 {
      whole := [48];
    } else {
      whole := DigitsBehind(s, used);
    }
  }

  lemma FractionBehind(s: Text, used: nat) returns (fraction: Text)
    requires FractionAt(s, used).Ok?
    ensures Digits(fraction) && s == (if fraction == [] then [] else [46] + fraction) + FractionAt(s, used).value.0
  {
    hide SkipDigits;
    if s == [] || s[0] != 46 {
      fraction := [];
      assert [] + s == s;
    } else {
      fraction := DigitsBehind(s[1..], used + 1);
      assert s == [46] + s[1..];
      Assoc([46], fraction, FractionAt(s, used).value.0);
    }
  }

  lemma PowerBehind(s: Text, used: nat) returns (mark: Text, power: Text)
    requires PowerAt(s, used).Ok?
    ensures (mark == [] ==> power == []) && (mark != [] ==> ValidMark(mark) && power != [] && Digits(power))
    ensures s == mark + power + PowerAt(s, used).value.0
  {
    hide SkipDigits;
    if s == [] || (s[0] != 101 && s[0] != 69) {
      mark, power := [], [];
      assert [] + [] + s == s;
    } else {
      var n := if |s| > 1 && (s[1] == 43 || s[1] == 45) then 2 else 1;
      var rest := PowerAt(s, used).value.0;
      mark := s[..n];
      power := DigitsBehind(s[n..], used + n);
      assert s == mark + s[n..];
      Assoc(mark, power, rest);
    }
  }

  lemma WordBehind(s: Text) returns (w: Word)
    requires s != [] && WordAt(s).Ok?
    ensures s == w.Print() + WordAt(s).value
  {
    w := if s[0] == 116 then True else if s[0] == 102 then False else Null;
  }

  // ----- Values

  lemma {:induction false} ValueBehind(pr: Profile, s0: Text, st: St, pl: Place) returns (blank: Text, v: Value)
    requires ValueAt(pr, s0, st, pl).Ok?
    ensures Blank(blank) && v.Valid() && s0 == blank + (v.Print() + ValueAt(pr, s0, st, pl).value.0)
    decreases |s0|, 2
  {
    hide ValueAt, BodyAt, SkipSpace, LimitsOf, Utf8Length;
    ValueStep(pr, s0, st, pl);
    blank := SpaceBehind(s0);
    v := BodyBehind(pr, SkipSpace(s0), st.(count := st.count.Value()), pl);
  }

  lemma {:induction false} BodyBehind(pr: Profile, s: Text, st: St, pl: Place) returns (v: Value)
    requires BodyAt(pr, s, st, pl).Ok?
    ensures v.Valid() && s == v.Print() + BodyAt(pr, s, st, pl).value.0
    decreases |s|, 1
  {
    hide BodyAt;
    var rest := BodyAt(pr, s, st, pl).value.0;
    if s != [] && (s[0] == 123 || s[0] == 91) {
      v := ContainerBehind(pr, s, st, pl);
    } else {
      v := LeafBehind(pr, s, st, pl);
    }
  }

  lemma LeafBehind(pr: Profile, s: Text, st: St, pl: Place) returns (v: Value)
    requires BodyAt(pr, s, st, pl).Ok? && !(s != [] && (s[0] == 123 || s[0] == 91))
    ensures v.Valid() && s == v.Print() + BodyAt(pr, s, st, pl).value.0
  {
    hide StringAt, WordAt, NumberAt;
    if s != [] && s[0] == 34 {
      var cs := StringBehind(ValueRule(pr, pl), s, st.count.units);
      v := String(cs);
      var rest := StringAt(ValueRule(pr, pl), s, st.count.units).value.0;
      assert s == ([34] + PrintChars(cs) + [34]) + rest;
    } else if s != [] && (s[0] == 116 || s[0] == 102 || s[0] == 110) {
      var w := WordBehind(s);
      v := Literal(w);
    } else {
      var n := NumberBehind(s);
      v := Number(n);
    }
  }

  lemma {:induction false} ContainerBehind(pr: Profile, s: Text, st: St, pl: Place) returns (v: Value)
    requires BodyAt(pr, s, st, pl).Ok? && s != [] && (s[0] == 123 || s[0] == 91)
    ensures v.Valid() && s == v.Print() + BodyAt(pr, s, st, pl).value.0
    decreases |s|, 0
  {
    hide BodyAt, MembersAt, ElementsAt, SkipSpace, LimitsOf;
    OpenStep(pr, s, st, pl);
    SkipFirst(pr, s[1..], Opened(st), pl);
    var rest := BodyAt(pr, s, st, pl).value.0;
    var s1 := SkipSpace(s[1..]);
    var open, close := s[0], s[0] + 2;
    if s1 != [] && s1[0] == close {
      var blank := SpaceBehind(s[1..]);
      v := WrapEmpty(s, blank, rest);
    } else if open == 123 {
      var ms := MembersBehind(pr, s[1..], Opened(st), pl);
      v := WrapMembers(s, ms, rest);
    } else {
      var es := ElementsBehind(pr, s[1..], Opened(st), pl);
      v := WrapElements(s, es, rest);
    }
  }

  lemma WrapEmpty(s: Text, blank: Text, rest: Text) returns (v: Value)
    requires s != [] && (s[0] == 123 || s[0] == 91) && Blank(blank) && s[1..] == blank + ([s[0] + 2] + rest)
    ensures v.Valid() && s == v.Print() + rest
  {
    v := if s[0] == 123 then Object(blank, NoMember) else Array(blank, NoElement);
    assert s == [s[0]] + blank + [s[0] + 2] + rest;
  }

  lemma WrapMembers(s: Text, ms: Members, rest: Text) returns (v: Value)
    requires s != [] && s[0] == 123 && ms.Member? && ms.Valid() && s[1..] == ms.Print() + ([125] + rest)
    ensures v.Valid() && s == v.Print() + rest
  {
    v := Object([], ms);
    assert s == [123] + ms.Print() + [125] + rest;
  }

  lemma WrapElements(s: Text, es: Elements, rest: Text) returns (v: Value)
    requires s != [] && s[0] == 91 && es.Element? && es.Valid() && s[1..] == es.Print() + ([93] + rest)
    ensures v.Valid() && s == v.Print() + rest
  {
    v := Array([], es);
    assert s == [91] + es.Print() + [93] + rest;
  }

  lemma {:induction false} ElementsBehind(pr: Profile, s: Text, st: St, pl: Place) returns (es: Elements)
    requires ElementsAt(pr, s, st, pl).Ok?
    ensures es.Element? && es.Valid() && s == es.Print() + ([93] + ElementsAt(pr, s, st, pl).value.0)
    decreases |s|, 3
  {
    hide ElementsAt, ValueAt, SkipSpace, LimitsOf, CountEntry, EntryPlace, IsPolicy;
    ElementsStep(pr, s, st, pl);
    var rest := ElementsAt(pr, s, st, pl).value.0;
    var st0 := St(st.count.Entry(), CountEntry(pr, pl, st.extra));
    var read := ValueAt(pr, s, st0, EntryPlace(pr, pl)).value;
    var before, v := ValueBehind(pr, s, st0, EntryPlace(pr, pl));
    var after := SpaceBehind(read.0);
    var s2 := SkipSpace(read.0);
    if s2[0] == 93 {
      es := Element(before, v, after, NoElement);
      assert s2 == [] + ([93] + rest);
    } else {
      var next := ElementsBehind(pr, s2[1..], read.1, pl);
      es := Element(before, v, after, next);
      assert s2 == [44] + (next.Print() + ([93] + rest));
      Assoc([44], next.Print(), [93] + rest);
    }
    ElementText(es, [93] + rest);
  }

  lemma {:induction false} MembersBehind(pr: Profile, s: Text, st: St, pl: Place) returns (ms: Members)
    requires MembersAt(pr, s, st, pl).Ok?
    ensures ms.Member? && ms.Valid() && s == ms.Print() + ([125] + MembersAt(pr, s, st, pl).value.0)
    decreases |s|, 3
  {
    hide MembersAt, MemberValueAt, SkipSpace, LimitsOf, StringAt, KeyRule, MemberPlace, IsPolicy, PrintChars;
    MembersStep(pr, s, st, pl);
    var rest := MembersAt(pr, s, st, pl).value.0;
    var t := st.count.Member();
    var before := SpaceBehind(s);
    var key := StringBehind(KeyRule(pr), SkipSpace(s), t.units);
    var k := StringAt(KeyRule(pr), SkipSpace(s), t.units).value;
    var gap := SpaceBehind(k.0);
    var s2 := SkipSpace(k.0);
    assert s2 == [58] + s2[1..];
    var lead, v, after, next := MemberValueBehind(pr, s2[1..], st.(count := t.Units(|k.1|)), MemberPlace(pl, k.1), pl);
    ms := Member(before, key, gap, lead, v, after, next);
    MemberText(ms, [125] + rest);
  }

  lemma {:induction false} MemberValueBehind(pr: Profile, s: Text, st: St, place: Place, pl: Place)
    returns (lead: Text, v: Value, after: Text, next: Members)
    requires MemberValueAt(pr, s, st, place, pl).Ok?
    ensures Blank(lead) && v.Valid() && Blank(after) && next.Valid()
    ensures s == lead + (v.Print() + (after + ((if next.NoMember? then [] else [44] + next.Print()) +
                 ([125] + MemberValueAt(pr, s, st, place, pl).value.0))))
    decreases |s|, 3
  {
    hide MemberValueAt, ValueAt, MembersAt, SkipSpace;
    MemberValueStep(pr, s, st, place, pl);
    var read := ValueAt(pr, s, st, place).value;
    var rest := MemberValueAt(pr, s, st, place, pl).value.0;
    lead, v := ValueBehind(pr, s, st, place);
    after := SpaceBehind(read.0);
    var s2 := SkipSpace(read.0);
    if s2[0] == 125 {
      next := NoMember;
      assert s2 == [] + ([125] + rest);
    } else {
      next := MembersBehind(pr, s2[1..], read.1, pl);
      assert s2 == [44] + (next.Print() + ([125] + rest));
      Assoc([44], next.Print(), [125] + rest);
    }
  }

  // ----- The theorem

  /** The budget a batch starts from or hands on. */
  function Budget(source: Option<Tally>): Tally {
    if source.Some? then source.value else NOTHING
  }

  predicate SizeOk(text: Text, pr: Profile) {
    && (pr.Evidence? ==> |text| <= 65536) && |text| <= LimitsOf(pr).wire
    && (!IsUser(pr) ==> Utf8Length(text) <= LimitsOf(pr).wire)
  }

  /** `text` is a JSON text whose tree is within everything the profile bounds, and `t` its counts on top of the budget. */
  predicate Admissible(text: Text, pr: Profile, source: Option<Tally>, d: Document, t: Tally) {
    && (source.Some? ==> pr in {UserRecord, AssignmentSource, PolicyCollection, PolicyBindingRecord}) && SizeMeets(pr, text)
    && d.Valid() && text == d.Print() && t == d.root.Count(Budget(source)) && Meets(pr, Budget(source), d.root)
  }

  lemma EmptyWithin(pr: Profile)
    ensures Within(pr, NOTHING) && NO_EXTRA.Ok()
  {}

  /** A text in the grammar is accepted or over a limit, never called malformed. */
  lemma TextVerdict(text: Text, pr: Profile, source: Option<Tally>, d: Document)
    requires Narrow(text) && d.Valid() && text == d.Print()
    requires (source.Some? ==> TakesSource(pr) && Within(pr, source.value))
    ensures Validate(text, pr, source) ==
            if SizeMeets(pr, text) && Meets(pr, Budget(source), d.root) then Ok(d.root.Count(Budget(source))) else Limit
  {
    hide Validate, ValueAt, Fits, SkipSpace, Narrow, Within, Verdict, Meets, SizeMeets, LimitsOf, IsUser, Utf8Length;
    NumbersMean(pr, Budget(source), text);
    FitsMeans(pr, Budget(source), d.root);
    var st := St(Budget(source), NO_EXTRA);
    ValidateStep(text, pr, source);
    EmptyWithin(pr);
    RootReaches(pr, st);
    NarrowParts(d.before, d.root.Print() + d.after);
    NarrowParts(d.root.Print(), d.after);
    ValueForward(pr, d.root, d.before, d.after, st, RootPlace(pr));
    VerdictIs(pr, st, RootPlace(pr), d.root, d.after);
    assert d.after + [] == d.after;
    SkipBlank(d.after, []);
  }

  lemma RootReaches(pr: Profile, st: St)
    requires Within(pr, st.count) && st.extra.Ok()
    ensures Reaches(pr, st, RootPlace(pr))
  {
    hide LimitsOf;
  }

  lemma VerdictIs(pr: Profile, st: St, pl: Place, v: Value, rest: Text)
    requires v.Valid()
    ensures Verdict(pr, st, pl, v, rest) ==
            if Fits(pr, st, pl, v) then Ok((rest, St(v.Count(st.count), Special(pr, pl, v, st.extra)))) else Limit
  {
    hide Fits, Special;
  }

  lemma ValidateStep(text: Text, pr: Profile, source: Option<Tally>)
    ensures Validate(text, pr, source) ==
            if source.Some? && !TakesSource(pr) then Invalid
            else if !SizeOk(text, pr) then Limit
            else
              var read :- ValueAt(pr, text, St(Budget(source), NO_EXTRA), RootPlace(pr));
              if SkipSpace(read.0) != [] then Invalid else Ok(read.1.count)
  {
    hide ValueAt, Utf8Length, SkipSpace, LimitsOf, RootPlace, IsUser;
  }

  lemma DocumentBehind(text: Text, pr: Profile, source: Option<Tally>) returns (d: Document)
    requires Validate(text, pr, source).Ok?
    ensures d.Valid() && text == d.Print()
  {
    hide ValueAt, Utf8Length, LimitsOf, SkipSpace;
    var st := St(Budget(source), NO_EXTRA);
    var before, v := ValueBehind(pr, text, st, RootPlace(pr));
    var rest := ValueAt(pr, text, st, RootPlace(pr)).value.0;
    var after := SpaceBehind(rest);
    assert after + [] == after;
    d := Document(before, v, after);
  }

  /** Exactness: the final `JSON.parse` meets only grammatical texts, and the counts are those of the tree. */
  lemma Exact(text: Text, pr: Profile, source: Option<Tally>, t: Tally)
    requires Narrow(text) && (source.Some? ==> Within(pr, source.value))
    ensures Validate(text, pr, source) == Ok(t) <==> exists d :: Admissible(text, pr, source, d, t)
  {
    hide Validate, Meets, SizeMeets, Narrow, Within;
    if Validate(text, pr, source) == Ok(t) {
      var d := DocumentBehind(text, pr, source);
      SourceTaken(text, pr, source);
      TextVerdict(text, pr, source, d);
      assert Admissible(text, pr, source, d, t);
    } else if exists d :: Admissible(text, pr, source, d, t) {
      var d :| Admissible(text, pr, source, d, t);
      TextVerdict(text, pr, source, d);
    }
  }

  lemma SourceTaken(text: Text, pr: Profile, source: Option<Tally>)
    requires Validate(text, pr, source).Ok?
    ensures source.Some? ==> TakesSource(pr)
  {
    hide ValueAt, Utf8Length, SkipSpace, LimitsOf;
  }

  // ----- Batches that share one budget

  /** Texts validated in order, each on the counts the previous one handed back. */
  function Batch(texts: seq<Text>, pr: Profile, budget: Tally): Result<Tally>
    decreases |texts|
  {
    if texts == [] then Ok(budget)
    else
      var t :- Validate(texts[0], pr, Some(budget));
      Batch(texts[1..], pr, t)
  }

  function CountAll(ds: seq<Document>, t: Tally): Tally
    requires forall i :: 0 <= i < |ds| ==> ds[i].Valid()
    decreases |ds|
  {
    if ds == [] then t
    else
      var d := ds[0];
      assert d.Valid();
      CountAll(ds[1..], d.root.Count(t))
  }

  /** The counters of an accepted batch are those of all its trees together, and within the limits of one. */
  lemma {:induction false} BatchCounts(texts: seq<Text>, pr: Profile, budget: Tally) returns (ds: seq<Document>)
    requires forall i :: 0 <= i < |texts| ==> Narrow(texts[i])
    requires Within(pr, budget) && Batch(texts, pr, budget).Ok?
    ensures |ds| == |texts| && forall i :: 0 <= i < |ds| ==> ds[i].Valid() && texts[i] == ds[i].Print()
    ensures Batch(texts, pr, budget) == Ok(CountAll(ds, budget)) && Within(pr, CountAll(ds, budget))
    decreases |texts|
  {
    hide Validate, Within, Narrow;
    if texts == [] {
      ds := [];
    } else {
      var d := DocumentBehind(texts[0], pr, Some(budget));
      SourceTaken(texts[0], pr, Some(budget));
      TextVerdict(texts[0], pr, Some(budget), d);
      var t := d.root.Count(budget);
      NumbersMean(pr, t, texts[0]);
      assert Within(pr, t);
      var more := BatchCounts(texts[1..], pr, t);
      ds := [d] + more;
      assert ds[1..] == more;
    }
  }
}
