/**
 What the Access validator accepts and counts.

 `ValueForward` says what it does on the text of any tree, `ValueBackward` that every text it accepts is the text
 of a tree, and `Exact` puts the two together.
 */
module AccessTheory {
  import opened JsonText
  import opened AccessJson

  // ----- The profile's limits, read off the tree

  /** A string's own limits; the profile's unit limit is part of the tally. */
  predicate StringOk(l: StringRule, us: Text) {
    && |us| <= l.maximum
    && (l.binary.Some? ==> |us| <= Base64Cap(l.binary.value) && (|us| - Padding(us)) * 3 / 4 <= l.binary.value)
  }

  predicate Local(pr: Profile, pl: Place, v: Value)
    requires v.Valid()
    decreases v
  {
    && (pl.jwkRow ==> Utf8Length(v.Print()) <= 8192)
    && match v
       case Literal(_) => true
       case Number(n) => |n.Print()| <= 64
       case String(cs) => StringOk(ValueRule(pr, pl), CharUnits(cs))
       case Array(_, es) => LocalElements(pr, pl, es)
       case Object(_, ms) => LocalMembers(pr, pl, ms)
  }

  predicate LocalElements(pr: Profile, pl: Place, es: Elements)
    requires es.Valid()
    decreases es
  {
    es.Element? ==> Local(pr, EntryPlace(pr, pl), es.value) && LocalElements(pr, pl, es.next)
  }

  predicate LocalMembers(pr: Profile, pl: Place, ms: Members)
    requires ms.Valid()
    decreases ms
  {
    ms.Member? ==>
      && |CharUnits(ms.key)| <= KeyRule(pr).maximum
      && Local(pr, MemberPlace(pl, CharUnits(ms.key)), ms.value)
      && LocalMembers(pr, pl, ms.next)
  }

  function Special(pr: Profile, pl: Place, v: Value, e: Extra): Extra
    requires v.Valid()
    decreases v
  {
    match v
    case Array(_, es) => SpecialElements(pr, pl, es, e)
    case Object(_, ms) => SpecialMembers(pr, pl, ms, e)
    case _ => e
  }

  function SpecialElements(pr: Profile, pl: Place, es: Elements, e: Extra): Extra
    requires es.Valid()
    decreases es
  {
    if es.NoElement? then e
    else SpecialElements(pr, pl, es.next, Special(pr, EntryPlace(pr, pl), es.value, CountEntry(pr, pl, e)))
  }

  function SpecialMembers(pr: Profile, pl: Place, ms: Members, e: Extra): Extra
    requires ms.Valid()
    decreases ms
  {
    if ms.NoMember? then e
    else SpecialMembers(pr, pl, ms.next, Special(pr, MemberPlace(pl, CharUnits(ms.key)), ms.value, e))
  }

  lemma {:induction false} SpecialGrows(pr: Profile, pl: Place, v: Value, e: Extra)
    requires v.Valid()
    ensures e.AtMost(Special(pr, pl, v, e))
    decreases v
  {
    match v
    case Array(_, es) => SpecialElementsGrow(pr, pl, es, e);
    case Object(_, ms) => SpecialMembersGrow(pr, pl, ms, e);
    case _ =>
  }

  lemma {:induction false} SpecialElementsGrow(pr: Profile, pl: Place, es: Elements, e: Extra)
    requires es.Valid()
    ensures e.AtMost(SpecialElements(pr, pl, es, e))
    decreases es
  {
    if es.Element? {
      var e1 := CountEntry(pr, pl, e);
      SpecialGrows(pr, EntryPlace(pr, pl), es.value, e1);
      SpecialElementsGrow(pr, pl, es.next, Special(pr, EntryPlace(pr, pl), es.value, e1));
    }
  }

  lemma {:induction false} SpecialMembersGrow(pr: Profile, pl: Place, ms: Members, e: Extra)
    requires ms.Valid()
    ensures e.AtMost(SpecialMembers(pr, pl, ms, e))
    decreases ms
  {
    if ms.Member? {
      var place := MemberPlace(pl, CharUnits(ms.key));
      SpecialGrows(pr, place, ms.value, e);
      SpecialMembersGrow(pr, pl, ms.next, Special(pr, place, ms.value, e));
    }
  }

  predicate Room(pr: Profile, st: St) {
    Within(pr, st.count) && st.extra.Ok()
  }

  /** Within the limits: the tally, the depth, the local limits and the counters of particular arrays. */
  predicate Fits(pr: Profile, st: St, pl: Place, v: Value)
    requires v.Valid()
  {
    && Room(pr, After(pr, st, pl, v))
    && pl.depth + v.Depth() <= LimitsOf(pr).depth
    && Local(pr, pl, v)
  }

  function After(pr: Profile, st: St, pl: Place, v: Value): St
    requires v.Valid()
  {
    St(v.Count(st.count), Special(pr, pl, v, st.extra))
  }

  function Verdict(pr: Profile, st: St, pl: Place, v: Value, rest: Text): Result<(Text, St)>
    requires v.Valid()
  {
    if Fits(pr, st, pl, v) then Ok((rest, After(pr, st, pl, v))) else Limit
  }

  // ----- Lexical parts, forward

  lemma {:induction false} SkipBlank(blank: Text, rest: Text)
    requires Blank(blank) && (rest != [] ==> !IsSpace(rest[0]))
    ensures SkipSpace(blank + rest) == rest
    decreases |blank|
  {
    if blank == [] {
      assert blank + rest == rest;
    } else {
      assert (blank + rest)[1..] == blank[1..] + rest;
      SkipBlank(blank[1..], rest);
    }
  }

  lemma LetterForward(c: Letter, rest: Text)
    requires c.Valid() && Narrow(c.Print())
    ensures c.Print() + rest != [] && (c.Print() + rest)[0] != 34
    ensures |c.Units()| == 1 && TakeLetter(c.Print() + rest) == Ok((c.Units()[0], rest))
  {
    var s := c.Print() + rest;
    match c
    case Raw(code) =>
      assert c.Print()[0] == code;
      assert s[1..] == rest;
    case Short(m) => assert s[2..] == rest;
    case Hex(a, b, d, e) => assert s[6..] == rest;
  }

  /** What already passed the running checks of `Letters`. */
  predicate Begun(l: StringRule, us: Text, units: nat) {
    |us| <= l.maximum && units + |us| <= l.unitLimit && (l.binary.Some? ==> |us| <= Base64Cap(l.binary.value))
  }

  lemma {:induction false} LettersForward(l: StringRule, cs: seq<Letter>, rest: Text, done: Text, units: nat)
    requires ValidChars(cs) && Narrow(PrintChars(cs)) && Begun(l, done, units)
    ensures var us := done + CharUnits(cs);
            Letters(l, PrintChars(cs) + ([34] + rest), done, units) ==
            if StringFits(l, us, units) then Ok((rest, us)) else Limit
    decreases |cs|
  {
    hide Padding, Base64Cap, TakeLetter;
    if cs == [] {
      assert PrintChars(cs) + ([34] + rest) == [34] + rest;
      assert done + CharUnits(cs) == done;
      assert ([34] + rest)[1..] == rest;
    } else {
      var c, tail := cs[0], cs[1..];
      var after := PrintChars(tail) + ([34] + rest);
      assert PrintChars(cs) + ([34] + rest) == c.Print() + after;
      NarrowParts(c.Print(), PrintChars(tail));
      LetterForward(c, after);
      var us := done + c.Units();
      assert c.Units() == [c.Units()[0]];
      assert done + CharUnits(cs) == us + CharUnits(tail);
      if Begun(l, us, units) {
        LettersForward(l, tail, rest, us, units);
      }
    }
  }

  lemma NarrowParts(a: Text, b: Text)
    requires Narrow(a + b)
    ensures Narrow(a) && Narrow(b)
  {
    forall i | 0 <= i < |a| ensures a[i] <= 0xffff { assert (a + b)[i] == a[i]; }
    forall i | 0 <= i < |b| ensures b[i] <= 0xffff { assert (a + b)[|a| + i] == b[i]; }
  }

  predicate NumberEnds(rest: Text) {
    rest != [] ==> IsSpace(rest[0]) || rest[0] == 44 || rest[0] == 93 || rest[0] == 125
  }

  lemma {:induction false} DigitsForward(ds: Text, rest: Text, used: nat)
    requires Digits(ds) && (rest != [] ==> !IsDigit(rest[0]))
    ensures SkipDigits(ds + rest, used) == if ds == [] || used + |ds| <= 64 then Ok((rest, used + |ds|)) else Limit
    decreases |ds|
  {
    if ds == [] {
      assert ds + rest == rest;
    } else {
      assert (ds + rest)[1..] == ds[1..] + rest;
      DigitsForward(ds[1..], rest, used + 1);
    }
  }

  lemma WholeForward(whole: Text, rest: Text, used: nat)
    requires ValidWhole(whole) && (rest != [] ==> !IsDigit(rest[0])) && used <= 1
    ensures WholeAt(whole + rest, used) == if used + |whole| <= 64 then Ok((rest, used + |whole|)) else Limit
  {
    if whole == [48] {
      assert (whole + rest)[1..] == rest;
    } else {
      DigitsForward(whole, rest, used);
    }
  }

  lemma FractionForward(fraction: Text, rest: Text, used: nat)
    requires Digits(fraction) && (rest != [] ==> !IsDigit(rest[0]) && rest[0] != 46)
    ensures FractionAt((if fraction == [] then [] else [46] + fraction) + rest, used) ==
            if fraction == [] || used + 1 + |fraction| <= 64
            then Ok((rest, used + (if fraction == [] then 0 else 1 + |fraction|))) else Limit
  {
    if fraction == [] {
      assert [] + rest == rest;
    } else {
      var s := ([46] + fraction) + rest;
      assert s[1..] == fraction + rest;
      DigitsForward(fraction, rest, used + 1);
    }
  }

  lemma PowerForward(mark: Text, power: Text, rest: Text, used: nat)
    requires mark == [] ==> power == []
    requires mark != [] ==> ValidMark(mark) && power != [] && Digits(power)
    requires NumberEnds(rest)
    ensures PowerAt(mark + power + rest, used) ==
            if mark == [] || used + |mark| + |power| <= 64 then Ok((rest, used + |mark| + |power|)) else Limit
  {
    var s := mark + power + rest;
    if mark == [] {
      assert s == rest;
    } else {
      assert s[|mark|..] == power + rest;
      assert |mark| == 1 ==> s[1] == power[0];
      DigitsForward(power, rest, used + |mark|);
    }
  }

  lemma NumberForward(n: Numeral, rest: Text)
    requires n.Valid() && NumberEnds(rest)
    ensures NumberAt(n.Print() + rest) == if |n.Print()| <= 64 then Ok(rest) else Limit
  {
    hide SkipDigits, WholeAt, FractionAt, PowerAt;
    var sign := if n.minus then 1 else 0;
    var frac := if n.fraction == [] then [] else [46] + n.fraction;
    var s2 := n.mark + n.power + rest;
    NumeralParts(n, rest);
    WholeForward(n.whole, frac + s2, sign);
    FractionForward(n.fraction, s2, sign + |n.whole|);
    PowerForward(n.mark, n.power, rest, sign + |n.whole| + |frac|);
  }

  lemma NumeralParts(n: Numeral, rest: Text)
    requires n.Valid() && NumberEnds(rest)
    ensures var sign := if n.minus then 1 else 0;
            var frac := if n.fraction == [] then [] else [46] + n.fraction;
            var s2 := n.mark + n.power + rest;
            var s := n.Print() + rest;
            && s != [] && (s[0] == 45 <==> n.minus) && s[sign..] == n.whole + (frac + s2)
            && |n.Print()| == sign + |n.whole| + |frac| + |n.mark| + |n.power|
            && (s2 != [] ==> !IsDigit(s2[0]) && s2[0] != 46)
            && (frac + s2 != [] ==> !IsDigit((frac + s2)[0]))
  {
    var sign := if n.minus then [45] else [];
    var frac := if n.fraction == [] then [] else [46] + n.fraction;
    SixParts(sign, n.whole, frac, n.mark, n.power, rest);
    assert n.Print() == sign + n.whole + (frac + (n.mark + n.power));
    var s2 := n.mark + n.power + rest;
    if n.mark != [] { assert s2[0] == n.mark[0]; } else { assert s2 == rest; }
  }

  lemma SixParts(a: Text, b: Text, c: Text, d: Text, e: Text, f: Text)
    ensures (a + b + (c + (d + e))) + f == a + (b + (c + (d + e + f)))
  {
    assert (a + b + (c + (d + e))) + f == a + (b + ((c + (d + e)) + f));
    assert (c + (d + e)) + f == c + (d + e + f);
  }

  lemma WordForward(w: Word, rest: Text)
    ensures WordAt(w.Print() + rest) == Ok(rest)
  {
    var s := w.Print() + rest;
    assert s[0] == w.Print()[0];
    assert w.Print() <= s && s[|w.Print()|..] == rest;
  }

  // ----- Values, forward

  predicate Reaches(pr: Profile, st: St, pl: Place) {
    Room(pr, st) && pl.depth <= LimitsOf(pr).depth
  }

  lemma {:induction false} ValueForward(pr: Profile, v: Value, blank: Text, rest: Text, st: St, pl: Place)
    requires v.Valid() && Blank(blank) && Narrow(v.Print()) && (v.Number? ==> NumberEnds(rest)) && Reaches(pr, st, pl)
    ensures ValueAt(pr, blank + (v.Print() + rest), st, pl) == Verdict(pr, st, pl, v, rest)
    decreases v, 1
  {
    hide BodyAt, Local, Special, LimitsOf, SkipSpace;
    var s := v.Print() + rest;
    FirstChar(v, rest);
    SkipBlank(blank, s);
    ValueStep(pr, blank + s, st, pl);
    assert s[..|s| - |rest|] == v.Print();
    CountGrows(v, st.count);
    var st1 := st.(count := st.count.Value());
    if st1.count.values <= LimitsOf(pr).values {
      BodyForward(pr, v, rest, st1, pl);
      BodyVerdict(pr, st, pl, v, rest);
    } else {
      TooMany(pr, st, pl, v);
    }
  }

  lemma ValueStep(pr: Profile, s0: Text, st: St, pl: Place)
    ensures ValueAt(pr, s0, st, pl) ==
            var s := SkipSpace(s0);
            var t := st.count.Value();
            if t.values > LimitsOf(pr).values then Limit
            else
              var r := BodyAt(pr, s, st.(count := t), pl);
              if r.Ok? && pl.jwkRow && Utf8Length(s[..|s| - |r.value.0|]) > 8192 then Limit else r
  {
    hide BodyAt, SkipSpace, LimitsOf, Utf8Length;
  }

  lemma TooMany(pr: Profile, st: St, pl: Place, v: Value)
    requires v.Valid() && st.count.Value().values > LimitsOf(pr).values
    ensures !Fits(pr, st, pl, v)
  {
    hide Local, Special;
    CountGrows(v, st.count);
  }

  lemma FirstChar(v: Value, rest: Text)
    requires v.Valid()
    ensures v.Print() + rest != [] && !IsSpace((v.Print() + rest)[0]) && v.Print() != [] && (v.Print() + rest)[0] == v.Print()[0]
    ensures v.Object? ==> v.Print()[0] == 123
    ensures v.Array? ==> v.Print()[0] == 91
    ensures v.String? ==> v.Print()[0] == 34
    ensures v.Literal? ==> v.Print()[0] in {116, 102, 110}
    ensures v.Number? ==> v.Print()[0] == 45 || IsDigit(v.Print()[0])
  {
    if v.Number? {
      var n := v.numeral;
      assert n.Print()[0] == if n.minus then 45 else n.whole[0];
    }
  }

  /** The tree once its own value has been counted. */
  predicate BodyFits(pr: Profile, st1: St, pl: Place, v: Value)
    requires v.Valid()
  {
    && Room(pr, BodyAfter(pr, st1, pl, v))
    && pl.depth + v.Depth() <= LimitsOf(pr).depth
    && match v
       case Literal(_) => true
       case Number(n) => |n.Print()| <= 64
       case String(cs) => StringOk(ValueRule(pr, pl), CharUnits(cs))
       case Array(_, es) => LocalElements(pr, pl, es)
       case Object(_, ms) => LocalMembers(pr, pl, ms)
  }

  function BodyAfter(pr: Profile, st1: St, pl: Place, v: Value): St
    requires v.Valid()
  {
    match v
    case Literal(_) => st1
    case Number(_) => st1
    case String(cs) => st1.(count := st1.count.Units(|CharUnits(cs)|))
    case Array(_, es) => St(es.Count(st1.count.Container()), SpecialElements(pr, pl, es, st1.extra))
    case Object(_, ms) => St(ms.Count(st1.count.Container()), SpecialMembers(pr, pl, ms, st1.extra))
  }

  lemma BodyVerdict(pr: Profile, st: St, pl: Place, v: Value, rest: Text)
    requires v.Valid()
    ensures var st1 := st.(count := st.count.Value());
            && After(pr, st, pl, v) == BodyAfter(pr, st1, pl, v)
            && Fits(pr, st, pl, v) == (BodyFits(pr, st1, pl, v) && (pl.jwkRow ==> Utf8Length(v.Print()) <= 8192))
  {
    hide Utf8Length, LimitsOf, SpecialElements, SpecialMembers, LocalElements, LocalMembers, StringOk, Within;
  }

  lemma {:induction false} BodyForward(pr: Profile, v: Value, rest: Text, st1: St, pl: Place)
    requires v.Valid() && Narrow(v.Print()) && (v.Number? ==> NumberEnds(rest)) && Reaches(pr, st1, pl)
    ensures BodyAt(pr, v.Print() + rest, st1, pl) ==
            if BodyFits(pr, st1, pl, v) then Ok((rest, BodyAfter(pr, st1, pl, v))) else Limit
    decreases v, 0
  {
    FirstChar(v, rest);
    match v
    case Literal(w) =>
      WordBody(pr, w, rest, st1, pl);
    case Number(n) =>
      NumberBody(pr, n, rest, st1, pl);
    case String(cs) =>
      StringBody(pr, cs, rest, st1, pl);
    case Array(blank, es) =>
      var inner := if es.NoElement? then blank else es.Print();
      assert v.Print() + rest == [91] + (inner + ([93] + rest));
      NarrowParts([91] + inner, [93]);
      NarrowParts([91], inner);
      if es.Element? && Reaches(pr, Opened(st1), Deeper(pl)) {
        ElementsForward(pr, es, rest, Opened(st1), pl);
      }
      ContainerBody(pr, v, inner, rest, st1, pl);
    case Object(blank, ms) =>
      var inner := if ms.NoMember? then blank else ms.Print();
      assert v.Print() + rest == [123] + (inner + ([125] + rest));
      NarrowParts([123] + inner, [125]);
      NarrowParts([123], inner);
      if ms.Member? && Reaches(pr, Opened(st1), Deeper(pl)) {
        MembersForward(pr, ms, rest, Opened(st1), pl);
      }
      ContainerBody(pr, v, inner, rest, st1, pl);
  }

  function Deeper(pl: Place): Place {
    pl.(depth := pl.depth + 1)
  }

  function Opened(st: St): St {
    st.(count := st.count.Container())
  }

  lemma WordBody(pr: Profile, w: Word, rest: Text, st1: St, pl: Place)
    requires Reaches(pr, st1, pl)
    ensures BodyAt(pr, Literal(w).Print() + rest, st1, pl) == Ok((rest, st1))
    ensures BodyFits(pr, st1, pl, Literal(w))
  {
    hide WordAt, LimitsOf;
    FirstChar(Literal(w), rest);
    WordForward(w, rest);
  }

  lemma NumberBody(pr: Profile, n: Numeral, rest: Text, st1: St, pl: Place)
    requires n.Valid() && NumberEnds(rest) && Reaches(pr, st1, pl)
    ensures BodyAt(pr, Number(n).Print() + rest, st1, pl) == if |n.Print()| <= 64 then Ok((rest, st1)) else Limit
    ensures BodyFits(pr, st1, pl, Number(n)) == (|n.Print()| <= 64)
  {
    hide NumberAt, LimitsOf;
    FirstChar(Number(n), rest);
    NumberForward(n, rest);
  }

  lemma StringForward(l: StringRule, cs: seq<Letter>, rest: Text, units: nat)
    requires ValidChars(cs) && Narrow(PrintChars(cs)) && units <= l.unitLimit
    ensures StringAt(l, [34] + (PrintChars(cs) + ([34] + rest)), units) ==
            if StringOk(l, CharUnits(cs)) && units + |CharUnits(cs)| <= l.unitLimit then Ok((rest, CharUnits(cs))) else Limit
  {
    hide Letters, Padding, Base64Cap;
    var s := PrintChars(cs) + ([34] + rest);
    assert ([34] + s)[1..] == s;
    LettersForward(l, cs, rest, [], units);
    assert [] + CharUnits(cs) == CharUnits(cs);
  }

  lemma StringBody(pr: Profile, cs: seq<Letter>, rest: Text, st1: St, pl: Place)
    requires ValidChars(cs) && Narrow(String(cs).Print()) && Reaches(pr, st1, pl)
    ensures BodyAt(pr, String(cs).Print() + rest, st1, pl) ==
            if BodyFits(pr, st1, pl, String(cs)) then Ok((rest, BodyAfter(pr, st1, pl, String(cs)))) else Limit
  {
    hide StringAt, PrintChars, CharUnits, StringOk;
    FirstChar(String(cs), rest);
    assert String(cs).Print() + rest == [34] + (PrintChars(cs) + ([34] + rest));
    NarrowParts([34] + PrintChars(cs), [34]);
    NarrowParts([34], PrintChars(cs));
    assert ValueRule(pr, pl).unitLimit == LimitsOf(pr).units;
    StringForward(ValueRule(pr, pl), cs, rest, st1.count.units);
  }

  predicate ElementsFit(pr: Profile, st: St, pl: Place, es: Elements)
    requires es.Valid()
  {
    && Room(pr, St(es.Count(st.count), SpecialElements(pr, pl, es, st.extra)))
    && pl.depth + 1 + es.Depth() <= LimitsOf(pr).depth && LocalElements(pr, pl, es)
  }

  predicate MembersFit(pr: Profile, st: St, pl: Place, ms: Members)
    requires ms.Valid()
  {
    && Room(pr, St(ms.Count(st.count), SpecialMembers(pr, pl, ms, st.extra)))
    && pl.depth + 1 + ms.Depth() <= LimitsOf(pr).depth && LocalMembers(pr, pl, ms)
  }

  lemma ContainerBody(pr: Profile, v: Value, inner: Text, rest: Text, st1: St, pl: Place)
    requires v.Valid() && (v.Array? || v.Object?) && Reaches(pr, st1, pl)
    requires v.Array? ==> inner == if v.elements.NoElement? then v.blank else v.elements.Print()
    requires v.Object? ==> inner == if v.members.NoMember? then v.blank else v.members.Print()
    requires var open, close := if v.Object? then 123 else 91, if v.Object? then 125 else 93;
             v.Print() + rest == [open] + (inner + ([close] + rest))
    requires v.Array? && v.elements.Element? && Reaches(pr, Opened(st1), Deeper(pl)) ==>
               ElementsAt(pr, inner + ([93] + rest), Opened(st1), pl) ==
               if ElementsFit(pr, Opened(st1), pl, v.elements)
               then Ok((rest, St(v.elements.Count(Opened(st1).count), SpecialElements(pr, pl, v.elements, st1.extra)))) else Limit
    requires v.Object? && v.members.Member? && Reaches(pr, Opened(st1), Deeper(pl)) ==>
               MembersAt(pr, inner + ([125] + rest), Opened(st1), pl) ==
               if MembersFit(pr, Opened(st1), pl, v.members)
               then Ok((rest, St(v.members.Count(Opened(st1).count), SpecialMembers(pr, pl, v.members, st1.extra)))) else Limit
    ensures BodyAt(pr, v.Print() + rest, st1, pl) ==
            if BodyFits(pr, st1, pl, v) then Ok((rest, BodyAfter(pr, st1, pl, v))) else Limit
  {
    hide BodyAt, ElementsAt, MembersAt, LocalElements, LocalMembers, SpecialElements, SpecialMembers, LimitsOf, SkipSpace;
    var close := if v.Object? then 125 else 93;
    var s1 := inner + ([close] + rest);
    var s := [if v.Object? then 123 else 91] + s1;
    assert s[1..] == s1;
    OpenStep(pr, s, st1, pl);
    SkipFirst(pr, s1, Opened(st1), pl);
    ContainerRoom(pr, v, st1, pl);
    if (v.Object? && v.members.NoMember?) || (v.Array? && v.elements.NoElement?) {
      SkipBlank(v.blank, [close] + rest);
      assert ([close] + rest)[1..] == rest;
      if Reaches(pr, Opened(st1), Deeper(pl)) { EmptyAfter(pr, v, st1, pl); }
    } else {
      NotClosed(v, rest);
    }
  }

  lemma OpenStep(pr: Profile, s: Text, st1: St, pl: Place)
    requires s != [] && (s[0] == 123 || s[0] == 91)
    ensures BodyAt(pr, s, st1, pl) ==
            if pl.depth >= LimitsOf(pr).depth || st1.count.containers + 1 > LimitsOf(pr).containers then Limit
            else
              var s1 := SkipSpace(s[1..]);
              if s1 != [] && s1[0] == s[0] + 2 then Ok((s1[1..], Opened(st1)))
              else if s[0] == 123 then MembersAt(pr, s1, Opened(st1), pl)
              else ElementsAt(pr, s1, Opened(st1), pl)
  {
    hide MembersAt, ElementsAt, SkipSpace, LimitsOf;
  }

  /** Opening needs room for one more container and one more level. */
  lemma ContainerRoom(pr: Profile, v: Value, st1: St, pl: Place)
    requires v.Valid() && (v.Array? || v.Object?) && Reaches(pr, st1, pl)
    ensures var opens := !(pl.depth >= LimitsOf(pr).depth || st1.count.containers + 1 > LimitsOf(pr).containers);
            && opens == Reaches(pr, Opened(st1), Deeper(pl))
            && (!opens ==> !BodyFits(pr, st1, pl, v))
            && (v.Array? ==> BodyFits(pr, st1, pl, v) == ElementsFit(pr, Opened(st1), pl, v.elements))
            && (v.Object? ==> BodyFits(pr, st1, pl, v) == MembersFit(pr, Opened(st1), pl, v.members))
  {
    hide LocalElements, LocalMembers, SpecialElements, SpecialMembers, LimitsOf;
    if v.Array? {
      ElementsGrow(v.elements, Opened(st1).count);
    } else {
      MembersGrow(v.members, Opened(st1).count);
    }
  }

  lemma EmptyAfter(pr: Profile, v: Value, st1: St, pl: Place)
    requires v.Valid() && Reaches(pr, Opened(st1), Deeper(pl))
    requires (v.Object? && v.members.NoMember?) || (v.Array? && v.elements.NoElement?)
    ensures BodyFits(pr, st1, pl, v) && BodyAfter(pr, st1, pl, v) == Opened(st1)
  {
    hide LimitsOf, Within;
    if v.Object? {
      LastMember(pr, pl, v.members, Opened(st1));
    } else {
      LastElement(pr, pl, v.elements, Opened(st1));
    }
  }

  lemma NotClosed(v: Value, rest: Text)
    requires v.Valid() && ((v.Object? && v.members.Member?) || (v.Array? && v.elements.Element?))
    ensures var inner := if v.Object? then v.members.Print() else v.elements.Print();
            var close := if v.Object? then 125 else 93;
            SkipSpace(inner + ([close] + rest)) != [] && SkipSpace(inner + ([close] + rest))[0] != close
  {
    hide SkipSpace;
    if v.Object? {
      var ms := v.members;
      var more := ms.Print()[|ms.before|..] + ([125] + rest);
      assert ms.Print() + ([125] + rest) == ms.before + more;
      assert ms.Print()[|ms.before|] == 34;
      SkipBlank(ms.before, more);
    } else {
      var es := v.elements;
      var more := es.Print()[|es.before|..] + ([93] + rest);
      assert es.Print() + ([93] + rest) == es.before + more;
      FirstChar(es.value, []);
      assert es.value.Print() + [] == es.value.Print();
      assert es.Print()[|es.before|] == es.value.Print()[0];
      SkipBlank(es.before, more);
    }
  }

  lemma {:induction false} SkipTwice(s: Text)
    ensures SkipSpace(SkipSpace(s)) == SkipSpace(s)
    decreases |s|
  {
    if s != [] && IsSpace(s[0]) { SkipTwice(s[1..]); }
  }

  lemma SkipFirst(pr: Profile, s: Text, st: St, pl: Place)
    ensures ElementsAt(pr, SkipSpace(s), st, pl) == ElementsAt(pr, s, st, pl)
    ensures MembersAt(pr, SkipSpace(s), st, pl) == MembersAt(pr, s, st, pl)
  {
    hide ValueAt, MembersAt, ElementsAt, BodyAt, StringAt, SkipSpace, LimitsOf, IsPolicy, CountEntry;
    SkipTwice(s);
    var st0 := St(st.count.Entry(), CountEntry(pr, pl, st.extra));
    ValueStep(pr, s, st0, EntryPlace(pr, pl));
    ValueStep(pr, SkipSpace(s), st0, EntryPlace(pr, pl));
    ElementsStep(pr, s, st, pl);
    ElementsStep(pr, SkipSpace(s), st, pl);
    MembersStep(pr, s, st, pl);
    MembersStep(pr, SkipSpace(s), st, pl);
  }

  lemma ElementsStep(pr: Profile, s: Text, st: St, pl: Place)
    ensures ElementsAt(pr, s, st, pl) ==
            var st0 := St(st.count.Entry(), CountEntry(pr, pl, st.extra));
            if st0.count.entries > LimitsOf(pr).entries
               || ((pr.AssignmentSource? || IsPolicy(pr)) && st0.count.members + st0.count.entries > 32768) || !st0.extra.Ok() then Limit
            else
              var read :- ValueAt(pr, s, st0, EntryPlace(pr, pl));
              var s2 := SkipSpace(read.0);
              if s2 == [] then Invalid
              else if s2[0] == 93 then Ok((s2[1..], read.1))
              else if s2[0] != 44 then Invalid
              else ElementsAt(pr, s2[1..], read.1, pl)
  {
    hide ValueAt, SkipSpace, LimitsOf, CountEntry, EntryPlace;
  }

  lemma {:induction false} ElementsForward(pr: Profile, es: Elements, rest: Text, st: St, pl: Place)
    requires es.Valid() && es.Element? && Narrow(es.Print()) && Reaches(pr, st, Deeper(pl))
    ensures ElementsAt(pr, es.Print() + ([93] + rest), st, pl) ==
            if ElementsFit(pr, st, pl, es)
            then Ok((rest, St(es.Count(st.count), SpecialElements(pr, pl, es, st.extra)))) else Limit
    decreases es
  {
    hide ElementsAt, ValueAt, SkipSpace, LimitsOf, CountEntry, Special, IsPolicy, EntryPlace,
         Fits, Room, ElementsFit, SpecialElements, Narrow, Blank, Local, LocalElements;
    var v, next := es.value, es.next;
    var last := if next.NoElement? then [] else [44] + next.Print();
    var end := last + ([93] + rest);
    var tail := es.after + end;
    ElementText(es, [93] + rest);
    NarrowElement(es);
    var st0 := St(st.count.Entry(), CountEntry(pr, pl, st.extra));
    ElementsStep(pr, es.Print() + ([93] + rest), st, pl);
    EntryRoom(pr, st, pl, es);
    if Room(pr, st0) {
      var place := EntryPlace(pr, pl);
      BlankEnds(es.after, end);
      ElementUnfold(pr, st, pl, es);
      ValueForward(pr, v, es.before, tail, st0, place);
      ElementFits(pr, st, pl, es);
      FitsIs(pr, st0, place, v);
      if Fits(pr, st0, place, v) {
        SkipBlank(es.after, end);
        if next.NoElement? {
          assert end == [93] + rest;
          assert end[1..] == rest;
          LastElement(pr, pl, next, After(pr, st0, place, v));
          LastElementsFit(pr, After(pr, st0, place, v), pl, next);
        } else {
          assert end == [44] + (next.Print() + ([93] + rest));
          assert end[1..] == next.Print() + ([93] + rest);
          ElementsForward(pr, next, rest, After(pr, st0, place, v), pl);
        }
      }
    }
  }

  lemma FitsIs(pr: Profile, st: St, pl: Place, v: Value)
    requires v.Valid()
    ensures Fits(pr, st, pl, v) == (Room(pr, After(pr, st, pl, v)) && pl.depth + v.Depth() <= LimitsOf(pr).depth && Local(pr, pl, v))
  {
    hide LimitsOf, Local, Special, Room;
  }

  lemma LastElementsFit(pr: Profile, st: St, pl: Place, es: Elements)
    requires es.NoElement? && Room(pr, st) && pl.depth + 1 <= LimitsOf(pr).depth
    ensures ElementsFit(pr, st, pl, es)
  {
    hide LimitsOf, Within;
  }

  lemma LastMembersFit(pr: Profile, st: St, pl: Place, ms: Members)
    requires ms.NoMember? && Room(pr, st) && pl.depth + 1 <= LimitsOf(pr).depth
    ensures MembersFit(pr, st, pl, ms)
  {
    hide LimitsOf, Within;
  }

  lemma BlankEnds(blank: Text, s: Text)
    requires Blank(blank) && s != [] && (s[0] == 44 || s[0] == 93 || s[0] == 125)
    ensures NumberEnds(blank + s) && !IsSpace(s[0])
  {}

  lemma NarrowElement(es: Elements)
    requires es.Element? && Narrow(es.Print())
    ensures Narrow(es.value.Print()) && (es.next.Element? ==> Narrow(es.next.Print()))
  {
    var last := if es.next.NoElement? then [] else [44] + es.next.Print();
    NarrowParts(es.before, es.value.Print() + (es.after + last));
    NarrowParts(es.value.Print(), es.after + last);
    NarrowParts(es.after, last);
    if es.next.Element? { NarrowParts([44], es.next.Print()); }
  }

  /** The checks at an entry are those of the counters it leaves, and a refusal there is a refusal of the whole. */
  lemma EntryRoom(pr: Profile, st: St, pl: Place, es: Elements)
    requires es.Valid() && es.Element? && Room(pr, st)
    ensures var st0 := St(st.count.Entry(), CountEntry(pr, pl, st.extra));
            && Room(pr, st0) ==
               !(st0.count.entries > LimitsOf(pr).entries
                 || ((pr.AssignmentSource? || IsPolicy(pr)) && st0.count.members + st0.count.entries > 32768) || !st0.extra.Ok())
            && (!Room(pr, st0) ==> !ElementsFit(pr, st, pl, es))
  {
    hide LimitsOf, Special, SpecialElements, LocalElements, CountEntry;
    var st0 := St(st.count.Entry(), CountEntry(pr, pl, st.extra));
    CountGrows(es.value, st0.count);
    ElementsGrow(es.next, es.value.Count(st0.count));
    SpecialGrows(pr, EntryPlace(pr, pl), es.value, st0.extra);
    SpecialElementsGrow(pr, pl, es.next, Special(pr, EntryPlace(pr, pl), es.value, st0.extra));
    SpecialElementsStep(pr, pl, es, st.extra);
  }

  lemma SpecialElementsStep(pr: Profile, pl: Place, es: Elements, e: Extra)
    requires es.Valid() && es.Element?
    ensures SpecialElements(pr, pl, es, e) ==
            SpecialElements(pr, pl, es.next, Special(pr, EntryPlace(pr, pl), es.value, CountEntry(pr, pl, e)))
  {}

  /** The state an element leaves. */
  function ElementAfter(pr: Profile, st: St, pl: Place, es: Elements): St
    requires es.Valid() && es.Element?
  {
    After(pr, St(st.count.Entry(), CountEntry(pr, pl, st.extra)), EntryPlace(pr, pl), es.value)
  }

  lemma ElementFits(pr: Profile, st: St, pl: Place, es: Elements)
    requires es.Valid() && es.Element?
    ensures var st1 := ElementAfter(pr, st, pl, es);
            ElementsFit(pr, st, pl, es) ==
            (&& Room(pr, st1) && pl.depth + 1 + es.value.Depth() <= LimitsOf(pr).depth && Local(pr, EntryPlace(pr, pl), es.value)
             && ElementsFit(pr, st1, pl, es.next))
  {
    hide LimitsOf, Special, CountEntry, Local, Room, SpecialElements, LocalElements, EntryPlace, ElementAfter, After;
    var st1 := ElementAfter(pr, st, pl, es);
    var st2 := St(es.next.Count(st1.count), SpecialElements(pr, pl, es.next, st1.extra));
    ElementUnfold(pr, st, pl, es);
    ElementsGrow(es.next, st1.count);
    SpecialElementsGrow(pr, pl, es.next, st1.extra);
    if Room(pr, st2) { RoomBelow(pr, st1, st2); }
  }

  lemma RoomBelow(pr: Profile, a: St, b: St)
    requires Room(pr, b) && a.count.AtMost(b.count) && a.extra.AtMost(b.extra)
    ensures Room(pr, a)
  {
    hide LimitsOf;
  }

  lemma ElementUnfold(pr: Profile, st: St, pl: Place, es: Elements)
    requires es.Valid() && es.Element?
    ensures var st1 := ElementAfter(pr, st, pl, es);
            && es.Count(st.count) == es.next.Count(st1.count)
            && SpecialElements(pr, pl, es, st.extra) == SpecialElements(pr, pl, es.next, st1.extra)
            && LocalElements(pr, pl, es) == (Local(pr, EntryPlace(pr, pl), es.value) && LocalElements(pr, pl, es.next))
            && es.Depth() == Max(es.value.Depth(), es.next.Depth()) && EntryPlace(pr, pl).depth == pl.depth + 1
  {
    hide LimitsOf, Special, CountEntry, Local;
  }

  lemma LastElement(pr: Profile, pl: Place, es: Elements, st: St)
    requires es.Valid()
    ensures es.NoElement? ==> SpecialElements(pr, pl, es, st.extra) == st.extra && es.Count(st.count) == st.count
    ensures es.NoElement? ==> LocalElements(pr, pl, es) && es.Depth() == 0
  {}

  lemma LastMember(pr: Profile, pl: Place, ms: Members, st: St)
    requires ms.Valid()
    ensures ms.NoMember? ==> SpecialMembers(pr, pl, ms, st.extra) == st.extra && ms.Count(st.count) == st.count
    ensures ms.NoMember? ==> LocalMembers(pr, pl, ms) && ms.Depth() == 0
  {}

  lemma MembersStep(pr: Profile, s: Text, st: St, pl: Place)
    ensures MembersAt(pr, s, st, pl) ==
            var t := st.count.Member();
            if t.members > LimitsOf(pr).members || ((pr.AssignmentSource? || IsPolicy(pr)) && t.members + t.entries > 32768) then Limit
            else
              var key :- StringAt(KeyRule(pr), SkipSpace(s), t.units);
              var s2 := SkipSpace(key.0);
              if s2 == [] || s2[0] != 58 then Invalid
              else MemberValueAt(pr, s2[1..], st.(count := t.Units(|key.1|)), MemberPlace(pl, key.1), pl)
  {
    hide ValueAt, MemberValueAt, SkipSpace, LimitsOf, StringAt, MemberPlace, KeyRule;
  }

  lemma {:induction false} MembersForward(pr: Profile, ms: Members, rest: Text, st: St, pl: Place)
    requires ms.Valid() && ms.Member? && Narrow(ms.Print()) && Reaches(pr, st, Deeper(pl))
    ensures MembersAt(pr, ms.Print() + ([125] + rest), st, pl) ==
            if MembersFit(pr, st, pl, ms)
            then Ok((rest, St(ms.Count(st.count), SpecialMembers(pr, pl, ms, st.extra)))) else Limit
    decreases ms
  {
    hide MembersAt, MemberValueAt, SkipSpace, LimitsOf, IsPolicy, StringAt, MemberPlace, PrintChars, CharUnits,
         Room, MembersFit, SpecialMembers, Narrow, Blank, ValidChars, KeyRule, Local, LocalMembers;
    var us := CharUnits(ms.key);
    var last := if ms.next.NoMember? then [] else [44] + ms.next.Print();
    var value := ms.lead + (ms.value.Print() + (ms.after + (last + ([125] + rest))));
    MemberText(ms, [125] + rest);
    KeyForward(pr, ms, value, st, pl);
    KeyRoom(pr, st, pl, ms);
    if Room(pr, st.(count := st.count.Member().Units(|us|))) && |us| <= KeyRule(pr).maximum {
      MemberValueForward(pr, ms, rest, st, pl);
    }
  }

  /** A member's key, up to its value. */
  lemma KeyForward(pr: Profile, ms: Members, value: Text, st: St, pl: Place)
    requires ms.Valid() && ms.Member? && Narrow(ms.Print()) && Reaches(pr, st, Deeper(pl))
    ensures var us := CharUnits(ms.key);
            var st1 := st.(count := st.count.Member().Units(|us|));
            var colon := ms.gap + ([58] + value);
            var quoted := [34] + (PrintChars(ms.key) + ([34] + colon));
            MembersAt(pr, ms.before + quoted, st, pl) ==
            if Room(pr, st1) && |us| <= KeyRule(pr).maximum then MemberValueAt(pr, value, st1, MemberPlace(pl, us), pl) else Limit
  {
    hide MembersAt, MemberValueAt, SkipSpace, LimitsOf, IsPolicy, StringAt, MemberPlace, PrintChars, CharUnits,
         Room, MembersFit, SpecialMembers, Narrow, Blank, ValidChars, KeyRule, Local, LocalMembers;
    var colon := ms.gap + ([58] + value);
    var quoted := [34] + (PrintChars(ms.key) + ([34] + colon));
    NarrowMember(ms);
    MembersStep(pr, ms.before + quoted, st, pl);
    SkipBlank(ms.before, quoted);
    SkipBlank(ms.gap, [58] + value);
    assert ([58] + value)[1..] == value;
    KeyRoom(pr, st, pl, ms);
    StringForward(KeyRule(pr), ms.key, colon, st.count.Member().units);
  }

  lemma MemberValueStep(pr: Profile, s: Text, st: St, place: Place, pl: Place)
    ensures MemberValueAt(pr, s, st, place, pl) ==
            var read :- ValueAt(pr, s, st, place);
            var rest := SkipSpace(read.0);
            if rest == [] then Invalid
            else if rest[0] == 125 then Ok((rest[1..], read.1))
            else if rest[0] != 44 then Invalid
            else MembersAt(pr, rest[1..], read.1, pl)
  {
    hide ValueAt, MembersAt, SkipSpace;
  }

  lemma {:induction false} MemberValueForward(pr: Profile, ms: Members, rest: Text, st: St, pl: Place)
    requires ms.Valid() && ms.Member? && Narrow(ms.Print()) && Reaches(pr, st, Deeper(pl))
    requires |CharUnits(ms.key)| <= KeyRule(pr).maximum && Room(pr, st.(count := st.count.Member().Units(|CharUnits(ms.key)|)))
    ensures var us := CharUnits(ms.key);
            var last := if ms.next.NoMember? then [] else [44] + ms.next.Print();
            var value := ms.lead + (ms.value.Print() + (ms.after + (last + ([125] + rest))));
            MemberValueAt(pr, value, st.(count := st.count.Member().Units(|us|)), MemberPlace(pl, us), pl) ==
            if MembersFit(pr, st, pl, ms)
            then Ok((rest, St(ms.Count(st.count), SpecialMembers(pr, pl, ms, st.extra)))) else Limit
    decreases ms, 0
  {
    hide MemberValueAt, MembersAt, ValueAt, SkipSpace, LimitsOf, Special, MemberPlace, CharUnits, PrintChars, NumberEnds,
         Fits, Room, MembersFit, SpecialMembers, Narrow, Blank, ValidChars, KeyRule, Local, LocalMembers;
    var v, next, us := ms.value, ms.next, CharUnits(ms.key);
    var last := if next.NoMember? then [] else [44] + next.Print();
    var end := last + ([125] + rest);
    var tail := ms.after + end;
    var st1 := st.(count := st.count.Member().Units(|us|));
    var place := MemberPlace(pl, us);
    NarrowMember(ms);
    BlankEnds(ms.after, end);
    MemberUnfold(pr, st, pl, ms);
    MemberFits(pr, st, pl, ms);
    ValueForward(pr, v, ms.lead, tail, st1, place);
    FitsIs(pr, st1, place, v);
    if Fits(pr, st1, place, v) {
      SkipBlank(ms.after, end);
      if next.NoMember? {
        assert end == [125] + rest;
        LastValue(pr, ms.lead + (v.Print() + tail), st1, place, pl, tail, rest);
        LastMember(pr, pl, next, After(pr, st1, place, v));
        LastMembersFit(pr, After(pr, st1, place, v), pl, next);
      } else {
        assert end == [44] + (next.Print() + ([125] + rest));
        InnerValue(pr, ms.lead + (v.Print() + tail), st1, place, pl, tail, next.Print() + ([125] + rest));
        MembersForward(pr, next, rest, After(pr, st1, place, v), pl);
      }
    } else {
      RefusedValue(pr, ms.lead + (v.Print() + tail), st1, place, pl);
    }
  }

  /** The value of the last member: a brace follows. */
  lemma LastValue(pr: Profile, s: Text, st: St, place: Place, pl: Place, tail: Text, rest: Text)
    requires ValueAt(pr, s, st, place).Ok? && ValueAt(pr, s, st, place).value.0 == tail && SkipSpace(tail) == [125] + rest
    ensures MemberValueAt(pr, s, st, place, pl) == Ok((rest, ValueAt(pr, s, st, place).value.1))
  {
    hide ValueAt, MembersAt, SkipSpace, MemberValueAt;
    MemberValueStep(pr, s, st, place, pl);
  }

  /** The value of another member: a comma and more members follow. */
  lemma InnerValue(pr: Profile, s: Text, st: St, place: Place, pl: Place, tail: Text, more: Text)
    requires ValueAt(pr, s, st, place).Ok? && ValueAt(pr, s, st, place).value.0 == tail && SkipSpace(tail) == [44] + more
    ensures MemberValueAt(pr, s, st, place, pl) == MembersAt(pr, more, ValueAt(pr, s, st, place).value.1, pl)
  {
    hide ValueAt, MembersAt, SkipSpace, MemberValueAt;
    MemberValueStep(pr, s, st, place, pl);
  }

  lemma RefusedValue(pr: Profile, s: Text, st: St, place: Place, pl: Place)
    requires ValueAt(pr, s, st, place) == Limit
    ensures MemberValueAt(pr, s, st, place, pl) == Limit
  {
    hide ValueAt, MembersAt, SkipSpace, MemberValueAt;
    MemberValueStep(pr, s, st, place, pl);
  }

  lemma NarrowMember(ms: Members)
    requires ms.Member? && Narrow(ms.Print())
    ensures Narrow(ms.value.Print()) && Narrow(PrintChars(ms.key)) && (ms.next.Member? ==> Narrow(ms.next.Print()))
  {
    hide PrintChars, Narrow;
    var last := if ms.next.NoMember? then [] else [44] + ms.next.Print();
    var s4 := ms.value.Print() + (ms.after + last);
    var s3 := ms.gap + ([58] + (ms.lead + s4));
    NarrowParts(ms.before, [34] + (PrintChars(ms.key) + ([34] + s3)));
    NarrowParts([34], PrintChars(ms.key) + ([34] + s3));
    NarrowParts(PrintChars(ms.key), [34] + s3);
    NarrowParts([34], s3);
    NarrowParts(ms.gap, [58] + (ms.lead + s4));
    NarrowParts([58], ms.lead + s4);
    NarrowParts(ms.lead, s4);
    NarrowParts(ms.value.Print(), ms.after + last);
    NarrowParts(ms.after, last);
    if ms.next.Member? { NarrowParts([44], ms.next.Print()); }
  }

  lemma KeyRoom(pr: Profile, st: St, pl: Place, ms: Members)
    requires ms.Valid() && ms.Member? && Room(pr, st)
    ensures var t := st.count.Member();
            var us := CharUnits(ms.key);
            var st1 := st.(count := t.Units(|us|));
            var early := t.members > LimitsOf(pr).members || ((pr.AssignmentSource? || IsPolicy(pr)) && t.members + t.entries > 32768);
            && Room(pr, st1) == (!early && t.units + |us| <= LimitsOf(pr).units)
            && (!Room(pr, st1) || |us| > KeyRule(pr).maximum ==> !MembersFit(pr, st, pl, ms))
            && KeyRule(pr).unitLimit == LimitsOf(pr).units && t.units <= KeyRule(pr).unitLimit
            && StringOk(KeyRule(pr), us) == (|us| <= KeyRule(pr).maximum)
  {
    hide LimitsOf, Special, SpecialMembers, CharUnits, Local, IsPolicy, IsUser;
    var st1 := st.(count := st.count.Member().Units(|CharUnits(ms.key)|));
    CountGrows(ms.value, st1.count);
    MembersGrow(ms.next, ms.value.Count(st1.count));
  }

  /** The state a member leaves. */
  function MemberAfter(pr: Profile, st: St, pl: Place, ms: Members): St
    requires ms.Valid() && ms.Member?
  {
    After(pr, st.(count := st.count.Member().Units(|CharUnits(ms.key)|)), MemberPlace(pl, CharUnits(ms.key)), ms.value)
  }

  lemma MemberFits(pr: Profile, st: St, pl: Place, ms: Members)
    requires ms.Valid() && ms.Member?
    ensures var st2 := MemberAfter(pr, st, pl, ms);
            MembersFit(pr, st, pl, ms) ==
            (&& |CharUnits(ms.key)| <= KeyRule(pr).maximum
             && Room(pr, st2) && pl.depth + 1 + ms.value.Depth() <= LimitsOf(pr).depth
             && Local(pr, MemberPlace(pl, CharUnits(ms.key)), ms.value)
             && MembersFit(pr, st2, pl, ms.next))
  {
    hide LimitsOf, Special, CharUnits, Local, Room, SpecialMembers, LocalMembers, MemberPlace, KeyRule, MemberAfter, After;
    var st2 := MemberAfter(pr, st, pl, ms);
    var st3 := St(ms.next.Count(st2.count), SpecialMembers(pr, pl, ms.next, st2.extra));
    MemberUnfold(pr, st, pl, ms);
    MembersGrow(ms.next, st2.count);
    SpecialMembersGrow(pr, pl, ms.next, st2.extra);
    if Room(pr, st3) { RoomBelow(pr, st2, st3); }
  }

  lemma MemberUnfold(pr: Profile, st: St, pl: Place, ms: Members)
    requires ms.Valid() && ms.Member?
    ensures var st1 := st.(count := st.count.Member().Units(|CharUnits(ms.key)|));
            var place := MemberPlace(pl, CharUnits(ms.key));
            var st2 := MemberAfter(pr, st, pl, ms);
            && ms.Count(st.count) == ms.next.Count(st2.count)
            && SpecialMembers(pr, pl, ms, st.extra) == SpecialMembers(pr, pl, ms.next, st2.extra)
            && LocalMembers(pr, pl, ms) ==
               (|CharUnits(ms.key)| <= KeyRule(pr).maximum && Local(pr, place, ms.value) && LocalMembers(pr, pl, ms.next))
            && ms.Depth() == Max(ms.value.Depth(), ms.next.Depth()) && place.depth == pl.depth + 1
  {
    hide LimitsOf, Special, CharUnits, Local, MemberPosition;
  }
}
