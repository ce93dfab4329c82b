/**
 `parseAccessJson` in its own form: one text, a cursor and counters moved by scanning loops, with recursion for
 containers. Each method is proved against the function of `AccessJson` that specifies it.
 */
module AccessValidator {
  import opened Basics
  import opened JsonText
  import opened AccessJson
  import opened AccessTheory
  import opened AccessExact

  datatype Status = Fine | Malformed | OverLimit

  class Validator {
    const text: Text
    const pr: Profile
    var at: nat
    var count: Tally
    var extra: Extra

    constructor (text: Text, pr: Profile, source: Option<Tally>)
      ensures this.text == text && this.pr == pr && at == 0 && count == Budget(source) && extra == NO_EXTRA
    {
      this.text, this.pr, at, count, extra := text, pr, 0, Budget(source), NO_EXTRA;
    }

    function Left(): Text
      reads this
      requires at <= |text|
    {
      text[at..]
    }

    ghost function State(): St
      reads this
    {
      St(count, extra)
    }

    /** The cursor and counters are where the specification says. */
    ghost predicate Agrees(e: Status, spec: Result<(Text, St)>)
      reads this
      requires at <= |text|
    {
      match spec
      case Ok(read) => e == Fine && Left() == read.0 && State() == read.1
      case Invalid => e == Malformed
      case Limit => e == OverLimit
    }

    method Space()
      requires at <= |text|
      modifies this`at
      ensures old(at) <= at <= |text| && Left() == SkipSpace(old(Left()))
    {
      while at < |text| && IsSpace(text[at])
        invariant old(at) <= at <= |text| && SkipSpace(Left()) == SkipSpace(old(Left()))
      {
        assert Left()[1..] == text[at + 1..];
        at := at + 1;
      }
    }

    /** The source's `string`. */
    method ReadString(l: StringRule) returns (e: Status, us: Text)
      requires at <= |text|
      modifies this`at, this`count
      ensures old(at) <= at <= |text|
      ensures var spec := StringAt(l, old(Left()), old(count.units));
              match spec
              case Ok(read) => e == Fine && us == read.1 && Left() == read.0 && count == old(count).Units(|us|)
              case Invalid => e == Malformed
              case Limit => e == OverLimit
    {
      hide TakeLetter, Base64Cap;
      us := [];
      if at == |text| || text[at] != 34 { return Malformed, us; }
      ghost var spec := StringAt(l, Left(), count.units);
      ghost var units := count.units;
      assert Left()[1..] == text[at + 1..];
      at := at + 1;
      var padding := 0;
      while at < |text|
        invariant old(at) <= at <= |text| && count == old(count).Units(|us|) && padding == Padding(us)
        invariant Letters(l, Left(), us, units) == spec
      {
        if text[at] == 34 {
          if l.binary.Some? && (|us| - padding) * 3 / 4 > l.binary.value { return OverLimit, us; }
          assert Left()[1..] == text[at + 1..];
          at := at + 1;
          return Fine, us;
        }
        var taken := TakeLetter(Left());
        if !taken.Ok? { return if taken.Limit? then OverLimit else Malformed, us; }
        var n, width := taken.value.0, |Left()| - |taken.value.1|;
        if |us| + 1 > l.maximum || count.units + 1 > l.unitLimit { return OverLimit, us; }
        if l.binary.Some? && |us| + 1 > Base64Cap(l.binary.value) { return OverLimit, us; }
        LetterWidth(Left());
        assert Left()[width..] == text[at + width..];
        assert (us + [n])[..|us|] == us;
        at := at + width;
        count := count.Units(1);
        padding := if n == 61 then padding + 1 else 0;
        us := us + [n];
      }
      return Malformed, us;
    }

    /** Digits from the cursor; `start` is where the numeral began. */
    method ReadDigits(start: nat) returns (e: Status)
      requires start <= at <= |text|
      modifies this`at
      ensures old(at) <= at <= |text|
      ensures match SkipDigits(old(Left()), old(at) - start)
              case Ok(read) => e == Fine && Left() == read.0 && at - start == read.1
              case Invalid => e == Malformed
              case Limit => e == OverLimit
    {
      while at < |text| && IsDigit(text[at])
        invariant old(at) <= at <= |text|
        invariant SkipDigits(Left(), at - start) == SkipDigits(old(Left()), old(at) - start)
      {
        if at - start >= 64 { return OverLimit; }
        assert Left()[1..] == text[at + 1..];
        at := at + 1;
      }
      e := Fine;
    }

    method ReadNumber() returns (e: Status)
      requires at <= |text|
      modifies this`at
      ensures old(at) <= at <= |text|
      ensures match NumberAt(old(Left()))
              case Ok(rest) => e == Fine && Left() == rest
              case Invalid => e == Malformed
              case Limit => e == OverLimit
    {
      hide SkipDigits, WholeAt, FractionAt, PowerAt;
      var start := at;
      ghost var s := Left();
      if at < |text| && text[at] == 45 { at := at + 1; }
      ghost var sign := at - start;
      assert s[sign..] == Left();
      e := Whole(start);
      if e != Fine { return; }
      e := Fraction(start);
      if e != Fine { return; }
      e := Power(start);
      if e == Fine && at - start > 64 { e := OverLimit; }
    }

    method Whole(start: nat) returns (e: Status)
      requires start <= at <= |text|
      modifies this`at
      ensures old(at) <= at <= |text|
      ensures match WholeAt(old(Left()), old(at) - start)
              case Ok(read) => e == Fine && Left() == read.0 && at - start == read.1
              case Invalid => e == Malformed
              case Limit => e == OverLimit
    {
      if at < |text| && text[at] == 48 {
        assert Left()[1..] == text[at + 1..];
        at := at + 1;
        e := Fine;
      } else if at == |text| || !(49 <= text[at] <= 57) {
        e := Malformed;
      } else {
        e := ReadDigits(start);
      }
    }

    method Fraction(start: nat) returns (e: Status)
      requires start <= at <= |text|
      modifies this`at
      ensures old(at) <= at <= |text|
      ensures match FractionAt(old(Left()), old(at) - start)
              case Ok(read) => e == Fine && Left() == read.0 && at - start == read.1
              case Invalid => e == Malformed
              case Limit => e == OverLimit
    {
      e := Fine;
      if at < |text| && text[at] == 46 {
        assert Left()[1..] == text[at + 1..];
        at := at + 1;
        var from := at;
        e := ReadDigits(start);
        if e == Fine && at == from { e := Malformed; }
      }
    }

    method Power(start: nat) returns (e: Status)
      requires start <= at <= |text|
      modifies this`at
      ensures old(at) <= at <= |text|
      ensures match PowerAt(old(Left()), old(at) - start)
              case Ok(read) => e == Fine && Left() == read.0 && at - start == read.1
              case Invalid => e == Malformed
              case Limit => e == OverLimit
    {
      e := Fine;
      if at < |text| && (text[at] == 101 || text[at] == 69) {
        ghost var s, n := Left(), 1;
        at := at + 1;
        if at < |text| && (text[at] == 43 || text[at] == 45) { at := at + 1; n := 2; }
        assert s[n..] == Left();
        var from := at;
        e := ReadDigits(start);
        if e == Fine && at == from { e := Malformed; }
      }
    }

    method ReadWord() returns (e: Status)
      requires at < |text|
      modifies this`at
      ensures old(at) <= at <= |text|
      ensures match WordAt(old(Left()))
              case Ok(rest) => e == Fine && Left() == rest
              case Invalid => e == Malformed
              case Limit => e == OverLimit
    {
      var w := (if text[at] == 116 then True else if text[at] == 102 then False else Null).Print();
      if w <= text[at..] {
        assert text[at..][|w|..] == text[at + |w|..];
        at := at + |w|;
        e := Fine;
      } else {
        e := Malformed;
      }
    }

    /** The source's `value`. */
    method ReadValue(pl: Place) returns (e: Status)
      requires at <= |text|
      modifies this`at, this`count, this`extra
      ensures old(at) <= at <= |text|
      ensures Agrees(e, ValueAt(pr, old(Left()), old(State()), pl))
      decreases |text| - at, 2
    {
      hide BodyAt, SkipSpace, Utf8Length, LimitsOf;
      ValueStep(pr, Left(), State(), pl);
      Space();
      var start := at;
      ghost var s := Left();
      count := count.Value();
      if count.values > LimitsOf(pr).values { return OverLimit; }
      ghost var st := State();
      e := ReadBody(pl);
      if e == Fine && pl.jwkRow {
        assert text[start..at] == s[..|s| - |Left()|];
        var size := MeasureUtf8(text[start..at]);
        if size > 8192 { e := OverLimit; }
      }
    }

    method ReadBody(pl: Place) returns (e: Status)
      requires at <= |text|
      modifies this`at, this`count, this`extra
      ensures old(at) <= at <= |text|
      ensures Agrees(e, BodyAt(pr, old(Left()), old(State()), pl))
      decreases |text| - at, 1
    {
      hide MembersAt, ElementsAt, SkipSpace, LimitsOf, StringAt, NumberAt, WordAt;
      if at < |text| && (text[at] == 123 || text[at] == 91) {
        var object_, close := text[at] == 123, text[at] + 2;
        if pl.depth >= LimitsOf(pr).depth || count.containers + 1 > LimitsOf(pr).containers { return OverLimit; }
        count := count.Container();
        assert Left()[1..] == text[at + 1..];
        at := at + 1;
        Space();
        if at < |text| && text[at] == close {
          assert Left()[1..] == text[at + 1..];
          at := at + 1;
          e := Fine;
        } else if object_ {
          e := ReadMembers(pl);
        } else {
          e := ReadElements(pl);
        }
      } else if at < |text| && text[at] == 34 {
        var us;
        e, us := ReadString(ValueRule(pr, pl));
      } else if at < |text| && (text[at] == 116 || text[at] == 102 || text[at] == 110) {
        e := ReadWord();
      } else {
        e := ReadNumber();
      }
    }

    /** A member's key and colon: what is left is a member's value. */
    method ReadKey(ghost pl: Place) returns (e: Status, child: Text)
      requires at <= |text|
      modifies this`at, this`count
      ensures old(at) <= at <= |text| && (e == Fine ==> old(at) < at)
      ensures e == Fine ==> MembersAt(pr, old(Left()), old(State()), pl) == MemberValueAt(pr, Left(), State(), MemberPlace(pl, child), pl)
      ensures e != Fine ==> Agrees(e, MembersAt(pr, old(Left()), old(State()), pl))
    {
      hide MembersAt, MemberValueAt, SkipSpace, LimitsOf, StringAt, IsPolicy, MemberPlace, KeyRule;
      MembersStep(pr, Left(), State(), pl);
      child := [];
      count := count.Member();
      if count.members > LimitsOf(pr).members
         || ((pr.AssignmentSource? || IsPolicy(pr)) && count.members + count.entries > 32768) { return OverLimit, child; }
      Space();
      e, child := ReadString(KeyRule(pr));
      if e != Fine { return; }
      Space();
      if at == |text| || text[at] != 58 { return Malformed, child; }
      assert Left()[1..] == text[at + 1..];
      at := at + 1;
    }

    method ReadMembers(pl: Place) returns (e: Status)
      requires at <= |text|
      modifies this`at, this`count, this`extra
      ensures old(at) <= at <= |text|
      ensures Agrees(e, MembersAt(pr, old(Left()), old(State()), pl))
      decreases |text| - at, 3
    {
      hide MembersAt, MemberValueAt, ValueAt, SkipSpace, MemberPlace;
      ghost var spec := MembersAt(pr, Left(), State(), pl);
      while true
        invariant old(at) <= at <= |text| && MembersAt(pr, Left(), State(), pl) == spec
        decreases |text| - at
      {
        var child;
        e, child := ReadKey(pl);
        if e != Fine { return; }
        MemberValueStep(pr, Left(), State(), MemberPlace(pl, child), pl);
        e := ReadValue(MemberPlace(pl, child));
        if e != Fine { return; }
        Space();
        if at == |text| { return Malformed; }
        assert Left()[1..] == text[at + 1..];
        at := at + 1;
        if text[at - 1] == 125 { return Fine; }
        if text[at - 1] != 44 { return Malformed; }
      }
    }

    method ReadElements(pl: Place) returns (e: Status)
      requires at <= |text|
      modifies this`at, this`count, this`extra
      ensures old(at) <= at <= |text|
      ensures Agrees(e, ElementsAt(pr, old(Left()), old(State()), pl))
      decreases |text| - at, 3
    {
      hide ElementsAt, ValueAt, SkipSpace, LimitsOf, IsPolicy, EntryPlace, CountEntry;
      ghost var spec := ElementsAt(pr, Left(), State(), pl);
      while true
        invariant old(at) <= at <= |text| && ElementsAt(pr, Left(), State(), pl) == spec
        decreases |text| - at
      {
        ElementsStep(pr, Left(), State(), pl);
        count := count.Entry();
        extra := CountEntry(pr, pl, extra);
        if count.entries > LimitsOf(pr).entries
           || ((pr.AssignmentSource? || IsPolicy(pr)) && count.members + count.entries > 32768) || !extra.Ok() { return OverLimit; }
        e := ReadValue(EntryPlace(pr, pl));
        if e != Fine { return; }
        Space();
        if at == |text| { return Malformed; }
        assert Left()[1..] == text[at + 1..];
        at := at + 1;
        if text[at - 1] == 93 { return Fine; }
        if text[at - 1] != 44 { return Malformed; }
      }
    }
  }

  lemma LetterWidth(s: Text)
    requires s != [] && TakeLetter(s).Ok?
    ensures s[|s| - |TakeLetter(s).value.1|..] == TakeLetter(s).value.1
  {}

  /** The source's `utf8Length`. */
  method MeasureUtf8(s: Text) returns (bytes: nat)
    ensures bytes == Utf8Length(s)
  {
    bytes := 0;
    var i := 0;
    assert s[0..] == s;
    while i < |s|
      invariant 0 <= i <= |s| && bytes + Utf8Length(s[i..]) == Utf8Length(s)
    {
      var n := s[i];
      assert s[i..][0] == n && s[i..][1..] == s[i + 1..];
      if n < 128 {
        bytes := bytes + 1;
      } else if n < 2048 {
        bytes := bytes + 2;
      } else if 0xd800 <= n <= 0xdbff && i + 1 < |s| && 0xdc00 <= s[i + 1] <= 0xdfff {
        assert s[i..][1] == s[i + 1] && s[i..][2..] == s[i + 2..];
        bytes, i := bytes + 4, i + 1;
      } else {
        assert i + 1 < |s| ==> s[i..][1] == s[i + 1];
        bytes := bytes + 3;
      }
      i := i + 1;
    }
  }

  /** What an answer means: an accepted text is grammatical, and within the limits acceptance is exact. */
  lemma Means(text: Text, pr: Profile, source: Option<Tally>)
    requires Narrow(text)
    ensures Validate(text, pr, source).Ok? ==> exists d: Document :: d.Valid() && text == d.Print()
    ensures (source.Some? ==> Within(pr, source.value)) ==>
              forall t :: Validate(text, pr, source) == Ok(t) <==> exists d :: Admissible(text, pr, source, d, t)
  {
    hide Validate, Admissible, Within, Narrow;
    if Validate(text, pr, source).Ok? { var d := DocumentBehind(text, pr, source); }
    if source.Some? ==> Within(pr, source.value) {
      forall t ensures Validate(text, pr, source) == Ok(t) <==> exists d :: Admissible(text, pr, source, d, t) {
        Exact(text, pr, source, t);
      }
    }
  }

  /** The source's `parseAccessJson`, up to the call of `JSON.parse` it guards. */
  method Parse(text: Text, pr: Profile, source: Option<Tally>) returns (r: Result<Tally>)
    requires Narrow(text)
    ensures r == Validate(text, pr, source)
    ensures r.Ok? ==> exists d: Document :: d.Valid() && text == d.Print()
    ensures (source.Some? ==> Within(pr, source.value)) ==> forall t :: r == Ok(t) <==> exists d :: Admissible(text, pr, source, d, t)
  {
    hide Validate, ValueAt, Utf8Length, LimitsOf, SkipSpace, Admissible, Within, Narrow;
    Means(text, pr, source);
    r := Check(text, pr, source);
  }

  /** The checks of the text's size, the validator's run, and the end of the text. */
  method Check(text: Text, pr: Profile, source: Option<Tally>) returns (r: Result<Tally>)
    ensures r == Validate(text, pr, source)
  {
    hide Validate, ValueAt, Utf8Length, LimitsOf, SkipSpace;
    ValidateStep(text, pr, source);
    if source.Some? && !TakesSource(pr) { return Invalid; }
    if pr.Evidence? && |text| > 65536 { return Limit; }
    var size := MeasureUtf8(text);
    if |text| > LimitsOf(pr).wire || (!IsUser(pr) && size > LimitsOf(pr).wire) { return Limit; }
    var v := new Validator(text, pr, source);
    assert v.Left() == text;
    var e := v.ReadValue(RootPlace(pr));
    if e != Fine { return if e == OverLimit then Limit else Invalid; }
    v.Space();
    if v.at != |text| { return Invalid; }
    r := Ok(v.count);
  }
}
