/**
 Every text on which the account machine completes is the text of a tree.

 The proof is a recursive descent over the text: from a state that awaits a value, a run that completes must
 begin with the text of some valid value, and `AccountForward` then says what state follows it.
 */
module AccountBackward {
  import opened JsonText
  import opened AccountMachine
  import opened AccountForward

  // ----- Taking runs apart

  lemma {:induction false} TakeBlank(s: Text) returns (blank: Text, rest: Text)
    ensures s == blank + rest && Blank(blank) && (rest != [] ==> !IsSpace(rest[0]))
    decreases |s|
  {
    if s == [] || !IsSpace(s[0]) {
      blank, rest := [], s;
    } else {
      blank, rest := TakeBlank(s[1..]);
      blank := [s[0]] + blank;
    }
  }

  lemma {:induction false} TakeDigits(s: Text) returns (ds: Text, rest: Text)
    ensures s == ds + rest && Digits(ds) && (rest != [] ==> !IsDigit(rest[0]))
    ensures s != [] && IsDigit(s[0]) ==> ds != [] && ds[0] == s[0]
    decreases |s|
  {
    if s == [] || !IsDigit(s[0]) {
      ds, rest := [], s;
    } else {
      ds, rest := TakeDigits(s[1..]);
      ds := [s[0]] + ds;
    }
  }

  lemma Alive(p: Parser, s: Text)
    requires p.Sane() && Complete(Run(p, s))
    ensures p.Parser?
  {
    hide Next;
    if p.Poisoned? { RunPoisoned(s); }
  }

  lemma Unfold(p: Parser, s: Text)
    requires p.Sane()
    ensures Run(p, s) == if s == [] then p else Run(Next(p, s[0]), s[1..])
  {
    hide Next;
  }

  /** A run that has not completed yet takes one more step, and survives it. */
  lemma Continues(p: Parser, s: Text)
    requires p.Sane() && Complete(Run(p, s)) && !Complete(p)
    ensures s != [] && s == [s[0]] + s[1..]
    ensures Next(p, s[0]).Parser? && Complete(Run(Next(p, s[0]), s[1..]))
  {
    hide Next, Run;
    Unfold(p, s);
    Alive(Next(p, s[0]), s[1..]);
  }

  lemma AfterBlank(p: Parser, s: Text) returns (blank: Text, rest: Text)
    requires p.Sane() && p.Parser? && p.lex.Idle? && Complete(Run(p, s)) && !Complete(p)
    ensures s == blank + rest && Blank(blank) && rest != [] && !IsSpace(rest[0])
    ensures Complete(Run(p, rest)) && Next(p, rest[0]).Parser? && Complete(Run(Next(p, rest[0]), rest[1..]))
    ensures rest == [rest[0]] + rest[1..]
  {
    hide Next, Run;
    blank, rest := TakeBlank(s);
    RunBlank(p, blank, rest);
    Continues(p, rest);
  }

  // ----- Strings

  /** The first letter of a string that goes on. */
  lemma FirstLetter(p: Parser, s: Text) returns (c: Letter, rest: Text)
    requires p.Sane() && p.Parser? && p.lex.InString? && p.lex.escape.Unescaped?
    requires Complete(Run(p, s)) && s != [] && s[0] != 34
    ensures c.Valid() && s == c.Print() + rest
  {
    hide Run;
    Continues(p, s);
    if s[0] != 92 {
      c, rest := Raw(s[0]), s[1..];
    } else {
      var p1 := Next(p, 92);
      var s1 := s[1..];
      Continues(p1, s1);
      if s1[0] != 117 {
        c, rest := Short(s1[0]), s1[1..];
        assert s == [92] + ([s1[0]] + rest);
      } else {
        var hs;
        hs, rest := FourDigits(Next(p1, 117), s1[1..]);
        c := Hex(hs[0], hs[1], hs[2], hs[3]);
        assert s == [92] + ([117] + (hs + rest));
        assert c.Print() == [92] + ([117] + hs);
      }
    }
  }

  lemma HexAlive(p: Parser, s: Text)
    requires p.Sane() && p.Parser? && p.lex.InString? && p.lex.escape.HexDigits? && Complete(Run(p, s))
    ensures s != [] && s == [s[0]] + s[1..] && HexDigit(s[0]) >= 0
    ensures p.lex.escape.left > 1 ==>
              var q := p.(lex := p.lex.(escape := HexDigits(p.lex.escape.value * 16 + HexDigit(s[0]), p.lex.escape.left - 1)));
              Complete(Run(q, s[1..]))
  {
    hide Run;
    Continues(p, s);
  }

  lemma FourDigits(p: Parser, s: Text) returns (hs: Text, rest: Text)
    requires p.Sane() && p.Parser? && p.lex.InString? && p.lex.escape == HexDigits(0, 4) && Complete(Run(p, s))
    ensures |hs| == 4 && s == hs + rest && forall i :: 0 <= i < 4 ==> HexDigit(hs[i]) >= 0
  {
    hide Run, HexDigit;
    HexAlive(p, s);
    var v1 := HexDigit(s[0]);
    var s1 := s[1..];
    HexAlive(p.(lex := p.lex.(escape := HexDigits(v1, 3))), s1);
    var v2 := v1 * 16 + HexDigit(s1[0]);
    var s2 := s1[1..];
    HexAlive(p.(lex := p.lex.(escape := HexDigits(v2, 2))), s2);
    var v3 := v2 * 16 + HexDigit(s2[0]);
    var s3 := s2[1..];
    HexAlive(p.(lex := p.lex.(escape := HexDigits(v3, 1))), s3);
    hs, rest := [s[0], s1[0], s2[0], s3[0]], s3[1..];
    assert s == [s[0]] + ([s1[0]] + ([s2[0]] + ([s3[0]] + rest)));
  }

  lemma {:induction false} LettersBehind(p: Parser, s: Text) returns (cs: seq<Letter>, rest: Text)
    requires p.Sane() && p.Parser? && p.lex.InString? && p.lex.escape.Unescaped? && Complete(Run(p, s))
    ensures ValidChars(cs) && s == PrintChars(cs) + ([34] + rest)
    decreases |s|
  {
    hide Run, Next, PushUnits;
    Continues(p, s);
    if s[0] == 34 {
      cs, rest := [], s[1..];
    } else {
      var c, more := FirstLetter(p, s);
      OneLetter(p, c, more);
      var q := PushUnits(p, c.Units());
      Alive(q, more);
      PushKeeps(p, c.Units());
      cs, rest := LettersBehind(q, more);
      cs := [c] + cs;
      assert cs[1..] == cs[1..];
      assert PrintChars(cs) == c.Print() + PrintChars(cs[1..]);
    }
  }

  // ----- Numerals

  predicate InComma(p: Parser) {
    p.Parser? && p.frames.Push? && (p.Top().state == OBJECT_COMMA || p.Top().state == ARRAY_COMMA)
  }

  lemma NumberStops(p: Parser, s: Text)
    requires p.Sane() && InComma(p) && p.lex.InNumber? && Finished(p.lex.state) && Complete(Run(p, s))
    requires s != [] ==> NumberChar(p.lex.state, s[0]).Ended?
    ensures s != [] && Stops(s[0])
  {
    hide Run;
    Continues(p, s);
  }

  lemma PowerBehind(p: Parser, s: Text) returns (mark: Text, power: Text, rest: Text)
    requires p.Sane() && InComma(p) && Complete(Run(p, s))
    requires p.lex == InNumber(ZERO) || p.lex == InNumber(INTEGER) || p.lex == InNumber(FRACTION)
    requires s != [] && !IsDigit(s[0]) && (s[0] == 46 ==> p.lex.state == FRACTION)
    ensures s == mark + power + rest && rest != [] && Stops(rest[0])
    ensures (mark == [] ==> power == []) && (mark != [] ==> ValidMark(mark) && power != [] && Digits(power))
  {
    hide Run, Next;
    if s[0] != 101 && s[0] != 69 {
      mark, power, rest := [], [], s;
      NumberStops(p, s);
    } else {
      var s2;
      mark, s2 := MarkBehind(p, s);
      var q := p.(lex := InNumber(EXP_DIGITS));
      power, rest := TakeDigits(s2);
      assert s2[1..] == power[1..] + rest;
      DigitsRun(q, power[1..], rest);
      NumberStops(q, rest);
    }
  }

  /** The mark of an exponent and its first digit. */
  lemma MarkBehind(p: Parser, s: Text) returns (mark: Text, s2: Text)
    requires p.Sane() && InComma(p) && Complete(Run(p, s)) && s != [] && (s[0] == 101 || s[0] == 69)
    requires p.lex == InNumber(ZERO) || p.lex == InNumber(INTEGER) || p.lex == InNumber(FRACTION)
    ensures s == mark + s2 && ValidMark(mark) && s2 != [] && IsDigit(s2[0])
    ensures var q := p.(lex := InNumber(EXP_DIGITS)); q.Sane() && Complete(Run(q, s2[1..]))
  {
    hide Run;
    Continues(p, s);
    var e := p.(lex := InNumber(EXPONENT));
    var s1 := s[1..];
    Continues(e, s1);
    if s1[0] == 43 || s1[0] == 45 {
      mark, s2 := [s[0], s1[0]], s1[1..];
      Continues(e.(lex := InNumber(EXP_SIGN)), s2);
    } else {
      mark, s2 := [s[0]], s1;
    }
    assert s == mark + s2;
  }

  lemma TailBehind(p: Parser, s: Text) returns (fraction: Text, mark: Text, power: Text, rest: Text)
    requires p.Sane() && InComma(p) && Complete(Run(p, s))
    requires p.lex == InNumber(ZERO) || p.lex == InNumber(INTEGER)
    requires s != [] ==> !IsDigit(s[0])
    ensures s == (if fraction == [] then [] else [46] + fraction) + (mark + power) + rest && rest != [] && Stops(rest[0])
    ensures Digits(fraction)
    ensures (mark == [] ==> power == []) && (mark != [] ==> ValidMark(mark) && power != [] && Digits(power))
  {
    hide Run;
    Continues(p, s);
    if s[0] != 46 {
      fraction := [];
      mark, power, rest := PowerBehind(p, s);
      assert s == [] + (mark + power) + rest;
    } else {
      var d := p.(lex := InNumber(DOT));
      var s1 := s[1..];
      Continues(d, s1);
      var q := p.(lex := InNumber(FRACTION));
      var after;
      fraction, after := TakeDigits(s1);
      assert s1[1..] == fraction[1..] + after;
      DigitsRun(q, fraction[1..], after);
      Continues(q, after);
      mark, power, rest := PowerBehind(q, after);
      assert s == [46] + (fraction + (mark + power + rest));
    }
  }

  /** The sign, if any, and the first digit. */
  lemma SignBehind(p: Parser, s: Text) returns (r: Parser)
    requires p.Sane() && Awaiting(p) && p.frames.Push? && s != [] && (s[0] == 45 || IsDigit(s[0])) && Complete(Run(p, s))
    ensures var at := if s[0] == 45 then s[1..] else s;
            && at != [] && IsDigit(at[0])
            && r.Sane() && InComma(r) && r.lex == InNumber(if at[0] == 48 then ZERO else INTEGER)
            && Complete(Run(r, at[1..]))
  {
    hide Run;
    Continues(p, s);
    r := Next(p, s[0]);
    if s[0] == 45 {
      Continues(r, s[1..]);
      r := Next(r, s[1..][0]);
    }
  }

  lemma ZeroStops(r: Parser, s: Text)
    requires r.Sane() && r.Parser? && r.lex == InNumber(ZERO) && Complete(Run(r, s))
    ensures s != [] && !IsDigit(s[0])
  {
    hide Run;
    Continues(r, s);
  }

  lemma WholeBehind(r: Parser, at: Text) returns (whole: Text, more: Text)
    requires r.Sane() && r.Parser? && r.lex == InNumber(INTEGER) && at != [] && IsDigit(at[0]) && at[0] != 48
    requires Complete(Run(r, at[1..]))
    ensures at == whole + more && ValidWhole(whole) && (more != [] ==> !IsDigit(more[0])) && Complete(Run(r, more))
  {
    hide Run;
    whole, more := TakeDigits(at);
    assert at[1..] == whole[1..] + more;
    DigitsRun(r, whole[1..], more);
  }

  lemma NumeralBehind(p: Parser, s: Text) returns (n: Numeral, rest: Text)
    requires p.Sane() && Awaiting(p) && p.frames.Push? && s != [] && (s[0] == 45 || IsDigit(s[0])) && Complete(Run(p, s))
    ensures n.Valid() && s == n.Print() + rest && rest != [] && Stops(rest[0])
  {
    hide Run, Next, Digits, ValidMark, ValidWhole, Stops, Complete, InComma, Awaiting;
    var r, whole, more := IntegerBehind(p, s);
    var fraction, mark, power;
    fraction, mark, power, rest := TailBehind(r, more);
    n := Numeral(s[0] == 45, whole, fraction, mark, power);
    JoinNumeral(n, s, if s[0] == 45 then s[1..] else s, more, rest);
  }

  /** The sign and the integer part. */
  lemma IntegerBehind(p: Parser, s: Text) returns (r: Parser, whole: Text, more: Text)
    requires p.Sane() && Awaiting(p) && p.frames.Push? && s != [] && (s[0] == 45 || IsDigit(s[0])) && Complete(Run(p, s))
    ensures (if s[0] == 45 then s[1..] else s) == whole + more && ValidWhole(whole) && (more != [] ==> !IsDigit(more[0]))
    ensures r.Sane() && InComma(r) && (r.lex == InNumber(ZERO) || r.lex == InNumber(INTEGER)) && Complete(Run(r, more))
  {
    hide Run, Next, Digits, Complete;
    var at := if s[0] == 45 then s[1..] else s;
    r := SignBehind(p, s);
    if at[0] == 48 {
      whole, more := [48], at[1..];
      ZeroStops(r, more);
    } else {
      whole, more := WholeBehind(r, at);
    }
  }

  lemma JoinNumeral(n: Numeral, s: Text, at: Text, more: Text, rest: Text)
    requires s == (if n.minus then [45] else []) + at && at == n.whole + more && more == n.Tail() + rest
    ensures s == n.Print() + rest
  {
    assert at == (n.whole + n.Tail()) + rest;
  }

  // ----- Words

  lemma {:induction false} WordBehind(p: Parser, s: Text) returns (rest: Text)
    requires p.Sane() && p.Parser? && p.lex.InLiteral? && Complete(Run(p, s))
    ensures s == p.lex.rest + rest
    decreases |s|
  {
    hide Run;
    Continues(p, s);
    var w := p.lex.rest;
    if |w| == 1 {
      rest := s[1..];
    } else {
      rest := WordBehind(p.(lex := InLiteral(w[1..])), s[1..]);
    }
    assert w == [w[0]] + w[1..];
  }

  // ----- Values

  lemma {:induction false} ValueBehind(p: Parser, s: Text) returns (v: Value, rest: Text)
    requires p.Sane() && Awaiting(p) && Complete(Run(p, s))
    requires s != [] && !IsSpace(s[0]) && s[0] != 93
    ensures v.Valid() && s == v.Print() + rest && (v.Number? ==> rest != [] && Stops(rest[0]))
    decreases |s|, 0
  {
    hide Run, Next, StartValue, Inside;
    Continues(p, s);
    StartIs(p, s[0]);
    var q := StartValue(p, s[0]);
    if s[0] == 34 {
      var cs;
      cs, rest := LettersBehind(q, s[1..]);
      v := String(cs);
      assert s == [34] + (PrintChars(cs) + ([34] + rest));
    } else if s[0] == 123 {
      StartContainer(p, 123);
      v, rest := ObjectBehind(q, s[1..]);
      assert s == [123] + s[1..];
    } else if s[0] == 91 {
      StartContainer(p, 91);
      v, rest := ArrayBehind(q, s[1..]);
      assert s == [91] + s[1..];
    } else if s[0] == 45 || IsDigit(s[0]) {
      var n;
      n, rest := NumeralBehind(p, s);
      v := Number(n);
    } else {
      var w := if s[0] == 116 then True else if s[0] == 102 then False else Null;
      rest := WordBehind(q, s[1..]);
      v := Literal(w);
      assert w.Print() == [s[0]] + w.Print()[1..];
    }
  }

  lemma StartIs(p: Parser, code: nat)
    requires p.Sane() && Awaiting(p) && !IsSpace(code) && code != 93
    ensures Next(p, code) == StartValue(p, code)
    ensures var q := StartValue(p, code);
            q.Parser? ==>
              && (code in {34, 123, 91, 45, 116, 102, 110} || IsDigit(code))
              && (code == 34 ==> q.lex.InString? && q.lex.escape.Unescaped?)
              && (code == 45 || IsDigit(code) ==> p.frames.Push?)
              && (code == 116 ==> q.lex == InLiteral(True.Print()[1..]))
              && (code == 102 ==> q.lex == InLiteral(False.Print()[1..]))
              && (code == 110 ==> q.lex == InLiteral(Null.Print()[1..]))
  {}

  lemma {:induction false} ObjectBehind(q: Parser, s: Text) returns (v: Value, rest: Text)
    requires q.Sane() && q.Parser? && q.lex.Idle? && q.frames.Push? && q.Top().state == KEY_OR_END && Complete(Run(q, s))
    ensures v.Object? && v.Valid() && [123] + s == v.Print() + rest
    decreases |s|, 2
  {
    hide Run, Next;
    var blank, at := AfterBlank(q, s);
    if at[0] == 125 {
      v, rest := Object(blank, NoMember), at[1..];
      assert [123] + s == [123] + blank + [125] + rest;
    } else {
      var ms;
      ms, rest := MembersBehind(q, blank, at);
      v := Object([], ms);
      assert [123] + s == [123] + ms.Print() + [125] + rest;
    }
  }

  lemma {:induction false} ArrayBehind(q: Parser, s: Text) returns (v: Value, rest: Text)
    requires q.Sane() && q.Parser? && q.lex.Idle? && q.frames.Push? && q.Top().state == VALUE_OR_END && q.Top().role == 0
    requires Complete(Run(q, s))
    ensures v.Array? && v.Valid() && [91] + s == v.Print() + rest
    decreases |s|, 2
  {
    hide Run, Next;
    var blank, at := AfterBlank(q, s);
    if at[0] == 93 {
      v, rest := Array(blank, NoElement), at[1..];
      assert [91] + s == [91] + blank + [93] + rest;
    } else {
      var es;
      es, rest := ElementsBehind(q, blank, at);
      v := Array([], es);
      assert [91] + s == [91] + es.Print() + [93] + rest;
    }
  }

  lemma {:induction false} ElementsBehind(p: Parser, before: Text, s: Text) returns (es: Elements, rest: Text)
    requires p.Sane() && p.Parser? && p.lex.Idle? && p.frames.Push? && p.Top().role == 0 && Blank(before)
    requires p.Top().state == VALUE_OR_END || p.Top().state == ARRAY_VALUE
    requires s != [] && !IsSpace(s[0]) && s[0] != 93 && Complete(Run(p, s))
    ensures es.Element? && es.Valid() && before + s == es.Print() + ([93] + rest)
    decreases |s|, 1
  {
    hide Run, Next, After, Walk;
    var v, more := ValueBehind(p, s);
    ValueRun(p, v, more);
    var q := After(p, v.Count(Base(p)), v.Depth(), Walk(RoleOf(p), v, p.seen));
    Alive(q, more);
    var after, at := AfterBlank(q, more);
    CommaIs(q, at[0]);
    if at[0] == 93 {
      es, rest := Element(before, v, after, NoElement), at[1..];
      assert before + s == before + (v.Print() + (after + [])) + ([93] + rest);
    } else {
      var r := q.SetTop(q.Top().(state := ARRAY_VALUE));
      var blank, at' := AfterBlank(r, at[1..]);
      NotClosing(r, at'[0]);
      var next;
      next, rest := ElementsBehind(r, blank, at');
      es := Element(before, v, after, next);
      assert at == [44] + (next.Print() + ([93] + rest));
      assert before + s == before + (v.Print() + (after + ([44] + next.Print()))) + ([93] + rest);
    }
  }

  lemma CommaIs(q: Parser, code: nat)
    requires q.Sane() && InComma(q) && q.lex.Idle? && !IsSpace(code) && Next(q, code).Parser?
    ensures code == 44 || code == (if q.Top().state == OBJECT_COMMA then 125 else 93)
    ensures code == 44 ==>
              Next(q, code) == q.SetTop(q.Top().(state := if q.Top().state == OBJECT_COMMA then KEY else ARRAY_VALUE))
  {}

  lemma NotClosing(r: Parser, code: nat)
    requires r.Sane() && r.Parser? && r.lex.Idle? && r.frames.Push? && Next(r, code).Parser?
    ensures r.Top().state == ARRAY_VALUE || r.Top().state == OBJECT_VALUE ==> code != 93
    ensures r.Top().state == KEY ==> code != 125
  {}

  lemma {:induction false} MembersBehind(p: Parser, before: Text, s: Text) returns (ms: Members, rest: Text)
    requires p.Sane() && p.Parser? && p.lex.Idle? && p.frames.Push? && Complete(Run(p, s)) && Blank(before)
    requires p.Top().state == KEY_OR_END || p.Top().state == KEY
    requires s != [] && !IsSpace(s[0]) && s[0] != 125
    ensures ms.Member? && ms.Valid() && before + s == ms.Print() + ([125] + rest)
    decreases |s|, 1
  {
    hide Run, Next, Keyed, PrintChars;
    var key, colon := KeyBehind(p, s);
    var q := Keyed(p, key);
    KeyedIs(p, key, colon);
    Alive(q, colon);
    KeyedTop(p, key);
    var gap, at1 := AfterBlank(q, colon);
    ColonIs(q, at1[0]);
    var r := q.SetTop(q.Top().(state := OBJECT_VALUE));
    var lead, at2 := AfterBlank(r, at1[1..]);
    NotClosing(r, at2[0]);
    var v, more := ValueBehind(r, at2);
    var after, next;
    after, next, rest := MemberTail(r, v, more, |s|);
    ms := Member(before, key, gap, lead, v, after, next);
    JoinMember(ms, before + s, s, colon, at1, at2, more, rest);
  }

  lemma KeyedIs(p: Parser, key: seq<Letter>, colon: Text)
    requires p.Sane() && p.Parser? && p.lex.Idle? && p.frames.Push? && ValidChars(key)
    requires p.Top().state == KEY_OR_END || p.Top().state == KEY
    ensures Run(p, [34] + (PrintChars(key) + ([34] + colon))) == Run(Keyed(p, key), colon)
  {
    hide Run, Next, KeyRole, MeetKey, CharUnits, PrintChars;
    KeyRun(p, key, colon);
    RunPoisoned(colon);
  }

  lemma KeyedTop(p: Parser, key: seq<Letter>)
    requires p.Sane() && p.Parser? && p.lex.Idle? && p.frames.Push? && ValidChars(key) && Keyed(p, key).Parser?
    ensures Keyed(p, key).Top().state == COLON
  {}

  lemma ColonIs(q: Parser, code: nat)
    requires q.Sane() && q.Parser? && q.lex.Idle? && q.frames.Push? && q.Top().state == COLON && !IsSpace(code)
    requires Next(q, code).Parser?
    ensures code == 58 && Next(q, code) == q.SetTop(q.Top().(state := OBJECT_VALUE))
  {}

  lemma KeyBehind(p: Parser, s: Text) returns (key: seq<Letter>, rest: Text)
    requires p.Sane() && p.Parser? && p.lex.Idle? && p.frames.Push? && Complete(Run(p, s))
    requires p.Top().state == KEY_OR_END || p.Top().state == KEY
    requires s != [] && !IsSpace(s[0]) && s[0] != 125
    ensures ValidChars(key) && s == [34] + (PrintChars(key) + ([34] + rest))
  {
    hide Run, PrintChars;
    Continues(p, s);
    var q := Next(p, s[0]);
    assert s[0] == 34 && q.lex.InString? && q.lex.escape.Unescaped?;
    key, rest := LettersBehind(q, s[1..]);
  }

  /** What follows a member's value: blanks, then the close or a comma and the other members. */
  lemma {:induction false} MemberTail(r: Parser, v: Value, more: Text, bound: nat)
    returns (after: Text, next: Members, rest: Text)
    requires r.Sane() && Awaiting(r) && r.frames.Push? && r.Top().state == OBJECT_VALUE && v.Valid()
    requires v.Number? ==> more != [] && Stops(more[0])
    requires Complete(Run(r, v.Print() + more)) && |more| < bound
    ensures Blank(after) && next.Valid()
    ensures more == after + ((if next.NoMember? then [] else [44] + next.Print()) + ([125] + rest))
    decreases bound, 0
  {
    hide Run, Next, After, Walk;
    ValueRun(r, v, more);
    var d := After(r, v.Count(Base(r)), v.Depth(), Walk(RoleOf(r), v, r.seen));
    Alive(d, more);
    var end;
    after, end := AfterBlank(d, more);
    CommaIs(d, end[0]);
    if end[0] == 125 {
      next, rest := NoMember, end[1..];
      assert more == after + ([] + ([125] + rest));
    } else {
      var e := d.SetTop(d.Top().(state := KEY));
      var blank, at := AfterBlank(e, end[1..]);
      NotClosing(e, at[0]);
      next, rest := MembersBehind(e, blank, at);
      assert end == [44] + next.Print() + ([125] + rest);
    }
  }

  lemma JoinMember(ms: Members, s: Text, at: Text, colon: Text, at1: Text, at2: Text, more: Text, rest: Text)
    requires ms.Member?
    requires s == ms.before + at && at == [34] + (PrintChars(ms.key) + ([34] + colon))
    requires colon == ms.gap + at1 && at1 != [] && at1[0] == 58 && at1[1..] == ms.lead + at2 && at2 == ms.value.Print() + more
    requires more == ms.after + ((if ms.next.NoMember? then [] else [44] + ms.next.Print()) + ([125] + rest))
    ensures s == ms.Print() + ([125] + rest)
  {
    hide PrintChars;
    MemberText(ms, [125] + rest);
    assert at1 == [58] + (ms.lead + at2);
  }

  // ----- Documents

  lemma DocumentBehind(s: Text) returns (d: Document)
    requires Complete(Run(START, s))
    ensures d.Valid() && d.root.Object? && s == d.Print()
  {
    hide Run, Next, After, Walk;
    assert START.Sane();
    var before, at := AfterBlank(START, s);
    RootIs(at[0]);
    var v, more := ValueBehind(START, at);
    ValueRun(START, v, more);
    var q := After(START, v.Count(Base(START)), v.Depth(), Walk(RoleOf(START), v, START.seen));
    Alive(q, more);
    assert Walk(3, v, START.seen).Some?;
    var after, none := TakeBlank(more);
    RunBlank(q, after, none);
    NothingAfter(q, none);
    d := Document(before, v, after);
  }

  lemma RootIs(code: nat)
    requires START.Sane() && !IsSpace(code) && Next(START, code).Parser?
    ensures code == 123
  {}

  lemma NothingAfter(q: Parser, s: Text)
    requires q.Sane() && q.Parser? && q.lex.Idle? && q.frames.Empty? && q.started && Complete(Run(q, s))
    requires s != [] ==> !IsSpace(s[0])
    ensures s == []
  {
    if s != [] {
      Alive(Next(q, s[0]), s[1..]);
    }
  }
}
