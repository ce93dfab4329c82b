/**
 What the account machine does on the text of any tree.

 `ValueRun` is the main result: run on `v.Print()`, from any state that awaits a value, the machine ends in a
 state described from the tree alone (its tally, its depth and the fields seen), and it is poisoned exactly
 when the tree does not fit in what is left of the limits or a kept field is ill-typed or repeated.
 */
module AccountForward {
  import opened Basics
  import opened JsonText
  import opened AccountMachine

  // ----- The tree side

  function KeyRole(scope: nat, key: seq<Letter>): nat
    requires ValidChars(key)
  {
    if scope == 1 && CharUnits(key) == ENDPOINTS then 1
    else if scope == 2 && CharUnits(key) == API then 2
    else 0
  }

  /** A key may be met once per kept role. */
  function MeetKey(role: nat, seen: Seen): Option<Seen> {
    if role == 1 then (if seen.endpoints then None else Some(seen.(endpoints := true)))
    else if role == 2 then (if seen.api then None else Some(seen.(api := true)))
    else Some(seen)
  }

  /** What the kept fields of a value with this role add to `seen`; None when it has the wrong type. */
  function Walk(role: nat, v: Value, seen: Seen): (walked: Option<Seen>)
    requires v.Valid() && |seen.url| <= URL_UNITS
    ensures walked.Some? ==> |walked.value.url| <= URL_UNITS
    decreases v
  {
    if role == 3 || role == 1 then
      if v.Object? then WalkMembers(if role == 3 then 1 else 2, v.members, seen) else None
    else if v.String? then WalkString(role, CharUnits(v.chars), seen)
    else if v.Literal? then WalkWord(role, v.word, seen)
    else if role == 2 then None
    else Some(seen)
  }

  function WalkString(role: nat, us: Text, seen: Seen): (walked: Option<Seen>)
    requires |seen.url| <= URL_UNITS
    ensures walked.Some? ==> |walked.value.url| <= URL_UNITS
  {
    if role == 1 || role == 3 then None
    else if role != 2 then Some(seen)
    else if |seen.url| + |us| <= URL_UNITS then Some(seen.(url := seen.url + us))
    else None
  }

  function WalkWord(role: nat, w: Word, seen: Seen): (walked: Option<Seen>)
    ensures walked.Some? ==> walked.value.url == seen.url
  {
    if role == 1 || role == 3 then None
    else if role != 2 then Some(seen)
    else if w == Null then Some(seen.(isNull := true))
    else None
  }

  function WalkMembers(scope: nat, ms: Members, seen: Seen): (walked: Option<Seen>)
    requires ms.Valid() && |seen.url| <= URL_UNITS
    ensures walked.Some? ==> |walked.value.url| <= URL_UNITS
    decreases ms
  {
    if ms.NoMember? || (scope != 1 && scope != 2) then Some(seen)
    else
      var role := KeyRole(scope, ms.key);
      var met := MeetKey(role, seen);
      if met.None? then None
      else
        var walked := Walk(role, ms.value, met.value);
        if walked.None? then None else WalkMembers(scope, ms.next, walked.value)
  }

  // ----- The machine side

  /** `t` is the tally there will be, and `depth` the number of frames still to be opened at once. */
  predicate Fits(p: Parser, t: Tally, depth: nat)
    requires p.Parser?
  {
    Within(t) && p.depth + depth <= DEPTH
  }

  predicate Awaiting(p: Parser) {
    && p.Parser? && p.lex.Idle?
    && (p.frames.Empty? ==> !p.started)
    && (p.frames.Push? ==> p.Top().state == OBJECT_VALUE || p.Top().state == ARRAY_VALUE || p.Top().state == VALUE_OR_END)
  }

  /** The frames once the awaited value has been read. */
  function Passed(frames: Stack): Stack {
    match frames
    case Empty => Empty
    case Push(f, below) =>
      Push(f.(state := if f.state == VALUE_OR_END || f.state == ARRAY_VALUE then ARRAY_COMMA else OBJECT_COMMA), below)
  }

  /** The tally before the awaited value, with its array entry already counted. */
  function Base(p: Parser): Tally
    requires p.Parser?
  {
    if AwaitsEntry(p) then p.count.Entry() else p.count
  }

  /** The state after a value with this tally that left `seen`. */
  function After(p: Parser, t: Tally, depth: nat, seen: Option<Seen>): (q: Parser)
    requires p.Sane() && p.Parser? && (seen.Some? ==> |seen.value.url| <= URL_UNITS)
    ensures q.Sane() && (q.Parser? ==> q.lex.Idle? && q.started && q.frames == Passed(p.frames))
    ensures q.Parser? <==> Fits(p, t, depth) && seen.Some?
  {
    if Fits(p, t, depth) && seen.Some? then
      var q := Parser(p.depth, Passed(p.frames), Idle, true, t, seen.value);
      assert q.Sane();
      q
    else Poisoned
  }

  predicate Stops(c: nat) {
    IsSpace(c) || c == 44 || c == 93 || c == 125
  }

  // ----- Strings

  function PushUnits(p: Parser, us: Text): (q: Parser)
    requires p.Sane() && p.Parser? && p.lex.InString?
    ensures q.Sane()
    decreases |us|
  {
    if us == [] then p
    else
      var q := Unit(p, us[0]);
      if q.Poisoned? then q else PushUnits(q, us[1..])
  }

  lemma {:induction false} PushConcat(p: Parser, a: Text, b: Text)
    requires p.Sane() && p.Parser? && p.lex.InString?
    ensures var q := PushUnits(p, a);
            PushUnits(p, a + b) == if q.Parser? && q.lex.InString? then PushUnits(q, b) else Poisoned
    decreases |a|
  {
    if a == [] {
      assert a + b == b;
    } else {
      assert (a + b)[1..] == a[1..] + b;
      var q := Unit(p, a[0]);
      if q.Parser? { PushConcat(q, a[1..], b); }
    }
  }

  // Single steps, each stated as a fact about runs so that callers need not look inside `Next`.

  lemma RawStep(p: Parser, code: nat, rest: Text)
    requires p.Sane() && p.Parser? && p.lex.InString? && p.lex.escape.Unescaped? && Raw(code).Valid()
    ensures Run(p, [code] + rest) == Run(PushUnits(p, ScalarUnits(code)), rest)
  {
    hide Run;
    RunCons(p, code, rest);
    var us := ScalarUnits(code);
    assert us[1..] == if code > 0xffff then [us[1]] else [];
    assert PushUnits(p, us) == StringChar(p, code) by {
      var q := Unit(p, us[0]);
      if code > 0xffff && q.Parser? {
        assert PushUnits(q, [us[1]]) == Unit(q, us[1]);
      }
    }
  }

  lemma EscapeStep(p: Parser, rest: Text)
    requires p.Sane() && p.Parser? && p.lex.InString? && p.lex.escape.Unescaped?
    ensures Run(p, [92] + rest) == Run(p.(lex := p.lex.(escape := Backslash)), rest)
  {
    hide Run;
    RunCons(p, 92, rest);
  }

  lemma ShortStep(p: Parser, m: nat, rest: Text)
    requires p.Sane() && p.Parser? && p.lex.InString? && p.lex.escape.Backslash? && ShortEscape(m) >= 0
    ensures Run(p, [m] + rest) == Run(PushUnits(p.(lex := p.lex.(escape := Unescaped)), [ShortEscape(m)]), rest)
  {
    hide Run;
    RunCons(p, m, rest);
  }

  lemma HexStart(p: Parser, rest: Text)
    requires p.Sane() && p.Parser? && p.lex.InString? && p.lex.escape.Backslash?
    ensures Run(p, [117] + rest) == Run(p.(lex := p.lex.(escape := HexDigits(0, 4))), rest)
  {
    hide Run;
    RunCons(p, 117, rest);
  }

  lemma HexStep(p: Parser, c: nat, rest: Text)
    requires p.Sane() && p.Parser? && p.lex.InString? && p.lex.escape.HexDigits? && p.lex.escape.left > 1 && HexDigit(c) >= 0
    ensures Run(p, [c] + rest) ==
            Run(p.(lex := p.lex.(escape := HexDigits(p.lex.escape.value * 16 + HexDigit(c), p.lex.escape.left - 1))), rest)
  {
    hide Run;
    RunCons(p, c, rest);
  }

  lemma HexLast(p: Parser, c: nat, rest: Text)
    requires p.Sane() && p.Parser? && p.lex.InString? && p.lex.escape.HexDigits? && p.lex.escape.left == 1 && HexDigit(c) >= 0
    ensures Run(p, [c] + rest) ==
            Run(PushUnits(p.(lex := p.lex.(escape := Unescaped)), [p.lex.escape.value * 16 + HexDigit(c)]), rest)
  {
    hide Run;
    RunCons(p, c, rest);
  }

  lemma CloseQuote(p: Parser, rest: Text)
    requires p.Sane() && p.Parser? && p.lex.InString? && p.lex.escape.Unescaped?
    ensures Run(p, [34] + rest) == Run(EndString(p), rest)
  {
    hide Run;
    RunCons(p, 34, rest);
  }

  lemma OpenKey(p: Parser, rest: Text)
    requires p.Sane() && p.Parser? && p.lex.Idle? && p.frames.Push?
    requires p.Top().state == KEY_OR_END || p.Top().state == KEY
    ensures Run(p, [34] + rest) ==
            if p.count.members + 1 > MEMBERS then Poisoned else Run(StartString(p.(count := p.count.Member()), true, false), rest)
  {
    hide Run;
    RunCons(p, 34, rest);
    RunPoisoned(rest);
  }

  lemma StartStep(p: Parser, code: nat, rest: Text)
    requires p.Sane() && Awaiting(p) && !IsSpace(code) && code != 93
    ensures Run(p, [code] + rest) == Run(StartValue(p, code), rest)
  {
    hide Run;
    RunCons(p, code, rest);
  }

  lemma OneLetter(p: Parser, c: Letter, rest: Text)
    requires p.Sane() && p.Parser? && p.lex.InString? && p.lex.escape.Unescaped? && c.Valid()
    ensures Run(p, c.Print() + rest) == Run(PushUnits(p, c.Units()), rest)
  {
    hide Run, Next, PushUnits;
    match c
    case Raw(code) =>
      RawStep(p, code, rest);
    case Short(m) =>
      var back := p.(lex := p.lex.(escape := Backslash));
      assert c.Print() + rest == [92] + ([m] + rest);
      EscapeStep(p, [m] + rest);
      ShortStep(back, m, rest);
      assert back.(lex := back.lex.(escape := Unescaped)) == p;
    case Hex(h0, h1, h2, h3) =>
      HexRun(p, h0, h1, h2, h3, rest);
  }

  lemma HexRun(p: Parser, h0: nat, h1: nat, h2: nat, h3: nat, rest: Text)
    requires p.Sane() && p.Parser? && p.lex.InString? && p.lex.escape.Unescaped? && Hex(h0, h1, h2, h3).Valid()
    ensures Run(p, Hex(h0, h1, h2, h3).Print() + rest) == Run(PushUnits(p, Hex(h0, h1, h2, h3).Units()), rest)
  {
    hide Run, Next, PushUnits, HexDigit;
    var t3 := [h3] + rest;
    var t2 := [h2] + t3;
    var t1 := [h1] + t2;
    var t0 := [h0] + t1;
    assert Hex(h0, h1, h2, h3).Print() + rest == [92] + ([117] + t0);
    EscapeStep(p, [117] + t0);
    HexStart(p.(lex := p.lex.(escape := Backslash)), t0);
    var v1 := HexDigit(h0);
    var v2 := v1 * 16 + HexDigit(h1);
    var v3 := v2 * 16 + HexDigit(h2);
    HexStep(p.(lex := p.lex.(escape := HexDigits(0, 4))), h0, t1);
    HexStep(p.(lex := p.lex.(escape := HexDigits(v1, 3))), h1, t2);
    HexStep(p.(lex := p.lex.(escape := HexDigits(v2, 2))), h2, t3);
    HexLast(p.(lex := p.lex.(escape := HexDigits(v3, 1))), h3, rest);
    assert p.(lex := p.lex.(escape := Unescaped)) == p;
  }

  lemma {:induction false} CharsRun(p: Parser, cs: seq<Letter>, rest: Text)
    requires p.Sane() && p.Parser? && p.lex.InString? && p.lex.escape.Unescaped? && ValidChars(cs)
    ensures Run(p, PrintChars(cs) + rest) == Run(PushUnits(p, CharUnits(cs)), rest)
    decreases |cs|
  {
    hide Run, Next;
    if cs == [] {
      assert PrintChars(cs) + rest == rest;
    } else {
      var c, tail := cs[0], cs[1..];
      assert PrintChars(cs) + rest == c.Print() + (PrintChars(tail) + rest);
      OneLetter(p, c, PrintChars(tail) + rest);
      PushConcat(p, c.Units(), CharUnits(tail));
      var q := PushUnits(p, c.Units());
      PushKeeps(p, c.Units());
      if q.Parser? {
        CharsRun(q, tail, rest);
      } else {
        RunPoisoned(PrintChars(tail) + rest);
        RunPoisoned(rest);
      }
    }
  }

  lemma {:induction false} PushKeeps(p: Parser, us: Text)
    requires p.Sane() && p.Parser? && p.lex.InString?
    ensures var q := PushUnits(p, us);
            q.Parser? ==> q.lex.InString? && q.lex.escape == p.lex.escape && q.lex.isKey == p.lex.isKey && q.frames == p.frames
    decreases |us|
  {
    if us != [] {
      var q := Unit(p, us[0]);
      if q.Parser? { PushKeeps(q, us[1..]); }
    }
  }

  /** A string value: ignored, or kept in the URL buffer. */
  lemma {:induction false} PushValue(p: Parser, us: Text)
    requires p.Sane() && p.Parser? && p.lex.InString? && !p.lex.isKey
    ensures PushUnits(p, us) ==
            if p.count.units + |us| <= WIRE && (p.lex.capture ==> |p.seen.url| + |us| <= URL_UNITS)
            then p.(count := p.count.Units(|us|), seen := if p.lex.capture then p.seen.(url := p.seen.url + us) else p.seen)
            else Poisoned
    decreases |us|
  {
    if us == [] {
      assert p.seen.url + us == p.seen.url;
    } else {
      var q := Unit(p, us[0]);
      if q.Parser? {
        PushValue(q, us[1..]);
        assert (p.seen.url + [us[0]]) + us[1..] == p.seen.url + us;
      }
    }
  }

  /** A key is compared with its target unit by unit; `done` is what has been compared. */
  lemma {:induction false} PushKey(p: Parser, done: Text, us: Text)
    requires p.Sane() && p.Parser? && p.lex.InString? && p.lex.isKey
    requires p.lex.length == |done| && p.lex.matches == (done <= p.lex.target)
    ensures PushUnits(p, us) ==
            if p.count.units + |us| <= WIRE
            then p.(count := p.count.Units(|us|),
                    lex := p.lex.(length := |done + us|, matches := done + us <= p.lex.target))
            else Poisoned
    decreases |us|
  {
    if us == [] {
      assert done + us == done;
    } else {
      var q := Unit(p, us[0]);
      if q.Parser? {
        var more := done + [us[0]];
        assert q.lex.matches == (more <= p.lex.target);
        PushKey(q, more, us[1..]);
        assert more + us[1..] == done + us;
      }
    }
  }

  /** A whole key, from the state `OPEN QUOTE` leaves to the state its closing quote leaves. */
  lemma KeyRun(p: Parser, key: seq<Letter>, rest: Text)
    requires p.Sane() && p.Parser? && p.lex.Idle? && p.frames.Push? && ValidChars(key)
    requires p.Top().state == KEY_OR_END || p.Top().state == KEY
    ensures var role := KeyRole(p.Top().scope, key);
            var met := MeetKey(role, p.seen);
            Run(p, [34] + (PrintChars(key) + ([34] + rest))) ==
            if p.count.members + 1 <= MEMBERS && p.count.units + |CharUnits(key)| <= WIRE && met.Some?
            then Run(p.(count := p.count.Member().Units(|CharUnits(key)|), seen := met.value)
                      .SetTop(Frame(COLON, p.Top().scope, role)), rest)
            else Poisoned
  {
    hide Run, Next, PushUnits, EndString, PrintChars, CharUnits, KeyRole, MeetKey, KeyTarget;
    var us := CharUnits(key);
    var scope := p.Top().scope;
    OpenKey(p, PrintChars(key) + ([34] + rest));
    if p.count.members + 1 <= MEMBERS {
      var q := StartString(p.(count := p.count.Member()), true, false);
      CharsRun(q, key, [34] + rest);
      PushKey(q, [], us);
      assert [] + us == us;
      if p.count.units + |us| > WIRE {
        RunPoisoned([34] + rest);
      } else {
        var r := q.(count := q.count.Units(|us|), lex := q.lex.(length := |us|, matches := us <= q.lex.target));
        CloseQuote(r, rest);
        KeyEnd(p, key, r);
        RunPoisoned(rest);
      }
    }
  }

  lemma KeyEnd(p: Parser, key: seq<Letter>, r: Parser)
    requires p.Sane() && p.Parser? && p.lex.Idle? && p.frames.Push? && ValidChars(key) && p.count.members + 1 <= MEMBERS
    requires r.Sane() && r.Parser? && r.lex.InString? && r.lex.isKey && r.lex.target == KeyTarget(p.Top().scope)
    requires r.lex.length == |CharUnits(key)| && r.lex.matches == (CharUnits(key) <= r.lex.target)
    requires r.(lex := Idle) == p.(count := p.count.Member().Units(|CharUnits(key)|))
    ensures var role := KeyRole(p.Top().scope, key);
            var met := MeetKey(role, p.seen);
            EndString(r) ==
            if met.Some?
            then p.(count := p.count.Member().Units(|CharUnits(key)|), seen := met.value)
                  .SetTop(Frame(COLON, p.Top().scope, role))
            else Poisoned
  {
    assert (r.lex.matches && r.lex.length == |r.lex.target|) == (CharUnits(key) == r.lex.target);
  }

  // ----- Numerals

  predicate Finished(state: nat) {
    state == ZERO || state == INTEGER || state == FRACTION || state == EXP_DIGITS
  }

  lemma EndNumber(p: Parser, rest: Text)
    requires p.Sane() && p.Parser? && p.lex.InNumber? && Finished(p.lex.state) && rest != [] && Stops(rest[0])
    ensures Run(p, rest) == Run(p.(lex := Idle), rest)
  {}

  lemma {:induction false} DigitsRun(p: Parser, ds: Text, rest: Text)
    requires p.Sane() && p.Parser? && Digits(ds)
    requires p.lex == InNumber(INTEGER) || p.lex == InNumber(FRACTION) || p.lex == InNumber(EXP_DIGITS)
    ensures Run(p, ds + rest) == Run(p, rest)
    decreases |ds|
  {
    if ds == [] {
      assert ds + rest == rest;
    } else {
      assert (ds + rest)[1..] == ds[1..] + rest;
      DigitsRun(p, ds[1..], rest);
    }
  }

  lemma TailRun(p: Parser, n: Numeral, rest: Text)
    requires p.Sane() && p.Parser? && n.Valid() && rest != [] && Stops(rest[0])
    requires p.lex == InNumber(ZERO) || p.lex == InNumber(INTEGER)
    ensures Run(p, n.Tail() + rest) == Run(p.(lex := Idle), rest)
  {
    hide Run;
    if n.fraction == [] {
      assert n.Tail() + rest == n.mark + n.power + rest;
      PowerRun(p, n, rest);
    } else {
      var after := n.mark + n.power + rest;
      assert n.Tail() + rest == [46] + ([n.fraction[0]] + (n.fraction[1..] + after));
      RunCons(p, 46, [n.fraction[0]] + (n.fraction[1..] + after));
      var q := p.(lex := InNumber(FRACTION));
      RunCons(p.(lex := InNumber(DOT)), n.fraction[0], n.fraction[1..] + after);
      DigitsRun(q, n.fraction[1..], after);
      PowerRun(q, n, rest);
    }
  }

  lemma PowerRun(p: Parser, n: Numeral, rest: Text)
    requires p.Sane() && p.Parser? && n.Valid() && rest != [] && Stops(rest[0])
    requires p.lex == InNumber(ZERO) || p.lex == InNumber(INTEGER) || p.lex == InNumber(FRACTION)
    ensures Run(p, n.mark + n.power + rest) == Run(p.(lex := Idle), rest)
  {
    hide Run, Next;
    if n.mark == [] {
      assert n.mark + n.power + rest == rest;
      EndNumber(p, rest);
    } else {
      var q := p.(lex := InNumber(EXP_DIGITS));
      var e := p.(lex := InNumber(if |n.mark| == 1 then EXPONENT else EXP_SIGN));
      assert n.mark + n.power + rest == n.mark + ([n.power[0]] + (n.power[1..] + rest));
      MarkRun(p, n.mark, [n.power[0]] + (n.power[1..] + rest));
      RunCons(e, n.power[0], n.power[1..] + rest);
      PowerDigit(e, n.power[0]);
      DigitsRun(q, n.power[1..], rest);
      EndNumber(q, rest);
    }
  }

  lemma PowerDigit(e: Parser, c: nat)
    requires e.Sane() && e.Parser? && (e.lex == InNumber(EXPONENT) || e.lex == InNumber(EXP_SIGN)) && IsDigit(c)
    ensures Next(e, c) == e.(lex := InNumber(EXP_DIGITS)) && Next(e, c).Sane()
  {}

  /** The mark of an exponent: one letter, perhaps with a sign. */
  lemma MarkRun(p: Parser, mark: Text, s: Text)
    requires p.Sane() && p.Parser? && ValidMark(mark)
    requires p.lex == InNumber(ZERO) || p.lex == InNumber(INTEGER) || p.lex == InNumber(FRACTION)
    ensures var e := p.(lex := InNumber(if |mark| == 1 then EXPONENT else EXP_SIGN));
            e.Sane() && Run(p, mark + s) == Run(e, s)
  {
    hide Run;
    var e := p.(lex := InNumber(EXPONENT));
    assert mark + s == [mark[0]] + (mark[1..] + s);
    RunCons(p, mark[0], mark[1..] + s);
    assert Next(p, mark[0]) == e;
    if |mark| == 1 {
      assert mark[1..] + s == s;
    } else {
      assert mark[1..] + s == [mark[1]] + s;
      RunCons(e, mark[1], s);
    }
  }

  lemma NumberRun(p: Parser, n: Numeral, rest: Text)
    requires p.Sane() && Awaiting(p) && RoleOf(p) !in {1, 2, 3} && n.Valid() && rest != [] && Stops(rest[0])
    ensures Run(p, n.Print() + rest) == Run(After(p, Base(p).Value(), 0, Some(p.seen)), rest)
  {
    hide Run, Next, StartValue, After, Base;
    var first := if n.minus then 45 else n.whole[0];
    var more := (if n.minus then n.whole else n.whole[1..]) + (n.Tail() + rest);
    assert n.Print() + rest == [first] + more;
    StartStep(p, first, more);
    NumberStart(p, first);
    var t := Base(p).Value();
    if !Fits(p, t, 0) {
      RunPoisoned(more);
      RunPoisoned(rest);
    } else {
      var done := After(p, t, 0, Some(p.seen));
      if n.minus {
        var q := done.(lex := InNumber(SIGN));
        var more' := n.whole[1..] + (n.Tail() + rest);
        assert more == [n.whole[0]] + more';
        FirstDigit(q, n.whole[0], more');
        WholeRun(q.(lex := InNumber(if n.whole[0] == 48 then ZERO else INTEGER)), n, rest);
      } else {
        WholeRun(done.(lex := InNumber(if first == 48 then ZERO else INTEGER)), n, rest);
      }
      assert done.lex == Idle;
    }
  }

  lemma FirstDigit(q: Parser, c: nat, rest: Text)
    requires q.Sane() && q.Parser? && q.lex == InNumber(SIGN) && IsDigit(c)
    ensures Run(q, [c] + rest) == Run(q.(lex := InNumber(if c == 48 then ZERO else INTEGER)), rest)
  {
    hide Run;
    RunCons(q, c, rest);
  }

  lemma NumberStart(p: Parser, first: nat)
    requires p.Sane() && Awaiting(p) && RoleOf(p) !in {1, 2, 3} && (first == 45 || IsDigit(first))
    ensures var t := Base(p).Value();
            StartValue(p, first) ==
            if Fits(p, t, 0)
            then After(p, t, 0, Some(p.seen)).(lex := InNumber(if first == 45 then SIGN else if first == 48 then ZERO else INTEGER))
            else Poisoned
  {}

  lemma WholeRun(q: Parser, n: Numeral, rest: Text)
    requires q.Sane() && q.Parser? && n.Valid() && rest != [] && Stops(rest[0])
    requires q.lex == InNumber(if n.whole[0] == 48 then ZERO else INTEGER)
    ensures Run(q, n.whole[1..] + (n.Tail() + rest)) == Run(q.(lex := Idle), rest)
  {
    hide Run;
    if n.whole[0] == 48 {
      assert n.whole[1..] + (n.Tail() + rest) == n.Tail() + rest;
    } else {
      DigitsRun(q, n.whole[1..], n.Tail() + rest);
    }
    TailRun(q, n, rest);
  }

  // ----- Words and strings

  lemma {:induction false} LetterRun(p: Parser, rest: Text)
    requires p.Sane() && p.Parser? && p.lex.InLiteral?
    ensures Run(p, p.lex.rest + rest) == Run(p.(lex := Idle), rest)
    decreases if p.lex.InLiteral? then |p.lex.rest| else 0
  {
    var s := p.lex.rest;
    assert (s + rest)[1..] == s[1..] + rest;
    if |s| == 1 {
      assert s[1..] + rest == rest;
    } else {
      LetterRun(p.(lex := InLiteral(s[1..])), rest);
    }
  }

  lemma WordRun(p: Parser, w: Word, rest: Text)
    requires p.Sane() && Awaiting(p)
    ensures Run(p, w.Print() + rest) ==
            Run(After(p, Base(p).Value(), 0, WalkWord(RoleOf(p), w, p.seen)), rest)
  {
    hide Run, Next, StartValue, After, Base, WalkWord;
    var s := w.Print();
    assert s + rest == [s[0]] + (s[1..] + rest);
    StartStep(p, s[0], s[1..] + rest);
    WordStart(p, w);
    var done := After(p, Base(p).Value(), 0, WalkWord(RoleOf(p), w, p.seen));
    if done.Poisoned? {
      RunPoisoned(s[1..] + rest);
      RunPoisoned(rest);
    } else {
      LetterRun(done.(lex := InLiteral(s[1..])), rest);
    }
  }

  lemma WordStart(p: Parser, w: Word)
    requires p.Sane() && Awaiting(p)
    ensures var done := After(p, Base(p).Value(), 0, WalkWord(RoleOf(p), w, p.seen));
            StartValue(p, w.Print()[0]) == if done.Poisoned? then Poisoned else done.(lex := InLiteral(w.Print()[1..]))
  {}

  lemma StringRun(p: Parser, cs: seq<Letter>, rest: Text)
    requires p.Sane() && Awaiting(p) && ValidChars(cs)
    ensures Run(p, String(cs).Print() + rest) ==
            Run(After(p, Base(p).Value().Units(|CharUnits(cs)|), 0, WalkString(RoleOf(p), CharUnits(cs), p.seen)), rest)
  {
    hide Run, Next, StartValue, PushUnits, After, PrintChars, CharUnits;
    var s := PrintChars(cs) + ([34] + rest);
    assert String(cs).Print() + rest == [34] + s;
    StartStep(p, 34, s);
    RunPoisoned(s);
    RunPoisoned(rest);
    RunPoisoned([34] + rest);
    var us := CharUnits(cs);
    StringStart(p, us);
    var q := StartValue(p, 34);
    if q.Parser? {
      CharsRun(q, cs, [34] + rest);
      PushValue(q, us);
      var r := PushUnits(q, us);
      if r.Parser? {
        CloseQuote(r, rest);
      }
    }
  }

  lemma StringStart(p: Parser, us: Text)
    requires p.Sane() && Awaiting(p)
    ensures var done := After(p, Base(p).Value().Units(|us|), 0, WalkString(RoleOf(p), us, p.seen));
            var q := StartValue(p, 34);
            if q.Poisoned? then done.Poisoned?
            else
              && q.lex.InString? && !q.lex.isKey && q.lex.escape.Unescaped?
              && done == if q.count.units + |us| <= WIRE && (q.lex.capture ==> |q.seen.url| + |us| <= URL_UNITS)
                         then q.(lex := Idle, count := q.count.Units(|us|),
                                 seen := if q.lex.capture then q.seen.(url := q.seen.url + us) else q.seen)
                         else Poisoned
  {}

  // ----- Containers

  predicate Opens(role: nat, code: nat) {
    role != 2 && (role == 1 || role == 3 ==> code == 123)
  }

  function OpenTally(p: Parser): Tally
    requires p.Parser?
  {
    Base(p).Value().Container()
  }

  /** The state a container's opening character leaves. */
  function Inside(p: Parser, code: nat): (q: Parser)
    requires p.Sane() && p.Parser?
    ensures q.Sane()
    ensures q.Parser? <==> Opens(RoleOf(p), code) && Fits(p, OpenTally(p), 1)
    ensures q.Parser? ==> q.lex.Idle? && q.seen == p.seen && q.count == OpenTally(p)
    ensures q.Parser? ==> q.depth == p.depth + 1 && q.frames == Push(Opened(RoleOf(p), code), Passed(p.frames))
  {
    if Opens(RoleOf(p), code) && Fits(p, OpenTally(p), 1) then
      var q := Parser(p.depth + 1, Push(Opened(RoleOf(p), code), Passed(p.frames)), Idle, true, OpenTally(p), p.seen);
      assert q.Sane();
      q
    else Poisoned
  }

  /** The state a container's closing character leaves, when its contents had this tally, depth and fields. */
  function Outside(p: Parser, t: Tally, depth: nat, seen: Option<Seen>): (q: Parser)
    requires p.Sane() && p.Parser? && p.frames.Push? && (seen.Some? ==> |seen.value.url| <= URL_UNITS)
    ensures q.Sane()
  {
    if Fits(p, t, depth) && seen.Some? then
      var q := Parser(p.depth - 1, p.frames.below, Idle, true, t, seen.value);
      assert q.Sane();
      q
    else Poisoned
  }

  lemma StartContainer(p: Parser, code: nat)
    requires p.Sane() && Awaiting(p) && (code == 123 || code == 91)
    ensures StartValue(p, code) == Inside(p, code)
  {}

  lemma CloseStep(p: Parser, code: nat, rest: Text)
    requires p.Sane() && p.Parser? && p.lex.Idle? && p.frames.Push?
    requires code == 125 ==> p.Top().state == KEY_OR_END || p.Top().state == OBJECT_COMMA
    requires code == 93 ==> p.Top().state == VALUE_OR_END || p.Top().state == ARRAY_COMMA
    requires code == 125 || code == 93
    ensures Run(p, [code] + rest) == Run(p.Pop(), rest)
  {
    hide Run;
    RunCons(p, code, rest);
  }

  lemma CommaStep(p: Parser, rest: Text)
    requires p.Sane() && p.Parser? && p.lex.Idle? && p.frames.Push?
    requires p.Top().state == OBJECT_COMMA || p.Top().state == ARRAY_COMMA
    ensures Run(p, [44] + rest) ==
            Run(p.SetTop(p.Top().(state := if p.Top().state == OBJECT_COMMA then KEY else ARRAY_VALUE)), rest)
  {
    hide Run;
    RunCons(p, 44, rest);
  }

  lemma ColonStep(p: Parser, rest: Text)
    requires p.Sane() && p.Parser? && p.lex.Idle? && p.frames.Push? && p.Top().state == COLON
    ensures Run(p, [58] + rest) == Run(p.SetTop(p.Top().(state := OBJECT_VALUE)), rest)
  {
    hide Run;
    RunCons(p, 58, rest);
  }

  /** From an open bracket to its close: the contents decide, and the surrounding state is `After`. */
  lemma AroundContainer(p: Parser, v: Value)
    requires p.Sane() && Awaiting(p) && v.Valid() && (v.Array? || v.Object?)
    ensures var q := Inside(p, if v.Object? then 123 else 91);
            var done := After(p, v.Count(Base(p)), v.Depth(), Walk(RoleOf(p), v, p.seen));
            if q.Poisoned? then done == Poisoned
            else done == Outside(q, if v.Object? then v.members.Count(q.count) else v.elements.Count(q.count),
                                 if v.Object? then v.members.Depth() else v.elements.Depth(),
                                 if v.Object? then WalkMembers(q.Top().scope, v.members, q.seen) else Some(q.seen))
  {
    if v.Object? {
      MembersGrow(v.members, OpenTally(p));
    } else {
      ElementsGrow(v.elements, OpenTally(p));
    }
  }

  lemma {:induction false} ValueRun(p: Parser, v: Value, rest: Text)
    requires p.Sane() && Awaiting(p) && v.Valid() && (v.Number? ==> rest != [] && Stops(rest[0]))
    ensures Run(p, v.Print() + rest) ==
            Run(After(p, v.Count(Base(p)), v.Depth(), Walk(RoleOf(p), v, p.seen)), rest)
    decreases v
  {
    hide Run, Next, StartValue, After, Inside, Outside, WalkMembers, Passed;
    match v
    case Literal(w) => WordRun(p, w, rest);
    case Number(n) =>
      NumberOrRefused(p, n, rest);
    case String(cs) => StringRun(p, cs, rest);
    case Array(blank, es) =>
      var inner := if es.NoElement? then blank else es.Print();
      assert v.Print() + rest == [91] + (inner + ([93] + rest));
      ContainerRun(p, v, inner, rest);
    case Object(blank, ms) =>
      var inner := if ms.NoMember? then blank else ms.Print();
      assert v.Print() + rest == [123] + (inner + ([125] + rest));
      ContainerRun(p, v, inner, rest);
  }

  lemma NumberOrRefused(p: Parser, n: Numeral, rest: Text)
    requires p.Sane() && Awaiting(p) && n.Valid() && rest != [] && Stops(rest[0])
    ensures Run(p, n.Print() + rest) ==
            Run(After(p, Base(p).Value(), 0, Walk(RoleOf(p), Number(n), p.seen)), rest)
  {
    hide Run, Next, Base, StartValue, After, Walk;
    NumberWalk(RoleOf(p), n, p.seen);
    if RoleOf(p) == 1 || RoleOf(p) == 2 || RoleOf(p) == 3 {
      var first := if n.minus then 45 else n.whole[0];
      var more := n.Print()[1..] + rest;
      assert n.Print() + rest == [first] + more;
      StartStep(p, first, more);
      RefusedNumber(p, first);
      RunPoisoned(more);
      RunPoisoned(rest);
    } else {
      NumberRun(p, n, rest);
    }
  }

  lemma NumberWalk(role: nat, n: Numeral, seen: Seen)
    requires n.Valid() && |seen.url| <= URL_UNITS
    ensures Walk(role, Number(n), seen) == if role == 1 || role == 2 || role == 3 then None else Some(seen)
  {}

  lemma RefusedNumber(p: Parser, first: nat)
    requires p.Sane() && Awaiting(p) && RoleOf(p) in {1, 2, 3} && (first == 45 || IsDigit(first))
    ensures StartValue(p, first) == Poisoned
  {}

  lemma {:induction false} ContainerRun(p: Parser, v: Value, inner: Text, rest: Text)
    requires p.Sane() && Awaiting(p) && v.Valid()
    requires v.Array? ==> inner == if v.elements.NoElement? then v.blank else v.elements.Print()
    requires v.Object? ==> inner == if v.members.NoMember? then v.blank else v.members.Print()
    requires v.Array? || v.Object?
    ensures Run(p, [if v.Object? then 123 else 91] + (inner + ([if v.Object? then 125 else 93] + rest))) ==
            Run(After(p, v.Count(Base(p)), v.Depth(), Walk(RoleOf(p), v, p.seen)), rest)
    decreases v, 0
  {
    hide Run, Next, StartValue, After, Walk, WalkMembers, Inside, Base;
    var open := if v.Object? then 123 else 91;
    var close := if v.Object? then 125 else 93;
    StartStep(p, open, inner + ([close] + rest));
    StartContainer(p, open);
    AroundContainer(p, v);
    var q := Inside(p, open);
    if q.Poisoned? {
      RunPoisoned(inner + ([close] + rest));
      RunPoisoned(rest);
    } else if v.Object? && v.members.Member? {
      MembersRun(q, v.members, rest);
    } else if v.Array? && v.elements.Element? {
      ElementsRun(q, v.elements, rest);
    } else {
      RunBlank(q, v.blank, [close] + rest);
      CloseStep(q, close, rest);
      EmptyContainer(q, v);
    }
  }

  lemma EmptyContainer(q: Parser, v: Value)
    requires q.Sane() && q.Parser? && q.frames.Push? && v.Valid() && q.lex.Idle?
    requires (v.Object? && v.members.NoMember?) || (v.Array? && v.elements.NoElement?)
    ensures Outside(q, if v.Object? then v.members.Count(q.count) else v.elements.Count(q.count),
                    if v.Object? then v.members.Depth() else v.elements.Depth(),
                    if v.Object? then WalkMembers(q.Top().scope, v.members, q.seen) else Some(q.seen)) == q.Pop()
  {}

  lemma {:induction false} ElementsRun(p: Parser, es: Elements, rest: Text)
    requires p.Sane() && p.Parser? && p.lex.Idle? && p.frames.Push? && es.Valid() && es.Element?
    requires (p.Top().state == VALUE_OR_END || p.Top().state == ARRAY_VALUE) && p.Top().role == 0
    ensures Run(p, es.Print() + ([93] + rest)) == Run(Outside(p, es.Count(p.count), es.Depth(), Some(p.seen)), rest)
    decreases es
  {
    hide Run, Next, After, Outside;
    var v, next := es.value, es.next;
    var last := if next.NoElement? then [] else [44] + next.Print();
    var tail := es.after + (last + ([93] + rest));
    ElementText(es, [93] + rest);
    RunBlank(p, es.before, v.Print() + tail);
    assert Stops(tail[0]);
    ValueRun(p, v, tail);
    var q := After(p, v.Count(Base(p)), v.Depth(), Some(p.seen));
    ElementStep(p, es);
    if q.Poisoned? {
      RunPoisoned(tail);
      RunPoisoned(rest);
    } else {
      RunBlank(q, es.after, last + ([93] + rest));
      if next.NoElement? {
        assert last + ([93] + rest) == [93] + rest;
        CloseStep(q, 93, rest);
      } else {
        assert last + ([93] + rest) == [44] + (next.Print() + ([93] + rest));
        CommaStep(q, next.Print() + ([93] + rest));
        ElementsRun(q.SetTop(q.Top().(state := ARRAY_VALUE)), next, rest);
      }
    }
  }

  lemma ElementStep(p: Parser, es: Elements)
    requires p.Sane() && p.Parser? && p.lex.Idle? && p.frames.Push? && es.Valid() && es.Element?
    requires (p.Top().state == VALUE_OR_END || p.Top().state == ARRAY_VALUE) && p.Top().role == 0
    ensures var q := After(p, es.value.Count(Base(p)), es.value.Depth(), Some(p.seen));
            if q.Poisoned? then Outside(p, es.Count(p.count), es.Depth(), Some(p.seen)) == Poisoned
            else
              && q.frames.Push? && q.Top() == Frame(ARRAY_COMMA, p.Top().scope, 0) && q.seen == p.seen
              && var r := q.SetTop(q.Top().(state := ARRAY_VALUE));
              && r.Sane()
              && Outside(p, es.Count(p.count), es.Depth(), Some(p.seen)) ==
                 if es.next.NoElement? then q.Pop() else Outside(r, es.next.Count(r.count), es.next.Depth(), Some(r.seen))
  {
    CountGrows(es.value, Base(p));
    ElementsGrow(es.next, es.value.Count(Base(p)));
  }

  lemma {:induction false} MembersRun(p: Parser, ms: Members, rest: Text)
    requires p.Sane() && p.Parser? && p.lex.Idle? && p.frames.Push? && ms.Valid() && ms.Member?
    requires p.Top().state == KEY_OR_END || p.Top().state == KEY
    ensures Run(p, ms.Print() + ([125] + rest)) ==
            Run(Outside(p, ms.Count(p.count), ms.Depth(), WalkMembers(p.Top().scope, ms, p.seen)), rest)
    decreases ms
  {
    hide Run, Next, After, Outside, WalkMembers, Walk, KeyRole, MeetKey, CharUnits, PrintChars;
    var v, next, scope := ms.value, ms.next, p.Top().scope;
    var last := if next.NoMember? then [] else [44] + next.Print();
    var end := last + ([125] + rest);
    var tail := ms.after + end;
    var value := v.Print() + tail;
    MemberText(ms, [125] + rest);
    MemberKeyRun(p, ms, value);
    MemberStep(p, ms);
    RunPoisoned(rest);
    RunPoisoned(tail);
    var q := Keyed(p, ms.key);
    if q.Parser? {
      var r := q.SetTop(q.Top().(state := OBJECT_VALUE));
      ValueRun(r, v, tail);
      assert Base(r) == r.count;
      var d := After(r, v.Count(r.count), v.Depth(), Walk(RoleOf(r), v, r.seen));
      if d.Parser? {
        if next.NoMember? {
          assert end == [125] + rest;
          LastMemberRun(d, ms.after, rest);
        } else {
          assert end == [44] + (next.Print() + ([125] + rest));
          InnerMemberRun(d, ms.after, next.Print() + ([125] + rest));
          MembersRun(d.SetTop(d.Top().(state := KEY)), next, rest);
        }
      }
    }
  }

  /** A member up to its value. */
  lemma MemberKeyRun(p: Parser, ms: Members, value: Text)
    requires p.Sane() && p.Parser? && p.lex.Idle? && p.frames.Push? && ms.Valid() && ms.Member?
    requires p.Top().state == KEY_OR_END || p.Top().state == KEY
    ensures var q := Keyed(p, ms.key);
            var s := ms.before + ([34] + (PrintChars(ms.key) + ([34] + (ms.gap + ([58] + (ms.lead + value))))));
            if q.Poisoned? then Run(p, s) == Poisoned
            else q.SetTop(q.Top().(state := OBJECT_VALUE)).Sane() && Run(p, s) == Run(q.SetTop(q.Top().(state := OBJECT_VALUE)), value)
  {
    hide Run, Next, KeyRole, MeetKey, CharUnits, PrintChars;
    RunBlank(p, ms.before, [34] + (PrintChars(ms.key) + ([34] + (ms.gap + ([58] + (ms.lead + value))))));
    KeyRun(p, ms.key, ms.gap + ([58] + (ms.lead + value)));
    RunPoisoned(ms.gap + ([58] + (ms.lead + value)));
    var q := Keyed(p, ms.key);
    if q.Parser? {
      RunBlank(q, ms.gap, [58] + (ms.lead + value));
      ColonStep(q, ms.lead + value);
      RunBlank(q.SetTop(q.Top().(state := OBJECT_VALUE)), ms.lead, value);
    }
  }

  /** After the value of the last member. */
  lemma LastMemberRun(d: Parser, blank: Text, rest: Text)
    requires d.Sane() && d.Parser? && d.lex.Idle? && d.frames.Push? && d.Top().state == OBJECT_COMMA && Blank(blank)
    ensures Run(d, blank + ([125] + rest)) == Run(d.Pop(), rest)
  {
    hide Run, Next;
    RunBlank(d, blank, [125] + rest);
    CloseStep(d, 125, rest);
  }

  /** After the value of another member. */
  lemma InnerMemberRun(d: Parser, blank: Text, more: Text)
    requires d.Sane() && d.Parser? && d.lex.Idle? && d.frames.Push? && d.Top().state == OBJECT_COMMA && Blank(blank)
    ensures d.SetTop(d.Top().(state := KEY)).Sane()
    ensures Run(d, blank + ([44] + more)) == Run(d.SetTop(d.Top().(state := KEY)), more)
  {
    hide Run, Next;
    RunBlank(d, blank, [44] + more);
    CommaStep(d, more);
  }

  /** The state a member's key leaves. */
  function Keyed(p: Parser, key: seq<Letter>): (q: Parser)
    requires p.Sane() && p.Parser? && p.lex.Idle? && p.frames.Push? && ValidChars(key)
    ensures q.Sane()
    ensures q.Parser? ==> q.lex.Idle? && q.frames.Push?
  {
    var role := KeyRole(p.Top().scope, key);
    var met := MeetKey(role, p.seen);
    if p.count.members + 1 <= MEMBERS && p.count.units + |CharUnits(key)| <= WIRE && met.Some?
    then
      var q := p.(count := p.count.Member().Units(|CharUnits(key)|), seen := met.value).SetTop(Frame(COLON, p.Top().scope, role));
      assert q.Sane();
      q
    else Poisoned
  }

  /** `whole` is the state once the other members have followed. */
  ghost predicate Followed(d: Parser, next: Members, whole: Parser)
    requires d.Sane() && d.Parser? && d.lex.Idle? && next.Valid()
  {
    && d.frames.Push? && d.Top().state == OBJECT_COMMA
    && var e := d.SetTop(d.Top().(state := KEY));
    && e.Sane()
    && whole == if next.NoMember? then d.Pop() else Outside(e, next.Count(e.count), next.Depth(), WalkMembers(e.Top().scope, next, e.seen))
  }

  lemma MemberStep(p: Parser, ms: Members)
    requires p.Sane() && p.Parser? && p.lex.Idle? && p.frames.Push? && ms.Valid() && ms.Member?
    ensures var q := Keyed(p, ms.key);
            var whole := Outside(p, ms.Count(p.count), ms.Depth(), WalkMembers(p.Top().scope, ms, p.seen));
            if q.Poisoned? then whole == Poisoned
            else
              var r := q.SetTop(q.Top().(state := OBJECT_VALUE));
              var d := After(r, ms.value.Count(r.count), ms.value.Depth(), Walk(RoleOf(r), ms.value, r.seen));
              q.Top().state == COLON && if d.Poisoned? then whole == Poisoned else Followed(d, ms.next, whole)
  {
    var t := p.count.Member().Units(|CharUnits(ms.key)|);
    CountGrows(ms.value, t);
    MembersGrow(ms.next, ms.value.Count(t));
  }
}
