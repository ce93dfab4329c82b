/**
 Which limits of the account projection can decide, on every prefix of every byte stream, well formed or not.

 The machine counts values, members, entries and units as it goes. Over any bytes the counts are tied to each other and to
 the number of bytes, so the unit check never refuses, and the value check refuses only where the next check would.
 */
module AccountLimits {
  import opened Basics
  import opened JsonText
  import opened AccountMachine
  import opened AccountProjection
  import opened Utf8

  // ----- Values, members and entries

  /** A key has been counted whose value has not: the key is open, or its colon or value is awaited. */
  predicate Owed(p: Parser)
    requires p.Parser?
  {
    (p.lex.InString? && p.lex.isKey) || (p.frames.Push? && (p.Top().state == COLON || p.Top().state == OBJECT_VALUE))
  }

  function One(b: bool): nat {
    if b then 1 else 0
  }

  /** Every frame below the top has had its value counted. */
  predicate Settled(frames: Stack) {
    frames.Push? ==> (frames.top.state == OBJECT_COMMA || frames.top.state == ARRAY_COMMA) && Settled(frames.below)
  }

  /** A value is the root, an entry, or a member's; tokens are open only where their value or key is. */
  predicate Tied(p: Parser) {
    p.Parser? ==>
      && p.count.values + One(Owed(p)) == One(p.started) + p.count.members + p.count.entries
      && (p.frames.Push? ==> p.started && Settled(p.frames.below))
      && (!p.lex.Idle? ==> if p.lex.InString? && p.lex.isKey then p.frames.Push? && (p.Top().state == KEY_OR_END || p.Top().state == KEY)
                           else p.started && Settled(p.frames))
  }

  lemma UnitTied(p: Parser, code: nat)
    requires p.Sane() && p.Parser? && p.lex.InString? && Tied(p)
    ensures Tied(Unit(p, code))
  {}

  lemma StringTied(p: Parser, code: nat)
    requires p.Sane() && p.Parser? && p.lex.InString? && Tied(p)
    ensures Tied(StringChar(p, code))
  {
    hide Unit, Settled;
    match p.lex.escape
    case HexDigits(value, left) =>
      if HexDigit(code) >= 0 && left == 1 { UnitTied(p.(lex := p.lex.(escape := Unescaped)), value * 16 + HexDigit(code)); }
    case Backslash =>
      if ShortEscape(code) >= 0 { UnitTied(p.(lex := p.lex.(escape := Unescaped)), ShortEscape(code)); }
    case Unescaped =>
      if code > 0xffff {
        var q := Unit(p, 0xd800 + (code - 0x10000) / 1024);
        UnitTied(p, 0xd800 + (code - 0x10000) / 1024);
        if q.Parser? { UnitTied(q, 0xdc00 + (code - 0x10000) % 1024); }
      } else if code >= 32 && code != 34 && code != 92 {
        UnitTied(p, code);
      }
  }

  predicate AtValue(p: Parser)
    requires p.Parser?
  {
    p.lex.Idle? && (p.frames.Empty? || p.Top().state == OBJECT_VALUE || p.Top().state == ARRAY_VALUE || p.Top().state == VALUE_OR_END)
  }

  lemma ValueTied(p: Parser, code: nat)
    requires p.Sane() && p.Parser? && AtValue(p) && Tied(p)
    ensures Tied(StartValue(p, code))
  {}

  lemma GrammarTied(p: Parser, code: nat)
    requires p.Sane() && p.Parser? && p.lex.Idle? && Tied(p)
    ensures Tied(Grammar(p, code))
  {
    hide StartValue;
    if AtValue(p) { ValueTied(p, code); }
  }

  lemma NextTied(p: Parser, code: nat)
    requires p.Sane() && Tied(p)
    ensures Tied(Next(p, code))
  {
    hide StringChar, Grammar, Settled;
    if p.Parser? {
      match p.lex
      case InString(_, _, _, _, _, _) => StringTied(p, code);
      case InLiteral(rest) =>
      case InNumber(state) => if NumberChar(state, code).Ended? { GrammarTied(p.(lex := Idle), code); }
      case Idle => GrammarTied(p, code);
    }
  }

  // ----- Units and bytes

  /** How many bytes of a character the decoder holds. */
  function Held(d: Decoder): nat
    requires DecoderOk(d)
  {
    if d.remaining == 0 then 0 else (if d.minimum == 0x80 then 2 else if d.minimum == 0x800 then 3 else 4) - d.remaining
  }

  /** What the decoder holds fits the kind of character it is reading. */
  predicate DecoderOk(d: Decoder) {
    || d == READY
    || (d.minimum == 0x80 && d.remaining == 1 && d.value < 32)
    || (d.minimum == 0x800 && ((d.remaining == 2 && d.value < 16) || (d.remaining == 1 && d.value < 1024)))
    || (d.minimum == 0x10000 && 1 <= d.remaining <= 3)
  }

  /** One code adds at most as many units as it takes in UTF-16. */
  lemma NextUnits(p: Parser, code: nat)
    requires p.Sane()
    ensures p.Parser? && Next(p, code).Parser? ==> Next(p, code).count.units <= p.count.units + if code > 0xffff then 2 else 1
  {
    hide StringChar, Grammar;
    if p.Parser? && p.lex.InString? { StringUnits(p, code); }
    if p.Parser? && p.lex.Idle? { GrammarUnits(p, code); }
    if p.Parser? && p.lex.InNumber? { GrammarUnits(p.(lex := Idle), code); }
  }

  lemma StringUnits(p: Parser, code: nat)
    requires p.Sane() && p.Parser? && p.lex.InString?
    ensures StringChar(p, code).Parser? ==> StringChar(p, code).count.units <= p.count.units + if code > 0xffff then 2 else 1
  {}

  lemma GrammarUnits(p: Parser, code: nat)
    requires p.Sane() && p.Parser? && p.lex.Idle?
    ensures Grammar(p, code).Parser? ==> Grammar(p, code).count.units == p.count.units
  {}

  // ----- Every prefix of every byte stream

  /** The bytes so far pay for the units, and the counts are tied. */
  predicate Accounted(m: Machine, bytes: nat) {
    && DecoderOk(m.utf) && Tied(m.parser)
    && (m.parser.Parser? ==> m.parser.count.units + Held(m.utf) <= bytes)
  }

  lemma ByteAccounted(m: Machine, byte: nat, bytes: nat)
    requires m.parser.Sane() && Accounted(m, bytes)
    ensures Accounted(Byte(m, byte), bytes + 1)
  {
    hide Next, Tied;
    if m.parser.Parser? && Feed(m.utf, byte).Emit? {
      NextTied(m.parser, Feed(m.utf, byte).code);
      NextUnits(m.parser, Feed(m.utf, byte).code);
    }
    PoisonedTied();
  }

  lemma PoisonedTied()
    ensures Tied(Poisoned)
  {}

  lemma {:induction false} BytesAccounted(m: Machine, s: Text, bytes: nat)
    requires m.parser.Sane() && Accounted(m, bytes)
    ensures Accounted(Bytes(m, s), bytes + |s|)
    decreases |s|
  {
    hide Byte, Accounted;
    if s != [] {
      ByteAccounted(m, s[0], bytes);
      BytesAccounted(Byte(m, s[0]), s[1..], bytes + 1);
    }
  }

  /** The machine after the bytes `s`. */
  function After(s: Text): (m: Machine)
    ensures m.parser.Sane()
  {
    Bytes(FRESH, s)
  }

  lemma AfterAccounted(s: Text)
    ensures Accounted(After(s), |s|)
  {
    BytesAccounted(FRESH, s, 0);
  }

  /** After any bytes whatsoever: at most one value per member and entry and one for the root, and at most one unit per byte. */
  lemma CountsAreTied(s: Text)
    requires After(s).parser.Parser?
    ensures var t := After(s).parser.count;
            t.values <= 1 + t.members + t.entries && t.units <= |s|
  {
    hide After;
    AfterAccounted(s);
  }

  /** The next byte completes this code, if any. */
  function Completes(m: Machine, byte: nat): Option<nat> {
    if Feed(m.utf, byte).Emit? then Some(Feed(m.utf, byte).code) else None
  }

  /** Within the wire limit the unit check never refuses: there is room for all units of whatever code comes next. */
  lemma UnitCheckNeverRefuses(s: Text, byte: nat)
    requires |s| + 1 <= WIRE && After(s).parser.Parser? && Completes(After(s), byte).Some?
    ensures After(s).parser.count.units + (if Completes(After(s), byte).value > 0xffff then 2 else 1) <= WIRE
  {
    hide After;
    AfterAccounted(s);
  }

  /** The value check refuses exactly when members and entries are both at their limits and no member's value is awaited. */
  lemma ValueCheckRefuses(s: Text)
    requires After(s).parser.Parser? && AtValue(After(s).parser)
    ensures var p := After(s).parser;
            p.count.values + 1 > VALUES <==> p.started && (p.frames.Empty? || AwaitsEntry(p)) && p.count.members == MEMBERS && p.count.entries == ENTRIES
  {
    hide After;
    AfterAccounted(s);
  }

  /** Where it refuses the next check would: no further entry is allowed, or no second root. So it never decides. */
  lemma ValueCheckNeverDecides(s: Text)
    requires After(s).parser.Parser? && AtValue(After(s).parser) && After(s).parser.count.values + 1 > VALUES
    ensures var p := After(s).parser;
            (AwaitsEntry(p) && p.count.entries + 1 > ENTRIES) || (p.frames.Empty? && p.started)
  {
    hide After;
    ValueCheckRefuses(s);
  }

  // ----- A stream on which the value check refuses

  function Repeat(part: Text, n: nat): Text {
    if n == 0 then [] else part + Repeat(part, n - 1)
  }

  /** In the root object, at a key. */
  function InRoot(state: nat, t: Tally): Parser {
    Parser(1, Push(Frame(state, 1, 0), Empty), Idle, true, t, START.seen)
  }

  /** In an array that is a member of the root, at an entry. */
  function InArray(state: nat, t: Tally): Parser {
    Parser(2, Push(Frame(state, 0, 0), Push(Frame(OBJECT_COMMA, 1, 0), Empty)), Idle, true, t, START.seen)
  }

  /** A member with an empty key, up to its value. */
  lemma KeyRun(state: nat, t: Tally, rest: Text)
    requires Within(t) && t.members < MEMBERS && (state == KEY || state == KEY_OR_END)
    ensures InRoot(state, t).Sane() && InRoot(OBJECT_VALUE, t.Member()).Sane()
    ensures Run(InRoot(state, t), [34, 34, 58] + rest) == Run(InRoot(OBJECT_VALUE, t.Member()), rest)
  {
    hide Run;
    var p := InRoot(state, t);
    var p1 := StartString(p.(count := t.Member()), true, false);
    var p2 := InRoot(COLON, t.Member());
    assert Next(p, 34) == p1 && Next(p1, 34) == p2 && Next(p2, 58) == InRoot(OBJECT_VALUE, t.Member());
    assert [34, 34, 58] + rest == [34] + ([34] + ([58] + rest));
    RunCons(p, 34, [34] + ([58] + rest));
    RunCons(p1, 34, [58] + rest);
    RunCons(p2, 58, rest);
  }

  /** A whole member with the value zero, and a comma. */
  lemma MemberRun(state: nat, t: Tally, rest: Text)
    requires Within(t) && t.members < MEMBERS && t.values < VALUES && (state == KEY || state == KEY_OR_END)
    ensures InRoot(state, t).Sane() && InRoot(KEY, t.Member().Value()).Sane()
    ensures Run(InRoot(state, t), [34, 34, 58, 48, 44] + rest) == Run(InRoot(KEY, t.Member().Value()), rest)
  {
    hide Run;
    var q := InRoot(OBJECT_VALUE, t.Member());
    var q1 := Parser(1, Push(Frame(OBJECT_COMMA, 1, 0), Empty), InNumber(ZERO), true, t.Member().Value(), START.seen);
    KeyRun(state, t, [48, 44] + rest);
    assert [34, 34, 58, 48, 44] + rest == [34, 34, 58] + ([48, 44] + rest) && [48, 44] + rest == [48] + ([44] + rest);
    RunCons(q, 48, [44] + rest);
    RunCons(q1, 44, rest);
    assert Next(q, 48) == q1 && Next(q1, 44) == InRoot(KEY, t.Member().Value());
  }

  lemma {:induction false} MembersRun(n: nat, t: Tally, rest: Text)
    requires Within(t) && t.members + n <= MEMBERS && t.values + n <= VALUES && n > 0
    ensures var t' := t.(members := t.members + n, values := t.values + n);
            && InRoot(KEY_OR_END, t).Sane() && InRoot(KEY, t).Sane() && InRoot(KEY, t').Sane()
            && Run(InRoot(KEY_OR_END, t), Repeat([34, 34, 58, 48, 44], n) + rest) == Run(InRoot(KEY, t'), rest)
            && Run(InRoot(KEY, t), Repeat([34, 34, 58, 48, 44], n) + rest) == Run(InRoot(KEY, t'), rest)
  {
    hide Run;
    var more := Repeat([34, 34, 58, 48, 44], n - 1) + rest;
    assert Repeat([34, 34, 58, 48, 44], n) + rest == [34, 34, 58, 48, 44] + more;
    MemberRun(KEY_OR_END, t, more);
    MemberRun(KEY, t, more);
    if n == 1 {
      assert more == rest;
    } else {
      MembersRun(n - 1, t.Member().Value(), rest);
    }
  }

  /** An entry zero and a comma. */
  lemma EntryRun(state: nat, t: Tally, rest: Text)
    requires Within(t) && t.entries < ENTRIES && t.values < VALUES && (state == VALUE_OR_END || state == ARRAY_VALUE)
    ensures InArray(state, t).Sane() && InArray(ARRAY_VALUE, t.Entry().Value()).Sane()
    ensures Run(InArray(state, t), [48, 44] + rest) == Run(InArray(ARRAY_VALUE, t.Entry().Value()), rest)
  {
    hide Run;
    var p := InArray(state, t);
    var q := Parser(2, Push(Frame(ARRAY_COMMA, 0, 0), Push(Frame(OBJECT_COMMA, 1, 0), Empty)), InNumber(ZERO), true, t.Entry().Value(), START.seen);
    assert [48, 44] + rest == [48] + ([44] + rest);
    RunCons(p, 48, [44] + rest);
    RunCons(q, 44, rest);
    assert Next(p, 48) == q && Next(q, 44) == InArray(ARRAY_VALUE, t.Entry().Value());
  }

  lemma {:induction false} EntriesRun(n: nat, t: Tally, rest: Text)
    requires Within(t) && t.entries + n <= ENTRIES && t.values + n <= VALUES && n > 0
    ensures var t' := t.(entries := t.entries + n, values := t.values + n);
            && InArray(VALUE_OR_END, t).Sane() && InArray(ARRAY_VALUE, t).Sane() && InArray(ARRAY_VALUE, t').Sane()
            && Run(InArray(VALUE_OR_END, t), Repeat([48, 44], n) + rest) == Run(InArray(ARRAY_VALUE, t'), rest)
            && Run(InArray(ARRAY_VALUE, t), Repeat([48, 44], n) + rest) == Run(InArray(ARRAY_VALUE, t'), rest)
  {
    hide Run;
    var more := Repeat([48, 44], n - 1) + rest;
    assert Repeat([48, 44], n) + rest == [48, 44] + more;
    EntryRun(VALUE_OR_END, t, more);
    EntryRun(ARRAY_VALUE, t, more);
    if n == 1 {
      assert more == rest;
    } else {
      EntriesRun(n - 1, t.Entry().Value(), rest);
    }
  }

  lemma {:induction false} RepeatSize(part: Text, n: nat)
    ensures |Repeat(part, n)| == n * |part|
    ensures (forall i :: 0 <= i < |part| ==> part[i] < 128) ==> forall i :: 0 <= i < |Repeat(part, n)| ==> Repeat(part, n)[i] < 128
  {
    if n > 0 {
      RepeatSize(part, n - 1);
      assert n * |part| == |part| + (n - 1) * |part|;
    }
  }

  /** On ASCII text the machine over bytes is the machine over codes. */
  lemma {:induction false} AsciiRun(p: Parser, s: Text)
    requires p.Sane() && forall i :: 0 <= i < |s| ==> s[i] < 128
    ensures Bytes(Machine(p, false, READY), s) == Machine(Run(p, s), false, READY)
    decreases |s|
  {
    hide Next;
    if s != [] {
      if p.Poisoned? {
        RunPoisoned(s);
        BytesPoisoned(Machine(p, false, READY), s);
      } else {
        AsciiRun(Next(p, s[0]), s[1..]);
      }
    }
  }

  /** An object with 2048 members, the last an array with 2048 entries and a comma. */
  function FullText(): Text {
    [123] + (Repeat([34, 34, 58, 48, 44], MEMBERS - 1) + ([34, 34, 58] + ([91] + Repeat([48, 44], ENTRIES))))
  }

  lemma FullTextRun()
    ensures Run(START, FullText()) == InArray(ARRAY_VALUE, Tally(VALUES, 2, MEMBERS, ENTRIES, 0))
  {
    hide Run, Next, Repeat;
    var entries := Repeat([48, 44], ENTRIES);
    var tail := [34, 34, 58] + ([91] + entries);
    var t1, t2 := Tally(1, 1, 0, 0, 0), Tally(MEMBERS, 1, MEMBERS - 1, 0, 0);
    var t3 := Tally(MEMBERS + 1, 2, MEMBERS, 0, 0);
    OpensRoot();
    RunCons(START, 123, Repeat([34, 34, 58, 48, 44], MEMBERS - 1) + tail);
    MembersRun(MEMBERS - 1, t1, tail);
    KeyRun(KEY, t2, [91] + entries);
    OpensArray(t2.Member());
    RunCons(InRoot(OBJECT_VALUE, t2.Member()), 91, entries);
    assert entries + [] == entries;
    EntriesRun(ENTRIES, t3, []);
    RunNothing(InArray(ARRAY_VALUE, Tally(VALUES, 2, MEMBERS, ENTRIES, 0)));
  }

  lemma OpensRoot()
    ensures START.Sane() && Next(START, 123) == InRoot(KEY_OR_END, Tally(1, 1, 0, 0, 0))
  {}

  lemma OpensArray(t: Tally)
    requires Within(t) && t.values < VALUES && t.containers < CONTAINERS
    ensures InRoot(OBJECT_VALUE, t).Sane() && Next(InRoot(OBJECT_VALUE, t), 91) == InArray(VALUE_OR_END, t.Value().Container())
  {}

  lemma RunNothing(p: Parser)
    requires p.Sane()
    ensures Run(p, []) == p
  {}

  /** So the value check is not unreachable: far within the wire limit there is a stream whose next entry it refuses. */
  lemma ValueCheckCanRefuse()
    ensures var s := FullText();
            && |s| + 1 <= WIRE && After(s).parser.Parser? && AtValue(After(s).parser) && AwaitsEntry(After(s).parser)
            && After(s).parser.count.values + 1 > VALUES && Byte(After(s), 48).parser.Poisoned?
  {
    hide Run, Next, Repeat;
    var s := FullText();
    RepeatSize([34, 34, 58, 48, 44], MEMBERS - 1);
    RepeatSize([48, 44], ENTRIES);
    FullTextRun();
    FirstByte(s);
    Refuses(Tally(VALUES, 2, MEMBERS, ENTRIES, 0));
  }

  lemma Refuses(t: Tally)
    requires Within(t) && t.values == VALUES
    ensures InArray(ARRAY_VALUE, t).Sane() && Next(InArray(ARRAY_VALUE, t), 48) == Poisoned
  {}

  /** An ASCII text that starts with a brace is read from the start. */
  lemma FirstByte(s: Text)
    requires s != [] && s[0] == 123 && forall i :: 0 <= i < |s| ==> s[i] < 128
    ensures After(s) == Machine(Run(START, s), false, READY)
  {
    hide Next;
    AsciiRun(Next(START, 123), s[1..]);
  }
}
