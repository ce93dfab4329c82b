/**
 `createCopilotAccountProjection` in its own form: a fixed stack of three cells per frame, a fixed URL buffer,
 counters and lexer state, updated one byte at a time. Every method is proved against the machine of
 `AccountMachine` and `AccountProjection`, for which exactness is proved.
 */
module AccountReader {
  import opened Basics
  import opened JsonText
  import opened AccountMachine
  import opened AccountForward
  import opened AccountProjection
  import opened Utf8

  /** The frames in the first `n` slots, innermost first. */
  ghost function StackOf(cells: seq<nat>, n: nat): Stack
    requires 3 * n <= |cells|
  {
    if n == 0 then Empty
    else Push(Frame(cells[3 * n - 3], cells[3 * n - 2], cells[3 * n - 1]), StackOf(cells, n - 1))
  }

  lemma {:induction false} StackBelow(a: seq<nat>, b: seq<nat>, n: nat)
    requires 3 * n <= |a| && 3 * n <= |b| && a[..3 * n] == b[..3 * n]
    ensures StackOf(a, n) == StackOf(b, n)
  {
    if n > 0 {
      assert forall i :: 0 <= i < 3 * n ==> a[i] == a[..3 * n][i] == b[i];
      assert a[..3 * (n - 1)] == b[..3 * (n - 1)];
      StackBelow(a, b, n - 1);
    }
  }

  class Reader {
    const stack: array<nat>
    const url: array<nat>
    var depth: nat
    var urlLength: nat
    var bytes: nat
    var count: Tally
    var lexer: Lexer
    var endpointsSeen: bool
    var apiSeen: bool
    var apiNull: bool
    var started: bool
    var finished: bool
    var poisoned: bool
    var firstScalar: bool
    var utf: Decoder

    ghost predicate Shape()
      reads this
    {
      && stack.Length == 3 * DEPTH && url.Length == URL_UNITS && stack != url
      && depth <= DEPTH && urlLength <= URL_UNITS
    }

    ghost function ParserOf(): Parser
      reads this, stack, url
      requires Shape()
    {
      Parser(depth, StackOf(stack[..], depth), lexer, started, count,
             Seen(endpointsSeen, apiSeen, apiNull, url[..urlLength]))
    }

    ghost predicate Live()
      reads this, stack, url
    {
      Shape() && !poisoned && ParserOf().Sane()
    }

    /** This object is in the parser state `p`. */
    ghost predicate At(p: Parser)
      reads this, stack, url
    {
      Shape() && if poisoned then p.Poisoned? else p == ParserOf() && p.Sane()
    }

    /** This object is in the machine state `m`. */
    ghost predicate Is(m: Machine)
      reads this, stack, url
    {
      At(m.parser) && (!poisoned ==> firstScalar == m.firstScalar && utf == m.utf)
    }

    constructor ()
      ensures fresh(stack) && fresh(url) && !poisoned && !finished && bytes == 0 && Is(FRESH)
    {
      stack := new nat[3 * DEPTH];
      url := new nat[URL_UNITS];
      depth, urlLength, bytes, count, lexer := 0, 0, 0, NOTHING, Idle;
      endpointsSeen, apiSeen, apiNull := false, false, false;
      started, finished, poisoned, firstScalar, utf := false, false, false, true, READY;
    }

    method TakeUnit(code: nat)
      requires Live() && lexer.InString?
      modifies this`count, this`lexer, this`urlLength, this`poisoned, url
      ensures At(Unit(old(ParserOf()), code))
    {
      count := count.Units(1);
      if count.units > WIRE {
        poisoned := true;
      } else if lexer.isKey {
        var l := lexer;
        lexer := l.(length := l.length + 1,
                    matches := l.matches && l.length < |l.target| && l.target[l.length] == code);
      } else if lexer.capture {
        if urlLength == URL_UNITS {
          poisoned := true;
        } else {
          url[urlLength] := code;
          urlLength := urlLength + 1;
          assert url[..urlLength] == old(url[..urlLength]) + [code];
          assert stack[..] == old(stack[..]);
        }
      }
    }

    method OpenString(key: bool, retain: bool)
      requires Live() && (key ==> depth > 0)
      modifies this`lexer
      ensures At(StartString(old(ParserOf()), key, retain)) && !poisoned
    {
      lexer := InString(key, retain, if key then KeyTarget(stack[3 * depth - 2]) else [], 0, true, Unescaped);
    }

    method SetFrame(state: nat, role: nat)
      requires Shape() && depth > 0
      modifies stack
      ensures Shape()
      ensures StackOf(stack[..], depth) ==
              Push(Frame(state, old(stack[3 * depth - 2]), role), old(StackOf(stack[..], depth)).below)
      ensures url[..] == old(url[..])
    {
      stack[3 * depth - 3] := state;
      stack[3 * depth - 1] := role;
      StackBelow(stack[..], old(stack[..]), depth - 1);
    }

    method CloseString()
      requires Live() && lexer.InString?
      modifies this`lexer, this`poisoned, this`endpointsSeen, this`apiSeen, stack
      ensures At(EndString(old(ParserOf())))
    {
      var l := lexer;
      lexer := Idle;
      if l.isKey {
        var scope := stack[3 * depth - 2];
        var role := 0;
        if l.matches && l.length == |l.target| {
          if scope == 1 {
            if endpointsSeen { poisoned := true; return; }
            endpointsSeen, role := true, 1;
          }
          if scope == 2 {
            if apiSeen { poisoned := true; return; }
            apiSeen, role := true, 2;
          }
        }
        SetFrame(COLON, role);
        assert url[..urlLength] == old(url[..urlLength]);
      }
    }

    method PushFrame(state: nat, scope: nat)
      requires Shape() && depth < DEPTH
      modifies stack, this`depth
      ensures Shape() && depth == old(depth) + 1
      ensures StackOf(stack[..], depth) == Push(Frame(state, scope, 0), old(StackOf(stack[..], depth)))
      ensures url[..] == old(url[..])
    {
      stack[3 * depth] := state;
      stack[3 * depth + 1] := scope;
      stack[3 * depth + 2] := 0;
      StackBelow(stack[..], old(stack[..]), depth);
      depth := depth + 1;
    }

    /** The counting that precedes every value. */
    method CountValue(role: nat, code: nat)
      requires Live() && role == RoleOf(ParserOf())
      modifies this`count, this`started, this`poisoned, stack
      ensures Shape()
      ensures var p := old(ParserOf());
              var refused :=
                || ((role == 3 || role == 1) && code != 123) || (role == 2 && code != 34 && code != 110)
                || p.count.values + 1 > VALUES || (AwaitsEntry(p) && p.count.entries + 1 > ENTRIES)
                || (p.frames.Empty? && p.started);
              poisoned == refused && (!refused ==> ParserOf() == Counted(p))
    {
      if (role == 3 || role == 1) && code != 123 { poisoned := true; return; }
      if role == 2 && code != 34 && code != 110 { poisoned := true; return; }
      if count.values + 1 > VALUES { poisoned := true; return; }
      count := count.Value();
      if depth > 0 {
        var state := stack[3 * depth - 3];
        var entry := state == VALUE_OR_END || state == ARRAY_VALUE;
        if entry {
          if count.entries + 1 > ENTRIES { poisoned := true; return; }
          count := count.Entry();
        }
        SetFrame(if entry then ARRAY_COMMA else OBJECT_COMMA, stack[3 * depth - 1]);
        assert url[..urlLength] == old(url[..urlLength]);
      } else {
        if started { poisoned := true; return; }
        started := true;
      }
    }

    /** The bracket of a value that has been counted. */
    method OpenContainer(code: nat, role: nat)
      requires Live() && lexer.Idle? && started && (code == 123 || code == 91)
      modifies this`count, this`poisoned, this`depth, stack
      ensures At(Bracket(old(ParserOf()), role, code))
    {
      hide StackOf;
      if depth == DEPTH || count.containers + 1 > CONTAINERS { poisoned := true; return; }
      count := count.Container();
      PushFrame(if code == 123 then KEY_OR_END else VALUE_OR_END, if role == 3 then 1 else if role == 1 then 2 else 0);
      assert url[..urlLength] == old(url[..urlLength]);
    }

    method BeginValue(code: nat)
      requires Live() && lexer.Idle?
      modifies this`count, this`started, this`poisoned, this`lexer, this`depth, this`apiNull, stack
      ensures At(StartValue(old(ParserOf()), code))
    {
      ghost var p := ParserOf();
      var role := if depth > 0 then stack[3 * depth - 1] else 3;
      CountValue(role, code);
      if poisoned { return; }
      assert started && Live();
      hide StackOf, ParserOf;
      if code == 123 || code == 91 { OpenContainer(code, role); } else { OpenToken(code, role); }
    }

    /** The first code of a value that is no container and has been counted. */
    method OpenToken(code: nat, role: nat)
      requires Live() && lexer.Idle? && code != 123 && code != 91
      modifies this`poisoned, this`lexer, this`apiNull
      ensures At(Token(old(ParserOf()), role, code))
    {
      hide StackOf;
      if code == 34 {
        lexer := InString(false, role == 2, [], 0, true, Unescaped);
      } else if code == 116 || code == 102 || code == 110 {
        var word := if code == 116 then True else if code == 102 then False else Null;
        lexer := InLiteral(word.Print()[1..]);
        if role == 2 { apiNull := true; }
      } else if code == 45 || IsDigit(code) {
        lexer := InNumber(if code == 45 then SIGN else if code == 48 then ZERO else INTEGER);
      } else {
        poisoned := true;
      }
    }

    method StringCode(code: nat)
      requires Live() && lexer.InString?
      modifies this`count, this`lexer, this`urlLength, this`poisoned, this`endpointsSeen, this`apiSeen, stack, url
      ensures At(StringChar(old(ParserOf()), code))
    {
      hide StackOf, Unit, EndString;
      ghost var p := ParserOf();
      var l := lexer;
      if l.escape.HexDigits? {
        var hex := HexDigit(code);
        if hex < 0 { poisoned := true; return; }
        var value := l.escape.value * 16 + hex;
        if l.escape.left == 1 {
          lexer := l.(escape := Unescaped);
          TakeUnit(value);
        } else {
          lexer := l.(escape := HexDigits(value, l.escape.left - 1));
        }
      } else if l.escape.Backslash? {
        if code == 117 {
          lexer := l.(escape := HexDigits(0, 4));
        } else if ShortEscape(code) >= 0 {
          lexer := l.(escape := Unescaped);
          TakeUnit(ShortEscape(code));
        } else {
          poisoned := true;
        }
      } else if code == 34 {
        CloseString();
      } else if code == 92 {
        lexer := l.(escape := Backslash);
      } else if code < 32 {
        poisoned := true;
      } else if code <= 0xffff {
        TakeUnit(code);
      } else {
        TakeUnit(0xd800 + (code - 0x10000) / 1024);
        if poisoned { return; }
        TakeUnit(0xdc00 + (code - 0x10000) % 1024);
      }
    }

    method PopFrame()
      requires Live() && depth > 0 && lexer.Idle?
      modifies this`depth
      ensures At(old(ParserOf()).Pop()) && !poisoned
    {
      depth := depth - 1;
    }

    method GrammarCode(code: nat)
      requires Live() && lexer.Idle?
      modifies this`count, this`started, this`poisoned, this`lexer, this`depth, this`apiNull, stack
      ensures At(Grammar(old(ParserOf()), code))
    {
      if IsSpace(code) { return; }
      if depth == 0 { BeginValue(code); return; }
      var state, role := stack[3 * depth - 3], stack[3 * depth - 1];
      ghost var p := ParserOf();
      assert p.Top() == Frame(state, stack[3 * depth - 2], role);
      hide StackOf, StartValue;
      if state == KEY_OR_END || state == KEY {
        if code == 125 && state == KEY_OR_END { PopFrame(); return; }
        if code != 34 || count.members + 1 > MEMBERS { poisoned := true; return; }
        count := count.Member();
        OpenString(true, false);
      } else if state == COLON {
        if code != 58 { poisoned := true; return; }
        SetFrame(OBJECT_VALUE, role);
        assert url[..urlLength] == old(url[..urlLength]);
      } else if state == OBJECT_VALUE || state == ARRAY_VALUE || state == VALUE_OR_END {
        if code == 93 && state == VALUE_OR_END { PopFrame(); return; }
        BeginValue(code);
      } else if state == OBJECT_COMMA || state == ARRAY_COMMA {
        if code == (if state == OBJECT_COMMA then 125 else 93) {
          PopFrame();
        } else if code == 44 {
          SetFrame(if state == OBJECT_COMMA then KEY else ARRAY_VALUE, role);
          assert url[..urlLength] == old(url[..urlLength]);
        } else {
          poisoned := true;
        }
      } else {
        poisoned := true;
      }
    }

    /** The source's `scalar`. */
    method Accept(code: nat, ghost m: Machine)
      requires Live() && Is(m) && m.utf == READY
      modifies this, stack, url
      ensures Is(Scalar(m, code))
      ensures bytes == old(bytes) && finished == old(finished)
    {
      hide StackOf, StringChar, Grammar;
      if firstScalar {
        firstScalar := false;
        if code == 0xfeff { return; }
      }
      if lexer.InString? {
        StringCode(code);
      } else if lexer.InLiteral? {
        var rest := lexer.rest;
        if code != rest[0] { poisoned := true; return; }
        lexer := if |rest| == 1 then Idle else InLiteral(rest[1..]);
      } else {
        if lexer.InNumber? {
          var step := NumberChar(lexer.state, code);
          if step.Refused? { poisoned := true; return; }
          if step.More? { lexer := InNumber(step.state); return; }
          lexer := Idle;
        }
        GrammarCode(code);
      }
    }

    /** The source's `push`: one chunk, a byte at a time. */
    method PushChunk(chunk: seq<nat>, ghost m: Machine)
      requires Is(m)
      modifies this, stack, url
      ensures Shape() && (old(poisoned || finished) ==> poisoned)
      ensures !old(poisoned || finished) ==>
                Is(AccountProjection.Push(Session(m, old(bytes)), chunk).machine)
                && (!poisoned ==> !finished && bytes == AccountProjection.Push(Session(m, old(bytes)), chunk).bytes)
    {
      hide Byte, StackOf;
      if poisoned || finished || |chunk| > WIRE - bytes { poisoned := true; return; }
      bytes := bytes + |chunk|;
      ghost var now := m;
      var offset := 0;
      assert chunk[0..] == chunk;
      while offset < |chunk|
        invariant 0 <= offset <= |chunk| && !poisoned && !finished && bytes == old(bytes) + |chunk|
        invariant Is(now) && Bytes(now, chunk[offset..]) == Bytes(m, chunk)
      {
        var byte := chunk[offset];
        assert chunk[offset..][0] == byte && chunk[offset..][1..] == chunk[offset + 1..];
        TakeByte(byte, now);
        now := Byte(now, byte);
        if poisoned {
          BytesPoisoned(now, chunk[offset + 1..]);
          return;
        }
        offset := offset + 1;
      }
    }

    method TakeByte(byte: nat, ghost m: Machine)
      requires Is(m) && !poisoned
      modifies this, stack, url
      ensures Is(Byte(m, byte))
      ensures bytes == old(bytes) && finished == old(finished)
    {
      hide Scalar, StackOf;
      var fed := Feed(utf, byte);
      if fed.Wait? {
        utf := fed.decoder;
      } else if fed.Malformed? {
        poisoned := true;
      } else {
        utf := READY;
        Accept(fed.code, m.(utf := READY));
      }
    }

    /** The source's `finish`: the answer, or a refusal that poisons the reader. */
    method Conclude(ghost m: Machine) returns (r: Option<Projection>)
      requires Is(m)
      modifies this, stack, url
      ensures old(poisoned || finished) ==> r == None && poisoned
      ensures !old(poisoned || finished) ==> r == AccountProjection.Finish(m)
      ensures r.Some? ==> finished && stack[..] == seq(3 * DEPTH, _ => 0) && url[..] == seq(URL_UNITS, _ => 0)
      ensures r.None? ==> poisoned
    {
      if poisoned || finished || utf.remaining != 0 || !lexer.Idle? || depth != 0 || !started {
        poisoned := true;
        return None;
      }
      finished := true;
      r := Some(if !endpointsSeen then NoEndpoints else if !apiSeen then NoApi
                else if apiNull then NullApi else Api(url[..urlLength]));
      forall i | 0 <= i < url.Length { url[i] := 0; }
      forall i | 0 <= i < stack.Length { stack[i] := 0; }
    }
  }

  /** A whole exchange: every chunk pushed, then `finish`. */
  method Project(chunks: seq<Text>) returns (r: Option<Projection>)
    ensures r == Outcome(chunks)
    ensures r.Some? ==> exists bom, d :: Accepted(Concat(chunks), bom, d, r.value)
    ensures r.None? ==> forall bom, d, p :: !Accepted(Concat(chunks), bom, d, p)
  {
    hide AccountProjection.Push, AccountProjection.Finish, Accepted, Concat, StackOf;
    var reader := new Reader();
    ghost var session := Session(FRESH, 0);
    assert chunks[0..] == chunks;
    for i := 0 to |chunks|
      invariant reader.Is(session.machine) && session.machine.parser.Sane()
      invariant fresh(reader) && fresh(reader.stack) && fresh(reader.url)
      invariant !reader.poisoned ==> !reader.finished && reader.bytes == session.bytes
      invariant PushAll(session, chunks[i..]) == PushAll(Session(FRESH, 0), chunks)
    {
      assert chunks[i..][0] == chunks[i] && chunks[i..][1..] == chunks[i + 1..];
      label before:
      reader.PushChunk(chunks[i], session.machine);
      if old@before(reader.poisoned) { PoisonedPush(session, chunks[i]); }
      session := AccountProjection.Push(session, chunks[i]);
    }
    assert chunks[|chunks|..] == [];
    r := reader.Conclude(session.machine);
    if session.machine.parser.Poisoned? { PoisonedFinish(session.machine); }
    if r.Some? {
      Exact(chunks, r.value);
    } else {
      forall bom, d, p ensures !Accepted(Concat(chunks), bom, d, p) {
        if Accepted(Concat(chunks), bom, d, p) { Forward(chunks, bom, d, p); }
      }
    }
  }

  lemma PoisonedPush(session: Session, chunk: Text)
    requires session.machine.parser.Poisoned?
    ensures AccountProjection.Push(session, chunk) == session.(machine := session.machine.(parser := Poisoned))
  {}

  lemma PoisonedFinish(m: Machine)
    requires m.parser.Poisoned?
    ensures AccountProjection.Finish(m) == None
  {}
}
