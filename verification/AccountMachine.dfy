/**
 The incremental account projection of `worker/copilot-account-projection.ts` as a state machine over
 Unicode scalar values: a JSON pushdown automaton that keeps one field, `endpoints.api`.

 `Next` is one transition of the source's `scalar` closure (after the byte-order mark is dealt with). The
 constants, the order of the checks and the frame layout are the source's.
 */
module AccountMachine {
  import opened JsonText

  const WIRE: nat := 16 * 1024 * 1024
  const DEPTH: nat := 64
  const CONTAINERS: nat := 512
  const MEMBERS: nat := 2048
  const ENTRIES: nat := 2048
  const VALUES: nat := 4097
  const URL_UNITS: nat := 4096

  const KEY_OR_END: nat := 0
  const KEY: nat := 1
  const COLON: nat := 2
  const OBJECT_VALUE: nat := 3
  const OBJECT_COMMA: nat := 4
  const VALUE_OR_END: nat := 5
  const ARRAY_VALUE: nat := 6
  const ARRAY_COMMA: nat := 7

  const SIGN: nat := 0
  const ZERO: nat := 1
  const INTEGER: nat := 2
  const DOT: nat := 3
  const FRACTION: nat := 4
  const EXPONENT: nat := 5
  const EXP_SIGN: nat := 6
  const EXP_DIGITS: nat := 7

  /** The key "endpoints". */
  const ENDPOINTS: Text := [101, 110, 100, 112, 111, 105, 110, 116, 115]
  /** The key "api". */
  const API: Text := [97, 112, 105]

  /** Grammar state, authority scope (0 ignored, 1 root, 2 endpoints) and the role of the current key
      (0 none, 1 endpoints, 2 api). */
  datatype Frame = Frame(state: nat, scope: nat, role: nat)

  /** Open containers, innermost first. */
  datatype Stack = Empty | Push(top: Frame, below: Stack)

  datatype Escape = Unescaped | Backslash | HexDigits(value: nat, left: nat)

  datatype Lexer =
    | Idle
    | InString(isKey: bool, capture: bool, target: Text, length: nat, matches: bool, escape: Escape)
    | InNumber(state: nat)
    | InLiteral(rest: Text)

  /** What has been learnt about the one field that is kept. */
  datatype Seen = Seen(endpoints: bool, api: bool, isNull: bool, url: Text)

  predicate Within(t: Tally) {
    && t.values <= VALUES && t.containers <= CONTAINERS && t.members <= MEMBERS
    && t.entries <= ENTRIES && t.units <= WIRE
  }

  datatype Parser =
    | Poisoned
    | Parser(depth: int, frames: Stack, lex: Lexer, started: bool, count: Tally, seen: Seen)
  {
    /** What every reachable state satisfies; the transition function needs it to be well defined. */
    ghost predicate Sane() {
      Parser? ==>
        && depth <= DEPTH && Within(count) && |seen.url| <= URL_UNITS
        && (lex.InString? && lex.isKey ==> frames.Push?)
        && (lex.InString? && lex.escape.HexDigits? ==> 1 <= lex.escape.left <= 4)
        && (lex.InLiteral? ==> lex.rest != [])
        && (frames.Push? ==> started)
    }

    function Top(): Frame
      requires Parser? && frames.Push?
    {
      frames.top
    }

    function SetTop(f: Frame): (p: Parser)
      requires Parser? && frames.Push?
    {
      this.(frames := Push(f, frames.below))
    }

    function Pop(): (p: Parser)
      requires Parser? && frames.Push?
    {
      this.(depth := depth - 1, frames := frames.below)
    }
  }

  const START: Parser := Parser(0, Empty, Idle, false, NOTHING, Seen(false, false, false, []))

  function KeyTarget(scope: nat): Text {
    if scope == 1 then ENDPOINTS else if scope == 2 then API else []
  }

  function Unit(p: Parser, code: nat): (q: Parser)
    requires p.Sane() && p.Parser? && p.lex.InString?
    ensures q.Sane()
    ensures q.Parser? ==> q.frames == p.frames && q.lex.InString? && q.lex.escape == p.lex.escape && q.lex.isKey == p.lex.isKey
  {
    if p.count.units + 1 > WIRE then Poisoned
    else
      var q := p.(count := p.count.Units(1));
      if p.lex.isKey then
        q.(lex := p.lex.(length := p.lex.length + 1,
                         matches := p.lex.matches && p.lex.length < |p.lex.target| && p.lex.target[p.lex.length] == code))
      else if p.lex.capture then
        if |p.seen.url| == URL_UNITS then Poisoned else q.(seen := p.seen.(url := p.seen.url + [code]))
      else q
  }

  function StartString(p: Parser, key: bool, retain: bool): (q: Parser)
    requires p.Parser? && (key ==> p.frames.Push?)
  {
    p.(lex := InString(key, retain, if key then KeyTarget(p.Top().scope) else [], 0, true, Unescaped))
  }

  function EndString(p: Parser): (q: Parser)
    requires p.Sane() && p.Parser? && p.lex.InString?
    ensures q.Sane()
  {
    var q := p.(lex := Idle);
    if !p.lex.isKey then q
    else
      var scope := p.Top().scope;
      if p.lex.matches && p.lex.length == |p.lex.target| && (scope == 1 || scope == 2) then
        if scope == 1 then
          if p.seen.endpoints then Poisoned
          else q.SetTop(Frame(COLON, scope, 1)).(seen := p.seen.(endpoints := true))
        else
          if p.seen.api then Poisoned
          else q.SetTop(Frame(COLON, scope, 2)).(seen := p.seen.(api := true))
      else q.SetTop(Frame(COLON, scope, 0))
  }

  predicate AwaitsEntry(p: Parser)
    requires p.Parser?
  {
    p.frames.Push? && (p.Top().state == VALUE_OR_END || p.Top().state == ARRAY_VALUE)
  }

  /** 3 is the role of the root value. */
  function RoleOf(p: Parser): nat
    requires p.Parser?
  {
    if p.frames.Empty? then 3 else p.Top().role
  }

  function StartValue(p: Parser, code: nat): (q: Parser)
    requires p.Sane() && p.Parser?
    ensures q.Sane()
  {
    var role := RoleOf(p);
    if (role == 3 || role == 1) && code != 123 then Poisoned
    else if role == 2 && code != 34 && code != 110 then Poisoned
    else if p.count.values + 1 > VALUES then Poisoned
    else if AwaitsEntry(p) && p.count.entries + 1 > ENTRIES then Poisoned
    else if p.frames.Empty? && p.started then Poisoned
    else
      if code == 123 || code == 91 then Bracket(Counted(p), role, code) else Token(Counted(p), role, code)
  }

  /** A container opens. */
  function Bracket(q: Parser, role: nat, code: nat): Parser
    requires q.Parser?
  {
    if q.depth == DEPTH || q.count.containers + 1 > CONTAINERS then Poisoned
    else q.(count := q.count.Container(), depth := q.depth + 1, frames := Push(Opened(role, code), q.frames))
  }

  /** Any other value begins. */
  function Token(q: Parser, role: nat, code: nat): Parser
    requires q.Parser?
  {
    if code == 34 then StartString(q, false, role == 2)
    else if code == 116 || code == 102 || code == 110 then
      var word := if code == 116 then True else if code == 102 then False else Null;
      q.(lex := InLiteral(word.Print()[1..]), seen := if role == 2 then q.seen.(isNull := true) else q.seen)
    else if code == 45 || IsDigit(code) then
      q.(lex := InNumber(if code == 45 then SIGN else if code == 48 then ZERO else INTEGER))
    else Poisoned
  }

  /** The bookkeeping of one more value. */
  function Counted(p: Parser): Parser
    requires p.Parser?
  {
    var t := p.count.Value();
    if p.frames.Empty? then p.(started := true, count := t)
    else if AwaitsEntry(p) then p.(count := t.Entry()).SetTop(p.Top().(state := ARRAY_COMMA))
    else p.(count := t).SetTop(p.Top().(state := OBJECT_COMMA))
  }

  function Opened(role: nat, code: nat): Frame {
    Frame(if code == 123 then KEY_OR_END else VALUE_OR_END, if role == 3 then 1 else if role == 1 then 2 else 0, 0)
  }

  function StringChar(p: Parser, code: nat): (q: Parser)
    requires p.Sane() && p.Parser? && p.lex.InString?
    ensures q.Sane()
  {
    match p.lex.escape
    case HexDigits(value, left) =>
      var hex := HexDigit(code);
      if hex < 0 then Poisoned
      else if left == 1 then Unit(p.(lex := p.lex.(escape := Unescaped)), value * 16 + hex)
      else p.(lex := p.lex.(escape := HexDigits(value * 16 + hex, left - 1)))
    case Backslash =>
      if code == 117 then p.(lex := p.lex.(escape := HexDigits(0, 4)))
      else if ShortEscape(code) >= 0 then Unit(p.(lex := p.lex.(escape := Unescaped)), ShortEscape(code))
      else Poisoned
    case Unescaped =>
      if code == 34 then EndString(p)
      else if code == 92 then p.(lex := p.lex.(escape := Backslash))
      else if code < 32 then Poisoned
      else if code <= 0xffff then Unit(p, code)
      else
        var q := Unit(p, 0xd800 + (code - 0x10000) / 1024);
        if q.Poisoned? then q else Unit(q, 0xdc00 + (code - 0x10000) % 1024)
  }

  datatype NumberStep = More(state: nat) | Refused | Ended

  function NumberChar(state: nat, code: nat): NumberStep {
    if state == SIGN then (if IsDigit(code) then More(if code == 48 then ZERO else INTEGER) else Refused)
    else if state == DOT || state == EXP_SIGN then
      (if IsDigit(code) then More(if state == DOT then FRACTION else EXP_DIGITS) else Refused)
    else if state == EXPONENT then
      (if code == 43 || code == 45 then More(EXP_SIGN) else if IsDigit(code) then More(EXP_DIGITS) else Refused)
    else if IsDigit(code) then (if state == ZERO then Refused else More(state))
    else if code == 46 && (state == ZERO || state == INTEGER) then More(DOT)
    else if (code == 101 || code == 69) && (state == ZERO || state == INTEGER || state == FRACTION) then More(EXPONENT)
    else Ended
  }

  /** The surrounding grammar, with no token open. */
  function Grammar(p: Parser, code: nat): (q: Parser)
    requires p.Sane() && p.Parser? && p.lex.Idle?
    ensures q.Sane()
  {
    if IsSpace(code) then p
    else if p.frames.Empty? then StartValue(p, code)
    else
      var f := p.Top();
      if f.state == KEY_OR_END || f.state == KEY then
        if code == 125 && f.state == KEY_OR_END then p.Pop()
        else if code != 34 || p.count.members + 1 > MEMBERS then Poisoned
        else StartString(p.(count := p.count.Member()), true, false)
      else if f.state == COLON then
        if code != 58 then Poisoned else p.SetTop(f.(state := OBJECT_VALUE))
      else if f.state == OBJECT_VALUE || f.state == ARRAY_VALUE || f.state == VALUE_OR_END then
        if code == 93 && f.state == VALUE_OR_END then p.Pop() else StartValue(p, code)
      else if f.state == OBJECT_COMMA || f.state == ARRAY_COMMA then
        if code == (if f.state == OBJECT_COMMA then 125 else 93) then p.Pop()
        else if code == 44 then p.SetTop(f.(state := if f.state == OBJECT_COMMA then KEY else ARRAY_VALUE))
        else Poisoned
      else Poisoned
  }

  function Next(p: Parser, code: nat): (q: Parser)
    requires p.Sane()
    ensures q.Sane()
  {
    if p.Poisoned? then p
    else
      match p.lex
      case InString(_, _, _, _, _, _) => StringChar(p, code)
      case InLiteral(rest) =>
        if code != rest[0] then Poisoned
        else p.(lex := if |rest| == 1 then Idle else InLiteral(rest[1..]))
      case InNumber(state) =>
        (match NumberChar(state, code)
         case More(next) => p.(lex := InNumber(next))
         case Refused => Poisoned
         case Ended => Grammar(p.(lex := Idle), code))
      case Idle => Grammar(p, code)
  }

  function Run(p: Parser, s: Text): (q: Parser)
    requires p.Sane()
    ensures q.Sane()
    decreases |s|
  {
    if s == [] then p else Run(Next(p, s[0]), s[1..])
  }

  /** What `finish` demands of the grammar state. */
  predicate Complete(p: Parser) {
    p.Parser? && p.lex.Idle? && p.frames.Empty? && p.started
  }

  // ----- Elementary facts about runs

  lemma {:induction false} RunPoisoned(s: Text)
    ensures Run(Poisoned, s) == Poisoned
    decreases |s|
  {
    if s != [] { RunPoisoned(s[1..]); }
  }

  lemma RunCons(p: Parser, c: nat, s: Text)
    requires p.Sane()
    ensures Run(p, [c] + s) == Run(Next(p, c), s)
  {
    assert ([c] + s)[1..] == s;
  }

  lemma {:induction false} RunConcat(p: Parser, a: Text, b: Text)
    requires p.Sane()
    ensures Run(p, a + b) == Run(Run(p, a), b)
    decreases |a|
  {
    if a == [] {
      assert a + b == b;
    } else {
      assert (a + b)[1..] == a[1..] + b;
      RunConcat(Next(p, a[0]), a[1..], b);
    }
  }

  lemma {:induction false} RunBlank(p: Parser, blank: Text, rest: Text)
    requires p.Sane() && p.Parser? && p.lex.Idle? && Blank(blank)
    ensures Run(p, blank + rest) == Run(p, rest)
    decreases |blank|
  {
    if blank == [] {
      assert blank + rest == rest;
    } else {
      assert (blank + rest)[1..] == blank[1..] + rest;
      RunBlank(p, blank[1..], rest);
    }
  }
}
