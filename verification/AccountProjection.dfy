/**
 The account projection over bytes: UTF-8, the optional byte-order mark, chunks, the wire limit and `finish`.

 `Exact` is the theorem of this part: whatever the chunks, the projection answers `Some(r)` exactly when the
 bytes are the UTF-8 text of a JSON object within the limits whose `endpoints.api` is well typed and not
 repeated, and then `r` is that field of the tree.
 */
module AccountProjection {
  import opened Basics
  import opened JsonText
  import opened AccountMachine
  import opened AccountForward
  import opened AccountBackward
  import opened Utf8

  /** `endpoints` absent, present without `api`, or present with an `api` that is null or a string. */
  datatype Projection = NoEndpoints | NoApi | NullApi | Api(units: Text)

  datatype Machine = Machine(parser: Parser, firstScalar: bool, utf: Decoder)

  const FRESH: Machine := Machine(START, true, READY)

  function Scalar(m: Machine, code: nat): (m': Machine)
    requires m.parser.Sane()
    ensures m'.parser.Sane() && m'.utf == m.utf
  {
    if m.firstScalar && code == 0xfeff then m.(firstScalar := false)
    else m.(firstScalar := false, parser := Next(m.parser, code))
  }

  function Byte(m: Machine, byte: nat): (m': Machine)
    requires m.parser.Sane()
    ensures m'.parser.Sane()
  {
    if m.parser.Poisoned? then m
    else
      match Feed(m.utf, byte)
      case Wait(d) => m.(utf := d)
      case Malformed => m.(parser := Poisoned)
      case Emit(code) => Scalar(m.(utf := READY), code)
  }

  function Bytes(m: Machine, s: Text): (m': Machine)
    requires m.parser.Sane()
    ensures m'.parser.Sane()
    decreases |s|
  {
    if s == [] then m else Bytes(Byte(m, s[0]), s[1..])
  }

  /** The machine together with the number of bytes admitted so far. */
  datatype Session = Session(machine: Machine, bytes: nat)

  function Push(session: Session, chunk: Text): (s': Session)
    requires session.machine.parser.Sane()
    ensures s'.machine.parser.Sane()
  {
    if session.machine.parser.Poisoned? || session.bytes + |chunk| > WIRE then
      session.(machine := session.machine.(parser := Poisoned))
    else Session(Bytes(session.machine, chunk), session.bytes + |chunk|)
  }

  function PushAll(session: Session, chunks: seq<Text>): (s': Session)
    requires session.machine.parser.Sane()
    ensures s'.machine.parser.Sane()
    decreases |chunks|
  {
    if chunks == [] then session else PushAll(Push(session, chunks[0]), chunks[1..])
  }

  function Kept(seen: Seen): Projection {
    if !seen.endpoints then NoEndpoints
    else if !seen.api then NoApi
    else if seen.isNull then NullApi
    else Api(seen.url)
  }

  function Finish(m: Machine): Option<Projection> {
    if m.utf.remaining == 0 && Complete(m.parser) then Some(Kept(m.parser.seen)) else None
  }

  /** What a caller gets for these chunks: None when any `push` or `finish` throws. */
  function Outcome(chunks: seq<Text>): Option<Projection> {
    Finish(PushAll(Session(FRESH, 0), chunks).machine)
  }

  // ----- Chunks do not matter

  lemma {:induction false} BytesPoisoned(m: Machine, s: Text)
    requires m.parser.Poisoned?
    ensures Bytes(m, s) == m
    decreases |s|
  {
    if s != [] { BytesPoisoned(m, s[1..]); }
  }

  lemma {:induction false} BytesConcat(m: Machine, a: Text, b: Text)
    requires m.parser.Sane()
    ensures Bytes(m, a + b) == Bytes(Bytes(m, a), b)
    decreases |a|
  {
    hide Byte;
    if a == [] {
      assert a + b == b;
    } else {
      assert (a + b)[1..] == a[1..] + b;
      BytesConcat(Byte(m, a[0]), a[1..], b);
    }
  }

  lemma {:induction false} PushPoisoned(session: Session, chunks: seq<Text>)
    requires session.machine.parser.Poisoned?
    ensures PushAll(session, chunks).machine.parser.Poisoned?
    decreases |chunks|
  {
    if chunks != [] { PushPoisoned(Push(session, chunks[0]), chunks[1..]); }
  }

  lemma {:induction false} PushJoined(session: Session, chunks: seq<Text>)
    requires session.machine.parser.Sane() && session.bytes <= WIRE
    ensures Finish(PushAll(session, chunks).machine) ==
            if session.bytes + |Concat(chunks)| <= WIRE then Finish(Bytes(session.machine, Concat(chunks))) else None
    decreases |chunks|
  {
    if chunks != [] {
      var next := Push(session, chunks[0]);
      if session.machine.parser.Poisoned? {
        PushPoisoned(session, chunks);
        BytesPoisoned(session.machine, Concat(chunks));
      } else if session.bytes + |chunks[0]| > WIRE {
        PushPoisoned(next, chunks[1..]);
      } else {
        PushJoined(next, chunks[1..]);
        BytesConcat(session.machine, chunks[0], Concat(chunks[1..]));
      }
    }
  }

  /** The answer depends on the bytes alone. */
  lemma OutcomeOfBytes(chunks: seq<Text>)
    ensures Outcome(chunks) == if |Concat(chunks)| <= WIRE then Finish(Bytes(FRESH, Concat(chunks))) else None
  {
    hide Finish, Bytes;
    PushJoined(Session(FRESH, 0), chunks);
  }

  // ----- From bytes to scalar values

  lemma {:induction false} OneCode(m: Machine, bytes: Text, rest: Text)
    requires m.parser.Sane() && m.parser.Parser? && bytes != []
    requires FeedSome(m.utf, bytes).Emit?
    ensures Bytes(m, bytes + rest) == Bytes(Scalar(m.(utf := READY), FeedSome(m.utf, bytes).code), rest)
    decreases |bytes|
  {
    hide Scalar, Next;
    assert (bytes + rest)[1..] == bytes[1..] + rest;
    if |bytes| == 1 {
      assert bytes[1..] + rest == rest;
    } else {
      var fed := Feed(m.utf, bytes[0]);
      var m' := m.(utf := fed.decoder);
      OneCode(m', bytes[1..], rest);
      assert m'.(utf := READY) == m.(utf := READY);
    }
  }

  /** Past the first scalar value, the machine on encoded text is the parser on the text. */
  lemma {:induction false} EncodedRun(m: Machine, s: Text)
    requires m.parser.Sane() && m.utf == READY && !m.firstScalar && Scalars(s)
    ensures Bytes(m, EncodeAll(s)) == Machine(Run(m.parser, s), false, READY) || Run(m.parser, s).Poisoned?
    ensures Run(m.parser, s).Poisoned? ==> Bytes(m, EncodeAll(s)).parser.Poisoned?
    decreases |s|
  {
    hide Next;
    if m.parser.Poisoned? {
      BytesPoisoned(m, EncodeAll(s));
      RunPoisoned(s);
    } else if s != [] {
      DecodesEncoded(s[0]);
      OneCode(m, Encode(s[0]), EncodeAll(s[1..]));
      EncodedRun(m.(parser := Next(m.parser, s[0])), s[1..]);
    }
  }

  function Strip(s: Text): Text {
    if s != [] && s[0] == 0xfeff then s[1..] else s
  }

  lemma FinishEncoded(s: Text)
    requires Scalars(s)
    ensures var q := Run(START, Strip(s));
            Finish(Bytes(FRESH, EncodeAll(s))) == if Complete(q) then Some(Kept(q.seen)) else None
  {
    hide Next, Kept;
    if s == [] {
      assert Bytes(FRESH, EncodeAll(s)) == FRESH;
    } else {
      DecodesEncoded(s[0]);
      OneCode(FRESH, Encode(s[0]), EncodeAll(s[1..]));
      var m := Scalar(FRESH, s[0]);
      assert FRESH.(utf := READY) == FRESH;
      EncodedRun(m, s[1..]);
    }
  }

  /** A byte sequence the machine survives is the encoding of scalar values. */
  lemma {:induction false} CodesBehind(m: Machine, s: Text) returns (codes: Text)
    requires m.parser.Sane() && m.utf == READY && Finish(Bytes(m, s)).Some?
    ensures Scalars(codes) && s == EncodeAll(codes)
    decreases |s|
  {
    hide Scalar, Next;
    if s == [] {
      codes := [];
    } else {
      if m.parser.Poisoned? { BytesPoisoned(m, s); }
      var n := FirstCode(m, s, READY);
      var c := FeedSome(READY, s[..n]).code;
      OnlyEncoded(s[..n], c);
      assert s == s[..n] + s[n..];
      OneCode(m, s[..n], s[n..]);
      var more := CodesBehind(Scalar(m, c), s[n..]);
      codes := [c] + more;
      assert codes[1..] == more;
    }
  }

  /** The end of the first character of a surviving byte sequence. */
  lemma {:induction false} FirstCode(m: Machine, s: Text, d: Decoder) returns (n: nat)
    requires m.parser.Sane() && m.parser.Parser? && s != [] && Finish(Bytes(m.(utf := d), s)).Some?
    ensures 0 < n <= |s| && FeedSome(d, s[..n]).Emit?
    decreases |s|
  {
    hide Scalar, Next;
    var fed := Feed(d, s[0]);
    if fed.Malformed? {
      BytesPoisoned(Byte(m.(utf := d), s[0]), s[1..]);
    } else if fed.Emit? {
      n := 1;
      assert s[..1][0] == s[0];
    } else {
      assert m.(utf := d).(utf := fed.decoder) == m.(utf := fed.decoder);
      if |s| == 1 { Dangling(m.(utf := d), s); }
      n := FirstCode(m, s[1..], fed.decoder);
      n := n + 1;
      assert s[..n][1..] == s[1..][..n - 1];
    }
  }

  lemma Dangling(m: Machine, s: Text)
    requires m.parser.Sane() && m.parser.Parser? && |s| == 1 && Feed(m.utf, s[0]).Wait?
    ensures Finish(Bytes(m, s)).None?
  {
    assert Bytes(m, s) == Byte(m, s[0]);
  }

  // ----- The tree side

  /** The values of the members with this decoded key, in order. */
  function Select(ms: Members, key: Text): seq<Value>
    requires ms.Valid()
    decreases ms
  {
    match ms
    case NoMember => []
    case Member(_, k, _, _, v, _, next) => (if CharUnits(k) == key then [v] else []) + Select(next, key)
  }

  lemma {:induction false} SelectedValid(ms: Members, key: Text)
    requires ms.Valid()
    ensures forall i :: 0 <= i < |Select(ms, key)| ==> Select(ms, key)[i].Valid()
    decreases ms
  {
    if ms.Member? { SelectedValid(ms.next, key); }
  }

  /** The one field that is kept, or None when it is repeated or has the wrong type. */
  function ApiOf(ms: Members): Option<Projection>
    requires ms.Valid()
  {
    SelectedValid(ms, API);
    var found := Select(ms, API);
    if |found| == 0 then Some(NoApi)
    else if |found| > 1 then None
    else if found[0] == Literal(Null) then Some(NullApi)
    else if found[0].String? && |CharUnits(found[0].chars)| <= URL_UNITS then Some(Api(CharUnits(found[0].chars)))
    else None
  }

  function FieldOf(root: Value): Option<Projection>
    requires root.Valid()
  {
    if !root.Object? then None
    else
      SelectedValid(root.members, ENDPOINTS);
      var found := Select(root.members, ENDPOINTS);
      if |found| == 0 then Some(NoEndpoints)
      else if |found| > 1 || !found[0].Object? then None
      else ApiOf(found[0].members)
  }

  /** The limits a caller can check on the tree; the value and unit limits are not among them. */
  predicate Small(root: Value)
    requires root.Valid()
  {
    var t := root.Count(NOTHING);
    t.containers <= CONTAINERS && t.members <= MEMBERS && t.entries <= ENTRIES && root.Depth() <= DEPTH
  }

  predicate Accepted(bytes: Text, bom: bool, d: Document, r: Projection) {
    && d.Valid() && d.root.Object? && Scalars(d.Print())
    && bytes == EncodeAll((if bom then [0xfeff] else []) + d.Print())
    && |bytes| <= WIRE && Small(d.root) && FieldOf(d.root) == Some(r)
  }

  // ----- The walk of the machine is the field of the tree

  lemma {:induction false} NoMoreApi(ms: Members, seen: Seen)
    requires ms.Valid() && seen.api && |seen.url| <= URL_UNITS
    ensures WalkMembers(2, ms, seen) == if Select(ms, API) == [] then Some(seen) else None
    decreases ms
  {
    if ms.Member? { NoMoreApi(ms.next, seen); }
  }

  lemma {:induction false} WalkApi(ms: Members, seen: Seen)
    requires ms.Valid() && seen == Seen(true, false, false, [])
    ensures WalkMembers(2, ms, seen).Some? == ApiOf(ms).Some?
    ensures ApiOf(ms).Some? ==>
              WalkMembers(2, ms, seen).value.endpoints && Kept(WalkMembers(2, ms, seen).value) == ApiOf(ms).value
    decreases ms
  {
    if ms.Member? {
      if CharUnits(ms.key) == API {
        var met := seen.(api := true);
        var walked := Walk(2, ms.value, met);
        assert Select(ms, API) == [ms.value] + Select(ms.next, API);
        if walked.Some? {
          assert [] + CharUnits(if ms.value.String? then ms.value.chars else []) == CharUnits(if ms.value.String? then ms.value.chars else []);
          NoMoreApi(ms.next, walked.value);
        }
      } else {
        assert Select(ms, API) == Select(ms.next, API);
        WalkApi(ms.next, seen);
      }
    }
  }

  lemma {:induction false} NoMoreEndpoints(ms: Members, seen: Seen)
    requires ms.Valid() && seen.endpoints && |seen.url| <= URL_UNITS
    ensures WalkMembers(1, ms, seen) == if Select(ms, ENDPOINTS) == [] then Some(seen) else None
    decreases ms
  {
    if ms.Member? { NoMoreEndpoints(ms.next, seen); }
  }

  /** One member of the root: a key that is not kept is passed over, the kept one is walked. */
  lemma RootStep(ms: Members)
    requires ms.Valid() && ms.Member?
    ensures ms.value.Valid() && (ms.value.Object? ==> ms.value.members.Valid())
    ensures CharUnits(ms.key) != ENDPOINTS ==>
              && WalkMembers(1, ms, START.seen) == WalkMembers(1, ms.next, START.seen)
              && FieldOf(Object([], ms)) == FieldOf(Object([], ms.next))
    ensures CharUnits(ms.key) == ENDPOINTS ==>
              var met := START.seen.(endpoints := true);
              var walked := if ms.value.Object? then WalkMembers(2, ms.value.members, met) else None;
              && WalkMembers(1, ms, START.seen) == (if walked.None? then None else WalkMembers(1, ms.next, walked.value))
              && FieldOf(Object([], ms)) == if Select(ms.next, ENDPOINTS) != [] || !ms.value.Object? then None else ApiOf(ms.value.members)
  {
    hide CharUnits, ApiOf;
    if CharUnits(ms.key) == ENDPOINTS {
      assert Select(ms, ENDPOINTS) == [ms.value] + Select(ms.next, ENDPOINTS);
    } else {
      assert Select(ms, ENDPOINTS) == Select(ms.next, ENDPOINTS);
    }
  }

  lemma {:induction false} WalkRoot(ms: Members)
    requires ms.Valid()
    ensures var walked := WalkMembers(1, ms, START.seen);
            var field := FieldOf(Object([], ms));
            walked.Some? == field.Some? && (field.Some? ==> Kept(walked.value) == field.value)
    decreases ms
  {
    if ms.Member? {
      hide WalkMembers, Walk, FieldOf, Select, ApiOf, CharUnits;
      RootStep(ms);
      if CharUnits(ms.key) != ENDPOINTS {
        WalkRoot(ms.next);
      } else if ms.value.Object? {
        var met := START.seen.(endpoints := true);
        WalkApi(ms.value.members, met);
        var walked := WalkMembers(2, ms.value.members, met);
        if walked.Some? { NoMoreEndpoints(ms.next, walked.value); }
      }
    }
  }

  lemma WalkIsField(root: Value)
    requires root.Valid() && root.Object?
    ensures var walked := Walk(3, root, START.seen);
            walked.Some? == FieldOf(root).Some? && (walked.Some? ==> FieldOf(root) == Some(Kept(walked.value)))
  {
    WalkRoot(root.members);
  }

  // ----- The unit limit is implied by the wire limit

  /** One per code, and one more per code that needs a surrogate pair. */
  function Weight(s: Text): nat {
    if s == [] then 0 else (if s[0] > 0xffff then 2 else 1) + Weight(s[1..])
  }

  lemma {:induction false} WeightConcat(a: Text, b: Text)
    ensures Weight(a + b) == Weight(a) + Weight(b)
    decreases |a|
  {
    if a == [] {
      assert a + b == b;
    } else {
      assert (a + b)[1..] == a[1..] + b;
      WeightConcat(a[1..], b);
    }
  }

  lemma {:induction false} WeightEncoded(s: Text)
    ensures Weight(s) <= |EncodeAll(s)|
    decreases |s|
  {
    if s != [] { WeightEncoded(s[1..]); }
  }

  lemma {:induction false} LetterUnits(cs: seq<Letter>)
    requires ValidChars(cs)
    ensures |CharUnits(cs)| <= Weight(PrintChars(cs))
    decreases |cs|
  {
    if cs != [] {
      WeightConcat(cs[0].Print(), PrintChars(cs[1..]));
      OneWeight(cs[0]);
      LetterUnits(cs[1..]);
    }
  }

  lemma OneWeight(c: Letter)
    requires c.Valid()
    ensures |c.Units()| <= Weight(c.Print())
  {
    if !c.Raw? {
      assert c.Print() == [c.Print()[0]] + c.Print()[1..];
    }
  }

  lemma {:induction false} ValueUnits(v: Value, t: Tally)
    requires v.Valid()
    ensures v.Count(t).units - t.units <= Weight(v.Print())
    decreases v
  {
    match v
    case String(cs) =>
      LetterUnits(cs);
      WeightConcat([34] + PrintChars(cs), [34]);
      WeightConcat([34], PrintChars(cs));
    case Array(blank, es) =>
      ElementUnits(es, t.Value().Container());
      WeightConcat([91] + es.Print(), [93]);
      WeightConcat([91], es.Print());
    case Object(blank, ms) =>
      MemberUnits(ms, t.Value().Container());
      WeightConcat([123] + ms.Print(), [125]);
      WeightConcat([123], ms.Print());
    case _ =>
  }

  lemma {:induction false} ElementUnits(es: Elements, t: Tally)
    requires es.Valid()
    ensures es.Count(t).units - t.units <= Weight(es.Print())
    decreases es
  {
    if es.Element? {
      var last := if es.next.NoElement? then [] else [44] + es.next.Print();
      ValueUnits(es.value, t.Entry());
      ElementUnits(es.next, es.value.Count(t.Entry()));
      WeightConcat(es.before, es.value.Print() + (es.after + last));
      WeightConcat(es.value.Print(), es.after + last);
      WeightConcat(es.after, last);
      WeightConcat([44], es.next.Print());
    }
  }

  lemma {:induction false} MemberUnits(ms: Members, t: Tally)
    requires ms.Valid()
    ensures ms.Count(t).units - t.units <= Weight(ms.Print())
    decreases ms
  {
    hide CharUnits, PrintChars;
    if ms.Member? {
      var last := if ms.next.NoMember? then [] else [44] + ms.next.Print();
      var t' := t.Member().Units(|CharUnits(ms.key)|);
      LetterUnits(ms.key);
      ValueUnits(ms.value, t');
      MemberUnits(ms.next, ms.value.Count(t'));
      var s4 := ms.value.Print() + (ms.after + last);
      var s3 := ms.gap + ([58] + (ms.lead + s4));
      WeightConcat(ms.before, [34] + (PrintChars(ms.key) + ([34] + s3)));
      WeightConcat([34], PrintChars(ms.key) + ([34] + s3));
      WeightConcat(PrintChars(ms.key), [34] + s3);
      WeightConcat([34], s3);
      WeightConcat(ms.gap, [58] + (ms.lead + s4));
      WeightConcat([58], ms.lead + s4);
      WeightConcat(ms.lead, s4);
      WeightConcat(ms.value.Print(), ms.after + last);
      WeightConcat(ms.after, last);
      WeightConcat([44], ms.next.Print());
      assert [44] + ms.next.Print() != [];
    }
  }

  // ----- The theorem

  lemma DocumentRun(d: Document)
    requires d.Valid() && d.root.Object?
    ensures Run(START, d.Print()) == After(START, d.root.Count(NOTHING), d.root.Depth(), Walk(3, d.root, START.seen))
  {
    hide Run, Next, After, Walk;
    RunBlank(START, d.before, d.root.Print() + d.after);
    ValueRun(START, d.root, d.after);
    var q := After(START, d.root.Count(NOTHING), d.root.Depth(), Walk(3, d.root, START.seen));
    assert d.after + [] == d.after;
    if q.Parser? {
      RunBlank(q, d.after, []);
    } else {
      RunPoisoned(d.after);
    }
    EmptyRun(q);
  }

  lemma EmptyRun(p: Parser)
    requires p.Sane()
    ensures Run(p, []) == p
  {}

  /** The value and unit limits never decide. */
  lemma SmallFits(d: Document)
    requires d.Valid() && d.root.Object? && |EncodeAll(d.Print())| <= WIRE
    ensures Fits(START, d.root.Count(NOTHING), d.root.Depth()) == Small(d.root)
  {
    CountGrows(d.root, NOTHING);
    ValueUnits(d.root, NOTHING);
    WeightConcat(d.before, d.root.Print() + d.after);
    WeightConcat(d.root.Print(), d.after);
    WeightEncoded(d.Print());
  }

  lemma FirstOf(d: Document)
    requires d.Valid() && d.root.Object?
    ensures d.Print() != [] && d.Print()[0] != 0xfeff
  {
    if d.before == [] {
      assert d.Print()[0] == d.root.Print()[0] == 123;
    } else {
      assert d.Print()[0] == d.before[0] && IsSpace(d.before[0]);
    }
  }

  lemma Forward(chunks: seq<Text>, bom: bool, d: Document, r: Projection)
    requires Accepted(Concat(chunks), bom, d, r)
    ensures Outcome(chunks) == Some(r)
  {
    hide Run, Next, Walk, EncodeAll, Bytes, Finish;
    var mark := if bom then [0xfeff] else [];
    var codes := mark + d.Print();
    OutcomeOfBytes(chunks);
    FirstOf(d);
    FinishEncoded(codes);
    assert Strip(codes) == d.Print();
    DocumentRun(d);
    WalkIsField(d.root);
    EncodeConcat(mark, d.Print());
    SmallFits(d);
  }

  lemma Backward(chunks: seq<Text>, r: Projection) returns (bom: bool, d: Document)
    requires Outcome(chunks) == Some(r)
    ensures Accepted(Concat(chunks), bom, d, r)
  {
    hide Run, Next, Walk, EncodeAll, Bytes, Finish;
    OutcomeOfBytes(chunks);
    var bytes := Concat(chunks);
    assert FRESH.utf == READY;
    var codes := CodesBehind(FRESH, bytes);
    FinishEncoded(codes);
    bom := codes != [] && codes[0] == 0xfeff;
    var mark := if bom then [0xfeff] else [];
    d := DocumentBehind(Strip(codes));
    assert codes == mark + d.Print();
    DocumentRun(d);
    WalkIsField(d.root);
    EncodeConcat(mark, d.Print());
    SmallFits(d);
  }

  /** Exactness, for every chunking. */
  lemma Exact(chunks: seq<Text>, r: Projection)
    ensures Outcome(chunks) == Some(r) <==> exists bom, d :: Accepted(Concat(chunks), bom, d, r)
  {
    if Outcome(chunks) == Some(r) {
      var bom, d := Backward(chunks, r);
    } else if exists bom, d :: Accepted(Concat(chunks), bom, d, r) {
      var bom, d :| Accepted(Concat(chunks), bom, d, r);
      Forward(chunks, bom, d, r);
    }
  }

  /** The same bytes get the same answer however they are cut. */
  lemma ChunkingIsIrrelevant(a: seq<Text>, b: seq<Text>)
    requires Concat(a) == Concat(b)
    ensures Outcome(a) == Outcome(b)
  {
    OutcomeOfBytes(a);
    OutcomeOfBytes(b);
  }

  /** The two keys of the field that is kept. */
  lemma KeysSpelled()
    ensures ENDPOINTS == seq(9, i requires 0 <= i < 9 => "endpoints"[i] as nat) && API == seq(3, i requires 0 <= i < 3 => "api"[i] as nat)
  {}
}
