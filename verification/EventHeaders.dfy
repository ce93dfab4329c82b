/**
 `eventHeaders` and `decodeBedrockEventFrame` of `worker/bedrock-eventstream.ts`: the header loop accepts exactly the
 encodings of admissible header lists.
 */
module EventHeaders {
  import opened Basics
  import Crc
  import opened EventFrames

  // ----- One header

  datatype Read = Read(header: Header, size: nat)

  /** The header at the front of the bytes. */
  function ReadHeader(b: Bytes): (r: Option<Read>)
    ensures r.Some? ==> 0 < r.value.size <= |b|
  {
    if b == [] then None
    else
      var n: nat := b[0];
      if n == 0 || 1 + n + 1 > |b| then None
      else
        var name, kind: nat := b[1..1 + n], b[1 + n];
        if kind > 9 || (Sized(kind) && 4 + n > |b|) then None
        else
          var start := if Sized(kind) then 4 + n else 2 + n;
          var size := if Sized(kind) then U16(b, 2 + n) else FixedSize(kind);
          if start + size > |b| then None
          else Some(Read(Header(name, kind, b[start..start + size]), start + size))
  }

  function U16(b: Bytes, at: nat): nat
    requires at + 2 <= |b|
  {
    var x, y: int := b[at], b[at + 1];
    x * 256 + y
  }

  lemma ReadsEncoded(h: Header, rest: Bytes)
    requires WellFormed(h)
    ensures ReadHeader(Encode(h) + rest) == Some(Read(h, |Encode(h)|))
  {
    var b := Encode(h) + rest;
    var n := |h.name|;
    assert b[0] == n && b[1..1 + n] == h.name && b[1 + n] == h.kind;
    if Sized(h.kind) {
      assert b[2 + n] == |h.value| / 256 && b[3 + n] == |h.value| % 256;
      assert b[4 + n..4 + n + |h.value|] == h.value;
    } else {
      assert b[2 + n..2 + n + |h.value|] == h.value;
    }
  }

  lemma OnlyEncoded(b: Bytes)
    requires ReadHeader(b).Some?
    ensures WellFormed(ReadHeader(b).value.header) && b[..ReadHeader(b).value.size] == Encode(ReadHeader(b).value.header)
  {
    var r := ReadHeader(b).value;
    var n: nat := b[0];
    assert b[..1 + n] == [b[0]] + b[1..1 + n];
    if Sized(r.header.kind) {
      var x, y: int := b[2 + n], b[3 + n];
      assert Size16(|r.header.value|) == [x, y] by { assert (x * 256 + y) / 256 == x && (x * 256 + y) % 256 == y; }
      assert b[2 + n..4 + n] == [x, y];
      assert b[..r.size] == b[..1 + n] + [b[1 + n]] + b[2 + n..4 + n] + b[4 + n..r.size];
    } else {
      assert b[..r.size] == b[..1 + n] + [b[1 + n]] + [] + b[2 + n..r.size];
    }
  }

  // ----- All headers

  /** The headers of the bytes, none of them named in `names`. */
  function ReadAll(decode: TextDecoder, b: Bytes, names: set<string>): Option<seq<Header>>
    decreases |b|
  {
    if b == [] then Some([])
    else
      var r :- ReadHeader(b);
      if !Metadatum(decode, r.header) || decode(r.header.name).value in names then None
      else
        var rest :- ReadAll(decode, b[r.size..], names + {decode(r.header.name).value});
        Some([r.header] + rest)
  }

  predicate Fresh(decode: TextDecoder, hs: seq<Header>, names: set<string>)
    requires Admissible(decode, hs)
  {
    forall i :: 0 <= i < |hs| ==> decode(hs[i].name).value !in names
  }

  lemma AdmissibleTail(decode: TextDecoder, hs: seq<Header>)
    requires hs != [] && Admissible(decode, hs)
    ensures Admissible(decode, hs[1..]) && forall i :: 0 <= i < |hs| - 1 ==> decode(hs[1..][i].name) != decode(hs[0].name)
  {
    forall i | 0 <= i < |hs| - 1 ensures hs[1..][i] == hs[i + 1] {}
    forall i, j | 0 <= i < j < |hs| - 1 ensures decode(hs[1..][i].name) != decode(hs[1..][j].name) {
      assert hs[1..][i] == hs[i + 1] && hs[1..][j] == hs[j + 1];
    }
  }

  lemma AdmissibleCons(decode: TextDecoder, h: Header, hs: seq<Header>)
    requires Admissible(decode, hs) && WellFormed(h) && Metadatum(decode, h)
    requires forall i :: 0 <= i < |hs| ==> decode(hs[i].name) != decode(h.name)
    ensures Admissible(decode, [h] + hs)
  {
    var all := [h] + hs;
    forall i, j | 0 <= i < j < |all| ensures decode(all[i].name) != decode(all[j].name) {
      assert all[j] == hs[j - 1];
      assert i > 0 ==> all[i] == hs[i - 1];
    }
  }

  lemma {:induction false} ReadAllEncoded(decode: TextDecoder, hs: seq<Header>, names: set<string>)
    requires Admissible(decode, hs) && Fresh(decode, hs, names)
    ensures ReadAll(decode, EncodeAll(hs), names) == Some(hs)
    decreases |hs|
  {
    hide ReadHeader, Encode, WellFormed;
    if hs != [] {
      var h, rest := hs[0], hs[1..];
      var b := EncodeAll(hs);
      AdmissibleTail(decode, hs);
      ReadsEncoded(h, EncodeAll(rest));
      assert b[|Encode(h)|..] == EncodeAll(rest);
      assert Metadatum(decode, h);
      ReadAllEncoded(decode, rest, names + {decode(h.name).value});
      assert [h] + rest == hs;
    }
  }

  lemma {:induction false} ReadAllOnly(decode: TextDecoder, b: Bytes, names: set<string>)
    requires ReadAll(decode, b, names).Some?
    ensures var hs := ReadAll(decode, b, names).value;
            Admissible(decode, hs) && Fresh(decode, hs, names) && EncodeAll(hs) == b
    decreases |b|
  {
    hide ReadHeader, Encode, WellFormed, Admissible, Fresh, EncodeAll;
    if b == [] {
      NothingEncoded(decode, names);
    } else {
      var r := ReadHeader(b).value;
      var names' := names + {decode(r.header.name).value};
      OnlyEncoded(b);
      ReadAllOnly(decode, b[r.size..], names');
      var rest := ReadAll(decode, b[r.size..], names').value;
      Consed(decode, r.header, rest, names);
      assert b == b[..r.size] + b[r.size..];
    }
  }

  lemma NothingEncoded(decode: TextDecoder, names: set<string>)
    ensures Admissible(decode, []) && Fresh(decode, [], names) && EncodeAll([]) == []
  {}

  lemma Consed(decode: TextDecoder, h: Header, rest: seq<Header>, names: set<string>)
    requires WellFormed(h) && Metadatum(decode, h) && decode(h.name).value !in names
    requires Admissible(decode, rest) && Fresh(decode, rest, names + {decode(h.name).value})
    ensures var hs := [h] + rest;
            Admissible(decode, hs) && Fresh(decode, hs, names) && EncodeAll(hs) == Encode(h) + EncodeAll(rest)
  {
    hide WellFormed, Encode;
    var hs := [h] + rest;
    assert hs[1..] == rest;
    AdmissibleCons(decode, h, rest);
    forall i | 0 <= i < |hs| ensures decode(hs[i].name).value !in names {
      assert i > 0 ==> hs[i] == rest[i - 1];
    }
  }

  /** The headers are read exactly when they encode an admissible list, and then they are that list. */
  lemma HeadersExact(decode: TextDecoder, b: Bytes, hs: seq<Header>)
    ensures ReadAll(decode, b, {}) == Some(hs) <==> Admissible(decode, hs) && EncodeAll(hs) == b
  {
    if Admissible(decode, hs) && EncodeAll(hs) == b { ReadAllEncoded(decode, hs, {}); }
    if ReadAll(decode, b, {}) == Some(hs) { ReadAllOnly(decode, b, {}); }
  }

  // ----- The program

  /** The header at the cursor, and the cursor after it. */
  method NextHeader(b: Bytes, start: nat) returns (r: Option<Header>, offset: nat)
    requires start < |b|
    ensures r.None? <==> ReadHeader(b[start..]).None?
    ensures r.Some? ==> r.value == ReadHeader(b[start..]).value.header && offset == start + ReadHeader(b[start..]).value.size <= |b|
  {
    ghost var view := b[start..];
    offset := start;
    var length: nat := b[offset];
    offset := offset + 1;
    if length == 0 || offset + length + 1 > |b| { return None, offset; }
    var name := b[offset..offset + length];
    assert name == view[1..1 + length];
    offset := offset + length;
    var kind: nat := b[offset];
    offset := offset + 1;
    if kind > 9 { return None, offset; }
    var size := FixedSize(kind);
    if Sized(kind) {
      if offset + 2 > |b| { return None, offset; }
      size := U16(b, offset);
      offset := offset + 2;
    }
    if offset + size > |b| { return None, offset; }
    assert b[offset..offset + size] == view[offset - start..offset - start + size];
    r := Some(Header(name, kind, b[offset..offset + size]));
    offset := offset + size;
  }

  ghost function NamesOf(decode: TextDecoder, hs: seq<Header>): set<string>
    requires Admissible(decode, hs)
  {
    set i | 0 <= i < |hs| :: decode(hs[i].name).value
  }

  lemma Appended(decode: TextDecoder, hs: seq<Header>, h: Header)
    requires Admissible(decode, hs) && WellFormed(h) && Metadatum(decode, h) && decode(h.name).value !in NamesOf(decode, hs)
    ensures Admissible(decode, hs + [h])
    ensures NamesOf(decode, hs + [h]) == NamesOf(decode, hs) + {decode(h.name).value}
    ensures MetadataOf(decode, hs + [h]) ==
              if Metadata(decode(h.name).value) then MetadataOf(decode, hs)[decode(h.name).value := decode(h.value).value] else MetadataOf(decode, hs)
  {
    var all := hs + [h];
    var n := |hs|;
    assert all[n] == h && forall i :: 0 <= i < n ==> all[i] == hs[i];
    assert Admissible(decode, all);
    forall x | x in NamesOf(decode, all) ensures x in NamesOf(decode, hs) + {decode(h.name).value} {
      var i :| 0 <= i < |all| && x == decode(all[i].name).value;
      assert i < n ==> decode(hs[i].name).value == x;
    }
    forall x | x in NamesOf(decode, hs) ensures x in NamesOf(decode, all) {
      var i :| 0 <= i < n && x == decode(hs[i].name).value;
      assert decode(all[i].name).value == x;
    }
    assert decode(all[n].name).value in NamesOf(decode, all);
    assert all[..n] == hs;
  }

  /** The metadata of exactly the admissible header lists; everything else is refused. */
  method EventHeaders(decode: TextDecoder, b: Bytes) returns (r: Option<map<string, string>>)
    ensures r.Some? <==> ReadAll(decode, b, {}).Some?
    ensures r.Some? ==> Admissible(decode, ReadAll(decode, b, {}).value) && r.value == MetadataOf(decode, ReadAll(decode, b, {}).value)
  {
    hide ReadHeader, WellFormed, MetadataOf, NamesOf;
    var offset, names, result := 0, {}, map[];
    ghost var done: seq<Header> := [];
    NoHeaders(decode);
    assert b[0..] == b;
    while offset < |b|
      invariant offset <= |b| && Admissible(decode, done)
      invariant names == NamesOf(decode, done) && result == MetadataOf(decode, done)
      invariant ReadAll(decode, b, {}) == Prepended(done, ReadAll(decode, b[offset..], names))
      decreases |b| - offset
    {
      ghost var view := b[offset..];
      var h, next := NextHeader(b, offset);
      if h.None? { return None; }
      OnlyEncoded(view);
      var name := decode(h.value.name);
      if name.None? || name.value in names { return None; }
      if Metadata(name.value) {
        if h.value.kind != TEXT_KIND || decode(h.value.value).None? { return None; }
        result := result[name.value := decode(h.value.value).value];
      }
      Appended(decode, done, h.value);
      names := names + {name.value};
      assert view[next - offset..] == b[next..];
      PrependedStep(done, h.value, ReadAll(decode, b[next..], names));
      done := done + [h.value];
      offset := next;
    }
    assert done + [] == done;
    r := Some(result);
  }

  lemma NoHeaders(decode: TextDecoder)
    ensures Admissible(decode, []) && NamesOf(decode, []) == {} && MetadataOf(decode, []) == map[]
    ensures forall all :: Prepended([], all) == all
  {
    forall all: Option<seq<Header>> ensures Prepended([], all) == all {
      if all.Some? { assert [] + all.value == all.value; }
    }
  }

  function Prepended(done: seq<Header>, rest: Option<seq<Header>>): Option<seq<Header>> {
    if rest.None? then None else Some(done + rest.value)
  }

  lemma PrependedStep(done: seq<Header>, h: Header, rest: Option<seq<Header>>)
    ensures Prepended(done, if rest.None? then None else Some([h] + rest.value)) == Prepended(done + [h], rest)
  {
    if rest.Some? { assert done + ([h] + rest.value) == done + [h] + rest.value; }
  }

  method PreludeOf(table: array<bv32>, b: Bytes) returns (p: Option<Prelude>)
    requires Crc.IsTable(table)
    ensures p == EventPrelude(b)
  {
    if |b| < 12 { return None; }
    var length, headers := U32(b, 0), U32(b, 4);
    var sum := Crc.Crc32(table, Bits(b[..8]));
    if sum as int != U32(b, 8) || length < 16 || headers > length - 16 { return None; }
    p := Some(Prelude(length, 12 + headers));
  }

  /** A frame is decoded exactly when it is sound. */
  method DecodeFrame(table: array<bv32>, decode: TextDecoder, f: Bytes) returns (headers: Option<map<string, string>>, payload: Bytes)
    requires Crc.IsTable(table)
    ensures headers.Some? <==> SoundFrame(decode, f)
    ensures headers.Some? ==> payload == f[EventPrelude(f).value.headerEnd..|f| - 4]
    ensures headers.Some? ==>
              exists hs :: Admissible(decode, hs) && EncodeAll(hs) == f[12..EventPrelude(f).value.headerEnd] && headers.value == MetadataOf(decode, hs)
  {
    hide EventPrelude, MetadataOf, EncodeAll, ReadAll;
    payload := [];
    var p := PreludeOf(table, f);
    if p.None? || |f| != p.value.length { return None, payload; }
    var sum := Crc.Crc32(table, Bits(f[..|f| - 4]));
    if sum as int != U32(f, |f| - 4) { return None, payload; }
    var view := f[12..p.value.headerEnd];
    headers := EventHeaders(decode, view);
    if headers.Some? { HeadersExact(decode, view, ReadAll(decode, view, {}).value); }
    if hs :| Admissible(decode, hs) && EncodeAll(hs) == view { HeadersExact(decode, view, hs); }
    payload := f[p.value.headerEnd..|f| - 4];
  }
}
