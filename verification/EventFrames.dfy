/**
 Frames of a binary event stream, as `worker/bedrock-eventstream.ts` checks them: a length-delimited frame with a checked
 prelude, a list of headers and a payload, and how a stream of them is split.
 */
module EventFrames {
  import opened Basics
  import Crc

  type Byte = x: int | 0 <= x < 256
  type Bytes = seq<Byte>

  const INSPECTION_LIMIT: nat := 2097152
  const TEXT_KIND: nat := 7

  // ----- Checksums and numbers

  function Bits(b: Bytes): seq<bv8> {
    seq(|b|, i requires 0 <= i < |b| => b[i] as bv8)
  }

  function Checksum(b: Bytes): int {
    Crc.Checksum(Bits(b)) as int
  }

  function U32(b: Bytes, at: nat): nat
    requires at + 4 <= |b|
  {
    var w, x, y, z: int := b[at], b[at + 1], b[at + 2], b[at + 3];
    w * 16777216 + x * 65536 + y * 256 + z
  }

  // ----- Headers

  datatype Header = Header(name: Bytes, kind: nat, value: Bytes)

  predicate Sized(kind: nat) {
    kind == 6 || kind == 7
  }

  function FixedSize(kind: nat): nat
    requires kind <= 9
  {
    [0, 0, 1, 2, 4, 8, 0, 0, 8, 16][kind]
  }

  /** The sizes of header values: none for the two truth values, one to eight bytes for numbers, eight for an instant, sixteen for
      an identifier; byte strings and text carry their own. */
  lemma ValueSizes(kind: nat)
    requires kind <= 9
    ensures Sized(kind) <==> kind == 6 || kind == TEXT_KIND
    ensures kind < 2 ==> FixedSize(kind) == 0
    ensures 2 <= kind <= 5 ==> FixedSize(kind) == [1, 2, 4, 8][kind - 2]
    ensures FixedSize(8) == 8 && FixedSize(9) == 16
  {}

  predicate WellFormed(h: Header) {
    0 < |h.name| < 256 && h.kind <= 9 && (if Sized(h.kind) then |h.value| < 65536 else |h.value| == FixedSize(h.kind))
  }

  function Size16(n: nat): Bytes
    requires n < 65536
  {
    [n / 256, n % 256]
  }

  function Encode(h: Header): Bytes
    requires WellFormed(h)
  {
    var kind: Byte := h.kind;
    [|h.name|] + h.name + [kind] + (if Sized(h.kind) then Size16(|h.value|) else []) + h.value
  }

  function EncodeAll(hs: seq<Header>): Bytes
    requires forall i :: 0 <= i < |hs| ==> WellFormed(hs[i])
  {
    if hs == [] then [] else Encode(hs[0]) + EncodeAll(hs[1..])
  }

  /** The decoder of names and text values: any partial function from bytes to text. */
  type TextDecoder = Bytes -> Option<string>

  predicate Metadata(name: string) {
    name != "" && name[0] == ':'
  }

  predicate Metadatum(decode: TextDecoder, h: Header) {
    decode(h.name).Some? && (Metadata(decode(h.name).value) ==> h.kind == TEXT_KIND && decode(h.value).Some?)
  }

  /** Names decode, no two alike, and metadata is text. */
  predicate Admissible(decode: TextDecoder, hs: seq<Header>) {
    && (forall i :: 0 <= i < |hs| ==> WellFormed(hs[i]) && Metadatum(decode, hs[i]))
    && (forall i, j :: 0 <= i < j < |hs| ==> decode(hs[i].name) != decode(hs[j].name))
  }

  function MetadataOf(decode: TextDecoder, hs: seq<Header>): map<string, string>
    requires forall i :: 0 <= i < |hs| ==> Metadatum(decode, hs[i])
  {
    if hs == [] then map[]
    else
      var n := |hs| - 1;
      var h, rest := hs[n], MetadataOf(decode, hs[..n]);
      assert Metadatum(decode, hs[n]);
      if Metadata(decode(h.name).value) then rest[decode(h.name).value := decode(h.value).value] else rest
  }

  /** Each metadata header is there under its name, and nothing else is. */
  lemma {:induction false} MetadataMeans(decode: TextDecoder, hs: seq<Header>)
    requires Admissible(decode, hs)
    ensures forall i :: 0 <= i < |hs| && Metadata(decode(hs[i].name).value) ==>
              var name := decode(hs[i].name).value;
              name in MetadataOf(decode, hs) && MetadataOf(decode, hs)[name] == decode(hs[i].value).value
    ensures forall name :: name in MetadataOf(decode, hs) ==> Metadata(name) && exists i :: 0 <= i < |hs| && decode(hs[i].name) == Some(name)
  {
    if hs != [] {
      var n := |hs| - 1;
      var rest := hs[..n];
      MetadataMeans(decode, rest);
      forall name | name in MetadataOf(decode, hs) ensures Metadata(name) && exists i :: 0 <= i < |hs| && decode(hs[i].name) == Some(name) {
        if name in MetadataOf(decode, rest) {
          var i :| 0 <= i < n && decode(rest[i].name) == Some(name);
          assert hs[i] == rest[i];
        } else {
          assert decode(hs[n].name) == Some(name);
        }
      }
      forall i | 0 <= i < |hs| && Metadata(decode(hs[i].name).value)
        ensures decode(hs[i].name).value in MetadataOf(decode, hs) && MetadataOf(decode, hs)[decode(hs[i].name).value] == decode(hs[i].value).value
      {
        if i < n { assert rest[i] == hs[i]; }
      }
    }
  }

  // ----- Frames

  datatype Prelude = Prelude(length: nat, headerEnd: nat)

  function EventPrelude(b: Bytes): (p: Option<Prelude>)
    ensures p.Some? ==> 16 <= p.value.length && 12 <= p.value.headerEnd <= p.value.length - 4
  {
    if |b| < 12 then None
    else
      var length, headers := U32(b, 0), U32(b, 4);
      if Checksum(b[..8]) != U32(b, 8) || length < 16 || headers > length - 16 then None
      else Some(Prelude(length, 12 + headers))
  }

  /** A frame is sound: its checksums hold, and its headers are the encoding of an admissible list. */
  ghost predicate SoundFrame(decode: TextDecoder, f: Bytes) {
    && EventPrelude(f).Some? && |f| == EventPrelude(f).value.length && Checksum(f[..|f| - 4]) == U32(f, |f| - 4)
    && exists hs :: Admissible(decode, hs) && EncodeAll(hs) == f[12..EventPrelude(f).value.headerEnd]
  }

  // ----- The frame of given headers and payload

  /** A number in network order. */
  function Net32(n: nat): (b: Bytes)
    requires n < 0x1_0000_0000
    ensures |b| == 4
  {
    var w: int, x: int, y: int := n / 16777216, n / 65536, n / 256;
    [w, x % 256, y % 256, n % 256]
  }

  lemma NetBack(a: Bytes, n: nat, b: Bytes)
    requires n < 0x1_0000_0000
    ensures U32(a + Net32(n) + b, |a|) == n
  {
    var all := a + Net32(n) + b;
    assert all[|a|] == Net32(n)[0] && all[|a| + 1] == Net32(n)[1] && all[|a| + 2] == Net32(n)[2] && all[|a| + 3] == Net32(n)[3];
    var x, y := n / 256, n / 65536;
    assert y == x / 256 && n / 16777216 == y / 256;
  }

  lemma NetOnly(b: Bytes, at: nat)
    requires at + 4 <= |b|
    ensures U32(b, at) < 0x1_0000_0000 && Net32(U32(b, at)) == b[at..at + 4]
  {
    var w: int, x: int, y: int := b[at], b[at + 1], b[at + 2];
    var n := U32(b, at);
    assert n / 256 == w * 65536 + x * 256 + y && n / 65536 == w * 256 + x && n / 16777216 == w;
  }

  function Sizes(headers: nat, payload: nat): (b: Bytes)
    requires 16 + headers + payload < 0x1_0000_0000
    ensures |b| == 8
  {
    Net32(16 + headers + payload) + Net32(headers)
  }

  lemma ChecksumRange(b: Bytes)
    ensures 0 <= Checksum(b) < 0x1_0000_0000
  {
    var c: bv32 := Crc.Checksum(Bits(b));
    assert c as int < 0x1_0000_0000;
  }

  /** Everything of a frame but its last four bytes. */
  function Checked(headers: Bytes, payload: Bytes): (b: Bytes)
    requires 16 + |headers| + |payload| < 0x1_0000_0000
    ensures |b| == 12 + |headers| + |payload|
  {
    var sizes := Sizes(|headers|, |payload|);
    ChecksumRange(sizes);
    sizes + Net32(Checksum(sizes)) + headers + payload
  }

  /** The frame: both lengths, their checksum, the headers, the payload, and the checksum of all that. */
  function FrameOf(headers: Bytes, payload: Bytes): (b: Bytes)
    requires 16 + |headers| + |payload| < 0x1_0000_0000
    ensures |b| == 16 + |headers| + |payload|
  {
    var checked := Checked(headers, payload);
    ChecksumRange(checked);
    checked + Net32(Checksum(checked))
  }

  lemma PreludeReads(headers: Bytes, payload: Bytes)
    requires 16 + |headers| + |payload| < 0x1_0000_0000
    ensures EventPrelude(FrameOf(headers, payload)) == Some(Prelude(16 + |headers| + |payload|, 12 + |headers|))
  {
    hide Checksum, Net32;
    var f, sizes := FrameOf(headers, payload), Sizes(|headers|, |payload|);
    ChecksumRange(sizes);
    assert f[..8] == sizes;
    NetBack([], 16 + |headers| + |payload|, f[4..]);
    assert [] + Net32(16 + |headers| + |payload|) + f[4..] == f;
    NetBack(f[..4], |headers|, f[8..]);
    assert f[..4] + Net32(|headers|) + f[8..] == f;
    NetBack(sizes, Checksum(sizes), f[12..]);
    assert sizes + Net32(Checksum(sizes)) + f[12..] == f;
  }

  /** The frame built from admissible headers and a payload is sound and holds both. */
  lemma FrameReads(decode: TextDecoder, hs: seq<Header>, payload: Bytes)
    requires Admissible(decode, hs) && 16 + |EncodeAll(hs)| + |payload| < 0x1_0000_0000
    ensures var f, headers := FrameOf(EncodeAll(hs), payload), EncodeAll(hs);
            && SoundFrame(decode, f) && EventPrelude(f).value.headerEnd == 12 + |headers|
            && f[12..12 + |headers|] == headers && f[12 + |headers|..|f| - 4] == payload
  {
    hide Checksum, Net32, EventPrelude, EncodeAll;
    var headers := EncodeAll(hs);
    var f, checked := FrameOf(headers, payload), Checked(headers, payload);
    PreludeReads(headers, payload);
    ChecksumRange(checked);
    assert f[..|f| - 4] == checked;
    NetBack(checked, Checksum(checked), []);
    assert checked + Net32(Checksum(checked)) + [] == f;
    assert f[12..12 + |headers|] == headers;
  }

  /** And every sound frame is built that way. */
  lemma FrameBehind(decode: TextDecoder, f: Bytes) returns (hs: seq<Header>)
    requires SoundFrame(decode, f)
    ensures Admissible(decode, hs) && 16 + |EncodeAll(hs)| + |f[EventPrelude(f).value.headerEnd..|f| - 4]| == |f| < 0x1_0000_0000
    ensures f == FrameOf(EncodeAll(hs), f[EventPrelude(f).value.headerEnd..|f| - 4])
  {
    hide Checksum, Net32, EncodeAll, U32;
    var end := EventPrelude(f).value.headerEnd;
    hs :| Admissible(decode, hs) && EncodeAll(hs) == f[12..end];
    NetOnly(f, 0);
    NetOnly(f, 4);
    NetOnly(f, 8);
    NetOnly(f, |f| - 4);
    var headers, payload := f[12..end], f[end..|f| - 4];
    assert Sizes(|headers|, |payload|) == f[..8];
    assert Checked(headers, payload) == f[..|f| - 4];
  }

  // ----- Splitting

  /** The first twelve bytes decide a frame's length. */
  lemma PreludeOnly(a: Bytes, b: Bytes)
    requires |a| >= 12 && |b| >= 12 && a[..12] == b[..12]
    ensures EventPrelude(a) == EventPrelude(b)
  {
    assert a[..8] == a[..12][..8] == b[..8];
    assert forall i :: 0 <= i < 12 ==> a[i] == a[..12][i] == b[i];
  }

  /** A whole frame by its own length. */
  predicate Delimited(f: Bytes) {
    EventPrelude(f).Some? && EventPrelude(f).value.length == |f|
  }

  /** The start of a frame that is not all there yet. */
  predicate Partial(r: Bytes) {
    |r| < 12 || (EventPrelude(r).Some? && |r| < EventPrelude(r).value.length)
  }

  predicate IsSplit(frames: seq<Bytes>, rest: Bytes, s: Bytes) {
    Concat(frames) + rest == s && Partial(rest) && forall i :: 0 <= i < |frames| ==> Delimited(frames[i])
  }

  lemma Starts(f: Bytes, t: Bytes)
    requires Delimited(f)
    ensures EventPrelude(f + t) == EventPrelude(f) && !Partial(f + t)
  {
    PreludeOnly(f, f + t);
  }

  /** A stream has at most one split into frames and a part of one. */
  lemma {:induction false} SplitIsUnique(frames: seq<Bytes>, rest: Bytes, frames': seq<Bytes>, rest': Bytes, s: Bytes)
    requires IsSplit(frames, rest, s) && IsSplit(frames', rest', s)
    ensures frames == frames' && rest == rest'
  {
    hide EventPrelude;
    if frames == [] || frames' == [] {
      NoFrames(frames, rest, s);
      NoFrames(frames', rest', s);
    } else {
      var f, f' := frames[0], frames'[0];
      var t, t' := Concat(frames[1..]) + rest, Concat(frames'[1..]) + rest';
      assert s == f + t == f' + t';
      Starts(f, t);
      Starts(f', t');
      assert f == s[..|f|] && f' == s[..|f|];
      assert t == s[|f|..] && t' == s[|f|..];
      SplitIsUnique(frames[1..], rest, frames'[1..], rest', t);
      assert frames == [f] + frames[1..] && frames' == [f'] + frames'[1..];
    }
  }

  lemma NoFrames(frames: seq<Bytes>, rest: Bytes, s: Bytes)
    requires IsSplit(frames, rest, s)
    ensures frames == [] <==> Partial(s)
    ensures frames == [] ==> rest == s
  {
    hide EventPrelude;
    if frames == [] {
      assert [] + rest == rest;
    } else {
      var t := Concat(frames[1..]) + rest;
      assert s == frames[0] + t;
      Starts(frames[0], t);
    }
  }
}
