/**
 UTF-8 (section 3 and 4 of RFC 3629) and the byte-at-a-time decoder of `worker/copilot-account-projection.ts`.
 */
module Utf8 {
  import opened Basics
  import opened JsonText

  predicate IsScalar(c: nat) {
    c < 0xd800 || 0xe000 <= c <= 0x10ffff
  }

  predicate Scalars(s: Text) {
    forall i :: 0 <= i < |s| ==> IsScalar(s[i])
  }

  function Encode(c: nat): Text {
    if c < 0x80 then [c]
    else if c < 0x800 then [0xc0 + c / 64, 0x80 + c % 64]
    else if c < 0x10000 then [0xe0 + c / 64 / 64, 0x80 + c / 64 % 64, 0x80 + c % 64]
    else [0xf0 + c / 64 / 64 / 64, 0x80 + c / 64 / 64 % 64, 0x80 + c / 64 % 64, 0x80 + c % 64]
  }

  function EncodeAll(s: Text): Text {
    if s == [] then [] else Encode(s[0]) + EncodeAll(s[1..])
  }

  lemma {:induction false} EncodeConcat(a: Text, b: Text)
    ensures EncodeAll(a + b) == EncodeAll(a) + EncodeAll(b)
    decreases |a|
  {
    if a == [] {
      assert a + b == b;
    } else {
      assert (a + b)[1..] == a[1..] + b;
      EncodeConcat(a[1..], b);
    }
  }

  // ----- The decoder

  datatype Decoder = Decoder(remaining: nat, value: nat, minimum: nat)

  const READY: Decoder := Decoder(0, 0, 0)

  datatype Fed = Wait(decoder: Decoder) | Emit(code: nat) | Malformed

  /** One byte: the tests and constants are the source's. */
  function Feed(d: Decoder, byte: nat): Fed {
    if d.remaining == 0 then
      if byte < 128 then Emit(byte)
      else if 0xc2 <= byte <= 0xdf then Wait(Decoder(1, byte % 32, 0x80))
      else if 0xe0 <= byte <= 0xef then Wait(Decoder(2, byte % 16, 0x800))
      else if 0xf0 <= byte <= 0xf4 then Wait(Decoder(3, byte % 8, 0x10000))
      else Malformed
    else if byte < 0x80 || byte > 0xbf then Malformed
    else
      var value := d.value * 64 + byte % 64;
      if d.remaining > 1 then Wait(Decoder(d.remaining - 1, value, d.minimum))
      else if value < d.minimum || value > 0x10ffff || 0xd800 <= value <= 0xdfff then Malformed
      else Emit(value)
  }

  /** What the decoder makes of a whole character: the code if `bytes` is one character, None otherwise. */
  function FeedSome(d: Decoder, bytes: Text): Fed
    requires bytes != []
    decreases |bytes|
  {
    var fed := Feed(d, bytes[0]);
    if |bytes| == 1 then fed
    else if fed.Wait? then FeedSome(fed.decoder, bytes[1..])
    else Malformed
  }

  /** The decoder reads every scalar value back from its encoding. */
  lemma DecodesEncoded(c: nat)
    requires IsScalar(c)
    ensures FeedSome(READY, Encode(c)) == Emit(c)
  {
    var s := Encode(c);
    if c < 0x80 {
    } else if c < 0x800 {
      assert s[0] % 32 == c / 64 && s[1] % 64 == c % 64;
      assert c == c / 64 * 64 + c % 64;
      assert s[1..][0] == s[1];
    } else if c < 0x10000 {
      ThreeBytes(c);
    } else {
      FourBytes(c);
    }
  }

  lemma ThreeBytes(c: nat)
    requires IsScalar(c) && 0x800 <= c < 0x10000
    ensures FeedSome(READY, Encode(c)) == Emit(c)
  {
    var s := Encode(c);
    var v1 := c / 64;
    var v0 := v1 / 64;
    assert s[0] % 16 == v0 && s[1] % 64 == v1 % 64 && s[2] % 64 == c % 64;
    assert v0 * 64 + v1 % 64 == v1 && v1 * 64 + c % 64 == c;
    assert s[1..] == [s[1], s[2]] && s[1..][1..] == [s[2]];
    assert Feed(READY, s[0]) == Wait(Decoder(2, v0, 0x800));
    assert Feed(Decoder(2, v0, 0x800), s[1]) == Wait(Decoder(1, v1, 0x800));
    assert FeedSome(Decoder(1, v1, 0x800), [s[2]]) == Emit(c);
    assert FeedSome(Decoder(2, v0, 0x800), [s[1], s[2]]) == Emit(c);
  }

  lemma FourBytes(c: nat)
    requires IsScalar(c) && 0x10000 <= c
    ensures FeedSome(READY, Encode(c)) == Emit(c)
  {
    var s := Encode(c);
    var v2 := c / 64;
    var v1 := v2 / 64;
    var v0 := v1 / 64;
    assert s[0] % 8 == v0 && s[1] % 64 == v1 % 64 && s[2] % 64 == v2 % 64 && s[3] % 64 == c % 64;
    assert v0 * 64 + v1 % 64 == v1 && v1 * 64 + v2 % 64 == v2 && v2 * 64 + c % 64 == c;
    assert s[1..] == [s[1], s[2], s[3]] && s[1..][1..] == [s[2], s[3]] && s[1..][1..][1..] == [s[3]];
    assert Feed(READY, s[0]) == Wait(Decoder(3, v0, 0x10000));
    assert Feed(Decoder(3, v0, 0x10000), s[1]) == Wait(Decoder(2, v1, 0x10000));
    assert Feed(Decoder(2, v1, 0x10000), s[2]) == Wait(Decoder(1, v2, 0x10000));
    assert FeedSome(Decoder(1, v2, 0x10000), [s[3]]) == Emit(c);
    assert FeedSome(Decoder(2, v1, 0x10000), [s[2], s[3]]) == Emit(c);
    assert FeedSome(Decoder(3, v0, 0x10000), [s[1], s[2], s[3]]) == Emit(c);
  }

  lemma Shift(d: Decoder, bytes: Text)
    requires |bytes| >= 2 && FeedSome(d, bytes).Emit?
    ensures d.remaining != 1 && Feed(d, bytes[0]).Wait?
    ensures FeedSome(Feed(d, bytes[0]).decoder, bytes[1..]) == FeedSome(d, bytes)
  {}

  /** And accepts nothing else: overlong forms, surrogates, values beyond U+10FFFF and stray bytes are refused. */
  lemma OnlyEncoded(bytes: Text, c: nat)
    requires bytes != [] && FeedSome(READY, bytes) == Emit(c)
    ensures IsScalar(c) && bytes == Encode(c)
  {
    if |bytes| == 1 {
      assert Feed(READY, bytes[0]) == Emit(c);
    } else {
      Shift(READY, bytes);
      var d, t := Feed(READY, bytes[0]).decoder, bytes[1..];
      TailEncoded(bytes[0], d, t, c);
      assert bytes == [bytes[0]] + t;
    }
  }

  lemma TailEncoded(b0: nat, d: Decoder, t: Text, c: nat)
    requires Feed(READY, b0) == Wait(d) && t != [] && FeedSome(d, t) == Emit(c)
    ensures IsScalar(c) && [b0] + t == Encode(c)
  {
    hide FeedSome;
    if |t| == 1 {
      LastByte(d, t);
      TwoBack(b0, t[0], c);
    } else {
      Shift(d, t);
      var d1, t1 := Feed(d, t[0]).decoder, t[1..];
      if |t1| == 1 {
        LastByte(d1, t1);
        ThreeBack(b0, t[0], t1[0], c);
      } else {
        Shift(d1, t1);
        var d2, t2 := Feed(d1, t1[0]).decoder, t1[1..];
        if |t2| > 1 { Shift(d2, t2); }
        LastByte(d2, t2);
        FourBack(b0, t[0], t1[0], t2[0], c);
      }
    }
  }

  lemma LastByte(d: Decoder, t: Text)
    requires |t| == 1
    ensures FeedSome(d, t) == Feed(d, t[0])
  {}

  lemma TwoBack(b0: nat, b1: nat, c: nat)
    requires Feed(READY, b0).Wait? && Feed(Feed(READY, b0).decoder, b1) == Emit(c)
    ensures IsScalar(c) && [b0, b1] == Encode(c)
  {
    assert c == (b0 - 0xc0) * 64 + (b1 - 0x80);
    assert c / 64 == b0 - 0xc0 && c % 64 == b1 - 0x80;
  }

  lemma Join(a: nat, b: nat, c: nat)
    requires b < 64 && c == a * 64 + b
    ensures c / 64 == a && c % 64 == b
  {}

  lemma ThreeBack(b0: nat, b1: nat, b2: nat, c: nat)
    requires Feed(READY, b0).Wait?
    requires var d := Feed(READY, b0).decoder;
             Feed(d, b1).Wait? && Feed(Feed(d, b1).decoder, b2) == Emit(c)
    ensures IsScalar(c) && [b0, b1, b2] == Encode(c)
  {
    var d := Feed(READY, b0).decoder;
    var d1 := Feed(d, b1).decoder;
    assert d1.remaining == 1 && d.remaining == 2;
    assert d.value == b0 - 0xe0 && b1 % 64 == b1 - 0x80 && b2 % 64 == b2 - 0x80;
    Join(d.value, b1 - 0x80, d1.value);
    Join(d1.value, b2 - 0x80, c);
  }

  lemma FourBack(b0: nat, b1: nat, b2: nat, b3: nat, c: nat)
    requires Feed(READY, b0).Wait?
    requires var d := Feed(READY, b0).decoder;
             Feed(d, b1).Wait? && Feed(Feed(d, b1).decoder, b2).Wait? && Feed(Feed(Feed(d, b1).decoder, b2).decoder, b3) == Emit(c)
    ensures IsScalar(c) && [b0, b1, b2, b3] == Encode(c)
  {
    hide Feed;
    var d := Feed(READY, b0).decoder;
    Lead(b0);
    Continuation(d, b1);
    var d1 := Feed(d, b1).decoder;
    Continuation(d1, b2);
    var d2 := Feed(d1, b2).decoder;
    Continuation(d2, b3);
    Join(d.value, b1 - 0x80, d1.value);
    Join(d1.value, b2 - 0x80, d2.value);
    Join(d2.value, b3 - 0x80, c);
  }

  /** What a first byte leaves to be read. */
  lemma Lead(b: nat)
    requires Feed(READY, b).Wait?
    ensures var d := Feed(READY, b).decoder;
            && 1 <= d.remaining <= 3
            && (d.remaining == 3 ==> 0xf0 <= b <= 0xf4 && d.value == b - 0xf0 && d.minimum == 0x10000)
  {}

  /** What a later byte adds. */
  lemma Continuation(d: Decoder, b: nat)
    requires d.remaining > 0 && !Feed(d, b).Malformed?
    ensures 0x80 <= b <= 0xbf
    ensures Feed(d, b).Wait? <==> d.remaining > 1
    ensures Feed(d, b).Wait? ==> Feed(d, b).decoder == Decoder(d.remaining - 1, d.value * 64 + (b - 0x80), d.minimum)
    ensures Feed(d, b).Emit? ==> Feed(d, b).code == d.value * 64 + (b - 0x80) && IsScalar(Feed(d, b).code) && Feed(d, b).code >= d.minimum
  {
    if 0x80 <= b <= 0xbf { assert b % 64 == b - 0x80; }
  }
}
