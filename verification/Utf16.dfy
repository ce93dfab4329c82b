/**
 UTF-16 texts and their UTF-8 size. `Bytes16` is what a text encoder produces: surrogate pairs become one scalar
 value and lone surrogates the replacement character. The source measures it without producing it
 (`utf8Length` in `worker/access-json.ts`, the meter in `worker/assignment-source.ts`).
 */
module Utf16 {
  import opened JsonText
  import opened Utf8
  import AccessJson

  predicate High(c: nat) { 0xd800 <= c <= 0xdbff }
  predicate Low(c: nat) { 0xdc00 <= c <= 0xdfff }

  function Scalars16(s: Text): Text
    decreases |s|
  {
    if s == [] then []
    else if |s| > 1 && High(s[0]) && Low(s[1]) then
      [0x10000 + (s[0] - 0xd800) * 1024 + (s[1] - 0xdc00)] + Scalars16(s[2..])
    else if High(s[0]) || Low(s[0]) then [0xfffd] + Scalars16(s[1..])
    else [s[0]] + Scalars16(s[1..])
  }

  function Bytes16(s: Text): Text {
    EncodeAll(Scalars16(s))
  }

  /** The measure of the source is the length of the encoding. */
  lemma {:induction false} MeasureIsSize(s: Text)
    requires forall i :: 0 <= i < |s| ==> s[i] <= 0xffff
    ensures AccessJson.Utf8Length(s) == |Bytes16(s)|
    decreases |s|
  {
    if s != [] {
      var rest := if AccessJson.PairAt(s, 0) then s[2..] else s[1..];
      MeasureIsSize(rest);
      var all := Scalars16(s);
      assert all[1..] == Scalars16(rest);
      assert |EncodeAll(all)| == |Encode(all[0])| + |EncodeAll(all[1..])|;
    }
  }

  /** Measures add up wherever no surrogate pair is cut. */
  lemma {:induction false} MeasureConcat(a: Text, b: Text)
    requires a != [] && b != [] ==> !(High(a[|a| - 1]) && Low(b[0]))
    ensures AccessJson.Utf8Length(a + b) == AccessJson.Utf8Length(a) + AccessJson.Utf8Length(b)
    decreases |a|
  {
    if a == [] {
      assert a + b == b;
    } else if AccessJson.PairAt(a, 0) {
      assert (a + b)[2..] == a[2..] + b;
      MeasureConcat(a[2..], b);
    } else {
      assert (a + b)[1..] == a[1..] + b;
      assert !AccessJson.PairAt(a + b, 0);
      MeasureConcat(a[1..], b);
    }
  }
}
