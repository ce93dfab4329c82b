/**
 CRC-32 of `worker/bedrock-eventstream.ts`: the table-driven form refines the bit-by-bit form (section 8 of RFC 1952).
 */
module Crc {

  function Xor(a: bv32, b: bv32): bv32 { a ^ b }
  function Word(b: bv8): bv32 { b as bv32 }
  function Low(v: bv32): bv32 { v & 0xff }
  function High(v: bv32): bv32 { v & 0xffffff00 }

  function Rest(v: bv32): bv32 { v >> 8 }

  /** One bit of the reflected division by the polynomial. */
  function Bit(v: bv32): bv32 {
    if v & 1 == 1 then 0xedb88320 ^ (v >> 1) else v >> 1
  }

  function Bits(v: bv32, n: nat): bv32
    decreases n
  {
    if n == 0 then v else Bits(Bit(v), n - 1)
  }

  /** The register after the bytes, one bit at a time. */
  function Register(v: bv32, bytes: seq<bv8>): bv32
    decreases |bytes|
  {
    if bytes == [] then v else Register(Bits(Xor(v, Word(bytes[0])), 8), bytes[1..])
  }

  function Checksum(bytes: seq<bv8>): bv32 {
    Xor(Register(0xffffffff, bytes), 0xffffffff)
  }

  // ----- Why a table will do

  function Half(v: bv32): bv32 { v >> 1 }
  predicate Odd(v: bv32) { v & 1 == 1 }

  lemma Apart(x: bv32, y: bv32)
    ensures Half(Xor(x, y)) == Xor(Half(x), Half(y)) && (Odd(Xor(x, y)) <==> Odd(x) != Odd(y))
  {}

  lemma BitIs(v: bv32)
    ensures Bit(v) == if Odd(v) then Xor(0xedb88320, Half(v)) else Half(v)
  {}

  lemma Assoc(a: bv32, b: bv32, c: bv32)
    ensures Xor(Xor(a, b), c) == Xor(a, Xor(b, c))
  {}

  lemma Swap(a: bv32, b: bv32)
    ensures Xor(a, b) == Xor(b, a) && Xor(a, a) == 0 && Xor(0, a) == a
  {}

  lemma Cancels(a: bv32, b: bv32, p: bv32)
    ensures Xor(p, Xor(a, b)) == Xor(Xor(p, a), b) == Xor(a, Xor(p, b)) && Xor(Xor(p, a), Xor(p, b)) == Xor(a, b)
  {
    hide Xor;
    Assoc(p, a, b);
    Assoc(a, p, b);
    Assoc(a, p, Xor(p, b));
    Assoc(p, p, b);
    Swap(p, a);
    Swap(b, p);
  }

  lemma BitLinear(x: bv32, y: bv32)
    ensures Bit(Xor(x, y)) == Xor(Bit(x), Bit(y))
  {
    hide Bit, Half, Odd, Xor;
    Apart(x, y);
    BitIs(x);
    BitIs(y);
    BitIs(Xor(x, y));
    Cancels(Half(x), Half(y), 0xedb88320);
  }

  lemma {:induction false} BitsLinear(x: bv32, y: bv32, n: nat)
    ensures Bits(Xor(x, y), n) == Xor(Bits(x, n), Bits(y, n))
    decreases n
  {
    hide Bit, Xor;
    if n > 0 {
      BitLinear(x, y);
      BitsLinear(Bit(x), Bit(y), n - 1);
    }
  }
  /** Eight zero bits only shift the register. */
  lemma ZeroBits(h: bv32)
    requires Low(h) == 0
    ensures Bit(h) == h >> 1 && Bit(h >> 1) == h >> 2 && Bit(h >> 2) == h >> 3 && Bit(h >> 3) == h >> 4
    ensures Bit(h >> 4) == h >> 5 && Bit(h >> 5) == h >> 6 && Bit(h >> 6) == h >> 7 && Bit(h >> 7) == Rest(h)
  {}

  lemma {:induction false} Steps(ws: seq<bv32>)
    requires |ws| > 0 && forall k :: 0 <= k < |ws| - 1 ==> Bit(ws[k]) == ws[k + 1]
    ensures Bits(ws[0], |ws| - 1) == ws[|ws| - 1]
  {
    hide Bit;
    if |ws| > 1 {
      assert ws[1] == Bit(ws[0]);
      forall k | 0 <= k < |ws| - 2 ensures Bit(ws[1..][k]) == ws[1..][k + 1] {
        assert ws[1..][k] == ws[k + 1] && ws[1..][k + 1] == ws[k + 2];
      }
      Steps(ws[1..]);
    }
  }

  lemma ZerosShift(h: bv32)
    requires Low(h) == 0
    ensures Bits(h, 8) == Rest(h)
  {
    hide Bit, Low, Rest;
    ZeroBits(h);
    Steps([h, h >> 1, h >> 2, h >> 3, h >> 4, h >> 5, h >> 6, h >> 7, Rest(h)]);
  }

  lemma Halves(w: bv32)
    ensures w == Xor(Low(w), High(w)) && Low(High(w)) == 0
  {}

  lemma HighRest(v: bv32, b: bv8)
    ensures Rest(High(Xor(v, Word(b)))) == Rest(v)
  {}

  function Entry(i: bv32): bv32 {
    Bits(i, 8)
  }

  /** Eight bits at once: the low byte through the table, the rest shifted. */
  lemma TableStep(v: bv32, b: bv8)
    ensures Bits(Xor(v, Word(b)), 8) == Xor(Entry(Low(Xor(v, Word(b)))), Rest(v))
  {
    hide Xor, Word, Low, High, Rest, Bits;
    var w := Xor(v, Word(b));
    Halves(w);
    HighRest(v, b);
    BitsLinear(Low(w), High(w), 8);
    ZerosShift(High(w));
  }

  // ----- The program

  ghost predicate IsTable(table: array<bv32>)
    reads table
  {
    table.Length == 256 && forall i: bv32 :: i <= 255 ==> table[i] == Entry(i)
  }

  method TableEntry(i: bv32) returns (value: bv32)
    ensures value == Entry(i)
  {
    hide Bit;
    value := i;
    for bit := 0 to 8
      invariant Bits(value, 8 - bit) == Entry(i)
    {
      ghost var before := value;
      value := if value & 1 == 1 then 0xedb88320 ^ (value >> 1) else value >> 1;
      assert value == Bit(before) by { BitIs(before); }
    }
  }

  method Table() returns (table: array<bv32>)
    ensures IsTable(table) && fresh(table)
  {
    hide Entry;
    table := new bv32[256];
    var i: bv32 := 0;
    while i < 256
      invariant i <= 256
      invariant forall j: bv32 :: j < i ==> table[j] == Entry(j)
      decreases 256 - i
    {
      var value := TableEntry(i);
      table[i] := value;
      i := i + 1;
    }
  }

  method Crc32(table: array<bv32>, bytes: seq<bv8>) returns (r: bv32)
    requires IsTable(table)
    ensures r == Checksum(bytes)
  {
    hide Entry, Bits, Xor, Word, Low, Rest;
    var value: bv32 := 0xffffffff;
    for k := 0 to |bytes|
      invariant Register(value, bytes[k..]) == Register(0xffffffff, bytes)
    {
      TableStep(value, bytes[k]);
      assert bytes[k..][1..] == bytes[k + 1..];
      var index := Low(Xor(value, Word(bytes[k])));
      assert index <= 255 by { LowByte(Xor(value, Word(bytes[k]))); }
      value := Xor(table[index], Rest(value));
    }
    r := Xor(value, 0xffffffff);
  }

  lemma LowByte(w: bv32)
    ensures Low(w) <= 255
  {}

  /** A published value: the checksum of the letter a. */
  lemma KnownValue()
    ensures Checksum([0x61]) == 0xe8b7be43
  {
    hide Bits;
    var ws: seq<bv32> := [0xffffff9e, 0x7fffffcf, 0xd2477cc7, 0x849b3d43, 0xaff51d81, 0xba420de0, 0x5d2106f0, 0x2e908378, 0x174841bc];
    forall k | 0 <= k < |ws| - 1 ensures Bit(ws[k]) == ws[k + 1] {
      assert k == 0 || k == 1 || k == 2 || k == 3 || k == 4 || k == 5 || k == 6 || k == 7;
    }
    Steps(ws);
    assert [0x61 as bv8][1..] == [];
    assert Xor(0xffffffff, Word(0x61)) == ws[0];
  }
}
