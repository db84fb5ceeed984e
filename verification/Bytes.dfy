/** Bytes, fixed-width little-endian numbers, and the truncating `as u32` cast. */
module Bytes {
  type byte = x: int | 0 <= x < 256

  const TWO_16: nat := 0x1_0000
  const TWO_32: nat := 0x1_0000_0000
  const TWO_64: nat := 0x1_0000_0000_0000_0000

  type u64 = x: int | 0 <= x < TWO_64

  /** The cast `x as u32`: silently keeps the low 32 bits. */
  function AsU32(v: nat): (r: nat)
    ensures r < TWO_32 && (v < TWO_32 ==> r == v)
  {
    v % TWO_32
  }

  function Low(v: nat): byte {
    v % 256
  }

  function LE16(v: nat): (s: seq<byte>)
    ensures |s| == 2
  {
    [Low(v), Low(v / 0x100)]
  }

  function LE32(v: nat): (s: seq<byte>)
    ensures |s| == 4
  {
    [Low(v), Low(v / 0x100), Low(v / 0x1_0000), Low(v / 0x100_0000)]
  }

  function LE64(v: nat): (s: seq<byte>)
    ensures |s| == 8
  {
    LE32(v % TWO_32) + LE32(v / TWO_32)
  }

  function U16At(s: seq<byte>, i: nat): nat
    requires i + 2 <= |s|
  {
    var a: nat, b: nat := s[i], s[i + 1];
    a + 0x100 * b
  }

  function U32At(s: seq<byte>, i: nat): (v: nat)
    requires i + 4 <= |s|
    ensures v < TWO_32
  {
    var a: nat, b: nat, c: nat, d: nat := s[i], s[i + 1], s[i + 2], s[i + 3];
    a + 0x100 * b + 0x1_0000 * c + 0x100_0000 * d
  }

  function U64At(s: seq<byte>, i: nat): (v: nat)
    requires i + 8 <= |s|
    ensures v < TWO_64
  {
    U32At(s, i) + TWO_32 * U32At(s, i + 4)
  }

  lemma LE16RoundTrip(v: nat)
    requires v < TWO_16
    ensures U16At(LE16(v), 0) == v
  {
  }

  lemma LE32RoundTrip(v: nat)
    requires v < TWO_32
    ensures U32At(LE32(v), 0) == v
  {
    var a, b := v / 0x100, v / 0x1_0000;
    assert v == v % 256 + 0x100 * a;
    assert a == a % 256 + 0x100 * b && b == a / 0x100;
    assert v / 0x100_0000 == b / 0x100;
  }

  lemma LE64RoundTrip(v: nat)
    requires v < TWO_64
    ensures U64At(LE64(v), 0) == v
  {
    LE32RoundTrip(v % TWO_32);
    LE32RoundTrip(v / TWO_32);
  }

  lemma U32OfLE32(s: seq<byte>, i: nat)
    requires i + 4 <= |s|
    ensures LE32(U32At(s, i)) == s[i..i + 4]
  {
    var v := U32At(s, i);
    var b: nat, c: nat, d: nat := s[i + 1], s[i + 2], s[i + 3];
    assert v / 0x100 == b + 0x100 * c + 0x1_0000 * d;
    assert v / 0x1_0000 == c + 0x100 * d;
    assert v / 0x100_0000 == d;
  }
}
