// Big-endian numbers in byte sequences.
module Bytes {
  import opened Wrappers

  function Read16(p: seq<Byte>, i: nat): U16
    requires i + 2 <= |p|
  {
    256 * (p[i] as int) + p[i + 1]
  }

  function Read32(p: seq<Byte>, i: nat): U32
    requires i + 4 <= |p|
  {
    0x100_0000 * (p[i] as int) + 0x1_0000 * (p[i + 1] as int) + 0x100 * (p[i + 2] as int) + p[i + 3]
  }

  function Be16(v: U16): (b: seq<Byte>)
    ensures |b| == 2
  {
    [v / 0x100, v % 0x100]
  }

  function Be32(v: U32): (b: seq<Byte>)
    ensures |b| == 4
  {
    [v / 0x100_0000, v / 0x1_0000 % 0x100, v / 0x100 % 0x100, v % 0x100]
  }

  lemma Be16Reads(v: U16, p: seq<Byte>, i: nat)
    requires i + 2 <= |p| && p[i..i + 2] == Be16(v)
    ensures Read16(p, i) == v
  {
    assert p[i] == p[i..i + 2][0] && p[i + 1] == p[i..i + 2][1];
  }

  // The four digits of a number in base 256.
  lemma FourDigits(v: nat)
    ensures 0x100_0000 * (v / 0x100_0000) + 0x1_0000 * (v / 0x1_0000 % 0x100) + 0x100 * (v / 0x100 % 0x100) + v % 0x100 == v
  {
    var a := v / 0x100;
    var b := a / 0x100;
    assert v / 0x1_0000 == b && v / 0x100_0000 == b / 0x100;
  }

  lemma Be32Reads(v: U32, p: seq<Byte>, i: nat)
    requires i + 4 <= |p| && p[i..i + 4] == Be32(v)
    ensures Read32(p, i) == v
  {
    var b := p[i..i + 4];
    assert p[i] == b[0] && p[i + 1] == b[1] && p[i + 2] == b[2] && p[i + 3] == b[3];
    FourDigits(v);
  }

  lemma ReadsBe16(p: seq<Byte>, i: nat)
    requires i + 2 <= |p|
    ensures Be16(Read16(p, i)) == p[i..i + 2]
  {
  }

  lemma ReadsBe32(p: seq<Byte>, i: nat)
    requires i + 4 <= |p|
    ensures Be32(Read32(p, i)) == p[i..i + 4]
  {
    var v := Read32(p, i);
    assert v / 0x100 == 0x1_0000 * (p[i] as int) + 0x100 * (p[i + 1] as int) + p[i + 2];
    assert v / 0x1_0000 == 0x100 * (p[i] as int) + p[i + 1];
  }
}
