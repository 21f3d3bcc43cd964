/**
 UTF-8 as the JSON code reads and writes it (client/src/control/json.cpp), against the encoding of
 section 3 of RFC 3629: a code point below 0x110000 that is not a surrogate.
 */
module Utf8 {
  import opened Wrappers

  predicate IsScalar(cp: int) {
    0 <= cp < 0x110000 && !(0xD800 <= cp < 0xE000)
  }

  // The bytes of one code point.
  function Encode(cp: nat): (b: seq<Byte>)
    requires cp < 0x110000
    ensures 1 <= |b| <= 4
  {
    if cp < 0x80 then [cp]
    else if cp < 0x800 then [0xC0 + cp / 0x40, 0x80 + cp % 0x40]
    else if cp < 0x10000 then [0xE0 + cp / 0x1000, 0x80 + cp / 0x40 % 0x40, 0x80 + cp % 0x40]
    else [0xF0 + cp / 0x40000, 0x80 + cp / 0x1000 % 0x40, 0x80 + cp / 0x40 % 0x40, 0x80 + cp % 0x40]
  }

  predicate IsContinuation(b: int) {
    0x80 <= b <= 0xBF
  }

  // What the first byte says: the length, and the range of the second byte.
  function Lead(b: Byte): (nat, int, int) {
    if b < 0x80 then (1, 0, 0)
    else if 0xC2 <= b <= 0xDF then (2, 0x80, 0xBF)
    else if b == 0xE0 then (3, 0xA0, 0xBF)
    else if 0xE1 <= b <= 0xEC || b == 0xEE || b == 0xEF then (3, 0x80, 0xBF)
    else if b == 0xED then (3, 0x80, 0x9F)
    else if b == 0xF0 then (4, 0x90, 0xBF)
    else if 0xF1 <= b <= 0xF3 then (4, 0x80, 0xBF)
    else if b == 0xF4 then (4, 0x80, 0x8F)
    else (0, 0, 0)
  }

  // Length of the character at pos; zero when it is not one.
  function Length(t: seq<Byte>, pos: nat): (n: nat)
    ensures n <= 4 && (n > 0 ==> pos + n <= |t|)
  {
    if pos >= |t| then 0
    else
      var (n, lo, hi) := Lead(t[pos]);
      if n <= 1 then n
      else if pos + n > |t| || !(lo <= t[pos + 1] <= hi) then 0
      else if n >= 3 && !IsContinuation(t[pos + 2]) then 0
      else if n == 4 && !IsContinuation(t[pos + 3]) then 0
      else n
  }

  // A byte without its marker bits.
  function Bits(t: seq<Byte>, i: nat, marker: int): int
    requires i < |t|
  {
    (t[i] as int) - marker
  }

  // The code point those bytes stand for.
  function Decode(t: seq<Byte>, pos: nat): int
    requires Length(t, pos) > 0
  {
    var n := Length(t, pos);
    if n == 1 then t[pos]
    else if n == 2 then 0x40 * Bits(t, pos, 0xC0) + Bits(t, pos + 1, 0x80)
    else if n == 3 then 0x1000 * Bits(t, pos, 0xE0) + 0x40 * Bits(t, pos + 1, 0x80) + Bits(t, pos + 2, 0x80)
    else
      0x40000 * Bits(t, pos, 0xF0) + 0x1000 * Bits(t, pos + 1, 0x80) + 0x40 * Bits(t, pos + 2, 0x80) + Bits(t, pos + 3, 0x80)
  }

  lemma DecodeIsScalar(t: seq<Byte>, pos: nat)
    requires Length(t, pos) > 0
    ensures IsScalar(Decode(t, pos))
  {
  }

  lemma TwoDigits(a: nat, b: nat)
    requires b < 0x40
    ensures (0x40 * a + b) / 0x40 == a && (0x40 * a + b) % 0x40 == b
  {
  }

  // Reading a character and encoding it gives the bytes read.
  lemma DecodeThenEncode(t: seq<Byte>, pos: nat)
    requires Length(t, pos) > 0
    ensures IsScalar(Decode(t, pos)) && t[pos..pos + Length(t, pos)] == Encode(Decode(t, pos))
  {
    DecodeIsScalar(t, pos);
    var n := Length(t, pos);
    if n == 3 {
      ThreeEncode(t, pos);
    } else if n == 4 {
      FourEncode(t, pos);
    } else if n == 2 {
      TwoDigits(Bits(t, pos, 0xC0), Bits(t, pos + 1, 0x80));
    }
  }

  lemma ThreeEncode(t: seq<Byte>, pos: nat)
    requires Length(t, pos) == 3
    ensures t[pos..pos + 3] == Encode(Decode(t, pos))
  {
    var cp := Decode(t, pos);
    TwoDigits(0x40 * Bits(t, pos, 0xE0) + Bits(t, pos + 1, 0x80), Bits(t, pos + 2, 0x80));
    TwoDigits(Bits(t, pos, 0xE0), Bits(t, pos + 1, 0x80));
    assert cp / 0x1000 == cp / 0x40 / 0x40;
  }

  lemma FourEncode(t: seq<Byte>, pos: nat)
    requires Length(t, pos) == 4
    ensures t[pos..pos + 4] == Encode(Decode(t, pos))
  {
    var cp := Decode(t, pos);
    var high := 0x40 * Bits(t, pos, 0xF0) + Bits(t, pos + 1, 0x80);
    TwoDigits(0x40 * high + Bits(t, pos + 2, 0x80), Bits(t, pos + 3, 0x80));
    TwoDigits(high, Bits(t, pos + 2, 0x80));
    TwoDigits(Bits(t, pos, 0xF0), Bits(t, pos + 1, 0x80));
    assert cp / 0x1000 == cp / 0x40 / 0x40;
    assert cp / 0x40000 == cp / 0x1000 / 0x40;
  }

  // The bytes of a scalar value are read as one character, and as that value.
  lemma EncodeThenDecode(cp: nat, t: seq<Byte>, pos: nat)
    requires IsScalar(cp) && pos + |Encode(cp)| <= |t| && t[pos..pos + |Encode(cp)|] == Encode(cp)
    ensures Length(t, pos) == |Encode(cp)| && Decode(t, pos) == cp
  {
    var e := Encode(cp);
    forall i | 0 <= i < |e|
      ensures t[pos + i] == e[i]
    {
      assert t[pos..pos + |e|][i] == t[pos + i];
    }
    if cp >= 0x800 {
      assert cp / 0x1000 == cp / 0x40 / 0x40;
    }
    if cp >= 0x10000 {
      assert cp / 0x40000 == cp / 0x1000 / 0x40;
    }
  }

  // Main result: the table accepts exactly the encodings of scalar values.
  lemma LengthIsExact(t: seq<Byte>, pos: nat, n: nat)
    requires pos + n <= |t| && n > 0
    ensures Length(t, pos) == n <==> exists cp: nat :: IsScalar(cp) && t[pos..pos + n] == Encode(cp)
  {
    if Length(t, pos) == n {
      DecodeThenEncode(t, pos);
    }
    if cp: nat :| IsScalar(cp) && t[pos..pos + n] == Encode(cp) {
      EncodeThenDecode(cp, t, pos);
    }
  }

  // Depends on nothing but the bytes of the character.
  lemma LengthLocal(t: seq<Byte>, pos: nat, u: seq<Byte>, at: nat)
    requires Length(t, pos) > 0 && at + Length(t, pos) <= |u|
    requires t[pos..pos + Length(t, pos)] == u[at..at + Length(t, pos)]
    ensures Length(u, at) == Length(t, pos)
  {
    DecodeThenEncode(t, pos);
    EncodeThenDecode(Decode(t, pos), u, at);
  }

  predicate ValidFrom(t: seq<Byte>, pos: nat)
    requires pos <= |t|
    decreases |t| - pos
  {
    pos == |t| || (Length(t, pos) > 0 && ValidFrom(t, pos + Length(t, pos)))
  }

  predicate Valid(t: seq<Byte>) {
    ValidFrom(t, 0)
  }

  method IsValid(t: seq<Byte>) returns (ok: bool)
    ensures ok <==> Valid(t)
  {
    var pos: nat := 0;
    while pos < |t|
      invariant pos <= |t|
      invariant ValidFrom(t, pos) <==> Valid(t)
    {
      var n := Length(t, pos);
      if n == 0 {
        return false;
      }
      pos := pos + n;
    }
    return true;
  }

  // A valid text is one character and a valid rest.
  lemma {:induction false} ValidSuffix(t: seq<Byte>, k: nat, pos: nat)
    requires k <= pos <= |t|
    ensures ValidFrom(t, pos) <==> ValidFrom(t[k..], pos - k)
    decreases |t| - pos
  {
    var u := t[k..];
    if pos < |t| {
      var n := Length(t, pos);
      if n > 0 {
        assert t[pos..pos + n] == u[pos - k..pos - k + n];
        LengthLocal(t, pos, u, pos - k);
        ValidSuffix(t, k, pos + n);
      }
    }
  }

  lemma ValidCons(t: seq<Byte>)
    requires t != []
    ensures Valid(t) <==> Length(t, 0) > 0 && Valid(t[Length(t, 0)..])
  {
    var n := Length(t, 0);
    if n > 0 {
      ValidSuffix(t, n, n);
    }
  }

  lemma CharThenValid(ch: seq<Byte>, rest: seq<Byte>)
    requires Length(ch, 0) == |ch| > 0 && Valid(rest)
    ensures Valid(ch + rest) && Length(ch + rest, 0) == |ch|
  {
    var t := ch + rest;
    assert ch[0..|ch|] == t[0..|ch|];
    LengthLocal(ch, 0, t, 0);
    assert t[|ch|..] == rest;
    ValidCons(t);
  }
}
