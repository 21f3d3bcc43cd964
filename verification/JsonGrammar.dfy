/**
 The grammar of sections 2 to 7 of RFC 8259, given apart from the reader of Json: trees of what a text may
 spell, each with its bytes and its value.  The reader accepts a text if and only if it is the text of such a
 tree within its limits, and gives the tree's value.
 */
module JsonGrammar {
  import opened Wrappers
  import opened Json
  import U = Utf8

  // ---------------------------------------------------------------- positions and blanks

  predicate IsBlank(w: seq<Byte>) {
    forall i | 0 <= i < |w| :: w[i] in {32 as Byte, 9, 10, 13}
  }

  predicate NoSpaceAt(t: seq<Byte>, pos: nat) {
    pos < |t| ==> !IsSpace(t[pos])
  }

  lemma AtJoin(t: seq<Byte>, pos: nat, a: seq<Byte>, b: seq<Byte>)
    ensures At(t, pos, a + b) <==> At(t, pos, a) && At(t, pos + |a|, b)
  {
    if pos + |a + b| <= |t| {
      assert t[pos..pos + |a + b|] == t[pos..pos + |a|] + t[pos + |a|..pos + |a| + |b|];
      var w := t[pos..pos + |a + b|];
      assert w[..|a|] == t[pos..pos + |a|] && w[|a|..] == t[pos + |a|..pos + |a| + |b|];
      if w == a + b {
        assert w[..|a|] == a && w[|a|..] == b;
      }
    }
  }

  lemma AtOne(t: seq<Byte>, pos: nat, b: Byte)
    ensures At(t, pos, [b]) <==> pos < |t| && t[pos] == b
  {
    if pos < |t| {
      assert t[pos..pos + 1] == [t[pos]];
    }
  }

  lemma AtSelf(t: seq<Byte>, pos: nat, end: nat)
    requires pos <= end <= |t|
    ensures At(t, pos, t[pos..end])
  {
  }

  lemma {:induction false} BlankIsSkipped(t: seq<Byte>, pos: nat, w: seq<Byte>)
    requires IsBlank(w) && At(t, pos, w) && NoSpaceAt(t, pos + |w|)
    ensures SkipWs(t, pos) == pos + |w|
    decreases |w|
  {
    if w != [] {
      assert w == [w[0]] + w[1..];
      AtJoin(t, pos, [w[0]], w[1..]);
      AtOne(t, pos, w[0]);
      BlankIsSkipped(t, pos + 1, w[1..]);
    }
  }

  lemma {:induction false} SkippedIsBlank(t: seq<Byte>, pos: nat)
    requires pos <= |t|
    ensures IsBlank(t[pos..SkipWs(t, pos)]) && NoSpaceAt(t, SkipWs(t, pos))
    decreases |t| - pos
  {
    var e := SkipWs(t, pos);
    if pos < |t| && IsSpace(t[pos]) {
      SkippedIsBlank(t, pos + 1);
      assert t[pos..e] == [t[pos]] + t[pos + 1..e];
    }
  }

  // ---------------------------------------------------------------- strings

  // One character of a string: itself in UTF-8, a two-byte escape, four hexadecimal digits, or two
  // surrogates of four digits each.
  datatype Unit =
    | Raw(bytes: seq<Byte>)
    | Short(mark: Byte, means: Byte)
    | Code(digits: seq<Byte>)
    | Surrogates(high: seq<Byte>, low: seq<Byte>)

  predicate IsHex(b: Byte) {
    '0' as int <= b <= '9' as int || 'a' as int <= b <= 'f' as int || 'A' as int <= b <= 'F' as int
  }

  function DigitOf(b: Byte): int {
    if b <= '9' as int then b - '0' as int
    else if b >= 'a' as int then b - 'a' as int + 10
    else b - 'A' as int + 10
  }

  predicate IsFour(ds: seq<Byte>) {
    |ds| == 4 && forall i | 0 <= i < 4 :: IsHex(ds[i])
  }

  // Most significant first, in either case.
  function CodeOf(ds: seq<Byte>): int
    requires IsFour(ds)
  {
    16 * (16 * (16 * DigitOf(ds[0]) + DigitOf(ds[1])) + DigitOf(ds[2])) + DigitOf(ds[3])
  }

  predicate IsShort(mark: Byte, means: Byte) {
    || (mark == '\"' as int && means == '\"' as int) || (mark == '\\' as int && means == '\\' as int)
    || (mark == '/' as int && means == '/' as int)
    || (mark == 'b' as int && means == 8) || (mark == 'f' as int && means == 12) || (mark == 'n' as int && means == 10)
    || (mark == 'r' as int && means == 13) || (mark == 't' as int && means == 9)
  }

  predicate IsUnit(u: Unit) {
    match u
    case Raw(w) =>
      w != [] && U.Length(w, 0) == |w| && w[0] >= 32 && w[0] != '\"' as int && w[0] != '\\' as int
    case Short(mark, means) => IsShort(mark, means)
    case Code(ds) => IsFour(ds) && !(0xD800 <= CodeOf(ds) <= 0xDFFF)
    case Surrogates(h, l) => IsFour(h) && IsFour(l) && 0xD800 <= CodeOf(h) <= 0xDBFF && 0xDC00 <= CodeOf(l) <= 0xDFFF
  }

  function UnitText(u: Unit): seq<Byte> {
    match u
    case Raw(w) => w
    case Short(mark, _) => ['\\' as int, mark]
    case Code(ds) => ['\\' as int, 'u' as int] + ds
    case Surrogates(h, l) => ['\\' as int, 'u' as int] + h + ['\\' as int, 'u' as int] + l
  }

  // The bytes of the character it stands for.
  function UnitMeaning(u: Unit): seq<Byte>
    requires IsUnit(u)
  {
    match u
    case Raw(w) => w
    case Short(_, means) => [means]
    case Code(ds) => FourIsSmall(ds); U.Encode(CodeOf(ds))
    case Surrogates(h, l) => U.Encode(0x10000 + 0x400 * (CodeOf(h) - 0xD800) + (CodeOf(l) - 0xDC00))
  }

  lemma FourIsSmall(ds: seq<Byte>)
    requires IsFour(ds)
    ensures 0 <= CodeOf(ds) < 0x10000
  {
    assert IsHex(ds[0]) && IsHex(ds[1]) && IsHex(ds[2]) && IsHex(ds[3]);
    DigitIsSmall(ds[0]);
    DigitIsSmall(ds[1]);
    DigitIsSmall(ds[2]);
    DigitIsSmall(ds[3]);
    hide DigitOf, IsHex, IsFour;
  }

  lemma DigitIsSmall(b: Byte)
    requires IsHex(b)
    ensures 0 <= DigitOf(b) < 16
  {
  }

  predicate AreUnits(us: seq<Unit>) {
    forall i | 0 <= i < |us| :: IsUnit(us[i])
  }

  function CharsText(us: seq<Unit>): seq<Byte> {
    if us == [] then [] else UnitText(us[0]) + CharsText(us[1..])
  }

  function CharsMeaning(us: seq<Unit>): seq<Byte>
    requires AreUnits(us)
  {
    if us == [] then [] else UnitMeaning(us[0]) + CharsMeaning(us[1..])
  }

  lemma HexReadsFour(t: seq<Byte>, pos: nat)
    ensures Hex4(t, pos).Some? <==> pos + 4 <= |t| && IsFour(t[pos..pos + 4])
    ensures Hex4(t, pos).Some? ==> Hex4(t, pos).value == CodeOf(t[pos..pos + 4])
  {
    if pos + 4 <= |t| {
      var ds := t[pos..pos + 4];
      assert ds[0] == t[pos] && ds[1] == t[pos + 1] && ds[2] == t[pos + 2] && ds[3] == t[pos + 3];
      HexIsDigit(ds[0]);
      HexIsDigit(ds[1]);
      HexIsDigit(ds[2]);
      HexIsDigit(ds[3]);
    }
  }

  lemma HexIsDigit(b: Byte)
    ensures HexValue(b) >= 0 <==> IsHex(b)
    ensures IsHex(b) ==> HexValue(b) == DigitOf(b)
  {
  }

  // An escape is read as the character it spells.
  lemma EscapeIsRead(t: seq<Byte>, pos: nat, u: Unit)
    requires IsUnit(u) && !u.Raw? && At(t, pos, UnitText(u))
    ensures pos < |t| && t[pos] == BACKSLASH && ParseEscape(t, pos + 1) == Ok(UnitMeaning(u), pos + |UnitText(u)|)
  {
    hide ParseEscape, IsShort, IsHex, CodeOf, At, U.Encode;
    match u
    case Short(mark, means) => ShortIsRead(t, pos, mark, means);
    case Code(ds) => CodeIsRead(t, pos, ds);
    case Surrogates(h, l) => SurrogatesAreRead(t, pos, h, l);
  }

  lemma ShortIsRead(t: seq<Byte>, pos: nat, mark: Byte, means: Byte)
    requires IsShort(mark, means) && At(t, pos, ['\\' as int, mark])
    ensures pos < |t| && t[pos] == BACKSLASH && ParseEscape(t, pos + 1) == Ok([means], pos + 2)
  {
    AtJoin(t, pos, ['\\' as int], [mark]);
    AtOne(t, pos, '\\' as int);
    AtOne(t, pos + 1, mark);
    hide At, Hex4;
  }

  lemma CodeIsRead(t: seq<Byte>, pos: nat, ds: seq<Byte>)
    requires IsUnit(Code(ds)) && At(t, pos, ['\\' as int, 'u' as int] + ds)
    ensures pos < |t| && t[pos] == BACKSLASH && ParseEscape(t, pos + 1) == Ok(UnitMeaning(Code(ds)), pos + 6)
  {
    AtMark(t, pos, ds);
    HexReadsFour(t, pos + 2);
    hide At, Hex4, CodeOf, IsHex, U.Encode;
  }

  lemma SurrogatesAreRead(t: seq<Byte>, pos: nat, h: seq<Byte>, l: seq<Byte>)
    requires IsUnit(Surrogates(h, l)) && At(t, pos, UnitText(Surrogates(h, l)))
    ensures pos < |t| && t[pos] == BACKSLASH && ParseEscape(t, pos + 1) == Ok(UnitMeaning(Surrogates(h, l)), pos + 12)
  {
    SurrogatesAreThere(t, pos, h, l);
    HexReadsFour(t, pos + 2);
    HexReadsFour(t, pos + 8);
    hide At, Hex4, CodeOf, IsHex, UnitText, U.Encode;
  }

  lemma SurrogatesAreThere(t: seq<Byte>, pos: nat, h: seq<Byte>, l: seq<Byte>)
    requires |h| == 4 && |l| == 4 && At(t, pos, UnitText(Surrogates(h, l)))
    ensures pos + 12 <= |t| && t[pos] == BACKSLASH && t[pos + 1] == 117 && At(t, pos + 6, [BACKSLASH, 117])
    ensures t[pos + 2..pos + 6] == h && t[pos + 8..pos + 12] == l
  {
    assert UnitText(Surrogates(h, l)) == ['\\' as int, 'u' as int] + h + (['\\' as int, 'u' as int] + l);
    AtJoin(t, pos, ['\\' as int, 'u' as int] + h, ['\\' as int, 'u' as int] + l);
    AtMark(t, pos, h);
    AtMark(t, pos + 6, l);
  }

  lemma AtMark(t: seq<Byte>, pos: nat, ds: seq<Byte>)
    requires |ds| == 4 && At(t, pos, ['\\' as int, 'u' as int] + ds)
    ensures pos + 6 <= |t| && t[pos] == '\\' as int && t[pos + 1] == 'u' as int && t[pos + 2..pos + 6] == ds
    ensures At(t, pos, ['\\' as int, 'u' as int])
  {
    AtJoin(t, pos, ['\\' as int, 'u' as int], ds);
    var w := t[pos..pos + 2];
    assert w[0] == t[pos] && w[1] == t[pos + 1];
  }

  lemma {:induction false} CharsAreRead(t: seq<Byte>, pos: nat, us: seq<Unit>)
    requires AreUnits(us) && At(t, pos, CharsText(us) + ['\"' as int])
    ensures ParseChars(t, pos) == Ok(CharsMeaning(us), pos + |CharsText(us)| + 1)
    decreases |us|
  {
    hide ParseChars, UnitText, UnitMeaning, IsUnit, At, CharsText, CharsMeaning;
    if us == [] {
      NoChars(t, pos);
    } else {
      var u, rest := us[0], us[1..];
      CharsParts(us);
      CharsSplit(us);
      AtJoin(t, pos, UnitText(u), CharsText(rest) + ['\"' as int]);
      CharsAreRead(t, pos + |UnitText(u)|, rest);
      UnitIsRead(t, pos, u);
    }
  }

  lemma NoChars(t: seq<Byte>, pos: nat)
    requires At(t, pos, CharsText([]) + ['\"' as int])
    ensures ParseChars(t, pos) == Ok(CharsMeaning([]), pos + |CharsText([])| + 1)
  {
    assert CharsText([]) + ['\"' as int] == ['\"' as int];
    AtOne(t, pos, '\"' as int);
  }

  lemma CharsSplit(us: seq<Unit>)
    requires us != []
    ensures CharsText(us) + ['\"' as int] == UnitText(us[0]) + (CharsText(us[1..]) + ['\"' as int])
  {
    hide UnitText;
  }

  lemma CharsParts(us: seq<Unit>)
    requires us != [] && AreUnits(us)
    ensures CharsText(us) == UnitText(us[0]) + CharsText(us[1..])
    ensures CharsMeaning(us) == UnitMeaning(us[0]) + CharsMeaning(us[1..])
  {
    hide UnitText, UnitMeaning, IsUnit;
  }

  lemma UnitIsRead(t: seq<Byte>, pos: nat, u: Unit)
    requires IsUnit(u) && At(t, pos, UnitText(u))
    ensures pos + |UnitText(u)| <= |t|
    ensures ParseChars(t, pos) == Prepend(UnitMeaning(u), ParseChars(t, pos + |UnitText(u)|))
  {
    if u.Raw? {
      RawIsRead(t, pos, u.bytes);
    } else {
      EscapeIsRead(t, pos, u);
    }
  }

  lemma RawIsRead(t: seq<Byte>, pos: nat, w: seq<Byte>)
    requires IsUnit(Raw(w)) && At(t, pos, w)
    ensures t[pos] == w[0] && U.Length(t, pos) == |w| && t[pos..pos + |w|] == w
  {
    assert t[pos..pos + |w|][0] == t[pos];
    assert forall i | 0 <= i < |w| :: t[pos + i] == w[i] by {
      forall i | 0 <= i < |w|
        ensures t[pos + i] == w[i]
      {
        assert t[pos..pos + |w|][i] == t[pos + i];
      }
    }
  }

  // What follows a backslash, when it is read, spells a character.
  lemma EscapeIsUnit(t: seq<Byte>, pos: nat) returns (u: Unit)
    requires pos < |t| && t[pos] == BACKSLASH && ParseEscape(t, pos + 1).Ok?
    ensures var e := ParseEscape(t, pos + 1);
            IsUnit(u) && t[pos..e.end] == UnitText(u) && e.value == UnitMeaning(u)
  {
    var mark := t[pos + 1];
    if SimpleEscape(mark).Some? {
      u := Short(mark, SimpleEscape(mark).value);
      assert t[pos..pos + 2] == ['\\' as int, mark];
      hide Hex4;
    } else {
      u := CodeIsUnit(t, pos);
    }
  }

  lemma CodeIsUnit(t: seq<Byte>, pos: nat) returns (u: Unit)
    requires pos + 1 < |t| && t[pos] == BACKSLASH && SimpleEscape(t[pos + 1]).None? && ParseEscape(t, pos + 1).Ok?
    ensures var e := ParseEscape(t, pos + 1);
            IsUnit(u) && t[pos..e.end] == UnitText(u) && e.value == UnitMeaning(u)
  {
    HexReadsFour(t, pos + 2);
    HexReadsFour(t, pos + 8);
    hide Hex4, CodeOf, IsHex, SimpleEscape, U.Encode;
    var high := t[pos + 2..pos + 6];
    assert t[pos..pos + 2] == ['\\' as int, 'u' as int];
    if 0xD800 <= CodeOf(high) <= 0xDBFF {
      u := Surrogates(high, t[pos + 8..pos + 12]);
      FourParts(t, pos, pos + 2, pos + 6, pos + 8, pos + 12);
      assert t[pos + 6..pos + 8] == ['\\' as int, 'u' as int];
    } else {
      u := Code(high);
      assert t[pos..pos + 6] == t[pos..pos + 2] + high;
    }
  }

  lemma RawIsUnit(t: seq<Byte>, pos: nat)
    requires pos < |t| && t[pos] >= 32 && t[pos] != QUOTE && t[pos] != BACKSLASH && U.Length(t, pos) > 0
    ensures IsUnit(Raw(t[pos..pos + U.Length(t, pos)]))
  {
    var n := U.Length(t, pos);
    var w := t[pos..pos + n];
    assert forall i | 0 <= i < n :: w[i] == t[pos + i];
  }

  // Whatever string is read is one the grammar spells, with the meaning it has there.
  lemma {:induction false} CharsAreUnits(t: seq<Byte>, pos: nat) returns (us: seq<Unit>)
    requires pos <= |t| && ParseChars(t, pos).Ok?
    ensures var r := ParseChars(t, pos);
            AreUnits(us) && t[pos..r.end] == CharsText(us) + ['\"' as int] && r.value == CharsMeaning(us)
    decreases |t| - pos
  {
    var r := ParseChars(t, pos);
    if t[pos] == QUOTE {
      us := [];
      assert t[pos..pos + 1] == ['\"' as int];
    } else {
      var u, end := FirstUnit(t, pos);
      var rest := CharsAreUnits(t, end);
      us := [u] + rest;
      hide ParseChars, UnitText, UnitMeaning, IsUnit, CharsText, CharsMeaning, AreUnits;
      OneUnitMore(t, pos, end, r.end, u, rest);
    }
  }

  lemma OneUnitMore(t: seq<Byte>, pos: nat, mid: nat, end: nat, u: Unit, rest: seq<Unit>)
    requires pos <= mid <= end <= |t| && t[pos..mid] == UnitText(u) && t[mid..end] == CharsText(rest) + ['\"' as int]
    requires IsUnit(u) && AreUnits(rest)
    ensures AreUnits([u] + rest) && t[pos..end] == CharsText([u] + rest) + ['\"' as int]
    ensures CharsMeaning([u] + rest) == UnitMeaning(u) + CharsMeaning(rest)
  {
    hide UnitText, UnitMeaning, IsUnit;
    var us := [u] + rest;
    assert us[1..] == rest;
    CharsParts(us);
    hide CharsText, CharsMeaning;
    assert t[pos..end] == t[pos..mid] + t[mid..end];
    assert UnitText(u) + (CharsText(rest) + ['\"' as int]) == UnitText(u) + CharsText(rest) + ['\"' as int];
  }

  lemma FirstUnit(t: seq<Byte>, pos: nat) returns (u: Unit, end: nat)
    requires pos < |t| && t[pos] != QUOTE && ParseChars(t, pos).Ok?
    ensures pos < end <= |t| && IsUnit(u) && t[pos..end] == UnitText(u)
    ensures ParseChars(t, pos) == Prepend(UnitMeaning(u), ParseChars(t, end)) && ParseChars(t, end).Ok?
  {
    if t[pos] == BACKSLASH {
      u := EscapeIsUnit(t, pos);
      end := ParseEscape(t, pos + 1).end;
    } else {
      RawIsUnit(t, pos);
      end := pos + U.Length(t, pos);
      u := Raw(t[pos..end]);
    }
  }

  // ---------------------------------------------------------------- numbers

  datatype Exponent = Exponent(mark: Byte, sign: seq<Byte>, digits: seq<Byte>)

  // minus, int, frac and exp of section 6.
  datatype Numeral = Numeral(minus: bool, whole: seq<Byte>, fraction: Option<seq<Byte>>, exponent: Option<Exponent>)

  predicate IsExponent(e: Exponent) {
    && (e.mark == 'e' as int || e.mark == 'E' as int) && e.sign in {[], ['+' as int as Byte], ['-' as int as Byte]}
    && e.digits != [] && AllDigits(e.digits)
  }

  predicate IsNumeral(n: Numeral) {
    && n.whole != [] && AllDigits(n.whole) && (n.whole[0] == '0' as int ==> |n.whole| == 1)
    && (n.fraction.Some? ==> n.fraction.value != [] && AllDigits(n.fraction.value))
    && (n.exponent.Some? ==> IsExponent(n.exponent.value))
  }

  function FractionText(f: Option<seq<Byte>>): seq<Byte> {
    if f.Some? then ['.' as int] + f.value else []
  }

  function ExponentText(e: Option<Exponent>): seq<Byte> {
    if e.Some? then [e.value.mark] + e.value.sign + e.value.digits else []
  }

  function NumeralText(n: Numeral): seq<Byte> {
    SignText(n) + n.whole + FractionText(n.fraction) + ExponentText(n.exponent)
  }

  // An integer of 64 bits, or a number this reader does not keep.
  function NumeralMeaning(n: Numeral): Value
    requires IsNumeral(n)
  {
    var m: int := NatOf(n.whole);
    if n.fraction.Some? || n.exponent.Some? || m > (if n.minus then INT64_MAX + 1 else INT64_MAX) then OtherNumber
    else Integer(if n.minus then -m else m)
  }

  // What cannot go on a number.
  predicate NumberStops(t: seq<Byte>, pos: nat) {
    pos < |t| ==> !IsDigit(t[pos]) && t[pos] != DOT && t[pos] != 101 && t[pos] != 69
  }

  lemma {:induction false} DigitsStop(t: seq<Byte>, pos: nat, ds: seq<Byte>)
    requires AllDigits(ds) && At(t, pos, ds) && (pos + |ds| < |t| ==> !IsDigit(t[pos + |ds|]))
    ensures DigitsEnd(t, pos) == pos + |ds|
    decreases |ds|
  {
    if ds != [] {
      assert ds == [ds[0]] + ds[1..];
      AtJoin(t, pos, [ds[0]], ds[1..]);
      AtOne(t, pos, ds[0]);
      DigitsStop(t, pos + 1, ds[1..]);
    }
  }

  lemma FractionIsRead(t: seq<Byte>, pos: nat, f: Option<seq<Byte>>)
    requires (f.Some? ==> f.value != [] && AllDigits(f.value)) && At(t, pos, FractionText(f))
    requires var e := pos + |FractionText(f)|; e < |t| ==> !IsDigit(t[e]) && (f.None? ==> t[e] != DOT)
    ensures AfterFraction(t, pos) == Some(pos + |FractionText(f)|)
  {
    if f.Some? {
      AtJoin(t, pos, ['.' as int], f.value);
      AtOne(t, pos, '.' as int);
      DigitsStop(t, pos + 1, f.value);
    }
  }

  lemma ExponentIsRead(t: seq<Byte>, pos: nat, e: Option<Exponent>)
    requires (e.Some? ==> IsExponent(e.value)) && At(t, pos, ExponentText(e)) && NumberStops(t, pos + |ExponentText(e)|)
    ensures AfterExponent(t, pos) == Some(pos + |ExponentText(e)|)
  {
    if e.Some? {
      var x := e.value;
      ExponentParts(t, pos, x);
      DigitsStop(t, pos + 1 + |x.sign|, x.digits);
      hide At, ExponentText, AllDigits;
    }
  }

  lemma ExponentParts(t: seq<Byte>, pos: nat, x: Exponent)
    requires IsExponent(x) && At(t, pos, ExponentText(Some(x)))
    ensures pos + 1 + |x.sign| < |t| && t[pos] == x.mark && IsDigit(t[pos + 1 + |x.sign|])
    ensures x.sign != [] ==> t[pos + 1] == x.sign[0]
    ensures At(t, pos + 1 + |x.sign|, x.digits)
  {
    assert ExponentText(Some(x)) == [x.mark] + (x.sign + x.digits);
    AtJoin(t, pos, [x.mark], x.sign + x.digits);
    AtJoin(t, pos + 1, x.sign, x.digits);
    AtOne(t, pos, x.mark);
    assert x.digits == [x.digits[0]] + x.digits[1..];
    AtJoin(t, pos + 1 + |x.sign|, [x.digits[0]], x.digits[1..]);
    AtOne(t, pos + 1 + |x.sign|, x.digits[0]);
    if x.sign != [] {
      AtOne(t, pos + 1, x.sign[0]);
    }
  }

  lemma AtMeans(t: seq<Byte>, i: nat, w: seq<Byte>)
    requires At(t, i, w)
    ensures i + |w| <= |t| && t[i..i + |w|] == w
  {
  }

  lemma NumeralIsRead(t: seq<Byte>, pos: nat, n: Numeral)
    requires IsNumeral(n) && At(t, pos, NumeralText(n)) && NumberStops(t, pos + |NumeralText(n)|)
    ensures pos < |t| && t[pos] != QUOTE && (t[pos] == MINUS || IsDigit(t[pos]))
    ensures ParseNumber(t, pos) == Ok(NumeralMeaning(n), pos + |NumeralText(n)|)
  {
    hide ParseNumber, NatOf, AfterFraction, AfterExponent, ExponentText, FractionText, NumeralText, SignText, DigitsEnd, AllDigits,
         IsExponent, NumberStops, At, NumeralMeaning;
    NumeralParts(t, pos, n);
    var p := if n.minus then pos + 1 else pos;
    var e := p + |n.whole|;
    var f := e + |FractionText(n.fraction)|;
    WholeStarts(t, pos, n);
    ExponentStarts(t, f, n.exponent);
    FractionStarts(t, e, n);
    DigitsStop(t, p, n.whole);
    FractionIsRead(t, e, n.fraction);
    ExponentIsRead(t, f, n.exponent);
    AtMeans(t, p, n.whole);
    AtMeans(t, f, ExponentText(n.exponent));
    NumberFromParts(t, pos, n, p, e, f, f + |ExponentText(n.exponent)|);
  }

  // What the reader makes of the places where the parts of a number end.
  lemma NumberFromParts(t: seq<Byte>, pos: nat, n: Numeral, p: nat, e: nat, f: nat, g: nat)
    requires IsNumeral(n) && pos < |t| && (n.minus <==> t[pos] == MINUS) && p == (if n.minus then pos + 1 else pos)
    requires p < e <= f <= g <= |t| && t[p..e] == n.whole && DigitsEnd(t, p) == e
    requires AfterFraction(t, e) == Some(f) && AfterExponent(t, f) == Some(g)
    requires e + |FractionText(n.fraction)| == f && f + |ExponentText(n.exponent)| == g
    ensures ParseNumber(t, pos) == Ok(NumeralMeaning(n), g)
  {
    hide AfterFraction, AfterExponent, NatOf, DigitsEnd, AllDigits, IsExponent;
    assert t[p] == n.whole[0] && |n.whole| == e - p;
  }

  function SignText(n: Numeral): seq<Byte> {
    if n.minus then ['-' as int] else []
  }

  lemma NumeralParts(t: seq<Byte>, pos: nat, n: Numeral)
    requires At(t, pos, NumeralText(n))
    ensures var p := pos + |SignText(n)|;
            var e := p + |n.whole|;
            var f := e + |FractionText(n.fraction)|;
            && At(t, pos, SignText(n)) && At(t, p, n.whole) && At(t, e, FractionText(n.fraction)) && At(t, f, ExponentText(n.exponent))
            && pos + |NumeralText(n)| == f + |ExponentText(n.exponent)|
  {
    hide FractionText, ExponentText, At;
    var x, y := FractionText(n.fraction), ExponentText(n.exponent);
    assert NumeralText(n) == SignText(n) + (n.whole + (x + y));
    hide SignText;
    AtJoin(t, pos, SignText(n), n.whole + (x + y));
    AtJoin(t, pos + |SignText(n)|, n.whole, x + y);
    AtJoin(t, pos + |SignText(n)| + |n.whole|, x, y);
  }

  lemma WholeStarts(t: seq<Byte>, pos: nat, n: Numeral)
    requires n.whole != [] && AllDigits(n.whole) && At(t, pos, SignText(n)) && At(t, pos + |SignText(n)|, n.whole)
    ensures var p := if n.minus then pos + 1 else pos;
            && p == pos + |SignText(n)|
            && pos < |t| && (n.minus <==> t[pos] == MINUS) && p < |t| && t[p] == n.whole[0] && IsDigit(t[p])
  {
    AtOne(t, pos, '-' as int);
    var p := pos + |SignText(n)|;
    assert n.whole == [n.whole[0]] + n.whole[1..];
    AtJoin(t, p, [n.whole[0]], n.whole[1..]);
    AtOne(t, p, n.whole[0]);
    assert IsDigit(n.whole[0]);
    hide At, AllDigits;
  }

  lemma ExponentStarts(t: seq<Byte>, pos: nat, e: Option<Exponent>)
    requires (e.Some? ==> IsExponent(e.value)) && At(t, pos, ExponentText(e)) && NumberStops(t, pos + |ExponentText(e)|)
    ensures pos < |t| ==> !IsDigit(t[pos]) && t[pos] != DOT
    ensures e.Some? ==> pos < |t|
  {
    if e.Some? {
      ExponentParts(t, pos, e.value);
    }
  }

  lemma FractionStarts(t: seq<Byte>, pos: nat, n: Numeral)
    requires IsNumeral(n) && At(t, pos, FractionText(n.fraction))
    requires var f := pos + |FractionText(n.fraction)|; f < |t| ==> !IsDigit(t[f]) && t[f] != DOT
    ensures pos < |t| ==> !IsDigit(t[pos])
  {
    if n.fraction.Some? {
      AtJoin(t, pos, ['.' as int], n.fraction.value);
      AtOne(t, pos, '.' as int);
    }
  }

  lemma FractionIsSpelled(t: seq<Byte>, pos: nat) returns (f: Option<seq<Byte>>)
    requires pos <= |t| && AfterFraction(t, pos).Some?
    ensures f.Some? ==> f.value != [] && AllDigits(f.value)
    ensures t[pos..AfterFraction(t, pos).value] == FractionText(f)
    ensures f.None? <==> AfterFraction(t, pos) == Some(pos)
  {
    var e := AfterFraction(t, pos).value;
    if pos < |t| && t[pos] == DOT {
      f := Some(t[pos + 1..e]);
      assert t[pos..e] == ['.' as int] + t[pos + 1..e];
    } else {
      f := None;
    }
  }

  lemma ExponentIsSpelled(t: seq<Byte>, pos: nat) returns (x: Option<Exponent>)
    requires pos <= |t| && AfterExponent(t, pos).Some?
    ensures x.Some? ==> IsExponent(x.value)
    ensures t[pos..AfterExponent(t, pos).value] == ExponentText(x)
    ensures x.None? <==> AfterExponent(t, pos) == Some(pos)
  {
    var e := AfterExponent(t, pos).value;
    if pos < |t| && (t[pos] == 101 || t[pos] == 69) {
      var signed := pos + 1 < |t| && (t[pos + 1] == PLUS || t[pos + 1] == MINUS);
      var p := if signed then pos + 2 else pos + 1;
      x := Some(Exponent(t[pos], t[pos + 1..p], t[p..e]));
      assert signed ==> t[pos + 1..p] == [t[pos + 1]];
      assert t[pos..e] == [t[pos]] + t[pos + 1..p] + t[p..e];
    } else {
      x := None;
    }
  }

  lemma NumberIsNumeral(t: seq<Byte>, pos: nat) returns (n: Numeral)
    requires pos < |t| && ParseNumber(t, pos).Ok?
    ensures var r := ParseNumber(t, pos);
            IsNumeral(n) && t[pos..r.end] == NumeralText(n) && r.value == NumeralMeaning(n)
  {
    hide AfterFraction, AfterExponent, NatOf, FractionText, ExponentText, IsExponent, DigitsEnd;
    var r := ParseNumber(t, pos);
    var p := if t[pos] == MINUS then pos + 1 else pos;
    var e := DigitsEnd(t, p);
    var f := AfterFraction(t, e);
    var fraction := FractionIsSpelled(t, e);
    var exponent := ExponentIsSpelled(t, f.value);
    n := Numeral(t[pos] == MINUS, t[p..e], fraction, exponent);
    assert AllDigits(t[p..e]);
    assert t[pos..p] == SignText(n);
    hide SignText, AllDigits;
    FourParts(t, pos, p, e, f.value, r.end);
  }

  lemma FourParts(t: seq<Byte>, a: nat, b: nat, c: nat, d: nat, e: nat)
    requires a <= b <= c <= d <= e <= |t|
    ensures t[a..e] == t[a..b] + t[b..c] + t[c..d] + t[d..e]
  {
    assert t[a..c] == t[a..b] + t[b..c];
    assert t[a..d] == t[a..c] + t[c..d];
    assert t[a..e] == t[a..d] + t[d..e];
  }

  // ---------------------------------------------------------------- values

  datatype Tree =
    | TWord(value: Value)
    | TNumber(numeral: Numeral)
    | TString(units: seq<Unit>)
    | TArray(inside: seq<Byte>, items: seq<Item>)
    | TObject(inside: seq<Byte>, fields: seq<Field>)

  // A value with the blanks around it.
  datatype Item = Item(before: seq<Byte>, tree: Tree, after: seq<Byte>)

  datatype Field = Field(before: seq<Byte>, key: seq<Unit>, mid: seq<Byte>, between: seq<Byte>, tree: Tree, after: seq<Byte>)

  function WordText(v: Value): seq<Byte> {
    if v == Bool(true) then ['t' as int, 'r' as int, 'u' as int, 'e' as int]
    else if v == Bool(false) then ['f' as int, 'a' as int, 'l' as int, 's' as int, 'e' as int]
    else ['n' as int, 'u' as int, 'l' as int, 'l' as int]
  }

  function Quoted(us: seq<Unit>): seq<Byte> {
    ['\"' as int] + CharsText(us) + ['\"' as int]
  }

  function TreeText(tree: Tree): seq<Byte>
    decreases tree
  {
    match tree
    case TWord(v) => WordText(v)
    case TNumber(n) => NumeralText(n)
    case TString(us) => Quoted(us)
    case TArray(inside, items) => ['[' as int] + inside + ItemsText(items) + [']' as int]
    case TObject(inside, fields) => ['{' as int] + inside + FieldsText(fields) + ['}' as int]
  }

  function ItemText(item: Item): seq<Byte>
    decreases item
  {
    item.before + TreeText(item.tree) + item.after
  }

  function ItemsText(items: seq<Item>): seq<Byte>
    decreases items
  {
    if items == [] then []
    else if |items| == 1 then ItemText(items[0])
    else ItemText(items[0]) + [',' as int] + ItemsText(items[1..])
  }

  function FieldText(f: Field): seq<Byte>
    decreases f
  {
    f.before + Quoted(f.key) + f.mid + [':' as int] + f.between + TreeText(f.tree) + f.after
  }

  function FieldsText(fields: seq<Field>): seq<Byte>
    decreases fields
  {
    if fields == [] then []
    else if |fields| == 1 then FieldText(fields[0])
    else FieldText(fields[0]) + [',' as int] + FieldsText(fields[1..])
  }

  // Blanks only where the grammar has them, and no key twice.
  predicate IsTree(tree: Tree)
    decreases tree
  {
    match tree
    case TWord(v) => v == Null || v == Bool(true) || v == Bool(false)
    case TNumber(n) => IsNumeral(n)
    case TString(us) => AreUnits(us)
    case TArray(inside, items) => IsBlank(inside) && (items != [] ==> inside == []) && AreItems(items)
    case TObject(inside, fields) =>
      IsBlank(inside) && (fields != [] ==> inside == []) && AreFields(fields) && NoKeyTwice(fields)
  }

  predicate NoKeyTwice(fields: seq<Field>) {
    && (forall i | 0 <= i < |fields| :: AreUnits(fields[i].key))
    && forall i, j | 0 <= i < j < |fields| :: CharsMeaning(fields[i].key) != CharsMeaning(fields[j].key)
  }

  predicate AreItems(items: seq<Item>)
    decreases items
  {
    items != [] ==>
      IsBlank(items[0].before) && IsTree(items[0].tree) && IsBlank(items[0].after) && AreItems(items[1..])
  }

  predicate AreFields(fields: seq<Field>)
    decreases fields
  {
    fields != [] ==>
      && IsBlank(fields[0].before) && AreUnits(fields[0].key) && IsBlank(fields[0].mid) && IsBlank(fields[0].between)
      && IsTree(fields[0].tree) && IsBlank(fields[0].after) && AreFields(fields[1..])
  }

  function Meaning(tree: Tree): Value
    requires IsTree(tree)
    decreases tree
  {
    match tree
    case TWord(v) => v
    case TNumber(n) => NumeralMeaning(n)
    case TString(us) => Str(CharsMeaning(us))
    case TArray(_, items) => Arr(ItemMeanings(items))
    case TObject(_, fields) => Obj(FieldMeanings(fields))
  }

  function ItemMeanings(items: seq<Item>): (vs: seq<Value>)
    requires AreItems(items)
    ensures |vs| == |items|
    decreases items
  {
    if items == [] then [] else [Meaning(items[0].tree)] + ItemMeanings(items[1..])
  }

  function FieldMeanings(fields: seq<Field>): (ms: seq<Member>)
    requires AreFields(fields)
    ensures |ms| == |fields|
    decreases fields
  {
    if fields == [] then []
    else [Member(CharsMeaning(fields[0].key), Meaning(fields[0].tree))] + FieldMeanings(fields[1..])
  }

  // How deep arrays and objects are nested.
  function Height(tree: Tree): nat
    decreases tree
  {
    match tree
    case TArray(_, items) => 1 + ItemsHeight(items)
    case TObject(_, fields) => 1 + FieldsHeight(fields)
    case _ => 0
  }

  function Max(a: nat, b: nat): nat {
    if a < b then b else a
  }

  function ItemsHeight(items: seq<Item>): nat
    decreases items
  {
    if items == [] then 0 else Max(Height(items[0].tree), ItemsHeight(items[1..]))
  }

  function FieldsHeight(fields: seq<Field>): nat
    decreases fields
  {
    if fields == [] then 0 else Max(Height(fields[0].tree), FieldsHeight(fields[1..]))
  }

  // ---------------------------------------------------------------- what is spelled is read

  // What may follow a value.
  predicate ValueStops(t: seq<Byte>, pos: nat) {
    pos < |t| ==> IsSpace(t[pos]) || t[pos] == COMMA || t[pos] == CLOSE_BRACKET || t[pos] == CLOSE_BRACE
  }

  // Where a value begins.
  predicate Begins(t: seq<Byte>, pos: nat) {
    pos < |t| && !IsSpace(t[pos]) && t[pos] != CLOSE_BRACKET && t[pos] != CLOSE_BRACE
  }

  lemma WordIsRead(t: seq<Byte>, pos: nat, v: Value, depth: nat)
    requires IsTree(TWord(v)) && At(t, pos, WordText(v))
    ensures ParseValue(t, pos, depth) == Ok(v, pos + |WordText(v)|) && Begins(t, pos)
  {
    var w := WordText(v);
    assert w == [w[0]] + w[1..];
    AtJoin(t, pos, [w[0]], w[1..]);
    AtOne(t, pos, w[0]);
    hide At;
    hide ParseObject, ParseArray, ParseChars, ParseNumber;
  }

  lemma QuotedIsRead(t: seq<Byte>, pos: nat, us: seq<Unit>)
    requires AreUnits(us) && At(t, pos, Quoted(us))
    ensures pos < |t| && t[pos] == QUOTE && ParseChars(t, pos + 1) == Ok(CharsMeaning(us), pos + |Quoted(us)|)
  {
    hide CharsText, AreUnits, ParseChars, CharsMeaning, At;
    assert Quoted(us) == ['\"' as int] + (CharsText(us) + ['\"' as int]);
    AtJoin(t, pos, ['\"' as int], CharsText(us) + ['\"' as int]);
    AtOne(t, pos, '\"' as int);
    CharsAreRead(t, pos + 1, us);
  }

  lemma LeafIsRead(t: seq<Byte>, pos: nat, tree: Tree, depth: nat)
    requires IsTree(tree) && !tree.TArray? && !tree.TObject? && At(t, pos, TreeText(tree)) && ValueStops(t, pos + |TreeText(tree)|)
    ensures ParseValue(t, pos, depth) == Ok(Meaning(tree), pos + |TreeText(tree)|) && Begins(t, pos)
  {
    hide ParseObject, ParseArray, ParseChars, ParseNumber, At, Quoted, WordText, NumeralText, NumeralMeaning, CharsMeaning, AreUnits, IsNumeral;
    match tree
    case TWord(v) => WordIsRead(t, pos, v, depth);
    case TNumber(n) => NumeralIsRead(t, pos, n);
    case TString(us) => QuotedIsRead(t, pos, us);
  }

  lemma {:induction false} TreeIsRead(t: seq<Byte>, pos: nat, tree: Tree, depth: nat)
    requires IsTree(tree) && At(t, pos, TreeText(tree)) && ValueStops(t, pos + |TreeText(tree)|)
    requires depth + Height(tree) <= MAX_DEPTH
    ensures ParseValue(t, pos, depth) == Ok(Meaning(tree), pos + |TreeText(tree)|) && Begins(t, pos)
    decreases tree, 3
  {
    match tree
    case TArray(inside, items) => ArrayIsRead(t, pos, inside, items, depth);
    case TObject(inside, fields) => ObjectIsRead(t, pos, inside, fields, depth);
    case _ => LeafIsRead(t, pos, tree, depth);
  }

  lemma Enclosed(t: seq<Byte>, pos: nat, open: Byte, inside: seq<Byte>, content: seq<Byte>, close: Byte)
    requires At(t, pos, [open] + inside + content + [close])
    ensures pos < |t| && t[pos] == open && At(t, pos + 1, inside) && At(t, pos + 1 + |inside|, content + [close])
  {
    hide At;
    assert [open] + inside + content + [close] == [open] + (inside + (content + [close]));
    AtJoin(t, pos, [open], inside + (content + [close]));
    AtJoin(t, pos + 1, inside, content + [close]);
    AtOne(t, pos, open);
  }

  lemma ArrayIsRead(t: seq<Byte>, pos: nat, inside: seq<Byte>, items: seq<Item>, depth: nat)
    requires var tree := TArray(inside, items);
             IsTree(tree) && At(t, pos, TreeText(tree)) && depth + Height(tree) <= MAX_DEPTH
    ensures var tree := TArray(inside, items);
            ParseValue(t, pos, depth) == Ok(Meaning(tree), pos + |TreeText(tree)|) && Begins(t, pos)
    decreases TArray(inside, items), 2
  {
    hide ParseValue, ParseItems, SkipWs, ItemMeanings, ItemsHeight, At, IsBlank, AreItems, ItemsText, TreeText, Meaning, Height, IsTree;
    ArrayParts(inside, items);
    if items == [] {
      NoItems();
      EmptyIsRead(t, pos, inside, depth);
    } else {
      Enclosed(t, pos, '[' as int, inside, ItemsText(items), ']' as int);
      ItemsAreRead(t, pos + 1, items, depth + 1, []);
      assert [] + ItemMeanings(items) == ItemMeanings(items);
      ArrayOpens(t, pos, depth);
    }
  }

  lemma ArrayParts(inside: seq<Byte>, items: seq<Item>)
    requires IsTree(TArray(inside, items))
    ensures var tree := TArray(inside, items);
            && IsBlank(inside) && (items != [] ==> inside == []) && AreItems(items)
            && TreeText(tree) == ['[' as int] + inside + ItemsText(items) + [']' as int]
            && Meaning(tree) == Arr(ItemMeanings(items)) && Height(tree) == 1 + ItemsHeight(items)
  {
    hide IsBlank;
  }

  lemma NoItems()
    ensures ItemsText([]) == [] && ItemMeanings([]) == [] && ItemsHeight([]) == 0
  {
  }

  lemma EmptyIsRead(t: seq<Byte>, pos: nat, inside: seq<Byte>, depth: nat)
    requires IsBlank(inside) && depth < MAX_DEPTH
    ensures At(t, pos, ['[' as int] + inside + [] + [']' as int]) ==>
              ParseValue(t, pos, depth) == Ok(Arr([]), pos + |inside| + 2) && Begins(t, pos)
    ensures At(t, pos, ['{' as int] + inside + [] + ['}' as int]) ==>
              ParseValue(t, pos, depth) == Ok(Obj([]), pos + |inside| + 2) && Begins(t, pos)
  {
    hide ParseItems, ParseMembers, ParseChars, ParseNumber, SkipWs, At;
    if At(t, pos, ['[' as int] + inside + [] + [']' as int]) {
      Enclosed(t, pos, '[' as int, inside, [], ']' as int);
      ClosesAfter(t, pos + 1, inside, ']' as int);
    }
    if At(t, pos, ['{' as int] + inside + [] + ['}' as int]) {
      Enclosed(t, pos, '{' as int, inside, [], '}' as int);
      ClosesAfter(t, pos + 1, inside, '}' as int);
    }
  }

  lemma ClosesAfter(t: seq<Byte>, pos: nat, inside: seq<Byte>, close: Byte)
    requires IsBlank(inside) && At(t, pos, inside) && At(t, pos + |inside|, [] + [close]) && !IsSpace(close)
    ensures SkipWs(t, pos) == pos + |inside| < |t| && t[pos + |inside|] == close
  {
    assert [] + [close] == [close];
    AtOne(t, pos + |inside|, close);
    BlankIsSkipped(t, pos, inside);
  }

  // Items that start at these blanks are read from where the blanks end.
  lemma ItemsFrom(t: seq<Byte>, p: nat, q: nat, depth: nat, have: seq<Value>)
    requires p <= |t| && q <= |t| && SkipWs(t, p) == SkipWs(t, q)
    ensures ParseItems(t, p, depth, have) == ParseItems(t, q, depth, have)
  {
    hide ParseValue, SkipWs;
  }

  lemma MembersFrom(t: seq<Byte>, p: nat, q: nat, depth: nat, have: seq<Member>)
    requires p <= |t| && q <= |t| && SkipWs(t, p) == SkipWs(t, q)
    ensures ParseMembers(t, p, depth, have) == ParseMembers(t, q, depth, have)
  {
    hide ParseValue, SkipWs, ParseChars;
  }

  lemma ItemParts(t: seq<Byte>, pos: nat, item: Item, rest: seq<Byte>)
    requires At(t, pos, ItemText(item) + rest)
    ensures At(t, pos, item.before) && At(t, pos + |item.before|, TreeText(item.tree))
    ensures At(t, pos + |item.before| + |TreeText(item.tree)|, item.after) && At(t, pos + |ItemText(item)|, rest)
    ensures |ItemText(item)| == |item.before| + |TreeText(item.tree)| + |item.after|
  {
    hide At, TreeText;
    var x := TreeText(item.tree);
    assert ItemText(item) + rest == item.before + (x + (item.after + rest));
    AtJoin(t, pos, item.before, x + (item.after + rest));
    AtJoin(t, pos + |item.before|, x, item.after + rest);
    AtJoin(t, pos + |item.before| + |x|, item.after, rest);
  }

  // A byte that is no blank ends the blanks before it, and may follow a value.
  lemma BlankThen(t: seq<Byte>, pos: nat, w: seq<Byte>, b: Byte)
    requires IsBlank(w) && At(t, pos, w) && pos + |w| < |t| && t[pos + |w|] == b && b in {COMMA as Byte, CLOSE_BRACKET as Byte, CLOSE_BRACE as Byte}
    ensures SkipWs(t, pos) == pos + |w| && ValueStops(t, pos)
  {
    BlankIsSkipped(t, pos, w);
    if w != [] {
      assert t[pos..pos + |w|][0] == t[pos];
    }
  }

  // One item and what it is followed by.
  lemma ItemIsRead(t: seq<Byte>, pos: nat, item: Item, depth: nat, next: Byte)
    requires IsBlank(item.before) && IsTree(item.tree) && IsBlank(item.after) && depth + Height(item.tree) <= MAX_DEPTH
    requires At(t, pos, ItemText(item) + [next]) && next in {COMMA as Byte, CLOSE_BRACKET as Byte, CLOSE_BRACE as Byte}
    ensures pos <= |t| && Begins(t, SkipWs(t, pos))
    ensures var v := ParseValue(t, SkipWs(t, pos), depth);
            && v.Ok? && v.value == Meaning(item.tree)
            && SkipWs(t, v.end) == pos + |ItemText(item)| < |t| && t[pos + |ItemText(item)|] == next
    decreases item, 1
  {
    hide ItemText, Meaning, Height, ParseValue, TreeText, IsTree, At, SkipWs, IsBlank;
    ItemParts(t, pos, item, [next]);
    var x := pos + |item.before|;
    var e := x + |TreeText(item.tree)|;
    AtOne(t, e + |item.after|, next);
    BlankThen(t, e, item.after, next);
    TreeIsRead(t, x, item.tree, depth);
    BlankIsSkipped(t, pos, item.before);
  }

  lemma {:induction false} ItemsAreRead(t: seq<Byte>, pos: nat, items: seq<Item>, depth: nat, have: seq<Value>)
    requires items != [] && AreItems(items) && depth + ItemsHeight(items) <= MAX_DEPTH
    requires At(t, pos, ItemsText(items) + [']' as int])
    ensures pos <= |t| && Begins(t, SkipWs(t, pos))
    ensures ParseItems(t, pos, depth, have) == Ok(Arr(have + ItemMeanings(items)), pos + |ItemsText(items)| + 1)
    decreases items, 2
  {
    hide ParseValue, ParseItems, SkipWs, At, ItemText, Meaning, ItemMeanings, IsTree, IsBlank, Height;
    var item := items[0];
    var all := have + [Meaning(item.tree)];
    if |items| == 1 {
      ItemIsRead(t, pos, item, depth, ']' as int);
      LastItem(items, have);
      ItemsEnd(t, pos, depth, have, pos + |ItemText(item)|, Meaning(item.tree));
    } else {
      var rest := items[1..];
      var end := pos + |ItemText(item)|;
      NextItems(t, pos, items);
      hide ItemsText;
      ItemIsRead(t, pos, item, depth, ',' as int);
      ItemsAreRead(t, end + 1, rest, depth, all);
      MoreItems(items, have);
      ItemsGoOn(t, pos, depth, have, end, Meaning(item.tree));
    }
  }

  lemma ItemsEnd(t: seq<Byte>, pos: nat, depth: nat, have: seq<Value>, end: nat, v: Value)
    requires pos <= |t| && end < |t| && t[end] == CLOSE_BRACKET
    requires var r := ParseValue(t, SkipWs(t, pos), depth); r.Ok? && r.value == v && SkipWs(t, r.end) == end
    ensures ParseItems(t, pos, depth, have) == Ok(Arr(have + [v]), end + 1)
  {
    hide ParseValue, SkipWs;
  }

  lemma ItemsGoOn(t: seq<Byte>, pos: nat, depth: nat, have: seq<Value>, end: nat, v: Value)
    requires pos <= |t| && end < |t| && t[end] == COMMA
    requires var r := ParseValue(t, SkipWs(t, pos), depth); r.Ok? && r.value == v && SkipWs(t, r.end) == end
    ensures ParseItems(t, pos, depth, have) == ParseItems(t, end + 1, depth, have + [v])
  {
    hide ParseValue, SkipWs;
  }

  lemma LastItem(items: seq<Item>, have: seq<Value>)
    requires |items| == 1 && AreItems(items)
    ensures have + ItemMeanings(items) == have + [Meaning(items[0].tree)]
  {
    hide Meaning, IsTree;
    assert items[1..] == [];
  }

  lemma MoreItems(items: seq<Item>, have: seq<Value>)
    requires |items| > 1 && AreItems(items)
    ensures have + ItemMeanings(items) == (have + [Meaning(items[0].tree)]) + ItemMeanings(items[1..])
  {
    hide Meaning, IsTree;
  }

  lemma NextItems(t: seq<Byte>, pos: nat, items: seq<Item>)
    requires |items| > 1 && At(t, pos, ItemsText(items) + [']' as int])
    ensures At(t, pos, ItemText(items[0]) + [',' as int])
    ensures At(t, pos + |ItemText(items[0])| + 1, ItemsText(items[1..]) + [']' as int])
    ensures |ItemsText(items)| == |ItemText(items[0])| + 1 + |ItemsText(items[1..])|
  {
    hide At, ItemText;
    var x, y := ItemText(items[0]), ItemsText(items[1..]);
    assert ItemsText(items) == x + [',' as int] + y;
    assert ItemsText(items) + [']' as int] == (x + [',' as int]) + (y + [']' as int]);
    AtJoin(t, pos, x + [',' as int], y + [']' as int]);
  }

  // ---------------------------------------------------------------- objects

  lemma ObjectIsRead(t: seq<Byte>, pos: nat, inside: seq<Byte>, fields: seq<Field>, depth: nat)
    requires var tree := TObject(inside, fields);
             IsTree(tree) && At(t, pos, TreeText(tree)) && depth + Height(tree) <= MAX_DEPTH
    ensures var tree := TObject(inside, fields);
            ParseValue(t, pos, depth) == Ok(Meaning(tree), pos + |TreeText(tree)|) && Begins(t, pos)
    decreases TObject(inside, fields), 2
  {
    hide ParseValue, ParseMembers, SkipWs, FieldMeanings, FieldsHeight, At, IsBlank, NoKeyTwice, CharsMeaning;
    hide TreeText, Meaning, Height, IsTree, AreFields, FieldsText, HasKey;
    ObjectParts(inside, fields);
    if fields == [] {
      NoFields();
      EmptyIsRead(t, pos, inside, depth);
    } else {
      Enclosed(t, pos, '{' as int, inside, FieldsText(fields), '}' as int);
      NoneYet(fields);
      MembersAreRead(t, pos + 1, fields, depth + 1, []);
      assert [] + FieldMeanings(fields) == FieldMeanings(fields);
      ObjectOpens(t, pos, depth);
    }
  }

  lemma ObjectParts(inside: seq<Byte>, fields: seq<Field>)
    requires IsTree(TObject(inside, fields))
    ensures var tree := TObject(inside, fields);
            && IsBlank(inside) && (fields != [] ==> inside == []) && AreFields(fields) && NoKeyTwice(fields)
            && TreeText(tree) == ['{' as int] + inside + FieldsText(fields) + ['}' as int]
            && Meaning(tree) == Obj(FieldMeanings(fields)) && Height(tree) == 1 + FieldsHeight(fields)
  {
    hide IsBlank, NoKeyTwice, CharsMeaning;
  }

  lemma NoFields()
    ensures FieldsText([]) == [] && FieldMeanings([]) == [] && FieldsHeight([]) == 0
  {
  }

  lemma NoneYet(fields: seq<Field>)
    requires NoKeyTwice(fields)
    ensures forall i | 0 <= i < |fields| :: !HasKey([], CharsMeaning(fields[i].key))
  {
    hide CharsMeaning, AreUnits;
  }

  // An object or array that is not empty is read from its first key or value.
  lemma ObjectOpens(t: seq<Byte>, pos: nat, depth: nat)
    requires pos < |t| && t[pos] == OPEN_BRACE && depth < MAX_DEPTH && SkipWs(t, pos + 1) < |t| && t[SkipWs(t, pos + 1)] != CLOSE_BRACE
    ensures ParseValue(t, pos, depth) == ParseMembers(t, pos + 1, depth + 1, []) && Begins(t, pos)
  {
    hide ParseArray, ParseMembers, ParseChars, ParseNumber, SkipWs;
    SkipTwice(t, pos + 1);
    MembersFrom(t, pos + 1, SkipWs(t, pos + 1), depth + 1, []);
  }

  lemma ArrayOpens(t: seq<Byte>, pos: nat, depth: nat)
    requires pos < |t| && t[pos] == OPEN_BRACKET && depth < MAX_DEPTH && SkipWs(t, pos + 1) < |t| && t[SkipWs(t, pos + 1)] != CLOSE_BRACKET
    ensures ParseValue(t, pos, depth) == ParseItems(t, pos + 1, depth + 1, []) && Begins(t, pos)
  {
    hide ParseObject, ParseItems, ParseChars, ParseNumber, SkipWs;
    SkipTwice(t, pos + 1);
    ItemsFrom(t, pos + 1, SkipWs(t, pos + 1), depth + 1, []);
  }

  lemma SkipTwice(t: seq<Byte>, pos: nat)
    requires pos <= |t|
    ensures SkipWs(t, SkipWs(t, pos)) == SkipWs(t, pos)
  {
    SkippedIsBlank(t, pos);
  }

  // The key of a field and the value behind it, each where the blanks before it end.
  lemma FieldParts(t: seq<Byte>, pos: nat, f: Field, rest: seq<Byte>)
    requires At(t, pos, FieldText(f) + rest)
    ensures var k := pos + |f.before|;
            var m := k + |Quoted(f.key)|;
            var x := m + |f.mid| + 1 + |f.between|;
            && At(t, pos, f.before) && At(t, k, Quoted(f.key)) && At(t, m, f.mid) && At(t, m + |f.mid|, [':' as int])
            && At(t, m + |f.mid| + 1, f.between) && At(t, x, TreeText(f.tree))
            && At(t, x + |TreeText(f.tree)|, f.after) && At(t, pos + |FieldText(f)|, rest)
            && pos + |FieldText(f)| == x + |TreeText(f.tree)| + |f.after|
  {
    hide At, TreeText, Quoted;
    var q, x := Quoted(f.key), TreeText(f.tree);
    assert FieldText(f) + rest == f.before + (q + (f.mid + ([':' as int] + (f.between + (x + (f.after + rest))))));
    AtJoin(t, pos, f.before, q + (f.mid + ([':' as int] + (f.between + (x + (f.after + rest))))));
    var k := pos + |f.before|;
    AtJoin(t, k, q, f.mid + ([':' as int] + (f.between + (x + (f.after + rest)))));
    var m := k + |q|;
    AtJoin(t, m, f.mid, [':' as int] + (f.between + (x + (f.after + rest))));
    AtJoin(t, m + |f.mid|, [':' as int], f.between + (x + (f.after + rest)));
    AtJoin(t, m + |f.mid| + 1, f.between, x + (f.after + rest));
    var v := m + |f.mid| + 1 + |f.between|;
    AtJoin(t, v, x, f.after + rest);
    AtJoin(t, v + |x|, f.after, rest);
  }

  // A key at the first of these positions, its colon, its value, and what the value is followed by.
  predicate FieldIsRead(t: seq<Byte>, pos: nat, depth: nat, key: seq<Byte>, v: Value, end: nat) {
    && pos <= |t| && SkipWs(t, pos) < |t| && t[SkipWs(t, pos)] == QUOTE && end < |t|
    && var k := ParseChars(t, SkipWs(t, pos) + 1);
       && k.Ok? && k.value == key
       && var q := SkipWs(t, k.end);
          && q < |t| && t[q] == COLON
          && var r := ParseValue(t, SkipWs(t, q + 1), depth);
             r.Ok? && r.value == v && SkipWs(t, r.end) == end
  }

  lemma OneFieldIsRead(t: seq<Byte>, pos: nat, f: Field, depth: nat, next: Byte)
    requires IsBlank(f.before) && AreUnits(f.key) && IsBlank(f.mid) && IsBlank(f.between) && IsTree(f.tree) && IsBlank(f.after)
    requires depth + Height(f.tree) <= MAX_DEPTH
    requires At(t, pos, FieldText(f) + [next]) && next in {COMMA as Byte, CLOSE_BRACKET as Byte, CLOSE_BRACE as Byte}
    ensures FieldIsRead(t, pos, depth, CharsMeaning(f.key), Meaning(f.tree), pos + |FieldText(f)|)
    ensures t[pos + |FieldText(f)|] == next
    decreases f, 1
  {
    hide FieldText, Meaning, Height, ParseValue, ParseChars, TreeText, IsTree, At, SkipWs, IsBlank, Quoted, CharsMeaning, AreUnits;
    FieldParts(t, pos, f, [next]);
    var k := pos + |f.before|;
    var m := k + |Quoted(f.key)|;
    var x := m + |f.mid| + 1 + |f.between|;
    var e := x + |TreeText(f.tree)|;
    AtOne(t, e + |f.after|, next);
    AtOne(t, m + |f.mid|, ':' as int);
    BlankThen(t, e, f.after, next);
    TreeIsRead(t, x, f.tree, depth);
    BlankIsSkipped(t, m + |f.mid| + 1, f.between);
    BlankIsSkipped(t, m, f.mid);
    QuotedIsRead(t, k, f.key);
    BlankIsSkipped(t, pos, f.before);
  }

  lemma {:induction false} MembersAreRead(t: seq<Byte>, pos: nat, fields: seq<Field>, depth: nat, have: seq<Member>)
    requires fields != [] && AreFields(fields) && NoKeyTwice(fields) && depth + FieldsHeight(fields) <= MAX_DEPTH
    requires At(t, pos, FieldsText(fields) + ['}' as int])
    requires forall i | 0 <= i < |fields| :: !HasKey(have, CharsMeaning(fields[i].key))
    ensures pos <= |t| && SkipWs(t, pos) < |t| && t[SkipWs(t, pos)] == QUOTE
    ensures ParseMembers(t, pos, depth, have) == Ok(Obj(have + FieldMeanings(fields)), pos + |FieldsText(fields)| + 1)
    decreases fields, 2
  {
    hide ParseValue, ParseMembers, ParseChars, SkipWs, At, FieldText, Meaning, FieldMeanings, IsTree, IsBlank, Height, CharsMeaning, HasKey;
    var f := fields[0];
    var member := Member(CharsMeaning(f.key), Meaning(f.tree));
    var end := pos + |FieldText(f)|;
    assert !HasKey(have, member.key);
    if |fields| == 1 {
      OneFieldIsRead(t, pos, f, depth, '}' as int);
      LastField(fields, have);
      MembersEnd(t, pos, depth, have, end, member);
    } else {
      var rest := fields[1..];
      NextFields(t, pos, fields);
      hide FieldsText;
      OneFieldIsRead(t, pos, f, depth, ',' as int);
      OtherKeys(fields, have, member);
      MembersAreRead(t, end + 1, rest, depth, have + [member]);
      MoreFields(fields, have);
      MembersGoOn(t, pos, depth, have, end, member);
    }
  }

  lemma MembersEnd(t: seq<Byte>, pos: nat, depth: nat, have: seq<Member>, end: nat, m: Member)
    requires FieldIsRead(t, pos, depth, m.key, m.value, end) && t[end] == CLOSE_BRACE && !HasKey(have, m.key)
    ensures ParseMembers(t, pos, depth, have) == Ok(Obj(have + [m]), end + 1)
  {
    hide ParseValue, SkipWs, ParseChars, HasKey;
  }

  lemma MembersGoOn(t: seq<Byte>, pos: nat, depth: nat, have: seq<Member>, end: nat, m: Member)
    requires FieldIsRead(t, pos, depth, m.key, m.value, end) && t[end] == COMMA && !HasKey(have, m.key)
    ensures ParseMembers(t, pos, depth, have) == ParseMembers(t, end + 1, depth, have + [m])
  {
    hide ParseValue, SkipWs, ParseChars, HasKey;
  }

  lemma LastField(fields: seq<Field>, have: seq<Member>)
    requires |fields| == 1 && AreFields(fields)
    ensures have + FieldMeanings(fields) == have + [Member(CharsMeaning(fields[0].key), Meaning(fields[0].tree))]
  {
    hide Meaning, IsTree, CharsMeaning;
    assert fields[1..] == [];
  }

  lemma MoreFields(fields: seq<Field>, have: seq<Member>)
    requires |fields| > 1 && AreFields(fields)
    ensures have + FieldMeanings(fields) ==
            (have + [Member(CharsMeaning(fields[0].key), Meaning(fields[0].tree))]) + FieldMeanings(fields[1..])
  {
    hide Meaning, IsTree, CharsMeaning;
  }

  lemma NextFields(t: seq<Byte>, pos: nat, fields: seq<Field>)
    requires |fields| > 1 && At(t, pos, FieldsText(fields) + ['}' as int])
    ensures At(t, pos, FieldText(fields[0]) + [',' as int])
    ensures At(t, pos + |FieldText(fields[0])| + 1, FieldsText(fields[1..]) + ['}' as int])
    ensures |FieldsText(fields)| == |FieldText(fields[0])| + 1 + |FieldsText(fields[1..])|
  {
    hide At, FieldText;
    var x, y := FieldText(fields[0]), FieldsText(fields[1..]);
    assert FieldsText(fields) == x + [',' as int] + y;
    assert FieldsText(fields) + ['}' as int] == (x + [',' as int]) + (y + ['}' as int]);
    AtJoin(t, pos, x + [',' as int], y + ['}' as int]);
  }

  // The keys to come are not the one just read.
  lemma OtherKeys(fields: seq<Field>, have: seq<Member>, m: Member)
    requires fields != [] && NoKeyTwice(fields) && m.key == CharsMeaning(fields[0].key)
    requires forall i | 0 <= i < |fields| :: !HasKey(have, CharsMeaning(fields[i].key))
    ensures NoKeyTwice(fields[1..])
    ensures forall i | 0 <= i < |fields[1..]| :: !HasKey(have + [m], CharsMeaning(fields[1..][i].key))
  {
    hide CharsMeaning, AreUnits;
    forall i | 0 <= i < |fields[1..]|
      ensures !HasKey(have + [m], CharsMeaning(fields[1..][i].key))
    {
      var key := CharsMeaning(fields[i + 1].key);
      assert !HasKey(have, key);
      assert forall k | 0 <= k < |have| :: (have + [m])[k] == have[k];
    }
  }

  // ---------------------------------------------------------------- what is read is spelled

  lemma LeafIsSpelled(t: seq<Byte>, pos: nat, depth: nat) returns (tree: Tree)
    requires pos < |t| && t[pos] != OPEN_BRACE && t[pos] != OPEN_BRACKET && ParseValue(t, pos, depth).Ok?
    ensures var r := ParseValue(t, pos, depth);
            IsTree(tree) && t[pos..r.end] == TreeText(tree) && r.value == Meaning(tree) && Height(tree) == 0
  {
    hide ParseObject, ParseArray, ParseNumber, ParseChars, CharsText, CharsMeaning, AreUnits, NumeralText, NumeralMeaning, IsNumeral, Quoted;
    if t[pos] == QUOTE {
      var us := CharsAreUnits(t, pos + 1);
      tree := TString(us);
      QuotedIsSpelled(t, pos, ParseChars(t, pos + 1).end, us);
    } else if t[pos] == 116 || t[pos] == 102 || t[pos] == 110 {
      tree := TWord(ParseValue(t, pos, depth).value);
    } else {
      var n := NumberIsNumeral(t, pos);
      tree := TNumber(n);
    }
  }

  lemma QuotedIsSpelled(t: seq<Byte>, pos: nat, end: nat, us: seq<Unit>)
    requires pos < end <= |t| && t[pos] == QUOTE && t[pos + 1..end] == CharsText(us) + ['\"' as int]
    ensures t[pos..end] == Quoted(us)
  {
    hide CharsText;
    assert t[pos..end] == ['\"' as int] + t[pos + 1..end];
    assert Quoted(us) == ['\"' as int] + (CharsText(us) + ['\"' as int]);
  }

  // How a read value stands in the text.
  predicate Spells(tree: Tree, t: seq<Byte>, pos: nat, r: Result<Value>, depth: nat) {
    && r.Ok? && pos <= r.end <= |t| && IsTree(tree) && t[pos..r.end] == TreeText(tree) && r.value == Meaning(tree)
    && (Height(tree) == 0 || depth + Height(tree) <= MAX_DEPTH)
  }

  lemma {:induction false} ValueIsSpelled(t: seq<Byte>, pos: nat, depth: nat) returns (tree: Tree)
    requires pos <= |t| && ParseValue(t, pos, depth).Ok?
    ensures Spells(tree, t, pos, ParseValue(t, pos, depth), depth)
    decreases |t| - pos, 2
  {
    if t[pos] == OPEN_BRACE {
      tree := ObjectIsSpelled(t, pos, depth + 1);
    } else if t[pos] == OPEN_BRACKET {
      tree := ArrayIsSpelled(t, pos, depth + 1);
    } else {
      tree := LeafIsSpelled(t, pos, depth);
    }
    hide ParseObject, ParseArray, ParseChars, ParseNumber, IsTree, TreeText, Meaning, Height;
  }

  predicate SpellsNested(tree: Tree, t: seq<Byte>, pos: nat, r: Result<Value>, depth: nat) {
    && r.Ok? && pos <= r.end <= |t| && IsTree(tree) && t[pos..r.end] == TreeText(tree) && r.value == Meaning(tree)
    && depth + Height(tree) <= MAX_DEPTH + 1
  }

  lemma EmptyIsSpelled(t: seq<Byte>, pos: nat, open: Byte, close: Byte)
    requires pos < |t| && t[pos] == open && SkipWs(t, pos + 1) < |t| && t[SkipWs(t, pos + 1)] == close
    ensures var p := SkipWs(t, pos + 1);
            IsBlank(t[pos + 1..p]) && t[pos..p + 1] == [open] + t[pos + 1..p] + [] + [close]
  {
    SkippedIsBlank(t, pos + 1);
    hide SkipWs, IsBlank;
    FirstAndLast(t, pos, SkipWs(t, pos + 1));
  }

  lemma FirstAndLast(t: seq<Byte>, a: nat, b: nat)
    requires a < b < |t|
    ensures t[a..b + 1] == [t[a]] + t[a + 1..b] + [] + [t[b]]
  {
    assert t[a..b] == [t[a]] + t[a + 1..b];
    assert t[a..b + 1] == t[a..b] + [t[b]];
    assert t[a..b] + [] == t[a..b];
    assert [t[a]] + t[a + 1..b] + [] == [t[a]] + t[a + 1..b];
  }

  lemma NothingIsBlank()
    ensures IsBlank([])
  {
  }

  lemma EmptyTrees(blank: seq<Byte>)
    requires IsBlank(blank)
    ensures IsTree(TArray(blank, [])) && IsTree(TObject(blank, []))
    ensures TreeText(TArray(blank, [])) == ['[' as int] + blank + [] + [']' as int]
    ensures TreeText(TObject(blank, [])) == ['{' as int] + blank + [] + ['}' as int]
    ensures Meaning(TArray(blank, [])) == Arr([]) && Meaning(TObject(blank, [])) == Obj([])
    ensures Height(TArray(blank, [])) == 1 && Height(TObject(blank, [])) == 1
  {
  }

  lemma {:induction false} ArrayIsSpelled(t: seq<Byte>, pos: nat, depth: nat) returns (tree: Tree)
    requires pos < |t| && t[pos] == OPEN_BRACKET && ParseArray(t, pos, depth).Ok? && depth > 0
    ensures SpellsNested(tree, t, pos, ParseArray(t, pos, depth), depth)
    decreases |t| - pos, 1
  {
    hide ParseItems, SkipWs, ItemMeanings, ItemsHeight, IsBlank;
    var p := SkipWs(t, pos + 1);
    if p < |t| && t[p] == CLOSE_BRACKET {
      EmptyIsSpelled(t, pos, '[' as int, ']' as int);
      tree := TArray(t[pos + 1..p], []);
      EmptyTrees(t[pos + 1..p]);
    } else {
      SkipTwice(t, pos + 1);
      ItemsFrom(t, pos + 1, p, depth, []);
      var items := ItemsAreSpelled(t, pos + 1, depth, []);
      hide AreItems, ItemsText;
      tree := TArray([], items);
      NothingIsBlank();
      assert IsTree(tree);
      Enclose(t, pos, ParseArray(t, pos, depth).end, '[' as int, ItemsText(items), ']' as int);
      assert [] + ItemMeanings(items) == ItemMeanings(items);
      assert Meaning(tree) == Arr(ItemMeanings(items)) && Height(tree) == 1 + ItemsHeight(items);
    }
  }

  lemma Enclose(t: seq<Byte>, pos: nat, end: nat, open: Byte, content: seq<Byte>, close: Byte)
    requires pos < end <= |t| && t[pos] == open && t[pos + 1..end] == content + [close]
    ensures t[pos..end] == [open] + [] + content + [close]
  {
    assert t[pos..end] == [open] + t[pos + 1..end];
    assert [open] + (content + [close]) == [open] + [] + content + [close];
  }

  // One item and what follows it, cut out of the text.
  lemma OneItemIsSpelled(t: seq<Byte>, pos: nat, depth: nat) returns (item: Item)
    requires pos <= |t| && ParseValue(t, SkipWs(t, pos), depth).Ok?
    requires var r := ParseValue(t, SkipWs(t, pos), depth); SkipWs(t, r.end) < |t|
    ensures var r := ParseValue(t, SkipWs(t, pos), depth);
            && IsBlank(item.before) && IsTree(item.tree) && IsBlank(item.after) && r.value == Meaning(item.tree)
            && t[pos..SkipWs(t, r.end)] == ItemText(item)
            && (Height(item.tree) == 0 || depth + Height(item.tree) <= MAX_DEPTH)
    decreases |t| - pos, 3, 0
  {
    hide ParseValue, IsTree, TreeText, Meaning, Height, IsBlank;
    var x := SkipWs(t, pos);
    SkippedIsBlank(t, pos);
    var tree := ValueIsSpelled(t, x, depth);
    var e := ParseValue(t, x, depth).end;
    SkippedIsBlank(t, e);
    item := Item(t[pos..x], tree, t[e..SkipWs(t, e)]);
    assert t[pos..SkipWs(t, e)] == t[pos..x] + t[x..e] + t[e..SkipWs(t, e)];
  }

  lemma {:induction false} ItemsAreSpelled(t: seq<Byte>, pos: nat, depth: nat, have: seq<Value>) returns (items: seq<Item>)
    requires pos <= |t| && ParseItems(t, pos, depth, have).Ok?
    ensures var r := ParseItems(t, pos, depth, have);
            && items != [] && AreItems(items) && t[pos..r.end] == ItemsText(items) + [']' as int]
            && r.value == Arr(have + ItemMeanings(items))
            && (ItemsHeight(items) == 0 || depth + ItemsHeight(items) <= MAX_DEPTH)
    decreases |t| - pos, 3
  {
    hide ParseValue, SkipWs, IsTree, TreeText, Meaning, Height, IsBlank, ItemText;
    var v := ParseValue(t, SkipWs(t, pos), depth);
    var r := SkipWs(t, v.end);
    var item := OneItemIsSpelled(t, pos, depth);
    if t[r] == CLOSE_BRACKET {
      items := [item];
      assert items[1..] == [];
      LastItem(items, have);
      assert t[pos..r + 1] == t[pos..r] + [t[r]];
    } else {
      var rest := ItemsAreSpelled(t, r + 1, depth, have + [v.value]);
      items := [item] + rest;
      assert items[1..] == rest;
      MoreItems(items, have);
      var end := ParseItems(t, pos, depth, have).end;
      assert t[pos..end] == ItemText(item) + [',' as int] + ItemsText(rest) + [']' as int] by {
        hide AreItems, ItemsText, ItemMeanings, ItemsHeight;
        MoreText(t, pos, r, end, ItemText(item), ItemsText(rest), ']' as int);
      }
    }
  }

  lemma MoreText(t: seq<Byte>, pos: nat, r: nat, end: nat, first: seq<Byte>, rest: seq<Byte>, close: Byte)
    requires pos <= r < end <= |t| && t[r] == COMMA && t[pos..r] == first && t[r + 1..end] == rest + [close]
    ensures t[pos..end] == first + [',' as int] + rest + [close]
  {
    assert t[pos..end] == t[pos..r] + [t[r]] + t[r + 1..end];
    assert first + [',' as int] + (rest + [close]) == first + [',' as int] + rest + [close];
  }

  lemma {:induction false} ObjectIsSpelled(t: seq<Byte>, pos: nat, depth: nat) returns (tree: Tree)
    requires pos < |t| && t[pos] == OPEN_BRACE && ParseObject(t, pos, depth).Ok? && depth > 0
    ensures SpellsNested(tree, t, pos, ParseObject(t, pos, depth), depth)
    decreases |t| - pos, 1
  {
    hide ParseMembers, SkipWs, FieldMeanings, FieldsHeight, IsBlank, NoKeyTwice;
    var p := SkipWs(t, pos + 1);
    if p < |t| && t[p] == CLOSE_BRACE {
      EmptyIsSpelled(t, pos, '{' as int, '}' as int);
      tree := TObject(t[pos + 1..p], []);
      EmptyTrees(t[pos + 1..p]);
    } else {
      SkipTwice(t, pos + 1);
      MembersFrom(t, pos + 1, p, depth, []);
      var fields := FieldsAreSpelled(t, pos + 1, depth, []);
      hide AreFields, FieldsText;
      tree := TObject([], fields);
      NothingIsBlank();
      assert IsTree(tree);
      Enclose(t, pos, ParseObject(t, pos, depth).end, '{' as int, FieldsText(fields), '}' as int);
      assert [] + FieldMeanings(fields) == FieldMeanings(fields);
      assert Meaning(tree) == Obj(FieldMeanings(fields)) && Height(tree) == 1 + FieldsHeight(fields);
    }
  }

  lemma OneFieldIsSpelled(t: seq<Byte>, pos: nat, depth: nat, key: seq<Byte>, v: Value, end: nat) returns (f: Field)
    requires FieldIsRead(t, pos, depth, key, v, end)
    ensures IsBlank(f.before) && AreUnits(f.key) && IsBlank(f.mid) && IsBlank(f.between) && IsTree(f.tree) && IsBlank(f.after)
    ensures CharsMeaning(f.key) == key && Meaning(f.tree) == v && t[pos..end] == FieldText(f)
    ensures Height(f.tree) == 0 || depth + Height(f.tree) <= MAX_DEPTH
    decreases |t| - pos, 3, 0
  {
    hide ParseValue, ParseChars, SkipWs, IsTree, TreeText, Meaning, Height, IsBlank, CharsText, CharsMeaning, AreUnits;
    var k := SkipWs(t, pos);
    SkippedIsBlank(t, pos);
    var m := ParseChars(t, k + 1).end;
    var us := CharsAreUnits(t, k + 1);
    var q := SkipWs(t, m);
    SkippedIsBlank(t, m);
    var x := SkipWs(t, q + 1);
    SkippedIsBlank(t, q + 1);
    var tree := ValueIsSpelled(t, x, depth);
    var e := ParseValue(t, x, depth).end;
    SkippedIsBlank(t, e);
    f := Field(t[pos..k], us, t[m..q], t[q + 1..x], tree, t[e..end]);
    hide Quoted;
    QuotedIsSpelled(t, k, m, us);
    assert t[q..q + 1] == [':' as int];
    SevenParts(t, pos, k, m, q, x, e, end);
  }

  lemma SevenParts(t: seq<Byte>, a: nat, b: nat, c: nat, d: nat, e: nat, f: nat, g: nat)
    requires a <= b <= c <= d < e <= f <= g <= |t|
    ensures t[a..g] == t[a..b] + t[b..c] + t[c..d] + t[d..d + 1] + t[d + 1..e] + t[e..f] + t[f..g]
  {
    assert t[a..c] == t[a..b] + t[b..c];
    assert t[a..d] == t[a..c] + t[c..d];
    assert t[a..d + 1] == t[a..d] + t[d..d + 1];
    assert t[a..e] == t[a..d + 1] + t[d + 1..e];
    assert t[a..f] == t[a..e] + t[e..f];
    assert t[a..g] == t[a..f] + t[f..g];
  }

  lemma {:induction false} FieldsAreSpelled(t: seq<Byte>, pos: nat, depth: nat, have: seq<Member>) returns (fields: seq<Field>)
    requires pos <= |t| && ParseMembers(t, pos, depth, have).Ok?
    ensures var r := ParseMembers(t, pos, depth, have);
            && fields != [] && AreFields(fields) && NoKeyTwice(fields) && t[pos..r.end] == FieldsText(fields) + ['}' as int]
            && r.value == Obj(have + FieldMeanings(fields))
            && (FieldsHeight(fields) == 0 || depth + FieldsHeight(fields) <= MAX_DEPTH)
    ensures forall i | 0 <= i < |fields| :: !HasKey(have, CharsMeaning(fields[i].key))
    decreases |t| - pos, 3
  {
    hide ParseValue, ParseChars, SkipWs, IsTree, TreeText, Meaning, Height, IsBlank, FieldText, CharsMeaning, HasKey, AreUnits;
    var key := ParseChars(t, SkipWs(t, pos) + 1);
    var v := ParseValue(t, SkipWs(t, SkipWs(t, key.end) + 1), depth);
    var r := SkipWs(t, v.end);
    var m := Member(key.value, v.value);
    var f := OneFieldIsSpelled(t, pos, depth, m.key, m.value, r);
    if t[r] == CLOSE_BRACE {
      fields := [f];
      assert fields[1..] == [];
      LastField(fields, have);
      assert t[pos..r + 1] == t[pos..r] + [t[r]];
    } else {
      var rest := FieldsAreSpelled(t, r + 1, depth, have + [m]);
      fields := [f] + rest;
      assert fields[1..] == rest;
      MoreFields(fields, have);
      NewKey(f, rest, have, m);
      hide NoKeyTwice;
      var end := ParseMembers(t, pos, depth, have).end;
      assert t[pos..end] == FieldText(f) + [',' as int] + FieldsText(rest) + ['}' as int] by {
        hide AreFields, FieldsText, FieldMeanings, FieldsHeight;
        MoreText(t, pos, r, end, FieldText(f), FieldsText(rest), '}' as int);
      }
    }
  }

  lemma NewKey(f: Field, rest: seq<Field>, have: seq<Member>, m: Member)
    requires AreUnits(f.key) && CharsMeaning(f.key) == m.key && !HasKey(have, m.key) && NoKeyTwice(rest)
    requires forall i | 0 <= i < |rest| :: !HasKey(have + [m], CharsMeaning(rest[i].key))
    ensures NoKeyTwice([f] + rest)
    ensures forall i | 0 <= i < |[f] + rest| :: !HasKey(have, CharsMeaning(([f] + rest)[i].key))
  {
    hide CharsMeaning, AreUnits;
    var all := [f] + rest;
    forall i | 0 <= i < |rest|
      ensures CharsMeaning(rest[i].key) != m.key && !HasKey(have, CharsMeaning(rest[i].key))
    {
      var key := CharsMeaning(rest[i].key);
      assert (have + [m])[|have|] == m;
      assert forall k | 0 <= k < |have| :: (have + [m])[k] == have[k];
    }
  }

  // ---------------------------------------------------------------- whole texts

  // Main result: a text is accepted if and only if it spells a value, with blanks around it, within the limits on size
  // and nesting; and the value read is the one it spells.
  lemma SpelledIsRead(before: seq<Byte>, tree: Tree, after: seq<Byte>)
    requires IsBlank(before) && IsTree(tree) && IsBlank(after) && Height(tree) <= MAX_DEPTH
    requires |before + TreeText(tree) + after| <= MAX_BODY_BYTES
    ensures Parse(before + TreeText(tree) + after) == Good(Meaning(tree))
  {
    hide TreeText, Meaning, Height, IsTree, ParseValue, SkipWs, IsBlank;
    var t := before + TreeText(tree) + after;
    var x := |before|;
    var e := x + |TreeText(tree)|;
    assert At(t, 0, before + (TreeText(tree) + after)) by {
      assert t[0..|t|] == t == before + (TreeText(tree) + after);
    }
    hide At;
    AtJoin(t, 0, before, TreeText(tree) + after);
    AtJoin(t, x, TreeText(tree), after);
    BlankEnds(t, e, after);
    TreeIsRead(t, x, tree, 0);
    BlankIsSkipped(t, 0, before);
  }

  lemma BlankEnds(t: seq<Byte>, pos: nat, w: seq<Byte>)
    requires IsBlank(w) && At(t, pos, w) && pos + |w| == |t|
    ensures SkipWs(t, pos) == |t| && ValueStops(t, pos)
  {
    BlankIsSkipped(t, pos, w);
    if w != [] {
      assert t[pos..pos + |w|][0] == t[pos];
    }
  }

  lemma ReadIsSpelled(t: seq<Byte>) returns (before: seq<Byte>, tree: Tree, after: seq<Byte>)
    requires Parse(t).Good?
    ensures IsBlank(before) && IsTree(tree) && IsBlank(after) && Height(tree) <= MAX_DEPTH && |t| <= MAX_BODY_BYTES
    ensures t == before + TreeText(tree) + after && Parse(t).value == Meaning(tree)
  {
    hide TreeText, Meaning, Height, IsTree, ParseValue, SkipWs, IsBlank;
    var x := SkipWs(t, 0);
    SkippedIsBlank(t, 0);
    tree := ValueIsSpelled(t, x, 0);
    var e := ParseValue(t, x, 0).end;
    SkippedIsBlank(t, e);
    before, after := t[0..x], t[e..|t|];
    assert t == t[0..x] + t[x..e] + t[e..|t|];
  }
}
