/**
 The JSON reader and writer of the client (client/src/control/json.cpp): the grammar of sections 2
 to 7 of RFC 8259 over bytes, with a bound on size and nesting, and integers of 64 bits.
 */
module Json {
  import opened Wrappers
  import U = Utf8

  const MAX_DEPTH := 32
  const MAX_BODY_BYTES := 4096
  const INT64_MAX: int := 0x7FFF_FFFF_FFFF_FFFF

  // Bytes by name.
  const QUOTE := 34
  const PLUS := 43
  const COMMA := 44
  const MINUS := 45
  const DOT := 46
  const SLASH := 47
  const COLON := 58
  const OPEN_BRACKET := 91
  const BACKSLASH := 92
  const CLOSE_BRACKET := 93
  const OPEN_BRACE := 123
  const CLOSE_BRACE := 125

  datatype Value =
    | Null
    | Bool(b: bool)
    | Integer(n: int)
    | OtherNumber
    | Str(s: seq<Byte>)
    | Arr(items: seq<Value>)
    | Obj(members: seq<Member>)
  datatype Member = Member(key: seq<Byte>, value: Value)

  datatype ParseError =
    | TooLarge | TooDeep | Syntax | ControlCharacter | BadEscape | BadSurrogate | BadUtf8 | DuplicateKey | TrailingData

  datatype Result<T> = Ok(value: T, end: nat) | Bad(error: ParseError)

  // ---------------------------------------------------------------- tokens

  predicate IsSpace(b: Byte) {
    b == 32 || b == 9 || b == 10 || b == 13
  }

  function SkipWs(t: seq<Byte>, pos: nat): (r: nat)
    requires pos <= |t|
    ensures pos <= r <= |t|
    ensures pos < |t| && !IsSpace(t[pos]) ==> r == pos
    decreases |t| - pos
  {
    if pos < |t| && IsSpace(t[pos]) then SkipWs(t, pos + 1) else pos
  }

  // The text has this at pos.
  predicate At(t: seq<Byte>, pos: nat, w: seq<Byte>) {
    pos + |w| <= |t| && t[pos..pos + |w|] == w
  }

  function TrueWord(): seq<Byte> { [116, 114, 117, 101] }
  function FalseWord(): seq<Byte> { [102, 97, 108, 115, 101] }
  function NullWord(): seq<Byte> { [110, 117, 108, 108] }

  function Word(t: seq<Byte>, pos: nat, word: seq<Byte>, v: Value): (r: Result<Value>)
    ensures r.Ok? ==> r == Ok(v, pos + |word|) && At(t, pos, word)
  {
    if At(t, pos, word) then Ok(v, pos + |word|) else Bad(Syntax)
  }

  // ---------------------------------------------------------------- strings

  predicate IsDigit(b: Byte) {
    48 <= b <= 57
  }

  function HexValue(b: Byte): (r: int)
    ensures -1 <= r < 16
  {
    if 48 <= b <= 57 then b - 48
    else if 97 <= b <= 102 then (b as int) - 87
    else if 65 <= b <= 70 then (b as int) - 55
    else -1
  }

  function HexDigit(v: nat): Byte
    requires v < 16
  {
    if v < 10 then 48 + v else 87 + v
  }

  // Four hexadecimal digits, or nothing.
  function Hex4(t: seq<Byte>, pos: nat): (r: Option<nat>)
    ensures r.Some? ==> r.value < 0x10000 && pos + 4 <= |t|
  {
    if pos + 4 > |t| then None
    else
      var a, b, c, d := HexValue(t[pos]), HexValue(t[pos + 1]), HexValue(t[pos + 2]), HexValue(t[pos + 3]);
      if a < 0 || b < 0 || c < 0 || d < 0 then None else Some(0x1000 * a + 0x100 * b + 0x10 * c + d)
  }

  function SimpleEscape(b: Byte): (r: Option<Byte>)
    ensures r.Some? ==> r.value < 0x80
  {
    if b == QUOTE || b == BACKSLASH || b == SLASH then Some(b)
    else if b == 98 then Some(8)
    else if b == 102 then Some(12)
    else if b == 110 then Some(10)
    else if b == 114 then Some(13)
    else if b == 116 then Some(9)
    else None
  }

  // What stands after a backslash, as the bytes it means.
  function ParseEscape(t: seq<Byte>, pos: nat): (r: Result<seq<Byte>>)
    requires pos <= |t|
    ensures r.Ok? ==> pos < r.end <= |t|
  {
    if pos == |t| then Bad(Syntax)
    else if SimpleEscape(t[pos]).Some? then Ok([SimpleEscape(t[pos]).value], pos + 1)
    else if t[pos] != 117 then Bad(BadEscape)
    else
      var high := Hex4(t, pos + 1);
      if high.None? then Bad(BadEscape)
      else if 0xDC00 <= high.value <= 0xDFFF then Bad(BadSurrogate)
      else if !(0xD800 <= high.value <= 0xDBFF) then Ok(U.Encode(high.value), pos + 5)
      else if !At(t, pos + 5, [BACKSLASH, 117]) then Bad(BadSurrogate)
      else
        var low := Hex4(t, pos + 7);
        if low.None? then Bad(BadEscape)
        else if !(0xDC00 <= low.value <= 0xDFFF) then Bad(BadSurrogate)
        else Ok(U.Encode(0x10000 + 0x400 * (high.value - 0xD800) + (low.value - 0xDC00)), pos + 11)
  }

  function Prepend(a: seq<Byte>, r: Result<seq<Byte>>): Result<seq<Byte>> {
    if r.Ok? then Ok(a + r.value, r.end) else r
  }

  // From after the opening quote to after the closing one.
  function ParseChars(t: seq<Byte>, pos: nat): (r: Result<seq<Byte>>)
    requires pos <= |t|
    ensures r.Ok? ==> pos < r.end <= |t|
    decreases |t| - pos
  {
    if pos == |t| then Bad(Syntax)
    else if t[pos] == QUOTE then Ok([], pos + 1)
    else if t[pos] == BACKSLASH then
      var e := ParseEscape(t, pos + 1);
      if e.Bad? then e else Prepend(e.value, ParseChars(t, e.end))
    else if t[pos] < 0x20 then Bad(ControlCharacter)
    else
      var n := U.Length(t, pos);
      if n == 0 then Bad(BadUtf8) else Prepend(t[pos..pos + n], ParseChars(t, pos + n))
  }

  // ---------------------------------------------------------------- numbers

  function DigitsEnd(t: seq<Byte>, pos: nat): (r: nat)
    requires pos <= |t|
    ensures pos <= r <= |t| && (forall i | pos <= i < r :: IsDigit(t[i])) && (r < |t| ==> !IsDigit(t[r]))
    decreases |t| - pos
  {
    if pos < |t| && IsDigit(t[pos]) then DigitsEnd(t, pos + 1) else pos
  }

  predicate AllDigits(ds: seq<Byte>) {
    forall i | 0 <= i < |ds| :: IsDigit(ds[i])
  }

  function NatOf(ds: seq<Byte>): nat
    requires AllDigits(ds)
  {
    if ds == [] then 0 else 10 * NatOf(ds[..|ds| - 1]) + (ds[|ds| - 1] - 48)
  }

  // The fraction and the exponent, each with at least one digit; None when one is cut short.
  function AfterFraction(t: seq<Byte>, pos: nat): (r: Option<nat>)
    requires pos <= |t|
    ensures r.Some? ==> pos <= r.value <= |t|
  {
    if pos < |t| && t[pos] == DOT then
      var e := DigitsEnd(t, pos + 1);
      if e == pos + 1 then None else Some(e)
    else Some(pos)
  }

  function AfterExponent(t: seq<Byte>, pos: nat): (r: Option<nat>)
    requires pos <= |t|
    ensures r.Some? ==> pos <= r.value <= |t|
  {
    if pos < |t| && (t[pos] == 101 || t[pos] == 69) then
      var p := if pos + 1 < |t| && (t[pos + 1] == PLUS || t[pos + 1] == MINUS) then pos + 2 else pos + 1;
      var e := DigitsEnd(t, p);
      if e == p then None else Some(e)
    else Some(pos)
  }

  function ParseNumber(t: seq<Byte>, pos: nat): (r: Result<Value>)
    requires pos < |t|
    ensures r.Ok? ==> pos < r.end <= |t|
  {
    var negative := t[pos] == MINUS;
    var p := if negative then pos + 1 else pos;
    var e := DigitsEnd(t, p);
    if e == p || (t[p] == 48 && e > p + 1) then Bad(Syntax)
    else
      var f := AfterFraction(t, e);
      var g := if f.Some? then AfterExponent(t, f.value) else None;
      if g.None? then Bad(Syntax)
      else
        var magnitude: int := NatOf(t[p..e]);
        var limit := if negative then INT64_MAX + 1 else INT64_MAX;
        if g.value != e || magnitude > limit then Ok(OtherNumber, g.value)
        else Ok(Integer(if negative then -magnitude else magnitude), e)
  }

  // The reader's own count of the digits, with the check that keeps it within 64 bits: it gives up
  // exactly when the number is beyond the limit.
  method Magnitude(ds: seq<Byte>, limit: nat) returns (fits: bool, magnitude: nat)
    requires AllDigits(ds) && limit >= 9
    ensures fits <==> NatOf(ds) <= limit
    ensures fits ==> magnitude == NatOf(ds)
  {
    fits, magnitude := true, 0;
    for i := 0 to |ds|
      invariant fits ==> magnitude == NatOf(ds[..i]) <= limit
      invariant !fits ==> NatOf(ds[..i]) > limit
    {
      assert ds[..i + 1][..i] == ds[..i];
      var d := ds[i] - 48;
      if fits && magnitude > (limit - d) / 10 {
        fits := false;
      }
      if fits {
        magnitude := magnitude * 10 + d;
      }
    }
    assert ds[..|ds|] == ds;
  }

  // ---------------------------------------------------------------- values

  predicate HasKey(ms: seq<Member>, key: seq<Byte>) {
    exists i | 0 <= i < |ms| :: ms[i].key == key
  }

  function ParseValue(t: seq<Byte>, pos: nat, depth: nat): (r: Result<Value>)
    requires pos <= |t|
    ensures r.Ok? ==> pos < r.end <= |t|
    decreases |t| - pos, 2
  {
    if pos == |t| then Bad(Syntax)
    else if t[pos] == OPEN_BRACE then ParseObject(t, pos, depth + 1)
    else if t[pos] == OPEN_BRACKET then ParseArray(t, pos, depth + 1)
    else if t[pos] == QUOTE then
      var s := ParseChars(t, pos + 1);
      if s.Ok? then Ok(Str(s.value), s.end) else Bad(s.error)
    else if t[pos] == 116 then Word(t, pos, TrueWord(), Bool(true))
    else if t[pos] == 102 then Word(t, pos, FalseWord(), Bool(false))
    else if t[pos] == 110 then Word(t, pos, NullWord(), Null)
    else ParseNumber(t, pos)
  }

  function ParseObject(t: seq<Byte>, pos: nat, depth: nat): (r: Result<Value>)
    requires pos < |t|
    ensures r.Ok? ==> pos < r.end <= |t|
    decreases |t| - pos, 1
  {
    if depth > MAX_DEPTH then Bad(TooDeep)
    else
      var p := SkipWs(t, pos + 1);
      if p < |t| && t[p] == CLOSE_BRACE then Ok(Obj([]), p + 1) else ParseMembers(t, p, depth, [])
  }

  function ParseMembers(t: seq<Byte>, pos: nat, depth: nat, have: seq<Member>): (r: Result<Value>)
    requires pos <= |t|
    ensures r.Ok? ==> pos < r.end <= |t|
    decreases |t| - pos, 0
  {
    var p := SkipWs(t, pos);
    if p == |t| || t[p] != QUOTE then Bad(Syntax)
    else
      var key := ParseChars(t, p + 1);
      if key.Bad? then Bad(key.error)
      else
        var q := SkipWs(t, key.end);
        if q == |t| || t[q] != COLON then Bad(Syntax)
        else
          var item := ParseValue(t, SkipWs(t, q + 1), depth);
          if item.Bad? then item
          else if HasKey(have, key.value) then Bad(DuplicateKey)
          else
            var all := have + [Member(key.value, item.value)];
            var r := SkipWs(t, item.end);
            if r == |t| then Bad(Syntax)
            else if t[r] == COMMA then ParseMembers(t, r + 1, depth, all)
            else if t[r] == CLOSE_BRACE then Ok(Obj(all), r + 1)
            else Bad(Syntax)
  }

  function ParseArray(t: seq<Byte>, pos: nat, depth: nat): (r: Result<Value>)
    requires pos < |t|
    ensures r.Ok? ==> pos < r.end <= |t|
    decreases |t| - pos, 1
  {
    if depth > MAX_DEPTH then Bad(TooDeep)
    else
      var p := SkipWs(t, pos + 1);
      if p < |t| && t[p] == CLOSE_BRACKET then Ok(Arr([]), p + 1) else ParseItems(t, p, depth, [])
  }

  function ParseItems(t: seq<Byte>, pos: nat, depth: nat, have: seq<Value>): (r: Result<Value>)
    requires pos <= |t|
    ensures r.Ok? ==> pos < r.end <= |t|
    decreases |t| - pos, 3
  {
    var item := ParseValue(t, SkipWs(t, pos), depth);
    if item.Bad? then item
    else
      var all := have + [item.value];
      var r := SkipWs(t, item.end);
      if r == |t| then Bad(Syntax)
      else if t[r] == COMMA then ParseItems(t, r + 1, depth, all)
      else if t[r] == CLOSE_BRACKET then Ok(Arr(all), r + 1)
      else Bad(Syntax)
  }

  datatype Parsed = Good(value: Value) | Failed(error: ParseError)

  function Parse(t: seq<Byte>): Parsed {
    if |t| > MAX_BODY_BYTES then Failed(TooLarge)
    else
      var v := ParseValue(t, SkipWs(t, 0), 0);
      if v.Bad? then Failed(v.error)
      else if SkipWs(t, v.end) != |t| then Failed(TrailingData)
      else Good(v.value)
  }

  // ---------------------------------------------------------------- writing

  function Escape(b: Byte): (r: seq<Byte>)
    ensures 1 <= |r| <= 6 && (b >= 0x80 ==> r == [b])
  {
    if b == QUOTE || b == BACKSLASH then [BACKSLASH, b]
    else if b == 8 then [BACKSLASH, 98]
    else if b == 12 then [BACKSLASH, 102]
    else if b == 10 then [BACKSLASH, 110]
    else if b == 13 then [BACKSLASH, 114]
    else if b == 9 then [BACKSLASH, 116]
    else if b < 0x20 then [BACKSLASH, 117, 48, 48, HexDigit(b / 16), HexDigit(b % 16)]
    else [b]
  }

  function WriteChars(s: seq<Byte>): seq<Byte> {
    if s == [] then [] else Escape(s[0]) + WriteChars(s[1..])
  }

  function WriteString(s: seq<Byte>): Option<seq<Byte>> {
    if U.Valid(s) then Some([QUOTE] + WriteChars(s) + [QUOTE]) else None
  }

  function Digits(n: nat): (ds: seq<Byte>)
    ensures |ds| >= 1
  {
    if n < 10 then [48 + n] else Digits(n / 10) + [48 + n % 10]
  }

  function WriteInteger(n: int): seq<Byte> {
    if n < 0 then [MINUS] + Digits(-n) else Digits(n)
  }

  // None when the value cannot be written.
  function Write(v: Value, depth: nat): Option<seq<Byte>>
    decreases v
  {
    match v
    case Null => Some(NullWord())
    case Bool(b) => Some(if b then TrueWord() else FalseWord())
    case Integer(n) => Some(WriteInteger(n))
    case OtherNumber => None
    case Str(s) => WriteString(s)
    case Arr(items) =>
      if depth + 1 > MAX_DEPTH then None
      else
        var w := WriteItems(items, depth + 1);
        if w.None? then None else Some([OPEN_BRACKET] + w.value + [CLOSE_BRACKET])
    case Obj(members) =>
      if depth + 1 > MAX_DEPTH then None
      else
        var w := WriteMembers(members, depth + 1);
        if w.None? then None else Some([OPEN_BRACE] + w.value + [CLOSE_BRACE])
  }

  function WriteItems(items: seq<Value>, depth: nat): Option<seq<Byte>>
    decreases items
  {
    if items == [] then Some([])
    else
      var first := Write(items[0], depth);
      var rest := WriteItems(items[1..], depth);
      if first.None? || rest.None? then None
      else Some(if |items| == 1 then first.value else first.value + [COMMA] + rest.value)
  }

  function WriteMember(m: Member, depth: nat): Option<seq<Byte>>
    decreases m
  {
    var key := WriteString(m.key);
    var value := Write(m.value, depth);
    if key.None? || value.None? then None else Some(key.value + [COLON] + value.value)
  }

  function WriteMembers(members: seq<Member>, depth: nat): Option<seq<Byte>>
    decreases members
  {
    if members == [] then Some([])
    else
      var first := WriteMember(members[0], depth);
      var rest := WriteMembers(members[1..], depth);
      if first.None? || rest.None? then None
      else Some(if |members| == 1 then first.value else first.value + [COMMA] + rest.value)
  }

  function Serialize(v: Value): Option<seq<Byte>> {
    Write(v, 0)
  }

  // What values can be built: integers of 64 bits, and no key twice in an object.
  predicate DistinctKeys(ms: seq<Member>) {
    forall i, j | 0 <= i < j < |ms| :: ms[i].key != ms[j].key
  }

  predicate WellFormed(v: Value)
    decreases v
  {
    match v
    case Integer(n) => -INT64_MAX - 1 <= n <= INT64_MAX
    case Arr(items) => forall i | 0 <= i < |items| :: WellFormed(items[i])
    case Obj(members) => DistinctKeys(members) && forall i | 0 <= i < |members| :: WellFormed(members[i].value)
    case _ => true
  }

  predicate NoOtherNumber(v: Value)
    decreases v
  {
    match v
    case OtherNumber => false
    case Arr(items) => forall i | 0 <= i < |items| :: NoOtherNumber(items[i])
    case Obj(members) => forall i | 0 <= i < |members| :: NoOtherNumber(members[i].value)
    case _ => true
  }
}
