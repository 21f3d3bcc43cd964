/**
 What is written is read back as the same value, and what is read is written no longer than it was.
 */
module JsonRoundTrip {
  import opened Wrappers
  import opened Json
  import U = Utf8

  // ---------------------------------------------------------------- positions

  lemma AtParts(t: seq<Byte>, pos: nat, a: seq<Byte>, b: seq<Byte>)
    requires At(t, pos, a + b)
    ensures At(t, pos, a) && At(t, pos + |a|, b)
  {
    var w := a + b;
    assert t[pos..pos + |w|][..|a|] == t[pos..pos + |a|] && t[pos..pos + |w|][|a|..] == t[pos + |a|..pos + |w|];
    assert w[..|a|] == a && w[|a|..] == b;
  }

  lemma ByteAt(t: seq<Byte>, pos: nat, w: seq<Byte>, i: nat)
    requires At(t, pos, w) && i < |w|
    ensures pos + i < |t| && t[pos + i] == w[i]
  {
    assert t[pos..pos + |w|][i] == w[i];
  }

  lemma Regroup(a: seq<Byte>, b: seq<Byte>, c: seq<Byte>)
    ensures a + b + c == a + (b + c)
  {
  }

  lemma AtFirst(t: seq<Byte>, pos: nat, w: seq<Byte>)
    requires At(t, pos, w) && w != []
    ensures pos < |t| && t[pos] == w[0]
  {
    assert t[pos..pos + |w|][0] == w[0];
  }

  // Where a written value may end.
  predicate Ends(t: seq<Byte>, pos: nat) {
    pos == |t| || (pos < |t| && t[pos] in {COMMA as Byte, CLOSE_BRACKET as Byte, CLOSE_BRACE as Byte})
  }

  // ---------------------------------------------------------------- strings, written then read

  lemma HexReads(v: nat)
    requires v < 16
    ensures HexValue(HexDigit(v)) == v
  {
  }

  // One byte below 0x80, escaped or not, is read back alone.
  lemma EscapeReads(b: Byte, t: seq<Byte>, pos: nat)
    requires b < 0x80 && At(t, pos, Escape(b))
    ensures ParseChars(t, pos) == Prepend([b], ParseChars(t, pos + |Escape(b)|))
  {
    var w := Escape(b);
    ByteAt(t, pos, w, 0);
    if |w| == 1 {
      assert t[pos..pos + 1] == [b];
      assert U.Length(t, pos) == 1;
    } else if |w| == 2 {
      ByteAt(t, pos, w, 1);
      assert ParseEscape(t, pos + 1) == Ok([b], pos + 2);
    } else {
      LongEscapeReads(b, t, pos);
    }
  }

  lemma LongEscapeReads(b: Byte, t: seq<Byte>, pos: nat)
    requires b < 0x20 && |Escape(b)| == 6 && At(t, pos, Escape(b))
    ensures t[pos] == BACKSLASH && ParseEscape(t, pos + 1) == Ok([b], pos + 6)
  {
    var w := Escape(b);
    ByteAt(t, pos, w, 0);
    ByteAt(t, pos, w, 1);
    ByteAt(t, pos, w, 2);
    ByteAt(t, pos, w, 3);
    ByteAt(t, pos, w, 4);
    ByteAt(t, pos, w, 5);
    HexReads(b / 16);
    HexReads(b % 16);
    assert Hex4(t, pos + 2) == Some(b as nat);
  }

  lemma {:induction false} HighBytesStay(s: seq<Byte>)
    requires forall i | 0 <= i < |s| :: s[i] >= 0x80
    ensures WriteChars(s) == s
  {
    if s != [] {
      HighBytesStay(s[1..]);
    }
  }

  lemma {:induction false} WriteCharsParts(a: seq<Byte>, b: seq<Byte>)
    ensures WriteChars(a + b) == WriteChars(a) + WriteChars(b)
  {
    hide Escape;
    if a == [] {
      assert a + b == b;
    } else {
      WriteCharsParts(a[1..], b);
      assert (a + b)[1..] == a[1..] + b;
    }
  }

  lemma LongCharIsHigh(s: seq<Byte>, n: nat)
    requires U.Length(s, 0) == n >= 2
    ensures forall i | 0 <= i < n :: s[i] >= 0x80
  {
  }

  // A written character is read as the bytes it was.
  lemma CharReads(ch: seq<Byte>, t: seq<Byte>, pos: nat)
    requires U.Length(ch, 0) == |ch| > 0 && At(t, pos, WriteChars(ch))
    ensures ParseChars(t, pos) == Prepend(ch, ParseChars(t, pos + |WriteChars(ch)|))
  {
    assert |ch| == 1 ==> ch[0] < 0x80;
    hide ParseChars, WriteChars, Prepend, At, U.Length;
    if |ch| == 1 {
      ShortCharReads(ch[0], t, pos);
      assert [ch[0]] == ch;
    } else {
      LongCharReads(ch, t, pos);
    }
  }

  lemma ShortCharReads(b: Byte, t: seq<Byte>, pos: nat)
    requires b < 0x80 && At(t, pos, WriteChars([b]))
    ensures ParseChars(t, pos) == Prepend([b], ParseChars(t, pos + |WriteChars([b])|))
  {
    hide ParseChars, Prepend, Escape;
    assert WriteChars([b]) == Escape(b) by {
      assert WriteChars([b]) == Escape(b) + WriteChars([]);
    }
    EscapeReads(b, t, pos);
  }

  lemma LongCharReads(ch: seq<Byte>, t: seq<Byte>, pos: nat)
    requires U.Length(ch, 0) == |ch| > 1 && At(t, pos, WriteChars(ch))
    ensures ParseChars(t, pos) == Prepend(ch, ParseChars(t, pos + |WriteChars(ch)|))
  {
    LongCharIsHigh(ch, |ch|);
    HighBytesStay(ch);
    assert ch[0..|ch|] == ch;
    U.LengthLocal(ch, 0, t, pos);
    AtFirst(t, pos, ch);
    hide WriteChars, U.Length;
  }

  lemma FirstChar(s: seq<Byte>) returns (ch: seq<Byte>, rest: seq<Byte>)
    requires U.Valid(s) && s != []
    ensures s == ch + rest && U.Length(ch, 0) == |ch| > 0 && U.Valid(rest)
    ensures WriteChars(s) == WriteChars(ch) + WriteChars(rest)
  {
    hide WriteChars;
    U.ValidCons(s);
    var n := U.Length(s, 0);
    ch, rest := s[..n], s[n..];
    assert s[0..n] == ch[0..n];
    U.LengthLocal(s, 0, ch, 0);
    WriteCharsParts(ch, rest);
    assert s == ch + rest;
  }

  lemma {:induction false} CharsRead(s: seq<Byte>, t: seq<Byte>, pos: nat)
    requires U.Valid(s) && At(t, pos, WriteChars(s) + [QUOTE])
    ensures ParseChars(t, pos) == Ok(s, pos + |WriteChars(s)| + 1)
    decreases |s|
  {
    hide WriteChars, U.Valid, U.Length, ParseChars, At;
    if s == [] {
      NothingRead(t, pos);
    } else {
      var ch, rest := FirstChar(s);
      var w, v := WriteChars(ch), WriteChars(rest);
      assert WriteChars(s) + [QUOTE] == w + (v + [QUOTE]) by { Regroup(w, v, [QUOTE]); }
      AtParts(t, pos, w, v + [QUOTE]);
      AtWithin(t, pos, w);
      CharReads(ch, t, pos);
      CharsRead(rest, t, pos + |w|);
      assert Prepend(ch, ParseChars(t, pos + |w|)) == Ok(ch + rest, pos + |w| + |v| + 1);
    }
  }

  lemma NothingRead(t: seq<Byte>, pos: nat)
    requires At(t, pos, WriteChars([]) + [QUOTE])
    ensures pos <= |t| && WriteChars([]) == [] && ParseChars(t, pos) == Ok([], pos + 1)
  {
    assert WriteChars([]) + [QUOTE] == [QUOTE];
    AtFirst(t, pos, [QUOTE]);
  }

  lemma AtWithin(t: seq<Byte>, pos: nat, w: seq<Byte>)
    requires At(t, pos, w)
    ensures pos + |w| <= |t|
  {
  }

  // ---------------------------------------------------------------- numbers, written then read

  lemma {:induction false} DigitsMean(n: nat)
    ensures AllDigits(Digits(n)) && NatOf(Digits(n)) == n
    ensures Digits(n)[0] == 48 ==> n == 0
  {
    var ds := Digits(n);
    if n < 10 {
      assert ds[..0] == [];
    } else {
      DigitsMean(n / 10);
      assert ds[..|ds| - 1] == Digits(n / 10);
    }
  }

  lemma {:induction false} DigitsEndAt(t: seq<Byte>, pos: nat, end: nat)
    requires pos <= end <= |t| && (forall i | pos <= i < end :: IsDigit(t[i])) && (end < |t| ==> !IsDigit(t[end]))
    ensures DigitsEnd(t, pos) == end
    decreases end - pos
  {
    if pos < end {
      DigitsEndAt(t, pos + 1, end);
    }
  }

  // A run of digits is found whole.
  lemma DigitsRead(ds: seq<Byte>, t: seq<Byte>, p: nat)
    requires AllDigits(ds) && ds != [] && At(t, p, ds) && Ends(t, p + |ds|)
    ensures DigitsEnd(t, p) == p + |ds| && t[p] == ds[0] && t[p..p + |ds|] == ds
  {
    forall i | p <= i < p + |ds|
      ensures IsDigit(t[i])
    {
      assert t[p..p + |ds|][i - p] == ds[i - p];
    }
    assert t[p..p + |ds|][0] == ds[0];
    DigitsEndAt(t, p, p + |ds|);
  }

  lemma IntegerReads(n: int, t: seq<Byte>, pos: nat)
    requires -INT64_MAX - 1 <= n <= INT64_MAX && At(t, pos, WriteInteger(n)) && Ends(t, pos + |WriteInteger(n)|)
    ensures pos < |t| && ParseNumber(t, pos) == Ok(Integer(n), pos + |WriteInteger(n)|)
    ensures t[pos] == MINUS || IsDigit(t[pos])
  {
    if n < 0 {
      NegativeReads(n, t, pos);
    } else {
      NaturalReads(n, t, pos);
    }
    hide ParseNumber, At;
  }

  lemma NaturalReads(n: nat, t: seq<Byte>, pos: nat)
    requires n <= INT64_MAX && At(t, pos, Digits(n)) && Ends(t, pos + |Digits(n)|)
    ensures pos < |t| && ParseNumber(t, pos) == Ok(Integer(n), pos + |Digits(n)|) && IsDigit(t[pos])
  {
    hide Digits, NatOf, DigitsEnd, At;
    DigitsMean(n);
    DigitsRead(Digits(n), t, pos);
    ZeroDigit(n);
  }

  lemma ZeroDigit(n: nat)
    ensures n == 0 ==> Digits(n) == [48]
  {
  }

  lemma NegativeReads(n: int, t: seq<Byte>, pos: nat)
    requires -INT64_MAX - 1 <= n < 0 && At(t, pos, WriteInteger(n)) && Ends(t, pos + |WriteInteger(n)|)
    ensures pos < |t| && ParseNumber(t, pos) == Ok(Integer(n), pos + |WriteInteger(n)|)
    ensures t[pos] == MINUS
  {
    hide Digits, NatOf, DigitsEnd, At;
    var ds := Digits(-n);
    DigitsMean(-n);
    AtParts(t, pos, [MINUS], ds);
    AtFirst(t, pos, [MINUS]);
    DigitsRead(ds, t, pos + 1);
  }

  // ---------------------------------------------------------------- values, written then read

  // A written value starts with none of these.
  predicate IsStart(b: Byte) {
    !IsSpace(b) && b != CLOSE_BRACKET && b != CLOSE_BRACE && b != COMMA
  }

  lemma WriteStarts(v: Value, depth: nat)
    requires Write(v, depth).Some?
    ensures var w := Write(v, depth).value;
            w != [] && IsStart(w[0])
  {
    if v.Integer? {
      DigitsMean(if v.n < 0 then -v.n else v.n);
    }
  }

  lemma SpaceNone(t: seq<Byte>, pos: nat)
    requires pos == |t| || (pos < |t| && !IsSpace(t[pos]))
    ensures SkipWs(t, pos) == pos
  {
  }

  lemma {:induction false} ValueReads(v: Value, depth: nat, t: seq<Byte>, pos: nat)
    requires WellFormed(v) && Write(v, depth).Some?
    requires var w := Write(v, depth).value; At(t, pos, w) && Ends(t, pos + |w|)
    ensures ParseValue(t, pos, depth) == Ok(v, pos + |Write(v, depth).value|)
    decreases v
  {
    var w := Write(v, depth).value;
    WriteStarts(v, depth);
    AtFirst(t, pos, w);
    match v
    case Null =>
    case Bool(b) =>
    case Integer(n) => IntegerReads(n, t, pos);
    case OtherNumber =>
    case Str(s) => StringReads(s, t, pos, depth);
    case Arr(items) => ArrayReads(v, depth, t, pos);
    case Obj(members) => ObjectReads(v, depth, t, pos);
  }

  lemma StringReads(s: seq<Byte>, t: seq<Byte>, pos: nat, depth: nat)
    requires WriteString(s).Some? && At(t, pos, WriteString(s).value)
    ensures ParseValue(t, pos, depth) == Ok(Str(s), pos + |WriteString(s).value|)
    ensures t[pos] == QUOTE && ParseChars(t, pos + 1) == Ok(s, pos + |WriteString(s).value|)
  {
    var body := WriteChars(s) + [QUOTE];
    assert [QUOTE] + WriteChars(s) + [QUOTE] == [QUOTE] + body;
    AtParts(t, pos, [QUOTE], body);
    AtFirst(t, pos, [QUOTE]);
    CharsRead(s, t, pos + 1);
  }

  lemma {:induction false} ArrayReads(v: Value, depth: nat, t: seq<Byte>, pos: nat)
    requires v.Arr? && WellFormed(v) && Write(v, depth).Some?
    requires var w := Write(v, depth).value; At(t, pos, w)
    ensures ParseValue(t, pos, depth) == Ok(v, pos + |Write(v, depth).value|)
    decreases v, 0
  {
    hide ParseItems, SkipWs, At;
    var body := WriteItems(v.items, depth + 1).value;
    assert [OPEN_BRACKET] + body + [CLOSE_BRACKET] == [OPEN_BRACKET] + (body + [CLOSE_BRACKET]);
    AtParts(t, pos, [OPEN_BRACKET], body + [CLOSE_BRACKET]);
    AtFirst(t, pos, [OPEN_BRACKET]);
    if v.items == [] {
      AtFirst(t, pos + 1, body + [CLOSE_BRACKET]);
      SpaceNone(t, pos + 1);
    } else {
      ItemsStart(v.items, depth + 1);
      AtFirst(t, pos + 1, body + [CLOSE_BRACKET]);
      SpaceNone(t, pos + 1);
      ItemsRead(v.items, depth + 1, t, pos + 1, []);
      assert [] + v.items == v.items;
    }
  }

  lemma ItemsStart(items: seq<Value>, depth: nat)
    requires items != [] && WriteItems(items, depth).Some?
    ensures var w := WriteItems(items, depth).value;
            w != [] && IsStart(w[0])
  {
    WriteStarts(items[0], depth);
  }

  lemma ItemsStep(t: seq<Byte>, pos: nat, depth: nat, have: seq<Value>, v: Value, end: nat)
    requires pos <= |t| && SkipWs(t, pos) == pos && ParseValue(t, pos, depth) == Ok(v, end)
    requires end < |t| && SkipWs(t, end) == end
    ensures t[end] == COMMA ==> ParseItems(t, pos, depth, have) == ParseItems(t, end + 1, depth, have + [v])
    ensures t[end] == CLOSE_BRACKET ==> ParseItems(t, pos, depth, have) == Ok(Arr(have + [v]), end + 1)
  {
    hide ParseValue;
  }

  lemma {:induction false} ItemsRead(items: seq<Value>, depth: nat, t: seq<Byte>, pos: nat, have: seq<Value>)
    requires items != [] && WriteItems(items, depth).Some? && forall i | 0 <= i < |items| :: WellFormed(items[i])
    requires At(t, pos, WriteItems(items, depth).value + [CLOSE_BRACKET])
    ensures ParseItems(t, pos, depth, have) == Ok(Arr(have + items), pos + |WriteItems(items, depth).value| + 1)
    decreases items, 1
  {
    hide ParseValue, ParseItems, Write, WriteItems, WellFormed, At, SkipWs;
    ItemsText(items, depth);
    var first := Write(items[0], depth).value;
    var rest := WriteItems(items[1..], depth).value;
    var tail := if |items| == 1 then [CLOSE_BRACKET] else [COMMA] + (rest + [CLOSE_BRACKET]);
    AtParts(t, pos, first, tail);
    AtFirst(t, pos + |first|, tail);
    WriteStarts(items[0], depth);
    AtFirst(t, pos, first);
    SpaceNone(t, pos);
    assert Ends(t, pos + |first|);
    ValueReads(items[0], depth, t, pos);
    SpaceNone(t, pos + |first|);
    ItemsStep(t, pos, depth, have, items[0], pos + |first|);
    if |items| == 1 {
      assert have + [items[0]] == have + items;
    } else {
      AtParts(t, pos + |first|, [COMMA], rest + [CLOSE_BRACKET]);
      assert have + [items[0]] + items[1..] == have + items;
      ItemsRead(items[1..], depth, t, pos + |first| + 1, have + [items[0]]);
    }
  }

  // The first value, and what follows up to the closing bracket.
  lemma ItemsText(items: seq<Value>, depth: nat)
    requires items != [] && WriteItems(items, depth).Some?
    ensures Write(items[0], depth).Some? && WriteItems(items[1..], depth).Some?
    ensures var first, rest := Write(items[0], depth).value, WriteItems(items[1..], depth).value;
            var tail := if |items| == 1 then [CLOSE_BRACKET] else [COMMA] + (rest + [CLOSE_BRACKET]);
            && WriteItems(items, depth).value + [CLOSE_BRACKET] == first + tail
            && |WriteItems(items, depth).value| + 1 == |first| + |tail|
  {
    hide Write;
    if |items| > 1 {
      var first, rest := Write(items[0], depth).value, WriteItems(items[1..], depth).value;
      Regroup(first + [COMMA], rest, [CLOSE_BRACKET]);
      Regroup(first, [COMMA], rest + [CLOSE_BRACKET]);
    }
  }

  lemma {:induction false} ObjectReads(v: Value, depth: nat, t: seq<Byte>, pos: nat)
    requires v.Obj? && WellFormed(v) && Write(v, depth).Some?
    requires var w := Write(v, depth).value; At(t, pos, w)
    ensures ParseValue(t, pos, depth) == Ok(v, pos + |Write(v, depth).value|)
    decreases v, 0
  {
    hide ParseMembers, IsStart, SkipWs, At;
    var body := WriteMembers(v.members, depth + 1).value;
    assert [OPEN_BRACE] + body + [CLOSE_BRACE] == [OPEN_BRACE] + (body + [CLOSE_BRACE]);
    AtParts(t, pos, [OPEN_BRACE], body + [CLOSE_BRACE]);
    AtFirst(t, pos, [OPEN_BRACE]);
    AtFirst(t, pos + 1, body + [CLOSE_BRACE]);
    if v.members != [] {
      MembersStart(v.members, depth + 1);
    }
    SpaceNone(t, pos + 1);
    if v.members != [] {
      MembersRead(v.members, depth + 1, t, pos + 1, []);
      assert [] + v.members == v.members;
    }
  }

  lemma MembersStep(t: seq<Byte>, pos: nat, depth: nat, have: seq<Member>, m: Member, colon: nat, end: nat)
    requires pos < |t| && t[pos] == QUOTE && SkipWs(t, pos) == pos && ParseChars(t, pos + 1) == Ok(m.key, colon)
    requires colon < |t| && t[colon] == COLON && SkipWs(t, colon) == colon && SkipWs(t, colon + 1) == colon + 1
    requires ParseValue(t, colon + 1, depth) == Ok(m.value, end) && !HasKey(have, m.key)
    requires end < |t| && SkipWs(t, end) == end
    ensures t[end] == COMMA ==> ParseMembers(t, pos, depth, have) == ParseMembers(t, end + 1, depth, have + [m])
    ensures t[end] == CLOSE_BRACE ==> ParseMembers(t, pos, depth, have) == Ok(Obj(have + [m]), end + 1)
  {
    hide ParseValue, ParseChars, HasKey;
  }

  lemma MemberParts(m: Member, depth: nat)
    requires WriteMember(m, depth).Some?
    ensures WriteString(m.key).Some? && Write(m.value, depth).Some?
    ensures WriteMember(m, depth) == Some(WriteString(m.key).value + [COLON] + Write(m.value, depth).value)
  {
  }

  // Key, colon, value, and what follows up to the closing brace.
  lemma MembersText(ms: seq<Member>, depth: nat)
    requires ms != [] && WriteMembers(ms, depth).Some?
    ensures WriteMember(ms[0], depth).Some? && WriteString(ms[0].key).Some? && Write(ms[0].value, depth).Some?
    ensures WriteMembers(ms[1..], depth).Some?
    ensures var key, value, rest := WriteString(ms[0].key).value, Write(ms[0].value, depth).value, WriteMembers(ms[1..], depth).value;
            var tail := if |ms| == 1 then [CLOSE_BRACE] else [COMMA] + (rest + [CLOSE_BRACE]);
            && WriteMembers(ms, depth).value + [CLOSE_BRACE] == key + ([COLON] + (value + tail))
            && |WriteMembers(ms, depth).value| + 1 == |key| + 1 + |value| + |tail|
  {
    hide Write, WriteString;
    MemberParts(ms[0], depth);
    var key, value := WriteString(ms[0].key).value, Write(ms[0].value, depth).value;
    var rest := WriteMembers(ms[1..], depth).value;
    var first := key + [COLON] + value;
    if |ms| == 1 {
      Regroup(key + [COLON], value, [CLOSE_BRACE]);
      Regroup(key, [COLON], value + [CLOSE_BRACE]);
    } else {
      var tail := [COMMA] + (rest + [CLOSE_BRACE]);
      Regroup(first + [COMMA], rest, [CLOSE_BRACE]);
      Regroup(first, [COMMA], rest + [CLOSE_BRACE]);
      Regroup(key + [COLON], value, tail);
      Regroup(key, [COLON], value + tail);
    }
  }

  lemma MembersStart(ms: seq<Member>, depth: nat)
    requires ms != [] && WriteMembers(ms, depth).Some?
    ensures var w := WriteMembers(ms, depth).value;
            w != [] && w[0] == QUOTE
  {
  }

  lemma {:induction false} MembersRead(ms: seq<Member>, depth: nat, t: seq<Byte>, pos: nat, have: seq<Member>)
    requires ms != [] && WriteMembers(ms, depth).Some? && forall i | 0 <= i < |ms| :: WellFormed(ms[i].value)
    requires DistinctKeys(have + ms)
    requires At(t, pos, WriteMembers(ms, depth).value + [CLOSE_BRACE])
    ensures ParseMembers(t, pos, depth, have) == Ok(Obj(have + ms), pos + |WriteMembers(ms, depth).value| + 1)
    decreases ms, 1
  {
    hide ParseChars, ParseValue, ParseMembers, Write, WriteString, WellFormed, WriteMember, WriteMembers, At, SkipWs;
    MembersText(ms, depth);
    var key, value := WriteString(ms[0].key).value, Write(ms[0].value, depth).value;
    var rest := WriteMembers(ms[1..], depth).value;
    var tail := if |ms| == 1 then [CLOSE_BRACE] else [COMMA] + (rest + [CLOSE_BRACE]);
    MemberReads(ms[0], depth, t, pos, tail);
    assert !HasKey(have, ms[0].key) by {
      forall i | 0 <= i < |have|
        ensures have[i].key != ms[0].key
      {
        assert (have + ms)[i] == have[i] && (have + ms)[|have|] == ms[0];
      }
    }
    var end := pos + |key| + 1 + |value|;
    SpaceNone(t, end);
    MembersStep(t, pos, depth, have, ms[0], pos + |key|, end);
    if |ms| == 1 {
      assert have + [ms[0]] == have + ms;
    } else {
      AtParts(t, end, [COMMA], rest + [CLOSE_BRACE]);
      assert have + [ms[0]] + ms[1..] == have + ms;
      MembersRead(ms[1..], depth, t, end + 1, have + [ms[0]]);
    }
  }

  lemma KeyReads(key: seq<Byte>, t: seq<Byte>, pos: nat, rest: seq<Byte>)
    requires WriteString(key).Some? && At(t, pos, WriteString(key).value + ([COLON] + rest)) && rest != [] && !IsSpace(rest[0])
    ensures var q := pos + |WriteString(key).value|;
            && pos < |t| && t[pos] == QUOTE && SkipWs(t, pos) == pos && ParseChars(t, pos + 1) == Ok(key, q)
            && q < |t| && t[q] == COLON && SkipWs(t, q) == q && SkipWs(t, q + 1) == q + 1 && At(t, q + 1, rest)
  {
    hide ParseChars, WriteString, At, SkipWs;
    AtParts(t, pos, WriteString(key).value, [COLON] + rest);
    StringReads(key, t, pos, 0);
    SpaceNone(t, pos);
    var q := pos + |WriteString(key).value|;
    AtParts(t, q, [COLON], rest);
    AtFirst(t, q, [COLON]);
    SpaceNone(t, q);
    AtFirst(t, q + 1, rest);
    SpaceNone(t, q + 1);
  }

  // The key, the colon and the value of one member stand where the reader looks for them.
  lemma {:induction false} MemberReads(m: Member, depth: nat, t: seq<Byte>, pos: nat, tail: seq<Byte>)
    requires WriteMember(m, depth).Some? && WellFormed(m.value) && tail != [] && tail[0] in {COMMA as Byte, CLOSE_BRACE as Byte}
    requires At(t, pos, WriteString(m.key).value + ([COLON] + (Write(m.value, depth).value + tail)))
    ensures var key, value := WriteString(m.key).value, Write(m.value, depth).value;
            var q := pos + |key|;
            && pos < |t| && t[pos] == QUOTE && SkipWs(t, pos) == pos
            && ParseChars(t, pos + 1) == Ok(m.key, q)
            && q < |t| && t[q] == COLON && SkipWs(t, q) == q && SkipWs(t, q + 1) == q + 1
            && ParseValue(t, q + 1, depth) == Ok(m.value, q + 1 + |value|)
            && At(t, q + 1 + |value|, tail) && q + 1 + |value| < |t| && t[q + 1 + |value|] == tail[0]
    decreases m, 0
  {
    hide ParseChars, ParseValue, Write, WriteString, WellFormed, At, SkipWs;
    var value := Write(m.value, depth).value;
    WriteStarts(m.value, depth);
    KeyReads(m.key, t, pos, value + tail);
    hide IsSpace;
    var p := pos + |WriteString(m.key).value| + 1;
    AtParts(t, p, value, tail);
    AtFirst(t, p + |value|, tail);
    ValueReads(m.value, depth, t, p);
  }

  // Main result: reading what was written gives the value that was written.
  lemma WriteThenRead(v: Value)
    requires WellFormed(v) && Serialize(v).Some? && |Serialize(v).value| <= MAX_BODY_BYTES
    ensures Parse(Serialize(v).value) == Good(v)
  {
    var t := Serialize(v).value;
    WriteStarts(v, 0);
    assert t[0..|t|] == t;
    SpaceNone(t, 0);
    ValueReads(v, 0, t, 0);
    SpaceNone(t, |t|);
  }
}
