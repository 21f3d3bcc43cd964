/**
 What the reader accepts, the writer writes again, no longer than it was.
 */
module JsonCanonical {
  import opened Wrappers
  import opened Json
  import U = Utf8
  import T = JsonRoundTrip

  // ---------------------------------------------------------------- strings

  // One character as the writer takes it: valid alone, and written within this many bytes.
  predicate Char(ch: seq<Byte>, room: nat) {
    ch != [] && U.Length(ch, 0) == |ch| && |WriteChars(ch)| <= room
  }

  lemma ShortChar(b: Byte, room: nat)
    requires b < 0x80 && |Escape(b)| <= room
    ensures Char([b], room)
  {
    assert WriteChars([b]) == Escape(b) + WriteChars([]);
  }

  lemma EncodedChar(cp: nat, room: nat)
    requires U.IsScalar(cp) && 6 <= room
    ensures Char(U.Encode(cp), room)
  {
    var ch := U.Encode(cp);
    assert ch[0..|ch|] == ch;
    U.EncodeThenDecode(cp, ch, 0);
    if |ch| == 1 {
      ShortChar(ch[0], room);
      assert ch == [ch[0]];
    } else {
      T.LongCharIsHigh(ch, |ch|);
      T.HighBytesStay(ch);
    }
  }

  lemma EscapedChar(t: seq<Byte>, pos: nat)
    requires pos <= |t| && ParseEscape(t, pos).Ok?
    ensures Char(ParseEscape(t, pos).value, ParseEscape(t, pos).end - pos + 1)
  {
    var e := ParseEscape(t, pos);
    if SimpleEscape(t[pos]).Some? {
      ShortChar(SimpleEscape(t[pos]).value, 2);
    } else {
      var high := Hex4(t, pos + 1).value;
      if 0xD800 <= high <= 0xDBFF {
        var low := Hex4(t, pos + 7).value;
        EncodedChar(0x10000 + 0x400 * (high - 0xD800) + (low - 0xDC00), 12);
      } else {
        EncodedChar(high, 6);
      }
    }
  }

  lemma PlainChar(t: seq<Byte>, pos: nat)
    requires pos < |t| && t[pos] != QUOTE && t[pos] != BACKSLASH && t[pos] >= 0x20 && U.Length(t, pos) > 0
    ensures Char(t[pos..pos + U.Length(t, pos)], U.Length(t, pos))
  {
    var n := U.Length(t, pos);
    var ch := t[pos..pos + n];
    assert ch[0..n] == ch;
    U.LengthLocal(t, pos, ch, 0);
    if n == 1 {
      ShortChar(t[pos], 1);
      assert ch == [t[pos]];
    } else {
      T.LongCharIsHigh(ch, n);
      T.HighBytesStay(ch);
    }
  }

  lemma {:induction false} ReadStringIsWritable(t: seq<Byte>, pos: nat)
    requires pos <= |t| && ParseChars(t, pos).Ok?
    ensures U.Valid(ParseChars(t, pos).value)
    ensures |WriteChars(ParseChars(t, pos).value)| + 1 <= ParseChars(t, pos).end - pos
    decreases |t| - pos
  {
    hide WriteChars, U.Valid, U.Length, ParseEscape;
    if t[pos] == QUOTE {
      NothingWritten();
    } else if t[pos] == BACKSLASH {
      var e := ParseEscape(t, pos + 1);
      EscapedChar(t, pos + 1);
      ReadStringIsWritable(t, e.end);
      CharThenRest(e.value, ParseChars(t, e.end).value);
    } else {
      var n := U.Length(t, pos);
      PlainChar(t, pos);
      ReadStringIsWritable(t, pos + n);
      CharThenRest(t[pos..pos + n], ParseChars(t, pos + n).value);
    }
  }

  lemma NothingWritten()
    ensures U.Valid([]) && WriteChars([]) == []
  {
  }

  lemma CharThenRest(ch: seq<Byte>, rest: seq<Byte>)
    requires ch != [] && U.Length(ch, 0) == |ch| && U.Valid(rest)
    ensures U.Valid(ch + rest) && |WriteChars(ch + rest)| == |WriteChars(ch)| + |WriteChars(rest)|
  {
    U.CharThenValid(ch, rest);
    T.WriteCharsParts(ch, rest);
  }

  // ---------------------------------------------------------------- numbers

  // Digits without a leading zero are the writer's own.
  lemma {:induction false} DigitsAreCanonical(ds: seq<Byte>)
    requires AllDigits(ds) && ds != [] && (ds[0] == 48 ==> |ds| == 1)
    ensures Digits(NatOf(ds)) == ds
    ensures ds[0] != 48 ==> NatOf(ds) > 0
  {
    var n := |ds| - 1;
    if n == 0 {
      assert ds[..0] == [];
      assert ds == [ds[0]];
    } else {
      DigitsAreCanonical(ds[..n]);
      assert NatOf(ds) / 10 == NatOf(ds[..n]) && NatOf(ds) % 10 == ds[n] - 48;
      assert ds == ds[..n] + [ds[n]];
    }
  }

  lemma ReadNumberIsWritable(t: seq<Byte>, pos: nat)
    requires pos < |t| && ParseNumber(t, pos).Ok? && ParseNumber(t, pos).value.Integer?
    ensures var r := ParseNumber(t, pos);
            WellFormed(r.value) && |WriteInteger(r.value.n)| <= r.end - pos
  {
    var negative := t[pos] == MINUS;
    var p := if negative then pos + 1 else pos;
    var e := DigitsEnd(t, p);
    var ds := t[p..e];
    DigitsAreCanonical(ds);
  }

  // ---------------------------------------------------------------- values

  // The value is well formed, and written within this many bytes.
  predicate Writable(v: Value, depth: nat, room: int) {
    WellFormed(v) && Write(v, depth).Some? && |Write(v, depth).value| <= room
  }

  predicate ItemsWritable(items: seq<Value>, depth: nat, room: int) {
    (forall i | 0 <= i < |items| :: WellFormed(items[i]))
    && WriteItems(items, depth).Some? && |WriteItems(items, depth).value| <= room
  }

  predicate MembersWritable(ms: seq<Member>, depth: nat, room: int) {
    (forall i | 0 <= i < |ms| :: WellFormed(ms[i].value))
    && WriteMembers(ms, depth).Some? && |WriteMembers(ms, depth).value| <= room
  }

  lemma {:induction false} ReadIsWritable(t: seq<Byte>, pos: nat, depth: nat)
    requires pos <= |t| && ParseValue(t, pos, depth).Ok? && NoOtherNumber(ParseValue(t, pos, depth).value)
    ensures Writable(ParseValue(t, pos, depth).value, depth, ParseValue(t, pos, depth).end - pos)
    decreases |t| - pos, 2
  {
    if t[pos] == OPEN_BRACE {
      ReadObjectIsWritable(t, pos, depth);
    } else if t[pos] == OPEN_BRACKET {
      ReadArrayIsWritable(t, pos, depth);
    } else if t[pos] == QUOTE {
      ReadStringIsWritable(t, pos + 1);
    } else if t[pos] !in {116 as Byte, 102 as Byte, 110 as Byte} {
      ReadNumberIsWritable(t, pos);
    }
  }

  lemma {:induction false} ReadArrayIsWritable(t: seq<Byte>, pos: nat, depth: nat)
    requires pos < |t| && ParseArray(t, pos, depth + 1).Ok? && NoOtherNumber(ParseArray(t, pos, depth + 1).value)
    ensures Writable(ParseArray(t, pos, depth + 1).value, depth, ParseArray(t, pos, depth + 1).end - pos)
    decreases |t| - pos, 1
  {
    hide ParseItems;
    var p := SkipWs(t, pos + 1);
    if p < |t| && t[p] == CLOSE_BRACKET {
      EmptyIsWritable(depth);
    } else {
      ReadItemsAreWritable(t, p, depth + 1, []);
      var r := ParseItems(t, p, depth + 1, []);
      assert r.value.items[0..] == r.value.items;
      ArrayOf(r.value.items, depth, r.end - p - 1);
    }
  }

  lemma EmptyIsWritable(depth: nat)
    requires depth + 1 <= MAX_DEPTH
    ensures Writable(Arr([]), depth, 2) && Writable(Obj([]), depth, 2)
  {
  }

  lemma ArrayOf(items: seq<Value>, depth: nat, room: int)
    requires depth + 1 <= MAX_DEPTH && ItemsWritable(items, depth + 1, room)
    ensures Writable(Arr(items), depth, room + 2)
  {
  }

  lemma ObjectOf(ms: seq<Member>, depth: nat, room: int)
    requires depth + 1 <= MAX_DEPTH && MembersWritable(ms, depth + 1, room) && DistinctKeys(ms)
    ensures Writable(Obj(ms), depth, room + 2)
  {
  }

  lemma ItemsCons(v: Value, rest: seq<Value>, depth: nat, a: int, b: int)
    requires Writable(v, depth, a) && ItemsWritable(rest, depth, b) && 0 <= b
    ensures ItemsWritable([v] + rest, depth, if rest == [] then a else a + 1 + b)
  {
    assert ([v] + rest)[1..] == rest;
  }

  lemma MembersCons(m: Member, rest: seq<Member>, depth: nat, a: int, b: int)
    requires WriteMember(m, depth).Some? && |WriteMember(m, depth).value| <= a && WellFormed(m.value)
    requires MembersWritable(rest, depth, b) && 0 <= b
    ensures MembersWritable([m] + rest, depth, if rest == [] then a else a + 1 + b)
  {
    assert ([m] + rest)[1..] == rest;
  }

  // The items read after those already there.
  lemma {:induction false} ReadItemsAreWritable(t: seq<Byte>, pos: nat, depth: nat, have: seq<Value>)
    requires pos <= |t| && ParseItems(t, pos, depth, have).Ok? && NoOtherNumber(ParseItems(t, pos, depth, have).value)
    ensures var r := ParseItems(t, pos, depth, have);
            && r.value.Arr? && |have| <= |r.value.items| && r.value.items[..|have|] == have
            && ItemsWritable(r.value.items[|have|..], depth, r.end - pos - 1)
    decreases |t| - pos, 3
  {
    hide WellFormed, Write, WriteItems, ParseValue, SkipWs;
    var p := SkipWs(t, pos);
    var item := ParseValue(t, p, depth);
    var all := have + [item.value];
    var end := SkipWs(t, item.end);
    var r := ParseItems(t, pos, depth, have);
    if t[end] == COMMA {
      ReadItemsAreWritable(t, end + 1, depth, all);
      assert r.value.items[|have|] == item.value by { assert r.value.items[..|all|][|have|] == all[|have|]; }
      assert NoOtherNumber(r.value.items[|have|]);
      var rest := r.value.items[|all|..];
      assert r.value.items[|have|..] == [item.value] + rest;
      assert r.value.items[..|have|] == have;
      ReadIsWritable(t, p, depth);
      ItemsCons(item.value, rest, depth, item.end - p, r.end - (end + 1) - 1);
      ItemsRoom([item.value] + rest, depth, if rest == [] then item.end - p else item.end - p + 1 + (r.end - end - 2), r.end - pos - 1);
    } else {
      assert r.value.items == all;
      assert r.value.items[|have|] == item.value && NoOtherNumber(r.value.items[|have|]);
      ReadIsWritable(t, p, depth);
      assert all[|have|..] == [item.value] + [];
      NoItems(depth);
      ItemsCons(item.value, [], depth, item.end - p, 0);
      ItemsRoom([item.value] + [], depth, item.end - p, r.end - pos - 1);
    }
  }

  lemma NoItems(depth: nat)
    ensures ItemsWritable([], depth, 0) && MembersWritable([], depth, 0)
  {
  }

  lemma ItemsRoom(items: seq<Value>, depth: nat, a: int, b: int)
    requires ItemsWritable(items, depth, a) && a <= b
    ensures ItemsWritable(items, depth, b)
  {
  }

  lemma MembersRoom(ms: seq<Member>, depth: nat, a: int, b: int)
    requires MembersWritable(ms, depth, a) && a <= b
    ensures MembersWritable(ms, depth, b)
  {
  }

  lemma {:induction false} ReadObjectIsWritable(t: seq<Byte>, pos: nat, depth: nat)
    requires pos < |t| && ParseObject(t, pos, depth + 1).Ok? && NoOtherNumber(ParseObject(t, pos, depth + 1).value)
    ensures Writable(ParseObject(t, pos, depth + 1).value, depth, ParseObject(t, pos, depth + 1).end - pos)
    decreases |t| - pos, 1
  {
    hide ParseMembers;
    var p := SkipWs(t, pos + 1);
    if p < |t| && t[p] == CLOSE_BRACE {
      EmptyIsWritable(depth);
    } else {
      ReadMembersAreWritable(t, p, depth + 1, []);
      var r := ParseMembers(t, p, depth + 1, []);
      assert r.value.members[0..] == r.value.members;
      ObjectOf(r.value.members, depth, r.end - p - 1);
    }
  }

  lemma {:induction false} ReadMembersAreWritable(t: seq<Byte>, pos: nat, depth: nat, have: seq<Member>)
    requires pos <= |t| && ParseMembers(t, pos, depth, have).Ok? && NoOtherNumber(ParseMembers(t, pos, depth, have).value)
    requires DistinctKeys(have)
    ensures var r := ParseMembers(t, pos, depth, have);
            && r.value.Obj? && |have| <= |r.value.members| && r.value.members[..|have|] == have
            && DistinctKeys(r.value.members)
            && MembersWritable(r.value.members[|have|..], depth, r.end - pos - 1)
    decreases |t| - pos, 0
  {
    hide WellFormed, Write, WriteMembers, WriteString, ParseChars, ParseValue, SkipWs, HasKey, DistinctKeys, WriteMember;
    var p := SkipWs(t, pos);
    var key := ParseChars(t, p + 1);
    var q := SkipWs(t, key.end);
    var at := SkipWs(t, q + 1);
    var item := ParseValue(t, at, depth);
    var m := Member(key.value, item.value);
    var all := have + [m];
    var end := SkipWs(t, item.end);
    var r := ParseMembers(t, pos, depth, have);
    NewKey(have, m);
    if t[end] == COMMA {
      ReadMembersAreWritable(t, end + 1, depth, all);
      assert r.value.members[|have|] == m by { assert r.value.members[..|all|][|have|] == all[|have|]; }
      assert NoOtherNumber(r.value.members[|have|].value);
      var rest := r.value.members[|all|..];
      assert r.value.members[|have|..] == [m] + rest;
      assert r.value.members[..|have|] == have;
      ReadIsWritable(t, at, depth);
      MemberRoom(t, p, at, depth, m, item.end);
      MembersCons(m, rest, depth, item.end - p, r.end - (end + 1) - 1);
      MembersRoom([m] + rest, depth, if rest == [] then item.end - p else item.end - p + 1 + (r.end - end - 2), r.end - pos - 1);
    } else {
      assert r.value.members == all;
      assert r.value.members[|have|] == m && NoOtherNumber(r.value.members[|have|].value);
      ReadIsWritable(t, at, depth);
      MemberRoom(t, p, at, depth, m, item.end);
      assert all[|have|..] == [m] + [];
      NoItems(depth);
      MembersCons(m, [], depth, item.end - p, 0);
      MembersRoom([m] + [], depth, item.end - p, r.end - pos - 1);
    }
  }

  lemma NewKey(have: seq<Member>, m: Member)
    requires DistinctKeys(have) && !HasKey(have, m.key)
    ensures DistinctKeys(have + [m])
  {
    forall i | 0 <= i < |have|
      ensures have[i].key != m.key
    {
    }
  }

  lemma MemberRoom(t: seq<Byte>, p: nat, at: nat, depth: nat, m: Member, end: nat)
    requires p + 1 <= |t| && ParseChars(t, p + 1).Ok? && ParseChars(t, p + 1).value == m.key
    requires ParseChars(t, p + 1).end < at && Writable(m.value, depth, end - at)
    ensures WriteMember(m, depth).Some? && |WriteMember(m, depth).value| <= end - p
  {
    ReadStringIsWritable(t, p + 1);
    hide ParseChars, Write, WriteChars, U.Valid;
  }

  // Main result: a text that is read, without a number that is not an integer of 64 bits, is written
  // again no longer than it was, and what is written is read as the same value.
  lemma ReadThenWrite(t: seq<Byte>)
    requires Parse(t).Good? && NoOtherNumber(Parse(t).value)
    ensures Serialize(Parse(t).value).Some?
    ensures |Serialize(Parse(t).value).value| <= |t|
    ensures Parse(Serialize(Parse(t).value).value) == Parse(t)
  {
    hide ParseValue, Write, WellFormed;
    var p := SkipWs(t, 0);
    ReadIsWritable(t, p, 0);
    T.WriteThenRead(Parse(t).value);
  }
}
