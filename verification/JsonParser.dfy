/**
 The reader as the object of client/src/control/json.cpp: a position that moves over the text, loops
 over members and items, and one error; each method proved against the function of Json.
 */
module JsonParser {
  import opened Wrappers
  import opened Json
  import U = Utf8

  class Parser {
    const text: seq<Byte>
    var pos: nat
    var error: ParseError

    constructor (t: seq<Byte>)
      ensures text == t && pos == 0
    {
      text, pos, error := t, 0, Syntax;
    }

    // What a method tells its caller is what the function says: the value and the end, or the error.
    ghost predicate Agrees<T>(r: Result<T>, ok: bool, value: T)
      reads `pos, `error
    {
      match r
      case Ok(v, end) => ok && value == v && pos == end
      case Bad(e) => !ok && error == e
    }

    method SkipSpace()
      requires pos <= |text|
      modifies `pos
      ensures pos == SkipWs(text, old(pos))
    {
      while pos < |text| && IsSpace(text[pos])
        invariant pos <= |text| && SkipWs(text, pos) == SkipWs(text, old(pos))
      {
        pos := pos + 1;
      }
    }

    method SkipDigits()
      requires pos <= |text|
      modifies `pos
      ensures pos == DigitsEnd(text, old(pos))
    {
      while pos < |text| && IsDigit(text[pos])
        invariant pos <= |text| && DigitsEnd(text, pos) == DigitsEnd(text, old(pos))
      {
        pos := pos + 1;
      }
    }

    method ReadEscape() returns (ok: bool, out: seq<Byte>)
      requires pos <= |text|
      modifies this
      ensures Agrees(ParseEscape(text, old(pos)), ok, out)
    {
      out := [];
      var e := ParseEscape(text, pos);
      match e {
        case Ok(b, end) =>
          pos := end;
          return true, b;
        case Bad(why) =>
          error := why;
          return false, [];
      }
    }

    // From after the opening quote.
    method ReadString() returns (ok: bool, out: seq<Byte>)
      requires pos <= |text|
      modifies this
      ensures Agrees(ParseChars(text, old(pos)), ok, out)
    {
      hide ParseEscape, U.Length;
      out := [];
      ghost var start := pos;
      assert ParseChars(text, pos).Ok? ==> [] + ParseChars(text, pos).value == ParseChars(text, pos).value;
      while true
        invariant pos <= |text|
        invariant Prepend(out, ParseChars(text, pos)) == ParseChars(text, start)
        decreases |text| - pos
      {
        if pos == |text| {
          error := Syntax;
          return false, out;
        }
        if text[pos] == QUOTE {
          pos := pos + 1;
          assert out + [] == out;
          return true, out;
        }
        ghost var here := pos;
        if text[pos] == BACKSLASH {
          pos := pos + 1;
          var escaped, b := ReadEscape();
          if !escaped {
            return false, out;
          }
          PrependTwice(out, b, ParseChars(text, pos));
          out := out + b;
        } else {
          if text[pos] < 0x20 {
            error := ControlCharacter;
            return false, out;
          }
          var n := U.Length(text, pos);
          if n == 0 {
            error := BadUtf8;
            return false, out;
          }
          PrependTwice(out, text[pos..pos + n], ParseChars(text, pos + n));
          out := out + text[pos..pos + n];
          pos := pos + n;
        }
      }
    }

    method ReadNumber() returns (ok: bool, out: Value)
      requires pos < |text|
      modifies this
      ensures Agrees(ParseNumber(text, old(pos)), ok, out)
    {
      out := Null;
      var negative := text[pos] == MINUS;
      if negative {
        pos := pos + 1;
      }
      var p := pos;
      SkipDigits();
      var e := pos;
      if e == p || (text[p] == 48 && e > p + 1) {
        error := Syntax;
        return false, out;
      }
      var limit := if negative then INT64_MAX + 1 else INT64_MAX;
      var fits, magnitude := Magnitude(text[p..e], limit);
      var f := AfterFraction(text, e);
      if f.None? {
        error := Syntax;
        return false, out;
      }
      var g := AfterExponent(text, f.value);
      if g.None? {
        error := Syntax;
        return false, out;
      }
      pos := g.value;
      if pos != e || !fits {
        return true, OtherNumber;
      }
      return true, Integer(if negative then -(magnitude as int) else magnitude);
    }

    method ReadValue(depth: nat) returns (ok: bool, out: Value)
      requires pos <= |text|
      modifies this
      ensures Agrees(ParseValue(text, old(pos), depth), ok, out)
      decreases |text| - pos, 2
    {
      hide ParseChars, ParseNumber, ParseObject, ParseArray;
      out := Null;
      if pos == |text| {
        error := Syntax;
        return false, out;
      }
      if text[pos] == OPEN_BRACE {
        ok, out := ReadObject(depth + 1);
      } else if text[pos] == OPEN_BRACKET {
        ok, out := ReadArray(depth + 1);
      } else if text[pos] == QUOTE {
        pos := pos + 1;
        var s;
        ok, s := ReadString();
        out := Str(s);
      } else if text[pos] == 116 {
        ok, out := ReadWord(TrueWord(), Bool(true));
      } else if text[pos] == 102 {
        ok, out := ReadWord(FalseWord(), Bool(false));
      } else if text[pos] == 110 {
        ok, out := ReadWord(NullWord(), Null);
      } else {
        ok, out := ReadNumber();
      }
    }

    method ReadWord(word: seq<Byte>, v: Value) returns (ok: bool, out: Value)
      requires pos <= |text|
      modifies this
      ensures Agrees(Word(text, old(pos), word, v), ok, out)
    {
      out := v;
      if pos + |word| > |text| || text[pos..pos + |word|] != word {
        error := Syntax;
        return false, out;
      }
      pos := pos + |word|;
      return true, out;
    }

    method ReadObject(depth: nat) returns (ok: bool, out: Value)
      requires pos < |text|
      modifies this
      ensures Agrees(ParseObject(text, old(pos), depth), ok, out)
      decreases |text| - pos, 1
    {
      hide ParseMembers;
      out := Null;
      if depth > MAX_DEPTH {
        error := TooDeep;
        return false, out;
      }
      ghost var start := pos;
      pos := pos + 1;
      SkipSpace();
      if pos < |text| && text[pos] == CLOSE_BRACE {
        pos := pos + 1;
        return true, Obj([]);
      }
      hide SkipWs;
      var have: seq<Member> := [];
      while true
        invariant start < pos <= |text|
        invariant ParseMembers(text, pos, depth, have) == ParseObject(text, start, depth)
        decreases |text| - pos
      {
        var read, m := ReadMember(depth, have);
        if !read {
          return false, out;
        }
        have := have + [m];
        if pos < |text| && text[pos] == CLOSE_BRACE {
          pos := pos + 1;
          return true, Obj(have);
        }
        if pos == |text| || text[pos] != COMMA {
          error := Syntax;
          return false, out;
        }
        pos := pos + 1;
      }
    }

    // One member, up to the comma or the brace behind it.
    method ReadMember(depth: nat, have: seq<Member>) returns (ok: bool, m: Member)
      requires pos <= |text|
      modifies this
      ensures !ok ==> ParseMembers(text, old(pos), depth, have) == Bad(error)
      ensures ok ==> old(pos) < pos <= |text|
                     && ParseMembers(text, old(pos), depth, have) == AfterMember(text, pos, depth, have + [m])
      decreases |text| - pos, 3
    {
      hide ParseChars, ParseValue, SkipWs, HasKey;
      m := Member([], Null);
      SkipSpace();
      if pos == |text| || text[pos] != QUOTE {
        error := Syntax;
        return false, m;
      }
      pos := pos + 1;
      var keyed, key := ReadString();
      if !keyed {
        return false, m;
      }
      SkipSpace();
      if pos == |text| || text[pos] != COLON {
        error := Syntax;
        return false, m;
      }
      pos := pos + 1;
      SkipSpace();
      var read, item := ReadValue(depth);
      if !read {
        return false, m;
      }
      if HasKey(have, key) {
        error := DuplicateKey;
        return false, m;
      }
      m := Member(key, item);
      SkipSpace();
      return true, m;
    }

    method ReadArray(depth: nat) returns (ok: bool, out: Value)
      requires pos < |text|
      modifies this
      ensures Agrees(ParseArray(text, old(pos), depth), ok, out)
      decreases |text| - pos, 1
    {
      hide ParseItems;
      out := Null;
      if depth > MAX_DEPTH {
        error := TooDeep;
        return false, out;
      }
      ghost var start := pos;
      pos := pos + 1;
      SkipSpace();
      if pos < |text| && text[pos] == CLOSE_BRACKET {
        pos := pos + 1;
        return true, Arr([]);
      }
      hide SkipWs;
      var have: seq<Value> := [];
      while true
        invariant start < pos <= |text|
        invariant ParseItems(text, pos, depth, have) == ParseArray(text, start, depth)
        decreases |text| - pos
      {
        var read, item := ReadItem(depth, have);
        if !read {
          return false, out;
        }
        have := have + [item];
        if pos < |text| && text[pos] == CLOSE_BRACKET {
          pos := pos + 1;
          return true, Arr(have);
        }
        if pos == |text| || text[pos] != COMMA {
          error := Syntax;
          return false, out;
        }
        pos := pos + 1;
      }
    }

    // One item, up to the comma or the bracket behind it.
    method ReadItem(depth: nat, ghost have: seq<Value>) returns (ok: bool, item: Value)
      requires pos <= |text|
      modifies this
      ensures !ok ==> ParseItems(text, old(pos), depth, have) == Bad(error)
      ensures ok ==> old(pos) < pos <= |text|
                     && ParseItems(text, old(pos), depth, have) == AfterItem(text, pos, depth, have + [item])
      decreases |text| - pos, 3
    {
      hide ParseValue, SkipWs;
      SkipSpace();
      ok, item := ReadValue(depth);
      if ok {
        SkipSpace();
      }
    }
  }

  // What is left of an object once a member and the space behind it are read.
  function AfterMember(t: seq<Byte>, pos: nat, depth: nat, have: seq<Member>): Result<Value>
    requires pos <= |t|
  {
    if pos == |t| then Bad(Syntax)
    else if t[pos] == COMMA then ParseMembers(t, pos + 1, depth, have)
    else if t[pos] == CLOSE_BRACE then Ok(Obj(have), pos + 1)
    else Bad(Syntax)
  }

  function AfterItem(t: seq<Byte>, pos: nat, depth: nat, have: seq<Value>): Result<Value>
    requires pos <= |t|
  {
    if pos == |t| then Bad(Syntax)
    else if t[pos] == COMMA then ParseItems(t, pos + 1, depth, have)
    else if t[pos] == CLOSE_BRACKET then Ok(Arr(have), pos + 1)
    else Bad(Syntax)
  }

  lemma PrependTwice(a: seq<Byte>, b: seq<Byte>, r: Result<seq<Byte>>)
    ensures Prepend(a, Prepend(b, r)) == Prepend(a + b, r)
  {
    if r.Ok? {
      assert a + (b + r.value) == a + b + r.value;
    }
  }

  method ParseText(t: seq<Byte>) returns (result: Parsed)
    ensures result == Parse(t)
  {
    hide ParseValue;
    if |t| > MAX_BODY_BYTES {
      return Failed(TooLarge);
    }
    var parser := new Parser(t);
    parser.SkipSpace();
    var ok, value := parser.ReadValue(0);
    if !ok {
      return Failed(parser.error);
    }
    parser.SkipSpace();
    if parser.pos != |t| {
      return Failed(TrailingData);
    }
    return Good(value);
  }

  // The writer's loop over the bytes of a string.
  method WriteText(s: seq<Byte>) returns (out: Option<seq<Byte>>)
    ensures out == WriteString(s)
  {
    var valid := U.IsValid(s);
    if !valid {
      return None;
    }
    var text: seq<Byte> := [QUOTE];
    for i := 0 to |s|
      invariant text + WriteChars(s[i..]) == [QUOTE] + WriteChars(s)
    {
      assert s[i..][0] == s[i] && s[i..][1..] == s[i + 1..];
      assert text + (Escape(s[i]) + WriteChars(s[i + 1..])) == text + Escape(s[i]) + WriteChars(s[i + 1..]);
      text := text + Escape(s[i]);
    }
    assert text + [] == text;
    return Some(text + [QUOTE]);
  }
}
