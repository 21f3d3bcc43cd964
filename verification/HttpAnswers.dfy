/**
 What each side makes of a head, said of the lines it is made of: which responses the client takes and
 which requests the server takes, and for each refusal the texts it is given to.  Nothing here speaks of
 how a head is scanned.
 */
module HttpAnswers {
  import opened Wrappers
  import opened Http
  import HttpRoundTrip

  // ---------------------------------------------------------------- lines of a head

  ghost predicate Unbroken(lines: seq<string>) {
    forall i, k: nat | 0 <= i < |lines| :: !At(lines[i], k, CrLf())
  }

  predicate Clean(line: string) {
    '\r' !in line && '\n' !in line
  }

  // The lines are what stands between the line ends of the text.
  ghost predicate LinesOf(text: string, lines: seq<string>) {
    lines != [] && Join(lines) == text && Unbroken(lines)
  }

  // The blank line that ends the head is at end, no earlier, and within the limit.
  ghost predicate HeadEndsAt(t: string, end: nat) {
    && At(t, end, HeadMark()) && end + 4 <= MAX_HEADER
    && forall k: nat | k < end :: !At(t, k, HeadMark())
  }

  ghost predicate NoHead(t: string) {
    forall k: nat | k + 4 <= MAX_HEADER :: !At(t, k, HeadMark())
  }

  // ---------------------------------------------------------------- header lines

  ghost predicate Field(line: string, name: string, value: string) {
    line == name + ":" + value && ':' !in name
  }

  predicate SameLetter(c: char, small: char) {
    c == small || ('A' <= c <= 'Z' && small as int == c as int + 32)
  }

  predicate Called(name: string, word: string) {
    |name| == |word| && forall i | 0 <= i < |name| :: SameLetter(name[i], word[i])
  }

  ghost predicate Says(line: string, word: string, value: string) {
    exists name :: Field(line, name, value) && Called(name, word)
  }

  ghost predicate Named(line: string, word: string) {
    exists value :: Says(line, word, value)
  }

  // The server takes an empty name, the client does not.
  ghost predicate ServerLine(line: string) {
    exists name, value :: Field(line, name, value) && ' ' !in name && '\t' !in name
  }

  ghost predicate ClientLine(line: string) {
    exists name, value :: Field(line, name, value) && name != [] && ' ' !in name && '\t' !in name
  }

  // The one line that says the word, and what it says.
  ghost predicate OnlySays(lines: seq<string>, word: string, value: string) {
    exists k :: 1 <= k < |lines| && Says(lines[k], word, value) && forall i | 1 <= i < |lines| && i != k :: !Named(lines[i], word)
  }

  ghost predicate NoneSays(lines: seq<string>, word: string) {
    forall i | 1 <= i < |lines| :: !Named(lines[i], word)
  }

  ghost predicate TwoSay(lines: seq<string>, word: string) {
    exists i, j :: 1 <= i < j < |lines| && Named(lines[i], word) && Named(lines[j], word)
  }

  // One space may stand before the digits.
  ghost predicate Spells(value: string, n: nat) {
    exists digits :: (value == digits || value == " " + digits) && digits != [] && AllDigits(digits) && NatOf(digits) == n
  }

  ghost predicate Status(line: string) {
    exists a, b, c, rest :: IsStatus(line, a, b, c, rest)
  }

  predicate IsStatus(line: string, a: char, b: char, c: char, rest: string) {
    line == "HTTP/1.1 " + [a, b, c] + rest && IsDigit(a) && IsDigit(b) && IsDigit(c) && (rest == [] || rest[0] == ' ')
  }

  // ---------------------------------------------------------------- what the client is to say

  ghost predicate CleanLines(lines: seq<string>) {
    forall i | 0 <= i < |lines| :: Clean(lines[i])
  }

  ghost predicate ClientLines(lines: seq<string>) {
    forall i | 1 <= i < |lines| :: ClientLine(lines[i])
  }

  ghost predicate WellFormed(lines: seq<string>)
    requires lines != []
  {
    CleanLines(lines) && Status(lines[0]) && ClientLines(lines)
  }

  // The head announces a body of n bytes.
  ghost predicate Announces(lines: seq<string>, n: nat)
    requires lines != []
  {
    && WellFormed(lines) && NoneSays(lines, "transfer-encoding")
    && exists value :: OnlySays(lines, "content-length", value) && Spells(value, n)
  }

  // ---------------------------------------------------------------- lines: proofs

  lemma CharAt(t: string, k: nat, c: char)
    ensures At(t, k, [c]) <==> k < |t| && t[k] == c
  {
    if k < |t| {
      assert t[k..k + 1] == [t[k]];
    }
  }

  lemma BreakMeans(t: string, k: nat)
    ensures At(t, k, CrLf()) <==> k + 1 < |t| && t[k] == '\r' && t[k + 1] == '\n'
  {
    if k + 1 < |t| {
      assert t[k..k + 2] == [t[k], t[k + 1]];
    }
  }

  lemma NoBreakInside(line: string, rest: string, k: nat)
    requires forall j: nat :: !At(line, j, CrLf())
    requires k < |line|
    ensures !At(line + CrLf() + rest, k, CrLf())
  {
    var t := line + CrLf() + rest;
    BreakMeans(t, k);
    BreakMeans(line, k);
    assert !At(line, k, CrLf());
    assert if k + 1 < |line| then t[k + 1] == line[k + 1] else t[k + 1] == '\r';
  }

  lemma {:induction false} SplitIs(text: string, lines: seq<string>)
    requires LinesOf(text, lines)
    ensures SplitLines(text) == lines
    decreases |lines|
  {
    var line := lines[0];
    assert forall k: nat :: !At(line, k, CrLf());
    if |lines| == 1 {
    } else {
      var rest := Join(lines[1..]);
      assert text == line + CrLf() + rest;
      assert text[|line|..|line| + 2] == CrLf();
      forall k: nat | k < |line|
        ensures !At(text, k, CrLf())
      {
        NoBreakInside(line, rest, k);
      }
      IndexIs(text, CrLf(), 0, |line|);
      SplitIs(rest, lines[1..]);
      assert text[..|line|] == line && text[|line| + 2..] == rest;
    }
  }

  // Every text has its lines.
  lemma {:induction false} SplitMeans(text: string)
    ensures LinesOf(text, SplitLines(text))
    decreases |text|
  {
    var i := Index(text, CrLf(), 0);
    if i.Some? {
      var head, tail := text[..i.value], text[i.value + 2..];
      SplitMeans(tail);
      var lines := SplitLines(text);
      assert lines[1..] == SplitLines(tail);
      assert text == head + CrLf() + tail;
      forall j, k: nat | 0 <= j < |lines|
        ensures !At(lines[j], k, CrLf())
      {
        if j == 0 {
          BreakMeans(head, k);
          BreakMeans(text, k);
          assert k < i.value ==> !At(text, k, CrLf());
        } else {
          assert lines[j] == lines[1..][j - 1];
        }
      }
    }
  }

  lemma PairedStep(line: string, rest: string)
    requires forall j: nat :: !At(line, j, CrLf())
    ensures EndsPaired(line + CrLf() + rest) <==> Clean(line) && EndsPaired(rest)
  {
    var t := line + CrLf() + rest;
    if EndsPaired(t) {
      forall k | 0 <= k < |line|
        ensures line[k] != '\r' && line[k] != '\n'
      {
        assert PairedAt(t, k) && t[k] == line[k];
        NoBreakInside(line, rest, k);
        BreakMeans(t, k);
        if k > 0 {
          NoBreakInside(line, rest, k - 1);
          BreakMeans(t, k - 1);
        }
      }
      forall j | 0 <= j < |rest|
        ensures PairedAt(rest, j)
      {
        RestAt(line, rest, j);
      }
    }
    if Clean(line) && EndsPaired(rest) {
      forall i | 0 <= i < |t|
        ensures PairedAt(t, i)
      {
        if i < |line| {
          assert t[i] == line[i] && line[i] in line;
        } else if i >= |line| + 2 {
          RestAt(line, rest, i - |line| - 2);
        }
      }
    }
  }

  lemma RestAt(line: string, rest: string, j: nat)
    requires j < |rest|
    ensures PairedAt(line + CrLf() + rest, |line| + 2 + j) <==> PairedAt(rest, j)
  {
    var t := line + CrLf() + rest;
    var i := |line| + 2 + j;
    assert t[i] == rest[j] && t[|line| + 1] == '\n';
    assert j + 1 < |rest| ==> t[i + 1] == rest[j + 1];
    assert j > 0 ==> t[i - 1] == rest[j - 1];
  }

  lemma PairedAlone(line: string)
    requires forall j: nat :: !At(line, j, CrLf())
    ensures EndsPaired(line) <==> Clean(line)
  {
    if EndsPaired(line) {
      forall k | 0 <= k < |line|
        ensures line[k] != '\r' && line[k] != '\n'
      {
        assert PairedAt(line, k);
        assert !At(line, k, CrLf());
        BreakMeans(line, k);
        if k > 0 {
          assert !At(line, k - 1, CrLf());
          BreakMeans(line, k - 1);
        }
      }
    }
  }

  // Line ends come in pairs exactly when no line has half of one in it.
  lemma {:induction false} PairedMeansClean(text: string, lines: seq<string>)
    requires LinesOf(text, lines)
    ensures EndsPaired(text) <==> CleanLines(lines)
    decreases |lines|
  {
    hide EndsPaired, Clean, PairedAt;
    var line := lines[0];
    assert forall k: nat :: !At(line, k, CrLf());
    if |lines| == 1 {
      PairedAlone(line);
    } else {
      var tail := lines[1..];
      PairedStep(line, Join(tail));
      PairedMeansClean(Join(tail), tail);
      if CleanLines(tail) && Clean(line) {
        forall i | 0 <= i < |lines|
          ensures Clean(lines[i])
        {
          assert i > 0 ==> lines[i] == tail[i - 1];
        }
      }
      if CleanLines(lines) {
        assert forall i | 0 <= i < |tail| :: tail[i] == lines[i + 1];
      }
    }
  }

  // ---------------------------------------------------------------- header lines: proofs

  lemma FieldReads(line: string, name: string, value: string)
    requires Field(line, name, value)
    ensures Colon(line) == Some(|name|) && line[..|name|] == name && line[|name| + 1..] == value
  {
    assert line[|name|..|name| + 1] == ":";
    forall k: nat | k < |name|
      ensures !At(line, k, ":")
    {
      assert line[k] == name[k] && name[k] in name;
      assert line[k..k + 1][0] == line[k];
    }
    IndexIs(line, ":", 0, |name|);
  }

  lemma ColonReads(line: string)
    ensures var c := Colon(line);
            if c.Some? then c.value < |line| && Field(line, line[..c.value], line[c.value + 1..])
            else forall name, value :: !Field(line, name, value)
  {
    var c := Colon(line);
    if c.Some? {
      var name := line[..c.value];
      assert line[c.value..c.value + 1] == ":";
      forall k | 0 <= k < |name|
        ensures name[k] != ':'
      {
        assert !At(line, k, ":");
        CharAt(line, k, ':');
      }
      assert line == name + ":" + line[c.value + 1..];
    } else {
      forall name, value
        ensures !Field(line, name, value)
      {
        assert !At(line, |name|, ":");
        CharAt(line, |name|, ':');
        assert (name + ":" + value)[|name|] == ':';
      }
    }
  }

  lemma CalledMeans(name: string, word: string)
    requires forall c | c in word :: !('A' <= c <= 'Z')
    ensures Called(name, word) <==> Lower(name) == word
  {
    if Called(name, word) {
      forall i | 0 <= i < |name|
        ensures Lower(name)[i] == word[i]
      {
        assert SameLetter(name[i], word[i]);
        assert word[i] in word;
      }
      assert Lower(name) == word;
    }
    if Lower(name) == word {
      forall i | 0 <= i < |name|
        ensures SameLetter(name[i], word[i])
      {
        assert Lower(name)[i] == word[i];
      }
    }
  }

  predicate Small(word: string) {
    forall c | c in word :: !('A' <= c <= 'Z')
  }

  lemma SaysMeans(line: string, word: string, value: string)
    requires Small(word)
    ensures Says(line, word, value)
            <==> (Colon(line).Some? && Lower(line[..Colon(line).value]) == word && value == line[Colon(line).value + 1..])
  {
    hide Lower, Called, Colon, Field;
    ColonReads(line);
    var c := Colon(line);
    if Says(line, word, value) {
      var name :| Field(line, name, value) && Called(name, word);
      FieldReads(line, name, value);
      CalledMeans(name, word);
    }
    if c.Some? {
      CalledMeans(line[..c.value], word);
    }
  }

  lemma NamedMeans(line: string, word: string)
    requires Small(word)
    ensures Named(line, word) <==> Colon(line).Some? && Lower(line[..Colon(line).value]) == word
  {
    hide Says, Lower, Colon;
    if Named(line, word) {
      var value :| Says(line, word, value);
      SaysMeans(line, word, value);
    }
    var c := Colon(line);
    ColonReads(line);
    if c.Some? && Lower(line[..c.value]) == word {
      SaysMeans(line, word, line[c.value + 1..]);
    }
  }

  lemma ClientLineMeans(line: string)
    ensures ClientLine(line) <==>
            !(line == [] || line[0] == ' ' || line[0] == '\t' || Colon(line).None? || Colon(line).value == 0
              || HasBlank(line[..Colon(line).value]))
  {
    ColonReads(line);
    hide Colon;
    var c := Colon(line);
    if ClientLine(line) {
      var name, value :| Field(line, name, value) && name != [] && ' ' !in name && '\t' !in name;
      FieldReads(line, name, value);
      assert line[0] == name[0] && name[0] in name;
    }
    if c.Some? && c.value > 0 && !HasBlank(line[..c.value]) {
      assert Field(line, line[..c.value], line[c.value + 1..]);
    }
  }

  lemma ServerLineMeans(line: string)
    ensures ServerLine(line) <==>
            !((line != [] && (line[0] == ' ' || line[0] == '\t')) || Colon(line).None? || HasBlank(line[..Colon(line).value]))
  {
    ColonReads(line);
    hide Colon;
    var c := Colon(line);
    if ServerLine(line) {
      var name, value :| Field(line, name, value) && ' ' !in name && '\t' !in name;
      FieldReads(line, name, value);
      assert name != [] ==> line[0] == name[0] && name[0] in name;
    }
    if c.Some? && !HasBlank(line[..c.value]) {
      assert Field(line, line[..c.value], line[c.value + 1..]);
      assert c.value == 0 ==> line[0] == ':';
      assert c.value > 0 ==> line[0] == line[..c.value][0] && line[0] in line[..c.value];
    }
  }

  // ---------------------------------------------------------------- the client's header lines

  lemma {:induction false} BrokenMeans(lines: seq<string>, g: Gathered)
    requires g.Gathered?
    ensures Gather(lines, g).Broken? <==> exists i :: 0 <= i < |lines| && !ClientLine(lines[i])
    decreases |lines|
  {
    if lines != [] {
      var line, tail := lines[0], lines[1..];
      ClientLineMeans(line);
      if ClientLine(line) {
        var c := Colon(line).value;
        var next := Noted(g, Lower(line[..c]), line[c + 1..]);
        assert Gather(lines, g) == Gather(tail, next);
        BrokenMeans(tail, next);
        hide Gather, ClientLine, Noted;
        if i :| 0 <= i < |tail| && !ClientLine(tail[i]) {
          assert lines[i + 1] == tail[i];
        }
        if i :| 0 <= i < |lines| && !ClientLine(lines[i]) {
          assert tail[i - 1] == lines[i];
        }
      }
    }
  }

  // How many lines say the word.
  ghost function HowMany(lines: seq<string>, word: string): nat {
    if lines == [] then 0 else (if Named(lines[0], word) then 1 else 0) + HowMany(lines[1..], word)
  }

  lemma {:induction false} HowManyMeans(lines: seq<string>, word: string)
    ensures HowMany(lines, word) == 0 <==> forall i | 0 <= i < |lines| :: !Named(lines[i], word)
    ensures HowMany(lines, word) >= 2 <==> exists i, j :: 0 <= i < j < |lines| && Named(lines[i], word) && Named(lines[j], word)
  {
    hide Named;
    if lines != [] {
      var tail := lines[1..];
      HowManyMeans(tail, word);
      assert forall i | 0 <= i < |tail| :: tail[i] == lines[i + 1];
      if HowMany(tail, word) == 0 {
        assert forall i | 1 <= i < |lines| :: lines[i] == tail[i - 1];
      } else {
        var k :| 0 <= k < |tail| && Named(tail[k], word);
        assert Named(lines[k + 1], word);
      }
      if i, j :| 0 <= i < j < |lines| && Named(lines[i], word) && Named(lines[j], word) {
        assert Named(tail[j - 1], word);
        assert i > 0 ==> Named(tail[i - 1], word);
      }
      if i, j :| 0 <= i < j < |tail| && Named(tail[i], word) && Named(tail[j], word) {
        assert Named(lines[i + 1], word) && Named(lines[j + 1], word);
      }
    }
  }

  ghost predicate Kept(lines: seq<string>, g: Gathered, r: Gathered)
    requires g.Gathered? && r.Gathered?
  {
    && r.count == g.count + HowMany(lines, "content-length")
    && (r.transfer <==> g.transfer || HowMany(lines, "transfer-encoding") > 0)
    && (HowMany(lines, "content-length") == 0 ==> r.raw == g.raw)
    && (HowMany(lines, "content-length") > 0 ==> exists k :: 0 <= k < |lines| && Says(lines[k], "content-length", r.raw))
  }

  lemma SmallWords()
    ensures Small("content-length") && Small("transfer-encoding") && "content-length" != "transfer-encoding"
    ensures TableHeader("content-length") && TableHeader("transfer-encoding")
  {
    assert |"content-length"| == 14 && |"transfer-encoding"| == 17;
  }

  lemma TableIsSmall(word: string)
    requires TableHeader(word)
    ensures Small(word)
  {
  }

  lemma OneKept(line: string, tail: seq<string>, g: Gathered, next: Gathered, r: Gathered)
    requires g.Gathered? && next.Gathered? && r.Gathered? && Kept(tail, next, r)
    requires Colon(line).Some? && next == Noted(g, Lower(line[..Colon(line).value]), line[Colon(line).value + 1..])
    ensures Kept([line] + tail, g, r)
  {
    SmallWords();
    hide Lower, Colon, Small;
    ColonReads(line);
    var raw := line[Colon(line).value + 1..];
    NamedMeans(line, "content-length");
    NamedMeans(line, "transfer-encoding");
    SaysMeans(line, "content-length", raw);
    var lines := [line] + tail;
    assert lines[0] == line && lines[1..] == tail;
    hide Named, Says;
    if HowMany(tail, "content-length") > 0 {
      var k :| 0 <= k < |tail| && Says(tail[k], "content-length", r.raw);
      assert lines[k + 1] == tail[k];
    } else if Named(line, "content-length") {
      assert Says(lines[0], "content-length", r.raw);
    }
  }

  lemma {:induction false} GatherKeeps(lines: seq<string>, g: Gathered)
    requires g.Gathered? && Gather(lines, g).Gathered?
    ensures Kept(lines, g, Gather(lines, g))
    decreases |lines|
  {
    if lines != [] {
      var line, tail := lines[0], lines[1..];
      var c := Colon(line).value;
      var next := Noted(g, Lower(line[..c]), line[c + 1..]);
      assert Gather(lines, g) == Gather(tail, next);
      GatherKeeps(tail, next);
      hide Gather, Kept, Noted, HasBlank;
      OneKept(line, tail, g, next, Gather(tail, next));
      assert lines == [line] + tail;
    }
  }

  // ---------------------------------------------------------------- lengths and status lines

  lemma LengthMeans(value: string)
    ensures forall n: nat :: Spells(value, n) <==> (AllDigits(Trimmed(value)) && Trimmed(value) != [] && n == NatOf(Trimmed(value)))
  {
    forall n: nat
      ensures Spells(value, n) <==> (AllDigits(Trimmed(value)) && Trimmed(value) != [] && n == NatOf(Trimmed(value)))
    {
      var v := Trimmed(value);
      if Spells(value, n) {
        var digits :| (value == digits || value == " " + digits) && digits != [] && AllDigits(digits) && NatOf(digits) == n;
        assert IsDigit(digits[0]);
        if value == digits {
          assert v == digits;
        } else {
          assert value[0] == ' ' && value[1..] == digits;
        }
      }
      if AllDigits(v) && v != [] && n == NatOf(v) {
        assert value == v || value == " " + v;
      }
    }
  }

  lemma StatusMeans(line: string)
    ensures StatusOk(line) <==> Status(line)
  {
    if StatusOk(line) {
      var rest := line[12..];
      assert line[0..9] == "HTTP/1.1 ";
      assert line == "HTTP/1.1 " + [line[9], line[10], line[11]] + rest;
      assert IsStatus(line, line[9], line[10], line[11], rest);
    }
    if Status(line) {
      var a, b, c, rest :| IsStatus(line, a, b, c, rest);
      assert line[0..9] == "HTTP/1.1 ";
      assert line[9] == a && line[10] == b && line[11] == c;
      assert rest != [] ==> line[12] == rest[0];
    }
  }

  // ---------------------------------------------------------------- the client

  lemma HeadEndMeans(t: string, end: nat)
    requires HeadEndsAt(t, end)
    ensures HeadEnd(t) == Some(end) && end + 4 <= |t|
  {
    var window := if |t| <= MAX_HEADER then t else t[..MAX_HEADER];
    assert window[end..end + 4] == t[end..end + 4];
    forall k: nat | k < end
      ensures !At(window, k, HeadMark())
    {
      assert !At(t, k, HeadMark());
      assert window[k..k + 4] == t[k..k + 4];
    }
    IndexIs(window, HeadMark(), 0, end);
  }

  lemma NoHeadMeans(t: string)
    requires NoHead(t)
    ensures HeadEnd(t) == None
  {
    var window := if |t| <= MAX_HEADER then t else t[..MAX_HEADER];
    forall k: nat
      ensures !At(window, k, HeadMark())
    {
      assert k + 4 <= |window| ==> window[k..k + 4] == t[k..k + 4];
      assert k + 4 <= MAX_HEADER ==> !At(t, k, HeadMark());
    }
  }

  // Either there is a blank line in time or there is none.
  lemma HeadOrNone(t: string)
    ensures NoHead(t) <==> !exists end :: HeadEndsAt(t, end)
  {
    var window := if |t| <= MAX_HEADER then t else t[..MAX_HEADER];
    var r := HeadEnd(t);
    if r.Some? {
      assert t[r.value..r.value + 4] == window[r.value..r.value + 4];
      assert At(t, r.value, HeadMark());
      forall k: nat | k < r.value
        ensures !At(t, k, HeadMark())
      {
        assert !At(window, k, HeadMark());
        assert window[k..k + 4] == t[k..k + 4];
      }
      assert HeadEndsAt(t, r.value);
    } else {
      forall k: nat | k + 4 <= MAX_HEADER
        ensures !At(t, k, HeadMark())
      {
        assert !At(window, k, HeadMark());
        assert k + 4 <= |t| ==> window[k..k + 4] == t[k..k + 4];
      }
    }
  }

  ghost predicate HeadSays(lines: seq<string>, h: Head)
    requires lines != []
  {
    && (h == HeadBad(BadHeaderLine) <==> !CleanLines(lines) || (Status(lines[0]) && !ClientLines(lines)))
    && (h == HeadBad(BadStatusLine) <==> CleanLines(lines) && !Status(lines[0]))
    && (h == HeadBad(TransferEncoding) <==> WellFormed(lines) && !NoneSays(lines, "transfer-encoding"))
    && (h == HeadBad(MissingLength) <==> Plain(lines) && NoneSays(lines, "content-length"))
    && (h == HeadBad(DuplicateLength) <==> Plain(lines) && TwoSay(lines, "content-length"))
    && (h == HeadBad(BadContentLength) <==> Plain(lines) && exists value :: OnlySays(lines, "content-length", value) && NoNumber(value))
    && (h == HeadBad(BodyTooLarge) <==> exists n: nat :: Announces(lines, n) && n > MAX_BODY)
    && (forall n: nat :: h == HeadOk(n) <==> Announces(lines, n) && n <= MAX_BODY)
    && h != HeadBad(HeaderTooLarge)
  }

  ghost predicate Plain(lines: seq<string>)
    requires lines != []
  {
    WellFormed(lines) && NoneSays(lines, "transfer-encoding")
  }

  ghost predicate NoNumber(value: string) {
    forall n: nat :: !Spells(value, n)
  }

  lemma ShiftedLines(lines: seq<string>)
    requires lines != []
    ensures ClientLines(lines) <==> !exists i :: 0 <= i < |lines[1..]| && !ClientLine(lines[1..][i])
  {
    hide ClientLine;
    var tail := lines[1..];
    assert forall i | 0 <= i < |tail| :: tail[i] == lines[i + 1];
    assert forall i | 1 <= i < |lines| :: lines[i] == tail[i - 1];
  }

  lemma ShiftedWords(lines: seq<string>, word: string)
    requires lines != []
    ensures NoneSays(lines, word) <==> HowMany(lines[1..], word) == 0
    ensures TwoSay(lines, word) <==> HowMany(lines[1..], word) >= 2
  {
    hide Named, HowMany;
    var tail := lines[1..];
    HowManyMeans(tail, word);
    assert forall i | 0 <= i < |tail| :: tail[i] == lines[i + 1];
    assert forall i | 1 <= i < |lines| :: lines[i] == tail[i - 1];
    if TwoSay(lines, word) {
      var i, j :| 1 <= i < j < |lines| && Named(lines[i], word) && Named(lines[j], word);
      assert Named(tail[i - 1], word) && Named(tail[j - 1], word);
    }
    if i, j :| 0 <= i < j < |tail| && Named(tail[i], word) && Named(tail[j], word) {
      assert Named(lines[i + 1], word) && Named(lines[j + 1], word);
    }
  }

  lemma ShiftedOnly(lines: seq<string>, word: string, raw: string, k: nat)
    requires lines != [] && Small(word) && HowMany(lines[1..], word) == 1 && k < |lines[1..]| && Says(lines[1..][k], word, raw)
    ensures forall value :: OnlySays(lines, word, value) <==> value == raw
  {
    hide Small, HowMany;
    ShiftedWords(lines, word);
    assert lines[k + 1] == lines[1..][k];
    hide Says;
    assert Named(lines[k + 1], word);
    assert !TwoSay(lines, word);
    forall i | 1 <= i < |lines| && i != k + 1
      ensures !Named(lines[i], word)
    {
      if Named(lines[i], word) {
        assert false;
      }
    }
    OnlyOne(lines, word, raw, k + 1);
  }

  lemma OnlyOne(lines: seq<string>, word: string, raw: string, k: nat)
    requires Small(word) && 1 <= k < |lines| && Says(lines[k], word, raw) && Named(lines[k], word)
    requires forall i | 1 <= i < |lines| && i != k :: !Named(lines[i], word)
    ensures forall value :: OnlySays(lines, word, value) <==> value == raw
  {
    hide Small, Named, Says;
    forall value
      ensures OnlySays(lines, word, value) <==> value == raw
    {
      if OnlySays(lines, word, value) {
        var j :| 1 <= j < |lines| && Says(lines[j], word, value) && forall i | 1 <= i < |lines| && i != j :: !Named(lines[i], word);
        assert j == k;
        SaysMeans(lines[j], word, value);
        SaysMeans(lines[j], word, raw);
      }
    }
  }

  lemma NotOnly(lines: seq<string>, word: string)
    requires lines != [] && HowMany(lines[1..], word) != 1
    ensures forall value :: !OnlySays(lines, word, value)
  {
    hide HowMany, Says;
    ShiftedWords(lines, word);
    forall value
      ensures !OnlySays(lines, word, value)
    {
      assert forall i, j | 1 <= i < |lines| && 1 <= j < |lines| && Says(lines[j], word, value) && i != j && Named(lines[i], word)
          :: Named(lines[j], word);
    }
  }

  lemma ReadHeadIs(head: string, lines: seq<string>)
    requires LinesOf(head, lines)
    ensures !EndsPaired(head) ==> ReadHead(head) == HeadBad(BadHeaderLine)
    ensures EndsPaired(head) && !StatusOk(lines[0]) ==> ReadHead(head) == HeadBad(BadStatusLine)
    ensures EndsPaired(head) && StatusOk(lines[0]) ==> ReadHead(head) == Judged(Gather(lines[1..], Gathered(0, [], false)))
  {
    hide EndsPaired, StatusOk, Gather, ParseLength;
    SplitIs(head, lines);
  }

  function Judged(g: Gathered): Head {
    if g.Broken? then HeadBad(BadHeaderLine)
    else if g.transfer then HeadBad(TransferEncoding)
    else if g.count == 0 then HeadBad(MissingLength)
    else if g.count > 1 then HeadBad(DuplicateLength)
    else
      match ParseLength(g.raw)
      case BadLength => HeadBad(BadContentLength)
      case TooBig => HeadBad(BodyTooLarge)
      case Length(n) => HeadOk(n)
  }

  lemma OneLength(lines: seq<string>, g: Gathered)
    requires lines != [] && g.Gathered? && g.count == 1 && WellFormed(lines)
    requires g.transfer <==> !NoneSays(lines, "transfer-encoding")
    requires !NoneSays(lines, "content-length") && !TwoSay(lines, "content-length")
    requires forall value :: OnlySays(lines, "content-length", value) <==> value == g.raw
    requires forall n: nat :: Spells(g.raw, n) <==> (AllDigits(Trimmed(g.raw)) && Trimmed(g.raw) != [] && n == NatOf(Trimmed(g.raw)))
    ensures HeadSays(lines, Judged(g))
  {
    hide Trimmed, AllDigits, NatOf, Spells, OnlySays, TwoSay, NoneSays;
    var v := Trimmed(g.raw);
    if AllDigits(v) && v != [] {
      assert Spells(g.raw, NatOf(v));
      assert OnlySays(lines, "content-length", g.raw);
      assert Plain(lines) ==> Announces(lines, NatOf(v));
    } else {
      assert NoNumber(g.raw);
    }
  }

  lemma OtherCount(lines: seq<string>, g: Gathered)
    requires lines != [] && g.Gathered? && g.count != 1 && WellFormed(lines)
    requires g.transfer <==> !NoneSays(lines, "transfer-encoding")
    requires g.count == 0 <==> NoneSays(lines, "content-length")
    requires g.count >= 2 <==> TwoSay(lines, "content-length")
    requires forall value :: !OnlySays(lines, "content-length", value)
    ensures HeadSays(lines, Judged(g))
  {
    hide Spells, OnlySays, TwoSay, NoneSays, ParseLength;
  }

  lemma JudgedSays(lines: seq<string>, g: Gathered)
    requires lines != [] && CleanLines(lines) && Status(lines[0]) && g == Gather(lines[1..], Gathered(0, [], false))
    ensures HeadSays(lines, Judged(g))
  {
    var tail := lines[1..];
    var g0 := Gathered(0, [], false);
    SmallWords();
    BrokenMeans(tail, g0);
    ShiftedLines(lines);
    ShiftedWords(lines, "transfer-encoding");
    ShiftedWords(lines, "content-length");
    hide ParseLength;
    if g.Gathered? {
      GatherKeeps(tail, g0);
      hide Gather, HowMany, NoneSays, TwoSay, Small, Status, CleanLines, ClientLines, Says, OnlySays;
      if HowMany(tail, "content-length") == 1 {
        var k :| 0 <= k < |tail| && Says(tail[k], "content-length", g.raw);
        ShiftedOnly(lines, "content-length", g.raw, k);
        LengthMeans(g.raw);
        OneLength(lines, g);
      } else {
        NotOnly(lines, "content-length");
        OtherCount(lines, g);
      }
    } else {
      hide Gather, HowMany, NoneSays, TwoSay, Small, Status, CleanLines, Says, OnlySays;
    }
  }

  lemma ReadHeadSays(head: string, lines: seq<string>)
    requires LinesOf(head, lines)
    ensures HeadSays(lines, ReadHead(head))
  {
    hide EndsPaired, StatusOk, Status, CleanLines, ClientLines, ReadHead, Gather, Judged, HeadSays, Join, Unbroken;
    PairedMeansClean(head, lines);
    StatusMeans(lines[0]);
    ReadHeadIs(head, lines);
    if EndsPaired(head) && StatusOk(lines[0]) {
      JudgedSays(lines, Gather(lines[1..], Gathered(0, [], false)));
    } else {
      NotWellFormed(lines, ReadHead(head));
    }
  }

  lemma NotWellFormed(lines: seq<string>, h: Head)
    requires lines != [] && (!CleanLines(lines) || !Status(lines[0]))
    requires h == HeadBad(if !CleanLines(lines) then BadHeaderLine else BadStatusLine)
    ensures HeadSays(lines, h)
  {
    hide CleanLines, Status, ClientLines, NoneSays, TwoSay, OnlySays, Spells;
  }

  // Main result: what the client makes of a response with a head.  It takes exactly the responses whose lines
  // are clean and well formed under a status line, with no transfer-encoding and one content-length of at most
  // 4096; each refusal is given exactly where it is due.
  lemma ResponseMeans(t: string, end: nat, lines: seq<string>)
    requires HeadEndsAt(t, end) && LinesOf(t[..end], lines)
    ensures var f := FrameResponse(t);
            && (forall n: nat :: n <= MAX_BODY && Announces(lines, n)
                 <==> f == (if |t| >= end + 4 + n then Complete(end + 4, n) else NeedMore(end + 4, n, end + 4 + n - |t|)))
            && (f == Invalid(BadHeaderLine) <==> !CleanLines(lines) || (Status(lines[0]) && !ClientLines(lines)))
            && (f == Invalid(BadStatusLine) <==> CleanLines(lines) && !Status(lines[0]))
            && (f == Invalid(TransferEncoding) <==> WellFormed(lines) && !NoneSays(lines, "transfer-encoding"))
            && (f == Invalid(MissingLength) <==> Plain(lines) && NoneSays(lines, "content-length"))
            && (f == Invalid(DuplicateLength) <==> Plain(lines) && TwoSay(lines, "content-length"))
            && (f == Invalid(BadContentLength) <==> Plain(lines) && exists value :: OnlySays(lines, "content-length", value) && NoNumber(value))
            && (f == Invalid(BodyTooLarge) <==> exists n: nat :: Announces(lines, n) && n > MAX_BODY)
            && f != Invalid(HeaderTooLarge)
  {
    HeadEndMeans(t, end);
    ReadHeadSays(t[..end], lines);
    hide HeadEnd, ReadHead, Announces, WellFormed, Plain, CleanLines, Status, ClientLines, NoneSays, TwoSay, OnlySays, NoNumber;
    var f := FrameResponse(t);
    forall n: nat
      ensures n <= MAX_BODY && Announces(lines, n)
              <==> f == (if |t| >= end + 4 + n then Complete(end + 4, n) else NeedMore(end + 4, n, end + 4 + n - |t|))
    {
      assert ReadHead(t[..end]) == HeadOk(n) <==> Announces(lines, n) && n <= MAX_BODY;
    }
  }

  // And of one without.
  lemma HeadlessResponse(t: string)
    requires NoHead(t)
    ensures FrameResponse(t) == if |t| >= MAX_HEADER then Invalid(HeaderTooLarge) else NeedMore(0, 0, 0)
  {
    NoHeadMeans(t);
  }

  // ---------------------------------------------------------------- what the server is to say

  ghost predicate LineSays(line: string, verb: string, target: string) {
    line == verb + " " + target + " HTTP/1.1" && verb != [] && target != [] && Visible(verb) && Visible(target)
  }

  // A path of the plain form.
  predicate Origin(target: string) {
    target != [] && target[0] == '/' && target[|target| - 1] != '/' && '%' !in target
  }

  ghost predicate LineIsGood(line: string) {
    exists verb, target :: LineSays(line, verb, target) && Origin(target)
  }

  ghost predicate OtherMethod(line: string) {
    exists verb, target :: LineSays(line, verb, target) && Origin(target) && verb != "POST"
  }

  ghost predicate OtherPath(line: string) {
    exists target :: LineSays(line, "POST", target) && Origin(target) && forall op :: target != Path(op)
  }

  predicate Posts(line: string, op: Op) {
    line == "POST " + Path(op) + " HTTP/1.1"
  }

  ghost predicate LineVerdict(line: string, c: Checked) {
    && (forall op :: c == Fine(op) <==> Posts(line, op))
    && (c == Wrong(BadRequest) <==> !LineIsGood(line))
    && (c == Wrong(MethodNotAllowed) <==> OtherMethod(line))
    && (c == Wrong(UnknownOp) <==> OtherPath(line))
    && (c.Fine? || c == Wrong(BadRequest) || c == Wrong(MethodNotAllowed) || c == Wrong(UnknownOp))
  }

  ghost predicate ServerLines(lines: seq<string>) {
    forall i | 1 <= i < |lines| :: ServerLine(lines[i])
  }

  // No header of the table stands twice.
  ghost predicate TableOnce(lines: seq<string>) {
    forall word | TableHeader(word) :: !TwoSay(lines, word)
  }

  ghost predicate HeadersFine(lines: seq<string>) {
    ServerLines(lines) && TableOnce(lines) && NoneSays(lines, "transfer-encoding")
  }

  ghost predicate Asks(lines: seq<string>, op: Op, n: nat)
    requires lines != []
  {
    && Posts(lines[0], op) && HeadersFine(lines)
    && exists value :: OnlySays(lines, "content-length", value) && Spells(value, n)
  }

  ghost predicate IsPost(line: string) {
    exists op :: Posts(line, op)
  }

  // ---------------------------------------------------------------- the request line

  lemma RequestLineMeans(line: string, verb: string, target: string)
    ensures RequestLine(line) == Some((verb, target)) <==> LineSays(line, verb, target)
  {
    hide LineSays, RequestLine;
    if LineSays(line, verb, target) {
      LineIsRead(line, verb, target);
    }
    if RequestLine(line) == Some((verb, target)) {
      ReadIsLine(line, verb, target);
    }
  }

  lemma Rejoined(line: string, i: nat, j: nat)
    requires i < j < |line| && line[i] == ' ' && line[j] == ' ' && line[j + 1..] == "HTTP/1.1"
    ensures line == line[..i] + " " + line[i + 1..j] + " HTTP/1.1"
  {
    assert line[j..] == [line[j]] + line[j + 1..];
    assert line[j..] == " HTTP/1.1";
    assert line[..j] == line[..i] + [line[i]] + line[i + 1..j];
    assert line == line[..j] + line[j..];
  }

  lemma ReadIsLine(line: string, verb: string, target: string)
    requires RequestLine(line) == Some((verb, target))
    ensures LineSays(line, verb, target)
  {
    hide Visible;
    var i := Index(line, " ", 0).value;
    var j := Index(line, " ", i + 1).value;
    CharAt(line, i, ' ');
    CharAt(line, j, ' ');
    hide At;
    Rejoined(line, i, j);
  }

  lemma LineIsRead(line: string, verb: string, target: string)
    requires LineSays(line, verb, target)
    ensures RequestLine(line) == Some((verb, target))
  {
    var i := |verb|;
    var j := |verb| + 1 + |target|;
    assert ' ' !in verb && ' ' !in target;
    hide Visible, At;
    CharAt(line, i, ' ');
    CharAt(line, j, ' ');
    forall k: nat | k < j && k != i
      ensures !At(line, k, " ")
    {
      assert if k < i then line[k] == verb[k] else line[k] == target[k - i - 1];
      CharAt(line, k, ' ');
    }
    IndexIs(line, " ", 0, i);
    IndexIs(line, " ", i + 1, j);
    assert line[..i] == verb && line[i + 1..j] == target && line[j + 1..] == "HTTP/1.1";
  }

  lemma PathMeans(target: string, op: Op)
    ensures OpOfPath(target) == Some(op) <==> target == Path(op)
  {
    HttpRoundTrip.PathsRead(op);
    hide Path;
  }

  lemma PostsSays(line: string, op: Op)
    ensures Posts(line, op) <==> LineSays(line, "POST", Path(op))
    ensures Origin(Path(op))
  {
    HttpRoundTrip.PathsRead(op);
    hide Path;
    assert "POST" + " " + Path(op) + " HTTP/1.1" == "POST " + Path(op) + " HTTP/1.1";
  }

  lemma LineVerdictIs(line: string)
    ensures LineVerdict(line, CheckRequestLine(line))
  {
    forall verb, target
      ensures RequestLine(line) == Some((verb, target)) <==> LineSays(line, verb, target)
    {
      RequestLineMeans(line, verb, target);
    }
    forall op
      ensures Posts(line, op) <==> LineSays(line, "POST", Path(op))
      ensures Origin(Path(op))
    {
      PostsSays(line, op);
    }
    forall target, op
      ensures OpOfPath(target) == Some(op) <==> target == Path(op)
    {
      PathMeans(target, op);
    }
    hide RequestLine, LineSays, Path, OpOfPath, Posts;
    var parts := RequestLine(line);
    if parts.Some? {
      var (verb, target) := parts.value;
      assert LineSays(line, verb, target);
      JudgeLine(line, verb, target);
    }
  }

  lemma JudgeLine(line: string, verb: string, target: string)
    requires RequestLine(line) == Some((verb, target)) && LineSays(line, verb, target) && target != []
    requires forall v, t :: LineSays(line, v, t) ==> v == verb && t == target
    requires forall op :: Posts(line, op) <==> LineSays(line, "POST", Path(op))
    requires forall op :: Origin(Path(op))
    requires forall op :: OpOfPath(target) == Some(op) <==> target == Path(op)
    ensures LineVerdict(line, CheckRequestLine(line))
  {
    hide RequestLine, LineSays, Path, OpOfPath, Posts;
  }

  // ---------------------------------------------------------------- the server's header lines

  ghost predicate Room(lines: seq<string>, seen: map<string, string>) {
    forall word | TableHeader(word) :: HowMany(lines, word) + (if word in seen then 1 else 0) <= 1
  }

  ghost predicate Held(lines: seq<string>, seen: map<string, string>, all: map<string, string>) {
    && (forall word | TableHeader(word) :: word in all <==> word in seen || HowMany(lines, word) > 0)
    && (forall word | TableHeader(word) && word in seen && word in all :: all[word] == seen[word])
    && (forall word | TableHeader(word) && word !in seen && word in all :: Somewhere(lines, word, all[word]))
  }

  ghost predicate Somewhere(lines: seq<string>, word: string, value: string) {
    exists k :: 0 <= k < |lines| && Says(lines[k], word, value)
  }

  ghost predicate AllServer(lines: seq<string>) {
    forall i | 0 <= i < |lines| :: ServerLine(lines[i])
  }

  lemma HowManySteps(lines: seq<string>, name: string)
    requires lines != [] && Colon(lines[0]).Some? && name == Lower(lines[0][..Colon(lines[0]).value])
    ensures forall word | TableHeader(word) :: HowMany(lines, word) == HowMany(lines[1..], word) + (if word == name then 1 else 0)
  {
    forall word | TableHeader(word)
      ensures HowMany(lines, word) == HowMany(lines[1..], word) + (if word == name then 1 else 0)
    {
      TableIsSmall(word);
      hide TableHeader, Lower, Colon, Named;
      NamedMeans(lines[0], word);
    }
  }

  lemma SomewhereSteps(lines: seq<string>, word: string, value: string)
    requires lines != [] && Somewhere(lines[1..], word, value)
    ensures Somewhere(lines, word, value)
  {
    hide Says;
    var k :| 0 <= k < |lines[1..]| && Says(lines[1..][k], word, value);
    assert lines[k + 1] == lines[1..][k];
  }

  lemma HeldSteps(lines: seq<string>, seen: map<string, string>, name: string, raw: string, all: map<string, string>)
    requires lines != [] && TableHeader(name) && name !in seen && Says(lines[0], name, raw)
    requires Held(lines[1..], seen[name := raw], all)
    requires forall word | TableHeader(word) :: HowMany(lines, word) == HowMany(lines[1..], word) + (if word == name then 1 else 0)
    ensures Held(lines, seen, all)
  {
    hide Says, HowMany, TableHeader;
    var next := seen[name := raw];
    forall word | TableHeader(word) && word !in seen && word in all
      ensures Somewhere(lines, word, all[word])
    {
      if word == name {
        assert all[word] == next[word];
        assert Says(lines[0], word, all[word]);
      } else {
        assert word !in next;
        SomewhereSteps(lines, word, all[word]);
      }
    }
    forall word | TableHeader(word) && word in seen && word in all
      ensures all[word] == seen[word]
    {
      assert next[word] == seen[word];
    }
  }

  lemma HeldSkips(lines: seq<string>, seen: map<string, string>, all: map<string, string>)
    requires lines != [] && Held(lines[1..], seen, all)
    requires forall word | TableHeader(word) :: HowMany(lines, word) == HowMany(lines[1..], word)
    ensures Held(lines, seen, all)
  {
    hide Somewhere, HowMany, TableHeader;
    forall word | TableHeader(word) && word !in seen && word in all
      ensures Somewhere(lines, word, all[word])
    {
      SomewhereSteps(lines, word, all[word]);
    }
  }

  lemma AllServerSteps(lines: seq<string>)
    requires lines != []
    ensures AllServer(lines) <==> ServerLine(lines[0]) && AllServer(lines[1..])
  {
    hide ServerLine;
    var tail := lines[1..];
    assert forall i | 0 <= i < |tail| :: tail[i] == lines[i + 1];
    assert forall i | 1 <= i < |lines| :: lines[i] == tail[i - 1];
  }

  lemma RoomSteps(lines: seq<string>, seen: map<string, string>, name: string, raw: string)
    requires lines != [] && TableHeader(name)
    requires forall word | TableHeader(word) :: HowMany(lines, word) == HowMany(lines[1..], word) + (if word == name then 1 else 0)
    ensures name in seen ==> !Room(lines, seen)
    ensures name !in seen ==> (Room(lines, seen) <==> Room(lines[1..], seen[name := raw]))
  {
    hide HowMany, TableHeader;
  }

  ghost predicate Gathers(lines: seq<string>, seen: map<string, string>, r: Option<map<string, string>>) {
    && (r.Some? <==> AllServer(lines) && Room(lines, seen))
    && (r.Some? ==> Held(lines, seen, r.value))
  }

  lemma NoLines(seen: map<string, string>)
    ensures Gathers([], seen, ServerHeaders([], seen))
  {
  }

  lemma {:induction false} ServerGathers(lines: seq<string>, seen: map<string, string>)
    ensures Gathers(lines, seen, ServerHeaders(lines, seen))
    decreases |lines|
  {
    hide Held, Room, AllServer, HowMany, TableHeader, ServerLine, Lower, Says;
    if lines == [] {
      NoLines(seen);
    } else {
      var line, tail := lines[0], lines[1..];
      ServerLineMeans(line);
      AllServerSteps(lines);
      if ServerLine(line) {
        ColonReads(line);
        var c := Colon(line).value;
        var name, raw := Lower(line[..c]), line[c + 1..];
        HowManySteps(lines, name);
        if !TableHeader(name) {
          ServerGathers(tail, seen);
          SkipRoom(lines, seen, name);
          if ServerHeaders(tail, seen).Some? {
            HeldSkips(lines, seen, ServerHeaders(tail, seen).value);
          }
        } else {
          RoomSteps(lines, seen, name, raw);
          if name !in seen {
            ServerGathers(tail, seen[name := raw]);
            if ServerHeaders(tail, seen[name := raw]).Some? {
              TableIsSmall(name);
              SaysMeans(line, name, raw);
              HeldSteps(lines, seen, name, raw, ServerHeaders(tail, seen[name := raw]).value);
            }
          }
        }
      }
    }
  }

  lemma SkipRoom(lines: seq<string>, seen: map<string, string>, name: string)
    requires lines != [] && !TableHeader(name)
    requires forall word | TableHeader(word) :: HowMany(lines, word) == HowMany(lines[1..], word) + (if word == name then 1 else 0)
    ensures Room(lines, seen) <==> Room(lines[1..], seen)
    ensures forall word | TableHeader(word) :: HowMany(lines, word) == HowMany(lines[1..], word)
  {
    hide HowMany, TableHeader;
  }

  // ---------------------------------------------------------------- the server

  ghost predicate RequestSays(lines: seq<string>, t: string, end: nat, r: Request)
    requires lines != []
  {
    && (forall op, n: nat | n <= MAX_BODY && Asks(lines, op, n) ::
          r == (if |t| >= end + 4 + n then Request(op, t[end + 4..end + 4 + n]) else Unfinished))
    && (r.Request? || r.Unfinished? ==> exists op, n: nat :: n <= MAX_BODY && Asks(lines, op, n))
    && (r == Refused(MethodNotAllowed) <==> OtherMethod(lines[0]))
    && (r == Refused(UnknownOp) <==> OtherPath(lines[0]))
    && (r == Refused(LengthRequired) <==> IsPost(lines[0]) && HeadersFine(lines) && NoneSays(lines, "content-length"))
    && (r == Refused(BodyOver) <==> exists op, n: nat :: Asks(lines, op, n) && n > MAX_BODY)
    && (r == Refused(BadRequest) <==>
        || !LineIsGood(lines[0])
        || (IsPost(lines[0]) && (!HeadersFine(lines) || exists value :: OnlySays(lines, "content-length", value) && NoNumber(value))))
    && r != Refused(HeaderOver)
  }

  // What is left to say once the request line is good.
  function Replied(op: Op, headers: Option<map<string, string>>, t: string, end: nat): Request {
    if headers.None? || "transfer-encoding" in headers.value then Refused(BadRequest)
    else if "content-length" !in headers.value then Refused(LengthRequired)
    else
      match ParseLength(headers.value["content-length"])
      case BadLength => Refused(BadRequest)
      case TooBig => Refused(BodyOver)
      case Length(n) => if |t| < end + 4 + n then Unfinished else Request(op, t[end + 4..end + 4 + n])
  }

  lemma ReadRequestIs(t: string, end: nat, lines: seq<string>)
    requires HeadEndsAt(t, end) && LinesOf(t[..end], lines)
    ensures var c := CheckRequestLine(lines[0]);
            ReadRequest(t) == if c.Wrong? then Refused(c.error) else Replied(c.op, ServerHeaders(lines[1..], map[]), t, end)
  {
    hide CheckRequestLine, ServerHeaders, ParseLength, HeadEnd;
    HeadEndMeans(t, end);
    SplitIs(t[..end], lines);
  }

  lemma RoomMeansOnce(lines: seq<string>)
    requires lines != []
    ensures TableOnce(lines) <==> Room(lines[1..], map[])
    ensures ServerLines(lines) <==> AllServer(lines[1..])
  {
    hide TwoSay, HowMany, TableHeader, ServerLine;
    forall word | TableHeader(word)
      ensures TwoSay(lines, word) <==> HowMany(lines[1..], word) >= 2
    {
      ShiftedWords(lines, word);
    }
    var tail := lines[1..];
    assert forall i | 0 <= i < |tail| :: tail[i] == lines[i + 1];
    assert forall i | 1 <= i < |lines| :: lines[i] == tail[i - 1];
  }

  // The facts about the headers that were gathered, said of the lines.
  lemma HeadersMean(lines: seq<string>, headers: Option<map<string, string>>)
    requires lines != [] && headers == ServerHeaders(lines[1..], map[])
    ensures headers.Some? <==> ServerLines(lines) && TableOnce(lines)
    ensures headers.Some? ==> ("transfer-encoding" in headers.value <==> !NoneSays(lines, "transfer-encoding"))
    ensures headers.Some? ==> ("content-length" in headers.value <==> !NoneSays(lines, "content-length"))
    ensures headers.Some? && "content-length" in headers.value ==>
              forall value :: OnlySays(lines, "content-length", value) <==> value == headers.value["content-length"]
    ensures NoneSays(lines, "content-length") ==> forall value :: !OnlySays(lines, "content-length", value)
  {
    SmallWords();
    hide ServerHeaders, TableHeader, NoneSays, TableOnce, ServerLines, AllServer, OnlySays, HowMany, Says, Small;
    ServerGathers(lines[1..], map[]);
    RoomMeansOnce(lines);
    ShiftedWords(lines, "transfer-encoding");
    ShiftedWords(lines, "content-length");
    if headers.Some? && "content-length" in headers.value {
      var value := headers.value["content-length"];
      assert Somewhere(lines[1..], "content-length", value);
      var k :| 0 <= k < |lines[1..]| && Says(lines[1..][k], "content-length", value);
      ShiftedOnly(lines, "content-length", value, k);
    }
    if NoneSays(lines, "content-length") {
      NotOnly(lines, "content-length");
    }
  }

  lemma WrongLine(lines: seq<string>, t: string, end: nat, c: Checked)
    requires lines != [] && LineVerdict(lines[0], c) && c.Wrong?
    ensures RequestSays(lines, t, end, Refused(c.error))
  {
    hide HeadersFine, OnlySays, NoneSays, Spells, NoNumber, LineIsGood, OtherMethod, OtherPath, Posts;
    assert forall op :: Posts(lines[0], op) ==> c == Fine(op);
    forall op, n
      ensures !Asks(lines, op, n)
    {
    }
  }

  lemma RightLine(lines: seq<string>, t: string, end: nat, op: Op)
    requires lines != [] && LineVerdict(lines[0], Fine(op))
    ensures RequestSays(lines, t, end, Replied(op, ServerHeaders(lines[1..], map[]), t, end))
  {
    hide ServerHeaders, LineIsGood, OtherMethod, OtherPath, Posts, ServerLines, TableOnce, NoneSays, OnlySays, Spells, ParseLength;
    var headers := ServerHeaders(lines[1..], map[]);
    HeadersMean(lines, headers);
    assert Posts(lines[0], op) && forall o :: Posts(lines[0], o) ==> o == op by {
      forall o | Posts(lines[0], o)
        ensures o == op
      {
        assert Fine(op) == Fine(o);
      }
    }
    if headers.Some? && "content-length" in headers.value && NoneSays(lines, "transfer-encoding") {
      LengthMeans(headers.value["content-length"]);
      RightLength(lines, t, end, op, headers.value);
    } else {
      NoLength(lines, t, end, op, headers);
    }
  }

  lemma NoLength(lines: seq<string>, t: string, end: nat, op: Op, headers: Option<map<string, string>>)
    requires lines != [] && LineVerdict(lines[0], Fine(op)) && Posts(lines[0], op)
    requires headers.Some? <==> ServerLines(lines) && TableOnce(lines)
    requires headers.Some? ==> ("transfer-encoding" in headers.value <==> !NoneSays(lines, "transfer-encoding"))
    requires headers.Some? ==> ("content-length" in headers.value <==> !NoneSays(lines, "content-length"))
    requires headers.Some? && NoneSays(lines, "transfer-encoding") ==> "content-length" !in headers.value
    requires NoneSays(lines, "content-length") ==> forall value :: !OnlySays(lines, "content-length", value)
    ensures RequestSays(lines, t, end, Replied(op, headers, t, end))
  {
    hide LineIsGood, OtherMethod, OtherPath, Posts, ServerLines, TableOnce, NoneSays, OnlySays, Spells, ParseLength, NoNumber;
    forall o, n
      ensures !Asks(lines, o, n)
    {
    }
  }

  lemma RightLength(lines: seq<string>, t: string, end: nat, op: Op, headers: map<string, string>)
    requires lines != [] && LineVerdict(lines[0], Fine(op)) && Posts(lines[0], op)
    requires forall o :: Posts(lines[0], o) ==> o == op
    requires HeadersFine(lines) && "transfer-encoding" !in headers && "content-length" in headers
    requires !NoneSays(lines, "content-length")
    requires forall value :: OnlySays(lines, "content-length", value) <==> value == headers["content-length"]
    requires var v := Trimmed(headers["content-length"]);
             forall n: nat :: Spells(headers["content-length"], n) <==> (AllDigits(v) && v != [] && n == NatOf(v))
    ensures RequestSays(lines, t, end, Replied(op, Some(headers), t, end))
  {
    hide LineIsGood, OtherMethod, OtherPath, Posts, HeadersFine, NoneSays, OnlySays, Spells, Trimmed, AllDigits, NatOf;
    var raw := headers["content-length"];
    var v := Trimmed(raw);
    assert OnlySays(lines, "content-length", raw);
    if AllDigits(v) && v != [] {
      assert Spells(raw, NatOf(v));
      assert Asks(lines, op, NatOf(v));
      forall o, n: nat
        ensures Asks(lines, o, n) ==> o == op && n == NatOf(v)
      {
      }
      assert !NoNumber(raw);
    } else {
      assert NoNumber(raw);
      forall o, n: nat
        ensures !Asks(lines, o, n)
      {
      }
    }
  }

  // Main result: what the server makes of a request with a head.  It takes exactly a POST of one of the five
  // paths whose header lines are well formed, name no header of the table twice, have no transfer-encoding and
  // one content-length of at most 4096, with the body that follows; each refusal is given exactly where it is due.
  lemma RequestMeans(t: string, end: nat, lines: seq<string>)
    requires HeadEndsAt(t, end) && LinesOf(t[..end], lines)
    ensures RequestSays(lines, t, end, ReadRequest(t))
  {
    ReadRequestIs(t, end, lines);
    LineVerdictIs(lines[0]);
    hide HeadEndsAt, LinesOf, LineVerdict, ReadRequest, CheckRequestLine, RequestSays, Replied, ServerHeaders;
    var c := CheckRequestLine(lines[0]);
    if c.Wrong? {
      WrongLine(lines, t, end, c);
    } else {
      RightLine(lines, t, end, c.op);
    }
  }

  // And of one without: only the request line, if it is there whole, can earn another refusal than the size.
  lemma HeadlessRequest(t: string, lines: seq<string>)
    requires NoHead(t) && LinesOf(if |t| <= MAX_HEADER then t else t[..MAX_HEADER], lines)
    ensures |t| < MAX_HEADER ==> ReadRequest(t) == Unfinished
    ensures |t| >= MAX_HEADER ==>
              var r := ReadRequest(t);
              && (r == Refused(HeaderOver) <==> |lines| == 1 || IsPost(lines[0]))
              && (r == Refused(BadRequest) <==> |lines| > 1 && !LineIsGood(lines[0]))
              && (r == Refused(MethodNotAllowed) <==> |lines| > 1 && OtherMethod(lines[0]))
              && (r == Refused(UnknownOp) <==> |lines| > 1 && OtherPath(lines[0]))
  {
    NoHeadMeans(t);
    var window := if |t| <= MAX_HEADER then t else t[..MAX_HEADER];
    SplitIs(window, lines);
    LineVerdictIs(lines[0]);
    hide CheckRequestLine, LineIsGood, OtherMethod, OtherPath, Posts, HeadEnd, NoHead, Join, Unbroken, ServerHeaders;
    var c := CheckRequestLine(lines[0]);
    if IsPost(lines[0]) {
      var op :| Posts(lines[0], op);
      assert c == Fine(op);
    }
    if c.Fine? {
      assert Posts(lines[0], c.op);
    }
  }
}
