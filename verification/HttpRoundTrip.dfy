/**
 Each side reads what the other builds: the server finds the operation and the body of a request, the
 client the body of a response.
 */
module HttpRoundTrip {
  import opened Wrappers
  import opened Http

  // ---------------------------------------------------------------- lines

  lemma StartsWith(t: string, i: nat, w: string)
    requires At(t, i, w) && w != []
    ensures i < |t| && t[i] == w[0]
  {
    assert t[i..i + |w|][0] == w[0];
  }

  lemma NoLineEnd(line: string)
    requires '\r' !in line
    ensures Index(line, CrLf(), 0) == None
  {
    var r := Index(line, CrLf(), 0);
    if r.Some? {
      StartsWith(line, r.value, CrLf());
      assert false;
    }
  }

  lemma FirstLineEnd(line: string, rest: string)
    requires '\r' !in line
    ensures Index(line + CrLf() + rest, CrLf(), 0) == Some(|line|)
  {
    var t := line + CrLf() + rest;
    assert t[|line|..|line| + 2] == CrLf();
    forall k | 0 <= k < |line|
      ensures !At(t, k, CrLf())
    {
      assert t[k] == line[k];
      if At(t, k, CrLf()) {
        StartsWith(t, k, CrLf());
      }
    }
    IndexIs(t, CrLf(), 0, |line|);
  }

  lemma {:induction false} JoinThenSplit(lines: seq<string>)
    requires lines != [] && AllLines(lines)
    ensures SplitLines(Join(lines)) == lines
  {
    assert IsLine(lines[0]);
    if |lines| == 1 {
      NoLineEnd(lines[0]);
    } else {
      var rest := Join(lines[1..]);
      JoinThenSplit(lines[1..]);
      FirstLineEnd(lines[0], rest);
      var t := lines[0] + CrLf() + rest;
      assert t[..|lines[0]|] == lines[0] && t[|lines[0]| + 2..] == rest;
    }
  }

  lemma {:induction false} JoinStarts(lines: seq<string>)
    requires lines != [] && AllLines(lines)
    ensures Join(lines) != [] && Join(lines)[0] == lines[0][0] && Join(lines)[0] != '\r'
  {
    assert IsLine(lines[0]);
    assert lines[0][0] in lines[0];
  }

  lemma SliceOfTail(a: string, b: string, j: nat)
    ensures At(a + b, |a| + j, HeadMark()) <==> At(b, j, HeadMark())
  {
    if j + 4 <= |b| {
      assert (a + b)[|a| + j..|a| + j + 4] == b[j..j + 4];
    }
  }

  // The blank line is not found inside the lines.
  lemma {:induction false} NoEarlyBlank(lines: seq<string>, after: string, k: nat)
    requires lines != [] && AllLines(lines) && k < |Join(lines)|
    ensures !At(Join(lines) + after, k, HeadMark())
  {
    var t := Join(lines) + after;
    var first := lines[0];
    assert IsLine(first);
    assert At(t, k, HeadMark()) ==> t[k] == '\r' && t[k + 2] == '\r' by {
      if At(t, k, HeadMark()) {
        assert t[k..k + 4][0] == '\r' && t[k..k + 4][2] == '\r';
      }
    }
    if k < |first| {
      assert t[k] == first[k] && first[k] in first;
    } else if |lines| > 1 {
      var rest := Join(lines[1..]);
      JoinStarts(lines[1..]);
      assert t == first + CrLf() + (rest + after);
      if k == |first| {
        assert t[k + 2] == rest[0];
      } else if k == |first| + 1 {
        assert t[k] == '\n';
      } else {
        var j := k - |first| - 2;
        NoEarlyBlank(lines[1..], after, j);
        SliceOfTail(first + CrLf(), rest + after, j);
      }
    }
  }

  lemma HeadFound(lines: seq<string>, body: string)
    requires lines != [] && AllLines(lines) && |Join(lines)| + 4 <= MAX_HEADER
    ensures HeadEnd(Join(lines) + HeadMark() + body) == Some(|Join(lines)|)
  {
    var head := Join(lines);
    var t := head + HeadMark() + body;
    var window := if |t| <= MAX_HEADER then t else t[..MAX_HEADER];
    var after := window[|head|..];
    assert window == head + after;
    assert window[|head|..|head| + 4] == HeadMark();
    forall k | 0 <= k < |head|
      ensures !At(window, k, HeadMark())
    {
      NoEarlyBlank(lines, after, k);
    }
    IndexIs(window, HeadMark(), 0, |head|);
  }

  lemma {:induction false} JoinedEndsPaired(lines: seq<string>, i: nat)
    requires lines != [] && AllLines(lines) && i < |Join(lines)|
    ensures PairedAt(Join(lines), i)
  {
    var t := Join(lines);
    var first := lines[0];
    assert IsLine(first);
    if i < |first| {
      assert t[i] == first[i] && first[i] in first;
    } else {
      var rest := Join(lines[1..]);
      assert t == first + CrLf() + rest;
      if i >= |first| + 2 {
        var j := i - |first| - 2;
        JoinedEndsPaired(lines[1..], j);
        assert t[i] == rest[j];
        assert j + 1 < |rest| ==> t[i + 1] == rest[j + 1];
        assert j > 0 ==> t[i - 1] == rest[j - 1];
      }
    }
  }

  // ---------------------------------------------------------------- numbers and header lines

  lemma {:induction false} DecimalMeans(n: nat)
    ensures AllDigits(Decimal(n)) && NatOf(Decimal(n)) == n && Decimal(n) != []
  {
    var d := Decimal(n);
    if n < 10 {
      assert d[..0] == [];
    } else {
      DecimalMeans(n / 10);
      assert d[..|d| - 1] == Decimal(n / 10);
    }
  }

  lemma DecimalIsShort(n: nat)
    requires n < 10000
    ensures |Decimal(n)| <= 4
  {
    assert |Decimal(n / 1000)| == 1;
    assert n >= 1000 ==> n / 100 / 10 == n / 1000;
    assert n >= 100 ==> n / 10 / 10 == n / 100;
    assert |Decimal(n / 100)| <= 2;
    assert |Decimal(n / 10)| <= 3;
  }

  lemma DigitsAreClean(s: string)
    requires AllDigits(s)
    ensures '\r' !in s && '\n' !in s && ':' !in s && ' ' !in s
  {
  }

  lemma LengthReads(n: nat)
    requires n <= MAX_BODY
    ensures ParseLength(" " + Decimal(n)) == Length(n)
  {
    DecimalMeans(n);
    assert (" " + Decimal(n))[1..] == Decimal(n);
  }

  predicate IsName(name: string) {
    name != [] && ':' !in name && ' ' !in name && '\t' !in name && '\r' !in name && '\n' !in name
  }

  lemma HeaderParts(name: string, value: string)
    requires IsName(name)
    ensures var line := Header(name, value);
            && Colon(line) == Some(|name|) && line[..|name|] == name && line[|name| + 1..] == " " + value
            && line != [] && line[0] == name[0] && line[0] != ' ' && line[0] != '\t' && !HasBlank(name)
            && |line| == |name| + 2 + |value|
    ensures '\r' !in value && '\n' !in value ==> IsLine(Header(name, value))
  {
    var line := Header(name, value);
    assert line[|name|..|name| + 1] == ":";
    forall k | 0 <= k < |name|
      ensures !At(line, k, ":")
    {
      assert line[k] == name[k] && name[k] in name;
      if At(line, k, ":") {
        StartsWith(line, k, ":");
      }
    }
    IndexIs(line, ":", 0, |name|);
    assert name[0] in name;
  }

  lemma HeaderIsLine(name: string, value: string)
    requires IsName(name) && '\r' !in value && '\n' !in value
    ensures IsLine(Header(name, value)) && |Header(name, value)| == |name| + 2 + |value|
  {
    HeaderParts(name, value);
  }

  lemma HostName()
    ensures IsName("Host") && Lower("Host") == "host"
  {
    assert Lower("Host") == "host";
  }

  lemma ContentTypeName()
    ensures IsName("Content-Type") && Lower("Content-Type") == "content-type"
  {
    assert Lower("Content-Type") == "content-type";
  }

  lemma ContentLengthName()
    ensures IsName("Content-Length") && Lower("Content-Length") == "content-length"
  {
    assert Lower("Content-Length") == "content-length";
  }

  lemma ConnectionName()
    ensures IsName("Connection") && Lower("Connection") == "connection"
  {
    assert Lower("Connection") == "connection";
  }

  lemma Names()
    ensures IsName("Host") && IsName("Content-Type") && IsName("Content-Length") && IsName("Connection")
    ensures Lower("Host") == "host" && Lower("Content-Type") == "content-type"
    ensures Lower("Content-Length") == "content-length" && Lower("Connection") == "connection"
  {
    hide Lower, IsName;
    HostName();
    ContentTypeName();
    ContentLengthName();
    ConnectionName();
  }

  lemma JoinFour(a: string, b: string, c: string, d: string)
    ensures |Join([a, b, c, d])| == |a| + |b| + |c| + |d| + 6
  {
    assert [a, b, c, d][1..] == [b, c, d] && [b, c, d][1..] == [c, d] && [c, d][1..] == [d];
    assert |Join([c, d])| == |c| + 2 + |d|;
    assert |Join([b, c, d])| == |b| + 2 + |Join([c, d])|;
  }

  lemma JoinMore(a: string, rest: seq<string>)
    requires rest != []
    ensures |Join([a] + rest)| == |a| + 2 + |Join(rest)|
  {
    assert ([a] + rest)[1..] == rest;
  }

  // ---------------------------------------------------------------- the server reads a request

  lemma ServerStep(name: string, value: string, rest: seq<string>, seen: map<string, string>)
    requires IsName(name) && TableHeader(Lower(name)) && Lower(name) !in seen
    ensures ServerHeaders([Header(name, value)] + rest, seen) == ServerHeaders(rest, seen[Lower(name) := " " + value])
  {
    HeaderParts(name, value);
    assert ([Header(name, value)] + rest)[1..] == rest;
  }

  lemma RequestHeaders(host: string, size: nat)
    ensures var lines := [Header("Host", host), Header("Content-Type", "application/json"),
                          Header("Content-Length", Decimal(size)), Header("Connection", "close")];
            var r := ServerHeaders(lines, map[]);
            r.Some? && "transfer-encoding" !in r.value && "content-length" in r.value
            && r.value["content-length"] == " " + Decimal(size)
  {
    hide Header, Lower, Decimal, ServerHeaders;
    Names();
    var a, b := Header("Host", host), Header("Content-Type", "application/json");
    var c, d := Header("Content-Length", Decimal(size)), Header("Connection", "close");
    var s1 := map["host" := " " + host];
    var s2 := s1["content-type" := " " + "application/json"];
    var s3 := s2["content-length" := " " + Decimal(size)];
    var s4 := s3["connection" := " " + "close"];
    DistinctNames();
    ServerStep("Host", host, [b, c, d], map[]);
    ServerStep("Content-Type", "application/json", [c, d], s1);
    ServerStep("Content-Length", Decimal(size), [d], s2);
    ServerStep("Connection", "close", [], s3);
    assert [a, b, c, d] == [a] + [b, c, d] && [b, c, d] == [b] + [c, d] && [c, d] == [c] + [d] && [d] == [d] + [];
    NoHeaders(s4);
  }

  lemma NoHeaders(seen: map<string, string>)
    ensures ServerHeaders([], seen) == Some(seen)
  {
  }

  lemma DistinctNames()
    ensures "host" != "content-type" && "host" != "content-length" && "host" != "connection" && "host" != "transfer-encoding"
    ensures "content-type" != "content-length" && "content-type" != "connection" && "content-type" != "transfer-encoding"
    ensures "content-length" != "connection" && "content-length" != "transfer-encoding" && "connection" != "transfer-encoding"
  {
    assert |"host"| == 4 && |"content-type"| == 12 && |"content-length"| == 14 && |"connection"| == 10 && |"transfer-encoding"| == 17;
  }

  lemma PathsRead(op: Op)
    ensures OpOfPath(Path(op)) == Some(op) && Visible(Path(op)) && '%' !in Path(op) && ' ' !in Path(op)
    ensures Path(op) != [] && Path(op)[0] == '/' && Path(op)[|Path(op)| - 1] != '/' && |Path(op)| <= 22
    ensures '\r' !in Path(op) && '\n' !in Path(op)
  {
    assert |Path(CreateRoom)| == 15 && |Path(HostReport)| == 15 && Path(CreateRoom)[4] == 'c' && Path(HostReport)[4] == 'h';
    assert |Path(JoinRoom)| == 13 && |Path(GetPeers)| == 13 && Path(JoinRoom)[4] == 'j' && Path(GetPeers)[4] == 'g';
    assert |Path(RegisterCandidate)| == 22;
  }

  lemma RequestLineReads(verb: string, target: string)
    requires verb != [] && target != [] && Visible(verb) && Visible(target) && ' ' !in verb && ' ' !in target
    ensures RequestLine(verb + " " + target + " " + "HTTP/1.1") == Some((verb, target))
  {
    var line := verb + " " + target + " " + "HTTP/1.1";
    var i := |verb|;
    var j := |verb| + 1 + |target|;
    assert line[i..i + 1] == " " && line[j..j + 1] == " ";
    forall k | 0 <= k < j && k != i
      ensures !At(line, k, " ")
    {
      assert if k < i then line[k] == verb[k] && verb[k] in verb else line[k] == target[k - i - 1] && target[k - i - 1] in target;
      if At(line, k, " ") {
        StartsWith(line, k, " ");
      }
    }
    IndexIs(line, " ", 0, i);
    IndexIs(line, " ", i + 1, j);
    assert line[..i] == verb && line[i + 1..j] == target && line[j + 1..] == "HTTP/1.1";
  }

  lemma FirstLineReads(op: Op)
    ensures CheckRequestLine("POST" + " " + Path(op) + " " + "HTTP/1.1") == Fine(op)
    ensures IsLine("POST" + " " + Path(op) + " " + "HTTP/1.1") && |"POST" + " " + Path(op) + " " + "HTTP/1.1"| <= 36
  {
    PathsRead(op);
    hide Path, OpOfPath;
    RequestLineReads("POST", Path(op));
  }

  lemma RequestLinesAreLines(host: string, op: Op, size: nat)
    requires host != [] && |host| <= MAX_HOST && Visible(host) && size <= MAX_BODY
    ensures AllLines(RequestLines(host, op, size)) && |Join(RequestLines(host, op, size))| + 4 <= MAX_HEADER
  {
    hide Decimal, Path, Header, IsName, Lower, CheckRequestLine;
    FirstLineReads(op);
    Names();
    DecimalMeans(size);
    DigitsAreClean(Decimal(size));
    DecimalIsShort(size);
    assert '\r' !in host && '\n' !in host;
    HeaderIsLine("Host", host);
    HeaderIsLine("Content-Type", "application/json");
    HeaderIsLine("Content-Length", Decimal(size));
    HeaderIsLine("Connection", "close");
    hide IsLine, Visible, AllDigits;
    var l := RequestLines(host, op, size);
    JoinFour(l[1], l[2], l[3], l[4]);
    JoinMore(l[0], [l[1], l[2], l[3], l[4]]);
    assert l == [l[0]] + [l[1], l[2], l[3], l[4]];
  }

  // Main result: the server recovers exactly the operation and the body of every request the client builds.
  lemma ServerReadsRequest(host: string, op: Op, body: string)
    requires BuildRequest(host, op, body).Some?
    ensures ReadRequest(BuildRequest(host, op, body).value) == Request(op, body)
  {
    hide Join, SplitLines, Decimal, Path, Header, ServerHeaders, CheckRequestLine, ParseLength;
    var lines := RequestLines(host, op, |body|);
    RequestLinesAreLines(host, op, |body|);
    HeadFound(lines, body);
    JoinThenSplit(lines);
    FirstLineReads(op);
    RequestHeaders(host, |body|);
    LengthReads(|body|);
    var t := BuildRequest(host, op, body).value;
    var end := |Join(lines)|;
    hide HeadEnd, AllLines;
    assert t[..end] == Join(lines) && t[end + 4..end + 4 + |body|] == body;
    assert lines[1..] == [Header("Host", host), Header("Content-Type", "application/json"),
                          Header("Content-Length", Decimal(|body|)), Header("Connection", "close")];
  }

  // ---------------------------------------------------------------- the client reads a response

  lemma GatherStep(name: string, value: string, rest: seq<string>, g: Gathered)
    requires IsName(name) && g.Gathered?
    ensures Gather([Header(name, value)] + rest, g) == Gather(rest, Noted(g, Lower(name), " " + value))
  {
    HeaderParts(name, value);
    hide Header, Lower, Colon, IsName, HasBlank;
    GatherOne(Header(name, value), name, " " + value, rest, g);
  }

  lemma GatherOne(line: string, name: string, raw: string, rest: seq<string>, g: Gathered)
    requires g.Gathered? && Colon(line) == Some(|name|) && |name| > 0 && |name| < |line|
    requires line[..|name|] == name && line[|name| + 1..] == raw
    requires line[0] != ' ' && line[0] != '\t' && !HasBlank(name)
    ensures Gather([line] + rest, g) == Gather(rest, Noted(g, Lower(name), raw))
  {
    hide Lower, Colon, HasBlank, Noted;
    assert ([line] + rest)[1..] == rest;
  }

  lemma ResponseHeaders(size: nat)
    ensures var lines := [Header("Content-Type", "application/json"), Header("Content-Length", Decimal(size)), Header("Connection", "close")];
            Gather(lines, Gathered(0, [], false)) == Gathered(1, " " + Decimal(size), false)
  {
    hide Header, Lower, Decimal, Gather;
    Names();
    DistinctNames();
    var b, c, d := Header("Content-Type", "application/json"), Header("Content-Length", Decimal(size)), Header("Connection", "close");
    var g0 := Gathered(0, [], false);
    var g1 := Gathered(1, " " + Decimal(size), false);
    GatherStep("Content-Type", "application/json", [c, d], g0);
    GatherStep("Content-Length", Decimal(size), [d], g0);
    GatherStep("Connection", "close", [], g1);
    assert [b, c, d] == [b] + [c, d] && [c, d] == [c] + [d] && [d] == [d] + [];
    NothingGathered(g1);
  }

  lemma NothingGathered(g: Gathered)
    requires g.Gathered?
    ensures Gather([], g) == g
  {
  }

  lemma StatusReads(status: nat, phrase: string)
    requires 100 <= status <= 999
    ensures StatusOk("HTTP/1.1 " + Decimal(status) + " " + phrase)
    ensures |Decimal(status)| == 3
  {
    var d := Decimal(status);
    DecimalMeans(status);
    assert |Decimal(status / 100)| == 1 && status / 10 / 10 == status / 100 && |Decimal(status / 10)| == 2;
    var line := "HTTP/1.1 " + d + " " + phrase;
    assert line[0..9] == "HTTP/1.1 ";
    assert line[9] == d[0] && line[10] == d[1] && line[11] == d[2] && line[12] == ' ';
  }

  lemma ResponseLinesAreLines(status: nat, phrase: string, size: nat)
    requires 100 <= status <= 999 && |phrase| <= 100 && '\r' !in phrase && '\n' !in phrase && size <= MAX_BODY
    ensures AllLines(ResponseLines(status, phrase, size)) && |Join(ResponseLines(status, phrase, size))| + 4 <= MAX_HEADER
  {
    hide Decimal, Header, StatusOk, IsName, Lower;
    StatusReads(status, phrase);
    Names();
    DecimalMeans(size);
    DigitsAreClean(Decimal(size));
    DecimalMeans(status);
    DigitsAreClean(Decimal(status));
    DecimalIsShort(size);
    HeaderIsLine("Content-Type", "application/json");
    HeaderIsLine("Content-Length", Decimal(size));
    HeaderIsLine("Connection", "close");
    assert IsLine("HTTP/1.1 " + Decimal(status) + " " + phrase);
    hide IsLine, AllDigits;
    var l := ResponseLines(status, phrase, size);
    JoinFour(l[0], l[1], l[2], l[3]);
    assert l == [l[0], l[1], l[2], l[3]];
  }

  // Main result: the client finds exactly the body of every response the server builds, up to 4096 bytes.
  lemma ClientReadsResponse(status: nat, phrase: string, body: string)
    requires 100 <= status <= 999 && |phrase| <= 100 && '\r' !in phrase && '\n' !in phrase && |body| <= MAX_BODY
    ensures var t := BuildResponse(status, phrase, body);
            && FrameResponse(t).Complete?
            && t[FrameResponse(t).headSize..FrameResponse(t).headSize + FrameResponse(t).bodySize] == body
            && Outcome(t) == Got(t)
  {
    hide Join, SplitLines, Decimal, Header, Gather, ParseLength, StatusOk;
    var lines := ResponseLines(status, phrase, |body|);
    ResponseLinesAreLines(status, phrase, |body|);
    HeadFound(lines, body);
    JoinThenSplit(lines);
    forall i | 0 <= i < |Join(lines)|
      ensures PairedAt(Join(lines), i)
    {
      JoinedEndsPaired(lines, i);
    }
    StatusReads(status, phrase);
    ResponseHeaders(|body|);
    LengthReads(|body|);
    var t := BuildResponse(status, phrase, body);
    var end := |Join(lines)|;
    hide HeadEnd, AllLines, PairedAt;
    assert t[..end] == Join(lines) && t[end + 4..end + 4 + |body|] == body && t[..end + 4 + |body|] == t;
    assert lines[1..] == [Header("Content-Type", "application/json"), Header("Content-Length", Decimal(|body|)), Header("Connection", "close")];
  }
}
