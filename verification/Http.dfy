/**
 HTTP framing on both sides: the client's requests and its reading of responses
 (client/src/control/http.cpp, exchange.cpp), the server's reading of requests and its responses
 (control-server/controlplane/server.py).  A text is a sequence of bytes, written as characters;
 header syntax is that of section 5 of RFC 9112.
 */
module Http {
  import opened Wrappers

  const MAX_HEADER := 2048
  const MAX_BODY := 4096
  const MAX_HOST := 259
  const CHUNK := 2048

  datatype Op = CreateRoom | JoinRoom | RegisterCandidate | GetPeers | HostReport

  function OpName(op: Op): string {
    match op
    case CreateRoom => "create_room"
    case JoinRoom => "join_room"
    case RegisterCandidate => "register_candidate"
    case GetPeers => "get_peers"
    case HostReport => "host_report"
  }

  function CrLf(): string { "\r\n" }
  function HeadMark(): string { "\r\n\r\n" }

  // ---------------------------------------------------------------- searching and splitting

  predicate At(t: string, i: nat, w: string) {
    i + |w| <= |t| && t[i..i + |w|] == w
  }

  // First place at or after i.
  function Index(t: string, w: string, i: nat): (r: Option<nat>)
    ensures r.Some? ==> i <= r.value && At(t, r.value, w) && forall k | i <= k < r.value :: !At(t, k, w)
    ensures r.None? ==> forall k | i <= k :: !At(t, k, w)
    decreases |t| - i
  {
    if i + |w| > |t| then None
    else if t[i..i + |w|] == w then Some(i)
    else Index(t, w, i + 1)
  }

  lemma {:induction false} IndexIs(t: string, w: string, i: nat, at: nat)
    requires i <= at && At(t, at, w) && forall k | i <= k < at :: !At(t, k, w)
    ensures Index(t, w, i) == Some(at)
  {
    var r := Index(t, w, i);
    if r.None? {
      assert false;
    } else if r.value < at {
      assert false;
    }
  }

  function SplitLines(t: string): (lines: seq<string>)
    ensures lines != []
    decreases |t|
  {
    var i := Index(t, CrLf(), 0);
    if i.None? then [t] else [t[..i.value]] + SplitLines(t[i.value + 2..])
  }

  function Join(lines: seq<string>): string
    requires lines != []
  {
    if |lines| == 1 then lines[0] else lines[0] + CrLf() + Join(lines[1..])
  }

  // A line has no line end in it and is not empty.
  predicate IsLine(line: string) {
    line != [] && '\r' !in line && '\n' !in line
  }

  predicate AllLines(lines: seq<string>) {
    forall i | 0 <= i < |lines| :: IsLine(lines[i])
  }

  // ---------------------------------------------------------------- numbers

  predicate IsDigit(c: char) {
    '0' <= c <= '9'
  }

  predicate AllDigits(s: string) {
    forall i | 0 <= i < |s| :: IsDigit(s[i])
  }

  function NatOf(s: string): nat
    requires AllDigits(s)
  {
    if s == [] then 0 else 10 * NatOf(s[..|s| - 1]) + (s[|s| - 1] as int - '0' as int)
  }

  function Decimal(n: nat): string {
    if n < 10 then [(n + '0' as int) as char] else Decimal(n / 10) + [(n % 10 + '0' as int) as char]
  }

  // The value of a Content-Length: one space may lead, then digits only.
  datatype Length = BadLength | TooBig | Length(n: nat)

  function Trimmed(raw: string): string {
    if raw != [] && raw[0] == ' ' then raw[1..] else raw
  }

  function ParseLength(raw: string): (r: Length)
    ensures r.Length? ==> r.n <= MAX_BODY
  {
    var v := Trimmed(raw);
    if v == [] || !AllDigits(v) then BadLength
    else if NatOf(v) > MAX_BODY then TooBig
    else Length(NatOf(v))
  }

  // The reader stops counting at the limit; what it says is what the whole number says.
  method CountLength(raw: string) returns (r: Length)
    ensures r == ParseLength(raw)
  {
    var v := Trimmed(raw);
    if v == [] {
      return BadLength;
    }
    var value, over := 0, false;
    for i := 0 to |v|
      invariant AllDigits(v[..i])
      invariant over <==> NatOf(v[..i]) > MAX_BODY
      invariant !over ==> value == NatOf(v[..i])
    {
      if !IsDigit(v[i]) {
        return BadLength;
      }
      assert v[..i + 1][..i] == v[..i];
      if !over {
        value := value * 10 + (v[i] as int - '0' as int);
        over := value > MAX_BODY;
      }
    }
    assert v[..|v|] == v;
    return if over then TooBig else Length(value);
  }

  // ---------------------------------------------------------------- header lines

  function LowerChar(c: char): char {
    if 'A' <= c <= 'Z' then (c as int + 32) as char else c
  }

  function Lower(s: string): string {
    seq(|s|, i requires 0 <= i < |s| => LowerChar(s[i]))
  }

  predicate HasBlank(s: string) {
    ' ' in s || '\t' in s
  }

  // The name up to the first colon, and the rest.
  function Colon(line: string): Option<nat> {
    Index(line, ":", 0)
  }

  datatype Frame =
    | NeedMore(headSize: nat, bodySize: nat, needed: nat)
    | Complete(headSize: nat, bodySize: nat)
    | Invalid(error: FrameError)

  datatype FrameError =
    | HeaderTooLarge | BadStatusLine | BadHeaderLine | TransferEncoding | MissingLength | DuplicateLength
    | BadContentLength | BodyTooLarge

  // What the client has gathered from the header lines.
  datatype Gathered = Gathered(count: nat, raw: string, transfer: bool) | Broken

  function Gather(lines: seq<string>, g: Gathered): Gathered
    requires g.Gathered?
    decreases |lines|
  {
    if lines == [] then g
    else
      var line := lines[0];
      var colon := Colon(line);
      if line == [] || line[0] == ' ' || line[0] == '\t' || colon.None? || colon.value == 0 || HasBlank(line[..colon.value])
      then Broken
      else
        Gather(lines[1..], Noted(g, Lower(line[..colon.value]), line[colon.value + 1..]))
  }

  function Noted(g: Gathered, name: string, raw: string): Gathered
    requires g.Gathered?
    ensures Noted(g, name, raw).Gathered?
  {
    if name == "content-length" then g.(count := g.count + 1, raw := raw)
    else if name == "transfer-encoding" then g.(transfer := true)
    else g
  }

  // Every CR and LF of the head belongs to a CR LF.
  predicate EndsPaired(head: string) {
    forall i | 0 <= i < |head| :: PairedAt(head, i)
  }

  predicate PairedAt(head: string, i: nat)
    requires i < |head|
  {
    && (head[i] == '\r' ==> i + 1 < |head| && head[i + 1] == '\n')
    && (head[i] == '\n' ==> i > 0 && head[i - 1] == '\r')
  }

  method CheckEnds(head: string) returns (ok: bool)
    ensures ok <==> EndsPaired(head)
  {
    var i := 0;
    while i < |head|
      invariant 0 <= i <= |head|
      invariant i > 0 ==> head[i - 1] != '\r'
      invariant forall k | 0 <= k < i :: PairedAt(head, k)
    {
      if head[i] == '\r' {
        if i + 1 >= |head| || head[i + 1] != '\n' {
          assert !PairedAt(head, i);
          return false;
        }
        assert PairedAt(head, i) && PairedAt(head, i + 1);
        i := i + 1;
      } else if head[i] == '\n' {
        assert !PairedAt(head, i);
        return false;
      }
      i := i + 1;
    }
    return true;
  }

  predicate StatusOk(line: string) {
    && At(line, 0, "HTTP/1.1 ") && |line| >= 12
    && IsDigit(line[9]) && IsDigit(line[10]) && IsDigit(line[11])
    && (|line| == 12 || line[12] == ' ')
  }

  datatype Head = HeadBad(error: FrameError) | HeadOk(length: nat)

  function ReadHead(head: string): (r: Head)
    ensures r.HeadOk? ==> r.length <= MAX_BODY
  {
    if !EndsPaired(head) then HeadBad(BadHeaderLine)
    else
      var lines := SplitLines(head);
      if !StatusOk(lines[0]) then HeadBad(BadStatusLine)
      else
        var g := Gather(lines[1..], Gathered(0, [], false));
        if g.Broken? then HeadBad(BadHeaderLine)
        else if g.transfer then HeadBad(TransferEncoding)
        else if g.count == 0 then HeadBad(MissingLength)
        else if g.count > 1 then HeadBad(DuplicateLength)
        else
          match ParseLength(g.raw)
          case BadLength => HeadBad(BadContentLength)
          case TooBig => HeadBad(BodyTooLarge)
          case Length(n) => HeadOk(n)
  }

  // The end of the head, looked for within the limit.
  function HeadEnd(t: string): (r: Option<nat>)
    ensures r.Some? ==> r.value + 4 <= |t| && r.value + 4 <= MAX_HEADER
  {
    Index(if |t| <= MAX_HEADER then t else t[..MAX_HEADER], HeadMark(), 0)
  }

  function FrameResponse(t: string): (f: Frame)
    ensures f.Complete? ==> f.headSize + f.bodySize <= |t| && f.headSize + f.bodySize <= MAX_HEADER + MAX_BODY
    ensures f.NeedMore? ==> if f.headSize == 0 then f.needed == 0 && |t| < MAX_HEADER
                            else 0 < f.needed == f.headSize + f.bodySize - |t| && f.headSize + f.bodySize <= MAX_HEADER + MAX_BODY
  {
    var end := HeadEnd(t);
    if end.None? then (if |t| >= MAX_HEADER then Invalid(HeaderTooLarge) else NeedMore(0, 0, 0))
    else
      match ReadHead(t[..end.value])
      case HeadBad(e) => Invalid(e)
      case HeadOk(n) =>
        var total := end.value + 4 + n;
        if |t| >= total then Complete(end.value + 4, n) else NeedMore(end.value + 4, n, total - |t|)
  }

  // ---------------------------------------------------------------- requests

  predicate Visible(s: string) {
    forall c | c in s :: '!' <= c <= '~'
  }

  function Path(op: Op): string {
    "/v1/" + OpName(op)
  }

  function Header(name: string, value: string): string {
    name + ":" + (" " + value)
  }

  function RequestLines(host: string, op: Op, size: nat): seq<string> {
    ["POST" + " " + Path(op) + " " + "HTTP/1.1", Header("Host", host), Header("Content-Type", "application/json"),
     Header("Content-Length", Decimal(size)), Header("Connection", "close")]
  }

  function BuildRequest(host: string, op: Op, body: string): Option<string> {
    if host == [] || |host| > MAX_HOST || !Visible(host) || |body| > MAX_BODY then None
    else Some(Join(RequestLines(host, op, |body|)) + HeadMark() + body)
  }

  datatype ServerError = BadRequest | MethodNotAllowed | UnknownOp | HeaderOver | LengthRequired | BodyOver
  datatype Request = Request(op: Op, body: string) | Refused(error: ServerError) | Unfinished

  // Method, target and nothing else before the version.
  function RequestLine(line: string): Option<(string, string)> {
    var i := Index(line, " ", 0);
    if i.None? then None
    else
      var j := Index(line, " ", i.value + 1);
      if j.None? || line[j.value + 1..] != "HTTP/1.1" then None
      else
        var verb, target := line[..i.value], line[i.value + 1..j.value];
        if verb == [] || target == [] || !Visible(verb) || !Visible(target) then None else Some((verb, target))
  }

  function OpOfPath(target: string): Option<Op> {
    if target == Path(CreateRoom) then Some(CreateRoom)
    else if target == Path(JoinRoom) then Some(JoinRoom)
    else if target == Path(RegisterCandidate) then Some(RegisterCandidate)
    else if target == Path(GetPeers) then Some(GetPeers)
    else if target == Path(HostReport) then Some(HostReport)
    else None
  }

  datatype Checked = Fine(op: Op) | Wrong(error: ServerError)

  function CheckRequestLine(line: string): Checked {
    var parts := RequestLine(line);
    if parts.None? then Wrong(BadRequest)
    else
      var (verb, target) := parts.value;
      if target[0] != '/' || target[|target| - 1] == '/' || '%' in target then Wrong(BadRequest)
      else if verb != "POST" then Wrong(MethodNotAllowed)
      else if OpOfPath(target).None? then Wrong(UnknownOp)
      else Fine(OpOfPath(target).value)
  }

  predicate TableHeader(name: string) {
    name == "host" || name == "content-type" || name == "content-length" || name == "connection" || name == "transfer-encoding"
  }

  // The headers of the table by lower-case name; None for a line that breaks the rules or a second one.
  function ServerHeaders(lines: seq<string>, seen: map<string, string>): Option<map<string, string>>
    decreases |lines|
  {
    if lines == [] then Some(seen)
    else
      var line := lines[0];
      var colon := Colon(line);
      if (line != [] && (line[0] == ' ' || line[0] == '\t')) || colon.None? || HasBlank(line[..colon.value]) then None
      else
        var name := Lower(line[..colon.value]);
        if !TableHeader(name) then ServerHeaders(lines[1..], seen)
        else if name in seen then None
        else ServerHeaders(lines[1..], seen[name := line[colon.value + 1..]])
  }

  // The request in what the connection delivers.
  function ReadRequest(t: string): Request {
    var end := HeadEnd(t);
    var head := if end.Some? then t[..end.value] else if |t| <= MAX_HEADER then t else t[..MAX_HEADER];
    if end.None? && |t| < MAX_HEADER then Unfinished
    else
      var lines := SplitLines(head);
      if end.None? && |lines| == 1 then Refused(HeaderOver)
      else
        var checked := CheckRequestLine(lines[0]);
        if checked.Wrong? then Refused(checked.error)
        else if end.None? then Refused(HeaderOver)
        else
          var headers := ServerHeaders(lines[1..], map[]);
          if headers.None? || "transfer-encoding" in headers.value then Refused(BadRequest)
          else if "content-length" !in headers.value then Refused(LengthRequired)
          else
            match ParseLength(headers.value["content-length"])
            case BadLength => Refused(BadRequest)
            case TooBig => Refused(BodyOver)
            case Length(n) =>
              if |t| < end.value + 4 + n then Unfinished else Request(checked.op, t[end.value + 4..end.value + 4 + n])
  }

  function ResponseLines(status: nat, phrase: string, size: nat): seq<string> {
    ["HTTP/1.1 " + Decimal(status) + " " + phrase, Header("Content-Type", "application/json"),
     Header("Content-Length", Decimal(size)), Header("Connection", "close")]
  }

  function BuildResponse(status: nat, phrase: string, body: string): string {
    Join(ResponseLines(status, phrase, |body|)) + HeadMark() + body
  }

  // ---------------------------------------------------------------- more bytes do not change a verdict

  lemma IndexOfLonger(t: string, more: string, w: string, i: nat)
    requires Index(t, w, i).Some?
    ensures Index(t + more, w, i) == Index(t, w, i)
  {
    var at := Index(t, w, i).value;
    var u := t + more;
    assert u[at..at + |w|] == t[at..at + |w|];
    forall k | i <= k < at
      ensures !At(u, k, w)
    {
      assert u[k..k + |w|] == t[k..k + |w|];
      assert !At(t, k, w);
    }
    IndexIs(u, w, i, at);
  }

  lemma HeadEndOfLonger(t: string, more: string)
    requires HeadEnd(t).Some? || |t| >= MAX_HEADER
    ensures HeadEnd(t + more) == HeadEnd(t)
  {
    var u := t + more;
    if |t| >= MAX_HEADER {
      assert (if |u| <= MAX_HEADER then u else u[..MAX_HEADER]) == (if |t| <= MAX_HEADER then t else t[..MAX_HEADER]);
    } else {
      var window := if |u| <= MAX_HEADER then u else u[..MAX_HEADER];
      assert window == t + window[|t|..];
      IndexOfLonger(t, window[|t|..], HeadMark(), 0);
    }
  }

  // Main result: a verdict, once reached, stands whatever comes after.
  lemma VerdictStands(t: string, more: string)
    requires !FrameResponse(t).NeedMore?
    ensures FrameResponse(t + more) == FrameResponse(t)
  {
    HeadEndOfLonger(t, more);
    var end := HeadEnd(t);
    if end.Some? {
      assert (t + more)[..end.value] == t[..end.value];
    }
  }

  datatype Exchange = Got(response: string) | BadResponse(error: FrameError) | ClosedEarly

  // The outcome as a matter of the stream alone.
  function Outcome(stream: string): Exchange {
    match FrameResponse(stream)
    case Complete(h, b) => Got(stream[..h + b])
    case Invalid(e) => BadResponse(e)
    case NeedMore(_, _, _) => ClosedEarly
  }

  // Main result: however the stream is cut into chunks, the outcome is the same, and no more than
  // 6144 bytes are ever held.
  method Receive(stream: string, size: nat -> nat) returns (result: Exchange, held: nat)
    ensures result == Outcome(stream)
    ensures held <= MAX_HEADER + MAX_BODY
  {
    var received: string := [];
    var k := 0;
    while true
      invariant |received| <= |stream| && received == stream[..|received|]
      invariant |received| <= MAX_HEADER + MAX_BODY
      decreases |stream| - |received|
    {
      var frame := FrameResponse(received);
      assert stream == received + stream[|received|..];
      match frame {
        case Complete(h, b) =>
          VerdictStands(received, stream[|received|..]);
          return Got(received[..h + b]), |received|;
        case Invalid(e) =>
          VerdictStands(received, stream[|received|..]);
          return BadResponse(e), |received|;
        case NeedMore(_, _, needed) =>
          var want := if needed != 0 then needed else MAX_HEADER - |received|;
          var take := if want < CHUNK then want else CHUNK;
          var left := |stream| - |received|;
          if left == 0 {
            assert received == stream;
            return ClosedEarly, |received|;
          }
          var most := if take < left then take else left;
          var got := if 1 <= size(k) <= most then size(k) else most;
          received := received + stream[|received|..|received| + got];
          k := k + 1;
      }
    }
  }
}
