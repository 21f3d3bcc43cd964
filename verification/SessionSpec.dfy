/**
 One attempt to reach one peer (client/src/peer/session.cpp), as functions on a value.

 What the session hands to the outside is kept in the state in order: datagrams given to
 the socket (out), peer epochs given to the retired list (retires), state changes told to
 the owner (notes) and inner packets given to the sink (inbox).  Whether the socket takes
 the k-th datagram, and what the k-th draw of randomness yields, are arbitrary functions.
 */
module SessionSpec {
  import opened Wrappers
  import R = Replay
  import I = Ipv4
  import P = Packet

  // ---------------------------------------------------------------- constants, in milliseconds

  const HELLO_RETRANSMIT := 200
  const PUNCH_DEADLINE := 10000
  const KEEPALIVE_INTERVAL := 15000
  const IDLE_TIMEOUT := 50000
  const PING_INTERVAL := 5000
  const PROBE_TTL := 5000
  const PENDING_PING_TTL := 5000
  const MIN_RENEG_INTERVAL := 1000
  const MAX_RENEGOTIATIONS := 8
  const MAX_PENDING_PINGS := 16
  const MAX_PROBE_PATHS := 4
  const TOKEN_COST := 1000
  const TOKEN_CAPACITY := 10000
  const TOKEN_REFILL := 5

  // ---------------------------------------------------------------- data

  // Thousandths of a token.
  type Tokens = x: nat | x <= 10000

  // 128 bits; only equality matters here.
  type Nonce = nat

  datatype Body =
    | Hello(nonce: Nonce, virtualIp: U32)
    | HelloAck(nonce: Nonce, virtualIp: U32)
    | Keepalive
    | Data(inner: seq<Byte>)
    | Ping(id: nat)
    | Pong(id: nat)
    | Close(reason: Byte)
    | Roster(payload: seq<Byte>)

  datatype RxPacket = RxPacket(body: Body, epoch: U32, number: U32, from: Endpoint)

  datatype Failure = HolePunchTimeout | PeerHandshakeFailed | TunnelDropped

  datatype Phase = Punching | Handshaking | Connected | Failed | Closed {
    predicate Terminal() { Failed? || Closed? }
  }

  datatype Drop =
    | DropTerminalState | DropVipMismatch | DropRenegRate | DropRenegLimit | DropStaleEpoch | DropBadNonce
    | DropNoEpoch | DropDuplicate | DropTooOld | DropDataEarly | DropInner(error: I.InnerError)
    | DropUnmatchedPong | DropBadReason | DropRoster(cause: P.PacketError) | DropNoSink

  datatype Config = Config(
    localVip: U32, peerVip: U32, candidates: seq<Endpoint>, peerIsHost: bool, attemptNonce: Nonce, hasSink: bool,
    net: nat -> bool, draw: nat -> Option<Nonce>)

  // learned is the peer endpoint the session held when it sent this.
  datatype Datagram = Datagram(at: nat, to: Endpoint, body: Body, number: U32, taken: bool, learned: Option<Endpoint>)

  datatype Probe = Probe(to: Endpoint, nonce: Nonce, registered: nat, answered: bool)
  datatype Retire = Retire(epoch: U32, at: nat)
  datatype Note = Note(before: Phase, after: Phase)
  datatype Loss = Loss(expected: int, accepted: int)

  datatype State = State(
    gotAck: bool, sentAck: bool, terminal: Option<Phase>, terminalSince: Option<nat>,
    failure: Option<Failure>, peerClose: Option<Byte>,
    pinned: Option<U32>, window: R.Window,
    lossBaseline: Option<int>, lossAccepted: int, lossTotals: Loss,
    nextSeq: U32, endpoint: Option<Endpoint>,
    renegotiations: nat, lastRenegotiation: Option<nat>,
    pings: map<nat, nat>, nextPing: nat,
    lastGeneration: Option<U32>,
    probes: seq<Probe>, budget: Tokens, budgetAt: nat, draws: nat,
    punchStarted: bool,
    helloDue: Option<nat>, punchDue: Option<nat>, keepaliveDue: Option<nat>, pingDue: Option<nat>, idleDue: Option<nat>,
    out: seq<Datagram>, retires: seq<Retire>, notes: seq<Note>, inbox: seq<seq<Byte>>)

  function Initial(now: nat): State {
    State(false, false, None, None, None, None, None, R.Fresh(), None, 0, Loss(0, 0), 0, None, 0, None,
          map[], 0, None, [], TOKEN_CAPACITY, now, 0, false, None, None, None, None, None, [], [], [], [])
  }

  // ---------------------------------------------------------------- reading

  function PhaseOf(s: State): Phase {
    if s.terminal.Some? then s.terminal.value
    else if s.gotAck && s.sentAck then Connected
    else if s.gotAck || s.sentAck then Handshaking
    else Punching
  }

  predicate Active(s: State) {
    !PhaseOf(s).Terminal()
  }

  function LossOf(s: State): Loss {
    if s.lossBaseline.Some? then
      Loss(s.lossTotals.expected + (s.window.position - s.lossBaseline.value), s.lossTotals.accepted + s.lossAccepted)
    else s.lossTotals
  }

  predicate IsVerified(c: Config, s: State, e: Endpoint) {
    e in c.candidates || s.endpoint == Some(e)
  }

  function Earlier(a: Option<nat>, b: Option<nat>): Option<nat> {
    if a.None? then b else if b.None? || a.value <= b.value then a else b
  }

  function NextDeadline(s: State): Option<nat> {
    var timers := Earlier(s.helloDue, Earlier(s.punchDue, Earlier(s.keepaliveDue, Earlier(s.pingDue, s.idleDue))));
    if s.probes == [] then timers else Earlier(timers, Some(s.probes[0].registered + PROBE_TTL))
  }

  // ---------------------------------------------------------------- sending

  predicate LengthOk(body: Body) {
    match body
    case Data(inner) => P.PayloadLengthOk(P.DATA, |inner|)
    case Roster(payload) => P.PayloadLengthOk(P.ROSTER, |payload|)
    case _ => true
  }

  // The number is spent even when nothing leaves.
  function SendPacket(c: Config, s: State, body: Body, to: Endpoint, now: nat): (r: (State, bool))
    ensures r.0 == s.(nextSeq := r.0.nextSeq, out := r.0.out) && s.out <= r.0.out
  {
    var spent := s.(nextSeq := (s.nextSeq + 1) % TWO32);
    if !LengthOk(body) then (spent, false)
    else
      var taken := c.net(|s.out|);
      (spent.(out := s.out + [Datagram(now, to, body, s.nextSeq, taken, s.endpoint)]), taken)
  }

  function SendEach(c: Config, s: State, body: Body, to: seq<Endpoint>, now: nat): (r: State)
    ensures r == s.(nextSeq := r.nextSeq, out := r.out) && s.out <= r.out
    decreases |to|
  {
    if to == [] then s else SendEach(c, SendPacket(c, s, body, to[0], now).0, body, to[1..], now)
  }

  function SendToPeer(c: Config, s: State, body: Body, now: nat): (r: State)
    ensures r == s.(nextSeq := r.nextSeq, out := r.out) && s.out <= r.out
  {
    if s.endpoint.Some? then SendPacket(c, s, body, s.endpoint.value, now).0
    else SendEach(c, s, body, c.candidates, now)
  }

  // Stops at the first datagram the socket refuses.
  function SendWhileTaken(c: Config, s: State, body: Body, to: seq<Endpoint>, now: nat): (r: (State, bool))
    ensures r.0 == s.(nextSeq := r.0.nextSeq, out := r.0.out) && s.out <= r.0.out
    decreases |to|
  {
    if to == [] then (s, true)
    else
      var (s1, ok) := SendPacket(c, s, body, to[0], now);
      if ok then SendWhileTaken(c, s1, body, to[1..], now) else (s1, false)
  }

  function SendData(c: Config, s: State, inner: seq<Byte>, now: nat): (r: (State, bool))
    ensures r.0 == s.(nextSeq := r.0.nextSeq, out := r.0.out) && s.out <= r.0.out
  {
    if s.endpoint.Some? then SendPacket(c, s, Data(inner), s.endpoint.value, now)
    else SendWhileTaken(c, s, Data(inner), c.candidates, now)
  }

  function HelloRound(c: Config, s: State, now: nat): (r: State)
    ensures r == s.(nextSeq := r.nextSeq, out := r.out) && s.out <= r.out
  {
    SendEach(c, s, Hello(c.attemptNonce, c.localVip), c.candidates, now)
  }

  // ---------------------------------------------------------------- the token bucket

  function Min(a: nat, b: nat): nat {
    if a < b then a else b
  }

  // Lazy refill in thousandths of a token, clamped before multiplying.
  function Refilled(budget: Tokens, budgetAt: nat, now: nat): Tokens {
    if now > budgetAt then
      var room := TOKEN_CAPACITY - budget;
      var elapsed := Min(now - budgetAt, room);
      budget + Min(room, elapsed * TOKEN_REFILL)
    else budget
  }

  function SpendFor(c: Config, s: State, to: Endpoint, now: nat): (r: (State, bool))
    ensures r.0 == s.(budget := r.0.budget, budgetAt := r.0.budgetAt)
    ensures IsVerified(c, s, to) ==> r == (s, true)
  {
    if IsVerified(c, s, to) then (s, true)
    else
      var budget := Refilled(s.budget, s.budgetAt, now);
      var at := if now > s.budgetAt then now else s.budgetAt;
      if budget < TOKEN_COST then (s.(budget := budget, budgetAt := at), false)
      else (s.(budget := budget - TOKEN_COST, budgetAt := at), true)
  }

  // ---------------------------------------------------------------- path probes and pings

  function LiveProbes(probes: seq<Probe>, now: nat): seq<Probe> {
    if probes == [] then []
    else if probes[0].registered + PROBE_TTL <= now then LiveProbes(probes[1..], now)
    else [probes[0]] + LiveProbes(probes[1..], now)
  }

  function ExpireProbes(s: State, now: nat): (r: State)
    ensures r == s.(probes := r.probes)
  {
    s.(probes := LiveProbes(s.probes, now))
  }

  predicate HasProbeTo(probes: seq<Probe>, e: Endpoint) {
    exists i | 0 <= i < |probes| :: probes[i].to == e
  }

  function StartPathProbe(c: Config, s: State, from: Endpoint, now: nat): (r: State)
    ensures r == s.(probes := r.probes, draws := r.draws, budget := r.budget, budgetAt := r.budgetAt,
                    nextSeq := r.nextSeq, out := r.out)
  {
    DrawThenRegister(c, ExpireProbes(s, now), from, now)
  }

  function DrawThenRegister(c: Config, s: State, from: Endpoint, now: nat): (r: State)
    ensures r == s.(probes := r.probes, draws := r.draws, budget := r.budget, budgetAt := r.budgetAt,
                    nextSeq := r.nextSeq, out := r.out)
  {
    if HasProbeTo(s.probes, from) || |s.probes| >= MAX_PROBE_PATHS then s
    else
      var nonce := c.draw(s.draws);
      var s1 := s.(draws := s.draws + 1);
      if nonce.None? then s1 else Register(c, s1, from, nonce.value, now)
  }

  function Register(c: Config, s: State, from: Endpoint, nonce: Nonce, now: nat): (r: State)
    ensures r == s.(probes := r.probes, budget := r.budget, budgetAt := r.budgetAt, nextSeq := r.nextSeq, out := r.out)
  {
    var (s1, ok) := SpendFor(c, s, from, now);
    if !ok then s1
    else
      var s2 := s1.(probes := s1.probes + [Probe(from, nonce, now, false)]);
      SendPacket(c, s2, Hello(nonce, c.localVip), from, now).0
  }

  function LivePings(pings: map<nat, nat>, now: nat): map<nat, nat> {
    map id | id in pings && pings[id] + PENDING_PING_TTL > now :: pings[id]
  }

  function SendPing(c: Config, s: State, now: nat): (r: State)
    ensures r == s.(pingDue := r.pingDue, pings := r.pings, nextPing := r.nextPing, nextSeq := r.nextSeq, out := r.out)
    ensures r.pingDue.Some?
  {
    var s1 := s.(pingDue := Some(now + PING_INTERVAL), pings := LivePings(s.pings, now));
    if |s1.pings| >= MAX_PENDING_PINGS then s1
    else
      var id := s1.nextPing;
      SendToPeer(c, s1.(nextPing := id + 1, pings := s1.pings[id := now]), Ping(id), now)
  }

  function SendKeepalive(c: Config, s: State, now: nat): (r: State)
    ensures r == s.(keepaliveDue := Some(now + KEEPALIVE_INTERVAL), nextSeq := r.nextSeq, out := r.out)
  {
    SendToPeer(c, s, Keepalive, now).(keepaliveDue := Some(now + KEEPALIVE_INTERVAL))
  }

  function SendHelloAck(c: Config, s: State, echo: Nonce, to: Endpoint, now: nat): (r: State)
    ensures r == s.(sentAck := r.sentAck, budget := r.budget, budgetAt := r.budgetAt, nextSeq := r.nextSeq, out := r.out)
    ensures s.sentAck ==> r.sentAck
  {
    var (s1, may) := SpendFor(c, s, to, now);
    if !may then s1
    else
      var (s2, ok) := SendPacket(c, s1, HelloAck(echo, c.localVip), to, now);
      if ok then s2.(sentAck := true) else s2
  }

  // ---------------------------------------------------------------- state changes

  // How a call may leave the ending of a session, and its record of abandoned epochs.
  predicate EndsOnce(s: State, r: State) {
    || (r.terminal == s.terminal && r.terminalSince == s.terminalSince)
    || (r.terminal.Some? && r.terminal.value.Terminal() && r.terminalSince.Some?)
  }

  function StopTimers(s: State): State {
    s.(helloDue := None, punchDue := None, keepaliveDue := None, pingDue := None, idleDue := None)
  }

  function EnterTerminal(s: State, phase: Phase, now: nat): (r: State)
    ensures r.terminal == Some(phase) && r.terminalSince == Some(now) && r.retires == s.retires && r.pinned == s.pinned
    ensures r.renegotiations == s.renegotiations && r.punchStarted == s.punchStarted
    ensures (r.punchDue == s.punchDue || r.punchDue.None?) && r.endpoint == s.endpoint
  {
    StopTimers(s).(probes := [], terminal := Some(phase), terminalSince := Some(now),
                   notes := s.notes + [Note(PhaseOf(s), phase)])
  }

  function Fail(c: Config, s: State, failure: Failure, now: nat): (r: State)
    ensures EndsOnce(s, r) && r.retires == s.retires && r.pinned == s.pinned
    ensures r.renegotiations == s.renegotiations && r.punchStarted == s.punchStarted
    ensures (r.punchDue == s.punchDue || r.punchDue.None?) && r.endpoint == s.endpoint
  {
    var s1 := StopTimers(s);
    var s2 := if s1.endpoint.Some? then SendPacket(c, s1, Close(3), s1.endpoint.value, now).0 else s1;
    EnterTerminal(s2.(failure := Some(failure)), Failed, now)
  }

  function EnterConnected(c: Config, s: State, now: nat): (r: State)
    ensures r == s.(helloDue := None, punchDue := None, lossBaseline := Some(s.window.position), lossAccepted := 0,
                    idleDue := Some(now + IDLE_TIMEOUT), pingDue := Some(now + PING_INTERVAL),
                    keepaliveDue := Some(now + KEEPALIVE_INTERVAL), nextSeq := r.nextSeq, out := r.out)
  {
    SendKeepalive(c, s.(helloDue := None, punchDue := None, lossBaseline := Some(s.window.position), lossAccepted := 0,
                        idleDue := Some(now + IDLE_TIMEOUT), pingDue := Some(now + PING_INTERVAL)), now)
  }

  function Settle(c: Config, s: State, before: Phase, now: nat): (r: State)
    ensures r.terminal == s.terminal && r.terminalSince == s.terminalSince && r.retires == s.retires && r.pinned == s.pinned
    ensures r.renegotiations == s.renegotiations && r.punchStarted == s.punchStarted
    ensures r.punchDue == s.punchDue || r.punchDue.None?
  {
    var after := PhaseOf(s);
    if after == before then s
    else
      var s1 := if after == Connected then EnterConnected(c, s, now) else s;
      s1.(notes := s1.notes + [Note(before, after)])
  }

  // The state of the old epoch goes; its loss goes into the totals.
  function Reset(s: State, epoch: U32, now: nat): State
    requires s.pinned.Some?
  {
    s.(
      renegotiations := s.renegotiations + 1, lastRenegotiation := Some(now),
      retires := s.retires + [Retire(s.pinned.value, now)],
      gotAck := false, sentAck := false,
      lossTotals := LossOf(s), lossBaseline := None, lossAccepted := if s.lossBaseline.Some? then 0 else s.lossAccepted,
      window := R.Fresh(), pings := map[], pinned := Some(epoch))
  }

  function RestartPunch(c: Config, s: State, now: nat): (r: State)
    ensures r == s.(helloDue := r.helloDue, punchDue := r.punchDue, nextSeq := r.nextSeq, out := r.out)
  {
    if s.punchStarted then
      HelloRound(c, s.(punchDue := Some(now + PUNCH_DEADLINE)), now).(helloDue := Some(now + HELLO_RETRANSMIT))
    else s
  }

  function Renegotiate(c: Config, s: State, epoch: U32, nonce: Nonce, from: Endpoint, now: nat): (r: State)
    requires s.pinned.Some?
    ensures r.terminal == s.terminal && r.terminalSince == s.terminalSince
    ensures r.retires == s.retires + [Retire(s.pinned.value, now)] && r.pinned == Some(epoch)
  {
    var s2 := SendHelloAck(c, Reset(s, epoch, now), nonce, from, now);
    var s3 := s2.(keepaliveDue := None, pingDue := None, idleDue := None);
    Settle(c, RestartPunch(c, s3, now), PhaseOf(s), now)
  }

  // ---------------------------------------------------------------- events of the owner

  function StartPunch(c: Config, s: State, now: nat): (State, bool) {
    if !Active(s) || s.punchStarted then (s, false)
    else
      var s1 := s.(punchStarted := true);
      if PhaseOf(s1) == Connected then (s1, false)
      else (HelloRound(c, s1, now).(helloDue := Some(now + HELLO_RETRANSMIT), punchDue := Some(now + PUNCH_DEADLINE)), true)
  }

  predicate Due(deadline: Option<nat>, now: nat) {
    deadline.Some? && deadline.value <= now
  }

  function Poll(c: Config, s: State, now: nat): (r: State)
    ensures EndsOnce(s, r) && r.retires == s.retires && r.pinned == s.pinned
    ensures r.renegotiations == s.renegotiations && r.punchStarted == s.punchStarted
    ensures (r.punchDue == s.punchDue || r.punchDue.None?) && r.endpoint == s.endpoint
  {
    if !Active(s) then s
    else
      var s1 := ExpireProbes(s, now);
      if Due(s1.punchDue, now) then
        Fail(c, s1, if s1.gotAck || s1.sentAck then PeerHandshakeFailed else HolePunchTimeout, now)
      else if Due(s1.idleDue, now) then Fail(c, s1, TunnelDropped, now)
      else PollPeriodic(c, s1, now)
  }

  function PollPeriodic(c: Config, s: State, now: nat): (r: State)
    ensures r == s.(helloDue := r.helloDue, keepaliveDue := r.keepaliveDue, pingDue := r.pingDue, pings := r.pings,
                    nextPing := r.nextPing, nextSeq := r.nextSeq, out := r.out)
    ensures (r.helloDue.Some? <==> s.helloDue.Some?) && (r.pingDue.Some? <==> s.pingDue.Some?)
    ensures r.keepaliveDue.Some? <==> s.keepaliveDue.Some?
  {
    var s1 := if Due(s.helloDue, now) then HelloRound(c, s, now).(helloDue := Some(now + HELLO_RETRANSMIT)) else s;
    var s2 := if Due(s1.keepaliveDue, now) then SendKeepalive(c, s1, now) else s1;
    if Due(s2.pingDue, now) then SendPing(c, s2, now) else s2
  }

  function CloseByUser(c: Config, s: State, now: nat): State {
    if !Active(s) then s
    else
      var reason := if PhaseOf(s) == Connected then 0 else 1;
      var s1 := if s.endpoint.Some? then SendPacket(c, s, Close(reason), s.endpoint.value, now).0 else s;
      EnterTerminal(s1, Closed, now)
  }

  // ---------------------------------------------------------------- receiving

  datatype Gate = Stop(drop: Drop) | Go(renegotiated: bool, probe: Option<nat>)

  // Index of the first probe matching nonce and source.
  function FindProbe(probes: seq<Probe>, nonce: Nonce, from: Endpoint, i: nat): (r: Option<nat>)
    requires i <= |probes|
    ensures r.Some? ==> i <= r.value < |probes| && probes[r.value].nonce == nonce && probes[r.value].to == from
    ensures r.None? ==> forall k | i <= k < |probes| :: !(probes[k].nonce == nonce && probes[k].to == from)
    decreases |probes| - i
  {
    if i == |probes| then None
    else if probes[i].nonce == nonce && probes[i].to == from then Some(i)
    else FindProbe(probes, nonce, from, i + 1)
  }

  // Epoch and source checks, and the renegotiation they may cause.
  function EpochGate(c: Config, s: State, p: RxPacket, now: nat): (State, Gate) {
    match p.body
    case Hello(nonce, vip) =>
      if vip != c.peerVip then (s, Stop(DropVipMismatch))
      else if s.pinned.Some? && p.epoch != s.pinned.value then
        if s.lastRenegotiation.Some? && now < s.lastRenegotiation.value + MIN_RENEG_INTERVAL then (s, Stop(DropRenegRate))
        else if s.renegotiations >= MAX_RENEGOTIATIONS then (s, Stop(DropRenegLimit))
        else (Renegotiate(c, s, p.epoch, nonce, p.from, now), Go(true, None))
      else (s, Go(false, None))
    case HelloAck(nonce, vip) =>
      if vip != c.peerVip then (s, Stop(DropVipMismatch))
      else
        var s1 := ExpireProbes(s, now);
        var probe := FindProbe(s1.probes, nonce, p.from, 0);
        if probe.Some? then
          if s1.pinned != Some(p.epoch) then (s1, Stop(DropStaleEpoch)) else (s1, Go(false, probe))
        else if nonce != c.attemptNonce then (s1, Stop(DropBadNonce))
        else if s1.pinned.Some? && p.epoch != s1.pinned.value then (s1, Stop(DropStaleEpoch))
        else (s1, Go(false, None))
    case _ =>
      if s.pinned.None? then (s, Stop(DropNoEpoch))
      else if p.epoch != s.pinned.value then (s, Stop(DropStaleEpoch))
      else (s, Go(false, None))
  }

  // Window and loss accounting of an accepted packet.
  function CountAccepted(s: State, number: U32): State
    requires R.Check(s.window, number).Accepted()
  {
    var d := R.Check(s.window, number);
    var counts := s.lossBaseline.Some? && d.pktPos > s.lossBaseline.value;
    s.(window := R.Record(s.window, d), lossAccepted := s.lossAccepted + if counts then 1 else 0)
  }

  function RosterContextOf(c: Config, s: State): P.RosterContext {
    P.RosterContext(c.peerIsHost, s.lastGeneration)
  }

  function TypeCheck(c: Config, s: State, body: Body, now: nat): (r: (State, Option<Drop>))
    ensures r.0 == s.(pings := r.0.pings)
  {
    match body
    case Data(inner) =>
      if PhaseOf(s) != Connected then (s, Some(DropDataEarly))
      else
        var e := I.InnerVerdict(inner, c.peerVip, c.localVip);
        (s, if e == I.InnerOk then None else Some(DropInner(e)))
    case Pong(id) =>
      var s1 := s.(pings := LivePings(s.pings, now));
      (s1, if id in s1.pings then None else Some(DropUnmatchedPong))
    case Close(reason) => (s, if reason > 3 then Some(DropBadReason) else None)
    case Roster(payload) =>
      var r := P.DecodeRoster(payload, RosterContextOf(c, s));
      (s, if r.RosterOk? then None else Some(DropRoster(r.error)))
    case _ => (s, None)
  }

  // Epoch pinning, endpoint learning and the idle refresh, before the action of the type.
  function Admit(c: Config, s: State, p: RxPacket, probe: Option<nat>, advanced: bool, now: nat): (r: State)
    requires probe.Some? ==> probe.value < |s.probes|
    ensures r == s.(pinned := r.pinned, probes := r.probes, endpoint := r.endpoint, idleDue := r.idleDue)
  {
    var s1 := if s.pinned.None? then s.(pinned := Some(p.epoch)) else s;
    var s2 := if probe.Some? then
                s1.(probes := s1.probes[probe.value := s1.probes[probe.value].(answered := true)],
                    endpoint := if advanced then Some(p.from) else s1.endpoint)
              else if advanced && IsVerified(c, s1, p.from) then s1.(endpoint := Some(p.from))
              else s1;
    if PhaseOf(s) == Connected then s2.(idleDue := Some(now + IDLE_TIMEOUT)) else s2
  }

  // The action of the type; before is the phase the packet met.
  function Act(c: Config, s: State, p: RxPacket, probe: Option<nat>, before: Phase, now: nat): (r: State)
    requires !p.body.Close?
    ensures r == s.(gotAck := r.gotAck, sentAck := r.sentAck, budget := r.budget, budgetAt := r.budgetAt,
                    nextSeq := r.nextSeq, out := r.out, pings := r.pings, lastGeneration := r.lastGeneration, inbox := r.inbox)
    ensures r.gotAck == s.gotAck || r.sentAck == s.sentAck
    ensures (s.gotAck ==> r.gotAck) && (s.sentAck ==> r.sentAck)
  {
    match p.body
    case Hello(nonce, _) => SendHelloAck(c, s, nonce, p.from, now)
    case HelloAck(_, _) => if probe.Some? || before == Connected then s else s.(gotAck := true)
    case Ping(id) =>
      var (s1, may) := SpendFor(c, s, p.from, now);
      if may then SendPacket(c, s1, Pong(id), p.from, now).0 else s1
    case Pong(id) => s.(pings := s.pings - {id})
    case Roster(payload) =>
      var r := P.DecodeRoster(payload, RosterContextOf(c, s));
      if r.RosterOk? then s.(lastGeneration := Some(r.roster.generation)) else s
    case Data(inner) => if c.hasSink then s.(inbox := s.inbox + [inner]) else s
    case _ => s
  }

  function Effects(c: Config, s: State, p: RxPacket, probe: Option<nat>, advanced: bool, now: nat): (r: (State, Option<Drop>))
    requires probe.Some? ==> probe.value < |s.probes|
    ensures EndsOnce(s, r.0) && r.0.retires == s.retires
    ensures r.0.pinned == s.pinned || (s.pinned.None? && r.0.pinned == Some(p.epoch))
    ensures r.0.renegotiations == s.renegotiations && r.0.punchStarted == s.punchStarted
    ensures r.0.punchDue == s.punchDue || r.0.punchDue.None?
  {
    var before := PhaseOf(s);
    var s1 := Admit(c, s, p, probe, advanced, now);
    if p.body.Close? then
      (EnterTerminal(s1.(peerClose := Some(p.body.reason)), Closed, now), None)
    else
      var s2 := Act(c, s1, p, probe, before, now);
      var s3 := if probe.None? && advanced && !IsVerified(c, s, p.from) then StartPathProbe(c, s2, p.from, now) else s2;
      (Settle(c, s3, before, now), if p.body.Data? && !c.hasSink then Some(DropNoSink) else None)
  }

  function Receive(c: Config, s: State, p: RxPacket, now: nat): (State, Option<Drop>) {
    if !Active(s) then (s, Some(DropTerminalState))
    else
      var (s1, gate) := EpochGate(c, s, p, now);
      if gate.Stop? then (s1, Some(gate.drop)) else AfterGate(c, s1, p, gate.renegotiated, gate.probe, now)
  }

  function AfterGate(c: Config, s: State, p: RxPacket, renegotiated: bool, probe: Option<nat>, now: nat): (r: (State, Option<Drop>))
    requires probe.Some? ==> probe.value < |s.probes|
    ensures EndsOnce(s, r.0) && r.0.retires == s.retires
    ensures r.0.pinned == s.pinned || (s.pinned.None? && r.0.pinned == Some(p.epoch))
    ensures r.0.renegotiations == s.renegotiations && r.0.punchStarted == s.punchStarted
    ensures r.0.punchDue == s.punchDue || r.0.punchDue.None?
  {
    var d := R.Check(s.window, p.number);
    if d.verdict.Duplicate? then (s, Some(DropDuplicate))
    else if d.verdict.TooOld? then (s, Some(DropTooOld))
    else
      var (s2, bad) := TypeCheck(c, CountAccepted(s, p.number), p.body, now);
      if bad.Some? then (s2, bad)
      else if renegotiated then (if IsVerified(c, s2, p.from) then s2 else StartPathProbe(c, s2, p.from, now), None)
      else Effects(c, s2, p, probe, d.Advanced(), now)
  }

  // ---------------------------------------------------------------- runs

  datatype Event =
    | EvReceive(packet: RxPacket, now: nat)
    | EvPoll(now: nat)
    | EvStartPunch(now: nat)
    | EvClose(now: nat)
    | EvSendData(inner: seq<Byte>, now: nat)
    | EvSendRoster(payload: seq<Byte>, now: nat)

  function Step(c: Config, s: State, e: Event): State {
    match e
    case EvReceive(p, now) => Receive(c, s, p, now).0
    case EvPoll(now) => Poll(c, s, now)
    case EvStartPunch(now) => StartPunch(c, s, now).0
    case EvClose(now) => CloseByUser(c, s, now)
    case EvSendData(inner, now) => SendData(c, s, inner, now).0
    case EvSendRoster(payload, now) => SendToPeer(c, s, Roster(payload), now)
  }

  function Run(c: Config, s: State, events: seq<Event>): State {
    if events == [] then s else Step(c, Run(c, s, events[..|events| - 1]), events[|events| - 1])
  }

  // The clock never goes back.
  predicate Timed(start: nat, events: seq<Event>) {
    && (forall i | 0 <= i < |events| :: start <= events[i].now)
    && (forall i, j | 0 <= i < j < |events| :: events[i].now <= events[j].now)
  }
}
