/**
 The table of sessions and the routes to them (client/src/tunnel/tunnel.cpp, router.cpp), as
 functions on a value.  Sessions stand in the table by rising peer id and are values; a route slot
 names the peer whose session it holds.
 */
module TunnelSpec {
  import opened Wrappers
  import S = SessionSpec
  import E = Epochs
  import Bytes

  const MAX_PEERS := 5
  const MAX_RETAINED := 4
  const TERMINAL_TTL := 120000
  const VIRTUAL_NETWORK := 0x0A640000
  const MAX_INNER := 1452

  type PeerId = U32

  datatype Entry = Entry(id: PeerId, config: S.Config, session: S.State, epochRetired: bool, nonceRetired: bool)

  // added and ended are history: everything ever put on the list of retired epochs, and the nonces
  // of the attempts that ended since ended attempts were last registered.
  datatype State = State(
    sessions: seq<Entry>, routes: seq<Option<PeerId>>, retired: seq<E.Entry>, retiredNonces: seq<E.Entry>,
    endedNonces: seq<S.Nonce>, localVip: Option<U32>, added: seq<E.Entry>, ended: set<S.Nonce>)

  function Initial(): State {
    State([], [None, None, None, None, None, None], [], [], [], None, [], {})
  }

  // ---------------------------------------------------------------- routes

  // 1 to 5 for 10.100.0.1 to 10.100.0.5.
  function RouteIndex(vip: U32): (r: Option<nat>)
    ensures r.Some? ==> 1 <= r.value <= MAX_PEERS && vip == VIRTUAL_NETWORK + r.value
  {
    if vip - vip % 0x100 != VIRTUAL_NETWORK then None
    else
      var octet := vip % 0x100;
      if octet < 1 || octet > MAX_PEERS then None else Some(octet)
  }

  function Lookup(routes: seq<Option<PeerId>>, vip: U32): Option<PeerId>
    requires |routes| == MAX_PEERS + 1
  {
    var k := RouteIndex(vip);
    if k.Some? then routes[k.value] else None
  }

  function Released(routes: seq<Option<PeerId>>, id: PeerId): seq<Option<PeerId>> {
    seq(|routes|, k requires 0 <= k < |routes| => if routes[k] == Some(id) then None else routes[k])
  }

  // ---------------------------------------------------------------- the table

  function Find(sessions: seq<Entry>, id: PeerId, i: nat): (r: Option<nat>)
    requires i <= |sessions|
    ensures r.Some? ==> i <= r.value < |sessions| && sessions[r.value].id == id
    ensures r.None? ==> forall k | i <= k < |sessions| :: sessions[k].id != id
    decreases |sessions| - i
  {
    if i == |sessions| then None else if sessions[i].id == id then Some(i) else Find(sessions, id, i + 1)
  }

  function Insert(sessions: seq<Entry>, e: Entry): (r: seq<Entry>)
    ensures forall x :: x in r <==> x == e || x in sessions
  {
    if sessions == [] || e.id < sessions[0].id then [e] + sessions
    else [sessions[0]] + Insert(sessions[1..], e)
  }

  function TerminalCount(sessions: seq<Entry>): nat {
    if sessions == [] then 0 else TerminalCount(sessions[1..]) + if S.Active(sessions[0].session) then 0 else 1
  }

  // The terminal session retained longest; the first of several.
  function Oldest(sessions: seq<Entry>, i: nat, best: Option<nat>): (r: Option<nat>)
    requires i <= |sessions| && (best.Some? ==> best.value < |sessions| && sessions[best.value].session.terminalSince.Some?)
    ensures r.Some? ==> r.value < |sessions| && sessions[r.value].session.terminalSince.Some?
    decreases |sessions| - i
  {
    if i == |sessions| then best
    else
      var since := sessions[i].session.terminalSince;
      var better := since.Some? && (best.None? || since.value < sessions[best.value].session.terminalSince.value);
      Oldest(sessions, i + 1, if better then Some(i) else best)
  }

  // An attempt whose nonce is not registered yet is remembered for the next one.
  function Erase(t: State, i: nat): (r: State)
    requires i < |t.sessions|
    ensures |r.sessions| == |t.sessions| - 1
  {
    var e := t.sessions[i];
    t.(sessions := t.sessions[..i] + t.sessions[i + 1..],
       endedNonces := if e.nonceRetired then t.endedNonces else t.endedNonces + [e.config.attemptNonce])
  }

  function EnforceCap(t: State): State
    decreases |t.sessions|
  {
    if TerminalCount(t.sessions) <= MAX_RETAINED then t
    else
      var oldest := Oldest(t.sessions, 0, None);
      if oldest.None? then t else EnforceCap(Erase(t, oldest.value))
  }

  function RetiresOf(retires: seq<S.Retire>): seq<E.Entry> {
    seq(|retires|, i requires 0 <= i < |retires| => E.Entry(retires[i].epoch, retires[i].at))
  }

  // What the session's calls out of it do here: epochs it abandons are retired, and a session that
  // ends gives up its route.
  function Update(t: State, i: nat, s: S.State): (r: State)
    requires i < |t.sessions|
    ensures |r.sessions| == |t.sessions|
  {
    var e := t.sessions[i];
    var over := S.Active(e.session) && !S.Active(s);
    var more := if |e.session.retires| <= |s.retires| then RetiresOf(s.retires[|e.session.retires|..]) else [];
    t.(sessions := t.sessions[i := e.(session := s)],
       routes := if over then Released(t.routes, e.id) else t.routes,
       retired := E.AddAll(t.retired, more), added := t.added + more,
       ended := if over then t.ended + {e.config.attemptNonce} else t.ended)
  }

  // ---------------------------------------------------------------- a new attempt

  // Registers an ended attempt once: the peer's epoch, and our nonce.
  function RegisterOne(t: State, i: nat, now: nat): (r: State)
    requires i < |t.sessions|
    ensures |r.sessions| == |t.sessions|
  {
    var e := t.sessions[i];
    var more := if !e.epochRetired && e.session.pinned.Some? then [E.Entry(e.session.pinned.value, now)] else [];
    var nonces := if e.nonceRetired then t.retiredNonces
                  else E.AddNonce(t.retiredNonces, E.Entry(e.config.attemptNonce, now));
    t.(sessions := t.sessions[i := e.(epochRetired := true, nonceRetired := true)],
       retired := E.AddAll(t.retired, more), added := t.added + more, retiredNonces := nonces)
  }

  function RegisterEnded(t: State, i: nat, now: nat): (r: State)
    requires i <= |t.sessions|
    ensures |r.sessions| == |t.sessions|
    decreases |t.sessions| - i
  {
    if i == |t.sessions| then t
    else RegisterEnded(if S.Active(t.sessions[i].session) then t else RegisterOne(t, i, now), i + 1, now)
  }

  function AddNonces(retired: seq<E.Entry>, nonces: seq<S.Nonce>, now: nat): seq<E.Entry>
    decreases |nonces|
  {
    if nonces == [] then retired else AddNonces(E.AddNonce(retired, E.Entry(nonces[0], now)), nonces[1..], now)
  }

  function Register(t: State, now: nat): State {
    var t1 := RegisterEnded(t, 0, now);
    t1.(retiredNonces := AddNonces(t1.retiredNonces, t1.endedNonces, now), endedNonces := [], ended := {})
  }

  datatype NewSession = NewSession(
    localVip: U32, id: PeerId, peerVip: U32, candidates: seq<Endpoint>, peerIsHost: bool, hasSink: bool,
    net: nat -> bool, probeDraws: nat -> Option<S.Nonce>)

  predicate MayCreate(t: State, q: NewSession)
    requires |t.routes| == MAX_PEERS + 1
  {
    var i := Find(t.sessions, q.id, 0);
    && !(i.Some? && S.Active(t.sessions[i.value].session))
    && RouteIndex(q.peerVip).Some? && q.peerVip != q.localVip && Lookup(t.routes, q.peerVip).None?
  }

  function NewEntry(q: NewSession, nonce: S.Nonce, now: nat): Entry {
    Entry(q.id, S.Config(q.localVip, q.peerVip, q.candidates, q.peerIsHost, nonce, q.hasSink, q.net, q.probeDraws),
          S.Initial(now), false, false)
  }

  function Without(sessions: seq<Entry>, id: PeerId): (r: seq<Entry>)
    ensures forall x | x in r :: x in sessions
  {
    var i := Find(sessions, id, 0);
    if i.Some? then sessions[..i.value] + sessions[i.value + 1..] else sessions
  }

  // The draws of the epoch and of the nonce come from outside.
  function CreateSession(t: State, q: NewSession, epochs: seq<Option<U32>>, nonces: seq<Option<S.Nonce>>, now: nat): (State, bool)
    requires |t.routes| == MAX_PEERS + 1
  {
    if !MayCreate(t, q) then (t, false)
    else
      var t1 := Register(t, now);
      var epoch := E.DrawEpoch(epochs);
      var nonce := E.DrawNonce(t1.retiredNonces, now, nonces);
      if epoch.None? || nonce.None? then (t1, false)
      else
        (t1.(sessions := Insert(Without(t1.sessions, q.id), NewEntry(q, nonce.value, now)),
             routes := if RouteIndex(q.peerVip).Some? && RouteIndex(q.peerVip).value < |t1.routes|
                       then t1.routes[RouteIndex(q.peerVip).value := Some(q.id)] else t1.routes,
             localVip := Some(q.localVip)),
         true)
  }

  // ---------------------------------------------------------------- the other calls

  datatype Outcome = UnknownPeer | RetiredEpoch | Terminal | Given

  // The header of the datagram named the peer.
  function OnDatagram(t: State, id: PeerId, p: S.RxPacket, now: nat): (State, Outcome) {
    var i := Find(t.sessions, id, 0);
    if i.None? then (t, UnknownPeer)
    else
      var e := t.sessions[i.value];
      if E.Contains(t.retired, p.epoch, now) then (t, RetiredEpoch)
      else if !S.Active(e.session) then (t, Terminal)
      else (EnforceCap(Update(t, i.value, S.Receive(e.config, e.session, p, now).0)), Given)
  }

  function PollFrom(t: State, i: nat, now: nat): (r: State)
    requires i <= |t.sessions|
    ensures |r.sessions| == |t.sessions|
    decreases |t.sessions| - i
  {
    if i == |t.sessions| then t
    else PollFrom(Update(t, i, S.Poll(t.sessions[i].config, t.sessions[i].session, now)), i + 1, now)
  }

  // Ended sessions are kept for two minutes.
  function ExpireFrom(t: State, i: nat, now: nat): State
    requires i <= |t.sessions|
    decreases |t.sessions| - i
  {
    if i == |t.sessions| then t
    else
      var since := t.sessions[i].session.terminalSince;
      if since.Some? && since.value + TERMINAL_TTL <= now then ExpireFrom(Erase(t, i), i, now)
      else ExpireFrom(t, i + 1, now)
  }

  function RunTimers(t: State, now: nat): State {
    EnforceCap(ExpireFrom(PollFrom(t, 0, now), 0, now))
  }

  function CloseFrom(t: State, i: nat, now: nat): (r: State)
    requires i <= |t.sessions|
    ensures |r.sessions| == |t.sessions|
    decreases |t.sessions| - i
  {
    if i == |t.sessions| then t
    else CloseFrom(Update(t, i, S.CloseByUser(t.sessions[i].config, t.sessions[i].session, now)), i + 1, now)
  }

  function CloseAll(t: State, now: nat): State {
    EnforceCap(CloseFrom(t, 0, now))
  }

  function EraseAll(t: State): (r: State)
    ensures r.sessions == []
    decreases |t.sessions|
  {
    if t.sessions == [] then t else EraseAll(Erase(t, 0))
  }

  function LeaveRoom(t: State, now: nat): State {
    EraseAll(CloseFrom(t, 0, now)).(localVip := None)
  }

  // The owner starts the punch on the session itself.
  function StartPunch(t: State, id: PeerId, now: nat): State {
    var i := Find(t.sessions, id, 0);
    if i.None? then t
    else Update(t, i.value, S.StartPunch(t.sessions[i.value].config, t.sessions[i.value].session, now).0)
  }

  // ---------------------------------------------------------------- sending inner packets

  datatype Tx =
    | TooShort | NotIpv4 | Oversize | BadSource | NotUnicast | NoRoute | NotConnected | SendFailed | Sent

  predicate IsNotUnicast(destination: U32) {
    destination / 0x1000_0000 == 0xE || destination == 0xFFFF_FFFF || destination == VIRTUAL_NETWORK + 0xFF
  }

  function SendData(t: State, inner: seq<Byte>, now: nat): (State, Tx)
    requires |t.routes| == MAX_PEERS + 1
  {
    if |inner| < 20 then (t, TooShort)
    else if inner[0] / 16 != 4 then (t, NotIpv4)
    else if |inner| > MAX_INNER then (t, Oversize)
    else if t.localVip != Some(Bytes.Read32(inner, 12)) then (t, BadSource)
    else if IsNotUnicast(Bytes.Read32(inner, 16)) then (t, NotUnicast)
    else
      var owner := Lookup(t.routes, Bytes.Read32(inner, 16));
      var i := if owner.Some? then Find(t.sessions, owner.value, 0) else None;
      if i.None? then (t, NoRoute)
      else
        var e := t.sessions[i.value];
        if S.PhaseOf(e.session) != S.Connected then (t, NotConnected)
        else
          var (s, taken) := S.SendData(e.config, e.session, inner, now);
          (Update(t, i.value, s), if taken then Sent else SendFailed)
  }

  // ---------------------------------------------------------------- runs

  datatype Event =
    | Create(request: NewSession, epochs: seq<Option<U32>>, nonces: seq<Option<S.Nonce>>, now: nat)
    | Datagram(id: PeerId, packet: S.RxPacket, now: nat)
    | Timers(now: nat)
    | Punch(id: PeerId, now: nat)
    | SendInner(inner: seq<Byte>, now: nat)
    | Close(now: nat)
    | Leave(now: nat)

  function Step(t: State, e: Event): State
    requires |t.routes| == MAX_PEERS + 1
  {
    match e
    case Create(q, epochs, nonces, now) => CreateSession(t, q, epochs, nonces, now).0
    case Datagram(id, p, now) => OnDatagram(t, id, p, now).0
    case Timers(now) => RunTimers(t, now)
    case Punch(id, now) => StartPunch(t, id, now)
    case SendInner(inner, now) => SendData(t, inner, now).0
    case Close(now) => CloseAll(t, now)
    case Leave(now) => LeaveRoom(t, now)
  }
}
