/**
 The operations of the room service (control-server/controlplane/ops.py) as requests that run
 side by side.  One step of a request is one call to the store and the code up to the next
 call; between two steps any other request may write, so what a request has read may be stale.
 */
module RoomService {
  import opened Wrappers
  import opened RoomTable

  const MAX_ROOM_ID_ATTEMPTS := 4
  const MAX_PEER_ID_ATTEMPTS := 4
  const POOL_SIZE := 4

  // ---------------------------------------------------------------- what a query returns

  // The items of one room as one query finds them.
  datatype RoomView = RoomView(room: Option<Room>, peers: map<PeerId, Peer>, names: map<string, PeerId>, pairs: map<PairAt, Pair>)

  function RoomItem(t: Table, room: RoomId): Option<Room> {
    if room in t.rooms then Some(t.rooms[room]) else None
  }

  function Query(t: Table, room: RoomId): RoomView {
    RoomView(
      RoomItem(t, room),
      map at | at in t.peers && at.room == room :: at.id := t.peers[at],
      map n | n in t.names && n.room == room :: n.key := t.names[n],
      map q | q in t.pairs && q.room == room :: t.pairs[q])
  }

  // The keys of the NAME# items read whose owner is this peer.
  function KeysOf(v: RoomView, id: PeerId): set<string> {
    set k | k in v.names && v.names[k] == id
  }

  function ExpiresIn(expiresAt: int, now: int): int {
    var s := -((now - expiresAt) / 1000);
    if s > 0 then s else 0
  }

  datatype Element = Element(id: PeerId, vip: Vip, name: string, ready: bool, candidates: seq<Endpoint>)

  function ElementOf(v: RoomView, room: RoomId, caller: PeerId, id: PeerId): Element
    requires id in v.peers
  {
    var p := v.peers[id];
    var ready := PairKey(room, caller, id) in v.pairs;
    Element(id, p.vip, p.name, ready, if ready then p.candidates else [])
  }

  // The order in which a query lists the peers is the store's.
  ghost predicate Lists(order: seq<PeerId>, v: RoomView) {
    |order| == |v.peers| && forall id :: id in order <==> id in v.peers
  }

  function Elements(v: RoomView, room: RoomId, caller: PeerId, order: seq<PeerId>): seq<Element>
    requires forall id | id in order :: id in v.peers
  {
    if order == [] then []
    else (if order[0] == caller then [] else [ElementOf(v, room, caller, order[0])]) + Elements(v, room, caller, order[1..])
  }

  // ---------------------------------------------------------------- requests

  datatype ErrorCode = InternalError | RoomNotFound | RoomExpired | NameIsTaken | RoomFull | Unauthorized | BadRequest

  datatype Reply =
    | Issued(room: RoomId, id: PeerId, token: Token, vip: Vip, expiresIn: int)
    | Accepted(count: nat)
    | Peers(elements: seq<Element>)
    | Report(released: seq<PeerId>, confirmed: seq<PeerId>, elements: seq<Element>)
    | Error(code: ErrorCode)

  // A host report under way: what it read first and what is still to do, in this order.
  datatype Work = Work(
    room: RoomId, host: PeerId, now: int, view: RoomView,
    departed: seq<PeerId>, reclaim: seq<PeerId>, confirm: seq<PeerId>,
    skip: set<PeerId>, released: seq<PeerId>, confirmed: seq<PeerId>)

  datatype Request =
    | Create(nonce: Nonce, name: string, now: int)
    | Creating(nonce: Nonce, name: string, now: int, id: PeerId, token: Token, attempts: nat)
    | Join(nonce: Nonce, name: string, room: RoomId, now: int)
    | JoinReadRoom(nonce: Nonce, name: string, room: RoomId, now: int)
    | Joining(nonce: Nonce, name: string, room: RoomId, now: int, id: PeerId, token: Token, index: nat, drawn: nat, expiresAt: int)
    | JoinGone(room: RoomId)
    | Reread(nonce: Nonce, want: Option<RoomId>, now: int)
    | Replay(nonce: Nonce, at: PeerAt, now: int)
    | Register(room: RoomId, id: PeerId, token: Token, candidates: seq<Endpoint>, now: int)
    | Registering(room: RoomId, id: PeerId, token: Token, candidates: seq<Endpoint>)
    | GetPeers(room: RoomId, id: PeerId, token: Token, now: int)
    | HostReport(room: RoomId, id: PeerId, token: Token, departed: seq<PeerId>, confirm: seq<PeerId>, now: int)
    | Reporting(work: Work)
    | Renewing(work: Work)
    | Reading(work: Work)
    | Done(reply: Reply)

  // What the outside supplies to one step: the fate of its write, the draws, the clocks, the order of a query.
  datatype Input = Input(fate: Fate, id: PeerId, token: Token, room: RoomId, clock: Pair, order: seq<PeerId>)

  predicate IsStart(q: Request) {
    q.Create? || q.Join? || q.Register? || q.GetPeers? || q.HostReport?
  }

  function Fail(code: ErrorCode): Request {
    Done(Error(code))
  }

  // The checks that come first after reading a room: it is there and not expired.
  function RoomProblem(room: Option<Room>, now: int): Option<ErrorCode> {
    if room.None? then Some(RoomNotFound)
    else if now < room.value.expiresAt then None
    else Some(RoomExpired)
  }

  predicate Authentic(v: RoomView, id: PeerId, token: Token) {
    id in v.peers && v.peers[id].token == token
  }

  // ---------------------------------------------------------------- create and join

  // want is the room of a join; a nonce of another room is refused.
  function AfterNonce(found: PeerAt, nonce: Nonce, want: Option<RoomId>, now: int): Request {
    if want.Some? && found.room != want.value then Fail(BadRequest) else Replay(nonce, found, now)
  }

  function CreateReads(t: Table, q: Request, e: Input): Request
    requires q.Create?
  {
    if q.nonce in t.nonces then AfterNonce(t.nonces[q.nonce], q.nonce, None, q.now)
    else Creating(q.nonce, q.name, q.now, e.id, e.token, 0)
  }

  function CreateClaim(q: Request, room: RoomId): Claim
    requires q.Creating?
  {
    Claim(room, HOST_VIP, q.id, q.token, q.nonce, q.now, q.name)
  }

  function CreateStep(t: Table, q: Request, e: Input): (Table, Request)
    requires q.Creating?
  {
    var (t', r) := CreateRoom(t, CreateClaim(q, e.room), e.fate);
    (t', AfterCreate(q, CreateClaim(q, e.room), r))
  }

  function AfterCreate(q: Request, c: Claim, r: WriteResult): Request
    requires q.Creating?
  {
    match r
    case Created => Done(Issued(c.room, c.id, c.token, c.vip, ExpiresIn(c.now + ROOM_LEASE_MS, c.now)))
    case NonceExists => Reread(q.nonce, None, q.now)
    case RoomIdTaken =>
      if q.attempts + 1 < MAX_ROOM_ID_ATTEMPTS then q.(attempts := q.attempts + 1) else Fail(InternalError)
    case _ => Fail(InternalError)
  }

  function PoolVip(index: nat): Vip {
    HOST_VIP + 1 + index
  }

  function JoinClaim(q: Request): Claim
    requires q.Joining?
  {
    Claim(q.room, PoolVip(q.index), q.id, q.token, q.nonce, q.now, q.name)
  }

  // The reads before and after the writes of a join.
  function JoinReads(t: Table, q: Request, e: Input): Request
    requires q.Join? || q.JoinReadRoom? || q.JoinGone?
  {
    match q
    case Join(nonce, name, room, now) =>
      if nonce in t.nonces then AfterNonce(t.nonces[nonce], nonce, Some(room), now) else JoinReadRoom(nonce, name, room, now)
    case JoinReadRoom(nonce, name, room, now) =>
      var problem := RoomProblem(RoomItem(t, room), now);
      if problem.Some? then Fail(problem.value)
      else Joining(nonce, name, room, now, e.id, e.token, 0, 1, t.rooms[room].expiresAt)
    case JoinGone(room) => Fail(if room in t.rooms then RoomExpired else RoomNotFound)
  }

  function JoinStep(t: Table, q: Request, e: Input): (Table, Request)
    requires q.Joining?
  {
    var (t', r) := JoinRoom(t, JoinClaim(q), e.fate);
    (t', AfterJoin(q, r, e.id))
  }

  // The next address only when this one is taken; another peer id only when that one is.
  function AfterJoin(q: Request, r: WriteResult, redraw: PeerId): Request
    requires q.Joining?
  {
    match r
    case Joined => Done(Issued(q.room, q.id, q.token, PoolVip(q.index), ExpiresIn(q.expiresAt, q.now)))
    case NonceExists => Reread(q.nonce, Some(q.room), q.now)
    case RoomGone => JoinGone(q.room)
    case NameTaken => Fail(NameIsTaken)
    case VipTaken => if q.index + 1 < POOL_SIZE then q.(index := q.index + 1) else Fail(RoomFull)
    case PeerIdTaken =>
      if q.drawn + 1 > MAX_PEER_ID_ATTEMPTS then Fail(InternalError) else q.(drawn := q.drawn + 1, id := redraw)
    case _ => Fail(InternalError)
  }

  function ReplayStep(t: Table, q: Request): Request
    requires q.Reread? || q.Replay?
  {
    match q
    case Reread(nonce, want, now) =>
      if nonce in t.nonces then AfterNonce(t.nonces[nonce], nonce, want, now) else Fail(InternalError)
    case Replay(nonce, at, now) =>
      var v := Query(t, at.room);
      var problem := RoomProblem(v.room, now);
      if problem.Some? then Fail(problem.value)
      else if at.id !in v.peers then Fail(InternalError)
      else
        var p := v.peers[at.id];
        Done(Issued(at.room, at.id, p.token, p.vip, ExpiresIn(v.room.value.expiresAt, now)))
  }

  // ---------------------------------------------------------------- register and get_peers

  function RegisterReads(t: Table, q: Request): Request
    requires q.Register?
  {
    var v := Query(t, q.room);
    var problem := RoomProblem(v.room, q.now);
    if q.candidates == [] then Fail(BadRequest)
    else if problem.Some? then Fail(problem.value)
    else if !Authentic(v, q.id, q.token) then Fail(Unauthorized)
    else Registering(q.room, q.id, q.token, q.candidates)
  }

  function RegisterStep(t: Table, q: Request, e: Input): (Table, Request)
    requires q.Registering?
  {
    var (t', r) := RegisterCandidates(t, q.room, q.id, q.token, q.candidates, e.fate);
    (t', match r
         case Written => Done(Accepted(|q.candidates|))
         case Refused => Fail(Unauthorized)
         case _ => Fail(InternalError))
  }

  // The host sees everyone else; everyone else sees the host.
  function GetPeersStep(t: Table, q: Request, e: Input): Request
    requires q.GetPeers? && Lists(e.order, Query(t, q.room))
  {
    var v := Query(t, q.room);
    var problem := RoomProblem(v.room, q.now);
    if problem.Some? then Fail(problem.value)
    else if !Authentic(v, q.id, q.token) then Fail(Unauthorized)
    else
      var host := v.room.value.host;
      if q.id == host then Done(Peers(Elements(v, q.room, q.id, e.order)))
      else if host !in v.peers then Fail(InternalError)
      else Done(Peers([ElementOf(v, q.room, q.id, host)]))
  }

  // ---------------------------------------------------------------- host_report

  function ReportStart(t: Table, q: Request, e: Input): Request
    requires q.HostReport? && Lists(e.order, Query(t, q.room))
  {
    var v := Query(t, q.room);
    var problem := RoomProblem(v.room, q.now);
    if problem.Some? then Fail(problem.value)
    else if q.id != v.room.value.host || !Authentic(v, q.id, q.token) then Fail(Unauthorized)
    else
      Reporting(Work(q.room, q.id, q.now, v, q.departed, e.order, q.confirm, set id | id in q.departed, [], []))
  }

  predicate ToReclaim(w: Work, id: PeerId) {
    && id in w.view.peers && id != w.host && id !in w.skip
    && w.view.peers[id].candidates == []
    && w.view.peers[id].joinedAt + JOIN_REGISTER_GRACE_MS <= w.now
  }

  predicate ToConfirm(w: Work, id: PeerId) {
    && id !in w.skip && id != w.host
    && PairKey(w.room, w.host, id) !in w.view.pairs
    && w.host in w.view.peers && w.view.peers[w.host].candidates != []
    && id in w.view.peers && w.view.peers[id].candidates != []
  }

  function ReleaseStep(t: Table, w: Work, e: Input): (Table, Request)
    requires w.departed != []
  {
    var id := w.departed[0];
    var rest := w.(departed := w.departed[1..]);
    if id == w.host || id !in w.view.peers then (t, Reporting(rest))
    else
      var p := w.view.peers[id];
      var (t', r) := ReleasePeer(t, w.room, id, p.vip, w.host, p.nonce, KeysOf(w.view, id), e.fate);
      (t', if r == Internal then Fail(InternalError)
           else Reporting(if r == Written then rest.(released := w.released + [id]) else rest))
  }

  function ReclaimStep(t: Table, w: Work, e: Input): (Table, Request)
    requires w.reclaim != []
  {
    var id := w.reclaim[0];
    var rest := w.(reclaim := w.reclaim[1..]);
    if !ToReclaim(w, id) then (t, Reporting(rest))
    else
      var p := w.view.peers[id];
      var (t', r) := ReclaimPeer(t, w.room, id, p.vip, p.nonce, w.now, KeysOf(w.view, id), e.fate);
      (t', if r == Internal then Fail(InternalError)
           else Reporting(if r == Written then rest.(released := w.released + [id], skip := w.skip + {id}) else rest))
  }

  function ConfirmStep(t: Table, w: Work, e: Input): (Table, Request)
    requires w.confirm != []
  {
    var id := w.confirm[0];
    var rest := w.(confirm := w.confirm[1..]);
    if !ToConfirm(w, id) then (t, Reporting(rest))
    else
      var (t', r) := ConfirmPair(t, w.room, w.host, id, e.clock, e.fate);
      (t', if r == Internal then Fail(InternalError)
           else Reporting(if r == Confirmed then rest.(confirmed := w.confirmed + [id]) else rest))
  }

  function RenewStep(t: Table, w: Work, e: Input): (Table, Request) {
    var (t', r) := Renew(t, w.room, w.now, e.fate);
    (t', if r == Written then Reading(w) else Fail(if r == Refused then RoomExpired else InternalError))
  }

  function ReportStep(t: Table, w: Work, e: Input): (Table, Request) {
    if w.departed != [] then ReleaseStep(t, w, e)
    else if w.reclaim != [] then ReclaimStep(t, w, e)
    else if w.confirm != [] then ConfirmStep(t, w, e)
    else (t, Renewing(w))
  }

  function ReadBack(t: Table, w: Work, e: Input): Request
    requires Lists(e.order, Query(t, w.room))
  {
    var v := Query(t, w.room);
    if v.room.None? then Fail(InternalError)
    else Done(Report(w.released, w.confirmed, Elements(v, w.room, w.host, e.order)))
  }

  // ---------------------------------------------------------------- one step of any request

  ghost predicate InputFits(t: Table, q: Request, e: Input) {
    match q
    case GetPeers(room, _, _, _) => Lists(e.order, Query(t, room))
    case HostReport(room, _, _, _, _, _) => Lists(e.order, Query(t, room))
    case Reading(w) => Lists(e.order, Query(t, w.room))
    case _ => true
  }

  function Step(t: Table, q: Request, e: Input): (Table, Request)
    requires InputFits(t, q, e)
  {
    match q
    case Create(_, _, _) => (t, CreateReads(t, q, e))
    case Creating(_, _, _, _, _, _) => CreateStep(t, q, e)
    case Join(_, _, _, _) => (t, JoinReads(t, q, e))
    case JoinReadRoom(_, _, _, _) => (t, JoinReads(t, q, e))
    case Joining(_, _, _, _, _, _, _, _, _) => JoinStep(t, q, e)
    case JoinGone(_) => (t, JoinReads(t, q, e))
    case Reread(_, _, _) => (t, ReplayStep(t, q))
    case Replay(_, _, _) => (t, ReplayStep(t, q))
    case Register(_, _, _, _, _) => (t, RegisterReads(t, q))
    case Registering(_, _, _, _) => RegisterStep(t, q, e)
    case GetPeers(_, _, _, _) => (t, GetPeersStep(t, q, e))
    case HostReport(_, _, _, _, _, _) => (t, ReportStart(t, q, e))
    case Reporting(w) => ReportStep(t, w, e)
    case Renewing(w) => RenewStep(t, w, e)
    case Reading(w) => (t, ReadBack(t, w, e))
    case Done(_) => (t, q)
  }

  // Steps a request can still take; any request ends however the others interleave with it.
  function Fuel(q: Request): nat {
    match q
    case Create(_, _, _) => 10
    case Creating(_, _, _, _, _, attempts) => 3 + (if attempts <= MAX_ROOM_ID_ATTEMPTS then MAX_ROOM_ID_ATTEMPTS - attempts else 0)
    case Join(_, _, _, _) => 13
    case JoinReadRoom(_, _, _, _) => 12
    case Joining(_, _, _, _, _, _, index, drawn, _) =>
      3 + (if index <= POOL_SIZE then POOL_SIZE - index else 0) + (if drawn <= MAX_PEER_ID_ATTEMPTS then MAX_PEER_ID_ATTEMPTS - drawn else 0)
    case JoinGone(_) => 1
    case Reread(_, _, _) => 2
    case Replay(_, _, _) => 1
    case Register(_, _, _, _, _) => 2
    case Registering(_, _, _, _) => 1
    case GetPeers(_, _, _, _) => 1
    case HostReport(_, _, _, _, _, _) => 0
    case Reporting(w) => 3 + |w.departed| + |w.reclaim| + |w.confirm|
    case Renewing(_) => 2
    case Reading(_) => 1
    case Done(_) => 0
  }

  lemma ReadsUseFuel(t: Table, q: Request, e: Input)
    requires q.Create? || q.Join? || q.JoinReadRoom? || q.JoinGone?
    ensures q.Create? ==> Fuel(CreateReads(t, q, e)) < Fuel(q)
    ensures !q.Create? ==> Fuel(JoinReads(t, q, e)) < Fuel(q)
  {
  }

  lemma AfterCreateUsesFuel(q: Request, c: Claim, r: WriteResult)
    requires q.Creating?
    ensures Fuel(AfterCreate(q, c, r)) < Fuel(q)
  {
  }

  lemma AfterJoinUsesFuel(q: Request, r: WriteResult, redraw: PeerId)
    requires q.Joining?
    ensures Fuel(AfterJoin(q, r, redraw)) < Fuel(q)
  {
  }

  lemma ReplayUsesFuel(t: Table, q: Request)
    requires q.Reread? || q.Replay?
    ensures Fuel(ReplayStep(t, q)) < Fuel(q)
  {
    hide Query;
  }

  lemma RegisterReadsUseFuel(t: Table, q: Request)
    requires q.Register?
    ensures Fuel(RegisterReads(t, q)) < Fuel(q)
  {
    hide Query;
  }

  lemma GetPeersUsesFuel(t: Table, q: Request, e: Input)
    requires q.GetPeers? && Lists(e.order, Query(t, q.room))
    ensures Fuel(GetPeersStep(t, q, e)) < Fuel(q)
  {
    hide Query, Elements;
  }

  lemma ReadBackUsesFuel(t: Table, w: Work, e: Input)
    requires Lists(e.order, Query(t, w.room))
    ensures Fuel(ReadBack(t, w, e)) < Fuel(Reading(w))
  {
    hide Query, Elements;
  }

  lemma LastWritesUseFuel(t: Table, q: Request, e: Input)
    requires q.Registering? || q.Renewing?
    ensures q.Registering? ==> Fuel(RegisterStep(t, q, e).1) < Fuel(q)
    ensures q.Renewing? ==> Fuel(RenewStep(t, q.work, e).1) < Fuel(q)
  {
    hide RegisterCandidates, Renew;
  }

  lemma ReportStartsWithin(t: Table, q: Request, e: Input)
    requires InputFits(t, q, e) && q.HostReport?
    ensures Fuel(ReportStart(t, q, e)) <= 3 + |q.departed| + |Query(t, q.room).peers| + |q.confirm|
  {
    hide Query;
  }

  lemma ReportUsesFuel(t: Table, w: Work, e: Input)
    ensures Fuel(ReportStep(t, w, e).1) < Fuel(Reporting(w))
  {
  }

  // A request ends within these many steps of its own, however others interleave with it.  Only the
  // first step of a host report sets work up, as much as it was given and as it reads.
  lemma StepUsesFuel(t: Table, q: Request, e: Input)
    requires InputFits(t, q, e) && !q.Done?
    ensures !q.HostReport? ==> Fuel(Step(t, q, e).1) < Fuel(q)
    ensures q.HostReport? ==> Fuel(Step(t, q, e).1) <= 3 + |q.departed| + |Query(t, q.room).peers| + |q.confirm|
  {
    hide CreateReads, JoinReads, ReplayStep, RegisterReads, RegisterStep, GetPeersStep, ReportStart, ReportStep, RenewStep;
    hide ReadBack, CreateRoom, JoinRoom, AfterCreate, AfterJoin, Fuel, Query;
    match q
    case Create(_, _, _) => ReadsUseFuel(t, q, e);
    case Creating(_, _, _, _, _, _) =>
      AfterCreateUsesFuel(q, CreateClaim(q, e.room), CreateRoom(t, CreateClaim(q, e.room), e.fate).1);
    case Join(_, _, _, _) => ReadsUseFuel(t, q, e);
    case JoinReadRoom(_, _, _, _) => ReadsUseFuel(t, q, e);
    case Joining(_, _, _, _, _, _, _, _, _) => AfterJoinUsesFuel(q, JoinRoom(t, JoinClaim(q), e.fate).1, e.id);
    case JoinGone(_) => ReadsUseFuel(t, q, e);
    case Reporting(w) => ReportUsesFuel(t, w, e);
    case HostReport(_, _, _, _, _, _) => ReportStartsWithin(t, q, e);
    case Registering(_, _, _, _) => LastWritesUseFuel(t, q, e);
    case Renewing(_) => LastWritesUseFuel(t, q, e);
    case Reread(_, _, _) => ReplayUsesFuel(t, q);
    case Replay(_, _, _) => ReplayUsesFuel(t, q);
    case Register(_, _, _, _, _) => RegisterReadsUseFuel(t, q);
    case GetPeers(_, _, _, _) => GetPeersUsesFuel(t, q, e);
    case Reading(w) => ReadBackUsesFuel(t, w, e);
  }
}
