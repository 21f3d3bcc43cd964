/**
 The key-value table of the room service and its conditional writes
 (control-server/controlplane/store.py).  A transaction is one atomic step: every condition is
 judged on the table as it is, and either all of its items are written or none.
 */
module RoomTable {
  import opened Wrappers

  const MAX_PEERS := 5
  const HOST_VIP := 1
  const ROOM_LEASE_MS := 120000
  const JOIN_REGISTER_GRACE_MS := 90000

  type RoomId = nat
  type PeerId = nat
  type Vip = nat      // last number of 10.100.0.x
  type Token = nat
  type Nonce = nat

  datatype PeerAt = PeerAt(room: RoomId, id: PeerId)
  datatype VipAt = VipAt(room: RoomId, vip: Vip)
  datatype NameAt = NameAt(room: RoomId, key: string)
  datatype PairAt = PairAt(room: RoomId, lo: PeerId, hi: PeerId)

  datatype Room = Room(createdAt: int, expiresAt: int, host: PeerId)
  datatype Peer = Peer(token: Token, vip: Vip, name: string, nonce: Nonce, joinedAt: int, candidates: seq<Endpoint>)
  datatype Pair = Pair(readyWall: int, readyMono: int, bootId: nat)

  // The items by kind: ROOM, PEER#, VIP#, NAME#, PAIR# and NONCE#.
  datatype Table = Table(
    rooms: map<RoomId, Room>, peers: map<PeerAt, Peer>, vips: map<VipAt, PeerId>, names: map<NameAt, PeerId>,
    pairs: map<PairAt, Pair>, nonces: map<Nonce, PeerAt>)

  function LowerChar(ch: char): char {
    if 'A' <= ch <= 'Z' then (ch as int + 32) as char else ch
  }

  function NameKey(name: string): string {
    seq(|name|, i requires 0 <= i < |name| => LowerChar(name[i]))
  }

  function PairKey(room: RoomId, a: PeerId, b: PeerId): PairAt {
    if a <= b then PairAt(room, a, b) else PairAt(room, b, a)
  }

  // ---------------------------------------------------------------- cancellation reasons

  datatype Kind = KNonce | KRoomCheck | KVip | KName | KPeer | KRoomPut | KPeerCheck | KPair | KOther
  datatype Code = NoFailure | ConditionFailed | OtherCode

  predicate Failed(layout: seq<Kind>, codes: seq<Code>, kind: Kind)
    requires |layout| == |codes|
  {
    exists i | 0 <= i < |layout| :: layout[i] == kind && codes[i] == ConditionFailed
  }

  function FirstFailed(layout: seq<Kind>, codes: seq<Code>, priority: seq<Kind>): (r: Option<Kind>)
    requires |layout| == |codes|
    ensures r.Some? ==> r.value in priority && Failed(layout, codes, r.value)
    ensures r.None? <==> forall k | k in priority :: !Failed(layout, codes, k)
  {
    if priority == [] then None
    else if Failed(layout, codes, priority[0]) then Some(priority[0])
    else FirstFailed(layout, codes, priority[1..])
  }

  // None stands for the internal error.
  function Classify(layout: seq<Kind>, codes: seq<Code>, priority: seq<Kind>): Option<Kind> {
    if |codes| != |layout| then None
    else if Failed(layout, codes, KNonce) then Some(KNonce)
    else if OtherCode in codes then None
    else FirstFailed(layout, codes, priority)
  }

  method ClassifyCancel(layout: seq<Kind>, codes: seq<Code>, priority: seq<Kind>) returns (kind: Option<Kind>)
    ensures kind == Classify(layout, codes, priority)
  {
    if |codes| != |layout| {
      return None;
    }
    var failed: set<Kind> := {};
    for i := 0 to |layout|
      invariant forall k :: k in failed <==> exists j | 0 <= j < i :: layout[j] == k && codes[j] == ConditionFailed
    {
      if codes[i] == ConditionFailed {
        failed := failed + {layout[i]};
      }
    }
    assert forall k :: k in failed <==> Failed(layout, codes, k);
    if KNonce in failed {
      return Some(KNonce);
    }
    if OtherCode in codes {
      return None;
    }
    for i := 0 to |priority|
      invariant FirstFailed(layout, codes, priority[i..]) == FirstFailed(layout, codes, priority)
    {
      assert priority[i..][1..] == priority[i + 1..];
      if priority[i] in failed {
        return Some(priority[i]);
      }
    }
    return None;
  }

  // ---------------------------------------------------------------- one write, as the caller sees it

  // Delivered: the store answers, perhaps cancelling some items for a reason that is not a condition.
  // NeverArrived and AnswerLost: the caller sees an exception and does not know whether it was written.
  datatype Fate = Delivered(noise: nat -> bool) | NeverArrived | AnswerLost

  datatype WriteResult =
    | Created | Joined | NonceExists | RoomIdTaken | RoomGone | NameTaken | VipTaken | PeerIdTaken
    | Confirmed | AlreadyConfirmed | NotEligible | Written | Refused | Internal

  predicate AllHold(holds: seq<bool>) {
    forall i | 0 <= i < |holds| :: holds[i]
  }

  function CodesOf(holds: seq<bool>, noise: nat -> bool): (codes: seq<Code>)
    ensures |codes| == |holds|
  {
    seq(|holds|, i requires 0 <= i < |holds| =>
      if noise(i) then OtherCode else if holds[i] then NoFailure else ConditionFailed)
  }

  predicate Clean(codes: seq<Code>) {
    forall i | 0 <= i < |codes| :: codes[i] == NoFailure
  }

  predicate Applied(holds: seq<bool>, fate: Fate) {
    match fate
    case Delivered(noise) => Clean(CodesOf(holds, noise))
    case NeverArrived => false
    case AnswerLost => AllHold(holds)
  }

  lemma AppliedMeansAllHold(holds: seq<bool>, fate: Fate)
    ensures Applied(holds, fate) ==> AllHold(holds)
  {
    if fate.Delivered? {
      forall i | 0 <= i < |holds| && Clean(CodesOf(holds, fate.noise))
        ensures holds[i]
      {
        assert CodesOf(holds, fate.noise)[i] == NoFailure;
      }
    }
  }

  function JoinLayout(): seq<Kind> { [KRoomCheck, KVip, KName, KPeer, KNonce] }
  function JoinPriority(): seq<Kind> { [KRoomCheck, KName, KVip, KPeer] }
  function CreateLayout(): seq<Kind> { [KRoomPut, KPeer, KVip, KName, KNonce] }
  function CreatePriority(): seq<Kind> { [KRoomPut] }
  function ConfirmLayout(): seq<Kind> { [KPeerCheck, KPeerCheck, KPair] }
  function ConfirmPriority(): seq<Kind> { [KPeerCheck, KPair] }

  // ---------------------------------------------------------------- create_room

  datatype Claim = Claim(room: RoomId, vip: Vip, id: PeerId, token: Token, nonce: Nonce, now: int, name: string)

  function Claimed(t: Table, c: Claim): Table {
    t.(peers := t.peers[PeerAt(c.room, c.id) := Peer(c.token, c.vip, c.name, c.nonce, c.now, [])],
       vips := t.vips[VipAt(c.room, c.vip) := c.id],
       names := t.names[NameAt(c.room, NameKey(c.name)) := c.id],
       nonces := t.nonces[c.nonce := PeerAt(c.room, c.id)])
  }

  function CreateHolds(t: Table, c: Claim): seq<bool> {
    [c.room !in t.rooms, PeerAt(c.room, c.id) !in t.peers, VipAt(c.room, c.vip) !in t.vips,
     NameAt(c.room, NameKey(c.name)) !in t.names, c.nonce !in t.nonces]
  }

  function CreateResult(holds: seq<bool>, fate: Fate): WriteResult
    requires |holds| == 5
  {
    if !fate.Delivered? then Internal
    else if Applied(holds, fate) then Created
    else
      match Classify(CreateLayout(), CodesOf(holds, fate.noise), CreatePriority())
      case Some(KNonce) => NonceExists
      case Some(KRoomPut) => RoomIdTaken
      case _ => Internal
  }

  function CreateRoom(t: Table, c: Claim, fate: Fate): (Table, WriteResult) {
    var holds := CreateHolds(t, c);
    var t' := Claimed(t, c).(rooms := t.rooms[c.room := Room(c.now, c.now + ROOM_LEASE_MS, c.id)]);
    (if Applied(holds, fate) then t' else t, CreateResult(holds, fate))
  }

  // ---------------------------------------------------------------- join_room

  predicate RoomOpen(t: Table, room: RoomId, now: int) {
    room in t.rooms && now < t.rooms[room].expiresAt
  }

  function JoinHolds(t: Table, c: Claim): seq<bool> {
    [RoomOpen(t, c.room, c.now), VipAt(c.room, c.vip) !in t.vips, NameAt(c.room, NameKey(c.name)) !in t.names,
     PeerAt(c.room, c.id) !in t.peers, c.nonce !in t.nonces]
  }

  function JoinResult(holds: seq<bool>, fate: Fate): WriteResult
    requires |holds| == 5
  {
    if !fate.Delivered? then Internal
    else if Applied(holds, fate) then Joined
    else
      match Classify(JoinLayout(), CodesOf(holds, fate.noise), JoinPriority())
      case Some(KNonce) => NonceExists
      case Some(KRoomCheck) => RoomGone
      case Some(KName) => NameTaken
      case Some(KVip) => VipTaken
      case Some(KPeer) => PeerIdTaken
      case _ => Internal
  }

  function JoinRoom(t: Table, c: Claim, fate: Fate): (Table, WriteResult) {
    var holds := JoinHolds(t, c);
    (if Applied(holds, fate) then Claimed(t, c) else t, JoinResult(holds, fate))
  }

  // The order of the verdicts: a taken nonce explains everything, then the room, the name, the
  // address and the peer id, each only when nothing before it failed.
  lemma JoinVerdicts(t: Table, c: Claim, noise: nat -> bool)
    requires forall i | 0 <= i < 5 :: !noise(i)
    ensures JoinRoom(t, c, Delivered(noise)).1 ==
            if c.nonce in t.nonces then NonceExists
            else if !RoomOpen(t, c.room, c.now) then RoomGone
            else if NameAt(c.room, NameKey(c.name)) in t.names then NameTaken
            else if VipAt(c.room, c.vip) in t.vips then VipTaken
            else if PeerAt(c.room, c.id) in t.peers then PeerIdTaken
            else Joined
  {
    var holds := JoinHolds(t, c);
    var codes := CodesOf(holds, noise);
    JoinFailures(holds, noise);
    assert !Failed(JoinLayout(), codes, KOther);
    if Clean(codes) {
      assert codes[0] == codes[1] == codes[2] == codes[3] == codes[4] == NoFailure;
    } else if c.nonce !in t.nonces {
      assert OtherCode !in codes;
      FirstOfFour(codes);
    } else {
      assert codes[4] == ConditionFailed;
    }
  }

  lemma JoinFailures(holds: seq<bool>, noise: nat -> bool)
    requires |holds| == 5
    ensures var codes := CodesOf(holds, noise);
            && (Failed(JoinLayout(), codes, KRoomCheck) <==> codes[0] == ConditionFailed)
            && (Failed(JoinLayout(), codes, KVip) <==> codes[1] == ConditionFailed)
            && (Failed(JoinLayout(), codes, KName) <==> codes[2] == ConditionFailed)
            && (Failed(JoinLayout(), codes, KPeer) <==> codes[3] == ConditionFailed)
            && (Failed(JoinLayout(), codes, KNonce) <==> codes[4] == ConditionFailed)
  {
    var codes := CodesOf(holds, noise);
    var l := JoinLayout();
    assert l[0] == KRoomCheck && l[1] == KVip && l[2] == KName && l[3] == KPeer && l[4] == KNonce;
  }

  lemma FirstOfFour(codes: seq<Code>)
    requires |codes| == 5
    ensures FirstFailed(JoinLayout(), codes, JoinPriority()) ==
            if Failed(JoinLayout(), codes, KRoomCheck) then Some(KRoomCheck)
            else if Failed(JoinLayout(), codes, KName) then Some(KName)
            else if Failed(JoinLayout(), codes, KVip) then Some(KVip)
            else if Failed(JoinLayout(), codes, KPeer) then Some(KPeer)
            else None
  {
    var l, p := JoinLayout(), JoinPriority();
    assert p[1..] == [KName, KVip, KPeer] && p[1..][1..] == [KVip, KPeer] && p[1..][1..][1..] == [KPeer];
    assert FirstFailed(l, codes, [KPeer]) == if Failed(l, codes, KPeer) then Some(KPeer) else None;
    assert FirstFailed(l, codes, [KVip, KPeer]) == if Failed(l, codes, KVip) then Some(KVip) else FirstFailed(l, codes, [KPeer]);
    assert FirstFailed(l, codes, [KName, KVip, KPeer])
        == if Failed(l, codes, KName) then Some(KName) else FirstFailed(l, codes, [KVip, KPeer]);
  }

  // Whatever else happens to the transaction, these verdicts are true of the table it met.
  lemma JoinVerdictsAreTrue(t: Table, c: Claim, fate: Fate)
    ensures var r := JoinRoom(t, c, fate).1;
            && (r == NonceExists ==> c.nonce in t.nonces)
            && (r == RoomGone ==> !RoomOpen(t, c.room, c.now))
            && (r == NameTaken ==> NameAt(c.room, NameKey(c.name)) in t.names)
            && (r == VipTaken ==> VipAt(c.room, c.vip) in t.vips)
            && (r == PeerIdTaken ==> PeerAt(c.room, c.id) in t.peers)
            && (r == Joined ==> AllHold(JoinHolds(t, c)) && JoinRoom(t, c, fate).0 == Claimed(t, c))
  {
    var holds := JoinHolds(t, c);
    AppliedMeansAllHold(holds, fate);
    if fate.Delivered? {
      JoinFailures(holds, fate.noise);
      FirstOfFour(CodesOf(holds, fate.noise));
    }
  }

  // ---------------------------------------------------------------- the single and the deleting writes

  function RegisterCandidates(t: Table, room: RoomId, id: PeerId, token: Token, candidates: seq<Endpoint>, fate: Fate)
    : (Table, WriteResult)
  {
    var at := PeerAt(room, id);
    var holds := [at in t.peers && t.peers[at].token == token];
    if Applied(holds, fate) && at in t.peers then
      (t.(peers := t.peers[at := t.peers[at].(candidates := candidates)]), if fate.Delivered? then Written else Internal)
    else (t, if fate.Delivered? && !holds[0] && !fate.noise(0) then Refused else Internal)
  }

  function NamesAt(room: RoomId, keys: set<string>): set<NameAt> {
    set k | k in keys :: NameAt(room, k)
  }

  // PEER#, VIP#, every given NAME# and NONCE# go; with a host, the PAIR# with it too.
  function Deleted(t: Table, room: RoomId, id: PeerId, vip: Vip, nonce: Nonce, keys: set<string>, host: Option<PeerId>): Table {
    t.(peers := t.peers - {PeerAt(room, id)},
       vips := t.vips - {VipAt(room, vip)},
       names := t.names - NamesAt(room, keys),
       nonces := t.nonces - {nonce},
       pairs := if host.Some? then t.pairs - {PairKey(room, host.value, id)} else t.pairs)
  }

  function DeleteResult(hold: bool, fate: Fate): WriteResult {
    if !fate.Delivered? then Internal
    else if Applied([hold], fate) then Written
    else if !hold && !fate.noise(0) then Refused
    else Internal
  }

  function ReleasePeer(t: Table, room: RoomId, id: PeerId, vip: Vip, host: PeerId, nonce: Nonce, keys: set<string>, fate: Fate)
    : (Table, WriteResult)
  {
    var hold := PeerAt(room, id) in t.peers;
    (if Applied([hold], fate) then Deleted(t, room, id, vip, nonce, keys, Some(host)) else t, DeleteResult(hold, fate))
  }

  predicate Reclaimable(t: Table, room: RoomId, id: PeerId, now: int) {
    var at := PeerAt(room, id);
    at in t.peers && t.peers[at].candidates == [] && t.peers[at].joinedAt <= now - JOIN_REGISTER_GRACE_MS
  }

  function ReclaimPeer(t: Table, room: RoomId, id: PeerId, vip: Vip, nonce: Nonce, now: int, keys: set<string>, fate: Fate)
    : (Table, WriteResult)
  {
    var hold := Reclaimable(t, room, id, now);
    (if Applied([hold], fate) then Deleted(t, room, id, vip, nonce, keys, None) else t, DeleteResult(hold, fate))
  }

  predicate HasCandidates(t: Table, at: PeerAt) {
    at in t.peers && t.peers[at].candidates != []
  }

  function ConfirmHolds(t: Table, room: RoomId, host: PeerId, other: PeerId): seq<bool> {
    [HasCandidates(t, PeerAt(room, host)), HasCandidates(t, PeerAt(room, other)), PairKey(room, host, other) !in t.pairs]
  }

  function ConfirmResult(holds: seq<bool>, fate: Fate): WriteResult
    requires |holds| == 3
  {
    if !fate.Delivered? then Internal
    else if Applied(holds, fate) then Confirmed
    else
      match Classify(ConfirmLayout(), CodesOf(holds, fate.noise), ConfirmPriority())
      case Some(KPeerCheck) => NotEligible
      case Some(KPair) => AlreadyConfirmed
      case _ => Internal
  }

  function ConfirmPair(t: Table, room: RoomId, host: PeerId, other: PeerId, pair: Pair, fate: Fate): (Table, WriteResult) {
    var holds := ConfirmHolds(t, room, host, other);
    (if Applied(holds, fate) then t.(pairs := t.pairs[PairKey(room, host, other) := pair]) else t, ConfirmResult(holds, fate))
  }

  function Renew(t: Table, room: RoomId, now: int, fate: Fate): (Table, WriteResult) {
    var holds := [RoomOpen(t, room, now)];
    if Applied(holds, fate) && room in t.rooms then
      (t.(rooms := t.rooms[room := t.rooms[room].(expiresAt := now + ROOM_LEASE_MS)]),
       if fate.Delivered? then Written else Internal)
    else (t, if fate.Delivered? && !holds[0] && !fate.noise(0) then Refused else Internal)
  }

  // ---------------------------------------------------------------- the invariant

  predicate PeerOk(t: Table, at: PeerAt)
    requires at in t.peers
  {
    var p := t.peers[at];
    && at.room in t.rooms
    && HOST_VIP <= p.vip <= MAX_PEERS
    && (p.vip == HOST_VIP <==> at.id == t.rooms[at.room].host)
    && VipAt(at.room, p.vip) in t.vips && t.vips[VipAt(at.room, p.vip)] == at.id
    && NameAt(at.room, NameKey(p.name)) in t.names && t.names[NameAt(at.room, NameKey(p.name))] == at.id
    && p.nonce in t.nonces && t.nonces[p.nonce] == at
  }

  predicate PairOk(t: Table, q: PairAt) {
    && q.lo < q.hi && q.room in t.rooms
    && HasCandidates(t, PeerAt(q.room, q.lo)) && HasCandidates(t, PeerAt(q.room, q.hi))
    && t.rooms[q.room].host in {q.lo, q.hi}
  }

  ghost predicate PeersOk(t: Table, removed: set<PeerAt>) {
    forall at | at in t.peers :: PeerOk(t, at) && at !in removed
  }

  ghost predicate VipsOk(t: Table) {
    forall v | v in t.vips :: PeerAt(v.room, t.vips[v]) in t.peers && t.peers[PeerAt(v.room, t.vips[v])].vip == v.vip
  }

  ghost predicate NamesOk(t: Table) {
    forall n | n in t.names ::
      PeerAt(n.room, t.names[n]) in t.peers && NameKey(t.peers[PeerAt(n.room, t.names[n])].name) == n.key
  }

  ghost predicate NoncesOk(t: Table) {
    forall n | n in t.nonces :: t.nonces[n] in t.peers && t.peers[t.nonces[n]].nonce == n
  }

  ghost predicate PairsOk(t: Table) {
    forall q | q in t.pairs :: PairOk(t, q)
  }

  ghost predicate HostsOk(t: Table) {
    forall r | r in t.rooms :: PeerAt(r, t.rooms[r].host) in t.peers
  }

  // PEER#, VIP#, NAME# and NONCE# correspond one to one; every room has its host; a pair stands on
  // two registered peers; nothing that was removed has come back.
  ghost predicate Inv(t: Table, removed: set<PeerAt>) {
    PeersOk(t, removed) && VipsOk(t) && NamesOk(t) && NoncesOk(t) && PairsOk(t) && HostsOk(t)
  }

  // What another request may rely on while writes go by: a room keeps its host, and a peer keeps all
  // it was given, and having candidates, until it is removed.
  ghost predicate Evolves(t: Table, removed: set<PeerAt>, t': Table, removed': set<PeerAt>) {
    && removed <= removed'
    && (forall r | r in t.rooms :: r in t'.rooms && t'.rooms[r].host == t.rooms[r].host)
    && (forall at | at in t.peers :: at in removed' || (at in t'.peers && Same(t.peers[at], t'.peers[at])))
  }

  predicate Same(p: Peer, later: Peer) {
    p == later.(candidates := p.candidates) && (p.candidates != [] ==> later.candidates != [])
  }

  // Distinct addresses and names, and so at most five peers, in every room.
  lemma RoomsAreSmall(t: Table, removed: set<PeerAt>, room: RoomId, ids: set<PeerId>)
    requires Inv(t, removed) && forall id | id in ids :: PeerAt(room, id) in t.peers
    ensures |ids| <= MAX_PEERS
  {
    forall id | id in ids
      ensures HOST_VIP <= t.peers[PeerAt(room, id)].vip <= MAX_PEERS
      ensures VipAt(room, t.peers[PeerAt(room, id)].vip) in t.vips
      ensures t.vips[VipAt(room, t.peers[PeerAt(room, id)].vip)] == id
    {
      assert PeerOk(t, PeerAt(room, id));
    }
    VipsBound(t, room, ids, MAX_PEERS);
  }

  lemma {:induction false} VipsBound(t: Table, room: RoomId, ids: set<PeerId>, top: nat)
    requires forall id | id in ids ::
               && PeerAt(room, id) in t.peers
               && var v := t.peers[PeerAt(room, id)].vip;
                  HOST_VIP <= v <= top && VipAt(room, v) in t.vips && t.vips[VipAt(room, v)] == id
    ensures |ids| <= top
  {
    if top == 0 {
      assert ids == {};
    } else {
      var v := VipAt(room, top);
      VipsBound(t, room, if v in t.vips then ids - {t.vips[v]} else ids, top - 1);
    }
  }

  lemma PeersAreDistinct(t: Table, removed: set<PeerAt>, a: PeerAt, b: PeerAt)
    requires Inv(t, removed) && a in t.peers && b in t.peers && a != b
    ensures t.peers[a].nonce != t.peers[b].nonce
    ensures a.room == b.room ==> t.peers[a].vip != t.peers[b].vip && NameKey(t.peers[a].name) != NameKey(t.peers[b].name)
  {
    assert PeerOk(t, a) && PeerOk(t, b);
  }

  // ---------------------------------------------------------------- every write keeps it

  // A new peer whose four keys are all free; as the host of a new room or as a participant.
  ghost predicate Free(t: Table, removed: set<PeerAt>, c: Claim, asHost: bool) {
    && PeerAt(c.room, c.id) !in removed
    && PeerAt(c.room, c.id) !in t.peers && VipAt(c.room, c.vip) !in t.vips
    && NameAt(c.room, NameKey(c.name)) !in t.names && c.nonce !in t.nonces
    && if asHost then c.room !in t.rooms && c.vip == HOST_VIP else c.room in t.rooms && HOST_VIP < c.vip <= MAX_PEERS
  }

  function Entered(t: Table, c: Claim, asHost: bool): Table {
    Claimed(t, c).(rooms := if asHost then t.rooms[c.room := Room(c.now, c.now + ROOM_LEASE_MS, c.id)] else t.rooms)
  }

  lemma ClaimKeepsPeers(t: Table, removed: set<PeerAt>, c: Claim, asHost: bool)
    requires Inv(t, removed) && Free(t, removed, c, asHost)
    ensures PeersOk(Entered(t, c, asHost), removed)
  {
    var t' := Entered(t, c, asHost);
    forall at | at in t'.peers
      ensures PeerOk(t', at) && at !in removed
    {
      if at != PeerAt(c.room, c.id) {
        assert PeerOk(t, at);
      } else if !asHost {
        assert PeerAt(c.room, t.rooms[c.room].host) in t.peers;
      }
    }
  }

  lemma ClaimKeepsVips(t: Table, removed: set<PeerAt>, c: Claim, asHost: bool)
    requires VipsOk(t) && Free(t, removed, c, asHost)
    ensures VipsOk(Entered(t, c, asHost))
  {
  }

  lemma ClaimKeepsNames(t: Table, removed: set<PeerAt>, c: Claim, asHost: bool)
    requires NamesOk(t) && Free(t, removed, c, asHost)
    ensures NamesOk(Entered(t, c, asHost))
  {
  }

  lemma ClaimKeepsNonces(t: Table, removed: set<PeerAt>, c: Claim, asHost: bool)
    requires NoncesOk(t) && Free(t, removed, c, asHost)
    ensures NoncesOk(Entered(t, c, asHost))
  {
  }

  lemma ClaimKeepsHosts(t: Table, removed: set<PeerAt>, c: Claim, asHost: bool)
    requires HostsOk(t) && Free(t, removed, c, asHost)
    ensures HostsOk(Entered(t, c, asHost))
    ensures Evolves(t, removed, Entered(t, c, asHost), removed)
  {
  }

  lemma PairsStay(t: Table, t': Table)
    requires PairsOk(t) && forall q | q in t'.pairs :: q in t.pairs
    requires forall q | q in t'.pairs :: PeerAt(q.room, q.lo) in t'.peers && PeerAt(q.room, q.hi) in t'.peers
    requires forall at | at in t.peers && at in t'.peers :: Same(t.peers[at], t'.peers[at])
    requires forall r | r in t.rooms :: r in t'.rooms && t'.rooms[r].host == t.rooms[r].host
    ensures PairsOk(t')
  {
    forall q | q in t'.pairs
      ensures PairOk(t', q)
    {
      assert PairOk(t, q);
    }
  }

  lemma ClaimKeeps(t: Table, removed: set<PeerAt>, c: Claim, asHost: bool)
    requires Inv(t, removed) && Free(t, removed, c, asHost)
    ensures Inv(Entered(t, c, asHost), removed) && Evolves(t, removed, Entered(t, c, asHost), removed)
  {
    ClaimKeepsPeers(t, removed, c, asHost);
    ClaimKeepsVips(t, removed, c, asHost);
    ClaimKeepsNames(t, removed, c, asHost);
    ClaimKeepsNonces(t, removed, c, asHost);
    ClaimKeepsHosts(t, removed, c, asHost);
    ClaimKeepsPairs(t, removed, c, asHost);
  }

  lemma ClaimKeepsPairs(t: Table, removed: set<PeerAt>, c: Claim, asHost: bool)
    requires PairsOk(t) && Free(t, removed, c, asHost)
    ensures PairsOk(Entered(t, c, asHost))
  {
    forall q | q in t.pairs
      ensures PeerAt(q.room, q.lo) in t.peers && PeerAt(q.room, q.hi) in t.peers
    {
      assert PairOk(t, q);
    }
    PairsStay(t, Entered(t, c, asHost));
  }

  // The peer is not the host, the keys are its own, and no PAIR# of it is left out.
  ghost predicate Removable(t: Table, room: RoomId, id: PeerId, keys: set<string>, host: Option<PeerId>) {
    && PeerAt(room, id) in t.peers && room in t.rooms && id != t.rooms[room].host
    && keys == {NameKey(t.peers[PeerAt(room, id)].name)}
    && if host.Some? then host.value == t.rooms[room].host else t.peers[PeerAt(room, id)].candidates == []
  }

  function Left(t: Table, at: PeerAt, keys: set<string>, host: Option<PeerId>): Table
    requires at in t.peers
  {
    Deleted(t, at.room, at.id, t.peers[at].vip, t.peers[at].nonce, keys, host)
  }

  lemma DeleteKeepsPeers(t: Table, removed: set<PeerAt>, gone: PeerAt, keys: set<string>, host: Option<PeerId>)
    requires Inv(t, removed) && Removable(t, gone.room, gone.id, keys, host)
    ensures PeersOk(Left(t, gone, keys, host), removed + {gone})
  {
    var t' := Left(t, gone, keys, host);
    var p := t.peers[gone];
    assert PeerOk(t, gone);
    assert NamesAt(gone.room, keys) == {NameAt(gone.room, NameKey(p.name))};
    forall at | at in t'.peers
      ensures PeerOk(t', at)
    {
      assert PeerOk(t, at);
      PeersAreDistinct(t, removed, at, gone);
    }
  }

  lemma DeleteKeepsReferences(t: Table, removed: set<PeerAt>, gone: PeerAt, keys: set<string>, host: Option<PeerId>)
    requires Inv(t, removed) && Removable(t, gone.room, gone.id, keys, host)
    ensures var t' := Left(t, gone, keys, host);
            VipsOk(t') && NamesOk(t') && NoncesOk(t') && HostsOk(t')
  {
    DeleteKeepsNames(t, removed, gone, keys, host);
    DeleteKeepsVips(t, removed, gone, keys, host);
    DeleteKeepsNonces(t, removed, gone, keys, host);
    hide Inv, Removable, Left, NamesOk, VipsOk, NoncesOk, HostsOk;
  }

  lemma DeleteKeepsVips(t: Table, removed: set<PeerAt>, gone: PeerAt, keys: set<string>, host: Option<PeerId>)
    requires Inv(t, removed) && Removable(t, gone.room, gone.id, keys, host)
    ensures VipsOk(Left(t, gone, keys, host))
  {
    hide PeersOk, NamesOk, NoncesOk, HostsOk, PairsOk, NamesAt, NameKey;
  }

  lemma DeleteKeepsNonces(t: Table, removed: set<PeerAt>, gone: PeerAt, keys: set<string>, host: Option<PeerId>)
    requires Inv(t, removed) && Removable(t, gone.room, gone.id, keys, host)
    ensures NoncesOk(Left(t, gone, keys, host)) && HostsOk(Left(t, gone, keys, host))
  {
    hide PeersOk, VipsOk, NamesOk, PairsOk, NamesAt, NameKey;
  }

  lemma DeleteKeepsNames(t: Table, removed: set<PeerAt>, gone: PeerAt, keys: set<string>, host: Option<PeerId>)
    requires Inv(t, removed) && Removable(t, gone.room, gone.id, keys, host)
    ensures NamesOk(Left(t, gone, keys, host))
  {
    hide PeersOk, VipsOk, NoncesOk, HostsOk, PairsOk;
    assert NamesAt(gone.room, keys) == {NameAt(gone.room, NameKey(t.peers[gone].name))};
  }

  lemma DeleteKeepsPairs(t: Table, gone: PeerAt, keys: set<string>, host: Option<PeerId>)
    requires PairsOk(t) && Removable(t, gone.room, gone.id, keys, host)
    ensures PairsOk(Left(t, gone, keys, host))
  {
    var t' := Left(t, gone, keys, host);
    forall q | q in t'.pairs
      ensures PeerAt(q.room, q.lo) in t'.peers && PeerAt(q.room, q.hi) in t'.peers
    {
      assert PairOk(t, q);
    }
    PairsStay(t, t');
  }

  lemma DeleteKeeps(t: Table, removed: set<PeerAt>, gone: PeerAt, keys: set<string>, host: Option<PeerId>)
    requires Inv(t, removed) && Removable(t, gone.room, gone.id, keys, host)
    ensures Inv(Left(t, gone, keys, host), removed + {gone})
    ensures Evolves(t, removed, Left(t, gone, keys, host), removed + {gone})
  {
    DeleteKeepsPeers(t, removed, gone, keys, host);
    DeleteKeepsReferences(t, removed, gone, keys, host);
    DeleteKeepsPairs(t, gone, keys, host);
    DeleteEvolves(t, removed, gone, keys, host);
    hide Removable, Left, Evolves, PeersOk, VipsOk, NamesOk, NoncesOk, PairsOk, HostsOk;
  }

  lemma DeleteEvolves(t: Table, removed: set<PeerAt>, gone: PeerAt, keys: set<string>, host: Option<PeerId>)
    requires gone in t.peers
    ensures Evolves(t, removed, Left(t, gone, keys, host), removed + {gone})
  {
    hide NamesAt;
  }

  lemma RegisterKeeps(t: Table, removed: set<PeerAt>, at: PeerAt, candidates: seq<Endpoint>)
    requires Inv(t, removed) && at in t.peers && candidates != []
    ensures var t' := t.(peers := t.peers[at := t.peers[at].(candidates := candidates)]);
            Inv(t', removed) && Evolves(t, removed, t', removed)
  {
    var t' := t.(peers := t.peers[at := t.peers[at].(candidates := candidates)]);
    RegisterKeepsPeers(t, removed, at, candidates);
    RegisterKeepsReferences(t, at, candidates);
  }

  lemma RegisterKeepsPeers(t: Table, removed: set<PeerAt>, at: PeerAt, candidates: seq<Endpoint>)
    requires PeersOk(t, removed) && PairsOk(t) && at in t.peers && candidates != []
    ensures var t' := t.(peers := t.peers[at := t.peers[at].(candidates := candidates)]);
            PeersOk(t', removed) && PairsOk(t')
  {
    var t' := t.(peers := t.peers[at := t.peers[at].(candidates := candidates)]);
    forall k | k in t'.peers
      ensures PeerOk(t', k)
    {
      assert PeerOk(t, k);
    }
    forall q | q in t'.pairs
      ensures PairOk(t', q)
    {
      assert PairOk(t, q);
    }
  }

  lemma RegisterKeepsReferences(t: Table, at: PeerAt, candidates: seq<Endpoint>)
    requires VipsOk(t) && NamesOk(t) && NoncesOk(t) && HostsOk(t) && at in t.peers
    ensures var t' := t.(peers := t.peers[at := t.peers[at].(candidates := candidates)]);
            VipsOk(t') && NamesOk(t') && NoncesOk(t') && HostsOk(t')
  {
  }

  lemma PairKeeps(t: Table, removed: set<PeerAt>, room: RoomId, host: PeerId, other: PeerId, pair: Pair)
    requires Inv(t, removed) && room in t.rooms && host == t.rooms[room].host && other != host
    requires HasCandidates(t, PeerAt(room, host)) && HasCandidates(t, PeerAt(room, other))
    ensures var t' := t.(pairs := t.pairs[PairKey(room, host, other) := pair]);
            Inv(t', removed) && Evolves(t, removed, t', removed)
  {
    var t' := t.(pairs := t.pairs[PairKey(room, host, other) := pair]);
    forall k | k in t'.peers
      ensures PeerOk(t', k)
    {
      assert PeerOk(t, k);
    }
    forall q | q in t'.pairs
      ensures PairOk(t', q)
    {
      if q != PairKey(room, host, other) {
        assert PairOk(t, q);
      }
    }
  }

  // The lease of a room is nothing its items depend on.
  lemma RenewKeeps(t: Table, removed: set<PeerAt>, room: RoomId, until: int)
    requires Inv(t, removed) && room in t.rooms
    ensures var t' := t.(rooms := t.rooms[room := t.rooms[room].(expiresAt := until)]);
            Inv(t', removed) && Evolves(t, removed, t', removed)
  {
    var t' := t.(rooms := t.rooms[room := t.rooms[room].(expiresAt := until)]);
    RenewKeepsItems(t, removed, t');
    RenewKeepsHosts(t, removed, t');
    hide Evolves, PeersOk, VipsOk, NamesOk, NoncesOk, PairsOk, HostsOk;
  }

  lemma RenewKeepsHosts(t: Table, removed: set<PeerAt>, t': Table)
    requires HostsOk(t) && t' == t.(rooms := t'.rooms) && t.rooms.Keys == t'.rooms.Keys
    requires forall r | r in t.rooms :: t'.rooms[r].host == t.rooms[r].host
    ensures HostsOk(t') && Evolves(t, removed, t', removed)
  {
  }

  lemma RenewKeepsItems(t: Table, removed: set<PeerAt>, t': Table)
    requires Inv(t, removed) && t' == t.(rooms := t'.rooms) && t.rooms.Keys == t'.rooms.Keys
    requires forall r | r in t.rooms :: t'.rooms[r].host == t.rooms[r].host
    ensures PeersOk(t', removed) && VipsOk(t') && NamesOk(t') && NoncesOk(t') && PairsOk(t')
  {
    forall k | k in t'.peers
      ensures PeerOk(t', k)
    {
      assert PeerOk(t, k);
    }
    forall q | q in t'.pairs
      ensures PairOk(t', q)
    {
      assert PairOk(t, q);
    }
  }
}
