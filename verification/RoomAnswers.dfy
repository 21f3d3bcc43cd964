/**
 What the room service answers (control-server/controlplane/ops.py, store.py): whom a caller is told of and what,
 which verdict each conditional write gives and what exactly it changes, and what a host report claims to have done.
 */
module RoomAnswers {
  import opened Wrappers
  import opened RoomTable
  import opened RoomService
  import opened RoomSafety

  // ---------------------------------------------------------------- whom a caller is told of

  // What the table says of this peer, as this caller may know it: its candidates only once the two are confirmed.
  predicate Describes(t: Table, room: RoomId, caller: PeerId, e: Element) {
    var at := PeerAt(room, e.id);
    var pair := PairAt(room, if caller <= e.id then caller else e.id, if caller <= e.id then e.id else caller);
    && at in t.peers && e.vip == t.peers[at].vip && e.name == t.peers[at].name
    && (e.ready <==> pair in t.pairs)
    && e.candidates == if e.ready then t.peers[at].candidates else []
  }

  predicate IsListed(es: seq<Element>, id: PeerId) {
    exists i :: 0 <= i < |es| && es[i].id == id
  }

  // Everyone else in the room, each exactly once, and each as the table has it.
  ghost predicate ListsOthers(t: Table, room: RoomId, caller: PeerId, es: seq<Element>) {
    && (forall id :: IsListed(es, id) <==> id != caller && PeerAt(room, id) in t.peers)
    && (forall i, j | 0 <= i < j < |es| :: es[i].id != es[j].id)
    && (forall i | 0 <= i < |es| :: Describes(t, room, caller, es[i]))
  }

  lemma ElementDescribes(t: Table, room: RoomId, caller: PeerId, id: PeerId)
    requires PeerAt(room, id) in t.peers
    ensures id in Query(t, room).peers
    ensures Describes(t, room, caller, ElementOf(Query(t, room), room, caller, id)) && ElementOf(Query(t, room), room, caller, id).id == id
  {
    var v := Query(t, room);
    assert v.peers[id] == t.peers[PeerAt(room, id)];
  }

  lemma QueryLists(t: Table, room: RoomId)
    ensures forall id :: id in Query(t, room).peers <==> PeerAt(room, id) in t.peers
  {
  }

  ghost predicate NoRepeats(order: seq<PeerId>) {
    forall i, j | 0 <= i < j < |order| :: order[i] != order[j]
  }

  // A list as long as the set of its entries repeats none.
  lemma {:induction false} AsManyAsEntries(order: seq<PeerId>, ids: set<PeerId>)
    requires forall id :: id in order <==> id in ids
    ensures |ids| <= |order| && (|ids| == |order| ==> NoRepeats(order))
  {
    if order == [] {
      assert ids == {};
    } else {
      var n := |order| - 1;
      var last, rest := order[n], order[..n];
      assert order == rest + [last];
      if last in rest {
        AsManyAsEntries(rest, ids);
      } else {
        AsManyAsEntries(rest, ids - {last});
      }
    }
  }

  lemma {:induction false} ElementsList(v: RoomView, room: RoomId, caller: PeerId, order: seq<PeerId>)
    requires (forall id | id in order :: id in v.peers) && NoRepeats(order)
    ensures var es := Elements(v, room, caller, order);
            && (forall id :: IsListed(es, id) <==> id in order && id != caller)
            && (forall i, j | 0 <= i < j < |es| :: es[i].id != es[j].id)
            && (forall i | 0 <= i < |es| :: es[i].id in order && es[i] == ElementOf(v, room, caller, es[i].id))
  {
    hide ElementOf;
    if order != [] {
      var rest := Elements(v, room, caller, order[1..]);
      ElementsList(v, room, caller, order[1..]);
      var es := Elements(v, room, caller, order);
      assert order == [order[0]] + order[1..];
      ElementKeepsId(v, room, caller, order[0]);
      if order[0] == caller {
        assert es == rest;
      } else {
        assert es == [ElementOf(v, room, caller, order[0])] + rest;
        ListedNext(ElementOf(v, room, caller, order[0]), rest);
      }
    }
  }

  lemma ElementKeepsId(v: RoomView, room: RoomId, caller: PeerId, id: PeerId)
    requires id in v.peers
    ensures ElementOf(v, room, caller, id).id == id
  {
  }

  lemma ListedNext(e: Element, rest: seq<Element>)
    ensures forall id :: IsListed([e] + rest, id) <==> id == e.id || IsListed(rest, id)
  {
    forall id
      ensures IsListed([e] + rest, id) <==> id == e.id || IsListed(rest, id)
    {
      if IsListed(rest, id) {
        var i :| 0 <= i < |rest| && rest[i].id == id;
        assert ([e] + rest)[i + 1].id == id;
      }
      assert ([e] + rest)[0] == e;
    }
  }

  // Everyone in the room, each once.
  ghost predicate NamesAll(t: Table, room: RoomId, order: seq<PeerId>) {
    NoRepeats(order) && forall id :: id in order <==> PeerAt(room, id) in t.peers
  }

  lemma OrderNames(t: Table, room: RoomId, order: seq<PeerId>)
    requires Lists(order, Query(t, room))
    ensures NamesAll(t, room, order) && forall id | id in order :: id in Query(t, room).peers
  {
    var v := Query(t, room);
    QueryLists(t, room);
    hide Query;
    AsManyAsEntries(order, v.peers.Keys);
  }

  lemma AllOthersListed(t: Table, room: RoomId, caller: PeerId, order: seq<PeerId>)
    requires Lists(order, Query(t, room))
    ensures ListsOthers(t, room, caller, Elements(Query(t, room), room, caller, order))
  {
    OrderNames(t, room, order);
    ElementsList(Query(t, room), room, caller, order);
    ListedAre(t, room, caller, order, Elements(Query(t, room), room, caller, order));
    hide *;
  }

  lemma ListedAre(t: Table, room: RoomId, caller: PeerId, order: seq<PeerId>, es: seq<Element>)
    requires forall id :: id in order <==> PeerAt(room, id) in t.peers
    requires forall id | id in order :: id in Query(t, room).peers
    requires forall id :: IsListed(es, id) <==> id in order && id != caller
    requires forall i, j | 0 <= i < j < |es| :: es[i].id != es[j].id
    requires forall i | 0 <= i < |es| :: es[i].id in order && es[i] == ElementOf(Query(t, room), room, caller, es[i].id)
    ensures ListsOthers(t, room, caller, es)
  {
    hide Query, ElementOf, Describes, IsListed;
    forall i | 0 <= i < |es|
      ensures Describes(t, room, caller, es[i])
    {
      assert es[i].id in order;
      ElementDescribes(t, room, caller, es[i].id);
    }
  }

  // Main result: for every table and every order a query may list, a caller that may ask is told of exactly those it
  // should know: the host of everyone else, everyone else of the host; and every other caller is refused with the
  // first reason that holds.
  lemma GetPeersMeans(t: Table, q: Request, e: Input)
    requires q.GetPeers? && Lists(e.order, Query(t, q.room))
    ensures var r := GetPeersStep(t, q, e);
            var me := PeerAt(q.room, q.id);
            if q.room !in t.rooms then r == Done(Error(RoomNotFound))
            else if t.rooms[q.room].expiresAt <= q.now then r == Done(Error(RoomExpired))
            else if me !in t.peers || t.peers[me].token != q.token then r == Done(Error(Unauthorized))
            else
              var host := t.rooms[q.room].host;
              if q.id == host then r.Done? && r.reply.Peers? && ListsOthers(t, q.room, q.id, r.reply.elements)
              else if PeerAt(q.room, host) !in t.peers then r == Done(Error(InternalError))
              else
                && r.Done? && r.reply.Peers? && |r.reply.elements| == 1
                && r.reply.elements[0].id == host && Describes(t, q.room, q.id, r.reply.elements[0])
  {
    hide Query, Elements, ElementOf, ListsOthers, Describes, Lists;
    QueryRoom(t, q.room, q.id);
    AllOthersListed(t, q.room, q.id, e.order);
    if q.room in t.rooms {
      var host := t.rooms[q.room].host;
      QueryRoom(t, q.room, host);
      if PeerAt(q.room, host) in t.peers {
        ElementDescribes(t, q.room, q.id, host);
      }
    }
  }

  lemma QueryRoom(t: Table, room: RoomId, id: PeerId)
    ensures var v := Query(t, room);
            && v.room == (if room in t.rooms then Some(t.rooms[room]) else None)
            && (id in v.peers <==> PeerAt(room, id) in t.peers)
            && (id in v.peers ==> v.peers[id] == t.peers[PeerAt(room, id)])
  {
  }

  // Main result: the answer to a host report tells of everyone else in the room as the table has it at the end, and
  // repeats what the report collected on its way.
  lemma ReadBackMeans(t: Table, w: Work, e: Input)
    requires Lists(e.order, Query(t, w.room))
    ensures var r := ReadBack(t, w, e);
            if w.room !in t.rooms then r == Done(Error(InternalError))
            else
              && r.Done? && r.reply.Report? && r.reply.released == w.released && r.reply.confirmed == w.confirmed
              && ListsOthers(t, w.room, w.host, r.reply.elements)
  {
    QueryRoom(t, w.room, w.host);
    AllOthersListed(t, w.room, w.host, e.order);
    hide Query, Elements, ListsOthers;
  }

  // ---------------------------------------------------------------- the verdicts of the single writes

  // The store answers, and cancels no item of this write for a reason other than its condition.
  predicate Quiet(fate: Fate, items: nat) {
    fate.Delivered? && forall i | 0 <= i < items :: !fate.noise(i)
  }

  lemma OneItem(hold: bool, fate: Fate)
    ensures Applied([hold], fate) ==> hold
    ensures Quiet(fate, 1) ==> (Applied([hold], fate) <==> hold)
    ensures fate.Delivered? && Applied([hold], fate) ==> !fate.noise(0)
  {
    AppliedMeansAllHold([hold], fate);
    assert [hold][0] == hold;
    if fate.Delivered? {
      assert CodesOf([hold], fate.noise)[0] == if fate.noise(0) then OtherCode else if hold then NoFailure else ConditionFailed;
    }
  }

  // A verdict is true of the table the write met; a store that answers in full gives it whenever it is true.
  predicate Tells(hold: bool, t: Table, t': Table, r: WriteResult, fate: Fate) {
    && (r == Written ==> hold)
    && (r == Refused ==> !hold && t' == t)
    && (t' != t ==> hold)
    && (Quiet(fate, 1) ==> r == if hold then Written else Refused)
  }

  // Main result: registering stores exactly the given candidates at that peer, if and only if the token is its own.
  lemma RegisterMeans(t: Table, room: RoomId, id: PeerId, token: Token, candidates: seq<Endpoint>, fate: Fate)
    ensures var at := PeerAt(room, id);
            var (t', r) := RegisterCandidates(t, room, id, token, candidates, fate);
            && Tells(at in t.peers && t.peers[at].token == token, t, t', r, fate)
            && t' == t.(peers := t'.peers) && t'.peers.Keys == t.peers.Keys
            && (forall x | x in t.peers && x != at :: t'.peers[x] == t.peers[x])
            && (at in t.peers ==> t'.peers[at] == t.peers[at].(candidates := t'.peers[at].candidates))
            && (r == Written ==> t'.peers[at].candidates == candidates)
            && (at in t.peers && t'.peers[at].candidates != t.peers[at].candidates ==> t'.peers[at].candidates == candidates)
  {
    var at := PeerAt(room, id);
    OneItem(at in t.peers && t.peers[at].token == token, fate);
    assert t == t.(peers := t.peers);
    hide Applied;
  }

  // Main result: a lease is renewed if and only if it has not run out, and then lasts the full time from now.
  lemma RenewMeans(t: Table, room: RoomId, now: int, fate: Fate)
    ensures var (t', r) := Renew(t, room, now, fate);
            && Tells(room in t.rooms && now < t.rooms[room].expiresAt, t, t', r, fate)
            && t' == t.(rooms := t'.rooms) && t'.rooms.Keys == t.rooms.Keys
            && (forall x | x in t.rooms && x != room :: t'.rooms[x] == t.rooms[x])
            && (room in t.rooms ==> t'.rooms[room] == t.rooms[room].(expiresAt := t'.rooms[room].expiresAt))
            && (r == Written ==> t'.rooms[room].expiresAt == now + ROOM_LEASE_MS)
            && (t' != t ==> room in t.rooms && t'.rooms[room].expiresAt == now + ROOM_LEASE_MS)
  {
    OneItem(RoomOpen(t, room, now), fate);
    assert t == t.(rooms := t.rooms);
    hide Applied;
  }

  // What a deleting write leaves: everything but the items it names.
  ghost predicate Removes(t: Table, t': Table, at: PeerAt, vip: Vip, nonce: Nonce, keys: set<string>, host: Option<PeerId>) {
    && t'.rooms == t.rooms
    && (forall x :: x in t'.peers <==> x in t.peers && x != at)
    && (forall x :: x in t'.vips <==> x in t.vips && x != VipAt(at.room, vip))
    && (forall x :: x in t'.names <==> x in t.names && !(x.room == at.room && x.key in keys))
    && (forall x :: x in t'.nonces <==> x in t.nonces && x != nonce)
    && (forall x :: x in t'.pairs <==> x in t.pairs && !(host.Some? && x == PairKey(at.room, host.value, at.id)))
    && KeepsValues(t, t')
  }

  predicate KeepsValues(t: Table, t': Table) {
    && (forall x | x in t'.peers && x in t.peers :: t'.peers[x] == t.peers[x])
    && (forall x | x in t'.vips && x in t.vips :: t'.vips[x] == t.vips[x])
    && (forall x | x in t'.names && x in t.names :: t'.names[x] == t.names[x])
    && (forall x | x in t'.nonces && x in t.nonces :: t'.nonces[x] == t.nonces[x])
    && (forall x | x in t'.pairs && x in t.pairs :: t'.pairs[x] == t.pairs[x])
  }

  lemma DeletedRemoves(t: Table, room: RoomId, id: PeerId, vip: Vip, nonce: Nonce, keys: set<string>, host: Option<PeerId>)
    ensures Removes(t, Deleted(t, room, id, vip, nonce, keys, host), PeerAt(room, id), vip, nonce, keys, host)
  {
    forall x
      ensures x in NamesAt(room, keys) <==> x.room == room && x.key in keys
    {
      assert x.room == room && x.key in keys ==> NameAt(room, x.key) == x;
    }
  }

  // Main result: a peer the host names as gone is removed, with just the items read of it, if and only if it is there.
  lemma ReleaseMeans(t: Table, room: RoomId, id: PeerId, vip: Vip, host: PeerId, nonce: Nonce, keys: set<string>, fate: Fate)
    ensures var (t', r) := ReleasePeer(t, room, id, vip, host, nonce, keys, fate);
            && Tells(PeerAt(room, id) in t.peers, t, t', r, fate)
            && (r == Written || t' != t ==> Removes(t, t', PeerAt(room, id), vip, nonce, keys, Some(host)))
  {
    OneItem(PeerAt(room, id) in t.peers, fate);
    DeletedRemoves(t, room, id, vip, nonce, keys, Some(host));
    hide Applied, Deleted, Removes;
  }

  // Main result: the server takes back a place, if and only if its peer has registered nothing for ninety seconds.
  lemma ReclaimMeans(t: Table, room: RoomId, id: PeerId, vip: Vip, nonce: Nonce, now: int, keys: set<string>, fate: Fate)
    ensures var at := PeerAt(room, id);
            var (t', r) := ReclaimPeer(t, room, id, vip, nonce, now, keys, fate);
            && Tells(at in t.peers && t.peers[at].candidates == [] && t.peers[at].joinedAt + 90000 <= now, t, t', r, fate)
            && (r == Written || t' != t ==> Removes(t, t', at, vip, nonce, keys, None))
  {
    OneItem(Reclaimable(t, room, id, now), fate);
    DeletedRemoves(t, room, id, vip, nonce, keys, None);
    hide Applied, Deleted, Removes;
  }

  // Main result: a pair is confirmed, once, if and only if both have registered candidates.
  lemma ConfirmMeans(t: Table, room: RoomId, host: PeerId, other: PeerId, pair: Pair, fate: Fate)
    ensures var (t', r) := ConfirmPair(t, room, host, other, pair, fate);
            var key := PairKey(room, host, other);
            var able := HasCandidates(t, PeerAt(room, host)) && HasCandidates(t, PeerAt(room, other));
            && (r == Confirmed || t' != t ==> able && key !in t.pairs && t' == t.(pairs := t.pairs[key := pair]))
            && (r == NotEligible ==> !able && t' == t)
            && (r == AlreadyConfirmed ==> key in t.pairs && t' == t)
            && (Quiet(fate, 3) ==> r == if !able then NotEligible else if key in t.pairs then AlreadyConfirmed else Confirmed)
  {
    var holds := ConfirmHolds(t, room, host, other);
    AppliedMeansAllHold(holds, fate);
    if fate.Delivered? {
      ConfirmCodes(holds, fate.noise);
    }
    if AllHold(holds) {
      assert holds[0] && holds[1] && holds[2];
    }
    if holds[0] && holds[1] && holds[2] {
      assert AllHold(holds);
    }
    hide CodesOf, Classify, HasCandidates;
  }

  lemma ConfirmCodes(holds: seq<bool>, noise: nat -> bool)
    requires |holds| == 3
    ensures var codes := CodesOf(holds, noise);
            var kind := Classify(ConfirmLayout(), codes, ConfirmPriority());
            && (Clean(codes) ==> AllHold(holds))
            && (kind == Some(KPeerCheck) ==> !(holds[0] && holds[1]))
            && (kind == Some(KPair) ==> !holds[2])
            && ((forall i | 0 <= i < 3 :: !noise(i)) ==>
                  && (Clean(codes) <==> holds[0] && holds[1] && holds[2])
                  && (!Clean(codes) ==> kind == if holds[0] && holds[1] then Some(KPair) else Some(KPeerCheck)))
  {
    var codes := CodesOf(holds, noise);
    var l, p := ConfirmLayout(), ConfirmPriority();
    assert l[0] == KPeerCheck && l[1] == KPeerCheck && l[2] == KPair;
    assert p[1..] == [KPair] && p[1..][1..] == [];
    assert Failed(l, codes, KPeerCheck) <==> codes[0] == ConditionFailed || codes[1] == ConditionFailed;
    assert Failed(l, codes, KPair) <==> codes[2] == ConditionFailed;
    assert !Failed(l, codes, KNonce);
    assert FirstFailed(l, codes, [KPair]) == if Failed(l, codes, KPair) then Some(KPair) else None;
    assert FirstFailed(l, codes, p) == if Failed(l, codes, KPeerCheck) then Some(KPeerCheck) else FirstFailed(l, codes, [KPair]);
    if Clean(codes) {
      assert codes[0] == codes[1] == codes[2] == NoFailure;
    }
    if forall i | 0 <= i < 3 :: !noise(i) {
      assert !noise(0) && !noise(1) && !noise(2);
      assert OtherCode !in codes;
    }
  }

  // ---------------------------------------------------------------- taking a place

  // Just this peer's items are new: its record without candidates, its address, its name and its nonce.
  ghost predicate Adds(t: Table, t': Table, c: Claim) {
    var at, vip, name := PeerAt(c.room, c.id), VipAt(c.room, c.vip), NameAt(c.room, NameKey(c.name));
    && (forall x :: x in t'.peers <==> x in t.peers || x == at)
    && (forall x :: x in t'.vips <==> x in t.vips || x == vip)
    && (forall x :: x in t'.names <==> x in t.names || x == name)
    && (forall x :: x in t'.nonces <==> x in t.nonces || x == c.nonce)
    && t'.peers[at] == Peer(c.token, c.vip, c.name, c.nonce, c.now, [])
    && t'.vips[vip] == c.id && t'.names[name] == c.id && t'.nonces[c.nonce] == at
    && t'.pairs == t.pairs && KeepsValues(t, t')
  }

  lemma ClaimAdds(t: Table, t': Table, c: Claim)
    requires PeerAt(c.room, c.id) !in t.peers && VipAt(c.room, c.vip) !in t.vips
    requires NameAt(c.room, NameKey(c.name)) !in t.names && c.nonce !in t.nonces
    requires t' == Claimed(t, c).(rooms := t'.rooms)
    ensures Adds(t, t', c)
  {
    hide NameKey;
  }

  // Main result: a join that writes adds just the items of its peer to an open room, and nothing else writes.
  lemma ClaimedRooms(t: Table, c: Claim)
    ensures Claimed(t, c) == Claimed(t, c).(rooms := t.rooms)
  {
  }

  lemma AddsNonce(t: Table, t': Table, c: Claim)
    requires Adds(t, t', c)
    ensures c.nonce in t'.nonces
  {
  }

  lemma JoinedIsApplied(t: Table, c: Claim, fate: Fate)
    ensures JoinResult(JoinHolds(t, c), fate) == Joined ==> Applied(JoinHolds(t, c), fate)
  {
    JoinVerdictsAreTrue(t, c, fate);
  }

  lemma CreatedIsApplied(t: Table, c: Claim, fate: Fate)
    ensures CreateResult(CreateHolds(t, c), fate) == Created ==> Applied(CreateHolds(t, c), fate)
  {
  }

  lemma JoinWrites(t: Table, c: Claim, fate: Fate)
    ensures var (t', r) := JoinRoom(t, c, fate);
            && (r == Joined || t' != t ==>
                  c.room in t.rooms && c.now < t.rooms[c.room].expiresAt && t'.rooms == t.rooms && Adds(t, t', c))
            && (r == Joined ==> t' != t)
  {
    hide JoinResult, Claimed, Adds, NameKey;
    var t' := JoinRoom(t, c, fate).0;
    AppliedMeansAllHold(JoinHolds(t, c), fate);
    if Applied(JoinHolds(t, c), fate) {
      JoinHoldsMean(t, c);
      assert JoinHolds(t, c)[0];
      ClaimedRooms(t, c);
      ClaimAdds(t, t', c);
      AddsNonce(t, t', c);
    }
    JoinedIsApplied(t, c, fate);
  }

  // Main result: creating a room adds it with its full lease and its host's items, under a room id nobody uses.
  lemma CreateWrites(t: Table, c: Claim, fate: Fate)
    ensures var (t', r) := CreateRoom(t, c, fate);
            && (r == Created || t' != t ==>
                  && c.room !in t.rooms && Adds(t, t', c)
                  && t'.rooms == t.rooms[c.room := Room(c.now, c.now + ROOM_LEASE_MS, c.id)])
            && (r == Created ==> t' != t)
  {
    hide CreateResult, Claimed, Adds, NameKey;
    var t' := CreateRoom(t, c, fate).0;
    AppliedMeansAllHold(CreateHolds(t, c), fate);
    if Applied(CreateHolds(t, c), fate) {
      CreateHoldsMean(t, c);
      assert t' == Claimed(t, c).(rooms := t'.rooms);
      ClaimAdds(t, t', c);
      assert c.room in t'.rooms;
    }
    CreatedIsApplied(t, c, fate);
  }

  // The order of the verdicts of a create: a used nonce explains everything, then a used room id; a peer, address or
  // name that is left over under a new room id is an internal error.
  lemma CreateVerdicts(t: Table, c: Claim, fate: Fate)
    requires Quiet(fate, 5)
    ensures CreateRoom(t, c, fate).1 ==
            if c.nonce in t.nonces then NonceExists
            else if c.room in t.rooms then RoomIdTaken
            else if PeerAt(c.room, c.id) in t.peers || VipAt(c.room, c.vip) in t.vips || NameAt(c.room, NameKey(c.name)) in t.names
            then Internal
            else Created
  {
    hide NameKey;
    var holds := CreateHolds(t, c);
    var codes := CodesOf(holds, fate.noise);
    CreateCodes(holds, fate.noise);
    hide CodesOf, Classify;
  }

  lemma CreateCodes(holds: seq<bool>, noise: nat -> bool)
    requires |holds| == 5 && forall i | 0 <= i < 5 :: !noise(i)
    ensures var codes := CodesOf(holds, noise);
            var kind := Classify(CreateLayout(), codes, CreatePriority());
            && (Clean(codes) <==> holds[0] && holds[1] && holds[2] && holds[3] && holds[4])
            && (!Clean(codes) ==> kind == if !holds[4] then Some(KNonce) else if !holds[0] then Some(KRoomPut) else None)
  {
    var codes := CodesOf(holds, noise);
    var l, p := CreateLayout(), CreatePriority();
    assert !noise(0) && !noise(1) && !noise(2) && !noise(3) && !noise(4);
    assert l[0] == KRoomPut && l[1] == KPeer && l[2] == KVip && l[3] == KName && l[4] == KNonce;
    assert p[1..] == [];
    assert Failed(l, codes, KRoomPut) <==> codes[0] == ConditionFailed;
    assert Failed(l, codes, KNonce) <==> codes[4] == ConditionFailed;
    assert OtherCode !in codes;
    if Clean(codes) {
      assert codes[0] == codes[1] == codes[2] == codes[3] == codes[4] == NoFailure;
    }
  }

  // ---------------------------------------------------------------- the answers of create, join and register

  // Whole seconds, rounded up: never more than a second too many, and none once the lease is over.
  lemma ExpiresInMeans(expiresAt: int, now: int)
    ensures var s := ExpiresIn(expiresAt, now);
            if expiresAt <= now then s == 0 else s >= 1 && (s - 1) * 1000 < expiresAt - now <= s * 1000
  {
  }

  // Main result: the last step of a join answers by the table it meets: the place it was given, or the first reason
  // against it, and goes on exactly where another address or another peer id may do better.
  lemma JoinAnswers(t: Table, q: Request, e: Input)
    requires q.Joining? && Quiet(e.fate, 5)
    ensures var (t', r) := JoinStep(t, q, e);
            var vip := HOST_VIP + 1 + q.index;
            if q.nonce in t.nonces then r == Reread(q.nonce, Some(q.room), q.now)
            else if !(q.room in t.rooms && q.now < t.rooms[q.room].expiresAt) then r == JoinGone(q.room)
            else if NameAt(q.room, NameKey(q.name)) in t.names then r == Done(Error(NameIsTaken))
            else if VipAt(q.room, vip) in t.vips then
              r == if q.index + 1 < 4 then q.(index := q.index + 1) else Done(Error(RoomFull))
            else if PeerAt(q.room, q.id) in t.peers then
              r == if q.drawn < 4 then q.(drawn := q.drawn + 1, id := e.id) else Done(Error(InternalError))
            else
              && r == Done(Issued(q.room, q.id, q.token, vip, ExpiresIn(q.expiresAt, q.now)))
              && Adds(t, t', Claim(q.room, vip, q.id, q.token, q.nonce, q.now, q.name))
  {
    hide JoinRoom, NameKey, Adds;
    var noise := e.fate.noise;
    assert e.fate == Delivered(noise);
    JoinVerdicts(t, JoinClaim(q), noise);
    JoinWrites(t, JoinClaim(q), e.fate);
  }

  // Main result: the same of a create.
  lemma CreateAnswers(t: Table, q: Request, e: Input)
    requires q.Creating? && Quiet(e.fate, 5)
    ensures var (t', r) := CreateStep(t, q, e);
            if q.nonce in t.nonces then r == Reread(q.nonce, None, q.now)
            else if e.room in t.rooms then
              r == if q.attempts + 1 < 4 then q.(attempts := q.attempts + 1) else Done(Error(InternalError))
            else if PeerAt(e.room, q.id) in t.peers || VipAt(e.room, HOST_VIP) in t.vips || NameAt(e.room, NameKey(q.name)) in t.names
            then r == Done(Error(InternalError))
            else
              && r == Done(Issued(e.room, q.id, q.token, HOST_VIP, 120))
              && Adds(t, t', Claim(e.room, HOST_VIP, q.id, q.token, q.nonce, q.now, q.name))
              && t'.rooms == t.rooms[e.room := Room(q.now, q.now + ROOM_LEASE_MS, q.id)]
  {
    hide CreateRoom, NameKey, Adds;
    CreateVerdicts(t, CreateClaim(q, e.room), e.fate);
    CreateWrites(t, CreateClaim(q, e.room), e.fate);
  }

  // Main result: a retried create or join gets the place its nonce was given, as long as the room stands.
  lemma ReplayAnswers(t: Table, q: Request)
    requires q.Replay?
    ensures var r := ReplayStep(t, q);
            if q.at.room !in t.rooms then r == Done(Error(RoomNotFound))
            else if t.rooms[q.at.room].expiresAt <= q.now then r == Done(Error(RoomExpired))
            else if q.at !in t.peers then r == Done(Error(InternalError))
            else r == Done(Issued(q.at.room, q.at.id, t.peers[q.at].token, t.peers[q.at].vip, ExpiresIn(t.rooms[q.at.room].expiresAt, q.now)))
  {
    hide Query, ExpiresIn;
    QueryRoom(t, q.at.room, q.at.id);
    assert PeerAt(q.at.room, q.at.id) == q.at;
  }

  // Main result: registering is refused for the first reason that holds, before and at the write.
  lemma RegisterAnswers(t: Table, q: Request, e: Input)
    ensures q.Register? ==>
              var r := RegisterReads(t, q);
              var me := PeerAt(q.room, q.id);
              if q.candidates == [] then r == Done(Error(BadRequest))
              else if q.room !in t.rooms then r == Done(Error(RoomNotFound))
              else if t.rooms[q.room].expiresAt <= q.now then r == Done(Error(RoomExpired))
              else if me !in t.peers || t.peers[me].token != q.token then r == Done(Error(Unauthorized))
              else r == Registering(q.room, q.id, q.token, q.candidates)
    ensures q.Registering? && Quiet(e.fate, 1) ==>
              var (t', r) := RegisterStep(t, q, e);
              var me := PeerAt(q.room, q.id);
              if me !in t.peers || t.peers[me].token != q.token then r == Done(Error(Unauthorized)) && t' == t
              else r == Done(Accepted(|q.candidates|)) && t'.peers == t.peers[me := t.peers[me].(candidates := q.candidates)]
  {
    hide Query;
    if q.Register? {
      QueryRoom(t, q.room, q.id);
    } else if q.Registering? {
      RegisterMeans(t, q.room, q.id, q.token, q.candidates, e.fate);
    }
  }

  // ---------------------------------------------------------------- what a host report does and claims

  // Main result: only the room's host may report, and the report then looks at everyone it found, each once.
  lemma ReportStartMeans(t: Table, q: Request, e: Input)
    requires q.HostReport? && Lists(e.order, Query(t, q.room))
    ensures var r := ReportStart(t, q, e);
            var me := PeerAt(q.room, q.id);
            if q.room !in t.rooms then r == Done(Error(RoomNotFound))
            else if t.rooms[q.room].expiresAt <= q.now then r == Done(Error(RoomExpired))
            else if q.id != t.rooms[q.room].host || me !in t.peers || t.peers[me].token != q.token then r == Done(Error(Unauthorized))
            else
              && r.Reporting? && r.work.room == q.room && r.work.host == q.id && r.work.now == q.now
              && r.work.view == Query(t, q.room) && r.work.departed == q.departed && r.work.confirm == q.confirm
              && NamesAll(t, q.room, r.work.reclaim) && r.work.skip == (set id | id in q.departed)
              && r.work.released == [] && r.work.confirmed == []
  {
    hide Query, Lists, NamesAll;
    QueryRoom(t, q.room, q.id);
    OrderNames(t, q.room, e.order);
  }

  // A peer the host calls gone leaves if it is there; the host itself and a peer the report never saw do not.
  lemma DepartedLeaves(t: Table, w: Work, e: Input)
    requires w.departed != [] && Quiet(e.fate, 1)
    ensures var (t', r) := ReportStep(t, w, e);
            var id := w.departed[0];
            var rest := w.(departed := w.departed[1..]);
            if id != w.host && id in w.view.peers && PeerAt(w.room, id) in t.peers then
              && r == Reporting(rest.(released := w.released + [id]))
              && Removes(t, t', PeerAt(w.room, id), w.view.peers[id].vip, w.view.peers[id].nonce, KeysOf(w.view, id), Some(w.host))
            else r == Reporting(rest) && t' == t
  {
    hide ReleasePeer, Removes, KeysOf;
    var id := w.departed[0];
    if id != w.host && id in w.view.peers {
      var p := w.view.peers[id];
      ReleaseMeans(t, w.room, id, p.vip, w.host, p.nonce, KeysOf(w.view, id), e.fate);
    }
  }

  // A place is taken back when its peer was without candidates for ninety seconds, both as read and as it is now.
  lemma ReclaimLeaves(t: Table, w: Work, e: Input)
    requires w.departed == [] && w.reclaim != [] && Quiet(e.fate, 1)
    ensures var (t', r) := ReportStep(t, w, e);
            var id := w.reclaim[0];
            var rest := w.(reclaim := w.reclaim[1..]);
            if ToReclaim(w, id) && Reclaimable(t, w.room, id, w.now) then
              && r == Reporting(rest.(released := w.released + [id], skip := w.skip + {id}))
              && Removes(t, t', PeerAt(w.room, id), w.view.peers[id].vip, w.view.peers[id].nonce, KeysOf(w.view, id), None)
            else r == Reporting(rest) && t' == t
  {
    hide ReclaimPeer, Removes, KeysOf;
    var id := w.reclaim[0];
    if ToReclaim(w, id) {
      assert id in w.view.peers;
      hide ToReclaim;
      var p := w.view.peers[id];
      ReclaimMeans(t, w.room, id, p.vip, p.nonce, w.now, KeysOf(w.view, id), e.fate);
    }
  }

  // A pair the host asks for is confirmed when both had candidates and no pair, as read and as it is now.
  lemma ConfirmPairs(t: Table, w: Work, e: Input)
    requires w.departed == [] && w.reclaim == [] && w.confirm != [] && Quiet(e.fate, 3)
    ensures var (t', r) := ReportStep(t, w, e);
            var id := w.confirm[0];
            var rest := w.(confirm := w.confirm[1..]);
            var key := PairKey(w.room, w.host, id);
            if ToConfirm(w, id) && HasCandidates(t, PeerAt(w.room, w.host)) && HasCandidates(t, PeerAt(w.room, id)) && key !in t.pairs then
              r == Reporting(rest.(confirmed := w.confirmed + [id])) && t' == t.(pairs := t.pairs[key := e.clock])
            else r == Reporting(rest) && t' == t
  {
    hide ConfirmPair, ToConfirm, HasCandidates;
    ConfirmMeans(t, w.room, w.host, w.confirm[0], e.clock, e.fate);
  }

  // The last write of a report: the lease, or the end of it.
  lemma RenewAnswers(t: Table, w: Work, e: Input)
    requires Quiet(e.fate, 1)
    ensures var (t', r) := RenewStep(t, w, e);
            if w.room in t.rooms && w.now < t.rooms[w.room].expiresAt then
              r == Reading(w) && t' == t.(rooms := t.rooms[w.room := t.rooms[w.room].(expiresAt := w.now + ROOM_LEASE_MS)])
            else r == Done(Error(RoomExpired)) && t' == t
  {
    RenewMeans(t, w.room, w.now, e.fate);
    hide Applied;
  }

  // What the work notes is what the step did: a peer that went, a pair that came.
  ghost predicate NotesRemoval(t: Table, t': Table, room: RoomId, before: seq<PeerId>, after: seq<PeerId>) {
    var gone := t.peers.Keys - t'.peers.Keys;
    if gone == {} then after == before
    else after != [] && after[..|after| - 1] == before && gone == {PeerAt(room, after[|after| - 1])}
  }

  ghost predicate NotesPair(t: Table, t': Table, room: RoomId, host: PeerId, before: seq<PeerId>, after: seq<PeerId>) {
    var came := t'.pairs.Keys - t.pairs.Keys;
    if came == {} then after == before
    else after != [] && after[..|after| - 1] == before && came == {PairKey(room, host, after[|after| - 1])}
  }

  ghost predicate WorkNotes(t: Table, t': Table, w: Work, w': Work) {
    && w'.room == w.room && w'.host == w.host
    && NotesRemoval(t, t', w.room, w.released, w'.released) && NotesPair(t, t', w.room, w.host, w.confirmed, w'.confirmed)
  }

  lemma NothingNoted(t: Table, w: Work, w': Work)
    requires w'.room == w.room && w'.host == w.host && w'.released == w.released && w'.confirmed == w.confirmed
    ensures WorkNotes(t, t, w, w')
  {
    assert t.peers.Keys - t.peers.Keys == {} && t.pairs.Keys - t.pairs.Keys == {};
  }

  lemma RemovalNoted(t: Table, t': Table, w: Work, w': Work, id: PeerId, vip: Vip, nonce: Nonce, keys: set<string>, host: Option<PeerId>)
    requires w'.room == w.room && w'.host == w.host && w'.released == w.released + [id] && w'.confirmed == w.confirmed
    requires PeerAt(w.room, id) in t.peers && Removes(t, t', PeerAt(w.room, id), vip, nonce, keys, host)
    ensures WorkNotes(t, t', w, w')
  {
    hide KeepsValues;
    assert t.peers.Keys - t'.peers.Keys == {PeerAt(w.room, id)};
    assert t'.pairs.Keys - t.pairs.Keys == {};
  }

  lemma ReleaseVerdict(t: Table, room: RoomId, id: PeerId, vip: Vip, host: PeerId, nonce: Nonce, keys: set<string>, fate: Fate)
    ensures ReleasePeer(t, room, id, vip, host, nonce, keys, fate).1 == DeleteResult(PeerAt(room, id) in t.peers, fate)
  {
  }

  lemma ReclaimVerdict(t: Table, room: RoomId, id: PeerId, vip: Vip, nonce: Nonce, now: int, keys: set<string>, fate: Fate)
    ensures ReclaimPeer(t, room, id, vip, nonce, now, keys, fate).1 == DeleteResult(Reclaimable(t, room, id, now), fate)
  {
  }

  lemma ReleaseNotes(t: Table, w: Work, e: Input)
    requires w.departed != []
    ensures var (t', r) := ReleaseStep(t, w, e);
            r == Done(Error(InternalError)) || (r.Reporting? && WorkNotes(t, t', w, r.work))
  {
    hide ReleasePeer, Removes, KeysOf, WorkNotes;
    var id := w.departed[0];
    var rest := w.(departed := w.departed[1..]);
    NothingNoted(t, w, rest);
    if id != w.host && id in w.view.peers {
      var p := w.view.peers[id];
      var keys := KeysOf(w.view, id);
      ReleaseMeans(t, w.room, id, p.vip, w.host, p.nonce, keys, e.fate);
      DeleteVerdicts(PeerAt(w.room, id) in t.peers, e.fate);
      var (t', r) := ReleasePeer(t, w.room, id, p.vip, w.host, p.nonce, keys, e.fate);
      ReleaseVerdict(t, w.room, id, p.vip, w.host, p.nonce, keys, e.fate);
      if r == Written {
        RemovalNoted(t, t', w, rest.(released := w.released + [id]), id, p.vip, p.nonce, keys, Some(w.host));
      }
    }
  }

  lemma DeleteVerdicts(hold: bool, fate: Fate)
    ensures DeleteResult(hold, fate) in {Written, Refused, Internal}
  {
  }

  lemma ReclaimNotes(t: Table, w: Work, e: Input)
    requires w.reclaim != []
    ensures var (t', r) := ReclaimStep(t, w, e);
            r == Done(Error(InternalError)) || (r.Reporting? && WorkNotes(t, t', w, r.work))
  {
    hide ReclaimPeer, Removes, KeysOf, WorkNotes;
    var id := w.reclaim[0];
    var rest := w.(reclaim := w.reclaim[1..]);
    NothingNoted(t, w, rest);
    if ToReclaim(w, id) {
      assert id in w.view.peers;
      hide ToReclaim;
      var p := w.view.peers[id];
      var keys := KeysOf(w.view, id);
      ReclaimMeans(t, w.room, id, p.vip, p.nonce, w.now, keys, e.fate);
      DeleteVerdicts(Reclaimable(t, w.room, id, w.now), e.fate);
      var (t', r) := ReclaimPeer(t, w.room, id, p.vip, p.nonce, w.now, keys, e.fate);
      ReclaimVerdict(t, w.room, id, p.vip, p.nonce, w.now, keys, e.fate);
      if r == Written {
        RemovalNoted(t, t', w, rest.(released := w.released + [id], skip := w.skip + {id}), id, p.vip, p.nonce, keys, None);
      }
    }
  }

  lemma ConfirmNotes(t: Table, w: Work, e: Input)
    requires w.confirm != []
    ensures var (t', r) := ConfirmStep(t, w, e);
            r == Done(Error(InternalError)) || (r.Reporting? && WorkNotes(t, t', w, r.work))
  {
    hide ConfirmPair, ToConfirm, WorkNotes, HasCandidates;
    var id := w.confirm[0];
    var rest := w.(confirm := w.confirm[1..]);
    NothingNoted(t, w, rest);
    if ToConfirm(w, id) {
      ConfirmMeans(t, w.room, w.host, id, e.clock, e.fate);
      var (t', r) := ConfirmPair(t, w.room, w.host, id, e.clock, e.fate);
      ConfirmChanges(t, w, id, e);
      if r == Confirmed {
        PairNoted(t, t', w, rest.(confirmed := w.confirmed + [id]), id, e.clock);
      }
    }
  }

  // A confirmation that is not answered as one has not written, or is not answered at all.
  lemma ConfirmChanges(t: Table, w: Work, id: PeerId, e: Input)
    ensures var (t', r) := ConfirmPair(t, w.room, w.host, id, e.clock, e.fate);
            && r in {Confirmed, NotEligible, AlreadyConfirmed, Internal}
            && (r != Confirmed && r != Internal ==> t' == t)
  {
    ConfirmMeans(t, w.room, w.host, id, e.clock, e.fate);
    hide Classify, ConfirmHolds, Applied;
  }

  lemma PairNoted(t: Table, t': Table, w: Work, w': Work, id: PeerId, pair: Pair)
    requires w'.room == w.room && w'.host == w.host && w'.released == w.released && w'.confirmed == w.confirmed + [id]
    requires PairKey(w.room, w.host, id) !in t.pairs && t' == t.(pairs := t.pairs[PairKey(w.room, w.host, id) := pair])
    ensures WorkNotes(t, t', w, w')
  {
    assert t.peers.Keys - t'.peers.Keys == {};
    assert t'.pairs.Keys - t.pairs.Keys == {PairKey(w.room, w.host, id)};
  }

  lemma StepNotes(t: Table, w: Work, e: Input)
    ensures var (t', r) := ReportStep(t, w, e);
            || r == Done(Error(InternalError))
            || ((r.Reporting? || r.Renewing?) && WorkNotes(t, t', w, r.work))
  {
    hide ReleaseStep, ReclaimStep, ConfirmStep, WorkNotes;
    if w.departed != [] {
      ReleaseNotes(t, w, e);
    } else if w.reclaim != [] {
      ReclaimNotes(t, w, e);
    } else if w.confirm != [] {
      ConfirmNotes(t, w, e);
    } else {
      NothingNoted(t, w, w);
    }
  }

  // The peers that steps of this request removed from the room, in order, are just these.
  ghost predicate RemovedBy(labels: seq<Label>, rid: nat, room: RoomId, ids: seq<PeerId>)
    requires LegalRun(labels)
    decreases |labels|
  {
    if labels == [] then ids == []
    else
      var before, l := labels[..|labels| - 1], labels[|labels| - 1];
      if l.Act? && l.rid == rid then
        var s := StateAfter(before);
        exists earlier :: NotesRemoval(s.table, Next(s, l).table, room, earlier, ids) && RemovedBy(before, rid, room, earlier)
      else RemovedBy(before, rid, room, ids)
  }

  // The pairs with the host that steps of this request confirmed, in order, are just these.
  ghost predicate PairedBy(labels: seq<Label>, rid: nat, room: RoomId, host: PeerId, ids: seq<PeerId>)
    requires LegalRun(labels)
    decreases |labels|
  {
    if labels == [] then ids == []
    else
      var before, l := labels[..|labels| - 1], labels[|labels| - 1];
      if l.Act? && l.rid == rid then
        var s := StateAfter(before);
        exists earlier :: NotesPair(s.table, Next(s, l).table, room, host, earlier, ids) && PairedBy(before, rid, room, host, earlier)
      else PairedBy(before, rid, room, host, ids)
  }

  // Where a request stands with this room and host: nothing done before its first step, and then what its work notes.
  ghost predicate ToldSoFar(labels: seq<Label>, rid: nat, room: RoomId, host: PeerId)
    requires LegalRun(labels)
  {
    var requests := StateAfter(labels).requests;
    if rid !in requests || requests[rid].HostReport? then
      RemovedBy(labels, rid, room, []) && PairedBy(labels, rid, room, host, [])
    else
      IsReport(requests[rid]) && requests[rid].work.room == room && requests[rid].work.host == host ==>
        RemovedBy(labels, rid, room, requests[rid].work.released) && PairedBy(labels, rid, room, host, requests[rid].work.confirmed)
  }

  predicate IsReport(q: Request) {
    q.Reporting? || q.Renewing? || q.Reading?
  }

  // A step that goes on with a report, or starts one, notes what it did.
  lemma GoesOnNoting(t: Table, q: Request, e: Input)
    requires InputFits(t, q, e) && !q.Done?
    ensures var (t', r) := Step(t, q, e);
            && !r.HostReport?
            && (r.Reporting? || r.Renewing? || r.Reading? ==>
                  if q.HostReport? then WorkNotes(t, t', r.work.(released := [], confirmed := []), r.work)
                  else (q.Reporting? || q.Renewing?) && WorkNotes(t, t', q.work, r.work))
  {
    hide ReportStart, ReportStep, RenewStep, WorkNotes;
    if q.HostReport? {
      assert Step(t, q, e) == (t, ReportStart(t, q, e));
      hide Step;
      StartNotes(t, q, e);
    } else if q.Reporting? {
      assert Step(t, q, e) == ReportStep(t, q.work, e);
      hide Step;
      StepNotes(t, q.work, e);
    } else if q.Renewing? {
      assert Step(t, q, e) == RenewStep(t, q.work, e);
      hide Step;
      RenewNotes(t, q.work, e);
    } else {
      hide Step;
      NotAReport(t, q, e);
    }
  }

  lemma StartNotes(t: Table, q: Request, e: Input)
    requires q.HostReport? && InputFits(t, q, e)
    ensures var r := ReportStart(t, q, e);
            r.Done? || (r.Reporting? && WorkNotes(t, t, r.work.(released := [], confirmed := []), r.work))
  {
    hide Query, Lists, WorkNotes;
    var r := ReportStart(t, q, e);
    if r.Reporting? {
      NothingNoted(t, r.work.(released := [], confirmed := []), r.work);
    }
  }

  lemma NotAReport(t: Table, q: Request, e: Input)
    requires InputFits(t, q, e) && !q.Done? && !q.HostReport? && !q.Reporting? && !q.Renewing?
    ensures var r := Step(t, q, e).1;
            !r.HostReport? && !r.Reporting? && !r.Renewing? && !r.Reading?
  {
    hide CreateRoom, JoinRoom, RegisterCandidates, Query, Elements, ElementOf, InputFits;
  }

  lemma RenewNotes(t: Table, w: Work, e: Input)
    ensures var (t', r) := RenewStep(t, w, e);
            r.Done? || (r == Reading(w) && WorkNotes(t, t', w, w))
  {
    RenewMeans(t, w.room, w.now, e.fate);
    var t' := RenewStep(t, w, e).0;
    assert t.peers.Keys - t'.peers.Keys == {} && t'.pairs.Keys - t.pairs.Keys == {};
    hide Applied;
  }

  lemma {:induction false} EveryStepIsTold(labels: seq<Label>, rid: nat, room: RoomId, host: PeerId)
    requires LegalRun(labels)
    ensures ToldSoFar(labels, rid, room, host)
    decreases |labels|
  {
    if labels == [] {
    } else {
      var before, l := labels[..|labels| - 1], labels[|labels| - 1];
      EveryStepIsTold(before, rid, room, host);
      hide LegalRun, ToldSoFar;
      if l.Act? && l.rid == rid {
        ActIsTold(labels, rid, room, host);
      } else {
        OthersAreSilent(labels, rid, room, host);
      }
    }
  }

  lemma LastLabel(labels: seq<Label>)
    requires LegalRun(labels) && labels != []
    ensures var before, l := labels[..|labels| - 1], labels[|labels| - 1];
            LegalRun(before) && Legal(StateAfter(before), l) && StateAfter(labels) == Next(StateAfter(before), l)
  {
    hide Legal, Next;
  }

  // Another request's step, or its arrival, leaves this one and what it did alone.
  lemma OthersAreSilent(labels: seq<Label>, rid: nat, room: RoomId, host: PeerId)
    requires labels != [] && LegalRun(labels) && LegalRun(labels[..|labels| - 1])
    requires ToldSoFar(labels[..|labels| - 1], rid, room, host)
    requires var l := labels[|labels| - 1]; !(l.Act? && l.rid == rid)
    ensures ToldSoFar(labels, rid, room, host)
  {
    hide LegalRun, StateAfter, Step, NotesRemoval, NotesPair;
    var before, l := labels[..|labels| - 1], labels[|labels| - 1];
    LastLabel(labels);
    var s := StateAfter(before);
    assert if l.Arrive? && l.rid == rid then rid !in s.requests && IsStart(Next(s, l).requests[rid])
           else (rid in s.requests <==> rid in Next(s, l).requests) && (rid in s.requests ==> s.requests[rid] == Next(s, l).requests[rid]);
  }

  lemma ToldBefore(labels: seq<Label>, rid: nat, room: RoomId, host: PeerId)
    requires LegalRun(labels) && ToldSoFar(labels, rid, room, host) && rid in StateAfter(labels).requests
    ensures var q := StateAfter(labels).requests[rid];
            if q.HostReport? then RemovedBy(labels, rid, room, []) && PairedBy(labels, rid, room, host, [])
            else IsReport(q) && q.work.room == room && q.work.host == host ==>
                   RemovedBy(labels, rid, room, q.work.released) && PairedBy(labels, rid, room, host, q.work.confirmed)
  {
    hide LegalRun, StateAfter, RemovedBy, PairedBy;
  }

  lemma ToldNow(labels: seq<Label>, rid: nat, room: RoomId, host: PeerId, r: Request)
    requires LegalRun(labels) && rid in StateAfter(labels).requests && StateAfter(labels).requests[rid] == r && !r.HostReport?
    requires IsReport(r) && r.work.room == room && r.work.host == host ==>
               RemovedBy(labels, rid, room, r.work.released) && PairedBy(labels, rid, room, host, r.work.confirmed)
    ensures ToldSoFar(labels, rid, room, host)
  {
    hide LegalRun, StateAfter, RemovedBy, PairedBy;
  }

  lemma ActIsTold(labels: seq<Label>, rid: nat, room: RoomId, host: PeerId)
    requires labels != [] && LegalRun(labels) && LegalRun(labels[..|labels| - 1])
    requires ToldSoFar(labels[..|labels| - 1], rid, room, host)
    requires var l := labels[|labels| - 1]; l.Act? && l.rid == rid
    ensures ToldSoFar(labels, rid, room, host)
  {
    hide LegalRun, StateAfter, NotesRemoval, NotesPair, ToldSoFar, RemovedBy, PairedBy;
    var before, l := labels[..|labels| - 1], labels[|labels| - 1];
    LastLabel(labels);
    var s := StateAfter(before);
    var q := s.requests[rid];
    GoesOnNoting(s.table, q, l.input);
    var (t', r) := Step(s.table, q, l.input);
    hide Step;
    assert Next(s, l).requests[rid] == r && Next(s, l).table == t';
    if IsReport(r) && r.work.room == room && r.work.host == host {
      var w := if q.HostReport? then r.work.(released := [], confirmed := []) else q.work;
      ToldBefore(before, rid, room, host);
      OneMoreNoted(labels, rid, w, r.work);
    }
    ToldNow(labels, rid, room, host, r);
  }

  lemma OneMoreNoted(labels: seq<Label>, rid: nat, w: Work, w': Work)
    requires LegalRun(labels) && labels != [] && LegalRun(labels[..|labels| - 1])
    requires var l := labels[|labels| - 1]; l.Act? && l.rid == rid
    requires var s, l := StateAfter(labels[..|labels| - 1]), labels[|labels| - 1];
             Legal(s, l) && WorkNotes(s.table, Next(s, l).table, w, w')
    requires RemovedBy(labels[..|labels| - 1], rid, w.room, w.released)
    requires PairedBy(labels[..|labels| - 1], rid, w.room, w.host, w.confirmed)
    ensures RemovedBy(labels, rid, w'.room, w'.released) && PairedBy(labels, rid, w'.room, w'.host, w'.confirmed)
  {
    hide LegalRun, StateAfter, Step, Legal, Next, NotesRemoval, NotesPair;
  }

  // Main result: whatever else goes on meanwhile, a host report that is answered names as released exactly the peers its
  // own steps removed from the room, and as confirmed exactly the pairs they added, in order; and it lists the others
  // as the table has them at that moment.
  lemma ReportIsTrue(labels: seq<Label>, rid: nat, e: Input)
    requires LegalRun(labels) && rid in StateAfter(labels).requests
    requires var s := StateAfter(labels); s.requests[rid].Reading? && Lists(e.order, Query(s.table, s.requests[rid].work.room))
    ensures var s := StateAfter(labels);
            var w := s.requests[rid].work;
            var r := ReadBack(s.table, w, e);
            r.Done? && (r.reply.Report? ==>
                          && RemovedBy(labels, rid, w.room, r.reply.released)
                          && PairedBy(labels, rid, w.room, w.host, r.reply.confirmed)
                          && ListsOthers(s.table, w.room, w.host, r.reply.elements))
  {
    var s := StateAfter(labels);
    EveryStepIsTold(labels, rid, s.requests[rid].work.room, s.requests[rid].work.host);
    ReadBackMeans(s.table, s.requests[rid].work, e);
    hide LegalRun, StateAfter, Query, Lists, RemovedBy, PairedBy, ListsOthers, ReadBack;
  }
}
