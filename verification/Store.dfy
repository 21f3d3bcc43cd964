/**
 The store as the object of control-server/controlplane/store.py: its writes change the items
 in place, one transaction at a time, each proved against the function of RoomTable on the
 value View() of all the items.
 */
module Store {
  import opened Wrappers
  import opened RoomTable

  function KeySet(keys: seq<string>): set<string> {
    set k | k in keys
  }

  class Store {
    var rooms: map<RoomId, Room>
    var peers: map<PeerAt, Peer>
    var vips: map<VipAt, PeerId>
    var names: map<NameAt, PeerId>
    var pairs: map<PairAt, Pair>
    var nonces: map<Nonce, PeerAt>

    function View(): Table
      reads this
    {
      Table(rooms, peers, vips, names, pairs, nonces)
    }

    constructor ()
      ensures View() == Table(map[], map[], map[], map[], map[], map[])
    {
      rooms, peers, vips, names, pairs, nonces := map[], map[], map[], map[], map[], map[];
    }

    // Judges every condition, then says whether the items are to be written and what the caller is told.
    static method Judge(holds: seq<bool>, fate: Fate) returns (write: bool, codes: seq<Code>)
      ensures write <==> Applied(holds, fate)
      ensures fate.Delivered? ==> codes == CodesOf(holds, fate.noise)
    {
      codes := [];
      var all := true;
      for i := 0 to |holds|
        invariant |codes| == i
        invariant all <==> forall k | 0 <= k < i :: holds[k]
        invariant fate.Delivered? ==> forall k | 0 <= k < i :: codes[k] == CodesOf(holds, fate.noise)[k]
      {
        all := all && holds[i];
        codes := codes + [if fate.Delivered? && fate.noise(i) then OtherCode else if holds[i] then NoFailure else ConditionFailed];
      }
      match fate {
        case Delivered(noise) =>
          assert codes == CodesOf(holds, noise);
          write := forall i | 0 <= i < |codes| :: codes[i] == NoFailure;
        case NeverArrived => write := false;
        case AnswerLost => write := all;
      }
    }

    method PutClaim(c: Claim)
      modifies `peers, `vips, `names, `nonces
      ensures View() == Claimed(old(View()), c)
    {
      peers := peers[PeerAt(c.room, c.id) := Peer(c.token, c.vip, c.name, c.nonce, c.now, [])];
      vips := vips[VipAt(c.room, c.vip) := c.id];
      names := names[NameAt(c.room, NameKey(c.name)) := c.id];
      nonces := nonces[c.nonce := PeerAt(c.room, c.id)];
    }

    method CreateARoom(c: Claim, fate: Fate) returns (r: WriteResult)
      modifies this
      ensures (View(), r) == CreateRoom(old(View()), c, fate)
    {
      var holds := CreateHolds(View(), c);
      var write, codes := Judge(holds, fate);
      if write {
        rooms := rooms[c.room := Room(c.now, c.now + ROOM_LEASE_MS, c.id)];
        PutClaim(c);
      }
      if !fate.Delivered? {
        return Internal;
      }
      if write {
        return Created;
      }
      var kind := ClassifyCancel(CreateLayout(), codes, CreatePriority());
      r := match kind
        case Some(KNonce) => NonceExists
        case Some(KRoomPut) => RoomIdTaken
        case _ => Internal;
    }

    method JoinARoom(c: Claim, fate: Fate) returns (r: WriteResult)
      modifies this
      ensures (View(), r) == JoinRoom(old(View()), c, fate)
    {
      var holds := JoinHolds(View(), c);
      var write, codes := Judge(holds, fate);
      if write {
        PutClaim(c);
      }
      if !fate.Delivered? {
        return Internal;
      }
      if write {
        return Joined;
      }
      var kind := ClassifyCancel(JoinLayout(), codes, JoinPriority());
      r := match kind
        case Some(KNonce) => NonceExists
        case Some(KRoomCheck) => RoomGone
        case Some(KName) => NameTaken
        case Some(KVip) => VipTaken
        case Some(KPeer) => PeerIdTaken
        case _ => Internal;
    }

    method Register(room: RoomId, id: PeerId, token: Token, candidates: seq<Endpoint>, fate: Fate) returns (r: WriteResult)
      modifies `peers
      ensures (View(), r) == RegisterCandidates(old(View()), room, id, token, candidates, fate)
    {
      var at := PeerAt(room, id);
      var holds := [at in peers && peers[at].token == token];
      var write, codes := Judge(holds, fate);
      if write && at in peers {
        peers := peers[at := peers[at].(candidates := candidates)];
        return if fate.Delivered? then Written else Internal;
      }
      return if fate.Delivered? && codes[0] == ConditionFailed then Refused else Internal;
    }

    // Every NAME# of the list goes in its own delete.
    method DeletePeer(room: RoomId, id: PeerId, vip: Vip, nonce: Nonce, keys: seq<string>)
      modifies `peers, `vips, `names, `nonces
      ensures View() == Deleted(old(View()), room, id, vip, nonce, KeySet(keys), None)
    {
      peers := peers - {PeerAt(room, id)};
      vips := vips - {VipAt(room, vip)};
      for i := 0 to |keys|
        invariant names == old(names) - NamesAt(room, KeySet(keys[..i]))
        modifies `names
      {
        names := names - {NameAt(room, keys[i])};
        assert KeySet(keys[..i + 1]) == KeySet(keys[..i]) + {keys[i]};
        assert NamesAt(room, KeySet(keys[..i + 1])) == NamesAt(room, KeySet(keys[..i])) + {NameAt(room, keys[i])};
      }
      assert keys[..|keys|] == keys;
      nonces := nonces - {nonce};
    }

    method Release(room: RoomId, id: PeerId, vip: Vip, host: PeerId, nonce: Nonce, keys: seq<string>, fate: Fate)
      returns (r: WriteResult)
      modifies this
      ensures (View(), r) == ReleasePeer(old(View()), room, id, vip, host, nonce, KeySet(keys), fate)
    {
      var holds := [PeerAt(room, id) in peers];
      var write, codes := Judge(holds, fate);
      if write {
        DeletePeer(room, id, vip, nonce, keys);
        pairs := pairs - {PairKey(room, host, id)};
      }
      r := DeleteAnswer(write, codes, fate);
    }

    static method DeleteAnswer(write: bool, codes: seq<Code>, fate: Fate) returns (r: WriteResult)
      requires fate.Delivered? ==> |codes| == 1
      ensures r == if !fate.Delivered? then Internal
                   else if write then Written else if codes[0] == ConditionFailed then Refused else Internal
    {
      if !fate.Delivered? {
        return Internal;
      }
      if write {
        return Written;
      }
      return if codes[0] == ConditionFailed then Refused else Internal;
    }

    method Reclaim(room: RoomId, id: PeerId, vip: Vip, nonce: Nonce, now: int, keys: seq<string>, fate: Fate)
      returns (r: WriteResult)
      modifies this
      ensures (View(), r) == ReclaimPeer(old(View()), room, id, vip, nonce, now, KeySet(keys), fate)
    {
      var holds := [Reclaimable(View(), room, id, now)];
      var write, codes := Judge(holds, fate);
      if write {
        DeletePeer(room, id, vip, nonce, keys);
      }
      r := DeleteAnswer(write, codes, fate);
    }

    method Confirm(room: RoomId, host: PeerId, other: PeerId, pair: Pair, fate: Fate) returns (r: WriteResult)
      modifies `pairs
      ensures (View(), r) == ConfirmPair(old(View()), room, host, other, pair, fate)
    {
      var holds := ConfirmHolds(View(), room, host, other);
      var write, codes := Judge(holds, fate);
      if write {
        pairs := pairs[PairKey(room, host, other) := pair];
      }
      if !fate.Delivered? {
        return Internal;
      }
      if write {
        return Confirmed;
      }
      var kind := ClassifyCancel(ConfirmLayout(), codes, ConfirmPriority());
      r := match kind
        case Some(KPeerCheck) => NotEligible
        case Some(KPair) => AlreadyConfirmed
        case _ => Internal;
    }

    method RenewRoom(room: RoomId, now: int, fate: Fate) returns (r: WriteResult)
      modifies `rooms
      ensures (View(), r) == Renew(old(View()), room, now, fate)
    {
      var holds := [RoomOpen(View(), room, now)];
      var write, codes := Judge(holds, fate);
      if write && room in rooms {
        rooms := rooms[room := rooms[room].(expiresAt := now + ROOM_LEASE_MS)];
        return if fate.Delivered? then Written else Internal;
      }
      return if fate.Delivered? && codes[0] == ConditionFailed then Refused else Internal;
    }
  }
}
