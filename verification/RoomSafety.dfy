/**
 Safety of the room service over every interleaving of requests, with reads as stale as they
 may be: the table invariant, one peer per nonce, and replies that agree.
 */
module RoomSafety {
  import opened Wrappers
  import opened RoomTable
  import opened RoomService

  // ---------------------------------------------------------------- the system

  // A successful create or join, as its caller got it.
  datatype Issue = Issue(nonce: Nonce, at: PeerAt, token: Token, vip: Vip)

  // removed and issues are history: the peers deleted so far and the replies sent so far.
  datatype System = System(table: Table, removed: set<PeerAt>, requests: map<nat, Request>, issues: seq<Issue>)

  datatype Label = Arrive(rid: nat, request: Request) | Act(rid: nat, input: Input)

  function Empty(): System {
    System(Table(map[], map[], map[], map[], map[], map[]), {}, map[], [])
  }

  function IssueOf(q: Request, q': Request): seq<Issue> {
    if q'.Done? && q'.reply.Issued? && (q.Creating? || q.Joining? || q.Replay?) then
      [Issue(q.nonce, PeerAt(q'.reply.room, q'.reply.id), q'.reply.token, q'.reply.vip)]
    else []
  }

  // What may happen.  The last clause is the assumption on the draws: a peer id that was removed
  // from a room is not drawn for that room again.
  ghost predicate Legal(s: System, l: Label) {
    match l
    case Arrive(rid, q) => rid !in s.requests && IsStart(q)
    case Act(rid, e) =>
      && rid in s.requests && !s.requests[rid].Done? && InputFits(s.table, s.requests[rid], e)
      && forall at | at in Step(s.table, s.requests[rid], e).0.peers && at !in s.table.peers :: at !in s.removed
  }

  ghost function Next(s: System, l: Label): System
    requires Legal(s, l)
  {
    match l
    case Arrive(rid, q) => s.(requests := s.requests[rid := q])
    case Act(rid, e) =>
      var q := s.requests[rid];
      var (t', q') := Step(s.table, q, e);
      System(t', s.removed + (s.table.peers.Keys - t'.peers.Keys), s.requests[rid := q'], s.issues + IssueOf(q, q'))
  }

  ghost predicate LegalRun(labels: seq<Label>)
    decreases |labels|, 0
  {
    labels == [] || (LegalRun(labels[..|labels| - 1]) && Legal(StateAfter(labels[..|labels| - 1]), labels[|labels| - 1]))
  }

  ghost function StateAfter(labels: seq<Label>): System
    requires LegalRun(labels)
    decreases |labels|, 1
  {
    if labels == [] then Empty() else Next(StateAfter(labels[..|labels| - 1]), labels[|labels| - 1])
  }

  // ---------------------------------------------------------------- what a waiting request relies on

  // Every peer of the view is removed by now or still what it was; its keys were its own.
  ghost predicate ViewHolds(t: Table, removed: set<PeerAt>, room: RoomId, v: RoomView) {
    forall id | id in v.peers ::
      && KeysOf(v, id) == {NameKey(v.peers[id].name)}
      && (PeerAt(room, id) in removed || (PeerAt(room, id) in t.peers && Same(v.peers[id], t.peers[PeerAt(room, id)])))
  }

  ghost predicate Alive(t: Table, removed: set<PeerAt>, at: PeerAt, nonce: Nonce) {
    at in removed || (at in t.peers && t.peers[at].nonce == nonce)
  }

  ghost predicate ReqInv(t: Table, removed: set<PeerAt>, q: Request) {
    match q
    case Replay(nonce, at, _) => Alive(t, removed, at, nonce)
    case Registering(_, _, _, candidates) => candidates != []
    case Joining(_, _, _, _, _, _, index, _, _) => index < POOL_SIZE
    case Reporting(w) => w.room in t.rooms && w.host == t.rooms[w.room].host && ViewHolds(t, removed, w.room, w.view)
    case _ => true
  }

  // A reply stays true until its peer is removed.
  ghost predicate StillTrue(t: Table, removed: set<PeerAt>, i: Issue) {
    i.at in removed || (i.at in t.peers && IsPeer(t.peers[i.at], i))
  }

  predicate IsPeer(p: Peer, i: Issue) {
    p.nonce == i.nonce && p.token == i.token && p.vip == i.vip
  }

  lemma ReqInvFrame(t: Table, removed: set<PeerAt>, t': Table, removed': set<PeerAt>, q: Request)
    requires ReqInv(t, removed, q) && Evolves(t, removed, t', removed')
    ensures ReqInv(t', removed', q)
  {
    if q.Reporting? {
      var v := q.work.view;
      forall id | id in v.peers
        ensures var at := PeerAt(q.work.room, id);
                at in removed' || (at in t'.peers && Same(v.peers[id], t'.peers[at]))
      {
      }
    }
  }

  // ---------------------------------------------------------------- what a query finds

  lemma QueryHolds(t: Table, removed: set<PeerAt>, room: RoomId)
    requires Inv(t, removed)
    ensures ViewHolds(t, removed, room, Query(t, room))
  {
    hide VipsOk, NoncesOk, PairsOk, HostsOk;
    var v := Query(t, room);
    forall id | id in v.peers
      ensures KeysOf(v, id) == {NameKey(v.peers[id].name)}
    {
      assert PeerOk(t, PeerAt(room, id));
      var own := NameKey(v.peers[id].name);
      assert own in v.names;
      forall k | k in v.names && v.names[k] == id
        ensures k == own
      {
        assert NameAt(room, k) in t.names;
      }
    }
  }

  // ---------------------------------------------------------------- one step

  // The step kept the invariant, and everything others rely on.
  ghost predicate Kept(t: Table, removed: set<PeerAt>, t': Table) {
    var removed' := removed + (t.peers.Keys - t'.peers.Keys);
    Inv(t', removed') && Evolves(t, removed, t', removed')
  }

  ghost predicate NoReuse(t: Table, removed: set<PeerAt>, t': Table) {
    forall at | at in t'.peers && at !in t.peers :: at !in removed
  }

  lemma NothingWritten(t: Table, removed: set<PeerAt>)
    requires Inv(t, removed)
    ensures Kept(t, removed, t)
  {
    assert removed + (t.peers.Keys - t.peers.Keys) == removed;
  }

  lemma EntryKeeps(t: Table, removed: set<PeerAt>, c: Claim, asHost: bool)
    requires Inv(t, removed) && Free(t, removed, c, asHost)
    ensures Kept(t, removed, Entered(t, c, asHost))
  {
    hide Free, Inv;
    ClaimKeeps(t, removed, c, asHost);
    assert t.peers.Keys - Entered(t, c, asHost).peers.Keys == {};
    assert removed + {} == removed;
  }

  lemma CreatingKeeps(t: Table, removed: set<PeerAt>, q: Request, e: Input)
    requires Inv(t, removed) && q.Creating? && NoReuse(t, removed, CreateStep(t, q, e).0)
    ensures Kept(t, removed, CreateStep(t, q, e).0)
  {
    hide CreateResult, AfterCreate, Inv, Kept;
    var c := CreateClaim(q, e.room);
    var t' := CreateRoom(t, c, e.fate).0;
    AppliedMeansAllHold(CreateHolds(t, c), e.fate);
    if Applied(CreateHolds(t, c), e.fate) {
      CreateHoldsMean(t, c);
      assert PeerAt(c.room, c.id) in t'.peers;
      EntryKeeps(t, removed, c, true);
    } else {
      NothingWritten(t, removed);
    }
  }

  lemma CreateHoldsMean(t: Table, c: Claim)
    requires AllHold(CreateHolds(t, c))
    ensures c.room !in t.rooms && PeerAt(c.room, c.id) !in t.peers && VipAt(c.room, c.vip) !in t.vips
    ensures NameAt(c.room, NameKey(c.name)) !in t.names && c.nonce !in t.nonces
  {
    var h := CreateHolds(t, c);
    assert h[0] && h[1] && h[2] && h[3] && h[4];
  }

  lemma JoinHoldsMean(t: Table, c: Claim)
    requires AllHold(JoinHolds(t, c))
    ensures c.room in t.rooms && PeerAt(c.room, c.id) !in t.peers && VipAt(c.room, c.vip) !in t.vips
    ensures NameAt(c.room, NameKey(c.name)) !in t.names && c.nonce !in t.nonces
  {
    var h := JoinHolds(t, c);
    assert h[0] && h[1] && h[2] && h[3] && h[4];
  }

  lemma JoiningKeeps(t: Table, removed: set<PeerAt>, q: Request, e: Input)
    requires Inv(t, removed) && q.Joining? && q.index < POOL_SIZE && NoReuse(t, removed, JoinStep(t, q, e).0)
    ensures Kept(t, removed, JoinStep(t, q, e).0)
  {
    hide JoinResult, AfterJoin, Inv, Kept;
    var c := JoinClaim(q);
    var t' := JoinRoom(t, c, e.fate).0;
    AppliedMeansAllHold(JoinHolds(t, c), e.fate);
    if Applied(JoinHolds(t, c), e.fate) {
      JoinHoldsMean(t, c);
      assert PeerAt(c.room, c.id) in t'.peers;
      EntryKeeps(t, removed, c, false);
      assert Entered(t, c, false) == t';
    } else {
      NothingWritten(t, removed);
    }
  }

  lemma RegisteringKeeps(t: Table, removed: set<PeerAt>, q: Request, e: Input)
    requires Inv(t, removed) && q.Registering? && q.candidates != []
    ensures Kept(t, removed, RegisterStep(t, q, e).0)
  {
    hide Inv;
    var at := PeerAt(q.room, q.id);
    var t' := RegisterStep(t, q, e).0;
    if at in t.peers && t' != t {
      RegisterKeeps(t, removed, at, q.candidates);
      assert t.peers.Keys - t'.peers.Keys == {};
      assert removed + {} == removed;
    } else {
      NothingWritten(t, removed);
    }
  }

  // A stale view is good enough to delete by: if the peer is there, it is the one that was read.
  lemma DeletingKeeps(t: Table, removed: set<PeerAt>, w: Work, id: PeerId, host: Option<PeerId>)
    requires Inv(t, removed) && ReqInv(t, removed, Reporting(w))
    requires id in w.view.peers && id != w.host && PeerAt(w.room, id) in t.peers
    requires if host.Some? then host.value == w.host else t.peers[PeerAt(w.room, id)].candidates == []
    ensures Kept(t, removed, Deleted(t, w.room, id, w.view.peers[id].vip, w.view.peers[id].nonce, KeysOf(w.view, id), host))
  {
    var at := PeerAt(w.room, id);
    SeenIsThere(t, removed, w, id);
    var t' := Left(t, at, KeysOf(w.view, id), host);
    hide Inv, Evolves, KeysOf, ReqInv;
    OneIsGone(t, at, KeysOf(w.view, id), host);
    DeleteKeeps(t, removed, at, KeysOf(w.view, id), host);
    assert t' == Deleted(t, w.room, id, w.view.peers[id].vip, w.view.peers[id].nonce, KeysOf(w.view, id), host);
    hide Deleted, Left, NameKey;
  }

  lemma OneIsGone(t: Table, at: PeerAt, keys: set<string>, host: Option<PeerId>)
    requires at in t.peers
    ensures t.peers.Keys - Left(t, at, keys, host).peers.Keys == {at}
  {
  }

  lemma SeenIsThere(t: Table, removed: set<PeerAt>, w: Work, id: PeerId)
    requires Inv(t, removed) && ReqInv(t, removed, Reporting(w)) && id in w.view.peers && PeerAt(w.room, id) in t.peers
    ensures Same(w.view.peers[id], t.peers[PeerAt(w.room, id)])
    ensures KeysOf(w.view, id) == {NameKey(t.peers[PeerAt(w.room, id)].name)}
    ensures w.room in t.rooms && w.host == t.rooms[w.room].host
  {
    hide VipsOk, NamesOk, NoncesOk, PairsOk, HostsOk;
    assert PeerOk(t, PeerAt(w.room, id));
  }

  lemma ReleaseKeeps(t: Table, removed: set<PeerAt>, w: Work, e: Input)
    requires Inv(t, removed) && ReqInv(t, removed, Reporting(w)) && w.departed != []
    ensures Kept(t, removed, ReleaseStep(t, w, e).0)
  {
    hide Inv, Kept, Deleted;
    NothingWritten(t, removed);
    var id := w.departed[0];
    var hold := PeerAt(w.room, id) in t.peers;
    AppliedMeansAllHold([hold], e.fate);
    if id != w.host && id in w.view.peers && Applied([hold], e.fate) {
      assert [hold][0];
      DeletingKeeps(t, removed, w, id, Some(w.host));
    }
  }

  lemma ReclaimKeeps(t: Table, removed: set<PeerAt>, w: Work, e: Input)
    requires Inv(t, removed) && ReqInv(t, removed, Reporting(w)) && w.reclaim != []
    ensures Kept(t, removed, ReclaimStep(t, w, e).0)
  {
    hide Inv, Kept, Deleted;
    NothingWritten(t, removed);
    var id := w.reclaim[0];
    var hold := Reclaimable(t, w.room, id, w.now);
    AppliedMeansAllHold([hold], e.fate);
    if ToReclaim(w, id) && Applied([hold], e.fate) {
      assert [hold][0];
      DeletingKeeps(t, removed, w, id, None);
    }
  }

  lemma ConfirmKeeps(t: Table, removed: set<PeerAt>, w: Work, e: Input)
    requires Inv(t, removed) && ReqInv(t, removed, Reporting(w)) && w.confirm != []
    ensures Kept(t, removed, ConfirmStep(t, w, e).0)
  {
    hide ConfirmResult, Inv, ViewHolds, Kept;
    NothingWritten(t, removed);
    if ToConfirm(w, w.confirm[0]) {
      ConfirmPairKeeps(t, removed, w.room, w.host, w.confirm[0], e.clock, e.fate);
    }
  }

  lemma ConfirmPairKeeps(t: Table, removed: set<PeerAt>, room: RoomId, host: PeerId, other: PeerId, pair: Pair, fate: Fate)
    requires Inv(t, removed) && room in t.rooms && host == t.rooms[room].host && other != host
    ensures Kept(t, removed, ConfirmPair(t, room, host, other, pair, fate).0)
  {
    hide ConfirmResult, Inv;
    NothingWritten(t, removed);
    var holds := ConfirmHolds(t, room, host, other);
    AppliedMeansAllHold(holds, fate);
    if Applied(holds, fate) {
      assert holds[0] && holds[1];
      PairKeeps(t, removed, room, host, other, pair);
      assert t.peers.Keys - t.peers.Keys == {};
      assert removed + {} == removed;
    }
  }

  lemma RenewingKeeps(t: Table, removed: set<PeerAt>, w: Work, e: Input)
    requires Inv(t, removed)
    ensures Kept(t, removed, RenewStep(t, w, e).0)
  {
    hide Inv;
    NothingWritten(t, removed);
    var t' := Renew(t, w.room, w.now, e.fate).0;
    if w.room in t.rooms && t' != t {
      assert t.peers.Keys - t'.peers.Keys == {};
      assert removed + {} == removed;
      RenewKeeps(t, removed, w.room, w.now + ROOM_LEASE_MS);
    }
  }

  lemma StepKeepsTable(t: Table, removed: set<PeerAt>, q: Request, e: Input)
    requires Inv(t, removed) && ReqInv(t, removed, q) && InputFits(t, q, e)
    requires NoReuse(t, removed, Step(t, q, e).0)
    ensures Kept(t, removed, Step(t, q, e).0)
  {
    hide Inv, Kept, CreateStep, JoinStep, RegisterStep, ReportStep, RenewStep, CreateReads, JoinReads, ReplayStep, RegisterReads, GetPeersStep, ReportStart, ReadBack, Lists;
    match q
    case Creating(_, _, _, _, _, _) => CreatingKeeps(t, removed, q, e);
    case Joining(_, _, _, _, _, _, _, _, _) => JoiningKeeps(t, removed, q, e);
    case Registering(_, _, _, _) => RegisteringKeeps(t, removed, q, e);
    case Reporting(w) => ReportingKeeps(t, removed, w, e);
    case Renewing(w) => RenewingKeeps(t, removed, w, e);
    case _ => NothingWritten(t, removed);
  }

  lemma ReportingKeeps(t: Table, removed: set<PeerAt>, w: Work, e: Input)
    requires Inv(t, removed) && ReqInv(t, removed, Reporting(w))
    ensures Kept(t, removed, ReportStep(t, w, e).0)
  {
    hide Inv, Kept, ViewHolds, ReleaseStep, ReclaimStep, ConfirmStep;
    if w.departed != [] {
      ReleaseKeeps(t, removed, w, e);
    } else if w.reclaim != [] {
      ReclaimKeeps(t, removed, w, e);
    } else if w.confirm != [] {
      ConfirmKeeps(t, removed, w, e);
    } else {
      NothingWritten(t, removed);
    }
  }

  // What the request itself relies on next.
  lemma StepKeepsRequest(t: Table, removed: set<PeerAt>, q: Request, e: Input)
    requires Inv(t, removed) && ReqInv(t, removed, q) && InputFits(t, q, e)
    requires Kept(t, removed, Step(t, q, e).0)
    ensures var (t', q') := Step(t, q, e);
            ReqInv(t', removed + (t.peers.Keys - t'.peers.Keys), q')
  {
    hide Query, Inv, Elements, RegisterCandidates, Renew, ReleasePeer, ReclaimPeer, ConfirmPair, CreateRoom, JoinRoom;
    var (t', q') := Step(t, q, e);
    var removed' := removed + (t.peers.Keys - t'.peers.Keys);
    match q
    case HostReport(_, _, _, _, _, _) =>
      ReportStartHolds(t, removed, q, e);
    case Reporting(w) =>
      ReportKeepsView(t, w, e);
      ReqInvFrame(t, removed, t', removed', q);
    case Create(_, _, _) => NonceIsAlive(t, removed);
    case Join(_, _, _, _) => NonceIsAlive(t, removed);
    case Reread(_, _, _) => NonceIsAlive(t, removed);
    case _ =>
  }

  lemma ReportStartHolds(t: Table, removed: set<PeerAt>, q: Request, e: Input)
    requires Inv(t, removed) && q.HostReport? && Lists(e.order, Query(t, q.room))
    ensures ReqInv(t, removed, ReportStart(t, q, e))
    ensures removed + (t.peers.Keys - t.peers.Keys) == removed
  {
    hide ViewHolds, Query, Inv, Lists, Elements;
    QueryHolds(t, removed, q.room);
    QueryFindsRoom(t, q.room);
    assert t.peers.Keys - t.peers.Keys == {};
  }

  lemma QueryFindsRoom(t: Table, room: RoomId)
    ensures Query(t, room).room == RoomItem(t, room)
  {
  }

  lemma NonceIsAlive(t: Table, removed: set<PeerAt>)
    requires Inv(t, removed)
    ensures forall n | n in t.nonces :: Alive(t, removed, t.nonces[n], n)
  {
  }

  lemma ReportKeepsView(t: Table, w: Work, e: Input)
    ensures var q' := ReportStep(t, w, e).1;
            q'.Reporting? ==> q'.work.room == w.room && q'.work.host == w.host && q'.work.view == w.view
    ensures var q' := ReportStep(t, w, e).1;
            q'.Reporting? || q'.Renewing? || q'.Done?
  {
    hide ReleasePeer, ReclaimPeer, ConfirmPair;
  }

  // A reply of this step is true of the table it leaves.
  lemma StepIssuesTruly(t: Table, removed: set<PeerAt>, q: Request, e: Input)
    requires Inv(t, removed) && ReqInv(t, removed, q) && InputFits(t, q, e)
    ensures var (t', q') := Step(t, q, e);
            forall i | i in IssueOf(q, q') :: i.at in t'.peers && IsPeer(t'.peers[i.at], i)
  {
    hide Inv, CreateStep, JoinStep, Query, RegisterCandidates, Renew, ReleasePeer, ReclaimPeer, ConfirmPair;
    match q
    case Creating(_, _, _, _, _, _) => CreateIssuesTruly(t, q, e);
    case Joining(_, _, _, _, _, _, _, _, _) => JoinIssuesTruly(t, q, e);
    case Replay(_, _, _) => ReplayIssuesTruly(t, removed, q);
    case _ =>
  }

  lemma CreateIssuesTruly(t: Table, q: Request, e: Input)
    requires q.Creating?
    ensures var (t', q') := CreateStep(t, q, e);
            forall i | i in IssueOf(q, q') :: i.at in t'.peers && IsPeer(t'.peers[i.at], i)
  {
  }

  lemma JoinIssuesTruly(t: Table, q: Request, e: Input)
    requires q.Joining?
    ensures var (t', q') := JoinStep(t, q, e);
            forall i | i in IssueOf(q, q') :: i.at in t'.peers && IsPeer(t'.peers[i.at], i)
  {
    JoinVerdictsAreTrue(t, JoinClaim(q), e.fate);
    hide JoinRoom;
  }

  lemma ReplayIssuesTruly(t: Table, removed: set<PeerAt>, q: Request)
    requires Inv(t, removed) && ReqInv(t, removed, q) && q.Replay?
    ensures forall i | i in IssueOf(q, ReplayStep(t, q)) :: i.at in t.peers && IsPeer(t.peers[i.at], i)
  {
  }

  // ---------------------------------------------------------------- every run

  ghost predicate SysInv(s: System) {
    && Inv(s.table, s.removed)
    && (forall rid | rid in s.requests :: ReqInv(s.table, s.removed, s.requests[rid]))
    && (forall k | 0 <= k < |s.issues| :: StillTrue(s.table, s.removed, s.issues[k]))
  }

  lemma NextKeeps(s: System, l: Label)
    requires SysInv(s) && Legal(s, l)
    ensures SysInv(Next(s, l))
    ensures forall i | i in Next(s, l).issues[|s.issues|..] ::
              i.at in Next(s, l).table.peers && IsPeer(Next(s, l).table.peers[i.at], i)
  {
    hide Inv, Step, StillTrue;
    if l.Act? {
      var q := s.requests[l.rid];
      StepKeepsTable(s.table, s.removed, q, l.input);
      StepKeepsRequest(s.table, s.removed, q, l.input);
      StepIssuesTruly(s.table, s.removed, q, l.input);
      var n := Next(s, l);
      forall rid | rid in n.requests
        ensures ReqInv(n.table, n.removed, n.requests[rid])
      {
        if rid != l.rid {
          ReqInvFrame(s.table, s.removed, n.table, n.removed, s.requests[rid]);
        }
      }
      IssuesKept(s, n, IssueOf(q, Step(s.table, q, l.input).1));
    }
  }

  lemma IssuesKept(s: System, n: System, more: seq<Issue>)
    requires forall k | 0 <= k < |s.issues| :: StillTrue(s.table, s.removed, s.issues[k])
    requires Evolves(s.table, s.removed, n.table, n.removed) && n.issues == s.issues + more
    requires forall i | i in more :: i.at in n.table.peers && IsPeer(n.table.peers[i.at], i)
    ensures forall k | 0 <= k < |n.issues| :: StillTrue(n.table, n.removed, n.issues[k])
    ensures n.issues[|s.issues|..] == more
  {
    forall k | 0 <= k < |n.issues|
      ensures StillTrue(n.table, n.removed, n.issues[k])
    {
      if k < |s.issues| {
        assert StillTrue(s.table, s.removed, s.issues[k]);
      } else {
        assert n.issues[k] in more;
      }
    }
  }

  lemma {:induction false} RunKeeps(labels: seq<Label>)
    requires LegalRun(labels)
    ensures SysInv(StateAfter(labels))
  {
    if labels != [] {
      RunKeeps(labels[..|labels| - 1]);
      NextKeeps(StateAfter(labels[..|labels| - 1]), labels[|labels| - 1]);
    }
  }

  // Main result: after every interleaving, the items of each room correspond one to one, at most
  // five peers hold it, with distinct addresses and names, and the host is among them.
  lemma TableInvariant(labels: seq<Label>, room: RoomId, ids: set<PeerId>)
    requires LegalRun(labels)
    requires forall id | id in ids :: PeerAt(room, id) in StateAfter(labels).table.peers
    ensures var s := StateAfter(labels);
            && Inv(s.table, s.removed)
            && |ids| <= MAX_PEERS
            && (room in s.table.rooms ==> PeerAt(room, s.table.rooms[room].host) in s.table.peers)
  {
    RunKeeps(labels);
    RoomsAreSmall(StateAfter(labels).table, StateAfter(labels).removed, room, ids);
  }

  // Main result: when a create or join is answered, its peer is in the room, no other peer has its
  // nonce, and every earlier answer to that nonce was the same unless its peer was removed since.
  lemma RepliesAgree(labels: seq<Label>)
    requires LegalRun(labels) && labels != []
    requires |StateAfter(labels[..|labels| - 1]).issues| < |StateAfter(labels).issues|
    ensures var s := StateAfter(labels);
            var last := s.issues[|s.issues| - 1];
            && last.at in s.table.peers && IsPeer(s.table.peers[last.at], last)
            && (forall at | at in s.table.peers && s.table.peers[at].nonce == last.nonce :: at == last.at)
            && (forall k | 0 <= k < |s.issues| && s.issues[k].nonce == last.nonce ::
                  s.issues[k] == last || s.issues[k].at in s.removed)
  {
    var before := labels[..|labels| - 1];
    RunKeeps(before);
    NextKeeps(StateAfter(before), labels[|labels| - 1]);
    var s := StateAfter(labels);
    var last := s.issues[|s.issues| - 1];
    assert last in s.issues[|StateAfter(before).issues|..];
    forall at | at in s.table.peers && at != last.at
      ensures s.table.peers[at].nonce != last.nonce
    {
      PeersAreDistinct(s.table, s.removed, at, last.at);
    }
    forall k | 0 <= k < |s.issues| && s.issues[k].nonce == last.nonce
      ensures s.issues[k] == last || s.issues[k].at in s.removed
    {
      assert StillTrue(s.table, s.removed, s.issues[k]);
    }
  }

  // Once a peer is removed nothing of it is left in the table.
  lemma NothingLeftBehind(labels: seq<Label>, at: PeerAt)
    requires LegalRun(labels) && at in StateAfter(labels).removed
    ensures var t := StateAfter(labels).table;
            && at !in t.peers
            && (forall v | v in t.vips :: v.room == at.room ==> t.vips[v] != at.id)
            && (forall n | n in t.names :: n.room == at.room ==> t.names[n] != at.id)
            && (forall n | n in t.nonces :: t.nonces[n] != at)
            && (forall q | q in t.pairs :: q.room == at.room ==> at.id != q.lo && at.id != q.hi)
  {
    RunKeeps(labels);
    var t := StateAfter(labels).table;
    forall q | q in t.pairs && q.room == at.room
      ensures at.id != q.lo && at.id != q.hi
    {
      assert PairOk(t, q);
    }
  }

  // ---------------------------------------------------------------- the walk over the addresses

  // The j-th step of the run is this request trying this address on a table that holds it.
  ghost predicate RefusedAt(labels: seq<Label>, rid: nat, vip: VipAt, j: nat)
    requires LegalRun(labels)
  {
    && j < |labels| && labels[j].Act? && labels[j].rid == rid && LegalRun(labels[..j])
    && var s := StateAfter(labels[..j]);
       && rid in s.requests && s.requests[rid].Joining?
       && vip == VipAt(s.requests[rid].room, PoolVip(s.requests[rid].index))
       && vip in s.table.vips
  }

  ghost predicate Refused(labels: seq<Label>, rid: nat, vip: VipAt)
    requires LegalRun(labels)
  {
    exists j :: RefusedAt(labels, rid, vip, j)
  }

  lemma RefusedAtLater(labels: seq<Label>, rid: nat, vip: VipAt, j: nat)
    requires LegalRun(labels) && labels != [] && RefusedAt(labels[..|labels| - 1], rid, vip, j)
    ensures RefusedAt(labels, rid, vip, j)
  {
    assert labels[..j] == labels[..|labels| - 1][..j];
    hide LegalRun, StateAfter;
  }

  lemma RefusedLater(labels: seq<Label>, rid: nat, vip: VipAt)
    requires LegalRun(labels) && labels != [] && Refused(labels[..|labels| - 1], rid, vip)
    ensures Refused(labels, rid, vip)
  {
    hide RefusedAt;
    var j: nat :| RefusedAt(labels[..|labels| - 1], rid, vip, j);
    RefusedAtLater(labels, rid, vip, j);
  }

  ghost predicate AllRefused(labels: seq<Label>, rid: nat, room: RoomId, count: nat)
    requires LegalRun(labels)
  {
    forall i | 0 <= i < count :: Refused(labels, rid, VipAt(room, PoolVip(i)))
  }

  lemma AllRefusedLater(labels: seq<Label>, rid: nat, room: RoomId, count: nat)
    requires LegalRun(labels) && labels != [] && AllRefused(labels[..|labels| - 1], rid, room, count)
    ensures AllRefused(labels, rid, room, count)
  {
    forall i | 0 <= i < count
      ensures Refused(labels, rid, VipAt(room, PoolVip(i)))
    {
      RefusedLater(labels, rid, VipAt(room, PoolVip(i)));
    }
  }

  // How far a join has walked: every address before the present one was refused to it.
  ghost predicate Walked(labels: seq<Label>, rid: nat, q: Request)
    requires LegalRun(labels)
  {
    match q
    case Joining(_, _, room, _, _, _, index, _, _) => AllRefused(labels, rid, room, index)
    case Done(reply) => reply == Error(RoomFull) ==> exists room :: AllRefused(labels, rid, room, POOL_SIZE)
    case _ => true
  }

  lemma WalkedLater(labels: seq<Label>, rid: nat, q: Request)
    requires LegalRun(labels) && labels != [] && Walked(labels[..|labels| - 1], rid, q)
    ensures Walked(labels, rid, q)
  {
    if q.Joining? {
      AllRefusedLater(labels, rid, q.room, q.index);
    } else if q == Fail(RoomFull) {
      var room :| AllRefused(labels[..|labels| - 1], rid, room, POOL_SIZE);
      AllRefusedLater(labels, rid, room, POOL_SIZE);
    }
  }

  // Only a join on its last address answers that the room is full, and only a first read starts a walk.
  lemma OnlyTheWalk(t: Table, q: Request, e: Input)
    requires InputFits(t, q, e) && !q.Joining? && !q.Done?
    ensures var q' := Step(t, q, e).1;
            q' != Fail(RoomFull) && (q'.Joining? ==> q'.index == 0)
  {
    hide Query, Elements, RegisterCandidates, Renew, ReleasePeer, ReclaimPeer, ConfirmPair, CreateRoom;
  }

  lemma JoinWalks(t: Table, q: Request, e: Input)
    requires q.Joining?
    ensures var q' := JoinStep(t, q, e).1;
            && (q'.Joining? ==> q'.room == q.room && (q'.index == q.index || q'.index == q.index + 1))
            && (q'.Joining? && q'.index == q.index + 1 ==> VipAt(q.room, PoolVip(q.index)) in t.vips)
            && (q' == Fail(RoomFull) ==> q.index + 1 >= POOL_SIZE && VipAt(q.room, PoolVip(q.index)) in t.vips)
  {
    JoinVerdictsAreTrue(t, JoinClaim(q), e.fate);
    hide JoinRoom;
  }

  lemma OneMoreRefused(labels: seq<Label>, rid: nat, room: RoomId, index: nat)
    requires LegalRun(labels) && AllRefused(labels, rid, room, index) && Refused(labels, rid, VipAt(room, PoolVip(index)))
    ensures AllRefused(labels, rid, room, index + 1)
    ensures index + 1 >= POOL_SIZE ==> AllRefused(labels, rid, room, POOL_SIZE)
  {
    hide LegalRun, Refused;
  }

  lemma ActWalks(labels: seq<Label>, rid: nat)
    requires LegalRun(labels) && labels != [] && labels[|labels| - 1].Act? && labels[|labels| - 1].rid == rid
    requires Walked(labels[..|labels| - 1], rid, StateAfter(labels[..|labels| - 1]).requests[rid])
    ensures Walked(labels, rid, StateAfter(labels).requests[rid])
  {
    var n := |labels| - 1;
    var s := StateAfter(labels[..n]);
    var q := s.requests[rid];
    var e := labels[n].input;
    assert StateAfter(labels).requests[rid] == Step(s.table, q, e).1;
    hide StateAfter, LegalRun;
    if q.Joining? {
      hide JoinStep, Step;
      JoinWalks(s.table, q, e);
      AllRefusedLater(labels, rid, q.room, q.index);
      if VipAt(q.room, PoolVip(q.index)) in s.table.vips {
        assert RefusedAt(labels, rid, VipAt(q.room, PoolVip(q.index)), n);
        OneMoreRefused(labels, rid, q.room, q.index);
      }
      hide AllRefused, Refused;
    } else {
      OnlyTheWalk(s.table, q, e);
    }
  }

  lemma {:induction false} EveryWalk(labels: seq<Label>, rid: nat)
    requires LegalRun(labels) && rid in StateAfter(labels).requests
    ensures Walked(labels, rid, StateAfter(labels).requests[rid])
  {
    var n := |labels| - 1;
    var s := StateAfter(labels[..n]);
    if rid in s.requests {
      EveryWalk(labels[..n], rid);
      if labels[n].rid == rid {
        ActWalks(labels, rid);
      } else {
        WalkedLater(labels, rid, s.requests[rid]);
      }
    }
  }

  // Main result: a join is answered that the room is full only after each of the four addresses of
  // one room was tried by this very request on a table that held it.
  lemma RoomFullMeansAllTaken(labels: seq<Label>, rid: nat)
    requires LegalRun(labels) && rid in StateAfter(labels).requests
    requires StateAfter(labels).requests[rid] == Fail(RoomFull)
    ensures exists room :: AllRefused(labels, rid, room, POOL_SIZE)
  {
    EveryWalk(labels, rid);
  }

  // ---------------------------------------------------------------- readiness

  // Whatever a query finds, in any table that keeps the invariant: a peer told ready has candidates,
  // so has the caller, and one of the two is the host.
  lemma ReadyMeansRegistered(t: Table, removed: set<PeerAt>, room: RoomId, caller: PeerId, id: PeerId)
    requires Inv(t, removed) && PeerAt(room, id) in t.peers
    ensures ElementOf(Query(t, room), room, caller, id).ready ==>
              && ElementOf(Query(t, room), room, caller, id).candidates != []
              && HasCandidates(t, PeerAt(room, caller))
              && t.rooms[room].host in {caller, id}
  {
    var q := PairKey(room, caller, id);
    if q in Query(t, room).pairs {
      assert PairOk(t, q);
    }
  }
}
