/**
 The tunnel as the object of client/src/tunnel/tunnel.cpp: its table, routes and lists are updated
 in place by loops over the table, each call proved against the function of TunnelSpec on View().
 */
module Tunnel {
  import opened Wrappers
  import opened TunnelSpec
  import S = SessionSpec
  import E = Epochs
  import Bytes

  class Tunnel {
    const routes: array<Option<PeerId>>
    var sessions: seq<Entry>
    var retired: seq<E.Entry>
    var retiredNonces: seq<E.Entry>
    var endedNonces: seq<S.Nonce>
    var localVip: Option<U32>
    ghost var added: seq<E.Entry>
    ghost var ended: set<S.Nonce>

    ghost function View(): State
      reads this, routes
    {
      State(sessions, routes[..], retired, retiredNonces, endedNonces, localVip, added, ended)
    }

    constructor ()
      ensures View() == Initial() && fresh(routes) && routes.Length == MAX_PEERS + 1
    {
      routes := new Option<PeerId>[MAX_PEERS + 1](_ => None);
      sessions, retired, retiredNonces, endedNonces, localVip := [], [], [], [], None;
      added, ended := [], {};
      new;
      assert routes[..] == [None, None, None, None, None, None];
    }

    method FindSession(id: PeerId) returns (found: Option<nat>)
      ensures found == Find(sessions, id, 0)
    {
      for i := 0 to |sessions|
        invariant Find(sessions, id, i) == Find(sessions, id, 0)
      {
        if sessions[i].id == id {
          return Some(i);
        }
      }
      return None;
    }

    method CountTerminal() returns (n: nat)
      ensures n == TerminalCount(sessions)
    {
      n := 0;
      for i := 0 to |sessions|
        invariant n + TerminalCount(sessions[i..]) == TerminalCount(sessions)
      {
        assert sessions[i..][1..] == sessions[i + 1..];
        if !S.Active(sessions[i].session) {
          n := n + 1;
        }
      }
    }

    method FindOldest() returns (oldest: Option<nat>)
      ensures oldest == Oldest(sessions, 0, None)
    {
      oldest := None;
      for i := 0 to |sessions|
        invariant oldest.Some? ==> oldest.value < |sessions| && sessions[oldest.value].session.terminalSince.Some?
        invariant Oldest(sessions, i, oldest) == Oldest(sessions, 0, None)
      {
        var since := sessions[i].session.terminalSince;
        if since.Some? && (oldest.None? || since.value < sessions[oldest.value].session.terminalSince.value) {
          oldest := Some(i);
        }
      }
    }

    method EraseAt(i: nat)
      requires i < |sessions|
      modifies `sessions, `endedNonces
      ensures View() == Erase(old(View()), i)
    {
      if !sessions[i].nonceRetired {
        endedNonces := endedNonces + [sessions[i].config.attemptNonce];
      }
      sessions := sessions[..i] + sessions[i + 1..];
    }

    method CapRetained()
      modifies `sessions, `endedNonces
      ensures View() == EnforceCap(old(View()))
    {
      hide Erase, Oldest;
      var count := CountTerminal();
      while count > MAX_RETAINED
        invariant EnforceCap(View()) == EnforceCap(old(View()))
        invariant count == TerminalCount(sessions)
        decreases |sessions|
      {
        var oldest := FindOldest();
        if oldest.None? {
          return;
        }
        EraseAt(oldest.value);
        count := CountTerminal();
      }
    }

    method ReleaseRoutes(id: PeerId)
      modifies routes
      ensures routes[..] == Released(old(routes[..]), id)
    {
      for k := 0 to routes.Length
        invariant forall j | 0 <= j < k :: routes[j] == Released(old(routes[..]), id)[j]
        invariant forall j | k <= j < routes.Length :: routes[j] == old(routes[j])
      {
        if routes[k] == Some(id) {
          routes[k] := None;
        }
      }
    }

    // What the session's calls out of it do here.
    method Store(i: nat, s: S.State)
      requires i < |sessions|
      modifies `sessions, `retired, `added, `ended, routes
      ensures View() == Update(old(View()), i, s)
    {
      hide E.AddAll, S.Active;
      var e := sessions[i];
      var more := if |e.session.retires| <= |s.retires| then RetiresOf(s.retires[|e.session.retires|..]) else [];
      RetireAll(more);
      if S.Active(e.session) && !S.Active(s) {
        ReleaseRoutes(e.id);
        ended := ended + {e.config.attemptNonce};
      }
      sessions := sessions[i := e.(session := s)];
    }

    method RetireAll(more: seq<E.Entry>)
      modifies `retired, `added
      ensures retired == E.AddAll(old(retired), more) && added == old(added) + more
    {
      for i := 0 to |more|
        invariant retired == E.AddAll(old(retired), more[..i]) && added == old(added) + more[..i]
      {
        assert more[..i + 1][..i] == more[..i];
        retired := E.Add(retired, more[i]);
        added := added + [more[i]];
      }
      assert more[..|more|] == more;
    }

    method RegisterAt(i: nat, now: nat)
      requires i < |sessions|
      modifies `sessions, `retired, `added, `retiredNonces
      ensures View() == RegisterOne(old(View()), i, now)
    {
      hide E.AddAll, E.AddNonce;
      var e := sessions[i];
      RetireAll(if !e.epochRetired && e.session.pinned.Some? then [E.Entry(e.session.pinned.value, now)] else []);
      if !e.nonceRetired {
        retiredNonces := E.AddNonce(retiredNonces, E.Entry(e.config.attemptNonce, now));
      }
      sessions := sessions[i := e.(epochRetired := true, nonceRetired := true)];
    }

    method RegisterAll(now: nat)
      modifies `sessions, `retired, `added, `retiredNonces, `endedNonces, `ended
      ensures View() == Register(old(View()), now)
    {
      hide RegisterOne, S.Active;
      for i := 0 to |sessions|
        invariant |sessions| == |old(sessions)|
        invariant RegisterEnded(View(), i, now) == RegisterEnded(old(View()), 0, now)
      {
        if !S.Active(sessions[i].session) {
          RegisterAt(i, now);
        }
      }
      ghost var v := View();
      assert v == RegisterEnded(old(View()), 0, now);
      for i := 0 to |endedNonces|
        invariant endedNonces == v.endedNonces
        invariant AddNonces(retiredNonces, endedNonces[i..], now) == AddNonces(v.retiredNonces, endedNonces, now)
        invariant View() == v.(retiredNonces := retiredNonces)
      {
        assert endedNonces[i..][1..] == endedNonces[i + 1..];
        retiredNonces := E.AddNonce(retiredNonces, E.Entry(endedNonces[i], now));
      }
      endedNonces := [];
      ended := {};
    }

    method CreateASession(q: NewSession, epochs: seq<Option<U32>>, nonces: seq<Option<S.Nonce>>, now: nat) returns (ok: bool)
      requires routes.Length == MAX_PEERS + 1
      modifies this, routes
      ensures (View(), ok) == CreateSession(old(View()), q, epochs, nonces, now)
    {
      hide Register, Insert, Without, S.Initial, E.DrawEpoch;
      var existing := FindSession(q.id);
      if existing.Some? && S.Active(sessions[existing.value].session) {
        return false;
      }
      var slot := RouteIndex(q.peerVip);
      if slot.None? || q.peerVip == q.localVip || routes[slot.value].Some? {
        return false;
      }
      RegisterAll(now);
      var epoch := E.DrawEpoch(epochs);
      if epoch.None? {
        return false;
      }
      var nonce := E.GenerateAttemptNonce(retiredNonces, now, nonces);
      if nonce.None? {
        return false;
      }
      sessions := Insert(Without(sessions, q.id), NewEntry(q, nonce.value, now));
      routes[slot.value] := Some(q.id);
      localVip := Some(q.localVip);
      return true;
    }

    method ReceiveDatagram(id: PeerId, p: S.RxPacket, now: nat) returns (outcome: Outcome)
      modifies this, routes
      ensures (View(), outcome) == OnDatagram(old(View()), id, p, now)
    {
      hide S.Receive, Update, EnforceCap, E.Contains;
      var i := FindSession(id);
      if i.None? {
        return UnknownPeer;
      }
      var e := sessions[i.value];
      if E.Contains(retired, p.epoch, now) {
        return RetiredEpoch;
      }
      if !S.Active(e.session) {
        return Terminal;
      }
      Store(i.value, S.Receive(e.config, e.session, p, now).0);
      CapRetained();
      return Given;
    }

    method RunAllTimers(now: nat)
      modifies this, routes
      ensures View() == RunTimers(old(View()), now)
    {
      hide S.Poll, Update, EnforceCap, Erase;
      for i := 0 to |sessions|
        invariant |sessions| == |old(sessions)|
        invariant PollFrom(View(), i, now) == PollFrom(old(View()), 0, now)
      {
        Store(i, S.Poll(sessions[i].config, sessions[i].session, now));
      }
      ghost var polled := View();
      var i := 0;
      while i < |sessions|
        invariant i <= |sessions|
        invariant ExpireFrom(View(), i, now) == ExpireFrom(polled, 0, now)
        decreases |sessions| - i
      {
        var since := sessions[i].session.terminalSince;
        if since.Some? && since.value + TERMINAL_TTL <= now {
          EraseAt(i);
          assert |sessions| == |View().sessions|;
        } else {
          i := i + 1;
        }
      }
      CapRetained();
    }

    method CloseSessions(now: nat)
      modifies this, routes
      ensures View() == CloseFrom(old(View()), 0, now)
    {
      hide S.CloseByUser, Update;
      for i := 0 to |sessions|
        invariant |sessions| == |old(sessions)|
        invariant CloseFrom(View(), i, now) == CloseFrom(old(View()), 0, now)
      {
        Store(i, S.CloseByUser(sessions[i].config, sessions[i].session, now));
      }
    }

    method CloseEverything(now: nat)
      modifies this, routes
      ensures View() == CloseAll(old(View()), now)
    {
      CloseSessions(now);
      CapRetained();
    }

    method LeaveTheRoom(now: nat)
      modifies this, routes
      ensures View() == LeaveRoom(old(View()), now)
    {
      hide Erase, CloseFrom;
      CloseSessions(now);
      ghost var closed := View();
      while sessions != []
        invariant EraseAll(View()) == EraseAll(closed)
        decreases |sessions|
      {
        EraseAt(0);
        assert |sessions| == |View().sessions|;
      }
      localVip := None;
    }

    method SendInnerPacket(inner: seq<Byte>, now: nat) returns (tx: Tx)
      requires routes.Length == MAX_PEERS + 1
      modifies this, routes
      ensures (View(), tx) == SendData(old(View()), inner, now)
    {
      hide S.SendData, Update, Bytes.Read32;
      if |inner| < 20 {
        return TooShort;
      }
      if inner[0] / 16 != 4 {
        return NotIpv4;
      }
      if |inner| > MAX_INNER {
        return Oversize;
      }
      if localVip.None? || Bytes.Read32(inner, 12) != localVip.value {
        return BadSource;
      }
      var destination := Bytes.Read32(inner, 16);
      if IsNotUnicast(destination) {
        return NotUnicast;
      }
      var slot := RouteIndex(destination);
      if slot.None? || routes[slot.value].None? {
        return NoRoute;
      }
      var i := FindSession(routes[slot.value].value);
      if i.None? {
        return NoRoute;
      }
      var e := sessions[i.value];
      if S.PhaseOf(e.session) != S.Connected {
        return NotConnected;
      }
      var (s, taken) := S.SendData(e.config, e.session, inner, now);
      Store(i.value, s);
      return if taken then Sent else SendFailed;
    }
  }
}
