/**
 What each call of the tunnel does to its sessions (client/src/tunnel/tunnel.cpp): which of them it reaches and
 what becomes of every one, and what a caller with an inner packet is told.
 */
module TunnelCalls {
  import opened Wrappers
  import opened TunnelSpec
  import opened TunnelSafety
  import S = SessionSpec
  import SS = SessionSending
  import E = Epochs
  import Bytes

  // ---------------------------------------------------------------- one session after another

  // Every session has taken this step, and none was lost.
  ghost predicate Stepped(before: seq<Entry>, after: seq<Entry>, i: nat, step: (S.Config, S.State) -> S.State) {
    && |after| == |before|
    && (forall k | 0 <= k < |before| && k < i :: after[k] == before[k])
    && (forall k | 0 <= k < |before| && k >= i ::
          after[k] == before[k].(session := step(before[k].config, before[k].session)))
  }

  function PollAt(now: nat): (S.Config, S.State) -> S.State {
    (c, s) => S.Poll(c, s, now)
  }

  function CloseAt(now: nat): (S.Config, S.State) -> S.State {
    (c, s) => S.CloseByUser(c, s, now)
  }

  lemma {:induction false} PollFromMeans(t: State, i: nat, now: nat)
    requires i <= |t.sessions|
    ensures Stepped(t.sessions, PollFrom(t, i, now).sessions, i, PollAt(now))
    ensures PollFrom(t, i, now).localVip == t.localVip
    decreases |t.sessions| - i
  {
    hide S.Poll, S.PhaseOf;
    if i < |t.sessions| {
      PollFromMeans(Update(t, i, S.Poll(t.sessions[i].config, t.sessions[i].session, now)), i + 1, now);
    }
  }

  lemma {:induction false} CloseFromMeans(t: State, i: nat, now: nat)
    requires i <= |t.sessions|
    ensures Stepped(t.sessions, CloseFrom(t, i, now).sessions, i, CloseAt(now))
    decreases |t.sessions| - i
  {
    hide S.CloseByUser, S.PhaseOf;
    if i < |t.sessions| {
      CloseFromMeans(Update(t, i, S.CloseByUser(t.sessions[i].config, t.sessions[i].session, now)), i + 1, now);
    }
  }

  // ---------------------------------------------------------------- who is kept

  predicate Outlived(e: Entry, now: nat) {
    e.session.terminalSince.Some? && e.session.terminalSince.value + TERMINAL_TTL <= now
  }

  lemma {:induction false} ExpireMeans(t: State, i: nat, now: nat)
    requires i <= |t.sessions| && forall k | 0 <= k < i :: !Outlived(t.sessions[k], now)
    ensures forall e :: e in ExpireFrom(t, i, now).sessions <==> e in t.sessions && !Outlived(e, now)
    decreases |t.sessions| - i
  {
    if i < |t.sessions| {
      var e := t.sessions[i];
      if Outlived(e, now) {
        ErasedAre(t, i);
        ExpireMeans(Erase(t, i), i, now);
      } else {
        ExpireMeans(t, i + 1, now);
      }
    }
  }

  lemma ErasedAre(t: State, i: nat)
    requires i < |t.sessions|
    ensures var r := Erase(t, i);
            && (forall k | 0 <= k < |r.sessions| :: r.sessions[k] == t.sessions[if k < i then k else k + 1])
            && (forall e | e in t.sessions && e != t.sessions[i] :: e in r.sessions)
            && (forall e | e in r.sessions :: e in t.sessions)
  {
    var r := Erase(t, i);
    forall e | e in t.sessions && e != t.sessions[i]
      ensures e in r.sessions
    {
      var k :| 0 <= k < |t.sessions| && t.sessions[k] == e;
      assert r.sessions[if k < i then k else k - 1] == e;
    }
  }

  // Of these sessions, the one picked has been over the longest, the first of several.
  lemma {:induction false} OldestIs(sessions: seq<Entry>, i: nat, best: Option<nat>)
    requires i <= |sessions| && (best.Some? ==> best.value < |sessions| && sessions[best.value].session.terminalSince.Some?)
    ensures var r := Oldest(sessions, i, best);
            && (r.None? ==> best.None? && forall k | i <= k < |sessions| :: sessions[k].session.terminalSince.None?)
            && (r.Some? && best.Some? ==>
                  sessions[r.value].session.terminalSince.value <= sessions[best.value].session.terminalSince.value)
            && (r.Some? ==> forall k | i <= k < |sessions| && sessions[k].session.terminalSince.Some? ::
                  sessions[r.value].session.terminalSince.value <= sessions[k].session.terminalSince.value)
    decreases |sessions| - i
  {
    if i < |sessions| {
      var since := sessions[i].session.terminalSince;
      var better := since.Some? && (best.None? || since.value < sessions[best.value].session.terminalSince.value);
      OldestIs(sessions, i + 1, if better then Some(i) else best);
    }
  }

  // The cap keeps every session that goes on, and of the ended ones the four that ended last.
  ghost predicate Capped(t: seq<Entry>, r: seq<Entry>) {
    && (forall e | e in r :: e in t)
    && (forall e | e in t && S.Active(e.session) :: e in r)
    && (forall e, kept | e in t && e !in r && kept in r && kept.session.terminalSince.Some? ::
          e.session.terminalSince.Some? && e.session.terminalSince.value <= kept.session.terminalSince.value)
    && (TerminalCount(t) <= MAX_RETAINED ==> r == t)
  }

  lemma {:induction false} CapMeans(t: State, now: nat)
    requires Core(t, now)
    ensures Capped(t.sessions, EnforceCap(t).sessions)
    decreases |t.sessions|
  {
    hide Core, Erase, Oldest, TerminalCount, S.Active;
    if TerminalCount(t.sessions) > MAX_RETAINED {
      var i := CapPicks(t, now);
      CapMeans(Erase(t, i), now);
      StillOldest(t.sessions, Erase(t, i).sessions, EnforceCap(Erase(t, i)).sessions, t.sessions[i]);
    }
  }

  lemma CapPicks(t: State, now: nat) returns (i: nat)
    requires Core(t, now) && TerminalCount(t.sessions) > MAX_RETAINED
    ensures i < |t.sessions| && Oldest(t.sessions, 0, None) == Some(i) && Core(Erase(t, i), now)
    ensures !S.Active(t.sessions[i].session) && t.sessions[i].session.terminalSince.Some?
    ensures forall e | e in t.sessions && e.session.terminalSince.Some? ::
              t.sessions[i].session.terminalSince.value <= e.session.terminalSince.value
    ensures (forall e | e in Erase(t, i).sessions :: e in t.sessions)
            && (forall e | e in t.sessions && e != t.sessions[i] :: e in Erase(t, i).sessions)
  {
    assert t.sessions[0..] == t.sessions;
    TerminalIsFound(t.sessions, 0, None);
    OldestIs(t.sessions, 0, None);
    i := Oldest(t.sessions, 0, None).value;
    ActiveIsNotTerminal(t.sessions[i].session);
    EraseKeeps(t, i, now);
    ErasedAre(t, i);
    hide Core, Erase, Oldest, TerminalCount;
  }

  lemma StillOldest(t: seq<Entry>, mid: seq<Entry>, r: seq<Entry>, gone: Entry)
    requires gone in t && !S.Active(gone.session) && gone.session.terminalSince.Some?
    requires (forall e | e in mid :: e in t) && (forall e | e in t && e != gone :: e in mid)
    requires forall e | e in t && e.session.terminalSince.Some? :: gone.session.terminalSince.value <= e.session.terminalSince.value
    requires (forall e | e in r :: e in mid) && (forall e | e in mid && S.Active(e.session) :: e in r)
    requires forall e, kept | e in mid && e !in r && kept in r && kept.session.terminalSince.Some? ::
               e.session.terminalSince.Some? && e.session.terminalSince.value <= kept.session.terminalSince.value
    ensures (forall e | e in r :: e in t) && (forall e | e in t && S.Active(e.session) :: e in r)
    ensures forall e, kept | e in t && e !in r && kept in r && kept.session.terminalSince.Some? ::
              e.session.terminalSince.Some? && e.session.terminalSince.value <= kept.session.terminalSince.value
  {
    hide S.Active;
  }

  // The session at this place as the poll leaves it.
  function Polled(e: Entry, now: nat): Entry {
    e.(session := S.Poll(e.config, e.session, now))
  }

  // Main result: a pass of the timers polls every session, drops those over for two minutes, and keeps every other
  // one, but of the ended ones no more than the four that ended last.
  lemma TimersMean(t: State, now: nat)
    requires Core(t, now)
    ensures var r := RunTimers(t, now);
            && (forall e | e in r.sessions :: !Outlived(e, now) && exists i :: 0 <= i < |t.sessions| && e == Polled(t.sessions[i], now))
            && (forall i | 0 <= i < |t.sessions| && S.Active(Polled(t.sessions[i], now).session)
                           && !Outlived(Polled(t.sessions[i], now), now) :: Polled(t.sessions[i], now) in r.sessions)
            && (forall i | 0 <= i < |t.sessions| && !Outlived(Polled(t.sessions[i], now), now)
                           && Polled(t.sessions[i], now) !in r.sessions ::
                  OverLongest(Polled(t.sessions[i], now), r.sessions))
  {
    PollFromMeans(t, 0, now);
    PollKeeps(t, 0, now);
    var p := PollFrom(t, 0, now);
    ExpireMeans(p, 0, now);
    ExpireKeeps(p, 0, now);
    var x := ExpireFrom(p, 0, now);
    CapMeans(x, now);
    hide Core, PollFrom, ExpireFrom, EnforceCap;
    TimersJoin(t.sessions, p.sessions, x.sessions, EnforceCap(x).sessions, now);
  }

  lemma TimersJoin(t: seq<Entry>, p: seq<Entry>, x: seq<Entry>, r: seq<Entry>, now: nat)
    requires Stepped(t, p, 0, PollAt(now)) && Capped(x, r)
    requires forall e :: e in x <==> e in p && !Outlived(e, now)
    ensures forall e | e in r :: !Outlived(e, now) && exists i :: 0 <= i < |t| && e == Polled(t[i], now)
    ensures forall i | 0 <= i < |t| && S.Active(Polled(t[i], now).session) && !Outlived(Polled(t[i], now), now) :: Polled(t[i], now) in r
    ensures forall i | 0 <= i < |t| && !Outlived(Polled(t[i], now), now) && Polled(t[i], now) !in r :: OverLongest(Polled(t[i], now), r)
  {
    forall i | 0 <= i < |t|
      ensures p[i] == Polled(t[i], now) && p[i] in p
    {
      assert PollAt(now)(t[i].config, t[i].session) == S.Poll(t[i].config, t[i].session, now);
    }
    hide S.Poll, S.Active, TerminalCount, Outlived, Polled, Stepped, PollAt;
  }

  // This ended session was over no later than any that is kept.
  ghost predicate OverLongest(e: Entry, kept: seq<Entry>) {
    !S.Active(e.session) && forall x | x in kept && x.session.terminalSince.Some? ::
      e.session.terminalSince.Some? && e.session.terminalSince.value <= x.session.terminalSince.value
  }

  // Main result: closing ends every session as its user would, and forgets only what the cap forgets; leaving the room
  // leaves none.
  lemma ClosingMeans(t: State, now: nat)
    requires Core(t, now)
    ensures var c := CloseFrom(t, 0, now);
            && Stepped(t.sessions, c.sessions, 0, CloseAt(now))
            && Capped(c.sessions, CloseAll(t, now).sessions)
            && (forall k | 0 <= k < |c.sessions| :: !S.Active(c.sessions[k].session))
    ensures LeaveRoom(t, now).sessions == [] && LeaveRoom(t, now).localVip.None?
  {
    CloseFromMeans(t, 0, now);
    CloseKeeps(t, 0, now);
    CapMeans(CloseFrom(t, 0, now), now);
    hide Core, CloseFrom, EnforceCap, S.CloseByUser, S.PhaseOf;
  }

  // ---------------------------------------------------------------- a datagram, a punch

  // Main result: a datagram goes to the session of its peer, unless its epoch is retired or the session is over; that
  // session alone changes, as receiving changes it, and the cap follows.
  lemma DatagramMeans(t: State, id: PeerId, p: S.RxPacket, now: nat)
    requires Core(t, now)
    ensures var (r, outcome) := OnDatagram(t, id, p, now);
            && (outcome == UnknownPeer <==> forall i | 0 <= i < |t.sessions| :: t.sessions[i].id != id)
            && (outcome != Given ==> r == t)
            && forall i | 0 <= i < |t.sessions| && t.sessions[i].id == id ::
                 var e := t.sessions[i];
                 && (outcome == RetiredEpoch <==> E.Contains(t.retired, p.epoch, now))
                 && (outcome == Terminal <==> !E.Contains(t.retired, p.epoch, now) && !S.Active(e.session))
                 && (outcome == Given ==>
                       Capped(t.sessions[i := e.(session := S.Receive(e.config, e.session, p, now).0)], r.sessions))
  {
    var i := Find(t.sessions, id, 0);
    if i.Some? {
      var e := t.sessions[i.value];
      if !E.Contains(t.retired, p.epoch, now) && S.Active(e.session) {
        var s := S.Receive(e.config, e.session, p, now).0;
        CoreSession(t, i.value, now);
        ReceiveCarries(e.config, e.session, p, now);
        UpdateKeeps(t, i.value, s, now);
        CapMeans(Update(t, i.value, s), now);
      }
      hide S.Receive, E.Contains, S.Active, EnforceCap, Capped;
      OneOfAName(t, now, i.value);
    }
  }

  lemma OneOfAName(t: State, now: nat, i: nat)
    requires Core(t, now) && i < |t.sessions|
    ensures forall k | 0 <= k < |t.sessions| && t.sessions[k].id == t.sessions[i].id :: k == i
  {
    hide E.AddAll, E.TimeOrder, RoutesOk, EndedKnown;
  }

  lemma PunchMeans(t: State, id: PeerId, now: nat)
    requires Core(t, now)
    ensures var r := StartPunch(t, id, now);
            forall i | 0 <= i < |t.sessions| ::
              i < |r.sessions|
              && r.sessions[i] == if t.sessions[i].id != id then t.sessions[i]
                                  else t.sessions[i].(session := S.StartPunch(t.sessions[i].config, t.sessions[i].session, now).0)
  {
    var i := Find(t.sessions, id, 0);
    if i.Some? {
      OneOfAName(t, now, i.value);
    }
    hide Core, S.StartPunch;
  }

  // ---------------------------------------------------------------- an inner packet

  // Long enough, IPv4 and not too long.
  predicate Fits(inner: seq<Byte>) {
    20 <= |inner| <= MAX_INNER && inner[0] / 16 == 4
  }

  // The refusals before any session is looked at.
  predicate RefusedEarly(t: State, inner: seq<Byte>, tx: Tx) {
    && (tx == TooShort <==> |inner| < 20)
    && (tx == NotIpv4 <==> |inner| >= 20 && inner[0] / 16 != 4)
    && (tx == Oversize <==> |inner| > MAX_INNER && inner[0] / 16 == 4)
    && (tx == BadSource <==> Fits(inner) && t.localVip != Some(Bytes.Read32(inner, 12)))
    && (tx == NotUnicast <==>
          Fits(inner) && t.localVip == Some(Bytes.Read32(inner, 12)) && IsNotUnicast(Bytes.Read32(inner, 16)))
  }

  predicate MayLeave(t: State, inner: seq<Byte>) {
    Fits(inner) && t.localVip == Some(Bytes.Read32(inner, 12)) && !IsNotUnicast(Bytes.Read32(inner, 16))
  }

  predicate IsFor(e: Entry, inner: seq<Byte>)
    requires |inner| >= 20
  {
    S.Active(e.session) && e.config.peerVip == Bytes.Read32(inner, 16)
  }

  // What the session of the destination does with the packet, and what the caller is told of it.
  ghost predicate PassedOn(t: State, r: State, i: nat, inner: seq<Byte>, tx: Tx, now: nat)
    requires i < |t.sessions|
  {
    var e := t.sessions[i];
    if S.PhaseOf(e.session) != S.Connected then tx == NotConnected && r == t
    else
      && (tx == Sent || tx == SendFailed)
      && |r.sessions| == |t.sessions| && (forall k | 0 <= k < |t.sessions| && k != i :: r.sessions[k] == t.sessions[k])
      && r.sessions[i] == e.(session := r.sessions[i].session)
      && SS.Carried(e.config, e.session, inner, SS.Targets(e.config, e.session), r.sessions[i].session, tx == Sent, now)
  }

  // Main result: after every run, an inner packet is refused for the first reason that holds; otherwise it goes to the
  // one active session of its destination, and the caller is told it was sent exactly if the socket took all of it.
  lemma SendMeans(events: seq<Event>, inner: seq<Byte>, now: nat)
    requires Timed(events)
    ensures var t := Run(events);
            var (r, tx) := SendData(t, inner, now);
            && RefusedEarly(t, inner, tx)
            && (MayLeave(t, inner) ==>
                  && (tx == NoRoute <==> forall i | 0 <= i < |t.sessions| :: !IsFor(t.sessions[i], inner))
                  && forall i | 0 <= i < |t.sessions| && IsFor(t.sessions[i], inner) :: PassedOn(t, r, i, inner, tx, now))
            && (tx != Sent && tx != SendFailed ==> r == t)
  {
    hide Run, S.SendData, Bytes.Read32, IsNotUnicast;
    var t := Run(events);
    if MayLeave(t, inner) {
      OneReached(t, EndOf(events), Bytes.Read32(inner, 16));
      var owner := Lookup(t.routes, Bytes.Read32(inner, 16));
      var i := if owner.Some? then Find(t.sessions, owner.value, 0) else None;
      if i.Some? {
        var e := t.sessions[i.value];
        SS.SendDataMeans(e.config, e.session, inner, now);
        hide SS.Carried, SS.Targets;
      }
    }
  }

  // The route of an address leads to the one active session that has it.
  lemma OneReached(t: State, now: nat, vip: U32)
    requires Core(t, now)
    ensures var owner := Lookup(t.routes, vip);
            var found := if owner.Some? then Find(t.sessions, owner.value, 0) else None;
            && (found.None? ==> forall i | 0 <= i < |t.sessions| :: !(S.Active(t.sessions[i].session) && t.sessions[i].config.peerVip == vip))
            && (found.Some? ==> S.Active(t.sessions[found.value].session) && t.sessions[found.value].config.peerVip == vip)
            && (found.Some? ==> forall i | 0 <= i < |t.sessions| && S.Active(t.sessions[i].session) && t.sessions[i].config.peerVip == vip ::
                  i == found.value)
  {
    hide E.AddAll, E.TimeOrder, EndedKnown;
    var k := RouteIndex(vip);
    if k.Some? && t.routes[k.value].Some? {
      var id := t.routes[k.value].value;
      assert Held(t, id, k.value);
      var j: nat :| j < |t.sessions| && Owns(t.sessions[j], id, k.value);
      var found := Find(t.sessions, id, 0).value;
      OneOfAName(t, now, j);
      forall i | 0 <= i < |t.sessions| && S.Active(t.sessions[i].session) && t.sessions[i].config.peerVip == vip
        ensures i == found
      {
        assert t.routes[k.value] == Some(t.sessions[i].id);
      }
    }
  }

  // ---------------------------------------------------------------- a new session

  // A peer that has no session going on, at an address of the room that is not ours and nobody holds.
  predicate IsWelcome(t: State, q: NewSession)
    requires |t.routes| == MAX_PEERS + 1
  {
    && (forall i | 0 <= i < |t.sessions| :: t.sessions[i].id == q.id ==> !S.Active(t.sessions[i].session))
    && VIRTUAL_NETWORK + 1 <= q.peerVip <= VIRTUAL_NETWORK + MAX_PEERS && q.peerVip != q.localVip
    && t.routes[q.peerVip - VIRTUAL_NETWORK].None?
  }

  // The same session: what is noted of its registration aside.
  ghost predicate SameSession(a: Entry, b: Entry) {
    a.id == b.id && a.config == b.config && a.session == b.session
  }

  lemma RouteIndexMeans(vip: U32)
    ensures RouteIndex(vip).Some? <==> VIRTUAL_NETWORK + 1 <= vip <= VIRTUAL_NETWORK + MAX_PEERS
    ensures RouteIndex(vip).Some? ==> RouteIndex(vip).value == vip - VIRTUAL_NETWORK
  {
  }

  lemma WelcomeIs(t: State, q: NewSession, now: nat)
    requires Core(t, now) && |t.routes| == MAX_PEERS + 1
    ensures MayCreate(t, q) <==> IsWelcome(t, q)
  {
    RouteIndexMeans(q.peerVip);
    var i := Find(t.sessions, q.id, 0);
    if i.Some? {
      OneOfAName(t, now, i.value);
    }
    hide Core, RouteIndex, S.Active;
  }

  // Everyone else is still there, and nobody else is new.
  ghost predicate OthersStay(t: seq<Entry>, r: seq<Entry>, id: PeerId) {
    && (forall i | 0 <= i < |t| && t[i].id != id :: exists j :: 0 <= j < |r| && SameSession(t[i], r[j]))
    && (forall j | 0 <= j < |r| && r[j].id != id :: exists i :: 0 <= i < |t| && SameSession(t[i], r[j]))
  }

  // Main result: a session is made exactly for a welcome peer for whom both draws succeed: fresh, with what was asked
  // for, on the route of its address; every other session stays as it was.
  lemma WelcomeIndex(t: State, q: NewSession)
    requires |t.routes| == MAX_PEERS + 1 && IsWelcome(t, q)
    ensures RouteIndex(q.peerVip) == Some(q.peerVip - VIRTUAL_NETWORK)
  {
    RouteIndexMeans(q.peerVip);
  }

  lemma CreateMeans(t: State, q: NewSession, epochs: seq<Option<U32>>, nonces: seq<Option<S.Nonce>>, now: nat)
    requires Inv(t, now) && |t.routes| == MAX_PEERS + 1
    ensures var (r, ok) := CreateSession(t, q, epochs, nonces, now);
            var nonce := E.DrawNonce(Register(t, now).retiredNonces, now, nonces);
            && (ok <==> IsWelcome(t, q) && E.DrawEpoch(epochs).Some? && nonce.Some?)
            && (!IsWelcome(t, q) ==> r == t)
            && (!ok ==> |r.sessions| == |t.sessions| && forall i | 0 <= i < |t.sessions| :: SameSession(t.sessions[i], r.sessions[i]))
            && (ok ==>
                  && NewEntry(q, nonce.value, now) in r.sessions
                  && (forall e | e in r.sessions && e.id == q.id :: e == NewEntry(q, nonce.value, now))
                  && OthersStay(t.sessions, r.sessions, q.id)
                  && r.routes == t.routes[q.peerVip - VIRTUAL_NETWORK := Some(q.id)] && r.localVip == Some(q.localVip))
  {
    hide Core, E.DrawEpoch, E.DrawNonce, Register, MayCreate, IsWelcome, TerminalCount, NewEntry, Insert, Without, OthersStay, RouteIndex;
    WelcomeIs(t, q, now);
    if MayCreate(t, q) {
      RegisterFinds(t, now);
      var t1 := Register(t, now);
      var nonce := E.DrawNonce(t1.retiredNonces, now, nonces);
      RouteIndexMeans(q.peerVip);
      WelcomeIndex(t, q);
      if E.DrawEpoch(epochs).Some? && nonce.Some? {
        CreatedAmong(t, t1, q, nonce.value, now);
      }
    }
  }

  lemma CreatedAmong(t: State, t1: State, q: NewSession, nonce: S.Nonce, now: nat)
    requires Core(t1, now) && SameTable(t, t1)
    ensures var r := Insert(Without(t1.sessions, q.id), NewEntry(q, nonce, now));
            && NewEntry(q, nonce, now) in r && OthersStay(t.sessions, r, q.id)
            && forall e | e in r && e.id == q.id :: e == NewEntry(q, nonce, now)
  {
    WithoutAre(t1, q.id, now);
    var rest := Without(t1.sessions, q.id);
    var added := NewEntry(q, nonce, now);
    var r := Insert(rest, added);
    assert added.id == q.id;
    hide Core, Insert, Without, NewEntry, RouteIndex;
    OthersAre(t.sessions, t1.sessions, rest, r, added, q.id);
  }

  lemma WithoutAre(t: State, id: PeerId, now: nat)
    requires Core(t, now)
    ensures var rest := Without(t.sessions, id);
            && (forall e | e in rest :: e in t.sessions && e.id != id)
            && (forall e | e in t.sessions && e.id != id :: e in rest)
  {
    var i := Find(t.sessions, id, 0);
    if i.Some? {
      var rest := Without(t.sessions, id);
      assert Rising(t.sessions) by {
        hide E.AddAll, E.TimeOrder, RoutesOk, EndedKnown;
      }
      hide Core;
      NotTwice(t.sessions, i.value);
      forall e | e in t.sessions && e.id != id
        ensures e in rest
      {
        var k :| 0 <= k < |t.sessions| && t.sessions[k] == e;
        assert rest[if k < i.value then k else k - 1] == e;
      }
    }
  }

  lemma OthersAre(t: seq<Entry>, t1: seq<Entry>, rest: seq<Entry>, r: seq<Entry>, added: Entry, id: PeerId)
    requires |t| == |t1| && forall k | 0 <= k < |t| :: SameSession(t[k], t1[k])
    requires (forall e | e in rest :: e in t1 && e.id != id) && (forall e | e in t1 && e.id != id :: e in rest)
    requires added.id == id && forall e :: e in r <==> e == added || e in rest
    ensures OthersStay(t, r, id) && forall e | e in r && e.id == id :: e == added
  {
    forall i | 0 <= i < |t| && t[i].id != id
      ensures exists j :: 0 <= j < |r| && SameSession(t[i], r[j])
    {
      assert t1[i] in rest && t1[i] in r;
      var j :| 0 <= j < |r| && r[j] == t1[i];
      assert SameSession(t[i], r[j]);
    }
    forall j | 0 <= j < |r| && r[j].id != id
      ensures exists i :: 0 <= i < |t| && SameSession(t[i], r[j])
    {
      assert r[j] in r && r[j] in t1;
      var i :| 0 <= i < |t1| && t1[i] == r[j];
      assert SameSession(t[i], r[j]);
    }
  }
}
