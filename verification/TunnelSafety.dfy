/**
 What every run of the tunnel keeps: table and routes agree, ended sessions are few, abandoned
 epochs do not come back, and a new attempt has a nonce of its own.
 */
module TunnelSafety {
  import opened Wrappers
  import opened TunnelSpec
  import S = SessionSpec
  import E = Epochs
  import Bytes

  // ---------------------------------------------------------------- one session

  predicate SessionOk(s: S.State) {
    && (s.terminal.Some? <==> s.terminalSince.Some?)
    && (s.terminal.Some? ==> s.terminal.value.Terminal())
  }

  lemma ActiveIsNotTerminal(s: S.State)
    requires SessionOk(s)
    ensures S.Active(s) <==> s.terminal.None?
  {
  }

  // A call on a session leaves it sound; it may end it, never revive it, and it notes at this moment
  // what epochs it abandons.
  ghost predicate Carries(s: S.State, r: S.State, now: nat) {
    && SessionOk(r) && (S.Active(r) ==> S.Active(s))
    && |s.retires| <= |r.retires| && r.retires[..|s.retires|] == s.retires
    && (forall k | |s.retires| <= k < |r.retires| :: r.retires[k].at == now)
  }

  // Main result, one packet: a session comes to pin another epoch only from this packet, and then
  // puts the one it had on its record of abandoned epochs.
  lemma ReceivePins(c: S.Config, s: S.State, p: S.RxPacket, now: nat)
    ensures var r := S.Receive(c, s, p, now).0;
            && (r.pinned != s.pinned ==> r.pinned == Some(p.epoch))
            && (if s.pinned.Some? && r.pinned != s.pinned then r.retires == s.retires + [S.Retire(s.pinned.value, now)]
                else r.retires == s.retires)
            && S.EndsOnce(s, r)
  {
    hide S.AfterGate, S.Renegotiate, S.ExpireProbes, S.FindProbe, S.PhaseOf;
  }

  lemma ReceiveCarries(c: S.Config, s: S.State, p: S.RxPacket, now: nat)
    requires SessionOk(s)
    ensures Carries(s, S.Receive(c, s, p, now).0, now)
  {
    hide S.AfterGate, S.EpochGate;
    ReceivePins(c, s, p, now);
  }

  lemma PollCarries(c: S.Config, s: S.State, now: nat)
    requires SessionOk(s)
    ensures Carries(s, S.Poll(c, s, now), now)
  {
    hide S.ExpireProbes, S.Fail, S.PollPeriodic;
  }

  lemma CloseCarries(c: S.Config, s: S.State, now: nat)
    requires SessionOk(s)
    ensures Carries(s, S.CloseByUser(c, s, now), now)
    ensures !S.Active(S.CloseByUser(c, s, now))
  {
  }

  lemma StartPunchCarries(c: S.Config, s: S.State, now: nat)
    requires SessionOk(s)
    ensures Carries(s, S.StartPunch(c, s, now).0, now)
  {
    hide S.HelloRound;
  }

  lemma SendDataCarries(c: S.Config, s: S.State, inner: seq<Byte>, now: nat)
    requires SessionOk(s)
    ensures Carries(s, S.SendData(c, s, inner, now).0, now)
  {
    hide S.SendData;
  }

  // ---------------------------------------------------------------- the invariant

  ghost predicate Rising(sessions: seq<Entry>) {
    forall i, j | 0 <= i < j < |sessions| :: sessions[i].id < sessions[j].id
  }

  ghost predicate TableOk(t: State) {
    && Rising(t.sessions)
    && (forall i | 0 <= i < |t.sessions| ::
          SessionOk(t.sessions[i].session) && (t.sessions[i].nonceRetired ==> !S.Active(t.sessions[i].session)))
  }

  // This entry is active, of this peer and at this slot.
  predicate Owns(e: Entry, id: PeerId, k: nat) {
    S.Active(e.session) && e.id == id && RouteIndex(e.config.peerVip) == Some(k)
  }

  ghost predicate Held(t: State, id: PeerId, k: nat) {
    exists i :: 0 <= i < |t.sessions| && Owns(t.sessions[i], id, k)
  }

  // Every active session holds the slot of its address, and every slot that is held is held by one.
  ghost predicate RoutesOk(t: State) {
    && |t.routes| == MAX_PEERS + 1
    && (forall i | 0 <= i < |t.sessions| && S.Active(t.sessions[i].session) ::
          var k := RouteIndex(t.sessions[i].config.peerVip);
          k.Some? && t.routes[k.value] == Some(t.sessions[i].id))
    && (forall k | 0 <= k <= MAX_PEERS && t.routes[k].Some? :: Held(t, t.routes[k].value, k))
  }

  predicate Waits(e: Entry, nonce: S.Nonce) {
    !S.Active(e.session) && !e.nonceRetired && e.config.attemptNonce == nonce
  }

  // The nonce of every attempt that ended since the last registration is still to be registered.
  ghost predicate EndedKnown(t: State) {
    forall n | n in t.ended :: n in t.endedNonces || exists i :: 0 <= i < |t.sessions| && Waits(t.sessions[i], n)
  }

  ghost predicate RetiredOk(t: State, now: nat) {
    && t.retired == E.AddAll([], t.added) && E.TimeOrder(t.added)
    && (t.added != [] ==> t.added[|t.added| - 1].at <= now)
  }

  // Between the parts of one call.
  ghost predicate Core(t: State, now: nat) {
    TableOk(t) && RoutesOk(t) && EndedKnown(t) && RetiredOk(t, now)
  }

  ghost predicate Inv(t: State, now: nat) {
    Core(t, now) && TerminalCount(t.sessions) <= MAX_RETAINED
  }

  lemma Later(t: State, now: nat, later: nat)
    requires Core(t, now) && now <= later
    ensures Core(t, later)
  {
  }

  // ---------------------------------------------------------------- updating one session

  lemma {:induction false} AddAllAppends(entries: seq<E.Entry>, a: seq<E.Entry>, b: seq<E.Entry>)
    ensures E.AddAll(E.AddAll(entries, a), b) == E.AddAll(entries, a + b)
  {
    if b == [] {
      assert a + b == a;
    } else {
      var n := |b| - 1;
      AddAllAppends(entries, a, b[..n]);
      assert (a + b)[..|a + b| - 1] == a + b[..n];
    }
  }

  lemma MoreRetired(t: State, more: seq<E.Entry>, now: nat)
    requires RetiredOk(t, now) && forall k | 0 <= k < |more| :: more[k].at == now
    ensures RetiredOk(t.(retired := E.AddAll(t.retired, more), added := t.added + more), now)
  {
    hide E.AddAll;
    AddAllAppends([], t.added, more);
  }

  lemma UpdateKeepsRoutes(t: State, i: nat, s: S.State, now: nat)
    requires TableOk(t) && RoutesOk(t) && i < |t.sessions| && Carries(t.sessions[i].session, s, now)
    ensures RoutesOk(Update(t, i, s))
  {
    var r := Update(t, i, s);
    var e := t.sessions[i];
    forall k | 0 <= k <= MAX_PEERS && r.routes[k].Some?
      ensures Held(r, r.routes[k].value, k)
    {
      assert t.routes[k] == r.routes[k];
      var j: nat :| j < |t.sessions| && Owns(t.sessions[j], t.routes[k].value, k);
      assert Owns(r.sessions[j], r.routes[k].value, k);
    }
  }

  lemma UpdateKeeps(t: State, i: nat, s: S.State, now: nat)
    requires Core(t, now) && i < |t.sessions| && Carries(t.sessions[i].session, s, now)
    ensures Core(Update(t, i, s), now)
  {
    hide E.AddAll, E.TimeOrder;
    var r := Update(t, i, s);
    var e := t.sessions[i];
    UpdateKeepsRoutes(t, i, s, now);
    var more := RetiresOf(s.retires[|e.session.retires|..]);
    MoreRetired(t, more, now);
    forall n | n in r.ended
      ensures n in r.endedNonces || exists j :: 0 <= j < |r.sessions| && Waits(r.sessions[j], n)
    {
      if n in t.ended {
        if n !in t.endedNonces {
          var j: nat :| j < |t.sessions| && Waits(t.sessions[j], n);
          assert Waits(r.sessions[j], n);
        }
      } else {
        assert Waits(r.sessions[i], n);
      }
    }
  }

  lemma EraseKeepsRoutes(t: State, i: nat)
    requires RoutesOk(t) && i < |t.sessions| && !S.Active(t.sessions[i].session)
    ensures RoutesOk(Erase(t, i))
  {
    var r := Erase(t, i);
    forall k | 0 <= k <= MAX_PEERS && r.routes[k].Some?
      ensures Held(r, r.routes[k].value, k)
    {
      var j: nat :| j < |t.sessions| && Owns(t.sessions[j], t.routes[k].value, k);
      assert Owns(r.sessions[if j < i then j else j - 1], r.routes[k].value, k);
    }
    forall j | 0 <= j < |r.sessions|
      ensures r.sessions[j] == t.sessions[if j < i then j else j + 1]
    {
    }
  }

  lemma EraseKeepsEnded(t: State, i: nat)
    requires EndedKnown(t) && i < |t.sessions|
    ensures EndedKnown(Erase(t, i))
  {
    var r := Erase(t, i);
    forall n | n in r.ended
      ensures n in r.endedNonces || exists j :: 0 <= j < |r.sessions| && Waits(r.sessions[j], n)
    {
      if n !in r.endedNonces {
        var j: nat :| j < |t.sessions| && Waits(t.sessions[j], n);
        assert j != i;
        assert Waits(r.sessions[if j < i then j else j - 1], n);
      }
    }
  }

  lemma EraseKeeps(t: State, i: nat, now: nat)
    requires Core(t, now) && i < |t.sessions| && !S.Active(t.sessions[i].session)
    ensures Core(Erase(t, i), now)
  {
    EraseKeepsRoutes(t, i);
    EraseKeepsEnded(t, i);
    hide E.AddAll, E.TimeOrder, RoutesOk, EndedKnown;
  }

  // ---------------------------------------------------------------- the cap

  lemma {:induction false} TerminalIsFound(sessions: seq<Entry>, i: nat, best: Option<nat>)
    requires i <= |sessions| && (best.Some? ==> best.value < |sessions| && sessions[best.value].session.terminalSince.Some?)
    requires forall k | 0 <= k < |sessions| :: SessionOk(sessions[k].session)
    requires best.Some? || TerminalCount(sessions[i..]) > 0
    ensures Oldest(sessions, i, best).Some?
    decreases |sessions| - i
  {
    if i < |sessions| {
      var since := sessions[i].session.terminalSince;
      ActiveIsNotTerminal(sessions[i].session);
      assert sessions[i..][1..] == sessions[i + 1..];
      var better := since.Some? && (best.None? || since.value < sessions[best.value].session.terminalSince.value);
      TerminalIsFound(sessions, i + 1, if better then Some(i) else best);
    }
  }

  lemma {:induction false} CapKeeps(t: State, now: nat)
    requires Core(t, now)
    ensures Inv(EnforceCap(t), now)
    decreases |t.sessions|
  {
    if TerminalCount(t.sessions) > MAX_RETAINED {
      assert t.sessions[0..] == t.sessions;
      TerminalIsFound(t.sessions, 0, None);
      var i := Oldest(t.sessions, 0, None).value;
      ActiveIsNotTerminal(t.sessions[i].session);
      EraseKeeps(t, i, now);
      CapKeeps(Erase(t, i), now);
    }
  }

  lemma {:induction false} PollKeeps(t: State, i: nat, now: nat)
    requires Core(t, now) && i <= |t.sessions|
    ensures Core(PollFrom(t, i, now), now)
    decreases |t.sessions| - i
  {
    hide Core, Update, S.Poll, Carries;
    if i < |t.sessions| {
      var e := t.sessions[i];
      assert SessionOk(e.session) by { CoreSession(t, i, now); }
      PollCarries(e.config, e.session, now);
      UpdateKeeps(t, i, S.Poll(e.config, e.session, now), now);
      PollKeeps(Update(t, i, S.Poll(e.config, e.session, now)), i + 1, now);
    }
  }

  lemma CoreSession(t: State, i: nat, now: nat)
    requires Core(t, now) && i < |t.sessions|
    ensures SessionOk(t.sessions[i].session)
  {
  }

  lemma {:induction false} ExpireKeeps(t: State, i: nat, now: nat)
    requires Core(t, now) && i <= |t.sessions|
    ensures Core(ExpireFrom(t, i, now), now)
    decreases |t.sessions| - i
  {
    hide Core, Erase;
    if i < |t.sessions| {
      CoreSession(t, i, now);
      ActiveIsNotTerminal(t.sessions[i].session);
      var since := t.sessions[i].session.terminalSince;
      if since.Some? && since.value + TERMINAL_TTL <= now {
        EraseKeeps(t, i, now);
        ExpireKeeps(Erase(t, i), i, now);
      } else {
        ExpireKeeps(t, i + 1, now);
      }
    }
  }

  lemma {:induction false} CloseKeeps(t: State, i: nat, now: nat)
    requires Core(t, now) && i <= |t.sessions|
    requires forall k | 0 <= k < i :: !S.Active(t.sessions[k].session)
    ensures Core(CloseFrom(t, i, now), now)
    ensures forall k | 0 <= k < |CloseFrom(t, i, now).sessions| :: !S.Active(CloseFrom(t, i, now).sessions[k].session)
    decreases |t.sessions| - i
  {
    hide Core, S.CloseByUser, Carries;
    if i < |t.sessions| {
      var e := t.sessions[i];
      CoreSession(t, i, now);
      CloseCarries(e.config, e.session, now);
      var s := S.CloseByUser(e.config, e.session, now);
      UpdateKeeps(t, i, s, now);
      CloseKeeps(Update(t, i, s), i + 1, now);
    }
  }

  lemma {:induction false} EraseAllKeeps(t: State, now: nat)
    requires Core(t, now) && forall k | 0 <= k < |t.sessions| :: !S.Active(t.sessions[k].session)
    ensures Core(EraseAll(t), now)
    decreases |t.sessions|
  {
    if t.sessions != [] {
      EraseKeeps(t, 0, now);
      EraseAllKeeps(Erase(t, 0), now);
    }
  }

  // ---------------------------------------------------------------- registering ended attempts

  lemma {:induction false} LiveFinds(entries: seq<E.Entry>, key: nat, now: nat)
    requires E.Contains(entries, key, now)
    ensures E.Contains(E.Live(entries, now), key, now)
  {
    var i :| 0 <= i < |entries| && entries[i].key == key && !E.Expired(entries[i], now);
    var live := E.Live(entries, now);
    if i == 0 {
      assert live[0] == entries[0];
    } else {
      var tail := entries[1..];
      assert tail[i - 1] == entries[i];
      LiveFinds(tail, key, now);
      var rest := E.Live(tail, now);
      var j :| 0 <= j < |rest| && rest[j].key == key && !E.Expired(rest[j], now);
      assert live[if E.Expired(entries[0], now) then j else j + 1] == rest[j];
    }
  }

  lemma AddNonceFinds(retired: seq<E.Entry>, nonce: S.Nonce, now: nat)
    ensures E.Contains(E.AddNonce(retired, E.Entry(nonce, now)), nonce, now)
    ensures StillFound(retired, E.AddNonce(retired, E.Entry(nonce, now)), now)
  {
    var r := E.AddNonce(retired, E.Entry(nonce, now));
    assert r[|r| - 1] == E.Entry(nonce, now);
    forall key | E.Contains(retired, key, now)
      ensures E.Contains(r, key, now)
    {
      LiveFinds(retired, key, now);
      var live := E.Live(retired, now);
      var j :| 0 <= j < |live| && live[j].key == key && !E.Expired(live[j], now);
      assert r[j] == live[j];
    }
  }

  lemma {:induction false} AddNoncesFinds(retired: seq<E.Entry>, nonces: seq<S.Nonce>, now: nat)
    ensures var r := AddNonces(retired, nonces, now);
            && (forall n | n in nonces :: E.Contains(r, n, now))
            && StillFound(retired, r, now)
    decreases |nonces|
  {
    if nonces != [] {
      AddNonceFinds(retired, nonces[0], now);
      AddNoncesFinds(E.AddNonce(retired, E.Entry(nonces[0], now)), nonces[1..], now);
    }
  }

  // Only the flags of ended sessions change in the table.
  ghost predicate SameTable(t: State, r: State) {
    && |r.sessions| == |t.sessions| && r.routes == t.routes
    && (forall k | 0 <= k < |t.sessions| ::
          && r.sessions[k] == t.sessions[k].(epochRetired := r.sessions[k].epochRetired, nonceRetired := r.sessions[k].nonceRetired)
          && (S.Active(t.sessions[k].session) ==> r.sessions[k] == t.sessions[k]))
  }

  // Whatever was on the list still is.
  ghost predicate StillFound(before: seq<E.Entry>, after: seq<E.Entry>, now: nat) {
    forall key | E.Contains(before, key, now) :: E.Contains(after, key, now)
  }

  ghost predicate WaitersFound(t: State, i: nat, retired: seq<E.Entry>, now: nat) {
    forall k, n | i <= k < |t.sessions| && Waits(t.sessions[k], n) :: E.Contains(retired, n, now)
  }

  lemma RegisterOneFinds(t: State, i: nat, now: nat)
    requires i < |t.sessions| && RetiredOk(t, now) && !S.Active(t.sessions[i].session)
    ensures var r := RegisterOne(t, i, now);
            && SameTable(t, r) && RetiredOk(r, now) && r.endedNonces == t.endedNonces
            && StillFound(t.retiredNonces, r.retiredNonces, now)
            && (forall n | Waits(t.sessions[i], n) :: E.Contains(r.retiredNonces, n, now))
            && (forall k | i < k < |t.sessions| :: r.sessions[k] == t.sessions[k])
  {
    hide E.AddNonce, E.Contains, E.AddAll, E.TimeOrder;
    var e := t.sessions[i];
    MoreRetired(t, if !e.epochRetired && e.session.pinned.Some? then [E.Entry(e.session.pinned.value, now)] else [], now);
    AddNonceFinds(t.retiredNonces, e.config.attemptNonce, now);
  }

  lemma {:induction false} RegisterEndedFinds(t: State, i: nat, now: nat)
    requires i <= |t.sessions| && RetiredOk(t, now)
    ensures var r := RegisterEnded(t, i, now);
            && SameTable(t, r) && RetiredOk(r, now) && r.endedNonces == t.endedNonces
            && WaitersFound(t, i, r.retiredNonces, now) && StillFound(t.retiredNonces, r.retiredNonces, now)
    decreases |t.sessions| - i
  {
    hide RegisterOne, E.Contains, RetiredOk;
    if i < |t.sessions| {
      var s := if S.Active(t.sessions[i].session) then t else RegisterOne(t, i, now);
      if !S.Active(t.sessions[i].session) {
        RegisterOneFinds(t, i, now);
      }
      RegisterEndedFinds(s, i + 1, now);
      var r := RegisterEnded(s, i + 1, now);
      forall k, n | i <= k < |t.sessions| && Waits(t.sessions[k], n)
        ensures E.Contains(r.retiredNonces, n, now)
      {
        if k > i {
          assert Waits(s.sessions[k], n);
        }
      }
    }
  }

  // After registering, every attempt that ended since the last time is on the list of nonces.
  lemma RegisterFinds(t: State, now: nat)
    requires Core(t, now)
    ensures Core(Register(t, now), now) && SameTable(t, Register(t, now))
    ensures forall n | n in t.ended :: E.Contains(Register(t, now).retiredNonces, n, now)
  {
    hide E.AddAll, E.Contains;
    var t1 := RegisterEnded(t, 0, now);
    RegisterEndedFinds(t, 0, now);
    AddNoncesFinds(t1.retiredNonces, t1.endedNonces, now);
    var r := Register(t, now);
    assert r.retiredNonces == AddNonces(t1.retiredNonces, t1.endedNonces, now);
    hide AddNonces;
    forall n | n in t.ended
      ensures E.Contains(r.retiredNonces, n, now)
    {
      if n !in t.endedNonces {
        var j: nat :| j < |t.sessions| && Waits(t.sessions[j], n);
        assert E.Contains(t1.retiredNonces, n, now);
      } else {
        assert n in t1.endedNonces;
      }
    }
    assert RoutesOk(r) by { SameTableRoutes(t, r); }
  }

  lemma SameTableRoutes(t: State, r: State)
    requires RoutesOk(t) && SameTable(t, r)
    ensures RoutesOk(r)
  {
    forall k | 0 <= k <= MAX_PEERS && r.routes[k].Some?
      ensures Held(r, r.routes[k].value, k)
    {
      var j: nat :| j < |t.sessions| && Owns(t.sessions[j], t.routes[k].value, k);
      assert Owns(r.sessions[j], r.routes[k].value, k);
    }
  }

  // ---------------------------------------------------------------- creating a session

  lemma {:induction false} InsertSorted(sessions: seq<Entry>, e: Entry)
    requires Rising(sessions) && forall i | 0 <= i < |sessions| :: sessions[i].id != e.id
    ensures Rising(Insert(sessions, e))
  {
    var r := Insert(sessions, e);
    if sessions != [] && sessions[0].id <= e.id {
      var tail := sessions[1..];
      InsertSorted(tail, e);
      var rest := Insert(tail, e);
      assert Rising(rest);
      assert r == [sessions[0]] + rest;
      forall j | 0 <= j < |rest|
        ensures sessions[0].id < rest[j].id
      {
        assert rest[j] in rest;
        if rest[j] != e {
          var k: nat :| k < |tail| && tail[k] == rest[j];
          assert sessions[k + 1] == rest[j];
        }
      }
      forall i, j | 0 <= i < j < |r|
        ensures r[i].id < r[j].id
      {
        if i > 0 {
          assert r[i] == rest[i - 1] && r[j] == rest[j - 1];
        } else {
          assert r[j] == rest[j - 1];
        }
      }
    }
  }

  lemma {:induction false} InsertCounts(sessions: seq<Entry>, e: Entry)
    ensures TerminalCount(Insert(sessions, e)) == TerminalCount(sessions) + if S.Active(e.session) then 0 else 1
  {
    if sessions == [] || e.id < sessions[0].id {
      assert Insert(sessions, e)[1..] == sessions;
    } else {
      InsertCounts(sessions[1..], e);
      assert Insert(sessions, e)[1..] == Insert(sessions[1..], e);
    }
  }

  lemma {:induction false} CountParts(a: seq<Entry>, b: seq<Entry>)
    ensures TerminalCount(a + b) == TerminalCount(a) + TerminalCount(b)
  {
    if a == [] {
      assert a + b == b;
    } else {
      CountParts(a[1..], b);
      assert (a + b)[1..] == a[1..] + b;
    }
  }

  lemma {:induction false} SameTableCounts(t: seq<Entry>, r: seq<Entry>)
    requires |t| == |r| && forall k | 0 <= k < |t| :: r[k].session == t[k].session
    ensures TerminalCount(t) == TerminalCount(r)
  {
    if t != [] {
      SameTableCounts(t[1..], r[1..]);
    }
  }

  // An ended session of the same peer makes way.
  lemma WithoutKeeps(t: State, id: PeerId, now: nat)
    requires Core(t, now) && t.ended == {}
    requires var i := Find(t.sessions, id, 0); i.Some? ==> !S.Active(t.sessions[i.value].session)
    ensures var r := t.(sessions := Without(t.sessions, id));
            && Core(r, now) && TerminalCount(r.sessions) <= TerminalCount(t.sessions)
            && forall k | 0 <= k < |r.sessions| :: r.sessions[k].id != id
  {
    var i := Find(t.sessions, id, 0);
    if i.Some? {
      RemoveKeeps(t, i.value, now);
      NotTwice(t.sessions, i.value);
    }
    hide Core, TerminalCount, Rising;
  }

  lemma NotTwice(sessions: seq<Entry>, i: nat)
    requires Rising(sessions) && i < |sessions|
    ensures var rest := sessions[..i] + sessions[i + 1..];
            forall k | 0 <= k < |rest| :: rest[k].id != sessions[i].id
  {
    var rest := sessions[..i] + sessions[i + 1..];
    forall k | 0 <= k < |rest|
      ensures rest[k].id != sessions[i].id
    {
      assert rest[k] == sessions[if k < i then k else k + 1];
    }
  }

  lemma RemoveKeeps(t: State, i: nat, now: nat)
    requires Core(t, now) && t.ended == {} && i < |t.sessions| && !S.Active(t.sessions[i].session)
    ensures var rest := t.sessions[..i] + t.sessions[i + 1..];
            Core(t.(sessions := rest), now) && TerminalCount(rest) <= TerminalCount(t.sessions)
  {
    hide E.AddAll, E.TimeOrder;
    hide RoutesOk, TerminalCount;
    EraseKeepsRoutes(t, i);
    SameSessions(Erase(t, i), t.(sessions := t.sessions[..i] + t.sessions[i + 1..]));
    RemoveCounts(t.sessions, i);
  }

  lemma RemoveCounts(sessions: seq<Entry>, i: nat)
    requires i < |sessions|
    ensures TerminalCount(sessions[..i] + sessions[i + 1..]) <= TerminalCount(sessions)
  {
    var a, mid, b := sessions[..i], [sessions[i]], sessions[i + 1..];
    assert sessions == a + (mid + b);
    hide TerminalCount;
    CountParts(a, b);
    CountParts(a, mid + b);
    CountParts(mid, b);
  }

  lemma SameSessions(t: State, r: State)
    requires RoutesOk(t) && r.sessions == t.sessions && r.routes == t.routes
    ensures RoutesOk(r)
  {
    forall k | 0 <= k <= MAX_PEERS && r.routes[k].Some?
      ensures Held(r, r.routes[k].value, k)
    {
      var j: nat :| j < |t.sessions| && Owns(t.sessions[j], t.routes[k].value, k);
      assert Owns(r.sessions[j], r.routes[k].value, k);
    }
  }

  lemma InsertKeepsTable(t: State, q: NewSession, nonce: S.Nonce, now: nat)
    requires TableOk(t) && forall k | 0 <= k < |t.sessions| :: t.sessions[k].id != q.id
    ensures TableOk(t.(sessions := Insert(t.sessions, NewEntry(q, nonce, now))))
    ensures TerminalCount(Insert(t.sessions, NewEntry(q, nonce, now))) == TerminalCount(t.sessions)
  {
    var e := NewEntry(q, nonce, now);
    InsertSorted(t.sessions, e);
    InsertCounts(t.sessions, e);
    var r := Insert(t.sessions, e);
    forall i | 0 <= i < |r|
      ensures SessionOk(r[i].session) && (r[i].nonceRetired ==> !S.Active(r[i].session))
    {
      assert r[i] in r;
    }
  }

  lemma InsertKeepsRoutes(t: State, q: NewSession, nonce: S.Nonce, now: nat)
    requires RoutesOk(t) && RouteIndex(q.peerVip).Some? && t.routes[RouteIndex(q.peerVip).value].None?
    requires forall k | 0 <= k < |t.sessions| :: t.sessions[k].id != q.id
    ensures RoutesOk(t.(sessions := Insert(t.sessions, NewEntry(q, nonce, now)),
                        routes := t.routes[RouteIndex(q.peerVip).value := Some(q.id)]))
  {
    var e := NewEntry(q, nonce, now);
    var slot := RouteIndex(q.peerVip).value;
    var r := t.(sessions := Insert(t.sessions, e), routes := t.routes[slot := Some(q.id)]);
    forall i | 0 <= i < |r.sessions| && S.Active(r.sessions[i].session)
      ensures var k := RouteIndex(r.sessions[i].config.peerVip);
              k.Some? && r.routes[k.value] == Some(r.sessions[i].id)
    {
      assert r.sessions[i] in r.sessions;
      if r.sessions[i] != e {
        assert r.sessions[i] in t.sessions;
      }
    }
    forall k | 0 <= k <= MAX_PEERS && r.routes[k].Some?
      ensures Held(r, r.routes[k].value, k)
    {
      if k == slot {
        assert e in r.sessions;
        var i: nat :| i < |r.sessions| && r.sessions[i] == e;
        assert Owns(r.sessions[i], q.id, k);
      } else {
        var j: nat :| j < |t.sessions| && Owns(t.sessions[j], t.routes[k].value, k);
        assert t.sessions[j] in r.sessions;
        var i: nat :| i < |r.sessions| && r.sessions[i] == t.sessions[j];
        assert Owns(r.sessions[i], r.routes[k].value, k);
      }
    }
  }

  // Main result: a new session takes a free slot, and its nonce is none of those of the attempts that
  // ended since attempts were last registered.
  lemma CreateKeeps(t: State, q: NewSession, epochs: seq<Option<U32>>, nonces: seq<Option<S.Nonce>>, now: nat)
    requires Inv(t, now)
    ensures var (r, ok) := CreateSession(t, q, epochs, nonces, now);
            && Inv(r, now)
            && (ok ==> exists nonce: S.Nonce :: NewEntry(q, nonce, now) in r.sessions && nonce !in t.ended)
  {
    hide Core, E.DrawEpoch, E.DrawNonce, Register, Insert, S.Initial;
    assert |t.routes| == MAX_PEERS + 1 by { CoreSize(t, now); }
    if MayCreate(t, q) {
      RegisterFinds(t, now);
      var t1 := Register(t, now);
      SameTableCounts(t.sessions, t1.sessions);
      var epoch := E.DrawEpoch(epochs);
      var nonce := E.DrawNonce(t1.retiredNonces, now, nonces);
      if epoch.Some? && nonce.Some? {
        RegisteredIsClear(t, now);
        SameFind(t, t1, q.id);
        WithoutKeeps(t1, q.id, now);
        var t2 := t1.(sessions := Without(t1.sessions, q.id));
        InsertKeeps(t2, q, nonce.value, now);
        assert NewEntry(q, nonce.value, now) in CreateSession(t, q, epochs, nonces, now).0.sessions;
      }
    }
  }

  lemma CoreSize(t: State, now: nat)
    requires Core(t, now)
    ensures |t.routes| == MAX_PEERS + 1
  {
  }

  lemma RegisteredIsClear(t: State, now: nat)
    ensures Register(t, now).ended == {}
  {
  }

  lemma {:induction false} SameFindFrom(a: seq<Entry>, b: seq<Entry>, id: PeerId, i: nat)
    requires |a| == |b| && i <= |a| && forall k | 0 <= k < |a| :: a[k].id == b[k].id
    ensures Find(a, id, i) == Find(b, id, i)
    decreases |a| - i
  {
    if i < |a| {
      SameFindFrom(a, b, id, i + 1);
    }
  }

  lemma SameFind(t: State, r: State, id: PeerId)
    requires SameTable(t, r)
    ensures Find(t.sessions, id, 0) == Find(r.sessions, id, 0)
  {
    SameFindFrom(t.sessions, r.sessions, id, 0);
  }

  lemma InsertKeeps(t: State, q: NewSession, nonce: S.Nonce, now: nat)
    requires Core(t, now) && t.ended == {} && TerminalCount(t.sessions) <= MAX_RETAINED
    requires RouteIndex(q.peerVip).Some? && t.routes[RouteIndex(q.peerVip).value].None?
    requires forall k | 0 <= k < |t.sessions| :: t.sessions[k].id != q.id
    ensures Inv(t.(sessions := Insert(t.sessions, NewEntry(q, nonce, now)),
                   routes := t.routes[RouteIndex(q.peerVip).value := Some(q.id)], localVip := Some(q.localVip)), now)
  {
    hide E.AddAll, E.TimeOrder;
    InsertKeepsTable(t, q, nonce, now);
    InsertKeepsRoutes(t, q, nonce, now);
    var r := t.(sessions := Insert(t.sessions, NewEntry(q, nonce, now)),
                routes := t.routes[RouteIndex(q.peerVip).value := Some(q.id)]);
    var u := r.(localVip := Some(q.localVip));
    SameSessions(r, u);
  }

  // ---------------------------------------------------------------- every step and run

  lemma DatagramKeeps(t: State, id: PeerId, p: S.RxPacket, now: nat)
    requires Inv(t, now)
    ensures Inv(OnDatagram(t, id, p, now).0, now)
  {
    hide Core, Update, S.Receive, E.Contains, EnforceCap;
    var i := Find(t.sessions, id, 0);
    if i.Some? {
      CoreSession(t, i.value, now);
      var e := t.sessions[i.value];
      ReceiveCarries(e.config, e.session, p, now);
      var s := S.Receive(e.config, e.session, p, now).0;
      UpdateKeeps(t, i.value, s, now);
      CapKeeps(Update(t, i.value, s), now);
    }
  }

  lemma {:induction false} UpdateCounts(sessions: seq<Entry>, i: nat, e: Entry)
    requires i < |sessions| && (S.Active(sessions[i].session) <==> S.Active(e.session))
    ensures TerminalCount(sessions[i := e]) == TerminalCount(sessions)
  {
    if i == 0 {
      assert sessions[i := e][1..] == sessions[1..];
    } else {
      UpdateCounts(sessions[1..], i - 1, e);
      assert sessions[i := e][1..] == sessions[1..][i - 1 := e];
    }
  }

  lemma PunchKeeps(t: State, id: PeerId, now: nat)
    requires Inv(t, now)
    ensures Inv(StartPunch(t, id, now), now)
  {
    hide Core, S.HelloRound;
    var i := Find(t.sessions, id, 0);
    if i.Some? {
      CoreSession(t, i.value, now);
      var e := t.sessions[i.value];
      StartPunchCarries(e.config, e.session, now);
      var s := S.StartPunch(e.config, e.session, now).0;
      UpdateKeeps(t, i.value, s, now);
      UpdateCounts(t.sessions, i.value, e.(session := s));
    }
  }

  lemma SendKeeps(t: State, inner: seq<Byte>, now: nat)
    requires Inv(t, now)
    ensures Inv(SendData(t, inner, now).0, now)
  {
    hide Core, S.SendData, Bytes.Read32, IsNotUnicast;
    CoreSize(t, now);
    var owner := if |inner| >= 20 then Lookup(t.routes, Bytes.Read32(inner, 16)) else None;
    var i := if owner.Some? then Find(t.sessions, owner.value, 0) else None;
    if i.Some? {
      CoreSession(t, i.value, now);
      var e := t.sessions[i.value];
      SendDataCarries(e.config, e.session, inner, now);
      var s := S.SendData(e.config, e.session, inner, now).0;
      UpdateKeeps(t, i.value, s, now);
      UpdateCounts(t.sessions, i.value, e.(session := s));
    }
  }

  lemma StepKeeps(t: State, e: Event, before: nat)
    requires Inv(t, before) && before <= e.now
    ensures Inv(Step(t, e), e.now)
  {
    hide Core, CreateSession, OnDatagram, StartPunch, SendData, EnforceCap, ExpireFrom, PollFrom, CloseFrom, EraseAll;
    Later(t, before, e.now);
    CoreSize(t, e.now);
    match e
    case Create(q, epochs, nonces, now) => CreateKeeps(t, q, epochs, nonces, now);
    case Datagram(id, p, now) => DatagramKeeps(t, id, p, now);
    case Timers(now) =>
      PollKeeps(t, 0, now);
      ExpireKeeps(PollFrom(t, 0, now), 0, now);
      CapKeeps(ExpireFrom(PollFrom(t, 0, now), 0, now), now);
    case Punch(id, now) => PunchKeeps(t, id, now);
    case SendInner(inner, now) => SendKeeps(t, inner, now);
    case Close(now) =>
      CloseKeeps(t, 0, now);
      CapKeeps(CloseFrom(t, 0, now), now);
    case Leave(now) =>
      CloseKeeps(t, 0, now);
      EraseAllKeeps(CloseFrom(t, 0, now), now);
      LeftIsEmpty(EraseAll(CloseFrom(t, 0, now)), now);
  }

  lemma LeftIsEmpty(t: State, now: nat)
    requires Core(t, now) && t.sessions == []
    ensures Inv(t.(localVip := None), now)
  {
    SameSessions(t, t.(localVip := None));
  }

  // The clock never goes back.
  predicate Timed(events: seq<Event>) {
    forall i, j | 0 <= i < j < |events| :: events[i].now <= events[j].now
  }

  function EndOf(events: seq<Event>): nat {
    if events == [] then 0 else events[|events| - 1].now
  }

  ghost function Run(events: seq<Event>): State
    requires Timed(events)
    ensures Inv(Run(events), EndOf(events))
  {
    if events == [] then
      assert Inv(Initial(), 0);
      Initial()
    else
      var n := |events| - 1;
      var t := Run(events[..n]);
      assert EndOf(events[..n]) <= events[n].now;
      StepKeeps(t, events[n], EndOf(events[..n]));
      CoreSize(t, EndOf(events[..n]));
      Step(t, events[n])
  }

  // Main result: after every call, slot k of the routes names a peer exactly when the active session
  // of that peer has address 10.100.0.k, and at most four ended sessions are kept.
  lemma RoutesAgree(events: seq<Event>, k: nat, id: PeerId)
    requires Timed(events) && k <= MAX_PEERS
    ensures var t := Run(events);
            && |t.routes| == MAX_PEERS + 1
            && (t.routes[k] == Some(id) <==> exists i :: 0 <= i < |t.sessions| && Owns(t.sessions[i], id, k))
            && TerminalCount(t.sessions) <= MAX_RETAINED
  {
    hide Run;
    var t := Run(events);
    if t.routes[k] == Some(id) {
      assert Held(t, id, k);
    }
  }

  // Main result: a packet of an epoch that was retired less than two minutes ago, with fewer than
  // sixteen retired since, changes nothing; in particular no session pins that epoch again.
  lemma NoFlapping(events: seq<Event>, e: Event, i: nat)
    requires Timed(events + [e]) && Timed(events) && e.Datagram?
    requires i < |Run(events).added| && Run(events).added[i].key == e.packet.epoch
    requires e.now < Run(events).added[i].at + E.TTL
    requires |Run(events).added| - 1 - i < E.MAX_RETIRED_EPOCHS
    ensures OnDatagram(Run(events), e.id, e.packet, e.now).0 == Run(events)
  {
    hide Run, Update, S.Receive, E.AddAll, EnforceCap;
    assert (events + [e])[..|events|] == events;
    var t := Run(events);
    LastEventBefore(events, e);
    E.RetiredForTwoMinutes(t.added, i, e.now);
  }

  lemma LastEventBefore(events: seq<Event>, e: Event)
    requires Timed(events + [e])
    ensures EndOf(events) <= e.now
  {
    if events != [] {
      var n := |events| - 1;
      assert (events + [e])[n] == events[n] && (events + [e])[n + 1] == e;
    }
  }

  // An epoch that a packet makes a session abandon is put on the list then and there.
  lemma AbandonedIsRetired(t: State, id: PeerId, p: S.RxPacket, now: nat, i: nat)
    requires Find(t.sessions, id, 0) == Some(i) && !E.Contains(t.retired, p.epoch, now)
    requires S.Active(t.sessions[i].session) && t.sessions[i].session.pinned.Some?
    requires var e := t.sessions[i]; S.Receive(e.config, e.session, p, now).0.pinned != e.session.pinned
    ensures OnDatagram(t, id, p, now).0.added == t.added + [E.Entry(t.sessions[i].session.pinned.value, now)]
  {
    hide S.Receive, E.AddAll;
    var e := t.sessions[i];
    ReceivePins(e.config, e.session, p, now);
    var s := S.Receive(e.config, e.session, p, now).0;
    assert s.retires[|e.session.retires|..] == [S.Retire(e.session.pinned.value, now)];
    CapLeavesAdded(Update(t, i, s));
  }

  lemma {:induction false} CapLeavesAdded(t: State)
    ensures EnforceCap(t).added == t.added
    decreases |t.sessions|
  {
    if TerminalCount(t.sessions) > MAX_RETAINED {
      var oldest := Oldest(t.sessions, 0, None);
      if oldest.Some? {
        CapLeavesAdded(Erase(t, oldest.value));
      }
    }
  }

  // ---------------------------------------------------------------- the history of retired epochs

  lemma {:induction false} PollAdds(t: State, i: nat, now: nat)
    requires i <= |t.sessions|
    ensures t.added <= PollFrom(t, i, now).added
    decreases |t.sessions| - i
  {
    if i < |t.sessions| {
      PollAdds(Update(t, i, S.Poll(t.sessions[i].config, t.sessions[i].session, now)), i + 1, now);
    }
  }

  lemma {:induction false} CloseAdds(t: State, i: nat, now: nat)
    requires i <= |t.sessions|
    ensures t.added <= CloseFrom(t, i, now).added
    decreases |t.sessions| - i
  {
    if i < |t.sessions| {
      CloseAdds(Update(t, i, S.CloseByUser(t.sessions[i].config, t.sessions[i].session, now)), i + 1, now);
    }
  }

  lemma {:induction false} ExpireLeavesAdded(t: State, i: nat, now: nat)
    requires i <= |t.sessions|
    ensures ExpireFrom(t, i, now).added == t.added
    decreases |t.sessions| - i
  {
    if i < |t.sessions| {
      var since := t.sessions[i].session.terminalSince;
      if since.Some? && since.value + TERMINAL_TTL <= now {
        ExpireLeavesAdded(Erase(t, i), i, now);
      } else {
        ExpireLeavesAdded(t, i + 1, now);
      }
    }
  }

  lemma {:induction false} EraseAllLeavesAdded(t: State)
    ensures EraseAll(t).added == t.added
    decreases |t.sessions|
  {
    if t.sessions != [] {
      EraseAllLeavesAdded(Erase(t, 0));
    }
  }

  lemma {:induction false} RegisterAdds(t: State, i: nat, now: nat)
    requires i <= |t.sessions|
    ensures t.added <= RegisterEnded(t, i, now).added
    decreases |t.sessions| - i
  {
    if i < |t.sessions| {
      RegisterAdds(if S.Active(t.sessions[i].session) then t else RegisterOne(t, i, now), i + 1, now);
    }
  }

  // What was retired stays in the history.
  lemma StepAdds(t: State, e: Event)
    requires |t.routes| == MAX_PEERS + 1
    ensures t.added <= Step(t, e).added
  {
    hide S.Receive, S.Poll, S.CloseByUser, S.StartPunch, S.SendData, E.AddAll, E.DrawEpoch, E.DrawNonce;
    match e
    case Create(_, _, _, now) => RegisterAdds(t, 0, now);
    case Datagram(id, p, now) =>
      var i := Find(t.sessions, id, 0);
      if i.Some? {
        CapLeavesAdded(Update(t, i.value, S.Receive(t.sessions[i.value].config, t.sessions[i.value].session, p, now).0));
      }
    case Timers(now) =>
      PollAdds(t, 0, now);
      ExpireLeavesAdded(PollFrom(t, 0, now), 0, now);
      CapLeavesAdded(ExpireFrom(PollFrom(t, 0, now), 0, now));
    case Punch(_, _) =>
    case SendInner(_, _) =>
    case Close(now) =>
      CloseAdds(t, 0, now);
      CapLeavesAdded(CloseFrom(t, 0, now));
    case Leave(now) =>
      CloseAdds(t, 0, now);
      EraseAllLeavesAdded(CloseFrom(t, 0, now));
  }

  lemma PrefixTimed(events: seq<Event>, k: nat)
    requires Timed(events) && k <= |events|
    ensures Timed(events[..k])
  {
  }

  // The tunnel after the first n events of a run.
  ghost function At(events: seq<Event>, n: nat): State
    requires Timed(events) && n <= |events|
    ensures |At(events, n).routes| == MAX_PEERS + 1
  {
    PrefixTimed(events, n);
    RunSize(events[..n]);
    Run(events[..n])
  }

  lemma NextAt(events: seq<Event>, n: nat)
    requires Timed(events) && n < |events|
    ensures At(events, n + 1) == Step(At(events, n), events[n])
  {
    PrefixTimed(events, n);
    PrefixTimed(events, n + 1);
    var after := events[..n + 1];
    assert after[..n] == events[..n] && after[n] == events[n];
    hide Inv, Step;
  }

  lemma {:induction false} HistoryGrows(events: seq<Event>, k: nat, n: nat)
    requires Timed(events) && k <= n <= |events|
    ensures At(events, k).added <= At(events, n).added
    decreases n
  {
    hide At, Step, Timed;
    if k < n {
      HistoryGrows(events, k, n - 1);
      NextAt(events, n - 1);
      StepAdds(At(events, n - 1), events[n - 1]);
    }
  }

  // Main result: the list of retired epochs stays distinct, in time order and at most sixteen long.
  lemma RetiredInOrder(events: seq<Event>)
    requires Timed(events)
    ensures E.InOrder(Run(events).retired, EndOf(events))
  {
    hide Run, E.AddAll;
    var added := Run(events).added;
    E.AddAllKeepsOrder(added);
  }

  // This datagram makes the session it is given to abandon this epoch.
  ghost predicate Abandons(t: State, e: Event, epoch: U32) {
    e.Datagram? && !E.Contains(t.retired, e.packet.epoch, e.now)
    && var i := Find(t.sessions, e.id, 0);
       && i.Some? && S.Active(t.sessions[i.value].session) && t.sessions[i.value].session.pinned == Some(epoch)
       && S.Receive(t.sessions[i.value].config, t.sessions[i.value].session, e.packet, e.now).0.pinned != Some(epoch)
  }

  // Main result, end to end: once the k-th event of a run has made a session abandon an epoch, a datagram
  // of that epoch changes nothing for two minutes, however the run goes on, unless sixteen more epochs
  // are retired meanwhile.
  lemma AbandonedForTwoMinutes(events: seq<Event>, k: nat, e: Event)
    requires Timed(events + [e]) && Timed(events) && k < |events| && e.Datagram?
    requires Abandons(At(events, k), events[k], e.packet.epoch)
    requires e.now < events[k].now + E.TTL
    requires |Run(events).added| - |At(events, k).added| <= E.MAX_RETIRED_EPOCHS
    ensures OnDatagram(Run(events), e.id, e.packet, e.now).0 == Run(events)
  {
    hide At, Run, OnDatagram, Abandons, Timed;
    AbandonedIsListed(events, k, e.packet.epoch);
    NoFlapping(events, e, |At(events, k).added|);
  }

  lemma AbandonedIsListed(events: seq<Event>, k: nat, epoch: U32)
    requires Timed(events) && k < |events| && Abandons(At(events, k), events[k], epoch)
    ensures var i := |At(events, k).added|;
            i < |Run(events).added| && Run(events).added[i] == E.Entry(epoch, events[k].now)
  {
    assert events[..|events|] == events;
    assert At(events, |events|) == Run(events);
    hide At, Run, Step, Abandons, Timed;
    HistoryGrows(events, k + 1, |events|);
    NextAt(events, k);
    AbandonedEntry(At(events, k), events[k], epoch);
  }

  lemma RunSize(events: seq<Event>)
    requires Timed(events)
    ensures |Run(events).routes| == MAX_PEERS + 1
  {
    CoreSize(Run(events), EndOf(events));
    hide Run;
  }

  lemma AbandonedEntry(t: State, e: Event, epoch: U32)
    requires |t.routes| == MAX_PEERS + 1 && Abandons(t, e, epoch)
    ensures Step(t, e).added == t.added + [E.Entry(epoch, e.now)]
  {
    hide S.Receive, E.Contains, OnDatagram;
    AbandonedIsRetired(t, e.id, e.packet, e.now, Find(t.sessions, e.id, 0).value);
  }

  // An inner packet leaves only through the connected session of its destination, and only when it
  // claims our own address as its source.
  lemma SentOnlyWhereRouted(events: seq<Event>, inner: seq<Byte>, now: nat)
    requires Timed(events)
    ensures var t := Run(events);
            SendData(t, inner, now).1 in {Sent, SendFailed} ==>
              && 20 <= |inner| <= MAX_INNER && t.localVip == Some(Bytes.Read32(inner, 12))
              && exists i :: 0 <= i < |t.sessions|
                   && S.PhaseOf(t.sessions[i].session) == S.Connected
                   && t.sessions[i].config.peerVip == Bytes.Read32(inner, 16)
  {
    hide Run, S.SendData;
    var t := Run(events);
    if SendData(t, inner, now).1 in {Sent, SendFailed} {
      var k := RouteIndex(Bytes.Read32(inner, 16)).value;
      var id := t.routes[k].value;
      assert Held(t, id, k);
      var j: nat :| j < |t.sessions| && Owns(t.sessions[j], id, k);
      var i := Find(t.sessions, id, 0).value;
      assert i == j;
    }
  }
}
